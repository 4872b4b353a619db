/** What a failed batch leaves in each job: the reason in the handoff, and nothing that only success may write. */
module DispatchFailure {
  import opened Wrappers
  import opened Sequences
  import opened JobModels
  import opened DispatchQueue
  import opened QueueLaws
  import Repo = JobRepository
  import opened DispatchSteps
  import opened DispatchJobs
  import opened DispatchDelivery

  /** When the jobs of a batch are distinct, each ends with the state saved for its own item. */
  lemma {:induction false} StateAt(t: Repo.Tables, items: seq<Item>, status: JobStatus, note: Note, settings: Settings,
                                   now: int, i: nat)
    requires Repo.KeyedRows(t) && DistinctJobs(items) && i < |items| && items[i].jobId in t.jobs
    ensures var t' := AllStates(t, items, status, note, settings, now);
            && items[i].jobId in t'.jobs
            && t'.jobs[items[i].jobId] == JobWithState(t.jobs[items[i].jobId], items[i], status, note, settings, now)
    decreases |items|
  {
    hide JobWithState;
    var t1 := AfterItemState(t, items[0], status, note, settings, now);
    ItemStateTouches(t, items[0], status, note, settings, now);
    AllStatesTouch(t1, items[1..], status, note, settings, now);
    if i > 0 {
      assert items[i] == items[1..][i - 1] && items[i].jobId != items[0].jobId;
      StateAt(t1, items[1..], status, note, settings, now, i - 1);
    }
  }

  /** The local write of an item raises `error`, and no earlier local write of the batch raises. */
  predicate FirstRaise(known: seq<Item>, env: Env, n: nat, settings: Settings, i: int, error: string) {
    && 0 <= i < |known| && StoresLocal(known[i], settings)
    && env.write(n, known[i].queueId) == Err(error)
    && forall j :: 0 <= j < i && StoresLocal(known[j], settings) ==> env.write(n, known[j].queueId).Ok?
  }

  /** Why a batch fails: the first of its local writes that raises, or else the bulk request. */
  ghost predicate FailedBecause(known: seq<Item>, env: Env, n: nat, settings: Settings, reason: string) {
    || (exists i :: FirstRaise(known, env, n, settings, i, reason))
    || (&& (forall j :: 0 <= j < |known| && StoresLocal(known[j], settings) ==> env.write(n, known[j].queueId).Ok?)
        && match env.bulk(n)
           case BulkRaised(message) => reason == "Elastic bulk request failed: " + message
           case BulkAnswered(_, itemErrors, response) =>
             itemErrors && reason == "Elastic bulk request returned item errors: " + response)
  }

  lemma {:induction false} WritesRaise(t: Repo.Tables, known: seq<Item>, env: Env, n: nat, settings: Settings)
    returns (i: int)
    ensures match Stored(t, LocalItems(known, settings), env, n, settings).2
            case Some(error) => FirstRaise(known, env, n, settings, i, error)
            case None =>
              forall j :: 0 <= j < |known| && StoresLocal(known[j], settings) ==> env.write(n, known[j].queueId).Ok?
    decreases |known|
  {
    i := 0;
    if known != [] {
      var head, rest := known[0], LocalItems(known[1..], settings);
      if StoresLocal(head, settings) {
        var local := [head] + rest;
        assert local[1..] == rest;
        var t1 := StoredHead(t, local, env, n, settings);
        if env.write(n, head.queueId).Ok? {
          i := WritesRaise(t1, known[1..], env, n, settings);
          i := i + 1;
        }
      } else {
        assert [] + rest == rest;
        i := WritesRaise(t, known[1..], env, n, settings);
        i := i + 1;
      }
      assert forall j :: 0 <= j < |known| - 1 ==> known[1..][j] == known[j + 1];
      assert forall j :: 1 <= j < |known| ==> known[j] == known[1..][j - 1];
    }
  }

  lemma OutcomeReason(t: Repo.Tables, known: seq<Item>, env: Env, n: nat, settings: Settings)
    requires Outcome(t, known, env, n, settings).Err?
    ensures FailedBecause(known, env, n, settings, Outcome(t, known, env, n, settings).error)
  {
    var t1 := AllStates(t, known, DispatchingJob, NO_NOTE, settings, env.now(n));
    var i := WritesRaise(t1, known, env, n, settings);
  }

  lemma FailedJob(t: Repo.Tables, q: Queue, known: seq<Item>, error: string, settings: Settings, now: int, i: nat)
    requires Repo.KeyedRows(t) && DistinctJobs(known) && i < |known| && known[i].jobId in t.jobs
    requires AfterBatchFailure(System(q, t), known, error, settings, now).1.verdict != Stuck
    requires |q.fifo| <= q.limits.maxSize
    ensures var (sys', report) := AfterBatchFailure(System(q, t), known, error, settings, now);
            var before := t.jobs[known[i].jobId];
            && (report.verdict == PutBack <==> ShouldRetry(known, settings.maxRetries))
            && (report.verdict == GivenUp <==> !ShouldRetry(known, settings.maxRetries))
            && known[i].jobId in sys'.t.jobs
            && sys'.t.jobs[known[i].jobId]
               == JobWithState(before, Failure(known[i], error, ShouldRetry(known, settings.maxRetries)),
                               if report.verdict == PutBack then DispatchQueued else JobFailed,
                               NO_NOTE.(error := Some(error)), settings, now)
  {
    hide JobWithState;
    var retry := ShouldRetry(known, settings.maxRetries);
    FailedReturns(q, known, error, retry);
    FailedClosed(q, known, error, retry);
    var failed := Failures(known, error, retry);
    forall a, b | 0 <= a < b < |failed|
      ensures failed[a].jobId != failed[b].jobId
    {
      assert failed[a].jobId == known[a].jobId && failed[b].jobId == known[b].jobId;
    }
    StateAt(t, failed, if retry then DispatchQueued else JobFailed, NO_NOTE.(error := Some(error)), settings, now, i);
  }

  /** What a failed batch leaves in the queue: every item of it QUEUED again or FAILED, with the reason. */
  lemma FailedItem(sys: System, batch: seq<Item>, t: Repo.Tables, error: string, settings: Settings, now: int, i: nat)
    requires Distinct(Ids(batch)) && i < |KnownItems(sys.t, batch)|
    requires |sys.q.fifo| <= sys.q.limits.maxSize
    requires var q := AfterCompleted(sys.q, DeletedItems(sys.t, batch));
             AfterBatchFailure(System(q, t), KnownItems(sys.t, batch), error, settings, now).1.verdict != Stuck
    ensures var (known, q) := (KnownItems(sys.t, batch), AfterCompleted(sys.q, DeletedItems(sys.t, batch)));
            var (sys', report) := AfterBatchFailure(System(q, t), known, error, settings, now);
            && known[i].queueId in sys'.q.items
            && sys'.q.items[known[i].queueId]
               == known[i].(status := if report.verdict == PutBack then Queued else Failed, lastError := Some(error))
  {
    var known := KnownItems(sys.t, batch);
    SelectSplits(batch, MissingIds(sys.t, batch));
    var q := AfterCompleted(sys.q, DeletedItems(sys.t, batch));
    FailedReturns(q, known, error, ShouldRetry(known, settings.maxRetries));
    FailedLaw(q, known, error, ShouldRetry(known, settings.maxRetries));
  }

  /**
   * After a failed batch each job is DISPATCH_QUEUED again or FAILED, together
   * with the others; its handoff names its item and the reason, and so does the item.
   * The reason is the first local write that raised, or else the bulk request's error.
   * Only a job that is given up gets it as its error, and no completion time is set either way.
   */
  lemma FailedJobs(sys: System, batch: seq<Item>, env: Env, n: nat, settings: Settings, i: nat)
    returns (reason: string)
    requires Repo.KeyedRows(sys.t) && Distinct(Ids(batch)) && |sys.q.fifo| <= sys.q.limits.maxSize
    requires DistinctJobs(KnownItems(sys.t, batch)) && i < |KnownItems(sys.t, batch)|
    requires KnownItems(sys.t, batch)[i].jobId in sys.t.jobs
    requires Dispatch(sys, batch, env, n, settings).1.verdict in {PutBack, GivenUp}
    ensures FailedBecause(KnownItems(sys.t, batch), env, n, settings, reason)
    ensures var item := KnownItems(sys.t, batch)[i];
            var (sys', report) := Dispatch(sys, batch, env, n, settings);
            var before, retried := sys.t.jobs[item.jobId], report.verdict == PutBack;
            && (retried <==> exists k :: k in KnownItems(sys.t, batch) && k.attempts <= settings.maxRetries)
            && item.queueId in sys'.q.items && item.jobId in sys'.t.jobs
            && sys'.q.items[item.queueId]
               == item.(status := if retried then Queued else Failed, lastError := Some(reason))
            && var after := sys'.t.jobs[item.jobId];
               && after.status == (if retried then DispatchQueued else JobFailed)
               && after.error == (if retried then before.error else Some(reason))
               && after.completedAt == before.completedAt && after.documentId == before.documentId
               && after.metadata.handoff.Some?
               && after.metadata.handoff.value.state == after.status
               && after.metadata.handoff.value.queueIds == [item.queueId]
               && after.metadata.handoff.value.recordCount == item.payload.recordCount
               && after.metadata.handoff.value.error == (if reason == "" then None else Some(reason))
               && after.metadata == before.metadata.(handoff := after.metadata.handoff)
  {
    var known := KnownItems(sys.t, batch);
    reason := Outcome(sys.t, known, env, n, settings).error;
    OutcomeReason(sys.t, known, env, n, settings);
    SelectSplits(batch, MissingIds(sys.t, batch));
    var q := AfterCompleted(sys.q, DeletedItems(sys.t, batch));
    var t1 := AllStates(sys.t, known, DispatchingJob, NO_NOTE, settings, env.now(n));
    var t2 := LocalStage(sys.t, known, env, n, settings).0;
    StatesUnsettle(sys.t, known, settings, env.now(n), known[i].jobId);
    AllStatesTouch(sys.t, known, DispatchingJob, NO_NOTE, settings, env.now(n));
    StoredUnsettles(t1, LocalItems(known, settings), env, n, settings, known[i].jobId);
    StoredTouches(t1, LocalItems(known, settings), env, n, settings);
    FailedJob(t2, q, known, reason, settings, env.now(n), i);
    FailedItem(sys, batch, t2, reason, settings, env.now(n), i);
    hide LocalStage, Outcome, AfterFailed, AllStates, FailedBecause;
    RetriedExactly(known, settings.maxRetries);
  }

  lemma RetriedExactly(known: seq<Item>, maxRetries: nat)
    ensures ShouldRetry(known, maxRetries) <==> exists k :: k in known && k.attempts <= maxRetries
  {
  }

  lemma BlockedFailure(sys: System, known: seq<Item>, error: string, settings: Settings, now: int)
    requires Distinct(Ids(known)) && |sys.q.fifo| <= sys.q.limits.maxSize
    ensures var (sys', report) := AfterBatchFailure(sys, known, error, settings, now);
            var room := sys.q.limits.maxSize - |sys.q.fifo|;
            && (report.verdict == Stuck <==>
                  (exists item :: item in known && item.attempts <= settings.maxRetries) && room < |known|)
            && (report.verdict == Stuck ==>
                  && report.accepted == 0 && sys'.t == sys.t
                  && sys'.q.fifo == sys.q.fifo + Ids(known[..room]) && sys'.q.jobIndex == sys.q.jobIndex
                  && forall i :: 0 <= i <= room ==>
                       && known[i].queueId in sys'.q.items
                       && sys'.q.items[known[i].queueId] == known[i].(status := Queued, lastError := Some(error)))
  {
    RetriedExactly(known, settings.maxRetries);
    FailedReturns(sys.q, known, error, ShouldRetry(known, settings.maxRetries));
    hide AfterFailed;
    if ShouldRetry(known, settings.maxRetries) && sys.q.limits.maxSize < |sys.q.fifo| + |known| {
      BlockedLaw(sys.q, known, error);
      hide ShouldRetry;
      var room := sys.q.limits.maxSize - |sys.q.fifo|;
      forall i | 0 <= i <= room
        ensures known[i].queueId in AfterFailed(sys.q, known, error, true).0.items
      {
        assert Ids(known[..room + 1])[i] == known[i].queueId;
      }
    }
  }

  /**
   * A dispatch blocks for ever iff it puts its batch back and the FIFO has no room for it.  By
   * then the FIFO is full with the first ids of the batch, and no job has been told.
   */
  lemma BlockedDispatch(sys: System, batch: seq<Item>, env: Env, n: nat, settings: Settings)
    requires Distinct(Ids(batch)) && |sys.q.fifo| <= sys.q.limits.maxSize
    ensures var (known, (sys', report)) := (KnownItems(sys.t, batch), Dispatch(sys, batch, env, n, settings));
            var room := sys.q.limits.maxSize - |sys.q.fifo|;
            && (report.verdict == Stuck <==>
                  && known != [] && Outcome(sys.t, known, env, n, settings).Err?
                  && (exists item :: item in known && item.attempts <= settings.maxRetries)
                  && room < |known|)
            && (report.verdict == Stuck ==>
                  && report.accepted == 0 && sys'.t == LocalStage(sys.t, known, env, n, settings).0
                  && sys'.q.fifo == sys.q.fifo + Ids(known[..room]) && sys'.q.jobIndex == sys.q.jobIndex
                  && forall i :: 0 <= i <= room ==>
                       && known[i].queueId in sys'.q.items
                       && sys'.q.items[known[i].queueId].status == Queued)
  {
    var known := KnownItems(sys.t, batch);
    SelectSplits(batch, MissingIds(sys.t, batch));
    var q := AfterCompleted(sys.q, DeletedItems(sys.t, batch));
    assert q == sys.q.(items := q.items);
    hide LocalStage, Outcome, AfterBatchFailure, AfterCompleted, KnownItems, DeletedItems;
    if known != [] && Outcome(sys.t, known, env, n, settings).Err? {
      BlockedFailure(System(q, LocalStage(sys.t, known, env, n, settings).0), known,
                     Outcome(sys.t, known, env, n, settings).error, settings, env.now(n));
    }
  }
}
