/**
 * The job table beside the queue: what a dispatch writes to it, item by item and
 * over a whole batch.
 */
module DispatchJobs {
  import opened Wrappers
  import opened Sequences
  import opened JobModels
  import opened DispatchQueue
  import opened QueueLaws
  import Repo = JobRepository
  import opened ElasticSink
  import opened DispatchSteps

  function JobIds(items: seq<Item>): set<string> {
    set i | 0 <= i < |items| :: items[i].jobId
  }

  // ------------------------------------------------------------- saving states

  /** Saves that concern only `jobs`, create and delete no row, and keep every document id. */
  ghost predicate Touched(t: Repo.Tables, jobs: set<string>, t': Repo.Tables) {
    && t'.jobs.Keys == t.jobs.Keys
    && t'.documents == t.documents
    && t'.runs.Keys == t.runs.Keys
    && (Repo.KeyedRows(t) ==> Repo.KeyedRows(t'))
    && (Repo.Inv(t) ==> Repo.Inv(t'))
    && (forall j :: j in t.jobs && j !in jobs ==> t'.jobs[j] == t.jobs[j])
  }

  /** What _save_item_state writes to the row of an item's job, which alone of all jobs it changes. */
  lemma SavedState(t: Repo.Tables, item: Item, status: JobStatus, note: Note, settings: Settings, now: int)
    requires Repo.KeyedRows(t) && item.jobId in t.jobs
    ensures var t' := AfterItemState(t, item, status, note, settings, now);
            && t'.jobs.Keys == t.jobs.Keys && (forall j :: j in t.jobs && j != item.jobId ==> t'.jobs[j] == t.jobs[j])
            && var (before, job) := (t.jobs[item.jobId], t'.jobs[item.jobId]);
               && job.status == status && job.updatedAt == now && job.metadata.handoff.Some?
               && job == before.(status := status, updatedAt := now, outputs := job.outputs, error := job.error,
                                 completedAt := job.completedAt,
                                 metadata := before.metadata.(handoff := job.metadata.handoff))
               && job.outputs == (if note.outputs == None then before.outputs else note.outputs)
               && (status == JobFailed ==> job.error == note.error)
               && (status != JobFailed ==> job.error == before.error)
               && (status == JobCompleted ==> job.completedAt == Some(now))
               && (status != JobCompleted ==> job.completedAt == before.completedAt)
               && var handoff := job.metadata.handoff.value;
                  && handoff.state == status && handoff.queueIds == [item.queueId]
                  && handoff.recordCount == item.payload.recordCount && handoff.lastResponse == note.response
                  && (note.error.Some? && note.error.value != "" ==> handoff.error == note.error)
                  && (note.error in {None, Some("")} && item.lastError != Some("") ==> handoff.error == item.lastError)
                  && (note.error in {None, Some("")} && item.lastError == Some("") ==> handoff.error == None)
  {
  }

  lemma ItemStateTouches(t: Repo.Tables, item: Item, status: JobStatus, note: Note, settings: Settings, now: int)
    requires Repo.KeyedRows(t)
    ensures var t' := AfterItemState(t, item, status, note, settings, now);
            && Touched(t, {item.jobId}, t')
            && (item.jobId in t.jobs ==>
                  t'.jobs[item.jobId] == JobWithState(t.jobs[item.jobId], item, status, note, settings, now))
  {
    if item.jobId in t.jobs && Repo.Inv(t) {
      var job := JobWithState(t.jobs[item.jobId], item, status, note, settings, now);
      if job.jobId in t.runs {
        assert Repo.Agrees(t.runs[job.jobId], t.jobs[job.jobId]);
      }
      Repo.SaveKeeps(t, job);
    }
  }

  lemma JobIdsTail(items: seq<Item>)
    requires items != []
    ensures JobIds(items) == {items[0].jobId} + JobIds(items[1..])
  {
    forall i | 0 <= i < |items|
      ensures items[i].jobId in {items[0].jobId} + JobIds(items[1..])
    {
      if 0 < i {
        assert items[i] == items[1..][i - 1];
      }
    }
    forall i | 0 <= i < |items[1..]|
      ensures items[1..][i].jobId in JobIds(items)
    {
      assert items[1..][i] == items[i + 1];
    }
  }

  lemma {:induction false} AllStatesTouch(t: Repo.Tables, items: seq<Item>, status: JobStatus, note: Note,
                                          settings: Settings, now: int)
    requires Repo.KeyedRows(t)
    ensures var t' := AllStates(t, items, status, note, settings, now);
            && Touched(t, JobIds(items), t')
            && (forall j :: j in t.jobs && j in JobIds(items) ==> t'.jobs[j].status == status)
    decreases |items|
  {
    if items != [] {
      var t1 := AfterItemState(t, items[0], status, note, settings, now);
      ItemStateTouches(t, items[0], status, note, settings, now);
      AllStatesTouch(t1, items[1..], status, note, settings, now);
      JobIdsTail(items);
    }
  }

  lemma {:induction false} StoredTouches(t: Repo.Tables, items: seq<Item>, env: Env, n: nat, settings: Settings)
    requires Repo.KeyedRows(t)
    ensures Touched(t, JobIds(items), Stored(t, items, env, n, settings).0)
    decreases |items|
  {
    if items != [] && env.write(n, items[0].queueId).Ok? {
      var note := NO_NOTE.(outputs := Some(env.write(n, items[0].queueId).value));
      var t1 := AfterItemState(t, items[0], StoredLocal, note, settings, env.now(n));
      ItemStateTouches(t, items[0], StoredLocal, note, settings, env.now(n));
      StoredTouches(t1, items[1..], env, n, settings);
      JobIdsTail(items);
    }
  }

  /** The first item's write, and the rest. */
  lemma StoredHead(t: Repo.Tables, items: seq<Item>, env: Env, n: nat, settings: Settings) returns (t1: Repo.Tables)
    requires items != []
    ensures var (_, outputs, error) := Stored(t, items, env, n, settings);
            var (_, outputs1, error1) := Stored(t1, items[1..], env, n, settings);
            var id := items[0].queueId;
            match env.write(n, id)
            case Err(e) => outputs == map[] && error == Some(e)
            case Ok(out) => outputs == map[id := out] + outputs1 && error == error1
  {
    t1 := if env.write(n, items[0].queueId).Err? then t
          else AfterItemState(t, items[0], StoredLocal, NO_NOTE.(outputs := Some(env.write(n, items[0].queueId).value)),
                              settings, env.now(n));
  }

  lemma {:induction false} StoredAll(t: Repo.Tables, items: seq<Item>, env: Env, n: nat, settings: Settings)
    ensures Stored(t, items, env, n, settings).2.None? <==>
            forall i :: 0 <= i < |items| ==> env.write(n, items[i].queueId).Ok?
    decreases |items|
  {
    if items != [] {
      var t1 := StoredHead(t, items, env, n, settings);
      StoredAll(t1, items[1..], env, n, settings);
      assert forall i :: 0 <= i < |items| - 1 ==> items[1..][i] == items[i + 1];
      assert forall i :: 1 <= i < |items| ==> items[i] == items[1..][i - 1];
    }
  }

  /** The local stage writes every item up to the first whose write raises. */
  lemma {:induction false} StoredOutputs(t: Repo.Tables, items: seq<Item>, env: Env, n: nat, settings: Settings)
    requires Distinct(Ids(items))
    ensures var (_, outputs, error) := Stored(t, items, env, n, settings);
            && (error.None? <==> forall i :: 0 <= i < |items| ==> env.write(n, items[i].queueId).Ok?)
            && (error.None? ==> forall id :: id in outputs <==> id in Ids(items))
            && (forall id :: id in outputs ==>
                  id in Ids(items) && env.write(n, id) == Ok(outputs[id]))
    decreases |items|
  {
    StoredAll(t, items, env, n, settings);
    if items != [] {
      IdsTail(items);
      var t1 := StoredHead(t, items, env, n, settings);
      StoredOutputs(t1, items[1..], env, n, settings);
    }
  }

  lemma {:induction false} AllCompletedTouch(t: Repo.Tables, items: seq<Item>, outputs: map<string, Outputs>,
                                             elasticIds: set<string>, result: Option<SinkResult>, settings: Settings,
                                             now: int)
    requires Repo.KeyedRows(t)
    ensures var t' := AllCompleted(t, items, outputs, elasticIds, result, settings, now);
            && Touched(t, JobIds(items), t')
            && (forall j :: j in t.jobs && j in JobIds(items) ==> t'.jobs[j].status == JobCompleted)
    decreases |items|
  {
    if items != [] {
      var note := CompletionNote(items[0], outputs, elasticIds, result);
      var t1 := AfterItemState(t, items[0], JobCompleted, note, settings, now);
      ItemStateTouches(t, items[0], JobCompleted, note, settings, now);
      AllCompletedTouch(t1, items[1..], outputs, elasticIds, result, settings, now);
      JobIdsTail(items);
    }
  }

  // ---------------------------------------------------------------- a dispatch

  function JobStatusAfter(v: Verdict): JobStatus {
    match v
    case PutBack => DispatchQueued
    case GivenUp => JobFailed
    case _ => JobCompleted
  }

  lemma {:induction false} LocalItemsPart(items: seq<Item>, settings: Settings)
    ensures JobIds(LocalItems(items, settings)) <= JobIds(items)
  {
    if items != [] {
      LocalItemsPart(items[1..], settings);
      JobIdsTail(items);
      var rest := LocalItems(items[1..], settings);
      if StoresLocal(items[0], settings) {
        JobIdsTail([items[0]] + rest);
        assert ([items[0]] + rest)[1..] == rest;
      } else {
        assert [] + rest == rest;
      }
    }
  }

  lemma LocalStageTouches(t: Repo.Tables, known: seq<Item>, env: Env, n: nat, settings: Settings)
    requires Repo.KeyedRows(t)
    ensures Touched(t, JobIds(known), LocalStage(t, known, env, n, settings).0)
  {
    var t1 := AllStates(t, known, DispatchingJob, NO_NOTE, settings, env.now(n));
    AllStatesTouch(t, known, DispatchingJob, NO_NOTE, settings, env.now(n));
    StoredTouches(t1, LocalItems(known, settings), env, n, settings);
    LocalItemsPart(known, settings);
    var t2 := LocalStage(t, known, env, n, settings).0;
    assert JobIds(known) + JobIds(LocalItems(known, settings)) == JobIds(known);
  }

  /** The jobs of a settled batch all carry the status that goes with the verdict. */
  ghost predicate JobsSettled(t: Repo.Tables, known: seq<Item>, v: Verdict, t': Repo.Tables) {
    && Touched(t, JobIds(known), t')
    && (forall j :: j in t.jobs && j in JobIds(known) ==> t'.jobs[j].status == JobStatusAfter(v))
  }

  lemma SettleJobs(t: Repo.Tables, known: seq<Item>, t1: Repo.Tables, v: Verdict, t2: Repo.Tables)
    requires Touched(t, JobIds(known), t1) && JobsSettled(t1, known, v, t2)
    ensures JobsSettled(t, known, v, t2)
  {
    assert JobIds(known) + JobIds(known) == JobIds(known);
  }

  lemma FailureSettlesJobs(q: Queue, t: Repo.Tables, known: seq<Item>, error: string, settings: Settings, now: int)
    requires Repo.KeyedRows(t) && |q.fifo| + |known| <= q.limits.maxSize
    ensures var (sys', report) := AfterBatchFailure(System(q, t), known, error, settings, now);
            JobsSettled(t, known, report.verdict, sys'.t)
  {
    var retry := ShouldRetry(known, settings.maxRetries);
    FailedClosed(q, known, error, retry);
    var failed := Failures(known, error, retry);
    assert JobIds(failed) == JobIds(known) by {
      assert forall i :: 0 <= i < |known| ==> failed[i].jobId == known[i].jobId;
    }
    AllStatesTouch(t, failed, if retry then DispatchQueued else JobFailed, NO_NOTE.(error := Some(error)), settings,
                   now);
  }

  /** A batch that had room leaves each known job with the status of its verdict and touches no other job row. */
  lemma DispatchSettlesJobs(sys: System, batch: seq<Item>, env: Env, n: nat, settings: Settings)
    requires Repo.KeyedRows(sys.t) && |sys.q.fifo| + |batch| <= sys.q.limits.maxSize && Distinct(Ids(batch))
    ensures var (sys', report) := Dispatch(sys, batch, env, n, settings);
            JobsSettled(sys.t, KnownItems(sys.t, batch), report.verdict, sys'.t)
  {
    var known := KnownItems(sys.t, batch);
    SelectSplits(batch, MissingIds(sys.t, batch));
    if known == [] {
      assert JobIds(known) == {};
    } else {
      LocalStageTouches(sys.t, known, env, n, settings);
      var (t1, outputs, _) := LocalStage(sys.t, known, env, n, settings);
      var q1 := AfterCompleted(sys.q, DeletedItems(sys.t, batch));
      match Outcome(sys.t, known, env, n, settings)
      case Err(e) =>
        var (sys', report) := AfterBatchFailure(System(q1, t1), known, e, settings, env.now(n));
        FailureSettlesJobs(q1, t1, known, e, settings, env.now(n));
        SettleJobs(sys.t, known, t1, report.verdict, sys'.t);
      case Ok(result) =>
        var elasticIds := Elements(Ids(ElasticItems(known, settings)));
        AllCompletedTouch(t1, known, outputs, elasticIds, result, settings, env.now(n));
        SettleJobs(sys.t, known, t1, Delivered,
                   AllCompleted(t1, known, outputs, elasticIds, result, settings, env.now(n)));
    }
  }
}
