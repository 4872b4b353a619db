/**
 * The dispatcher in its own form: an object that works on the queue and the
 * repository in place.  Its methods carry out the steps of DispatchSteps.
 */
module DispatchService {
  import opened Wrappers
  import opened Sequences
  import opened JobModels
  import opened DispatchQueue
  import opened QueueLaws
  import Repo = JobRepository
  import opened ElasticSink
  import opened DispatchSteps
  import opened DispatchDrain

  class ParsedDocumentDispatchService {
    const settings: Settings
    const queue: ParsedDocumentDispatchQueueService
    const repo: Repo.SqliteIngestionJobRepository
    const env: Env
    var batches: nat

    function View(): System
      reads queue, repo
    {
      System(queue.View(), repo.View())
    }

    constructor (settings: Settings, queue: ParsedDocumentDispatchQueueService,
                 repo: Repo.SqliteIngestionJobRepository, env: Env)
      ensures this.settings == settings && this.queue == queue && this.repo == repo && this.env == env
      ensures batches == 0
    {
      this.settings, this.queue, this.repo, this.env := settings, queue, repo, env;
      batches := 0;
    }

    method SaveItemState(item: Item, status: JobStatus, note: Note, now: int)
      modifies repo
      ensures repo.View() == AfterItemState(old(repo.View()), item, status, note, settings, now)
    {
      var job := repo.Get(item.jobId);
      if job.None? {
        return;
      }
      repo.Save(JobWithState(job.value, item, status, note, settings, now));
    }

    method SaveAll(items: seq<Item>, status: JobStatus, note: Note, now: int)
      modifies repo
      ensures repo.View() == AllStates(old(repo.View()), items, status, note, settings, now)
    {
      for i := 0 to |items|
        invariant AllStates(old(repo.View()), items, status, note, settings, now)
               == AllStates(repo.View(), items[i..], status, note, settings, now)
      {
        assert items[i..][1..] == items[i + 1..];
        SaveItemState(items[i], status, note, now);
      }
    }

    method StoreLocal(items: seq<Item>, n: nat) returns (outputs: map<string, Outputs>, error: Option<string>)
      modifies repo
      ensures (repo.View(), outputs, error) == Stored(old(repo.View()), items, env, n, settings)
    {
      outputs := map[];
      for i := 0 to |items|
        invariant Stored(old(repo.View()), items, env, n, settings).0
               == Stored(repo.View(), items[i..], env, n, settings).0
        invariant Stored(old(repo.View()), items, env, n, settings).1
               == outputs + Stored(repo.View(), items[i..], env, n, settings).1
        invariant Stored(old(repo.View()), items, env, n, settings).2
               == Stored(repo.View(), items[i..], env, n, settings).2
      {
        assert items[i..][1..] == items[i + 1..];
        var written := env.write(n, items[i].queueId);
        if written.Err? {
          assert outputs + map[] == outputs;
          return outputs, Some(written.error);
        }
        ghost var was := outputs;
        outputs := outputs[items[i].queueId := written.value];
        SaveItemState(items[i], StoredLocal, NO_NOTE.(outputs := Some(written.value)), env.now(n));
        MergeStep(was, items[i].queueId, written.value, Stored(repo.View(), items[i + 1..], env, n, settings).1);
      }
      assert outputs + map[] == outputs;
      error := None;
    }

    method CompleteJobs(items: seq<Item>, outputs: map<string, Outputs>, elasticIds: set<string>,
                        result: Option<SinkResult>, now: int)
      modifies repo
      ensures repo.View() == AllCompleted(old(repo.View()), items, outputs, elasticIds, result, settings, now)
    {
      for i := 0 to |items|
        invariant AllCompleted(old(repo.View()), items, outputs, elasticIds, result, settings, now)
               == AllCompleted(repo.View(), items[i..], outputs, elasticIds, result, settings, now)
      {
        assert items[i..][1..] == items[i + 1..];
        SaveItemState(items[i], JobCompleted, CompletionNote(items[i], outputs, elasticIds, result), now);
      }
    }

    method FindMissing(batch: seq<Item>) returns (missing: set<string>)
      ensures missing == MissingIds(repo.View(), batch)
    {
      missing := {};
      for i := 0 to |batch|
        invariant missing == MissingIds(repo.View(), batch[..i])
      {
        assert batch[..i + 1] == batch[..i] + [batch[i]];
        var job := repo.Get(batch[i].jobId);
        MissingStep(repo.View(), batch[..i], batch[i]);
        if job.None? {
          missing := missing + {batch[i].queueId};
        }
      }
      assert batch[..|batch|] == batch;
    }

    method DispatchBatch(batch: seq<Item>, n: nat) returns (report: Report)
      modifies queue, repo
      ensures (View(), report) == Dispatch(old(View()), batch, env, n, settings)
    {
      var missing := FindMissing(batch);
      var known := Select(batch, missing, false);
      queue.MarkCompleted(Select(batch, missing, true));
      if known == [] {
        return Report(0, Delivered);
      }
      SaveAll(known, DispatchingJob, NO_NOTE, env.now(n));
      var elastic := ElasticItems(known, settings);
      var outputs, writeError := StoreLocal(LocalItems(known, settings), n);
      var submitted := Submitted(writeError, elastic, env.bulk(n));
      match submitted
      case Err(e) =>
        var retry := ShouldRetry(known, settings.maxRetries);
        var updated := queue.MarkBatchFailed(known, e, retry);
        if updated.None? {
          return Report(0, Stuck);
        }
        var status := if retry then DispatchQueued else JobFailed;
        SaveAll(updated.value, status, NO_NOTE.(error := Some(e)), env.now(n));
        report := Report(0, if retry then PutBack else GivenUp);
      case Ok(result) =>
        CompleteJobs(known, outputs, Elements(Ids(elastic)), result, env.now(n));
        queue.MarkCompleted(known);
        report := Report((if result.Some? then result.value.acceptedDocuments else 0)
                         + LocalOnlyCount(known, settings), Delivered);
    }

    method DispatchNextBatch() returns (report: Report)
      modifies this`batches, queue, repo
      ensures batches == old(batches) + 1
      ensures (View(), report) == RunOnce(old(View()), env, old(batches), settings)
    {
      var n := batches;
      batches := batches + 1;
      var batch := queue.DequeueBatch(Some(settings.maxBulkSize));
      if batch == [] {
        return Report(0, NoBatch);
      }
      report := DispatchBatch(batch, n);
    }

    /** run_once between the batches of a single dispatcher: a batch, then the snapshot's counts. */
    method RunOnceIdly() returns (queued: nat, inFlight: nat)
      requires WellFormed(queue.View()) && ValidLimits(queue.limits) && Idle(queue.View())
      modifies this`batches, queue, repo
      ensures batches == old(batches) + 1
      ensures View() == RunOnce(old(View()), env, old(batches), settings).0
      ensures WellFormed(queue.View()) && Idle(queue.View())
      ensures queued == CountStatus(queue.items, Queued) && inFlight == 0
      ensures 0 < queued ==> PendingOf(queue.View()) != []
      ensures PendingOf(old(queue.View())) != [] ==>
                Measure(queue.View(), settings.maxRetries) < Measure(old(queue.View()), settings.maxRetries)
    {
      var report := DispatchNextBatch();
      RunOnceIdle(old(View()), env, old(batches), settings);
      var completed, failed;
      queued, inFlight, completed, failed := queue.Snapshot();
      NothingQueued(queue.View());
      CountZero(queue.items, ItemStatus.Dispatching);
    }

    /** run_once at any time: a batch, then the snapshot's counts. */
    method RunOnceAnyhow() returns (queued: nat, inFlight: nat)
      modifies this`batches, queue, repo
      ensures batches == old(batches) + 1
      ensures View() == After(old(View()), env, old(batches), settings, 1)
      ensures queued == CountStatus(queue.items, Queued) && inFlight == CountStatus(queue.items, ItemStatus.Dispatching)
    {
      hide RunOnce;
      var report := DispatchNextBatch();
      var completed, failed;
      queued, inFlight, completed, failed := queue.Snapshot();
    }

    /**
     * The loop of `drain` from any state, given up after `patience` further runs:
     * it has ended just when nothing is QUEUED or in flight any more.
     */
    method DrainFor(patience: nat) returns (ended: bool)
      modifies this`batches, queue, repo
      ensures old(batches) < batches <= old(batches) + patience + 1
      ensures View() == After(old(View()), env, old(batches), settings, batches - old(batches))
      ensures ended == Drained(queue.View())
      ensures !ended ==> batches == old(batches) + patience + 1
    {
      hide RunOnce;
      var queued, inFlight := RunOnceAnyhow();
      var left := patience;
      while (queued > 0 || inFlight > 0) && left > 0
        invariant queued == CountStatus(queue.items, Queued)
        invariant inFlight == CountStatus(queue.items, ItemStatus.Dispatching)
        invariant 0 <= left <= patience && batches == old(batches) + 1 + patience - left
        invariant View() == After(old(View()), env, old(batches), settings, batches - old(batches))
        decreases left
      {
        queued, inFlight := RunOnceAnyhow();
        left := left - 1;
      }
      ended := queued == 0 && inFlight == 0;
    }

    /** A single dispatcher's drain starts with nothing in flight, and so it ends. */
    method Drain()
      requires WellFormed(queue.View()) && ValidLimits(queue.limits) && Idle(queue.View())
      modifies this`batches, queue, repo
      ensures WellFormed(queue.View()) && Drained(queue.View())
      ensures old(batches) < batches
      ensures View() == After(old(View()), env, old(batches), settings, batches - old(batches))
    {
      hide RunOnce;
      var queued, inFlight := RunOnceIdly();
      while queued > 0 || inFlight > 0
        invariant WellFormed(queue.View()) && Idle(queue.View())
        invariant queued == CountStatus(queue.items, Queued) && inFlight == 0
        invariant 0 < queued ==> PendingOf(queue.View()) != []
        invariant old(batches) < batches
        invariant View() == After(old(View()), env, old(batches), settings, batches - old(batches))
        decreases Measure(queue.View(), settings.maxRetries)
      {
        queued, inFlight := RunOnceIdly();
      }
      CountZero(queue.items, ItemStatus.Dispatching);
    }

    method EnqueueParseResult(h: Handover) returns (job: Job)
      requires Indexed(queue.View()) && h.queueId !in queue.items
      modifies queue, repo
      ensures (View(), job) == AfterHandover(old(View()), h, settings)
    {
      var r := queue.EnqueueParseResult(h.job.jobId, Entrusted(h), h.queueId);
      if r.Err? {
        return RefusedJob(h, ErrorText(r.error, queue.limits, h.payload), settings);
      }
      job := QueuedJob(h, r.value, settings);
      repo.Save(job);
      if h.publish.Some? && h.publish.value.Err? {
        job := UnpublishedJob(h, r.value, h.publish.value.error, settings);
        repo.Save(job);
      }
    }
  }

  lemma MergeStep(m: map<string, Outputs>, key: string, value: Outputs, rest: map<string, Outputs>)
    ensures m + (map[key := value] + rest) == m[key := value] + rest
  {
  }

  lemma MissingStep(t: Repo.Tables, batch: seq<Item>, item: Item)
    ensures MissingIds(t, batch + [item])
         == MissingIds(t, batch) + if item.jobId in t.jobs then {} else {item.queueId}
  {
    var whole := batch + [item];
    forall id | id in MissingIds(t, batch)
      ensures id in MissingIds(t, whole)
    {
      var i :| 0 <= i < |batch| && batch[i].jobId !in t.jobs && batch[i].queueId == id;
      assert whole[i] == batch[i];
    }
    assert whole[|batch|] == item;
  }
}
