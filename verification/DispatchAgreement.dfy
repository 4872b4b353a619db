/**
 * Job table and queue: at a batch boundary the table says of each job what the queue
 * says of its item.  A run of the dispatcher keeps this; a handover keeps it if it
 * fits (HandoverFits).
 */
module DispatchAgreement {
  import opened Wrappers
  import opened JobModels
  import opened DispatchQueue
  import opened QueueLaws
  import Repo = JobRepository
  import opened DispatchSteps
  import opened DispatchDrain
  import opened DispatchJobs

  predicate StatusMatches(job: JobStatus, item: ItemStatus) {
    match item
    case Queued => job == DispatchQueued
    case Completed => job == JobCompleted
    case Failed => job == JobFailed
    case Dispatching => false
  }

  /** Every item's job, if it still exists and is not in `except`, has the item's status. */
  ghost predicate InStepBut(sys: System, except: set<string>) {
    forall id :: id in sys.q.items && sys.q.items[id].jobId in sys.t.jobs && sys.q.items[id].jobId !in except ==>
      StatusMatches(sys.t.jobs[sys.q.items[id].jobId].status, sys.q.items[id].status)
  }

  ghost predicate InStep(sys: System) { InStepBut(sys, {}) }

  /** Every item is its job's item in the index: at most one item per job. */
  ghost predicate EachIndexed(q: Queue) {
    forall id :: id in q.items ==> q.items[id].jobId in q.jobIndex && q.jobIndex[q.items[id].jobId] == id
  }

  ghost predicate Boundary(sys: System) {
    && WellFormed(sys.q) && ValidLimits(sys.q.limits) && Idle(sys.q) && EachIndexed(sys.q)
    && Repo.Inv(sys.t)
  }

  // ------------------------------------------------------------------ run_once

  /** What a run takes is dropped iff its job is gone. */
  lemma TakenJobs(sys: System, settings: Settings, id: string)
    requires WellFormed(sys.q) && ValidLimits(sys.q.limits) && id in TakenIds(sys, settings)
    ensures id in sys.q.items
    ensures id in DroppedIds(sys, settings) <==> sys.q.items[id].jobId !in sys.t.jobs
    ensures id !in DroppedIds(sys, settings) ==>
              sys.q.items[id].jobId in JobIds(KnownItems(sys.t, Take(sys.q, LimitOf(sys.q, settings)).1))
  {
    hide WellFormed, Take, InFlight;
    TakenInFlight(sys.q, LimitOf(sys.q, settings));
    var batch := Take(sys.q, LimitOf(sys.q, settings)).1;
    var drop := DroppedIds(sys, settings);
    var i :| 0 <= i < |batch| && Ids(batch)[i] == id;
    assert batch[i] == DispatchQueue.Dispatched(sys.q.items[id]);
    if id in drop {
      var k :| 0 <= k < |batch| && batch[k].jobId !in sys.t.jobs && batch[k].queueId == id;
      assert Ids(batch)[k] == Ids(batch)[i];
    } else {
      SelectMembers(batch, drop, false, batch[i]);
      var known := KnownItems(sys.t, batch);
      var k :| 0 <= k < |known| && known[k] == batch[i];
      assert known[k].jobId in JobIds(known);
    }
  }

  /** Conversely a known item of the batch is a taken item of its job. */
  lemma KnownJobs(sys: System, settings: Settings, job: string)
    requires WellFormed(sys.q) && ValidLimits(sys.q.limits)
    requires job in JobIds(KnownItems(sys.t, Take(sys.q, LimitOf(sys.q, settings)).1))
    ensures exists id :: id in TakenIds(sys, settings) && id in sys.q.items && sys.q.items[id].jobId == job
  {
    TakenInFlight(sys.q, LimitOf(sys.q, settings));
    var batch := Take(sys.q, LimitOf(sys.q, settings)).1;
    var known := KnownItems(sys.t, batch);
    var k :| 0 <= k < |known| && known[k].jobId == job;
    SelectMembers(batch, MissingIds(sys.t, batch), false, known[k]);
    var i :| 0 <= i < |batch| && batch[i] == known[k];
    assert batch[i] == DispatchQueue.Dispatched(sys.q.items[batch[i].queueId]);
    assert Ids(batch)[i] in TakenIds(sys, settings);
  }

  lemma RunOnceJobs(sys: System, env: Env, n: nat, settings: Settings)
    requires WellFormed(sys.q) && ValidLimits(sys.q.limits) && Repo.KeyedRows(sys.t)
    ensures var (sys', report) := RunOnce(sys, env, n, settings);
            JobsSettled(sys.t, KnownItems(sys.t, Take(sys.q, LimitOf(sys.q, settings)).1), report.verdict, sys'.t)
  {
    TakenInFlight(sys.q, LimitOf(sys.q, settings));
    var (q1, batch) := Take(sys.q, LimitOf(sys.q, settings));
    if batch == [] {
      assert KnownItems(sys.t, batch) == [] && JobIds([]) == {};
    } else {
      DispatchSettlesJobs(System(q1, sys.t), batch, env, n, settings);
    }
  }

  /** The heart of the matter, on the effects of a run alone. */
  lemma RanInStep(sys: System, settings: Settings, v: Verdict, sys': System)
    requires Boundary(sys) && InStep(sys)
    requires Ran(sys.q, TakenIds(sys, settings), DroppedIds(sys, settings), v, settings.maxRetries, sys'.q)
    requires JobsSettled(sys.t, KnownItems(sys.t, Take(sys.q, LimitOf(sys.q, settings)).1), v, sys'.t)
    ensures InStep(sys')
  {
    var taken, drop := TakenIds(sys, settings), DroppedIds(sys, settings);
    var known := KnownItems(sys.t, Take(sys.q, LimitOf(sys.q, settings)).1);
    forall id | id in sys'.q.items && sys'.q.items[id].jobId in sys'.t.jobs
      ensures StatusMatches(sys'.t.jobs[sys'.q.items[id].jobId].status, sys'.q.items[id].status)
    {
      var job := sys.q.items[id].jobId;
      if id in taken {
        TakenJobs(sys, settings, id);
        assert TakenItem(sys.q.items[id], drop, v, settings.maxRetries, sys'.q.items[id]);
      } else {
        assert sys'.q.items[id] == sys.q.items[id];
        if job in JobIds(known) {
          KnownJobs(sys, settings, job);
        }
        assert sys'.t.jobs[job] == sys.t.jobs[job];
      }
    }
  }

  /** One run of the single dispatcher keeps job table and queue in agreement. */
  lemma RunOnceInStep(sys: System, env: Env, n: nat, settings: Settings)
    requires Boundary(sys) && InStep(sys)
    ensures Boundary(RunOnce(sys, env, n, settings).0) && InStep(RunOnce(sys, env, n, settings).0)
  {
    var (sys', report) := RunOnce(sys, env, n, settings);
    RunOnceLaw(sys, env, n, settings);
    RunOnceJobs(sys, env, n, settings);
    RunOnceIdle(sys, env, n, settings);
    RanInStep(sys, settings, report.verdict, sys');
  }

  // ------------------------------------------------------------------ handover

  predicate Unpublished(h: Handover) {
    h.publish.Some? && h.publish.value.Err?
  }

  /**
   * When a handover leaves job and item in agreement.  It does not when a job
   * that already has an item comes again with a payload that is too large or
   * after its item has been settled (the old item is returned, even a completed
   * one, and the job set back to DISPATCH_QUEUED), or when publication fails
   * although the item stays queued.
   */
  predicate HandoverFits(q: Queue, h: Handover)
    requires Indexed(q)
  {
    if TooLarge(q.limits, h.payload) then h.job.jobId !in q.jobIndex
    else if h.job.jobId in q.jobIndex then q.items[q.jobIndex[h.job.jobId]].status == Queued && !Unpublished(h)
    else |q.fifo| >= q.limits.maxSize || !Unpublished(h)
  }

  function FinalStatus(q: Queue, h: Handover): JobStatus
    requires Indexed(q)
  {
    if AfterEnqueue(q, h.job.jobId, Entrusted(h), h.queueId).1.Err? || Unpublished(h) then RetryableFailure
    else DispatchQueued
  }

  lemma ParseJobs(sys: System, h: Handover, settings: Settings)
    requires Indexed(sys.q)
    ensures var t' := AfterParse(sys, h, settings).t;
            && t'.jobs.Keys == sys.t.jobs.Keys + {h.job.jobId}
            && t'.jobs[h.job.jobId].status == FinalStatus(sys.q, h)
            && (forall j :: j in sys.t.jobs && j != h.job.jobId ==> t'.jobs[j] == sys.t.jobs[j])
  {
  }

  lemma EnqueueIndexed(q: Queue, jobId: string, payload: Payload, queueId: string)
    requires WellFormed(q) && EachIndexed(q) && Idle(q) && queueId !in q.items
    ensures var q' := AfterEnqueue(q, jobId, payload, queueId).0;
            && EachIndexed(q') && Idle(q')
            && (forall id :: id in q'.items && q'.items[id].jobId != jobId ==>
                  id in q.items && q'.items[id] == q.items[id])
            && (forall id :: id in q'.items && q'.items[id].jobId == jobId ==>
                  jobId in q'.jobIndex && id == q'.jobIndex[jobId])
  {
    var q' := AfterEnqueue(q, jobId, payload, queueId).0;
    if q' != q {
      assert q'.items[queueId] == NewItem(jobId, payload, queueId);
    }
  }

  /** If only `job` and its item may have changed, that pair decides. */
  lemma JobDecides(sys: System, sys': System, job: string)
    requires InStepBut(sys, {job})
    requires sys'.t.jobs.Keys == sys.t.jobs.Keys + {job}
    requires forall j :: j in sys.t.jobs && j != job ==> sys'.t.jobs[j] == sys.t.jobs[j]
    requires forall id :: id in sys'.q.items && sys'.q.items[id].jobId != job ==>
               id in sys.q.items && sys'.q.items[id] == sys.q.items[id]
    requires forall id :: id in sys'.q.items && sys'.q.items[id].jobId == job ==>
               job in sys'.q.jobIndex && id == sys'.q.jobIndex[job]
    requires job in sys'.q.jobIndex ==>
               sys'.q.jobIndex[job] in sys'.q.items && sys'.q.items[sys'.q.jobIndex[job]].jobId == job
    ensures InStep(sys') <==>
            (job in sys'.q.jobIndex ==>
               StatusMatches(sys'.t.jobs[job].status, sys'.q.items[sys'.q.jobIndex[job]].status))
  {
    if job in sys'.q.jobIndex ==> StatusMatches(sys'.t.jobs[job].status, sys'.q.items[sys'.q.jobIndex[job]].status) {
      forall id | id in sys'.q.items && sys'.q.items[id].jobId in sys'.t.jobs
        ensures StatusMatches(sys'.t.jobs[sys'.q.items[id].jobId].status, sys'.q.items[id].status)
      {
        if sys'.q.items[id].jobId != job {
          assert id in sys.q.items && sys'.q.items[id] == sys.q.items[id];
        }
      }
    }
  }

  lemma WellFormedIndex(q: Queue, jobId: string, payload: Payload, queueId: string)
    requires WellFormed(q) && queueId !in q.items
    ensures var q' := AfterEnqueue(q, jobId, payload, queueId).0;
            jobId in q'.jobIndex ==> q'.jobIndex[jobId] in q'.items && q'.items[q'.jobIndex[jobId]].jobId == jobId
  {
  }

  lemma FitsMeansMatch(q: Queue, h: Handover)
    requires WellFormed(q) && Idle(q)
    ensures var q' := AfterEnqueue(q, h.job.jobId, Entrusted(h), h.queueId).0;
            HandoverFits(q, h) <==>
            (h.job.jobId in q'.jobIndex ==>
               && q'.jobIndex[h.job.jobId] in q'.items
               && StatusMatches(FinalStatus(q, h), q'.items[q'.jobIndex[h.job.jobId]].status))
  {
  }

  /** After a handover, job and item tables agree iff the handover fits. */
  lemma HandoverAgreesExactly(sys: System, h: Handover, settings: Settings)
    requires Boundary(sys) && InStepBut(sys, {h.job.jobId}) && h.queueId !in sys.q.items
    ensures InStep(AfterParse(sys, h, settings)) <==> HandoverFits(sys.q, h)
  {
    ParseJobs(sys, h, settings);
    EnqueueIndexed(sys.q, h.job.jobId, Entrusted(h), h.queueId);
    WellFormedIndex(sys.q, h.job.jobId, Entrusted(h), h.queueId);
    ParseQueue(sys, h, settings);
    JobDecides(sys, AfterParse(sys, h, settings), h.job.jobId);
    FitsMeansMatch(sys.q, h);
  }

  /** The coordinator saves the parsed job before it hands it over. */
  function Saved(sys: System, job: Job): System {
    sys.(t := Repo.AfterSave(sys.t, job))
  }

  lemma SavedBut(sys: System, job: Job)
    requires Boundary(sys) && InStep(sys)
    requires job.jobId in sys.t.runs ==> job.documentId == Some(sys.t.runs[job.jobId].documentId)
    ensures Boundary(Saved(sys, job)) && InStepBut(Saved(sys, job), {job.jobId})
  {
    Repo.SaveKeeps(sys.t, job);
  }

  /**
   * A handover that does not fit, right at the start: the parsed job is enqueued
   * and its publication fails, so the job is RETRYABLE_FAILURE and its item QUEUED.
   */
  lemma HandoverCanDisagree(job: Job, limits: Limits, payload: Payload, settings: Settings)
    requires ValidLimits(limits) && !TooLarge(limits, payload)
    requires job.documentId == Some(payload.documentId)
    ensures var start := System(Queue(limits, [], map[], map[]), Repo.Tables(map[], map[], map[]));
            var h := Handover(job, payload, "q0", d => d, Some(Err("broker down")), 0);
            var after := AfterParse(Saved(start, job), h, settings);
            && Boundary(start) && InStep(start) && !HandoverFits(start.q, h) && !InStep(after)
            && after.t.jobs[job.jobId].status == RetryableFailure
            && after.q.items["q0"].status == Queued
  {
    var start := System(Queue(limits, [], map[], map[]), Repo.Tables(map[], map[], map[]));
    var h := Handover(job, payload, "q0", d => d, Some(Err("broker down")), 0);
    SavedBut(start, job);
    HandoverAgreesExactly(Saved(start, job), h, settings);
    ParseJobs(Saved(start, job), h, settings);
    ParseQueue(Saved(start, job), h, settings);
  }

  /** The other way: once a drain has settled a job's item, parsing the job again never fits. */
  lemma ReparseAfterDrain(sys: System, h: Handover)
    requires Boundary(sys) && Drained(sys.q) && h.job.jobId in sys.q.jobIndex
    ensures !HandoverFits(sys.q, h)
  {
    CountZero(sys.q.items, Queued);
  }

  lemma ParseQueue(sys: System, h: Handover, settings: Settings)
    requires Indexed(sys.q)
    ensures AfterParse(sys, h, settings).q == AfterEnqueue(sys.q, h.job.jobId, Entrusted(h), h.queueId).0
  {
  }

  // -------------------------------------------------------------- whole drains

  /** `next` is what the n-th run makes of `sys`. */
  ghost predicate RunsTo(sys: System, env: Env, n: nat, settings: Settings, next: System) {
    next == RunOnce(sys, env, n, settings).0
  }

  lemma RunsToInStep(sys: System, env: Env, n: nat, settings: Settings, next: System)
    requires RunsTo(sys, env, n, settings, next) && Boundary(sys) && InStep(sys)
    ensures Boundary(next) && InStep(next)
  {
    RunOnceInStep(sys, env, n, settings);
  }

  lemma {:induction false} Unrolled(sys: System, env: Env, n: nat, settings: Settings, k: nat) returns (ss: seq<System>)
    ensures |ss| == k + 1 && ss[0] == sys && ss[k] == After(sys, env, n, settings, k)
    ensures forall i :: 0 <= i < k ==> RunsTo(ss[i], env, n + i, settings, ss[i + 1])
    decreases k
  {
    hide RunOnce;
    if k == 0 {
      ss := [sys];
    } else {
      ss := Unrolled(sys, env, n, settings, k - 1);
      var next := After(sys, env, n, settings, k);
      assert RunsTo(ss[k - 1], env, n + k - 1, settings, next);
      ss := ss + [next];
    }
  }

  lemma {:induction false} UnrolledInStep(ss: seq<System>, env: Env, n: nat, settings: Settings, k: nat)
    requires k < |ss| && Boundary(ss[0]) && InStep(ss[0])
    requires forall i :: 0 <= i < k ==> RunsTo(ss[i], env, n + i, settings, ss[i + 1])
    ensures Boundary(ss[k]) && InStep(ss[k])
    decreases k
  {
    if k != 0 {
      UnrolledInStep(ss, env, n, settings, k - 1);
      RunsToInStep(ss[k - 1], env, n + k - 1, settings, ss[k]);
    }
  }

  lemma AfterInStep(sys: System, env: Env, n: nat, settings: Settings, k: nat)
    requires Boundary(sys) && InStep(sys)
    ensures Boundary(After(sys, env, n, settings, k)) && InStep(After(sys, env, n, settings, k))
  {
    var ss := Unrolled(sys, env, n, settings, k);
    UnrolledInStep(ss, env, n, settings, k);
  }

  /** When `drain` stops, every existing job that has an item is COMPLETED or FAILED, as its item is. */
  lemma DrainSettlesJobs(sys: System, env: Env, n: nat, settings: Settings, k: nat)
    requires Boundary(sys) && InStep(sys) && Drained(After(sys, env, n, settings, k).q)
    ensures var after := After(sys, env, n, settings, k);
            forall id :: id in after.q.items && after.q.items[id].jobId in after.t.jobs ==>
              var (item, job) := (after.q.items[id], after.t.jobs[after.q.items[id].jobId]);
              || (item.status == Completed && job.status == JobCompleted)
              || (item.status == Failed && job.status == JobFailed)
  {
    var after := After(sys, env, n, settings, k);
    AfterInStep(sys, env, n, settings, k);
    CountZero(after.q.items, Queued);
    CountZero(after.q.items, Dispatching);
  }

  /** What remove_job does: an existing job goes with its run, its item and its index entry; nothing else changes. */
  lemma RemoveJobLaw(sys: System, jobId: string)
    requires WellFormed(sys.q)
    ensures var sys' := AfterRemoveJob(sys, jobId);
            if jobId !in sys.t.jobs then sys' == sys
            else
              && sys'.t.jobs.Keys == sys.t.jobs.Keys - {jobId} && sys'.t.runs.Keys == sys.t.runs.Keys - {jobId}
              && sys'.t.documents == sys.t.documents
              && (forall j :: j in sys'.t.jobs ==> sys'.t.jobs[j] == sys.t.jobs[j])
              && (forall r :: r in sys'.t.runs ==> sys'.t.runs[r] == sys.t.runs[r])
              && sys'.q.fifo == sys.q.fifo && sys'.q.jobIndex.Keys == sys.q.jobIndex.Keys - {jobId}
              && (forall j :: j in sys'.q.jobIndex ==> sys'.q.jobIndex[j] == sys.q.jobIndex[j])
              && (jobId in sys.q.jobIndex ==> sys'.q.items == sys.q.items - {sys.q.jobIndex[jobId]})
              && (jobId !in sys.q.jobIndex ==> sys'.q.items == sys.q.items)
  {
    RemoveLaw(sys.q, jobId);
    Repo.DeleteLaw(sys.t, jobId);
  }
}
