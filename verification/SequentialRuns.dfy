/**
 * Uploads, new runs, parses, removals and dispatcher runs one after the other: when
 * the job table and the queue stay in agreement, and what a failing parse does to it.
 */
module SequentialRuns {
  import opened Wrappers
  import opened JobModels
  import opened DispatchQueue
  import opened QueueLaws
  import Repo = JobRepository
  import opened DispatchSteps
  import opened DispatchDrain
  import opened DispatchJobs
  import opened DispatchAgreement
  import opened ParseSteps
  import opened ParseRetries
  import opened ParseHandover

  // ------------------------------------------------------------- failing parses

  /** Nobody but the parse's own reporter saves anything meanwhile. */
  ghost predicate OwnReports(events: seq<Event>) {
    forall e :: e in events ==> e.ReportReads? || e.ReportSaves?
  }

  /** The run ends in a failure. */
  predicate RunFails(job: Job, a: Attempt, opts: Options) {
    FailsFirst(job, opts) || ParserFails(job, a)
  }

  /** No retry follows. */
  predicate LastFailure(job: Job, opts: Options, ps: ParserSettings) {
    FailsFirst(job, opts) || FailureCount(job) >= ps.maxRetries
  }

  /** When a failing parse leaves job and item in agreement. */
  predicate FailureFits(q: Queue, job: Job, opts: Options, ps: ParserSettings)
    requires Indexed(q)
  {
    job.jobId in q.jobIndex ==> q.items[q.jobIndex[job.jobId]].status == Failed && LastFailure(job, opts, ps)
  }

  /** A save of a job under the document it has. */
  lemma SaveTouches(t: Repo.Tables, job: Job)
    requires Repo.KeyedRows(t) && job.jobId in t.jobs && job.documentId == t.jobs[job.jobId].documentId
    ensures Touched(t, {job.jobId}, Repo.AfterSave(t, job))
  {
    if Repo.Inv(t) {
      if job.jobId in t.runs {
        assert Repo.Agrees(t.runs[job.jobId], t.jobs[job.jobId]);
      }
      Repo.SaveKeeps(t, job);
    }
  }

  lemma TouchedAgain(t: Repo.Tables, id: string, t1: Repo.Tables, t2: Repo.Tables)
    requires Touched(t, {id}, t1) && Touched(t1, {id}, t2)
    ensures Touched(t, {id}, t2)
  {
  }

  /** The reports of a parse save its job under its document, and touch no other. */
  lemma {:induction false} ReportsTouch(sys: System, jobId: string, events: seq<Event>, limit: nat)
    requires Repo.KeyedRows(sys.t) && jobId in sys.t.jobs && OwnReports(events)
    ensures var w := AfterEvents(sys, jobId, events, limit);
            && w.sys.q == sys.q && Touched(sys.t, {jobId}, w.sys.t)
            && w.sys.t.jobs[jobId].documentId == sys.t.jobs[jobId].documentId
            && (w.read.Some? ==>
                  w.read.value.jobId == jobId && w.read.value.documentId == sys.t.jobs[jobId].documentId)
    decreases |events|
  {
    if events != [] {
      var e := events[|events| - 1];
      assert e in events;
      var w := AfterEvents(sys, jobId, events[..|events| - 1], limit);
      ReportsTouch(sys, jobId, events[..|events| - 1], limit);
      if e.ReportSaves? && w.read.Some? {
        SaveTouches(w.sys.t, Reported(w.read.value, e.payload, limit, e.now));
      }
    }
  }

  /** A failing parse changes the row of its own job only. */
  lemma FailureTouches(sys: System, jobId: string, a: Attempt, opts: Options, ps: ParserSettings)
    requires WellFormed(sys.q) && Repo.KeyedRows(sys.t) && jobId in sys.t.jobs
    requires RunFails(sys.t.jobs[jobId], a, opts) && OwnReports(a.events)
    ensures var sys' := Processed(sys, jobId, a, opts, ps).0;
            sys'.q == sys.q && Touched(sys.t, {jobId}, sys'.t)
  {
    var job := sys.t.jobs[jobId];
    if FailsFirst(job, opts) {
      SaveTouches(sys.t, FailedJob(job, NO_INPUT, "RuntimeError", false, None, a.now, ps));
    } else {
      var running, eff := RunningJob(job, a, opts), Effective(job, a);
      var started := sys.(t := Repo.AfterSave(sys.t, running));
      SaveTouches(sys.t, running);
      EventsWellFormed(started, jobId, eff.events, ps.historyLimit);
      ReportsTouch(started, jobId, eff.events, ps.historyLimit);
      var during := DuringParse(sys, job, a, opts, ps);
      OutcomeTouches(during.t, jobId, eff, ps);
      TouchedAgain(sys.t, jobId, started.t, during.t);
      TouchedAgain(sys.t, jobId, during.t, Processed(sys, jobId, a, opts, ps).0.t);
    }
  }

  lemma OutcomeTouches(t: Repo.Tables, jobId: string, a: Attempt, ps: ParserSettings)
    requires Repo.KeyedRows(t) && jobId in t.jobs && a.outcome.Raises?
    ensures var (error, errorType) := (a.outcome.error, a.outcome.errorType);
            Touched(t, {jobId},
                    AfterFailure(t, t.jobs[jobId], error, errorType, a.outcome.isValidation, a.endedAt, ps).0)
  {
    var job, count := t.jobs[jobId], FailureCount(t.jobs[jobId]) + 1;
    var (error, errorType, isValidation) := (a.outcome.error, a.outcome.errorType, a.outcome.isValidation);
    var note := Counted(count, ps.maxRetries, error, errorType, RetriesExhausted);
    SaveTouches(t, FailedJob(job, error, errorType, isValidation, Some(note), a.endedAt, ps));
    SaveTouches(t, RetryingJob(job, error, errorType, isValidation, a.endedAt, ps));
  }

  lemma FailedStatus(sys: System, jobId: string, a: Attempt, opts: Options, ps: ParserSettings)
    requires WellFormed(sys.q) && Repo.KeyedRows(sys.t) && jobId in sys.t.jobs
    requires RunFails(sys.t.jobs[jobId], a, opts) && OwnReports(a.events)
    ensures var sys' := Processed(sys, jobId, a, opts, ps).0;
            && jobId in sys'.t.jobs
            && sys'.t.jobs[jobId].status == if LastFailure(sys.t.jobs[jobId], opts, ps) then JobFailed else Retrying
  {
    ProcessedLaw(sys, jobId, a, opts, ps);
  }

  /** Only the status of the job has changed, so its item decides. */
  lemma StatusDecides(sys: System, sys': System, jobId: string, last: bool)
    requires Boundary(sys) && InStepBut(sys, {jobId}) && jobId in sys.t.jobs
    requires sys'.q == sys.q && Touched(sys.t, {jobId}, sys'.t)
    requires sys'.t.jobs[jobId].status == if last then JobFailed else Retrying
    ensures Boundary(sys')
    ensures InStep(sys') <==> (jobId in sys.q.jobIndex ==> sys.q.items[sys.q.jobIndex[jobId]].status == Failed && last)
  {
    JobDecides(sys, sys', jobId);
  }

  /**
   * After a parse that fails, job and item tables agree iff the job has no item, or its
   * item is FAILED and no retry follows.
   */
  lemma FailedParseAgreesExactly(sys: System, jobId: string, a: Attempt, opts: Options, ps: ParserSettings)
    requires Boundary(sys) && InStepBut(sys, {jobId}) && jobId in sys.t.jobs
    requires RunFails(sys.t.jobs[jobId], a, opts) && OwnReports(a.events)
    ensures Boundary(Processed(sys, jobId, a, opts, ps).0)
    ensures InStep(Processed(sys, jobId, a, opts, ps).0) <==> FailureFits(sys.q, sys.t.jobs[jobId], opts, ps)
  {
    var sys', last := Processed(sys, jobId, a, opts, ps).0, LastFailure(sys.t.jobs[jobId], opts, ps);
    FailureTouches(sys, jobId, a, opts, ps);
    FailedStatus(sys, jobId, a, opts, ps);
    hide Processed, Touched, InStepBut, Idle;
    StatusDecides(sys, sys', jobId, last);
  }

  // ---------------------------------------------------------- successful parses

  /** The tables stay consistent when the saves of a handover keep the document. */
  lemma HandoverTables(sys: System, h: Handover, settings: Settings)
    requires WellFormed(sys.q) && Repo.Inv(sys.t)
    requires h.job.documentId == Some(h.payload.documentId)
    requires h.job.jobId in sys.q.jobIndex ==>
               sys.q.items[sys.q.jobIndex[h.job.jobId]].payload.documentId == h.payload.documentId
    requires h.job.jobId in sys.t.runs ==> sys.t.runs[h.job.jobId].documentId == h.payload.documentId
    ensures Repo.Inv(AfterParse(sys, h, settings).t)
  {
    var (after, job) := AfterHandover(sys, h, settings);
    var r := AfterEnqueue(sys.q, h.job.jobId, Entrusted(h), h.queueId).1;
    if r.Ok? {
      var queued := QueuedJob(h, r.value, settings);
      SaveSameDocument(sys.t, queued, h.payload.documentId);
      if Unpublished(h) {
        SaveSameDocument(Repo.AfterSave(sys.t, queued), job, h.payload.documentId);
      }
    }
    SaveSameDocument(after.t, job, h.payload.documentId);
  }

  lemma SaveSameDocument(t: Repo.Tables, job: Job, documentId: string)
    requires Repo.Inv(t) && job.documentId == Some(documentId)
    requires job.jobId in t.runs ==> t.runs[job.jobId].documentId == documentId
    ensures Repo.Inv(Repo.AfterSave(t, job))
    ensures job.jobId in t.runs ==> Repo.AfterSave(t, job).runs[job.jobId].documentId == documentId
    ensures Repo.AfterSave(t, job).runs.Keys == t.runs.Keys
  {
    Repo.SaveKeeps(t, job);
    if job.jobId in t.runs {
      assert Repo.Agrees(t.runs[job.jobId], t.jobs[job.jobId]);
    }
  }

  lemma HandoverBoundary(sys: System, h: Handover, settings: Settings)
    requires Boundary(sys) && InStepBut(sys, {h.job.jobId}) && h.queueId !in sys.q.items && h.queueId !in sys.q.fifo
    requires h.job.documentId == Some(h.payload.documentId)
    requires h.job.jobId in sys.q.jobIndex ==>
               sys.q.items[sys.q.jobIndex[h.job.jobId]].payload.documentId == h.payload.documentId
    requires h.job.jobId in sys.t.runs ==> sys.t.runs[h.job.jobId].documentId == h.payload.documentId
    ensures Boundary(AfterParse(sys, h, settings))
    ensures InStep(AfterParse(sys, h, settings)) <==> HandoverFits(sys.q, h)
  {
    HandoverAgreesExactly(sys, h, settings);
    HandoverTables(sys, h, settings);
    HandoverQueue(sys, h, settings);
    hide AfterParse, InStep, InStepBut, HandoverFits;
  }

  lemma HandoverQueue(sys: System, h: Handover, settings: Settings)
    requires Boundary(sys) && h.queueId !in sys.q.items && h.queueId !in sys.q.fifo
    ensures var q := AfterParse(sys, h, settings).q;
            WellFormed(q) && q.limits == sys.q.limits && Idle(q) && EachIndexed(q)
  {
    ParseQueue(sys, h, settings);
    hide AfterParse, Repo.Inv;
    EnqueueWellFormed(sys.q, h.job.jobId, Entrusted(h), h.queueId);
    hide WellFormed;
    EnqueueIndexed(sys.q, h.job.jobId, Entrusted(h), h.queueId);
  }

  /** The parse result belongs to the document that the job's run and item are filed under, and its item id is fresh. */
  predicate SameDocument(sys: System, jobId: string, a: Attempt)
    requires a.outcome.Returns? && Indexed(sys.q)
  {
    && a.outcome.queueId !in sys.q.items && a.outcome.queueId !in sys.q.fifo
    && (jobId in sys.t.runs ==> sys.t.runs[jobId].documentId == a.outcome.documentId)
    && (jobId in sys.q.jobIndex ==>
          sys.q.items[sys.q.jobIndex[jobId]].payload.documentId == a.outcome.documentId)
  }

  /** When a parse that returns leaves job and item in agreement. */
  predicate SuccessFits(q: Queue, job: Job, a: Attempt, ps: ParserSettings)
    requires a.outcome.Returns? && Indexed(q)
  {
    if ps.dispatch.None? then job.jobId !in q.jobIndex else HandoverFits(q, HandoverOf(job, a))
  }

  /** The parsed job is saved: the queue is as it was, and only its own job may disagree now. */
  lemma SavedParse(sys: System, jobId: string, a: Attempt, opts: Options, ps: ParserSettings) returns (parsed: Job)
    requires Boundary(sys) && InStepBut(sys, {jobId}) && jobId in sys.t.jobs
    requires RunSucceeds(sys.t.jobs[jobId], a) && OwnReports(a.events)
    requires jobId in sys.t.runs ==> sys.t.runs[jobId].documentId == a.outcome.documentId
    ensures parsed.jobId == jobId && parsed.status == Parsed && parsed.documentId == Some(a.outcome.documentId)
    ensures var saved := Saved(DuringParse(sys, sys.t.jobs[jobId], a, opts, ps), parsed);
            && saved.q == sys.q && saved.t.jobs.Keys == sys.t.jobs.Keys && saved.t.runs.Keys == sys.t.runs.Keys
            && Boundary(saved) && InStepBut(saved, {jobId})
            && (forall j :: j in sys.t.jobs && j != jobId ==> saved.t.jobs[j] == sys.t.jobs[j])
            && (jobId in saved.t.runs ==> saved.t.runs[jobId].documentId == a.outcome.documentId)
            && Processed(sys, jobId, a, opts, ps)
               == (if ps.dispatch.None? then saved else AfterParse(saved, HandoverOf(parsed, a), ps.dispatch.value),
                   false)
  {
    var metadata;
    metadata, parsed := ParsedSave(sys, jobId, a, opts, ps);
    DuringReports(sys, jobId, a, opts, ps);
    SavedOver(sys, DuringParse(sys, sys.t.jobs[jobId], a, opts, ps), parsed, a.outcome.documentId);
    hide Processed, DuringParse, AfterParse, Boundary, InStepBut;
  }

  lemma DuringReports(sys: System, jobId: string, a: Attempt, opts: Options, ps: ParserSettings)
    requires Repo.KeyedRows(sys.t) && jobId in sys.t.jobs && sys.t.jobs[jobId].inputPath.Some? && OwnReports(a.events)
    ensures var during := DuringParse(sys, sys.t.jobs[jobId], a, opts, ps);
            && during.q == sys.q && Touched(sys.t, {jobId}, during.t)
            && during.t.jobs[jobId].documentId == sys.t.jobs[jobId].documentId
  {
    var running := RunningJob(sys.t.jobs[jobId], a, opts);
    var started := sys.(t := Repo.AfterSave(sys.t, running));
    SaveTouches(sys.t, running);
    ReportsTouch(started, jobId, a.events, ps.historyLimit);
    TouchedAgain(sys.t, jobId, started.t, DuringParse(sys, sys.t.jobs[jobId], a, opts, ps).t);
  }

  lemma SavedOver(sys: System, during: System, parsed: Job, documentId: string)
    requires Boundary(sys) && InStepBut(sys, {parsed.jobId}) && parsed.jobId in sys.t.jobs
    requires during.q == sys.q && Touched(sys.t, {parsed.jobId}, during.t)
    requires during.t.jobs[parsed.jobId].documentId == sys.t.jobs[parsed.jobId].documentId
    requires parsed.documentId == Some(documentId)
    requires parsed.jobId in sys.t.runs ==> sys.t.runs[parsed.jobId].documentId == documentId
    ensures var saved := Saved(during, parsed);
            && saved.q == sys.q && saved.t.jobs.Keys == sys.t.jobs.Keys && saved.t.runs.Keys == sys.t.runs.Keys
            && saved.t.jobs[parsed.jobId] == parsed
            && Boundary(saved) && InStepBut(saved, {parsed.jobId})
            && (forall j :: j in sys.t.jobs && j != parsed.jobId ==> saved.t.jobs[j] == sys.t.jobs[j])
            && (parsed.jobId in saved.t.runs ==> saved.t.runs[parsed.jobId].documentId == documentId)
  {
    SavedTables(sys.t, during.t, parsed, documentId);
    hide WellFormed, Idle, EachIndexed, InStepBut, Repo.Inv, Touched, Repo.AfterSave;
    OnlyOneChanged(sys, Saved(during, parsed), parsed.jobId);
  }

  lemma SavedTables(t: Repo.Tables, t1: Repo.Tables, parsed: Job, documentId: string)
    requires Repo.Inv(t) && Touched(t, {parsed.jobId}, t1) && parsed.jobId in t.jobs
    requires t1.jobs[parsed.jobId].documentId == t.jobs[parsed.jobId].documentId
    requires parsed.documentId == Some(documentId)
    requires parsed.jobId in t.runs ==> t.runs[parsed.jobId].documentId == documentId
    ensures var t2 := Repo.AfterSave(t1, parsed);
            && t2.jobs.Keys == t.jobs.Keys && t2.runs.Keys == t.runs.Keys && t2.jobs[parsed.jobId] == parsed
            && Repo.Inv(t2)
            && (forall j :: j in t.jobs && j != parsed.jobId ==> t2.jobs[j] == t.jobs[j])
            && (parsed.jobId in t2.runs ==> t2.runs[parsed.jobId].documentId == documentId)
  {
    RunKeepsDocument(t, t1, parsed.jobId, documentId);
    SaveSameDocument(t1, parsed, documentId);
    hide Repo.Inv;
  }

  lemma OnlyOneChanged(sys: System, sys': System, jobId: string)
    requires InStepBut(sys, {jobId}) && sys'.q == sys.q && sys'.t.jobs.Keys == sys.t.jobs.Keys
    requires forall j :: j in sys.t.jobs && j != jobId ==> sys'.t.jobs[j] == sys.t.jobs[j]
    ensures InStepBut(sys', {jobId})
  {
  }

  lemma RunKeepsDocument(t: Repo.Tables, t': Repo.Tables, jobId: string, documentId: string)
    requires Repo.Inv(t) && Touched(t, {jobId}, t') && jobId in t.jobs
    requires t'.jobs[jobId].documentId == t.jobs[jobId].documentId
    requires jobId in t.runs ==> t.runs[jobId].documentId == documentId
    ensures jobId in t'.runs ==> t'.runs[jobId].documentId == documentId
  {
    if jobId in t.runs {
      assert Repo.Agrees(t.runs[jobId], t.jobs[jobId]) && Repo.Agrees(t'.runs[jobId], t'.jobs[jobId]);
    }
  }

  /**
   * After a parse that returns, job and item tables agree iff its handover fits, or, without
   * a dispatcher, the job has no item.
   */
  lemma ParseAgreesExactly(sys: System, jobId: string, a: Attempt, opts: Options, ps: ParserSettings)
    requires Boundary(sys) && InStepBut(sys, {jobId}) && jobId in sys.t.jobs
    requires RunSucceeds(sys.t.jobs[jobId], a) && OwnReports(a.events) && SameDocument(sys, jobId, a)
    ensures Boundary(Processed(sys, jobId, a, opts, ps).0)
    ensures InStep(Processed(sys, jobId, a, opts, ps).0) <==> SuccessFits(sys.q, sys.t.jobs[jobId], a, ps)
  {
    var parsed := SavedParse(sys, jobId, a, opts, ps);
    var saved := Saved(DuringParse(sys, sys.t.jobs[jobId], a, opts, ps), parsed);
    hide Processed, DuringParse, Boundary, InStepBut, InStep;
    if ps.dispatch.Some? {
      BoundaryIndexed(sys, jobId);
      HandoverBoundary(saved, HandoverOf(parsed, a), ps.dispatch.value);
    } else {
      ParsedDecides(sys, saved, jobId);
    }
  }

  lemma BoundaryIndexed(sys: System, jobId: string)
    requires Boundary(sys) && jobId in sys.t.jobs
    ensures Indexed(sys.q) && sys.t.jobs[jobId].jobId == jobId
  {
  }

  /** A PARSED job agrees with no item. */
  lemma ParsedDecides(sys: System, saved: System, jobId: string)
    requires Boundary(sys) && InStepBut(sys, {jobId}) && jobId in sys.t.jobs
    requires saved.q == sys.q && saved.t.jobs.Keys == sys.t.jobs.Keys && saved.t.jobs[jobId].status == Parsed
    requires forall j :: j in sys.t.jobs && j != jobId ==> saved.t.jobs[j] == sys.t.jobs[j]
    ensures sys.t.jobs[jobId].jobId == jobId
    ensures InStep(saved) <==> jobId !in sys.q.jobIndex
  {
    JobDecides(sys, saved, jobId);
  }

  // ---------------------------------------------------------- a failing input

  /**
   * A failing parse that does not fit: a parsed job whose item is still QUEUED is taken up
   * again after a restart, and fails.
   */
  lemma FailedReparseDisagrees(job: Job, limits: Limits, payload: Payload, settings: Settings, a: Attempt,
                               opts: Options, ps: ParserSettings)
    requires ValidLimits(limits) && !TooLarge(limits, payload)
    requires job.documentId == Some(payload.documentId) && job.inputPath.Some?
    requires a.outcome.Raises? && a.events == []
    ensures var start := System(Queue(limits, [], map[], map[]), Repo.Tables(map[], map[], map[]));
            var parsed := AfterParse(Saved(start, job), Handover(job, payload, "q0", d => d, None, 0), settings);
            && Boundary(parsed) && InStep(parsed) && job.jobId in parsed.t.jobs
            && var again := Processed(parsed, job.jobId, a, opts, ps).0;
               && !InStep(again)
               && again.q.items["q0"].status == Queued && again.q.items["q0"].jobId == job.jobId
               && again.t.jobs[job.jobId].status in {Retrying, JobFailed}
  {
    var start := System(Queue(limits, [], map[], map[]), Repo.Tables(map[], map[], map[]));
    var h := Handover(job, payload, "q0", d => d, None, 0);
    var parsed := AfterParse(Saved(start, job), h, settings);
    SavedBut(start, job);
    HandoverBoundary(Saved(start, job), h, settings);
    ParseJobs(Saved(start, job), h, settings);
    ParseQueue(Saved(start, job), h, settings);
    FailedParseAgreesExactly(parsed, job.jobId, a, opts, ps);
    FailureTouches(parsed, job.jobId, a, opts, ps);
    FailedStatus(parsed, job.jobId, a, opts, ps);
  }

  // ---------------------------------------------------------------- the steps

  /** The system and the number of batches run so far. */
  datatype State = State(sys: System, batches: nat)

  /**
   * UploadStep stores a document; CreateStep saves a new job for a document and creates its run;
   * ParseStep is one call of process_job, whether it succeeds or fails.
   */
  datatype Step =
    | UploadStep(up: Repo.Upload)
    | CreateStep(job: Job, documentId: string)
    | ParseStep(jobId: string, a: Attempt, opts: Options, ps: ParserSettings)
    | RemoveStep(jobId: string)
    | RunStep

  function Apply(s: State, step: Step, env: Env, settings: Settings): State
    requires WellFormed(s.sys.q)
  {
    match step
    case UploadStep(up) => s.(sys := s.sys.(t := Repo.AfterUpsert(s.sys.t, up)))
    case CreateStep(job, documentId) =>
      s.(sys := s.sys.(t := Repo.AfterCreateRun(Repo.AfterSave(s.sys.t, job), job, documentId).0))
    case ParseStep(jobId, a, opts, ps) => s.(sys := Processed(s.sys, jobId, a, opts, ps).0)
    case RemoveStep(jobId) => s.(sys := AfterRemoveJob(s.sys, jobId))
    case RunStep => State(RunOnce(s.sys, env, s.batches, settings).0, s.batches + 1)
  }

  /** Fresh document, job and queue ids, parses that fit, and a job's run and item keep their document. */
  ghost predicate Allowed(s: State, step: Step) {
    && WellFormed(s.sys.q)
    && match step
       case UploadStep(up) => Repo.Allowed(s.sys.t, Repo.UpsertStep(up))
       case CreateStep(job, documentId) =>
         && documentId != "" && job.documentId == Some(documentId)
         && job.jobId !in s.sys.t.jobs && job.jobId !in s.sys.q.jobIndex
       case ParseStep(jobId, a, opts, ps) =>
         && OwnReports(a.events)
         && (jobId in s.sys.t.jobs ==>
               var job := s.sys.t.jobs[jobId];
               if RunFails(job, a, opts) then FailureFits(s.sys.q, job, opts, ps)
               else RunSucceeds(job, a) && SameDocument(s.sys, jobId, a) && SuccessFits(s.sys.q, job, a, ps))
       case _ => true
  }

  lemma RemoveKeeps(sys: System, jobId: string)
    requires Boundary(sys) && InStep(sys)
    ensures Boundary(AfterRemoveJob(sys, jobId)) && InStep(AfterRemoveJob(sys, jobId))
  {
    if jobId in sys.t.jobs {
      Repo.DeleteKeeps(sys.t, jobId);
      var sys' := AfterRemoveJob(sys, jobId);
      forall id | id in sys'.q.items
        ensures sys'.q.items[id].jobId in sys'.q.jobIndex && sys'.q.jobIndex[sys'.q.items[id].jobId] == id
      {
        assert sys.q.jobIndex[sys.q.items[id].jobId] == id;
      }
      assert Idle(sys'.q);
    }
  }

  lemma UploadKeeps(sys: System, up: Repo.Upload)
    requires Boundary(sys) && InStep(sys) && Repo.Allowed(sys.t, Repo.UpsertStep(up))
    ensures var sys' := sys.(t := Repo.AfterUpsert(sys.t, up));
            Boundary(sys') && InStep(sys')
  {
    Repo.UpsertKeeps(sys.t, up);
  }

  /** A new job has no item yet, so nothing needs to agree with it. */
  lemma CreateKeeps(sys: System, job: Job, documentId: string)
    requires Boundary(sys) && InStep(sys)
    requires documentId != "" && job.documentId == Some(documentId)
    requires job.jobId !in sys.t.jobs && job.jobId !in sys.q.jobIndex
    ensures var sys' := sys.(t := Repo.AfterCreateRun(Repo.AfterSave(sys.t, job), job, documentId).0);
            Boundary(sys') && InStep(sys')
  {
    Repo.SaveKeeps(sys.t, job);
    Repo.CreateRunKeeps(Repo.AfterSave(sys.t, job), job, documentId);
  }

  ghost predicate Run(states: seq<State>, steps: seq<Step>, env: Env, settings: Settings) {
    && |states| == |steps| + 1
    && ValidLimits(states[0].sys.q.limits)
    && states[0].sys.q == Queue(states[0].sys.q.limits, [], map[], map[])
    && Repo.Inv(states[0].sys.t)
    && forall i :: 0 <= i < |steps| ==>
         Allowed(states[i], steps[i]) && states[i + 1] == Apply(states[i], steps[i], env, settings)
  }

  /**
   * In every sequential composition of uploads, new runs, parses that succeed or fail, removals and
   * dispatcher runs, whatever writer and sink do, each existing job's stored status agrees with
   * its queue item at every boundary, and the tables stay consistent.
   */
  lemma {:induction false} SequentialAgreement(states: seq<State>, steps: seq<Step>, env: Env, settings: Settings,
                                               n: nat)
    requires Run(states, steps, env, settings) && n <= |steps|
    ensures Boundary(states[n].sys) && InStep(states[n].sys)
    decreases n
  {
    if n != 0 {
      SequentialAgreement(states, steps, env, settings, n - 1);
      var s, step := states[n - 1], steps[n - 1];
      assert Allowed(s, step) && states[n] == Apply(s, step, env, settings);
      match step
      case UploadStep(up) => UploadKeeps(s.sys, up);
      case CreateStep(job, documentId) => CreateKeeps(s.sys, job, documentId);
      case ParseStep(jobId, a, opts, ps) =>
        if jobId in s.sys.t.jobs {
          if RunFails(s.sys.t.jobs[jobId], a, opts) {
            FailedParseAgreesExactly(s.sys, jobId, a, opts, ps);
          } else {
            ParseAgreesExactly(s.sys, jobId, a, opts, ps);
          }
        }
      case RemoveStep(jobId) => RemoveKeeps(s.sys, jobId);
      case RunStep => RunOnceInStep(s.sys, env, s.batches, settings);
    }
  }

  /** What each step of a run does, in terms of the tables and the queue. */
  lemma StepEffect(s: State, step: Step, env: Env, settings: Settings)
    requires Boundary(s.sys) && Allowed(s, step)
    ensures var (sys, after) := (s.sys, Apply(s, step, env, settings));
            && after.batches == s.batches + (if step == RunStep then 1 else 0)
            && var sys' := after.sys;
            match step
            case UploadStep(up) =>
              && sys'.q == sys.q && sys'.t.jobs == sys.t.jobs
              && sys'.t.documents.Keys == sys.t.documents.Keys + {up.contentHash}
            case CreateStep(job, documentId) =>
              && sys'.q == sys.q && sys'.t.jobs == sys.t.jobs[job.jobId := job]
              && job.jobId in sys'.t.runs && sys'.t.runs[job.jobId].documentId == documentId
            case ParseStep(jobId, a, opts, ps) =>
              && sys'.t.jobs.Keys == sys.t.jobs.Keys
              && (jobId in sys.t.jobs ==>
                    if RunFails(sys.t.jobs[jobId], a, opts) then sys'.t.jobs[jobId].status in {Retrying, JobFailed}
                    else if ps.dispatch.None? then sys'.t.jobs[jobId].status == Parsed
                    else sys'.t.jobs[jobId].status in {DispatchQueued, RetryableFailure})
            case RemoveStep(jobId) =>
              && jobId !in sys'.t.jobs && sys'.t.jobs.Keys == sys.t.jobs.Keys - {jobId}
              && (jobId in sys.t.jobs ==> sys'.q.jobIndex.Keys == sys.q.jobIndex.Keys - {jobId})
            case RunStep =>
              Ran(sys.q, TakenIds(sys, settings), DroppedIds(sys, settings),
                  RunOnce(sys, env, s.batches, settings).1.verdict, settings.maxRetries, sys'.q)
  {
    match step
    case UploadStep(up) => Repo.UpsertLaw(s.sys.t, up);
    case CreateStep(job, documentId) =>
      Repo.SaveLaw(s.sys.t, job);
      Repo.CreateRunLaw(Repo.AfterSave(s.sys.t, job), job, documentId);
    case ParseStep(jobId, a, opts, ps) => ParseEffect(s.sys, jobId, a, opts, ps);
    case RemoveStep(jobId) => RemoveJobLaw(s.sys, jobId);
    case RunStep => RunOnceLaw(s.sys, env, s.batches, settings);
  }

  lemma ParseEffect(sys: System, jobId: string, a: Attempt, opts: Options, ps: ParserSettings)
    requires Boundary(sys) && OwnReports(a.events)
    requires jobId in sys.t.jobs ==>
               RunFails(sys.t.jobs[jobId], a, opts)
               || (RunSucceeds(sys.t.jobs[jobId], a) && SameDocument(sys, jobId, a))
    ensures var sys' := Processed(sys, jobId, a, opts, ps).0;
            && sys'.t.jobs.Keys == sys.t.jobs.Keys
            && (jobId in sys.t.jobs ==>
                  if RunFails(sys.t.jobs[jobId], a, opts) then sys'.t.jobs[jobId].status in {Retrying, JobFailed}
                  else if ps.dispatch.None? then sys'.t.jobs[jobId].status == Parsed
                  else sys'.t.jobs[jobId].status in {DispatchQueued, RetryableFailure})
  {
    if jobId !in sys.t.jobs {
    } else if RunFails(sys.t.jobs[jobId], a, opts) {
      FailureTouches(sys, jobId, a, opts, ps);
      FailedStatus(sys, jobId, a, opts, ps);
    } else {
      ParsedStatus(sys, jobId, a, opts, ps);
    }
  }

  lemma ParsedStatus(sys: System, jobId: string, a: Attempt, opts: Options, ps: ParserSettings)
    requires WellFormed(sys.q) && Repo.KeyedRows(sys.t) && OwnReports(a.events) && jobId in sys.t.jobs
    requires RunSucceeds(sys.t.jobs[jobId], a)
    requires a.outcome.queueId !in sys.q.items && a.outcome.queueId !in sys.q.fifo
    ensures var sys' := Processed(sys, jobId, a, opts, ps).0;
            && sys'.t.jobs.Keys == sys.t.jobs.Keys
            && (ps.dispatch.None? ==> sys'.t.jobs[jobId].status == Parsed)
            && (ps.dispatch.Some? ==> sys'.t.jobs[jobId].status in {DispatchQueued, RetryableFailure})
  {
    var metadata, parsed := ParsedLaw(sys, jobId, a, opts, ps);
    DuringReports(sys, jobId, a, opts, ps);
    hide Processed, DuringParse, WellFormed, PendingOf, RunningMetadata;
  }

  lemma OneRunStep(states: seq<State>, steps: seq<Step>, env: Env, settings: Settings, n: nat)
    requires Run(states, steps, env, settings) && n < |steps| && steps[n] == RunStep
    ensures states[n + 1]
         == State(RunOnce(states[n].sys, env, states[n].batches, settings).0, states[n].batches + 1)
  {
    hide RunOnce;
    assert states[n + 1] == Apply(states[n], steps[n], env, settings);
  }

  lemma {:induction false} Iterated(ss: seq<State>, env: Env, settings: Settings, k: nat)
    requires k < |ss|
    requires forall i :: 0 <= i < k ==>
               ss[i + 1] == State(RunOnce(ss[i].sys, env, ss[i].batches, settings).0, ss[i].batches + 1)
    ensures ss[k] == State(After(ss[0].sys, env, ss[0].batches, settings, k), ss[0].batches + k)
  {
    hide RunOnce;
    if k != 0 {
      Iterated(ss, env, settings, k - 1);
      assert ss[(k - 1) + 1] == ss[k];
    }
  }

  lemma RunSteps(states: seq<State>, steps: seq<Step>, env: Env, settings: Settings, n: nat, k: nat)
    requires Run(states, steps, env, settings) && n + k <= |steps|
    requires forall i :: n <= i < n + k ==> steps[i] == RunStep
    ensures states[n + k] == State(After(states[n].sys, env, states[n].batches, settings, k), states[n].batches + k)
  {
    var ss := states[n..n + k + 1];
    hide RunOnce, After;
    forall i | 0 <= i < k
      ensures ss[i + 1] == State(RunOnce(ss[i].sys, env, ss[i].batches, settings).0, ss[i].batches + 1)
    {
      OneRunStep(states, steps, env, settings, n + i);
      hide *;
      assert ss[i] == states[n + i] && ss[i + 1] == states[n + i + 1];
    }
    Iterated(ss, env, settings, k);
  }

  /**
   * Enough dispatcher runs at the end of any such sequence, whatever writer and sink do: each item
   * is COMPLETED or FAILED, and so is its job, if it still exists.
   */
  lemma RunsSettle(states: seq<State>, steps: seq<Step>, env: Env, settings: Settings, n: nat)
    requires Run(states, steps, env, settings) && n <= |steps|
    requires forall i :: n <= i < |steps| ==> steps[i] == RunStep
    requires Measure(states[n].sys.q, settings.maxRetries) < |steps| - n
    ensures var sys := states[|steps|].sys;
            forall id :: id in sys.q.items ==>
              var item := sys.q.items[id];
              && item.status in {ItemStatus.Completed, ItemStatus.Failed}
              && (item.jobId in sys.t.jobs ==>
                    sys.t.jobs[item.jobId].status
                    == if item.status == ItemStatus.Completed then JobCompleted else JobFailed)
  {
    var k := |steps| - n;
    SequentialAgreement(states, steps, env, settings, n);
    RunSteps(states, steps, env, settings, n, k);
    var sys := states[n].sys;
    DrainedInTime(sys, env, states[n].batches, settings, k);
    DrainSettlesJobs(sys, env, states[n].batches, settings, k);
    var q := After(sys, env, states[n].batches, settings, k).q;
    CountZero(q.items, Queued);
    CountZero(q.items, ItemStatus.Dispatching);
  }
}
