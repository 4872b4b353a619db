/**
 * The parse of one job on values: the job is saved as PARSING, the parser runs
 * while progress reports come in, and the outcome is saved: parsed and handed
 * over, to be retried, or failed.  The failure counter lives in the job's metadata.
 */
module ParseSteps {
  import opened Wrappers
  import opened JobModels
  import opened DispatchQueue
  import opened QueueLaws
  import Repo = JobRepository
  import opened DispatchSteps

  /** `dispatch` is None when no dispatcher is configured. */
  datatype ParserSettings = ParserSettings(
    maxRetries: nat,
    historyLimit: nat,
    markValidationErrors: bool,
    dispatch: Option<Settings>)

  /** How an entrypoint calls process_job. */
  datatype Options = Options(keepStartedAt: bool, failMissingInputFirst: bool)

  /**
   * What can happen to the tables while the parser is at work on a job.  A progress
   * report of that job is a read and a later save; reports of other jobs are saves
   * of other jobs.
   */
  datatype Event =
    | ReportReads
    | ReportSaves(payload: string, now: int)
    | Removal(jobId: string)
    | OtherSave(job: Job)

  /** The job as its reporter has read it, and not yet saved. */
  datatype Window = Window(sys: System, read: Option<Job>)

  /** A recoverable exception of the parser, or its result. */
  datatype Outcome =
    | Raises(error: string, errorType: string, isValidation: bool)
    | Returns(documentId: string, diagnostics: Metadata -> Metadata,
              payload: Payload, queueId: string, publish: Option<Result<(), string>>)

  datatype Attempt = Attempt(now: int, runtime: string, events: seq<Event>, outcome: Outcome, endedAt: int)

  const NO_INPUT := "Queued job has no input path."

  // ---------------------------------------------------------- progress reports

  /** history[-limit:], which for a limit of 0 is the whole history. */
  function Last<T>(s: seq<T>, limit: nat): seq<T> {
    if limit == 0 || |s| <= limit then s else s[|s| - limit..]
  }

  function Reported(job: Job, payload: string, limit: nat, now: int): Job {
    job.(metadata := job.metadata.(progress := Some(payload),
                                   progressHistory := Last(job.metadata.progressHistory + [payload], limit)),
         updatedAt := now)
  }

  function AfterReport(t: Repo.Tables, jobId: string, payload: string, limit: nat, now: int): Repo.Tables {
    if jobId in t.jobs then Repo.AfterSave(t, Reported(t.jobs[jobId], payload, limit, now)) else t
  }

  function AfterEvent(p: Window, jobId: string, event: Event, limit: nat): Window {
    match event
    case ReportReads => p.(read := if jobId in p.sys.t.jobs then Some(p.sys.t.jobs[jobId]) else None)
    case ReportSaves(payload, now) =>
      if p.read.None? then p
      else Window(p.sys.(t := Repo.AfterSave(p.sys.t, Reported(p.read.value, payload, limit, now))), None)
    case Removal(id) => p.(sys := AfterRemoveJob(p.sys, id))
    case OtherSave(job) => p.(sys := p.sys.(t := Repo.AfterSave(p.sys.t, job)))
  }

  function AfterEvents(sys: System, jobId: string, events: seq<Event>, limit: nat): Window
    decreases |events|
  {
    if events == [] then Window(sys, None)
    else AfterEvent(AfterEvents(sys, jobId, events[..|events| - 1], limit), jobId, events[|events| - 1], limit)
  }

  // ------------------------------------------------------------------- outcome

  function FailureCount(job: Job): int {
    match job.metadata.parserRetry
    case Counted(n, _, _, _, _) => n
    case _ => 0
  }

  function WithError(metadata: Metadata, errorType: string, isValidation: bool, ps: ParserSettings): Metadata {
    metadata.(errorType := Some(errorType),
              extra := if ps.markValidationErrors && isValidation
                       then metadata.extra["validation_error" := "true"] else metadata.extra)
  }

  /** _fail_job; `note` replaces the retry note when it is given. */
  function FailedJob(job: Job, error: string, errorType: string, isValidation: bool, note: Option<RetryNote>,
                     now: int, ps: ParserSettings): Job {
    job.(status := JobFailed,
         error := Some(error),
         metadata := WithError(job.metadata, errorType, isValidation, ps)
                     .(parserRetry := note.GetOr(job.metadata.parserRetry)),
         updatedAt := now,
         completedAt := Some(now))
  }

  function RetryingJob(job: Job, error: string, errorType: string, isValidation: bool, now: int,
                       ps: ParserSettings): Job
  {
    job.(status := Retrying,
         error := Some(error),
         metadata := WithError(job.metadata, errorType, isValidation, ps)
                     .(parserRetry := Counted(FailureCount(job) + 1, ps.maxRetries, error, errorType, RetryScheduled)),
         updatedAt := now,
         completedAt := None)
  }

  function AfterFailure(t: Repo.Tables, job: Job, error: string, errorType: string, isValidation: bool,
                        now: int, ps: ParserSettings): (Repo.Tables, bool)
  {
    var count := FailureCount(job) + 1;
    if count > ps.maxRetries then
      var note := Counted(count, ps.maxRetries, error, errorType, RetriesExhausted);
      (Repo.AfterSave(t, FailedJob(job, error, errorType, isValidation, Some(note), now, ps)), false)
    else
      (Repo.AfterSave(t, RetryingJob(job, error, errorType, isValidation, now, ps)), true)
  }

  function ParsedJob(job: Job, documentId: string, diagnostics: Metadata -> Metadata, now: int): Job {
    job.(status := Parsed, documentId := Some(documentId), metadata := diagnostics(job.metadata), updatedAt := now)
  }

  // --------------------------------------------------------------- process_job

  function RunningJob(job: Job, a: Attempt, opts: Options): Job {
    job.(status := Parsing,
         startedAt := if opts.keepStartedAt && job.startedAt.Some? then job.startedAt else Some(a.now),
         updatedAt := a.now,
         metadata := job.metadata.(extra := job.metadata.extra["parser_runtime" := a.runtime]))
  }

  /** A job without input path never reaches the parser; its attempt raises at once. */
  function Effective(job: Job, a: Attempt): Attempt {
    if job.inputPath.Some? then a
    else a.(events := [], outcome := Raises(NO_INPUT, "FileNotFoundError", false))
  }

  /** The job as it is now, or as it was when the parse began if it has been deleted since. */
  function LatestJob(t: Repo.Tables, running: Job): Job {
    if running.jobId in t.jobs then t.jobs[running.jobId] else running
  }

  /** The parse result as it is handed over: its content has the document id returned. */
  function HandoverOf(parsed: Job, a: Attempt): Handover
    requires a.outcome.Returns?
  {
    Handover(parsed, a.outcome.payload.(documentId := a.outcome.documentId), a.outcome.queueId, a.outcome.diagnostics,
             a.outcome.publish, a.endedAt)
  }

  function AfterOutcome(sys: System, running: Job, a: Attempt, ps: ParserSettings): (System, bool)
    requires Indexed(sys.q)
  {
    var latest := LatestJob(sys.t, running);
    match a.outcome
    case Raises(error, errorType, isValidation) =>
      var (t, retry) := AfterFailure(sys.t, latest, error, errorType, isValidation, a.endedAt, ps);
      (sys.(t := t), retry)
    case Returns(documentId, diagnostics, _, _, _) =>
      var parsed := ParsedJob(latest, documentId, diagnostics, a.endedAt);
      var saved := sys.(t := Repo.AfterSave(sys.t, parsed));
      if ps.dispatch.None? then (saved, false)
      else
        (AfterParse(saved, HandoverOf(parsed, a), ps.dispatch.value), false)
  }

  /** The system when the outcome of the attempt is about to be saved. */
  function DuringParse(sys: System, job: Job, a: Attempt, opts: Options, ps: ParserSettings): System {
    AfterEvents(sys.(t := Repo.AfterSave(sys.t, RunningJob(job, a, opts))), job.jobId, Effective(job, a).events,
                ps.historyLimit).sys
  }

  /** process_job: the new system and whether a retry is requested. */
  function Processed(sys: System, jobId: string, a: Attempt, opts: Options, ps: ParserSettings): (System, bool)
    requires WellFormed(sys.q)
  {
    if jobId !in sys.t.jobs then (sys, false)
    else
      var job := sys.t.jobs[jobId];
      if opts.failMissingInputFirst && job.inputPath.None? then
        var failed := FailedJob(job, NO_INPUT, "RuntimeError", false, None, a.now, ps);
        (sys.(t := Repo.AfterSave(sys.t, failed)), false)
      else
        EventsWellFormed(sys.(t := Repo.AfterSave(sys.t, RunningJob(job, a, opts))), job.jobId,
                         Effective(job, a).events, ps.historyLimit);
        AfterOutcome(DuringParse(sys, job, a, opts, ps), RunningJob(job, a, opts), Effective(job, a), ps)
  }

  lemma {:induction false} EventsWellFormed(sys: System, jobId: string, events: seq<Event>, limit: nat)
    requires WellFormed(sys.q)
    ensures WellFormed(AfterEvents(sys, jobId, events, limit).sys.q)
    decreases |events|
  {
    if events != [] {
      EventsWellFormed(sys, jobId, events[..|events| - 1], limit);
    }
  }
}
