/** What the parse protocol keeps: progress reports, the failure counter, and the bound on retries. */
module ParseRetries {
  import opened Wrappers
  import opened Sequences
  import opened JobModels
  import opened DispatchQueue
  import opened QueueLaws
  import Repo = JobRepository
  import opened DispatchSteps
  import Agreement = DispatchAgreement
  import opened ParseSteps

  // ------------------------------------------------------------------ progress

  /** The same job apart from what a progress report writes. */
  predicate SameButProgress(a: Job, b: Job) {
    a == b.(updatedAt := a.updatedAt,
            metadata := b.metadata.(progress := a.metadata.progress, progressHistory := a.metadata.progressHistory))
  }

  /** Nobody else saves this job while it is parsed. */
  predicate OthersOnly(events: seq<Event>, jobId: string) {
    forall e :: e in events && e.OtherSave? ==> e.job.jobId != jobId
  }

  /** Whether the job is stored, and whether its reporter has read it, as a matter of the order of events alone. */
  datatype Presence = Presence(stored: bool, read: bool)

  function PresenceAfter(events: seq<Event>, jobId: string): Presence
    decreases |events|
  {
    if events == [] then Presence(true, false)
    else
      var p := PresenceAfter(events[..|events| - 1], jobId);
      match events[|events| - 1]
      case ReportReads => Presence(p.stored, p.stored)
      case ReportSaves(_, _) => Presence(p.stored || p.read, false)
      case Removal(id) => if id == jobId then Presence(false, p.read) else p
      case OtherSave(_) => p
  }

  /** A report as it is saved. */
  datatype SavedReport = SavedReport(payload: string, now: int)

  /** The reports that find the job and save it. */
  function Reports(events: seq<Event>, jobId: string): seq<SavedReport>
    decreases |events|
  {
    if events == [] then []
    else
      var init, e := events[..|events| - 1], events[|events| - 1];
      Reports(init, jobId)
      + if e.ReportSaves? && PresenceAfter(init, jobId).read then [SavedReport(e.payload, e.now)] else []
  }

  function PayloadsOf(reports: seq<SavedReport>): seq<string> {
    seq(|reports|, i requires 0 <= i < |reports| => reports[i].payload)
  }

  /** The history after these reports, cut to its last entries; without any it stays as it was. */
  function HistoryAfter(past: seq<string>, reports: seq<SavedReport>, limit: nat): seq<string> {
    var all := past + PayloadsOf(reports);
    if reports == [] then past
    else if 0 < limit < |all| then all[|all| - limit..]
    else all
  }

  lemma HistoryGrows(past: seq<string>, reports: seq<SavedReport>, x: SavedReport, limit: nat)
    ensures Last(HistoryAfter(past, reports, limit) + [x.payload], limit) == HistoryAfter(past, reports + [x], limit)
  {
    assert PayloadsOf(reports + [x]) == PayloadsOf(reports) + [x.payload];
    assert past + PayloadsOf(reports) + [x.payload] == past + (PayloadsOf(reports) + [x.payload]);
  }

  /** Job rows are keyed by job id (Repo.KeyedRows keeps it). */
  ghost predicate Keyed(t: Repo.Tables) {
    forall j :: j in t.jobs ==> t.jobs[j].jobId == j
  }

  /** The running job after these reports: the last of them is its progress, and all are in its history. */
  predicate CopyOf(job: Job, running: Job, reports: seq<SavedReport>, limit: nat) {
    if reports == [] then job == running
    else
      job == running.(
        updatedAt := reports[|reports| - 1].now,
        metadata := running.metadata.(
          progress := Some(reports[|reports| - 1].payload),
          progressHistory := HistoryAfter(running.metadata.progressHistory, reports, limit)))
  }

  ghost predicate Follows(running: Job, presence: Presence, reports: seq<SavedReport>, limit: nat, p: Window) {
    && Keyed(p.sys.t)
    && (running.jobId in p.sys.t.jobs <==> presence.stored)
    && (p.read.Some? <==> presence.read)
    && (presence.stored ==> CopyOf(p.sys.t.jobs[running.jobId], running, reports, limit))
    && (presence.read ==> CopyOf(p.read.value, running, reports, limit))
  }

  lemma EventFollows(p: Window, e: Event, limit: nat, running: Job, before: Presence, reports: seq<SavedReport>)
    requires Follows(running, before, reports, limit, p)
    requires e.OtherSave? ==> e.job.jobId != running.jobId
    ensures var saves := e.ReportSaves? && before.read;
            Follows(running,
                    match e
                    case ReportReads => Presence(before.stored, before.stored)
                    case ReportSaves(_, _) => Presence(before.stored || before.read, false)
                    case Removal(id) => if id == running.jobId then Presence(false, before.read) else before
                    case OtherSave(_) => before,
                    if saves then reports + [SavedReport(e.payload, e.now)] else reports,
                    limit,
                    AfterEvent(p, running.jobId, e, limit))
  {
    hide HistoryAfter, Last;
    match e
    case ReportReads =>
    case ReportSaves(payload, now) =>
      HistoryGrows(running.metadata.progressHistory, reports, SavedReport(payload, now), limit);
      if reports == [] {
        NoReports(running.metadata.progressHistory, limit);
      }
    case Removal(_) =>
    case OtherSave(_) =>
  }

  lemma NoReports(past: seq<string>, limit: nat)
    ensures HistoryAfter(past, [], limit) == past
  {
  }

  /**
   * However the reads and saves of reports, removals and other jobs' saves
   * interleave with a parse, the job that the outcome is saved on is the running job with
   * the reports that saved it: the last is its progress and gives its update time, and its
   * history is the last `limit` entries of the old history followed by all of them.  It is stored
   * iff nobody removed it, or a report that had read it before the removal saved it after.
   */
  lemma {:induction false} EventsKeepJob(sys: System, events: seq<Event>, limit: nat, running: Job)
    requires Keyed(sys.t) && running.jobId in sys.t.jobs && sys.t.jobs[running.jobId] == running
    requires OthersOnly(events, running.jobId)
    ensures Follows(running, PresenceAfter(events, running.jobId), Reports(events, running.jobId), limit,
                    AfterEvents(sys, running.jobId, events, limit))
    ensures SameButProgress(LatestJob(AfterEvents(sys, running.jobId, events, limit).sys.t, running), running)
    decreases |events|
  {
    if events != [] {
      var init, e := events[..|events| - 1], events[|events| - 1];
      assert events == init + [e];
      EventsKeepJob(sys, init, limit, running);
      EventFollows(AfterEvents(sys, running.jobId, init, limit), e, limit, running, PresenceAfter(init, running.jobId),
                   Reports(init, running.jobId));
      assert Reports(init, running.jobId) + [] == Reports(init, running.jobId);
    }
  }

  /** The row of another job after these events. */
  function RowAfter(row: Option<Job>, events: seq<Event>, jobId: string): Option<Job>
    decreases |events|
  {
    if events == [] then row
    else
      match events[|events| - 1]
      case Removal(id) => if id == jobId then None else RowAfter(row, events[..|events| - 1], jobId)
      case OtherSave(job) => if job.jobId == jobId then Some(job) else RowAfter(row, events[..|events| - 1], jobId)
      case _ => RowAfter(row, events[..|events| - 1], jobId)
  }

  function RowOf(t: Repo.Tables, jobId: string): Option<Job> {
    if jobId in t.jobs then Some(t.jobs[jobId]) else None
  }

  /** The row of another job is what the last of its saves and removals left; reports never touch it. */
  lemma {:induction false} OtherRows(sys: System, events: seq<Event>, limit: nat, jobId: string, other: string)
    requires Keyed(sys.t) && other != jobId
    ensures var p := AfterEvents(sys, jobId, events, limit);
            && RowOf(p.sys.t, other) == RowAfter(RowOf(sys.t, other), events, other)
            && Keyed(p.sys.t) && (p.read.Some? ==> p.read.value.jobId == jobId)
    decreases |events|
  {
    if events != [] {
      OtherRows(sys, events[..|events| - 1], limit, jobId, other);
    }
  }

  /** A report by itself is a read followed at once by a save. */
  lemma ReportIsReadAndSave(sys: System, jobId: string, payload: string, limit: nat, now: int)
    ensures AfterEvents(sys, jobId, [ReportReads, ReportSaves(payload, now)], limit)
         == Window(sys.(t := AfterReport(sys.t, jobId, payload, limit, now)), None)
  {
    var events := [ReportReads, ReportSaves(payload, now)];
    assert events[..1] == [ReportReads] && events[..1][..0] == [];
    assert AfterEvents(sys, jobId, events[..1][..0], limit) == Window(sys, None);
    assert AfterEvents(sys, jobId, events[..1], limit) == Window(sys, RowOf(sys.t, jobId));
  }

  /** If no removal comes between the reports, the job is stored iff it was not removed. */
  lemma {:induction false} StoredUnlessRemoved(events: seq<Event>, jobId: string)
    requires Removal(jobId) !in events
    ensures PresenceAfter(events, jobId).stored
    decreases |events|
  {
    if events != [] {
      assert events == events[..|events| - 1] + [events[|events| - 1]];
      StoredUnlessRemoved(events[..|events| - 1], jobId);
    }
  }

  /** A removal between a report's read and its save is undone by the save. */
  lemma ReportUndoesRemoval(jobId: string, payload: string, now: int)
    ensures PresenceAfter([ReportReads, Removal(jobId), ReportSaves(payload, now)], jobId).stored
    ensures !PresenceAfter([Removal(jobId), ReportReads, ReportSaves(payload, now)], jobId).stored
  {
    var late, early := [ReportReads, Removal(jobId), ReportSaves(payload, now)],
                       [Removal(jobId), ReportReads, ReportSaves(payload, now)];
    assert late[..2][..1][..0] == [] && early[..2][..1][..0] == [];
    assert PresenceAfter(late[..2][..1], jobId) == Presence(true, true);
    assert PresenceAfter(early[..2][..1], jobId) == Presence(false, false);
    assert PresenceAfter(late[..2], jobId) == Presence(false, true);
    assert PresenceAfter(early[..2], jobId) == Presence(false, false);
  }

  // ------------------------------------------------------------ one parse run

  /** process_job fails the job before it starts it. */
  predicate FailsFirst(job: Job, opts: Options) {
    opts.failMissingInputFirst && job.inputPath.None?
  }

  predicate ParserFails(job: Job, a: Attempt) {
    Effective(job, a).outcome.Raises?
  }

  /** The saves of a failure, seen from the job row. */
  lemma FailureRow(t: Repo.Tables, job: Job, a: Attempt, ps: ParserSettings)
    requires a.outcome.Raises?
    ensures var (error, errorType) := (a.outcome.error, a.outcome.errorType);
            var (t', retry) := AfterFailure(t, job, error, errorType, a.outcome.isValidation, a.endedAt, ps);
            && retry == (FailureCount(job) < ps.maxRetries)
            && t'.jobs.Keys == t.jobs.Keys + {job.jobId}
            && t'.jobs[job.jobId].jobId == job.jobId
            && t'.jobs[job.jobId].inputPath == job.inputPath
            && t'.jobs[job.jobId].documentId == job.documentId && t'.jobs[job.jobId].startedAt == job.startedAt
            && t'.jobs[job.jobId].status == (if retry then Retrying else JobFailed)
            && t'.jobs[job.jobId].completedAt == (if retry then None else Some(a.endedAt))
            && t'.jobs[job.jobId].metadata.parserRetry
               == Counted(FailureCount(job) + 1, ps.maxRetries, error, errorType,
                          if retry then RetryScheduled else RetriesExhausted)
            && (forall j :: j in t.jobs && j != job.jobId ==> t'.jobs[j] == t.jobs[j])
  {
  }

  /** The saves of a success, seen from the job row. */
  lemma SuccessRow(sys: System, running: Job, a: Attempt, ps: ParserSettings)
    requires Indexed(sys.q) && a.outcome.Returns?
    requires running.jobId in sys.t.jobs ==> sys.t.jobs[running.jobId].jobId == running.jobId
    ensures var (sys', retry) := AfterOutcome(sys, running, a, ps);
            && !retry
            && running.jobId in sys'.t.jobs
            && sys'.t.jobs[running.jobId].status in {Parsed, DispatchQueued, RetryableFailure}
  {
    if ps.dispatch.Some? {
      var parsed := ParsedJob(LatestJob(sys.t, running), a.outcome.documentId, a.outcome.diagnostics, a.endedAt);
      var h := HandoverOf(parsed, a);
      Agreement.ParseJobs(sys.(t := Repo.AfterSave(sys.t, parsed)), h, ps.dispatch.value);
    }
  }

  /** What one run of process_job makes of the job it is called for. */
  ghost predicate RunResult(job: Job, a: Attempt, opts: Options, ps: ParserSettings, t: Repo.Tables, retry: bool) {
    && job.jobId in t.jobs
    && var after := t.jobs[job.jobId];
       if FailsFirst(job, opts) then
         !retry && after.status == JobFailed && after.metadata.parserRetry == job.metadata.parserRetry
       else if ParserFails(job, a) then
         && retry == (FailureCount(job) < ps.maxRetries)
         && FailureCount(after) == FailureCount(job) + 1
         && after.inputPath == job.inputPath
         && after.status == (if retry then Retrying else JobFailed)
         && after.metadata.parserRetry.Counted?
         && (after.metadata.parserRetry.state == RetriesExhausted <==> !retry)
       else
         !retry && after.status in {Parsed, DispatchQueued, RetryableFailure}
  }

  /**
   * A run counts a failure iff the parser fails, and asks for a retry iff it
   * saves RETRYING, whatever reports and removals come in meanwhile; a job that is
   * deleted while it is parsed is stored again.
   */
  lemma ProcessedLaw(sys: System, jobId: string, a: Attempt, opts: Options, ps: ParserSettings)
    requires WellFormed(sys.q) && Keyed(sys.t) && jobId in sys.t.jobs && OthersOnly(a.events, jobId)
    ensures var (sys', retry) := Processed(sys, jobId, a, opts, ps);
            && RunResult(sys.t.jobs[jobId], a, opts, ps, sys'.t, retry)
            && (retry <==> sys'.t.jobs[jobId].status == Retrying)
  {
    var job := sys.t.jobs[jobId];
    if !FailsFirst(job, opts) {
      var running, eff := RunningJob(job, a, opts), Effective(job, a);
      var started := sys.(t := Repo.AfterSave(sys.t, running));
      EventsKeepJob(started, eff.events, ps.historyLimit, running);
      EventsWellFormed(started, jobId, eff.events, ps.historyLimit);
      var during := DuringParse(sys, job, a, opts, ps);
      if eff.outcome.Raises? {
        FailureRow(during.t, LatestJob(during.t, running), eff, ps);
      } else {
        SuccessRow(during, running, eff, ps);
      }
    }
  }

  /** Nothing during a parse makes a run row, and a removal takes it away for good. */
  lemma {:induction false} RemovedRun(sys: System, events: seq<Event>, limit: nat, jobId: string)
    requires Keyed(sys.t) && jobId in sys.t.jobs && OthersOnly(events, jobId)
    ensures jobId in AfterEvents(sys, jobId, events, limit).sys.t.runs
            <==> jobId in sys.t.runs && Removal(jobId) !in events
    decreases |events|
  {
    if events != [] {
      var init, e := events[..|events| - 1], events[|events| - 1];
      assert events == init + [e];
      RemovedRun(sys, init, limit, jobId);
      EventsKeepJob(sys, init, limit, sys.t.jobs[jobId]);
      if e == Removal(jobId) && Removal(jobId) !in init {
        StoredUnlessRemoved(init, jobId);
      }
    }
  }

  lemma OutcomeRuns(sys: System, running: Job, a: Attempt, ps: ParserSettings)
    requires Indexed(sys.q)
    ensures AfterOutcome(sys, running, a, ps).0.t.runs.Keys == sys.t.runs.Keys
  {
    if a.outcome.Returns? && ps.dispatch.Some? {
      var parsed := ParsedJob(LatestJob(sys.t, running), a.outcome.documentId, a.outcome.diagnostics, a.endedAt);
      var saved := sys.(t := Repo.AfterSave(sys.t, parsed));
      HandoverRuns(saved, HandoverOf(parsed, a), ps.dispatch.value);
    }
  }

  lemma HandoverRuns(sys: System, h: Handover, settings: Settings)
    requires Indexed(sys.q)
    ensures AfterParse(sys, h, settings).t.runs.Keys == sys.t.runs.Keys
  {
  }

  /**
   * Whatever the outcome, and whoever removes the job meanwhile, the job is stored
   * when its parse is over; its run row is there iff it was there and the job was
   * not removed while the parser was at work.
   */
  lemma StoredAfterwards(sys: System, jobId: string, a: Attempt, opts: Options, ps: ParserSettings)
    requires WellFormed(sys.q) && Keyed(sys.t) && jobId in sys.t.jobs && OthersOnly(a.events, jobId)
    ensures var t := Processed(sys, jobId, a, opts, ps).0.t;
            && jobId in t.jobs
            && (jobId in t.runs <==>
                  jobId in sys.t.runs && (sys.t.jobs[jobId].inputPath.Some? ==> Removal(jobId) !in a.events))
  {
    ProcessedLaw(sys, jobId, a, opts, ps);
    var job := sys.t.jobs[jobId];
    if !FailsFirst(job, opts) {
      var running, eff := RunningJob(job, a, opts), Effective(job, a);
      var started := sys.(t := Repo.AfterSave(sys.t, running));
      RemovedRun(started, eff.events, ps.historyLimit, jobId);
      EventsWellFormed(started, jobId, eff.events, ps.historyLimit);
      OutcomeRuns(DuringParse(sys, job, a, opts, ps), running, eff, ps);
    }
  }

  /** So a job deleted while it is parsed comes back without its run: no document lists it any more. */
  lemma DeletedJobReturns(sys: System, jobId: string, a: Attempt, opts: Options, ps: ParserSettings)
    requires WellFormed(sys.q) && Keyed(sys.t) && jobId in sys.t.jobs && jobId in sys.t.runs
    requires sys.t.jobs[jobId].inputPath.Some? && a.events == [Removal(jobId)]
    ensures var t := Processed(sys, jobId, a, opts, ps).0.t;
            jobId in t.jobs && jobId !in t.runs
  {
    StoredAfterwards(sys, jobId, a, opts, ps);
  }

  // ------------------------------------------------------------- late reports

  /** The copy of the job that a progress report has read and not saved when the parser returns. */
  function OpenReport(sys: System, jobId: string, a: Attempt, opts: Options, ps: ParserSettings): Option<Job> {
    if jobId !in sys.t.jobs || FailsFirst(sys.t.jobs[jobId], opts) then None
    else
      var job := sys.t.jobs[jobId];
      AfterEvents(sys.(t := Repo.AfterSave(sys.t, RunningJob(job, a, opts))), jobId, Effective(job, a).events,
                  ps.historyLimit).read
  }

  /** A run of process_job and the report it leaves open. */
  function ProcessedOpen(sys: System, jobId: string, a: Attempt, opts: Options, ps: ParserSettings): (Window, bool)
    requires WellFormed(sys.q)
  {
    var (sys', retry) := Processed(sys, jobId, a, opts, ps);
    (Window(sys', OpenReport(sys, jobId, a, opts, ps)), retry)
  }

  lemma OpenReportLaw(sys: System, jobId: string, a: Attempt, opts: Options, ps: ParserSettings)
    requires Keyed(sys.t) && jobId in sys.t.jobs && OthersOnly(a.events, jobId)
    ensures var (job, open) := (sys.t.jobs[jobId], OpenReport(sys, jobId, a, opts, ps));
            && (open.Some? <==> job.inputPath.Some? && PresenceAfter(a.events, jobId).read)
            && (open.Some? ==> SameButProgress(open.value, RunningJob(job, a, opts)))
  {
    var job := sys.t.jobs[jobId];
    var running := RunningJob(job, a, opts);
    EventsKeepJob(sys.(t := Repo.AfterSave(sys.t, running)), Effective(job, a).events, ps.historyLimit, running);
  }

  /**
   * A progress report that saves when the run is over undoes the run iff it had read the
   * job while the parser was at work: status, counter and error are then those of the running job
   * again, whatever the outcome was.
   */
  lemma LateReportExactly(sys: System, jobId: string, a: Attempt, opts: Options, ps: ParserSettings, payload: string,
                          now: int)
    requires WellFormed(sys.q) && Keyed(sys.t) && jobId in sys.t.jobs && OthersOnly(a.events, jobId)
    ensures var (job, before) := (sys.t.jobs[jobId], ProcessedOpen(sys, jobId, a, opts, ps).0);
            var after := AfterEvent(before, jobId, ReportSaves(payload, now), ps.historyLimit);
            if job.inputPath.Some? && PresenceAfter(a.events, jobId).read then
              && jobId in after.sys.t.jobs
              && SameButProgress(after.sys.t.jobs[jobId], RunningJob(job, a, opts))
              && after.sys.t.jobs[jobId].status == Parsing
              && FailureCount(after.sys.t.jobs[jobId]) == FailureCount(job)
            else after == before
  {
    OpenReportLaw(sys, jobId, a, opts, ps);
  }

  // ------------------------------------------------------------- the retry loop

  datatype LateSave = LateSave(payload: string, now: int)

  /** One call of process_job, and what happened since the call before: the save of its late report, if any, first. */
  datatype Turn = Turn(late: Option<LateSave>, gap: seq<Event>, attempt: Attempt)

  predicate OthersTurn(turn: Turn, jobId: string) {
    OthersOnly(turn.gap, jobId) && OthersOnly(turn.attempt.events, jobId)
  }

  ghost predicate Ready(sys: System) {
    WellFormed(sys.q) && Keyed(sys.t)
  }

  function AfterLate(w: Window, jobId: string, late: Option<LateSave>, limit: nat): System {
    if late.None? then w.sys
    else AfterEvent(w, jobId, ReportSaves(late.value.payload, late.value.now), limit).sys
  }

  function AfterTurn(w: Window, jobId: string, turn: Turn, opts: Options, ps: ParserSettings): (Window, bool)
    requires WellFormed(w.sys.q)
  {
    var start := AfterLate(w, jobId, turn.late, ps.historyLimit);
    EventsWellFormed(start, jobId, turn.gap, ps.historyLimit);
    ProcessedOpen(AfterEvents(start, jobId, turn.gap, ps.historyLimit).sys, jobId, turn.attempt, opts, ps)
  }

  lemma {:induction false} EventsKeyed(sys: System, jobId: string, events: seq<Event>, limit: nat)
    requires Keyed(sys.t)
    ensures Keyed(AfterEvents(sys, jobId, events, limit).sys.t)
    decreases |events|
  {
    if events != [] {
      EventsKeyed(sys, jobId, events[..|events| - 1], limit);
    }
  }

  /** A job to be retried keeps its document and, if the entrypoint asks for it, the time it was first started. */
  predicate Continues(before: Job, after: Job, opts: Options) {
    && after.documentId == before.documentId
    && (opts.keepStartedAt && before.startedAt.Some? ==> after.startedAt == before.startedAt)
  }

  /** A retry is asked for only after a failure within the budget, and the counter has moved by one. */
  lemma RetryCounts(sys: System, jobId: string, a: Attempt, opts: Options, ps: ParserSettings)
    requires Ready(sys) && OthersOnly(a.events, jobId)
    requires Processed(sys, jobId, a, opts, ps).1
    ensures var sys' := Processed(sys, jobId, a, opts, ps).0;
            && Ready(sys')
            && jobId in sys.t.jobs && jobId in sys'.t.jobs
            && sys'.t.jobs[jobId].status == Retrying
            && FailureCount(sys'.t.jobs[jobId]) == FailureCount(sys.t.jobs[jobId]) + 1 <= ps.maxRetries
            && Continues(sys.t.jobs[jobId], sys'.t.jobs[jobId], opts)
  {
    ProcessedLaw(sys, jobId, a, opts, ps);
    var job := sys.t.jobs[jobId];
    var running, eff := RunningJob(job, a, opts), Effective(job, a);
    var started := sys.(t := Repo.AfterSave(sys.t, running));
    EventsWellFormed(started, jobId, eff.events, ps.historyLimit);
    EventsKeepJob(started, eff.events, ps.historyLimit, running);
    FailureRow(DuringParse(sys, job, a, opts, ps).t, LatestJob(DuringParse(sys, job, a, opts, ps).t, running), eff, ps);
  }

  /** The report that a run leaves open would take its failure back. */
  ghost predicate OpenBehind(w: Window, jobId: string) {
    && Ready(w.sys) && jobId in w.sys.t.jobs
    && (w.read.Some? ==>
          && w.read.value.jobId == jobId
          && FailureCount(w.read.value) + 1 == FailureCount(w.sys.t.jobs[jobId]))
  }

  /** The run before is undone at the beginning of this turn. */
  predicate Undoes(w: Window, turn: Turn) {
    turn.late.Some? && w.read.Some?
  }

  /** Both the job and the copy a report may still hold go on from `job`. */
  ghost predicate BothContinue(job: Job, w: Window, jobId: string, opts: Options) {
    && jobId in w.sys.t.jobs && Continues(job, w.sys.t.jobs[jobId], opts)
    && (w.read.Some? ==> Continues(job, w.read.value, opts))
  }

  lemma LateCounts(w: Window, jobId: string, turn: Turn, limit: nat, opts: Options, first: Job)
    requires OpenBehind(w, jobId) && BothContinue(first, w, jobId, opts)
    ensures var start := AfterLate(w, jobId, turn.late, limit);
            && Ready(start) && jobId in start.t.jobs && Continues(first, start.t.jobs[jobId], opts)
            && FailureCount(start.t.jobs[jobId])
               == FailureCount(w.sys.t.jobs[jobId]) - if Undoes(w, turn) then 1 else 0
  {
  }

  lemma TurnCounts(w: Window, jobId: string, turn: Turn, opts: Options, ps: ParserSettings, first: Job)
    requires OpenBehind(w, jobId) && BothContinue(first, w, jobId, opts) && OthersTurn(turn, jobId)
    requires AfterTurn(w, jobId, turn, opts, ps).1
    ensures var w' := AfterTurn(w, jobId, turn, opts, ps).0;
            && OpenBehind(w', jobId) && BothContinue(first, w', jobId, opts)
            && w'.sys.t.jobs[jobId].status == Retrying
            && FailureCount(w'.sys.t.jobs[jobId])
               == FailureCount(w.sys.t.jobs[jobId]) + (if Undoes(w, turn) then 0 else 1) <= ps.maxRetries
  {
    var start := AfterLate(w, jobId, turn.late, ps.historyLimit);
    LateCounts(w, jobId, turn, ps.historyLimit, opts, first);
    hide AfterLate, AfterEvent;
    var mid := AfterEvents(start, jobId, turn.gap, ps.historyLimit).sys;
    EventsWellFormed(start, jobId, turn.gap, ps.historyLimit);
    EventsKeyed(start, jobId, turn.gap, ps.historyLimit);
    EventsKeepJob(start, turn.gap, ps.historyLimit, start.t.jobs[jobId]);
    RunCounts(mid, jobId, turn.attempt, opts, ps, first, start.t.jobs[jobId]);
  }

  lemma RunCounts(mid: System, jobId: string, a: Attempt, opts: Options, ps: ParserSettings, first: Job, job: Job)
    requires Ready(mid) && OthersOnly(a.events, jobId) && ProcessedOpen(mid, jobId, a, opts, ps).1
    requires Continues(first, job, opts) && (jobId in mid.t.jobs ==> SameButProgress(mid.t.jobs[jobId], job))
    ensures var w' := ProcessedOpen(mid, jobId, a, opts, ps).0;
            && OpenBehind(w', jobId) && BothContinue(first, w', jobId, opts)
            && w'.sys.t.jobs[jobId].status == Retrying
            && FailureCount(w'.sys.t.jobs[jobId]) == FailureCount(job) + 1 <= ps.maxRetries
  {
    RetryCounts(mid, jobId, a, opts, ps);
    OpenReportLaw(mid, jobId, a, opts, ps);
  }

  /** A resubmission loop: every one of these turns asked for a retry, and no report is open at the start. */
  ghost predicate Retried(windows: seq<Window>, jobId: string, turns: seq<Turn>, opts: Options, ps: ParserSettings) {
    && |windows| == |turns| + 1
    && Ready(windows[0].sys) && windows[0].read.None?
    && (forall i :: 0 <= i < |turns| ==> OthersTurn(turns[i], jobId))
    && (forall i :: 0 <= i < |turns| ==>
          WellFormed(windows[i].sys.q) && AfterTurn(windows[i], jobId, turns[i], opts, ps) == (windows[i + 1], true))
  }

  /** How many of the first n runs a late report has undone. */
  function Undone(windows: seq<Window>, turns: seq<Turn>, n: nat): (undone: nat)
    requires n <= |turns| && |windows| == |turns| + 1
    ensures undone <= n
  {
    if n == 0 then 0 else Undone(windows, turns, n - 1) + if Undoes(windows[n - 1], turns[n - 1]) then 1 else 0
  }

  lemma {:induction false} RetriedCounts(windows: seq<Window>, jobId: string, turns: seq<Turn>, opts: Options,
                                         ps: ParserSettings, n: nat)
    requires Retried(windows, jobId, turns, opts, ps) && n <= |turns|
    requires jobId in windows[0].sys.t.jobs
    ensures OpenBehind(windows[n], jobId)
    ensures FailureCount(windows[n].sys.t.jobs[jobId])
         == FailureCount(windows[0].sys.t.jobs[jobId]) + n - Undone(windows, turns, n)
    ensures BothContinue(windows[0].sys.t.jobs[jobId], windows[n], jobId, opts)
    ensures 0 < n ==>
              && FailureCount(windows[n].sys.t.jobs[jobId]) <= ps.maxRetries
              && windows[n].sys.t.jobs[jobId].status == Retrying
    decreases n
  {
    if n > 0 {
      RetriedCounts(windows, jobId, turns, opts, ps, n - 1);
      assert AfterTurn(windows[n - 1], jobId, turns[n - 1], opts, ps) == (windows[n], true);
      TurnCounts(windows[n - 1], jobId, turns[n - 1], opts, ps, windows[0].sys.t.jobs[jobId]);
    }
  }

  /**
   * The retry protocol as a whole.  Take a job whose counter stands at c and any
   * number n of turns that each asked for a retry, with any progress reports,
   * removals and other jobs' saves in between, and u late reports that undo a run.  Then the
   * counter stands at c + n - u, n - u is within what is left of the budget, the job keeps its
   * document and its first start, and one more run whose parser fails ends the loop iff it is
   * failure number maxRetries + 1 by that count.
   */
  lemma RetryProtocol(windows: seq<Window>, jobId: string, turns: seq<Turn>, opts: Options, ps: ParserSettings,
                      a: Attempt)
    requires Retried(windows, jobId, turns, opts, ps) && jobId in windows[0].sys.t.jobs
    requires OthersOnly(a.events, jobId)
    ensures var c, n, last := FailureCount(windows[0].sys.t.jobs[jobId]), |turns|, windows[|turns|].sys;
            var counted := n - Undone(windows, turns, n);
            && counted <= Max(0, ps.maxRetries - c)
            && Ready(last) && jobId in last.t.jobs
            && FailureCount(last.t.jobs[jobId]) == c + counted
            && Continues(windows[0].sys.t.jobs[jobId], last.t.jobs[jobId], opts)
            && var (sys', retry) := Processed(last, jobId, a, opts, ps);
               && jobId in sys'.t.jobs
               && (retry <==> sys'.t.jobs[jobId].status == Retrying)
               && (ParserFails(last.t.jobs[jobId], a) && !FailsFirst(last.t.jobs[jobId], opts) ==>
                     && FailureCount(sys'.t.jobs[jobId]) == c + counted + 1
                     && (!retry <==> c + counted + 1 > ps.maxRetries)
                     && (!retry <==> sys'.t.jobs[jobId].status == JobFailed))
               && (!ParserFails(last.t.jobs[jobId], a) ==> !retry)
  {
    RetriedCounts(windows, jobId, turns, opts, ps, |turns|);
    ProcessedLaw(windows[|turns|].sys, jobId, a, opts, ps);
  }
}
