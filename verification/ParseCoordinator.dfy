/** The coordinator and its progress reporter in their own form: they save successive job states in place. */
module ParseCoordinator {
  import opened Wrappers
  import opened JobModels
  import opened DispatchQueue
  import opened QueueLaws
  import opened JobRepository
  import opened DispatchSteps
  import Dispatcher = DispatchService
  import opened ParseSteps

  class JobProgressReporter {
    const repo: SqliteIngestionJobRepository
    const historyLimit: nat

    constructor (repo: SqliteIngestionJobRepository, historyLimit: nat)
      ensures this.repo == repo && this.historyLimit == historyLimit
    {
      this.repo, this.historyLimit := repo, historyLimit;
    }

    /** The get of a report; removals and other saves may come before its save. */
    method ReadJob(jobId: string) returns (job: Option<Job>)
      ensures job == if jobId in repo.jobs then Some(repo.jobs[jobId]) else None
    {
      job := repo.Get(jobId);
    }

    method SaveReport(job: Job, payload: string, now: int)
      modifies repo
      ensures repo.View() == AfterSave(old(repo.View()), Reported(job, payload, historyLimit, now))
      ensures job.jobId in repo.jobs
      ensures var after := repo.jobs[job.jobId];
              && after.metadata.progress == Some(payload)
              && after.metadata.progressHistory == Last(job.metadata.progressHistory + [payload], historyLimit)
              && (0 < historyLimit ==> |after.metadata.progressHistory| <= historyLimit)
              && after.status == job.status && after.metadata.parserRetry == job.metadata.parserRetry
    {
      var history := job.metadata.progressHistory + [payload];
      var metadata := job.metadata.(progress := Some(payload), progressHistory := Last(history, historyLimit));
      repo.Save(job.(metadata := metadata, updatedAt := now));
    }

    /** A report that nothing comes between. */
    method Report(jobId: string, payload: string, now: int)
      modifies repo
      ensures repo.View() == AfterReport(old(repo.View()), jobId, payload, historyLimit, now)
    {
      var job := ReadJob(jobId);
      if job.None? {
        return;
      }
      SaveReport(job.value, payload, now);
    }
  }

  class JobParseCoordinator {
    const settings: ParserSettings
    const repo: SqliteIngestionJobRepository
    const queue: ParsedDocumentDispatchQueueService
    const dispatch: Dispatcher.ParsedDocumentDispatchService?
    const reporter: JobProgressReporter

    function View(): System
      reads queue, repo
    {
      System(queue.View(), repo.View())
    }

    ghost predicate Wired() {
      && reporter.repo == repo && reporter.historyLimit == settings.historyLimit
      && (dispatch == null ==> settings.dispatch.None?)
      && (dispatch != null ==>
            dispatch.repo == repo && dispatch.queue == queue && settings.dispatch == Some(dispatch.settings))
    }

    constructor (settings: ParserSettings, repo: SqliteIngestionJobRepository,
                 queue: ParsedDocumentDispatchQueueService, dispatch: Dispatcher.ParsedDocumentDispatchService?)
      requires dispatch == null ==> settings.dispatch.None?
      requires dispatch != null ==>
                 dispatch.repo == repo && dispatch.queue == queue && settings.dispatch == Some(dispatch.settings)
      ensures Wired() && this.settings == settings && this.repo == repo && this.queue == queue
    {
      this.settings, this.repo, this.queue, this.dispatch := settings, repo, queue, dispatch;
      reporter := new JobProgressReporter(repo, settings.historyLimit);
    }

    /**
     * The job is over: FAILED with the error and its completion time, in its job
     * row and its run row alike.  The failure counter moves only with a `note`;
     * what the job has produced so far and every other job stay as they were.
     */
    method FailJob(job: Job, error: string, errorType: string, isValidation: bool, note: Option<RetryNote>, now: int)
      modifies repo
      ensures repo.View() == AfterSave(old(repo.View()),
                                       FailedJob(job, error, errorType, isValidation, note, now, settings))
      ensures job.jobId in repo.jobs
      ensures var after := repo.jobs[job.jobId];
              && after.status == JobFailed && after.error == Some(error) && after.completedAt == Some(now)
              && after.metadata.errorType == Some(errorType)
              && (note.None? ==> FailureCount(after) == FailureCount(job))
              && (note.Some? ==> after.metadata.parserRetry == note.value)
              && after.startedAt == job.startedAt && after.documentId == job.documentId
              && after.outputs == job.outputs && after.inputPath == job.inputPath
              && after.metadata.handoff == job.metadata.handoff
              && after.metadata.progressHistory == job.metadata.progressHistory
      ensures job.jobId in old(repo.runs) ==>
                && job.jobId in repo.runs
                && repo.runs[job.jobId].attempt == old(repo.runs)[job.jobId].attempt
                && repo.runs[job.jobId].snapshot.status == JobFailed
                && Copies(repo.runs[job.jobId].snapshot, repo.jobs[job.jobId])
      ensures repo.jobs.Keys == old(repo.jobs).Keys + {job.jobId} && repo.runs.Keys == old(repo.runs).Keys
      ensures forall j :: j in old(repo.jobs) && j != job.jobId ==> repo.jobs[j] == old(repo.jobs)[j]
    {
      var metadata := job.metadata.(errorType := Some(errorType));
      if settings.markValidationErrors && isValidation {
        metadata := metadata.(extra := metadata.extra["validation_error" := "true"]);
      }
      if note.Some? {
        metadata := metadata.(parserRetry := note.value);
      }
      repo.Save(job.(status := JobFailed, error := Some(error), metadata := metadata,
                     updatedAt := now, completedAt := Some(now)));
    }

    method RetryOrFailJob(job: Job, error: string, errorType: string, isValidation: bool, now: int)
      returns (retry: bool)
      modifies repo
      ensures (repo.View(), retry) == AfterFailure(old(repo.View()), job, error, errorType, isValidation, now, settings)
    {
      var previous := 0;
      if job.metadata.parserRetry.Counted? {
        previous := job.metadata.parserRetry.failureCount;
      }
      var count := previous + 1;
      if count > settings.maxRetries {
        FailJob(job, error, errorType, isValidation,
                Some(Counted(count, settings.maxRetries, error, errorType, RetriesExhausted)), now);
        return false;
      }
      var metadata := WithError(job.metadata, errorType, isValidation, settings)
                      .(parserRetry := Counted(count, settings.maxRetries, error, errorType, RetryScheduled));
      repo.Save(job.(status := Retrying, error := Some(error), metadata := metadata, updatedAt := now,
                     completedAt := None));
      retry := true;
    }

    /** What another thread, or a report, does to the tables while the parser is busy. */
    method Meanwhile(jobId: string, event: Event, read: Option<Job>) returns (next: Option<Job>)
      requires Wired()
      modifies repo, queue
      ensures Window(View(), next) == AfterEvent(Window(old(View()), read), jobId, event, settings.historyLimit)
    {
      next := read;
      match event
      case ReportReads => next := reporter.ReadJob(jobId);
      case ReportSaves(payload, now) =>
        if read.Some? {
          reporter.SaveReport(read.value, payload, now);
          next := None;
        }
      case Removal(id) =>
        var job := repo.Get(id);
        if job.Some? {
          var _ := queue.RemoveByJobId(id);
          var _ := repo.Delete(id);
        }
      case OtherSave(job) => repo.Save(job);
    }

    /** The call into the parser: its reports, and what else goes on until it returns or raises. */
    method ParseFile(jobId: string, events: seq<Event>)
      requires Wired()
      modifies repo, queue
      ensures View() == AfterEvents(old(View()), jobId, events, settings.historyLimit).sys
    {
      var read: Option<Job> := None;
      for i := 0 to |events|
        invariant Window(View(), read) == AfterEvents(old(View()), jobId, events[..i], settings.historyLimit)
      {
        assert events[..i + 1][..i] == events[..i];
        read := Meanwhile(jobId, events[i], read);
      }
      assert events[..|events|] == events;
    }

    method ProcessJob(jobId: string, a: Attempt, opts: Options) returns (retry: bool)
      requires Wired() && WellFormed(queue.View())
      requires a.outcome.Returns? ==> a.outcome.queueId !in queue.items
      modifies repo, queue
      ensures (View(), retry) == Processed(old(View()), jobId, a, opts, settings)
    {
      var found := repo.Get(jobId);
      if found.None? {
        return false;
      }
      var job := found.value;
      if opts.failMissingInputFirst && job.inputPath.None? {
        FailJob(job, NO_INPUT, "RuntimeError", false, None, a.now);
        return false;
      }
      var running := RunningJob(job, a, opts);
      repo.Save(running);
      ghost var started := View();
      EventsWellFormed(started, job.jobId, Effective(job, a).events, settings.historyLimit);
      if running.inputPath.None? {
        assert AfterEvents(started, job.jobId, [], settings.historyLimit) == Window(started, None);
        retry := Conclude(running, Effective(job, a));
        return;
      }
      EventsItems(started, job.jobId, a.events, settings.historyLimit);
      ParseFile(job.jobId, a.events);
      retry := Conclude(running, a);
    }

    /** The except and the success branch, on the latest stored state of the job. */
    method Conclude(running: Job, a: Attempt) returns (retry: bool)
      requires Wired() && Indexed(queue.View())
      requires a.outcome.Returns? ==> a.outcome.queueId !in queue.items
      modifies repo, queue
      ensures (View(), retry) == AfterOutcome(old(View()), running, a, settings)
    {
      var stored := repo.Get(running.jobId);
      var latest := stored.GetOr(running);
      match a.outcome
      case Raises(error, errorType, isValidation) =>
        retry := RetryOrFailJob(latest, error, errorType, isValidation, a.endedAt);
      case Returns(documentId, diagnostics, _, _, _) =>
        var parsed := ParsedJob(latest, documentId, diagnostics, a.endedAt);
        repo.Save(parsed);
        if dispatch != null {
          var completed := dispatch.EnqueueParseResult(HandoverOf(parsed, a));
          repo.Save(completed);
        }
        retry := false;
    }
  }

  /** Nothing that happens during a parse adds a queue item. */
  lemma {:induction false} EventsItems(sys: System, jobId: string, events: seq<Event>, limit: nat)
    ensures AfterEvents(sys, jobId, events, limit).sys.q.items.Keys <= sys.q.items.Keys
    decreases |events|
  {
    if events != [] {
      EventsItems(sys, jobId, events[..|events| - 1], limit);
    }
  }
}
