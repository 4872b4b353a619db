/**
 * What a parse that returns leaves behind: the parsed job and, with a dispatcher,
 * the item it has in the queue from then on.
 */
module ParseHandover {
  import opened Wrappers
  import opened JobModels
  import opened DispatchQueue
  import opened QueueLaws
  import Repo = JobRepository
  import opened DispatchSteps
  import opened ParseSteps
  import opened ParseRetries
  import Text

  /** How the queue receives a handed over payload. */
  datatype Reception = TooBig | AlreadyThere | NoRoom | Taken

  function ReceptionOf(q: Queue, jobId: string, payload: Payload): Reception {
    if q.limits.maxPayloadBytes.Some? && payload.payloadBytes > q.limits.maxPayloadBytes.value then TooBig
    else if jobId in q.jobIndex then AlreadyThere
    else if |q.fifo| == q.limits.maxSize then NoRoom
    else Taken
  }

  /** The queue after a handover: it changes just when the payload is taken. */
  ghost predicate QueueReceives(q: Queue, h: Handover, q': Queue) {
    if ReceptionOf(q, h.job.jobId, h.payload) == Taken then
      && q'.limits == q.limits && q'.fifo == q.fifo + [h.queueId] && PendingOf(q') == PendingOf(q) + [h.queueId]
      && q'.jobIndex == q.jobIndex[h.job.jobId := h.queueId]
      && h.queueId in q'.items && q'.items == q.items[h.queueId := q'.items[h.queueId]]
      && q'.items[h.queueId].status == Queued && q'.items[h.queueId].attempts == 0
      && q'.items[h.queueId].jobId == h.job.jobId && q'.items[h.queueId].queueId == h.queueId
      && q'.items[h.queueId].lastError == None
      && q'.items[h.queueId].payload.payloadBytes == h.payload.payloadBytes
      && q'.items[h.queueId].payload.recordCount == h.payload.recordCount
      && q'.items[h.queueId].payload.documentId == h.payload.documentId
      && q'.items[h.queueId].payload.requestedSinkMode == h.job.metadata.requestedSinkMode
    else q' == q
  }

  /** The job after a refused handover: it has no document but its own, and the reason in its handoff. */
  ghost predicate JobRefused(h: Handover, reason: string, settings: Settings, job: Job) {
    job == h.job.(
      status := RetryableFailure,
      metadata := h.job.metadata.(handoff := Some(
        Handoff(RetryableFailure, settings.sinkMode, [], 0, Some(reason), None))),
      updatedAt := h.now)
  }

  /** The job after a handover that found or made `item`; publication may have failed. */
  ghost predicate JobHandedOver(h: Handover, item: Item, settings: Settings, job: Job) {
    var raised := h.publish.Some? && h.publish.value.Err?;
    var status := if raised then RetryableFailure else DispatchQueued;
    && job == h.job.(status := status, documentId := Some(item.payload.documentId), metadata := job.metadata,
                     updatedAt := h.now)
    && job.metadata.handoff.Some?
    && job.metadata == h.diagnostics(h.job.metadata).(handoff := job.metadata.handoff)
    && var handoff := job.metadata.handoff.value;
       && handoff.state == status && handoff.queueIds == [item.queueId]
       && handoff.recordCount == item.payload.recordCount && handoff.lastResponse == None
       && handoff.sinkMode == (if item.payload.requestedSinkMode.Some? then item.payload.requestedSinkMode.value
                               else settings.sinkMode)
       && handoff.error == (if raised && h.publish.value.error != "" then Some(h.publish.value.error) else None)
  }

  ghost predicate JobReceived(q: Queue, h: Handover, settings: Settings, q': Queue, job: Job) {
    match ReceptionOf(q, h.job.jobId, h.payload)
    case TooBig =>
      JobRefused(h, "Dispatch queue payload is too large (" + Text.Print(h.payload.payloadBytes) + " bytes > "
                    + Text.Print(q.limits.maxPayloadBytes.value) + " bytes).", settings, job)
    case NoRoom => JobRefused(h, "Dispatch queue is full (" + Text.Print(q.limits.maxSize) + " items).", settings, job)
    case AlreadyThere =>
      && q.jobIndex[h.job.jobId] in q.items
      && JobHandedOver(h, q.items[q.jobIndex[h.job.jobId]], settings, job)
    case Taken => h.queueId in q'.items && JobHandedOver(h, q'.items[h.queueId], settings, job)
  }

  /** The dispatcher saves the job unless it refuses it, and the coordinator saves it again. */
  lemma HandoverSaves(sys: System, h: Handover, settings: Settings)
    requires WellFormed(sys.q)
    ensures var (after, job) := AfterHandover(sys, h, settings);
            var saved := AfterParse(sys, h, settings);
            && saved.q == after.q == AfterEnqueue(sys.q, h.job.jobId, Entrusted(h), h.queueId).0
            && job.jobId == h.job.jobId
            && (if ReceptionOf(sys.q, h.job.jobId, h.payload) in {TooBig, NoRoom} then after.t == sys.t
                else after.t.jobs == saved.t.jobs)
            && saved.t.jobs.Keys == sys.t.jobs.Keys + {h.job.jobId} && saved.t.jobs[h.job.jobId] == job
            && forall j :: j in sys.t.jobs && j != h.job.jobId ==> saved.t.jobs[j] == sys.t.jobs[j]
  {
    assert (AfterEnqueue(sys.q, h.job.jobId, Entrusted(h), h.queueId).1.Err?
            <==> ReceptionOf(sys.q, h.job.jobId, h.payload) in {TooBig, NoRoom});
    hide AfterEnqueue, WellFormed;
  }

  /** What the queue and the job look like after a handover. */
  lemma HandoverJob(sys: System, h: Handover, settings: Settings)
    requires WellFormed(sys.q) && h.queueId !in sys.q.items && h.queueId !in sys.q.fifo
    ensures var (after, job) := AfterHandover(sys, h, settings);
            QueueReceives(sys.q, h, after.q) && JobReceived(sys.q, h, settings, after.q, job)
  {
    EnqueueLaw(sys.q, h.job.jobId, Entrusted(h), h.queueId);
    hide PendingOf, WellFormed, AfterEnqueue;
  }

  /** What a handover does to the queue and to the job's row, which alone of all rows it changes. */
  lemma HandoverLaw(sys: System, h: Handover, settings: Settings)
    requires WellFormed(sys.q) && h.queueId !in sys.q.items && h.queueId !in sys.q.fifo
    ensures var after := AfterParse(sys, h, settings);
            && QueueReceives(sys.q, h, after.q)
            && after.t.jobs.Keys == sys.t.jobs.Keys + {h.job.jobId}
            && after.t.jobs[h.job.jobId].jobId == h.job.jobId
            && JobReceived(sys.q, h, settings, after.q, after.t.jobs[h.job.jobId])
            && forall j :: j in sys.t.jobs && j != h.job.jobId ==> after.t.jobs[j] == sys.t.jobs[j]
  {
    HandoverSaves(sys, h, settings);
    HandoverJob(sys, h, settings);
  }

  // -------------------------------------------------------------- whole parses

  /** The parser is called, and it returns. */
  predicate RunSucceeds(job: Job, a: Attempt) {
    job.inputPath.Some? && a.outcome.Returns?
  }

  /** While a job is parsed nothing is enqueued; only removals take items and index entries away. */
  lemma {:induction false} QueueDuring(sys: System, jobId: string, events: seq<Event>, limit: nat)
    ensures var q := AfterEvents(sys, jobId, events, limit).sys.q;
            && q.fifo == sys.q.fifo && q.limits == sys.q.limits
            && q.items.Keys <= sys.q.items.Keys && q.jobIndex.Keys <= sys.q.jobIndex.Keys
            && ((forall e :: e in events ==> !e.Removal?) ==> q == sys.q)
    decreases |events|
  {
    if events != [] {
      assert events[|events| - 1] in events;
      QueueDuring(sys, jobId, events[..|events| - 1], limit);
    }
  }

  /** The metadata of the running job, with whatever its reports have made of the progress. */
  predicate RunningMetadata(job: Job, a: Attempt, metadata: Metadata) {
    metadata == job.metadata.(extra := job.metadata.extra["parser_runtime" := a.runtime],
                              progress := metadata.progress, progressHistory := metadata.progressHistory)
  }

  /** The parsed job, as it is saved and handed over. */
  predicate IsParsed(job: Job, a: Attempt, opts: Options, metadata: Metadata, parsed: Job)
    requires a.outcome.Returns?
  {
    && RunningMetadata(job, a, metadata)
    && parsed == job.(
         status := Parsed,
         documentId := Some(a.outcome.documentId),
         metadata := a.outcome.diagnostics(metadata),
         startedAt := if opts.keepStartedAt && job.startedAt.Some? then job.startedAt else Some(a.now),
         updatedAt := a.endedAt)
  }

  /**
   * What the outcome is saved on: the running job with the reports that reached it, or the bare
   * running job if it is not stored any more.
   */
  lemma LatestIsRunning(sys: System, jobId: string, a: Attempt, opts: Options, ps: ParserSettings)
    requires WellFormed(sys.q) && Keyed(sys.t) && jobId in sys.t.jobs && OthersOnly(a.events, jobId)
    ensures var (job, during) := (sys.t.jobs[jobId], DuringParse(sys, sys.t.jobs[jobId], a, opts, ps));
            var latest := LatestJob(during.t, RunningJob(job, a, opts));
            var events := if job.inputPath.Some? then a.events else [];
            var running := job.(
              status := Parsing, updatedAt := a.now,
              startedAt := if opts.keepStartedAt && job.startedAt.Some? then job.startedAt else Some(a.now),
              metadata := job.metadata.(extra := job.metadata.extra["parser_runtime" := a.runtime]));
            && WellFormed(during.q)
            && (if PresenceAfter(events, jobId).stored
                then CopyOf(latest, running, Reports(events, jobId), ps.historyLimit) else latest == running)
            && RunningMetadata(job, a, latest.metadata)
            && latest == running.(metadata := latest.metadata, updatedAt := latest.updatedAt)
  {
    var job := sys.t.jobs[jobId];
    var running, eff := RunningJob(job, a, opts), Effective(job, a);
    var started := sys.(t := Repo.AfterSave(sys.t, running));
    EventsKeepJob(started, eff.events, ps.historyLimit, running);
    EventsWellFormed(started, jobId, eff.events, ps.historyLimit);
    hide AfterEvents, Follows, PresenceAfter, HistoryAfter;
  }

  /** The run up to the save of the parsed job. */
  lemma ParsedSave(sys: System, jobId: string, a: Attempt, opts: Options, ps: ParserSettings)
    returns (metadata: Metadata, parsed: Job)
    requires WellFormed(sys.q) && Keyed(sys.t) && jobId in sys.t.jobs && OthersOnly(a.events, jobId)
    requires RunSucceeds(sys.t.jobs[jobId], a)
    ensures IsParsed(sys.t.jobs[jobId], a, opts, metadata, parsed) && parsed.jobId == jobId
    ensures var during := DuringParse(sys, sys.t.jobs[jobId], a, opts, ps);
            var saved := during.(t := Repo.AfterSave(during.t, parsed));
            && WellFormed(during.q) && during.q.items.Keys <= sys.q.items.Keys && during.q.fifo == sys.q.fifo
            && Processed(sys, jobId, a, opts, ps)
               == (if ps.dispatch.None? then saved else AfterParse(saved, HandoverOf(parsed, a), ps.dispatch.value),
                   false)
  {
    var job := sys.t.jobs[jobId];
    var running := RunningJob(job, a, opts);
    LatestIsRunning(sys, jobId, a, opts, ps);
    QueueDuring(sys.(t := Repo.AfterSave(sys.t, running)), jobId, a.events, ps.historyLimit);
    hide AfterEvents, AfterParse;
    var latest := LatestJob(DuringParse(sys, job, a, opts, ps).t, running);
    metadata, parsed := latest.metadata, ParsedJob(latest, a.outcome.documentId, a.outcome.diagnostics, a.endedAt);
  }

  /**
   * A parse that returns asks for no retry.  The parsed job has the document returned, and it
   * is saved as it is if there is no dispatcher; otherwise it is handed over, with the outcomes
   * of HandoverLaw, to the queue as the removals during the parse have left it.
   */
  lemma ParsedLaw(sys: System, jobId: string, a: Attempt, opts: Options, ps: ParserSettings)
    returns (metadata: Metadata, parsed: Job)
    requires WellFormed(sys.q) && Keyed(sys.t) && jobId in sys.t.jobs && OthersOnly(a.events, jobId)
    requires RunSucceeds(sys.t.jobs[jobId], a)
    requires a.outcome.queueId !in sys.q.items && a.outcome.queueId !in sys.q.fifo
    ensures IsParsed(sys.t.jobs[jobId], a, opts, metadata, parsed)
    ensures var during := DuringParse(sys, sys.t.jobs[jobId], a, opts, ps);
            var (sys', retry) := Processed(sys, jobId, a, opts, ps);
            && !retry && sys'.t.jobs.Keys == during.t.jobs.Keys + {jobId}
            && (forall j :: j in during.t.jobs && j != jobId ==> sys'.t.jobs[j] == during.t.jobs[j])
            && match ps.dispatch
               case None => sys'.q == during.q && sys'.t.jobs[jobId] == parsed
               case Some(settings) =>
                 var h := Handover(parsed, a.outcome.payload.(documentId := a.outcome.documentId), a.outcome.queueId,
                                   a.outcome.diagnostics, a.outcome.publish, a.endedAt);
                 && QueueReceives(during.q, h, sys'.q)
                 && JobReceived(during.q, h, settings, sys'.q, sys'.t.jobs[jobId])
  {
    metadata, parsed := ParsedSave(sys, jobId, a, opts, ps);
    var during := DuringParse(sys, sys.t.jobs[jobId], a, opts, ps);
    hide DuringParse, Processed, AfterParse, IsParsed, WellFormed;
    if ps.dispatch.Some? {
      HandoverLaw(during.(t := Repo.AfterSave(during.t, parsed)), HandoverOf(parsed, a), ps.dispatch.value);
    }
  }

  /**
   * The usual case in plain terms: a job that has no item is parsed, its payload fits and
   * the queue has room.  Then it has an untried QUEUED item with that payload at the end of the
   * queue, and is DISPATCH_QUEUED, or RETRYABLE_FAILURE iff the publication raised.
   */
  lemma ParsedIsQueued(sys: System, jobId: string, a: Attempt, opts: Options, ps: ParserSettings)
    requires WellFormed(sys.q) && Keyed(sys.t) && jobId in sys.t.jobs && OthersOnly(a.events, jobId)
    requires RunSucceeds(sys.t.jobs[jobId], a)
    requires a.outcome.queueId !in sys.q.items && a.outcome.queueId !in sys.q.fifo
    requires ps.dispatch.Some? && jobId !in sys.q.jobIndex
    ensures var (sys', _) := Processed(sys, jobId, a, opts, ps);
            var (id, payload, job) := (a.outcome.queueId, a.outcome.payload, sys'.t.jobs[jobId]);
            var fits := sys.q.limits.maxPayloadBytes.Some? ==>
                          payload.payloadBytes <= sys.q.limits.maxPayloadBytes.value;
            var raised := a.outcome.publish.Some? && a.outcome.publish.value.Err?;
            && job.documentId == Some(a.outcome.documentId)
            && if fits && |sys.q.fifo| < sys.q.limits.maxSize then
                 && sys'.q.fifo == sys.q.fifo + [id] && jobId in sys'.q.jobIndex && sys'.q.jobIndex[jobId] == id
                 && id in sys'.q.items && sys'.q.items[id].status == Queued && sys'.q.items[id].attempts == 0
                 && sys'.q.items[id].payload
                    == payload.(documentId := a.outcome.documentId,
                                requestedSinkMode := sys'.q.items[id].payload.requestedSinkMode)
                 && job.status == (if raised then RetryableFailure else DispatchQueued)
               else
                 && sys'.q.fifo == sys.q.fifo && jobId !in sys'.q.jobIndex && id !in sys'.q.items
                 && job.status == RetryableFailure
  {
    var metadata, parsed := ParsedLaw(sys, jobId, a, opts, ps);
    var job := sys.t.jobs[jobId];
    QueueDuring(sys.(t := Repo.AfterSave(sys.t, RunningJob(job, a, opts))), jobId, a.events, ps.historyLimit);
    hide Processed, DuringParse, WellFormed, PendingOf;
  }

  // ------------------------------------------------------------ failing parses

  /** The job after a run that failed: counted, and to be retried or not. */
  ghost predicate IsFailed(job: Job, a: Attempt, opts: Options, ps: ParserSettings, metadata: Metadata, failed: Job) {
    var (error, errorType, isValidation) :=
      if job.inputPath.None? then ("Queued job has no input path.", "FileNotFoundError", false)
      else if a.outcome.Raises? then (a.outcome.error, a.outcome.errorType, a.outcome.isValidation)
      else ("", "", false);
    var count := if job.metadata.parserRetry.Counted? then job.metadata.parserRetry.failureCount else 0;
    var retried := count < ps.maxRetries;
    && RunningMetadata(job, a, metadata)
    && failed == job.(
         status := if retried then Retrying else JobFailed,
         error := Some(error),
         startedAt := if opts.keepStartedAt && job.startedAt.Some? then job.startedAt else Some(a.now),
         updatedAt := a.endedAt,
         completedAt := if retried then None else Some(a.endedAt),
         metadata := metadata.(
           errorType := Some(errorType),
           extra := if ps.markValidationErrors && isValidation then metadata.extra["validation_error" := "true"]
                    else metadata.extra,
           parserRetry := Counted(count + 1, ps.maxRetries, error, errorType,
                                  if retried then RetryScheduled else RetriesExhausted)))
  }

  /** The save of a failure. */
  lemma FailureSaves(t: Repo.Tables, latest: Job, a: Attempt, ps: ParserSettings)
    requires a.outcome.Raises?
    ensures var (error, errorType) := (a.outcome.error, a.outcome.errorType);
            var (t', retry) := AfterFailure(t, latest, error, errorType, a.outcome.isValidation, a.endedAt, ps);
            && retry == (FailureCount(latest) < ps.maxRetries)
            && t'.jobs == t.jobs[latest.jobId := t'.jobs[latest.jobId]]
            && t'.jobs[latest.jobId] == latest.(
                 status := if retry then Retrying else JobFailed, error := Some(error), updatedAt := a.endedAt,
                 completedAt := if retry then None else Some(a.endedAt),
                 metadata := latest.metadata.(
                   errorType := Some(errorType),
                   extra := if ps.markValidationErrors && a.outcome.isValidation
                            then latest.metadata.extra["validation_error" := "true"] else latest.metadata.extra,
                   parserRetry := Counted(FailureCount(latest) + 1, ps.maxRetries, error, errorType,
                                          if retry then RetryScheduled else RetriesExhausted)))
  {
  }

  /**
   * A run whose parser fails, field by field: the job is RETRYING or FAILED with the error and one
   * more failure, the queue is as the removals have left it, and no other job changes after the parser's return.
   */
  lemma FailedRunLaw(sys: System, jobId: string, a: Attempt, opts: Options, ps: ParserSettings)
    returns (metadata: Metadata)
    requires WellFormed(sys.q) && Keyed(sys.t) && jobId in sys.t.jobs && OthersOnly(a.events, jobId)
    requires ParserFails(sys.t.jobs[jobId], a) && !FailsFirst(sys.t.jobs[jobId], opts)
    ensures var (job, during) := (sys.t.jobs[jobId], DuringParse(sys, sys.t.jobs[jobId], a, opts, ps));
            var (sys', retry) := Processed(sys, jobId, a, opts, ps);
            && sys'.q == during.q && sys'.t.jobs.Keys == during.t.jobs.Keys + {jobId}
            && (forall j :: j in during.t.jobs && j != jobId ==> sys'.t.jobs[j] == during.t.jobs[j])
            && (retry <==> sys'.t.jobs[jobId].status == Retrying)
            && IsFailed(job, a, opts, ps, metadata, sys'.t.jobs[jobId])
  {
    var job := sys.t.jobs[jobId];
    LatestIsRunning(sys, jobId, a, opts, ps);
    var during := DuringParse(sys, job, a, opts, ps);
    var latest := LatestJob(during.t, RunningJob(job, a, opts));
    FailureSaves(during.t, latest, Effective(job, a), ps);
    metadata := latest.metadata;
    hide AfterFailure, DuringParse, RunningJob, LatestJob;
  }

  /** A job without input path fails at once where the entrypoint asks for it, and is not counted. */
  lemma FailsFirstLaw(sys: System, jobId: string, a: Attempt, opts: Options, ps: ParserSettings)
    requires WellFormed(sys.q) && Keyed(sys.t)
    requires jobId in sys.t.jobs ==> FailsFirst(sys.t.jobs[jobId], opts)
    ensures var (sys', retry) := Processed(sys, jobId, a, opts, ps);
            && !retry && sys'.q == sys.q
            && if jobId !in sys.t.jobs then sys' == sys
               else
                 var job := sys.t.jobs[jobId];
                 && sys'.t.jobs == sys.t.jobs[jobId := sys'.t.jobs[jobId]]
                 && sys'.t.jobs[jobId] == job.(
                      status := JobFailed, error := Some("Queued job has no input path."),
                      metadata := job.metadata.(errorType := Some("RuntimeError")),
                      updatedAt := a.now, completedAt := Some(a.now))
  {
  }
}
