/**
 * The dispatcher's steps on values: it takes batches from the queue, hands them to the local
 * writer and the Elasticsearch sink, and keeps the job table in step.
 *
 * Writer, bulk helper and clock are an arbitrary environment, indexed by the
 * number of the batch.
 */
module DispatchSteps {
  import opened Wrappers
  import opened Sequences
  import opened JobModels
  import opened DispatchQueue
  import opened QueueLaws
  import Repo = JobRepository
  import Text
  import opened ElasticSink

  datatype Settings = Settings(maxBulkSize: nat, maxRetries: nat, sinkMode: SinkMode)

  /** An Err of the writer is the exception it raised. */
  datatype Env = Env(
    write: (nat, string) -> Result<Outputs, string>,
    bulk: nat -> BulkOutcome,
    now: nat -> int)

  datatype System = System(q: Queue, t: Repo.Tables)

  /** How a batch ended; Stuck is the mark_batch_failed that never returns (DispatchQueue.AfterFailed). */
  datatype Verdict = NoBatch | Delivered | PutBack | GivenUp | Stuck

  datatype Report = Report(accepted: nat, verdict: Verdict)

  // --------------------------------------------------------------- sink modes

  function ModeOfItem(item: Item, settings: Settings): SinkMode {
    item.payload.requestedSinkMode.GetOr(settings.sinkMode)
  }

  predicate StoresLocal(item: Item, settings: Settings) {
    ModeOfItem(item, settings) != ElasticSink
  }

  predicate GoesElastic(item: Item, settings: Settings) {
    ModeOfItem(item, settings) != LocalSink
  }

  function LocalItems(batch: seq<Item>, settings: Settings): seq<Item> {
    if batch == [] then []
    else (if StoresLocal(batch[0], settings) then [batch[0]] else []) + LocalItems(batch[1..], settings)
  }

  function ElasticItems(batch: seq<Item>, settings: Settings): seq<Item> {
    if batch == [] then []
    else (if GoesElastic(batch[0], settings) then [batch[0]] else []) + ElasticItems(batch[1..], settings)
  }

  function LocalOnlyCount(batch: seq<Item>, settings: Settings): nat {
    if batch == [] then 0
    else (if StoresLocal(batch[0], settings) && !GoesElastic(batch[0], settings) then 1 else 0)
         + LocalOnlyCount(batch[1..], settings)
  }

  // --------------------------------------------------------------- job states

  /** What a save of an item's state may carry besides the status. */
  datatype Note = Note(error: Option<string>, response: Option<SinkResponse>, outputs: Option<Outputs>)

  const NO_NOTE := Note(None, None, None)

  function NonEmpty(s: Option<string>): Option<string> {
    if s == Some("") then None else s
  }

  function JobWithState(job: Job, item: Item, status: JobStatus, note: Note, settings: Settings, now: int): Job {
    job.(status := status,
         outputs := if note.outputs.Some? then note.outputs else job.outputs,
         metadata := job.metadata.(handoff := Some(Handoff(
           status, ModeOfItem(item, settings), [item.queueId], item.payload.recordCount,
           NonEmpty(OrElse(note.error, item.lastError)), note.response))),
         error := if status == JobFailed then note.error else job.error,
         updatedAt := now,
         completedAt := if status == JobCompleted then Some(now) else job.completedAt)
  }

  /** _save_item_state: nothing happens when the job has been deleted. */
  function AfterItemState(t: Repo.Tables, item: Item, status: JobStatus, note: Note, settings: Settings,
                          now: int): Repo.Tables
  {
    if item.jobId in t.jobs
    then Repo.AfterSave(t, JobWithState(t.jobs[item.jobId], item, status, note, settings, now))
    else t
  }

  function AllStates(t: Repo.Tables, items: seq<Item>, status: JobStatus, note: Note, settings: Settings,
                     now: int): Repo.Tables
    decreases |items|
  {
    if items == [] then t
    else AllStates(AfterItemState(t, items[0], status, note, settings, now), items[1..], status, note, settings, now)
  }

  // ----------------------------------------------------------------- dispatch

  /** _store_local stops at the first item whose write raises. */
  function Stored(t: Repo.Tables, items: seq<Item>, env: Env, n: nat, settings: Settings)
    : (Repo.Tables, map<string, Outputs>, Option<string>)
    decreases |items|
  {
    if items == [] then (t, map[], None)
    else
      match env.write(n, items[0].queueId)
      case Err(e) => (t, map[], Some(e))
      case Ok(out) =>
        var t1 := AfterItemState(t, items[0], StoredLocal, NO_NOTE.(outputs := Some(out)), settings, env.now(n));
        var (t2, outputs, error) := Stored(t1, items[1..], env, n, settings);
        (t2, map[items[0].queueId := out] + outputs, error)
  }

  function CompletionNote(item: Item, outputs: map<string, Outputs>, elasticIds: set<string>,
                          result: Option<SinkResult>): Note
  {
    var out := if item.queueId in outputs then Some(outputs[item.queueId]) else None;
    Note(None,
         Some(SinkResponse(
           out, if result.Some? && item.queueId in elasticIds then Some(result.value.rawResponse) else None)),
         out)
  }

  function AllCompleted(t: Repo.Tables, items: seq<Item>, outputs: map<string, Outputs>, elasticIds: set<string>,
                        result: Option<SinkResult>, settings: Settings, now: int): Repo.Tables
    decreases |items|
  {
    if items == [] then t
    else
      var note := CompletionNote(items[0], outputs, elasticIds, result);
      AllCompleted(AfterItemState(t, items[0], JobCompleted, note, settings, now),
                   items[1..], outputs, elasticIds, result, settings, now)
  }

  function MissingIds(t: Repo.Tables, batch: seq<Item>): set<string> {
    set i | 0 <= i < |batch| && batch[i].jobId !in t.jobs :: batch[i].queueId
  }

  /** The outcome of the sinks for the known items of a batch; Err is the exception that reached the handler. */
  function Submitted(writeError: Option<string>, elastic: seq<Item>, bulk: BulkOutcome)
    : Result<Option<SinkResult>, string>
  {
    if writeError.Some? then Err(writeError.value)
    else if elastic == [] then Ok(None)
    else match SubmitBatch(elastic, bulk)
      case Err(e) => Err(e)
      case Ok(result) => Ok(Some(result))
  }

  function AfterBatchFailure(sys: System, known: seq<Item>, error: string, settings: Settings, now: int)
    : (System, Report)
  {
    var retry := ShouldRetry(known, settings.maxRetries);
    var (q, updated) := AfterFailed(sys.q, known, error, retry);
    if updated.None? then (sys.(q := q), Report(0, Stuck))
    else
      var status := if retry then DispatchQueued else JobFailed;
      (System(q, AllStates(sys.t, updated.value, status, NO_NOTE.(error := Some(error)), settings, now)),
       Report(0, if retry then PutBack else GivenUp))
  }

  function AfterBatchSuccess(sys: System, known: seq<Item>, outputs: map<string, Outputs>, elastic: seq<Item>,
                             result: Option<SinkResult>, settings: Settings, now: int): (System, Report) {
    (System(AfterCompleted(sys.q, known),
            AllCompleted(sys.t, known, outputs, Elements(Ids(elastic)), result, settings, now)),
     Report((if result.Some? then result.value.acceptedDocuments else 0) + LocalOnlyCount(known, settings), Delivered))
  }

  /** The items of a batch whose job still exists. */
  function KnownItems(t: Repo.Tables, batch: seq<Item>): seq<Item> {
    Select(batch, MissingIds(t, batch), false)
  }

  function DeletedItems(t: Repo.Tables, batch: seq<Item>): seq<Item> {
    Select(batch, MissingIds(t, batch), true)
  }

  /** The local stage: every job DISPATCHING, then the local writes in order. */
  function LocalStage(t: Repo.Tables, known: seq<Item>, env: Env, n: nat, settings: Settings)
    : (Repo.Tables, map<string, Outputs>, Option<string>)
  {
    Stored(AllStates(t, known, DispatchingJob, NO_NOTE, settings, env.now(n)), LocalItems(known, settings), env, n,
           settings)
  }

  function Outcome(t: Repo.Tables, known: seq<Item>, env: Env, n: nat, settings: Settings)
    : Result<Option<SinkResult>, string>
  {
    Submitted(LocalStage(t, known, env, n, settings).2, ElasticItems(known, settings), env.bulk(n))
  }

  function Dispatch(sys: System, batch: seq<Item>, env: Env, n: nat, settings: Settings): (System, Report) {
    var known := KnownItems(sys.t, batch);
    var q := AfterCompleted(sys.q, DeletedItems(sys.t, batch));
    if known == [] then (System(q, sys.t), Report(0, Delivered))
    else
      var (t, outputs, _) := LocalStage(sys.t, known, env, n, settings);
      match Outcome(sys.t, known, env, n, settings)
      case Err(e) => AfterBatchFailure(System(q, t), known, e, settings, env.now(n))
      case Ok(result) =>
        AfterBatchSuccess(System(q, t), known, outputs, ElasticItems(known, settings), result, settings, env.now(n))
  }

  function RunOnce(sys: System, env: Env, n: nat, settings: Settings): (System, Report) {
    var (q, batch) := Take(sys.q, BatchLimit(sys.q.limits, Some(settings.maxBulkSize)));
    if batch == [] then (System(q, sys.t), Report(0, NoBatch))
    else Dispatch(System(q, sys.t), batch, env, n, settings)
  }

  // ------------------------------------------------------------------ enqueue

  /** The parsed job as the coordinator hands it over; a publisher may be configured and may raise. */
  datatype Handover = Handover(
    job: Job,
    payload: Payload,
    queueId: string,
    diagnostics: Metadata -> Metadata,
    publish: Option<Result<(), string>>,
    now: int)

  function EnqueueHandoff(h: Handover, settings: Settings, status: JobStatus, item: Option<Item>,
                          error: Option<string>): Handoff
  {
    if item.None? then Handoff(status, settings.sinkMode, [], 0, NonEmpty(error), None)
    else Handoff(status, ModeOfItem(item.value, settings), [item.value.queueId], item.value.payload.recordCount,
                 NonEmpty(error), None)
  }

  function ErrorText(e: QueueError, limits: Limits, payload: Payload): string {
    match e
    case PayloadTooLarge =>
      "Dispatch queue payload is too large (" + Text.Print(payload.payloadBytes) + " bytes > "
      + Text.Print(limits.maxPayloadBytes.GetOr(0)) + " bytes)."
    case QueueFull => "Dispatch queue is full (" + Text.Print(limits.maxSize) + " items)."
  }

  /** What the queue is given: the sink mode is the one requested in the job's metadata. */
  function Entrusted(h: Handover): Payload {
    h.payload.(requestedSinkMode := h.job.metadata.requestedSinkMode)
  }

  function QueuedJob(h: Handover, item: Item, settings: Settings): Job {
    h.job.(status := DispatchQueued,
           documentId := Some(item.payload.documentId),
           metadata := h.diagnostics(h.job.metadata).(
             handoff := Some(EnqueueHandoff(h, settings, DispatchQueued, Some(item), None))),
           updatedAt := h.now)
  }

  function RefusedJob(h: Handover, error: string, settings: Settings): Job {
    h.job.(status := RetryableFailure,
           metadata := h.job.metadata.(
             handoff := Some(EnqueueHandoff(h, settings, RetryableFailure, None, Some(error)))),
           updatedAt := h.now)
  }

  function UnpublishedJob(h: Handover, item: Item, error: string, settings: Settings): Job {
    var queued := QueuedJob(h, item, settings);
    queued.(status := RetryableFailure,
            metadata := queued.metadata.(
              handoff := Some(EnqueueHandoff(h, settings, RetryableFailure, Some(item), Some(error)))))
  }

  /** enqueue_parse_result of the dispatcher: the new system and the job it returns. */
  function AfterHandover(sys: System, h: Handover, settings: Settings): (System, Job)
    requires Indexed(sys.q)
  {
    var (q, r) := AfterEnqueue(sys.q, h.job.jobId, Entrusted(h), h.queueId);
    match r
    case Err(e) => (System(q, sys.t), RefusedJob(h, ErrorText(e, sys.q.limits, h.payload), settings))
    case Ok(item) =>
      var queued := QueuedJob(h, item, settings);
      var t := Repo.AfterSave(sys.t, queued);
      if h.publish.Some? && h.publish.value.Err? then
        var failed := UnpublishedJob(h, item, h.publish.value.error, settings);
        (System(q, Repo.AfterSave(t, failed)), failed)
      else
        (System(q, t), queued)
  }

  /**
   * The coordinator's handover: the dispatcher's enqueue, then the coordinator's
   * own save of the job it got back.
   */
  function AfterParse(sys: System, h: Handover, settings: Settings): System
    requires Indexed(sys.q)
  {
    var (after, job) := AfterHandover(sys, h, settings);
    after.(t := Repo.AfterSave(after.t, job))
  }

  /** remove_job: a job that does not exist is left alone, queue and all. */
  function AfterRemoveJob(sys: System, jobId: string): System {
    if jobId in sys.t.jobs
    then System(AfterRemove(sys.q, jobId), Repo.AfterDelete(sys.t, jobId))
    else sys
  }
}
