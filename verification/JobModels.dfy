/** The job record that the coordinator, the dispatcher and the repository share. */
module JobModels {
  import opened Wrappers

  datatype JobStatus =
    | Pending | JobQueued | Running | ParserQueued | Retrying | Parsing | Parsed
    | JobCompleted | JobFailed | DispatchQueued | DispatchingJob | StoredLocal
    | IndexedElastic | RetryableFailure

  type Outputs = string

  datatype RetryState = RetryScheduled | RetriesExhausted

  /** metadata["parser_retry"]: absent, something that is not a readable dict, or the note itself. */
  datatype RetryNote =
    | NoNote
    | Unreadable
    | Counted(failureCount: int, maxRetries: nat, lastError: string, lastErrorType: string, state: RetryState)

  /** The three sink modes that settings and requests admit. */
  datatype SinkMode = LocalSink | ElasticSink | LocalAndElasticSink

  datatype SinkResponse = SinkResponse(localOutputs: Option<Outputs>, elasticResponse: Option<string>)

  /** metadata["dispatch_handoff"] */
  datatype Handoff = Handoff(
    state: JobStatus,
    sinkMode: SinkMode,
    queueIds: seq<string>,
    recordCount: nat,
    error: Option<string>,
    lastResponse: Option<SinkResponse>)

  /** The metadata keys the modelled code reads or writes; the others are `extra`. */
  datatype Metadata = Metadata(
    pipeline: Option<string>,
    requestedPipeline: Option<string>,
    requestedSinkMode: Option<SinkMode>,
    parserRetry: RetryNote,
    errorType: Option<string>,
    handoff: Option<Handoff>,
    progress: Option<string>,
    progressHistory: seq<string>,
    extra: map<string, string>)

  datatype Job = Job(
    jobId: string,
    status: JobStatus,
    parser: string,
    sourceFileName: Option<string>,
    inputPath: Option<string>,
    documentId: Option<string>,
    outputs: Option<Outputs>,
    metadata: Metadata,
    error: Option<string>,
    createdAt: int,
    updatedAt: int,
    startedAt: Option<int>,
    completedAt: Option<int>)

  /** Python's `a or b` on optional strings: an empty string counts as missing. */
  function OrElse(a: Option<string>, b: Option<string>): Option<string> {
    if a.Some? && a.value != "" then a else b
  }
}
