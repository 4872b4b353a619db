# Ingestion orchestrator: a model of its bookkeeping

The ingestion server takes uploaded documents, parses them in worker processes, and hands the
parsed documents to a local writer and to Elasticsearch. This project models the bookkeeping that
has to survive concurrency, retries and failures, and proves what it keeps. Specifications are
functions on values; the objects that the server updates in place are classes whose methods are
proved against those functions; protocols are step machines over arbitrary interleavings.

| component | files |
|---|---|
| dispatch queue: bounded FIFO with tombstones, item table, job index | `DispatchQueue`, `QueueLaws`, `QueueWorkers`, `QueueRefinement` |
| dispatcher: batches, retry decision, drain, agreement of job and queue tables | `DispatchSteps`, `DispatchDrain`, `DispatchRetries`, `FailingSinks`, `DispatchJobs`, `DispatchDelivery`, `DispatchFailure`, `DispatchAgreement`, `DispatchService`, `ElasticSink` |
| job, document and run tables | `JobModels`, `JobRepository`, `RepositoryListing`, `RequestOptions` |
| Docling engine registry and scheduler | `EnginePools`, `EngineRuns`, `DoclingEngines`, `EngineRegistry`, `ConversionScheduler` |
| parse coordinator, progress reports, worker pool | `ParseSteps`, `ParseRetries`, `ParseHandover`, `ParseCoordinator`, `ParserWorkers`, `ParserWorkerService` |
| parses and dispatches in sequence | `SequentialRuns` |
| batch parsing, table rendering | `BatchParsing`, `TableRenderer` |
| shared | `Wrappers`, `Sequences`, `Tallies`, `Text` |

`dafny verify dfyconfig.toml` checks everything.

What the outside world does is arbitrary: the local writer, the bulk helper, the converter and
normaliser, the parser's outcome, executors and clocks are parameters or functions of which nothing
is assumed. Fresh uuids are parameters required to be new. Timestamps are integers passed in.

## What turned out not to hold

* `mark_batch_failed` puts retried ids back with a blocking `put` while it holds the lock
  (`parsed_document_dispatch_queue_service.py:192`). `StuckExactly` says when a thread blocks there
  for ever and `BlockedDispatch` what it leaves, `EnqueueCanBlockARetry` gives such a run, and `NoEnqueueNoBlock`
  the condition that rules it out.
* A removed job's id keeps its slot in the FIFO until it is popped (`RemovalFreesNoSlot`).
* The retry limit is a limit of the batch: an item goes back beyond its own limit when its batch also holds one
  with a retry left (`BeyondLimitExactly`). Three items in batches of two with one retry are enough (`ThirdTry`);
  `OverTriedExactly` says for which numbers it happens when nothing can be delivered. It is never tried more than
  R + 2 times (`RetriesBounded`).
* `drain` spins when some other thread holds a batch (`DrainEndsExactly`, `DrainCanSpin`).
* Job table and queue disagree after a handover that does not fit (`HandoverAgreesExactly`): a job that
  already has an item is parsed again (`ReparseAfterDrain`), or publication fails although the item stays
  queued (`HandoverCanDisagree`). So they do after a parse that fails, if the job has an item that is not FAILED
  for good (`FailedParseAgreesExactly`, `FailedReparseDisagrees`).
* A job can get two running futures in process, or when a direct `process_job` call meets its claim
  (`OneFutureExactly`, `ClaimLostFirst`); they can then lose a failure and overdraw the retry budget (`LostFailure`).
  So can a progress report that outlives its parser (`LateReportExactly`, `LateReportOverdraws`); `BudgetExactly`
  is the whole condition. A job whose `executor.submit` raises is never started again unless a direct call
  releases it (`StrandedExactly`, `SubmitRaises`, `DirectCallUnstrands`).
* A job deleted while it is being parsed is stored again by the coordinator, without its run
  (`StoredAfterwards`, `DeletedJobReturns`), or already by a progress report that had read it
  (`ReportUndoesRemoval`). The removal service signals a parser in another process but leaves its own alone.
* Saving a job under another document can make two attempts share a number (`SaveKeepsNumberingExactly`,
  `SavesCanCollide`).
* `parse_many`'s check for several pipelines can never fail (`NeverMixed`); results missing from a group shift
  the outputs after them (`CompleteExactly`, `OutputsShift`, `ShortGroupShifts`); and a result that names another
  source is normalised under that name only in a batch (`SourceMatters`).
* Table texts are not escaped (`ReadPrintedExactly`, `PipesCollide`, `NewlinesCollide`), and a one-row table gets
  an empty body row (`OneRowLooksPadded`).

## Model

| member | source | states |
|---|---|---|
| DispatchQueue.ParsedDocumentDispatchQueueService.constructor | src/ingest_orquestator_server/application/services/parsed_document_dispatch_queue_service.py:27-46 | a queue with valid limits starts with all three structures empty |
| DispatchQueue.ParsedDocumentDispatchQueueService.EnqueueParseResult | src/ingest_orquestator_server/application/services/parsed_document_dispatch_queue_service.py:71-111 | put-then-roll-back in place is the all-or-nothing enqueue: too large, already indexed (the old item comes back), full, or appended to FIFO, table and index |
| DispatchQueue.ParsedDocumentDispatchQueueService.RemoveByJobId | src/ingest_orquestator_server/application/services/parsed_document_dispatch_queue_service.py:118-124 | drops the item and its index entry and leaves the id in the FIFO; says whether there was one |
| DispatchQueue.ParsedDocumentDispatchQueueService.DequeueBatch | src/ingest_orquestator_server/application/services/parsed_document_dispatch_queue_service.py:126-149 | the popping loop takes what Take says; stated by numbers: asked for k >= 1, the first min(k, bulk size, pending) pending ids, asked for none or 0, the first min(bulk size, pending), each DISPATCHING with one more attempt |
| DispatchQueue.ParsedDocumentDispatchQueueService.MarkCompleted | src/ingest_orquestator_server/application/services/parsed_document_dispatch_queue_service.py:151-166 | every item of the batch becomes COMPLETED with its error cleared, even one that was removed meanwhile |
| DispatchQueue.ParsedDocumentDispatchQueueService.MarkBatchFailed | src/ingest_orquestator_server/application/services/parsed_document_dispatch_queue_service.py:168-194 | item by item QUEUED and put back, or FAILED; None stands for the put that blocks for ever under the lock |
| DispatchQueue.ParsedDocumentDispatchQueueService.Snapshot | src/ingest_orquestator_server/application/services/parsed_document_dispatch_queue_service.py:196-225 | the four counts are those of the four statuses and add up to the number of items |
| DispatchQueue.CountsPartition | src/ingest_orquestator_server/application/services/parsed_document_dispatch_queue_service.py:196-225 | the four status counts partition any table of items |
| QueueLaws.EnqueueLaw | src/ingest_orquestator_server/application/services/parsed_document_dispatch_queue_service.py:71-111 | too large, already indexed, full or accepted, by numbers; accepted, the job has an untried QUEUED item with the payload handed over, its id at the end of the pending ids |
| QueueLaws.RemoveLaw | src/ingest_orquestator_server/application/services/parsed_document_dispatch_queue_service.py:118-124 | removal takes the job’s item, its index entry and its place among the pending ids, and nothing else; the FIFO keeps the id |
| QueueLaws.DequeueLaw | src/ingest_orquestator_server/application/services/parsed_document_dispatch_queue_service.py:126-149 | the size of a batch: min(k, bulk size, pending) for k >= 1, min(bulk size, pending) for none or 0, nothing for a negative k, always the first pending ids |
| QueueLaws.DequeuedItems | src/ingest_orquestator_server/application/services/parsed_document_dispatch_queue_service.py:126-149 | the items taken are DISPATCHING with one attempt more, and no other item, nor the index, changes |
| QueueLaws.TakeLaw | src/ingest_orquestator_server/application/services/parsed_document_dispatch_queue_service.py:126-149 | what one dequeue does to a well-formed queue: the batch is a prefix of the pending ids, in order and as long as limit and queue allow, and the rest stays pending |
| QueueLaws.FailedLaw | src/ingest_orquestator_server/application/services/parsed_document_dispatch_queue_service.py:168-194 | when the retries fit, the batch fails or returns whole: its ids at the tail in order, its items QUEUED or FAILED with the error, all other items untouched |
| QueueLaws.BlockedLaw | src/ingest_orquestator_server/application/services/parsed_document_dispatch_queue_service.py:176-192 | when they do not fit, the put blocks with the FIFO full of the first ids of the batch and the next item already marked QUEUED in the table |
| QueueLaws.CompletedLaw | src/ingest_orquestator_server/application/services/parsed_document_dispatch_queue_service.py:151-166 | completion makes exactly the items of the batch COMPLETED without error |
| QueueWorkers.StepKeeps | src/ingest_orquestator_server/application/services/parsed_document_dispatch_queue_service.py:76-194 | one enqueue, removal, dequeue, completion or failure by any thread keeps the queue invariant |
| QueueWorkers.WorkersSafe | src/ingest_orquestator_server/application/services/parsed_document_dispatch_queue_service.py:76-194 | in every interleaving of any number of threads: FIFO ids distinct and bounded, QUEUED iff live in the FIFO, batches in different hands disjoint, DISPATCHING iff in exactly one thread’s batch, index injective and type-correct, attempts equal to dequeues, FAILED only with attempts above the limit |
| QueueWorkers.RefusedEnqueueChangesNothing | src/ingest_orquestator_server/application/services/parsed_document_dispatch_queue_service.py:71-111 | a refused enqueue changes nothing, and it is refused iff the payload is too large or a new job meets a full FIFO |
| QueueWorkers.StuckExactly | src/ingest_orquestator_server/application/services/parsed_document_dispatch_queue_service.py:176-192 | a thread blocks inside mark_batch_failed iff it retries and the FIFO has no room for its whole batch |
| QueueWorkers.NoEnqueueNoBlock | src/ingest_orquestator_server/application/services/parsed_document_dispatch_queue_service.py:176-192 | from a state with room, no run without further enqueues ever blocks, with any number of dispatchers |
| QueueWorkers.EnqueueCanBlockARetry | src/ingest_orquestator_server/application/services/parsed_document_dispatch_queue_service.py:176-192 | with an enqueue between dequeue and failure a reachable run does block: the hypothesis above is needed |
| QueueRefinement.StepRefines | src/ingest_orquestator_server/application/services/parsed_document_dispatch_queue_service.py:76-194 | every step of the tombstone queue is a step of a plain sequence with eager deletion, which decides acceptance and retry itself |
| QueueRefinement.RunRefines | src/ingest_orquestator_server/application/services/parsed_document_dispatch_queue_service.py:76-194 | so every run is a run of the plain queue: an enqueue is accepted iff small enough, new and within the slots, a dequeue takes exactly the first min(k, bulk, length) ids, removal deletes from the middle, a batch is retried at the tail iff one of it has attempts left |
| QueueRefinement.RemovalFreesNoSlot | src/ingest_orquestator_server/application/services/parsed_document_dispatch_queue_service.py:118-149 | what the refinement does not give: after removing a queued job from a full queue the next new job is refused all the same |
| DispatchService.ParsedDocumentDispatchService.SaveItemState | src/ingest_orquestator_server/application/services/parsed_document_dispatch_service.py:327-357 | the job of the item gets status, handoff metadata, outputs, error and completion time; a deleted job is left alone |
| DispatchService.ParsedDocumentDispatchService.StoreLocal | src/ingest_orquestator_server/application/services/parsed_document_dispatch_service.py:408-436 | writes the items in order, saves each as STORED_LOCAL, and stops at the first write that raises |
| DispatchService.ParsedDocumentDispatchService.FindMissing | src/ingest_orquestator_server/application/services/parsed_document_dispatch_service.py:217-221 | the queue ids whose job no longer exists |
| DispatchService.ParsedDocumentDispatchService.DispatchBatch | src/ingest_orquestator_server/application/services/parsed_document_dispatch_service.py:213-322 | one batch in place: deleted jobs skipped and completed, all DISPATCHING, local writes, sink, then completion or the any-attempt retry decision, with the accepted count |
| DispatchService.ParsedDocumentDispatchService.DispatchNextBatch | src/ingest_orquestator_server/application/services/parsed_document_dispatch_service.py:204-208 | dequeues at most dispatch_max_bulk_size items and dispatches them |
| DispatchService.ParsedDocumentDispatchService.Drain | src/ingest_orquestator_server/application/services/parsed_document_dispatch_service.py:198-202 | begun with nothing in flight, the loop ends and leaves nothing QUEUED or in flight, and its result is that many runs of run_once |
| DispatchService.ParsedDocumentDispatchService.DrainFor | src/ingest_orquestator_server/application/services/parsed_document_dispatch_service.py:191-202 | the same loop begun in any state and given up after a number of runs: it has ended just when nothing is QUEUED or in flight |
| DispatchService.ParsedDocumentDispatchService.EnqueueParseResult | src/ingest_orquestator_server/application/services/parsed_document_dispatch_service.py:100-184 | refused: RETRYABLE_FAILURE and not saved here; queued and saved; published or, if that raises, saved again as RETRYABLE_FAILURE |
| DispatchDrain.RunOnceLaw | src/ingest_orquestator_server/application/services/parsed_document_dispatch_service.py:191-322 | one run takes the head of the pending ids, settles each item by one verdict, appends just the retried ones, and never blocks when the queue had room |
| DispatchDrain.TakenLaw | src/ingest_orquestator_server/application/services/parsed_document_dispatch_service.py:204-221 | what a run takes: the first min(dispatch_max_bulk_size or bulk size, bulk size, pending) pending ids, and of these it drops just those whose job is gone |
| DispatchDrain.RunOnceProgress | src/ingest_orquestator_server/application/services/parsed_document_dispatch_service.py:198-202 | every run lowers the pending count or spends retry budget: pending + sum of max(0, R - attempts) falls at each batch |
| DispatchDrain.TraceBudget | src/ingest_orquestator_server/application/services/parsed_document_dispatch_service.py:263-267 | over any run, batches put back plus remaining budget never exceed the starting budget, and attempts grow by at most one more than the batches put back |
| DispatchRetries.RanLevel | src/ingest_orquestator_server/application/services/parsed_document_dispatch_service.py:263-267 | a run keeps the attempts of the pending ids level: not falling along the queue, and at most one apart |
| DispatchRetries.RetriesBounded | src/ingest_orquestator_server/application/services/parsed_document_dispatch_service.py:263-272 | from N untried pending items at most N*R batches are put back, each is tried at most min(N*R + 1, R + 2) times, and no other item is touched |
| DispatchRetries.BeyondLimitExactly | src/ingest_orquestator_server/application/services/parsed_document_dispatch_service.py:263-272 | a run puts an item back beyond its own limit iff its delivery fails and the live part of its batch mixes items with fewer attempts than R and items with at least R |
| FailingSinks.Rounds | src/ingest_orquestator_server/application/services/parsed_document_dispatch_service.py:204-272 | while every delivery fails and retries are left, the queue just rotates: after k batches of b it stands k*b places on, and attempts along it follow from that |
| FailingSinks.OverTriedExactly | src/ingest_orquestator_server/application/services/parsed_document_dispatch_service.py:263-272 | if nothing can be delivered, from N untried items of existing jobs, each with records or to be stored locally, in batches of b: some item is tried R + 2 times iff N > b and b does not divide R*N |
| FailingSinks.ThirdTry | src/ingest_orquestator_server/application/services/parsed_document_dispatch_service.py:263-272 | the failing input: three jobs, batches of two, one retry, and the first item is tried three times |
| DispatchDrain.DrainedInTime | src/ingest_orquestator_server/application/services/parsed_document_dispatch_service.py:198-202 | pending plus budget plus one runs always suffice to drain |
| DispatchDrain.DrainEndsExactly | src/ingest_orquestator_server/application/services/parsed_document_dispatch_service.py:198-202 | with one dispatcher drain ends, whatever the sinks do, iff no item was DISPATCHING when it began |
| DispatchDrain.DrainCanSpin | src/ingest_orquestator_server/application/services/parsed_document_dispatch_service.py:198-202 | the failing input: one item enqueued and dequeued by another thread, and drain never ends |
| DispatchJobs.StoredOutputs | src/ingest_orquestator_server/application/services/parsed_document_dispatch_service.py:408-436 | the local stage succeeds iff every write does, and its outputs are those writes |
| DispatchJobs.SavedState | src/ingest_orquestator_server/application/services/parsed_document_dispatch_service.py:327-357 | field by field what saving the state of an item writes to its job, and that no other job changes |
| DispatchDelivery.LocalStageLaw | src/ingest_orquestator_server/application/services/parsed_document_dispatch_service.py:249-263 | after the local stage a job is STORED_LOCAL iff its item is stored locally and no write up to its own raised, else DISPATCHING |
| DispatchJobs.DispatchSettlesJobs | src/ingest_orquestator_server/application/services/parsed_document_dispatch_service.py:213-301 | after a batch each known job has the status of the verdict and no other job row is touched |
| DispatchDelivery.ModesPartition | src/ingest_orquestator_server/application/services/parsed_document_dispatch_service.py:250-259 | every item goes to Elasticsearch or is stored locally only |
| DispatchDelivery.AcceptedCount | src/ingest_orquestator_server/application/services/parsed_document_dispatch_service.py:302-310 | a delivered batch with any mix of sink modes accepts exactly its non-skipped items, any other batch none |
| DispatchDelivery.AcceptedByRun | src/ingest_orquestator_server/application/services/parsed_document_dispatch_service.py:204-208 | so does a run: it accepts the items of existing jobs iff its batch is delivered, and none when it finds no batch |
| DispatchDelivery.SinkAnswer | src/ingest_orquestator_server/infrastructure/elastic/elastic_chunk_index_dispatch_sink.py:48-65 | what the sink answers when it takes a batch: every item accepted, and the bulk helper’s count and response unless there is nothing to index |
| DispatchDelivery.SinkRefusal | src/ingest_orquestator_server/infrastructure/elastic/elastic_chunk_index_dispatch_sink.py:166-193 | the sink refuses iff it is given no items, the bulk helper raises or it reports item errors, each with its own error |
| DispatchDelivery.DeliveredItems | src/ingest_orquestator_server/application/services/parsed_document_dispatch_service.py:287-300 | after delivery every item of the batch, also those of deleted jobs, is COMPLETED without error, and the FIFO is unchanged |
| DispatchDelivery.DeliveredExactly | src/ingest_orquestator_server/application/services/parsed_document_dispatch_service.py:249-263 | a batch is delivered iff every local write and the sink’s part succeed |
| DispatchDelivery.DeliveredJobs | src/ingest_orquestator_server/application/services/parsed_document_dispatch_service.py:287-300 | after delivery each job, field by field: COMPLETED at the batch’s time, with the writer’s outputs iff its mode includes local and the sink’s response iff it includes elastic, its handoff naming item, mode and counts |
| DispatchFailure.FailedJobs | src/ingest_orquestator_server/application/services/parsed_document_dispatch_service.py:263-287 | after a failed batch item and job are QUEUED and DISPATCH_QUEUED, or both FAILED; the reason in the item’s last error, the handoff and, when given up, the job’s error is the error of the first local write that raises, or else the bulk helper’s |
| DispatchFailure.BlockedDispatch | src/ingest_orquestator_server/application/services/parsed_document_dispatch_service.py:263-287 | a dispatch blocks for ever iff it fails, an item has an attempt left and the FIFO has no room for the batch; its jobs are then left as the local stage left them |
| DispatchAgreement.RunOnceInStep | src/ingest_orquestator_server/application/services/parsed_document_dispatch_service.py:213-301 | a run of the single dispatcher keeps job status and queue status in agreement |
| DispatchAgreement.RemoveJobLaw | src/ingest_orquestator_server/application/services/job_removal_service.py:33-45 | removing a job takes its row, its run, its item and its index entry, and nothing else; an unknown job changes nothing |
| DispatchAgreement.HandoverAgreesExactly | src/ingest_orquestator_server/application/services/job_parse_coordinator.py:171-188 | after a handover job table and queue agree iff the handover fits: no earlier settled or too-large resubmission, no failed publication of a queued item |
| DispatchAgreement.HandoverCanDisagree | src/ingest_orquestator_server/application/services/parsed_document_dispatch_service.py:146-173 | a failing input from the empty system: the item stays QUEUED while the job is RETRYABLE_FAILURE because publication failed |
| DispatchAgreement.ReparseAfterDrain | src/ingest_orquestator_server/application/services/parsed_document_dispatch_queue_service.py:76-79 | after a drain the handover of a job that has an item never fits |
| ParseHandover.HandoverLaw | src/ingest_orquestator_server/application/services/parsed_document_dispatch_service.py:100-184 | a handover by cases (too large, already there, no room, taken): the item and its place in the queue, and every field of the job, with its document id, the error text or the failed publication |
| ParseHandover.ParsedLaw | src/ingest_orquestator_server/application/services/job_parse_coordinator.py:171-189 | a parse that returns asks for no retry; without a dispatcher the job is PARSED with the returned document and the queue is untouched, with one the parsed job is handed over by the law above |
| ParseHandover.ParsedIsQueued | src/ingest_orquestator_server/application/services/job_parse_coordinator.py:171-189 | in plain terms: a new job whose payload fits and finds room has afterwards an untried QUEUED item with that payload at the end of the FIFO and is DISPATCH_QUEUED, or RETRYABLE_FAILURE iff publication raised; refused, the FIFO is unchanged and it is RETRYABLE_FAILURE |
| ParseHandover.LatestIsRunning | src/ingest_orquestator_server/application/services/job_parse_coordinator.py:95-171 | the outcome is saved on the PARSING job with the reports that reached it, or on the bare running job if it is not stored any more |
| ParseHandover.FailedRunLaw | src/ingest_orquestator_server/application/services/job_parse_coordinator.py:144-169 | a run whose parser fails, field by field: RETRYING or FAILED by the number of failures, with error, note and times |
| ParseHandover.FailsFirstLaw | src/ingest_orquestator_server/application/services/job_parse_coordinator.py:81-91 | a job without input path fails at once where the entrypoint asks for it, and no failure is counted |
| SequentialRuns.ParseAgreesExactly | src/ingest_orquestator_server/application/services/job_parse_coordinator.py:171-189 | after a parse that returns, job and item tables agree iff its handover fits, or, without a dispatcher, the job has no item |
| SequentialRuns.FailedParseAgreesExactly | src/ingest_orquestator_server/application/services/job_parse_coordinator.py:83-169 | after a parse that fails, job and item tables agree iff the job has no item, or its item is FAILED and no retry follows |
| SequentialRuns.FailedReparseDisagrees | src/ingest_orquestator_server/application/services/parser_worker_service.py:83-98 | the failing input: a parsed job whose item is still QUEUED is taken up again and fails, and is RETRYING or FAILED beside it |
| SequentialRuns.SequentialAgreement | src/ingest_orquestator_server/application/services/file_ingestion_service.py:327-382 | uploads, new runs, calls of process_job whose handover or failure fits, removals and dispatcher runs in any sequential order keep agreement at every batch boundary, and the tables consistent |
| SequentialRuns.StepEffect | src/ingest_orquestator_server/application/services/file_ingestion_service.py:327-382 | what each of these steps does to tables and queue |
| SequentialRuns.RunsSettle | src/ingest_orquestator_server/application/services/parsed_document_dispatch_service.py:198-202 | any such sequence followed by more dispatcher runs than pending items and retry budget, whatever writer and sink do: every item is COMPLETED or FAILED, and so is its job |
| DispatchAgreement.DrainSettlesJobs | src/ingest_orquestator_server/application/services/parsed_document_dispatch_service.py:198-202 | after a drain every stored job with an item is COMPLETED or FAILED, as its item is |
| ElasticSink.EscapeClean | src/ingest_orquestator_server/infrastructure/elastic/elastic_chunk_index_dispatch_sink.py:137-138 | escaped text opens no template |
| ElasticSink.EscapeFixedExactly | src/ingest_orquestator_server/infrastructure/elastic/elastic_chunk_index_dispatch_sink.py:137-138 | escaping changes exactly the texts that open a template |
| ElasticSink.EscapeIdempotent | src/ingest_orquestator_server/infrastructure/elastic/elastic_chunk_index_dispatch_sink.py:137-138 | escaping twice is escaping once |
| ElasticSink.EscapeOnlyInsertsSpaces | src/ingest_orquestator_server/infrastructure/elastic/elastic_chunk_index_dispatch_sink.py:137-138 | apart from blanks the text is unchanged |
| ElasticSink.IndexedLengthExactly | src/ingest_orquestator_server/infrastructure/elastic/elastic_chunk_index_dispatch_sink.py:124-126 | content_length is the indexed text’s length iff no length was declared, the text was escaped, or the declared one is right, as the record builder makes it |
| JobRepository.SqliteIngestionJobRepository.Save | src/ingest_orquestator_server/infrastructure/sqlite/sqlite_ingestion_job_repository.py:26-62 | writes the job row and refreshes its run row, if there is one |
| JobRepository.SqliteIngestionJobRepository.UpsertDocument | src/ingest_orquestator_server/infrastructure/sqlite/sqlite_ingestion_job_repository.py:74-121 | a known hash keeps document id and creation time, a new one gets the fresh id |
| JobRepository.SqliteIngestionJobRepository.CreateRunForJob | src/ingest_orquestator_server/infrastructure/sqlite/sqlite_ingestion_job_repository.py:123-153 | inserts the run with the next attempt number; an existing run id is an integrity error and changes nothing |
| JobRepository.SqliteIngestionJobRepository.Delete | src/ingest_orquestator_server/infrastructure/sqlite/sqlite_ingestion_job_repository.py:273-289 | deletes run row and job row, or nothing |
| JobRepository.SaveLaw | src/ingest_orquestator_server/infrastructure/sqlite/sqlite_ingestion_job_repository.py:441-484 | a save writes the job row, and in its run row status, parser, pipeline, file name, outputs, metadata, error and the four times; run id, attempt and all other rows stay |
| JobRepository.CreateRunLaw | src/ingest_orquestator_server/infrastructure/sqlite/sqlite_ingestion_job_repository.py:123-153 | a new run copies the same fields and gets the number after the greatest of its document, or 1 |
| JobRepository.UpsertLaw | src/ingest_orquestator_server/infrastructure/sqlite/sqlite_ingestion_job_repository.py:74-121 | an upload writes the row of its hash and no other, and creates or keeps id and creation time |
| JobRepository.NextAttempt | src/ingest_orquestator_server/infrastructure/sqlite/sqlite_ingestion_job_repository.py:432-439 | the next number is above every attempt of the document |
| JobRepository.RepositoryConsistent | src/ingest_orquestator_server/infrastructure/sqlite/sqlite_ingestion_job_repository.py:26-153 | after any sequence of saves, run creations, uploads and deletions as the services make them: run rows agree with job rows field by field, attempts are positive and distinct per document, hashes and document ids correspond |
| JobRepository.HashKeepsItsDocument | src/ingest_orquestator_server/infrastructure/sqlite/sqlite_ingestion_job_repository.py:74-121 | whatever happens in between, a content hash keeps the document id of its first upload |
| JobRepository.StoredExactly | src/ingest_orquestator_server/infrastructure/sqlite/sqlite_ingestion_job_repository.py:26-121 | after any steps a job is stored as last saved iff it was not deleted since, and the documents are those uploaded |
| JobRepository.SaveKeepsNumberingExactly | src/ingest_orquestator_server/infrastructure/sqlite/sqlite_ingestion_job_repository.py:441-484 | saving a job under another document keeps attempts distinct iff no run there has its number |
| JobRepository.SavesCanCollide | src/ingest_orquestator_server/infrastructure/sqlite/sqlite_ingestion_job_repository.py:441-484 | the failing input: two documents with one run each, and the second job saved under the first document |
| JobRepository.CreateRunAgreesExactly | src/ingest_orquestator_server/infrastructure/sqlite/sqlite_ingestion_job_repository.py:123-153 | a new run agrees with its job iff the stored job is the one it was created from, under that document |
| RepositoryListing.LatestIsGreatest | src/ingest_orquestator_server/infrastructure/sqlite/sqlite_ingestion_job_repository.py:486-517 | the first row by descending attempt is the document’s greatest attempt |
| RepositoryListing.StatusFilterExact | src/ingest_orquestator_server/infrastructure/sqlite/sqlite_ingestion_job_repository.py:198-213 | the nested subquery selects exactly the documents whose latest run has the status |
| RepositoryListing.CursorRoundTrip | src/ingest_orquestator_server/infrastructure/sqlite/sqlite_ingestion_job_repository.py:588-595 | int(str(n)) reads a printed cursor back |
| Text.IntExactly | src/ingest_orquestator_server/infrastructure/sqlite/sqlite_ingestion_job_repository.py:588-595 | the texts that int() reads: an optional sign and digits, single underscores between digits, with white space around |
| RepositoryListing.PageLaw | src/ingest_orquestator_server/infrastructure/sqlite/sqlite_ingestion_job_repository.py:222-248 | a page is the next limit rows of the listing from its cursor, with a next cursor iff rows are left |
| RepositoryListing.PagingVisitsEachOnce | src/ingest_orquestator_server/infrastructure/sqlite/sqlite_ingestion_job_repository.py:183-248 | following cursors from none shows every matching document once, in listing order, in max(1, ceil(total/limit)) pages for the clamped limit |
| RepositoryListing.DocumentsPaged | src/ingest_orquestator_server/infrastructure/sqlite/sqlite_ingestion_job_repository.py:183-248 | for any LIKE pattern and status: following cursors shows just the matching documents, each once, most recently updated first across pages; a status matches just the documents whose latest run, and that run’s stored job, has it; every page gives their number as total |
| RepositoryListing.DocumentRowsExist | src/ingest_orquestator_server/infrastructure/sqlite/sqlite_ingestion_job_repository.py:222-230 | every such query has an ordered answer |
| RepositoryListing.ListRunsLaw | src/ingest_orquestator_server/infrastructure/sqlite/sqlite_ingestion_job_repository.py:250-261 | each existing run asked for is listed once, in order of first mention |
| RequestOptions.NormalizeOcrLanguages | src/ingest_orquestator_server/application/services/ingestion_request_options.py:34-57 | the loop with list and seen-set computes the distinct valid codes in order of first mention, or the error |
| RequestOptions.NormalizedLaw | src/ingest_orquestator_server/application/services/ingestion_request_options.py:34-77 | the result is duplicate-free, at most 8 valid codes, exactly those asked for, idempotent, and survives storage as a list and joining with commas |
| RequestOptions.NormalizedOrder | src/ingest_orquestator_server/application/services/ingestion_request_options.py:38-49 | an earlier language was mentioned before any mention of a later one |
| RequestOptions.AcceptedExactly | src/ingest_orquestator_server/application/services/ingestion_request_options.py:34-57 | a list is accepted iff every entry, trimmed and in lower case, is blank or a code, and at most eight codes differ; the codes kept are those, and None iff there are none |
| RequestOptions.CodeExactly | src/ingest_orquestator_server/application/services/ingestion_request_options.py:20 | a code is a letter followed by 1 to 15 letters, digits, underscores or hyphens |
| RequestOptions.ModeAcceptedExactly | src/ingest_orquestator_server/application/services/ingestion_request_options.py:23-68 | the names accepted for a sink mode, apart from case and white space, what each reads back as, and that any other is an error |
| RequestOptions.StoredModeReadable | src/ingest_orquestator_server/application/services/ingestion_request_options.py:23-31 | a sink mode that was accepted and stored reads back as the mode it named, and the dispatcher’s reading never raises |
| DoclingEngines.DoclingEngine.Initialize | src/ingest_orquestator_server/infrastructure/docling/docling_engine.py:74-92 | a known format is a hit, a new one is initialised and counted, a failed initialisation changes nothing |
| DoclingEngines.DoclingEngine.Convert | src/ingest_orquestator_server/infrastructure/docling/docling_engine.py:102-127 | last_used_at is set once initialisation is past, the conversion counted only if it returns |
| DoclingEngines.DoclingEngine.ConvertAll | src/ingest_orquestator_server/infrastructure/docling/docling_engine.py:129-156 | the same for a batch: batch size set before, counts added after |
| DoclingEngines.EngineHistory | src/ingest_orquestator_server/infrastructure/docling/docling_engine.py:74-156 | over any life of an engine, leased again as often as you like: each format initialised at most once, initialisations plus hits equal started uses plus pool leases, document and batch counts are those of the conversions that returned, and last use is the start of the last conversion |
| DoclingEngines.DoclingEngine.CountHit | src/ingest_orquestator_server/infrastructure/docling/docling_engine.py:217-218 | a lease from the pool is one more hit and nothing else |
| EngineRegistry.DoclingEngineRegistry.AcquireEngine | src/ingest_orquestator_server/infrastructure/docling/docling_engine.py:194-238 | the first free pooled engine with one more hit, or a new one pooled and leased; a refused format, a wait for a permit or a failed build leaves registry and permits as they were |
| EngineRegistry.DoclingEngineRegistry.ReleaseEngine | src/ingest_orquestator_server/infrastructure/docling/docling_engine.py:240-262 | the lease ends and the permit returns; a discarded or uncached engine leaves its pool, an emptied pool its key |
| EngineRegistry.DoclingEngineRegistry.EvictIdle | src/ingest_orquestator_server/infrastructure/docling/docling_engine.py:264-294 | with a positive TTL evicts a pooled engine iff it is free and now - last_used_at, or now - created_at if it was never used, exceeds the TTL; keeps the order of the rest, leaves no empty pool, and returns the number removed |
| EnginePools.KeptLaw | src/ingest_orquestator_server/infrastructure/docling/docling_engine.py:273-293 | eviction splits a pool into what it keeps and what it evicts |
| EnginePools.KeptOrder | src/ingest_orquestator_server/infrastructure/docling/docling_engine.py:273-293 | what comes first among the kept came first in the pool |
| EnginePools.MinusLaw | src/ingest_orquestator_server/infrastructure/docling/docling_engine.py:244-253 | discarding takes one engine out of a pool, or nothing |
| EnginePools.FirstFreeExactly | src/ingest_orquestator_server/infrastructure/docling/docling_engine.py:204-212 | the engine leased is the first of its pool that nobody has, and None iff there is none |
| EnginePools.LeaseLaw | src/ingest_orquestator_server/infrastructure/docling/docling_engine.py:213-235 | a cached lease marks its engine leased, and one that finds no free engine puts the new one at the end of its pool; no other pool and no other lease changes |
| EnginePools.ReturnLaw | src/ingest_orquestator_server/infrastructure/docling/docling_engine.py:240-262 | a return ends that lease and no other; the engine leaves its pool iff dropped, and no other pool changes |
| ConversionScheduler.DoclingConversionScheduler.Convert | src/ingest_orquestator_server/infrastructure/docling/docling_engine.py:380-401 | whatever goes wrong permits and leases are as after eviction; a failed engine is in no pool; a free engine used within the TTL survives; after a cached success the next conversion for the key gets the same engine |
| ConversionScheduler.DoclingConversionScheduler.ConvertAndRelease | src/ingest_orquestator_server/infrastructure/docling/docling_engine.py:394-401 | the engine is given back whatever happens and discarded unless its conversion returned |
| ConversionScheduler.DoclingConversionScheduler.ConvertAll | src/ingest_orquestator_server/infrastructure/docling/docling_engine.py:403-424 | the same for a batch under one lease, which leaves its size on the engine |
| ConversionScheduler.LeaseAndReturn | src/ingest_orquestator_server/infrastructure/docling/docling_engine.py:194-262 | leasing and returning restores the leases; failure leaves the pool without the engine, cached success with it |
| EngineRuns.StepKeeps | src/ingest_orquestator_server/infrastructure/docling/docling_engine.py:194-294 | one atomic step of any thread (permit, lease, return, evict) keeps the registry invariant |
| EngineRuns.RegistrySafe | src/ingest_orquestator_server/infrastructure/docling/docling_engine.py:194-294 | in every interleaving: permits + tickets + holders = concurrency, the leased engines are just those of the cached holders, no engine with two, every leased engine in its key’s pool, pools between 1 and concurrency engines, built = pooled + discarded + evicted per key |
| EngineRuns.AllLeasedMeansRoom | src/ingest_orquestator_server/infrastructure/docling/docling_engine.py:213-235 | pigeonhole: an engine is built only when its pool has fewer engines than the concurrency |
| EngineRuns.DiscardedIsGone | src/ingest_orquestator_server/infrastructure/docling/docling_engine.py:240-253 | a discarded engine is in no pool and not leased |
| EngineRuns.OneMoreCanLease | src/ingest_orquestator_server/infrastructure/docling/docling_engine.py:208-235 | while fewer threads than the concurrency are at work, one more can take a permit and get an engine of its key |
| EngineRuns.AllCanFinish | src/ingest_orquestator_server/infrastructure/docling/docling_engine.py:240-262 | no deadlock: from every such point all threads can finish, and then every permit is back and nothing is leased |
| ParseCoordinator.JobProgressReporter.Report | src/ingest_orquestator_server/application/services/job_progress_reporter.py:31-51 | progress, bounded history and update time of the job are saved; an unknown job is ignored |
| ParseCoordinator.JobProgressReporter.SaveReport | src/ingest_orquestator_server/application/services/job_progress_reporter.py:39-51 | the copy that was read is saved with the payload appended to its history, cut to the limit; status and failure counter stay those of the copy |
| ParseCoordinator.JobParseCoordinator.ProcessJob | src/ingest_orquestator_server/application/services/job_parse_coordinator.py:70-210 | the whole call in place: unknown job, missing input, PARSING, the parser with what goes on meanwhile, then the outcome on the latest stored job |
| ParseCoordinator.JobParseCoordinator.Conclude | src/ingest_orquestator_server/application/services/job_parse_coordinator.py:144-189 | the except and the success branch, with the running job standing in for a deleted one |
| ParseCoordinator.JobParseCoordinator.RetryOrFailJob | src/ingest_orquestator_server/application/services/job_parse_coordinator.py:222-273 | counts the failure and saves RETRYING within the budget, FAILED beyond it |
| ParseCoordinator.JobParseCoordinator.FailJob | src/ingest_orquestator_server/application/services/job_parse_coordinator.py:275-300 | the job is FAILED with error, error type and completion time in job row and run row alike, the failure counter moves only with a note, its products and all other jobs stay |
| ParseRetries.EventsKeepJob | src/ingest_orquestator_server/application/services/job_progress_reporter.py:31-51 | however reads and saves of reports, removals and other saves interleave, the job is the running one with the reports that saved it: the last is its progress and gives its update time, its history is the last `limit` entries of the old one followed by all of them, and it is stored iff not removed or saved again by a report that had read it |
| ParseRetries.OtherRows | src/ingest_orquestator_server/application/services/job_parse_coordinator.py:97-142 | the row of another job is meanwhile what the last save or removal of that job left |
| ParseRetries.ReportIsReadAndSave | src/ingest_orquestator_server/application/services/job_progress_reporter.py:31-51 | a report that nothing interrupts is a read followed by a save |
| ParseRetries.ReportUndoesRemoval | src/ingest_orquestator_server/application/services/job_progress_reporter.py:35-51 | a removal between a report’s get and save is undone, one before the get is not |
| ParseRetries.ProcessedLaw | src/ingest_orquestator_server/application/services/job_parse_coordinator.py:70-210 | a run counts a failure iff the parser fails and asks for a retry iff it saved RETRYING |
| ParseRetries.LateReportExactly | src/ingest_orquestator_server/infrastructure/docling/docling_progress.py:67-70 | a report that saves when the run is over undoes the run, counter, status and all, iff it had read the job while the parser was at work |
| ParseRetries.RetryProtocol | src/ingest_orquestator_server/application/services/job_parse_coordinator.py:144-169 | after n requested retries and u late reports that undo one, the counter has risen by n - u, n - u is within the budget, document and first start are kept, and one more failure ends the loop iff it is number max_retries + 1 by that count |
| ParseRetries.StoredAfterwards | src/ingest_orquestator_server/application/services/job_parse_coordinator.py:144-189 | whatever the outcome, the job is stored when its parse is over, and its run row is there iff it was and the job was not removed meanwhile |
| ParseRetries.DeletedJobReturns | src/ingest_orquestator_server/application/services/job_parse_coordinator.py:147-189 | the failing input: a job deleted while it is parsed comes back without its run |
| ParserWorkerService.ParserWorkerService.SubmitJob | src/ingest_orquestator_server/application/services/parser_worker_service.py:64-81 | a job that is not claimed is claimed and handed to the executor; if the executor raises it stays claimed; a claimed one is ignored |
| ParserWorkerService.ParserWorkerService.ProcessJob | src/ingest_orquestator_server/application/services/parser_worker_service.py:100-110 | a direct call releases the job, whoever claimed it |
| ParserWorkerService.ParserWorkerService.HandleSubmittedJobResult | src/ingest_orquestator_server/application/services/parser_worker_service.py:117-136 | the job is released, and submitted again iff the run asked for a retry |
| ParserWorkerService.ParserWorkerService.RecoverActiveJobs | src/ingest_orquestator_server/application/services/parser_worker_service.py:83-98 | submits just the listed active jobs not yet claimed, in order, up to the first that the executor refuses |
| ParserWorkerService.ToRecoverLaw | src/ingest_orquestator_server/application/services/parser_worker_service.py:83-98 | each active unclaimed job is recovered once, and no other |
| ParserWorkerService.AcceptedLaw | src/ingest_orquestator_server/application/services/parser_worker_service.py:75-98 | of the jobs to recover the executor gets those up to the first that it refuses, which stays claimed too |
| ParserWorkerService.RecoveredExactly | src/ingest_orquestator_server/application/services/parser_worker_service.py:83-98 | the statuses that are taken up again after a restart |
| ParserWorkers.OneFuturePerJob | src/ingest_orquestator_server/application/services/parser_worker_service.py:64-81 | out of process, and with no direct process_job call meeting a claim of its job, in every interleaving: at most one thread or future acts for a job, its parser runs at most once, and it is in _submitted just when somebody acts for it or its executor.submit raised |
| ParserWorkers.OneFutureExactly | src/ingest_orquestator_server/application/services/parser_worker_service.py:52-110 | a job never has two futures running, in any run, iff the runner is not the service’s own process_job and direct calls do not meet claims |
| ParserWorkers.ClaimLostFirst | src/ingest_orquestator_server/application/services/parser_worker_service.py:100-115 | in any run at all, a second future or actor of a job comes after a step that released a live claim of it: the end of a direct process_job call, or in process the end of a future’s own |
| ParserWorkers.InProcessDoublesAFuture | src/ingest_orquestator_server/application/services/parser_worker_service.py:100-110 | the in-process run that gets two futures of one job running |
| ParserWorkers.DirectCallDoublesAFuture | src/ingest_orquestator_server/application/services/file_ingestion_service.py:365-368 | the out-of-process run in which a direct call releases the claim of a running future |
| ParserWorkers.ResubmittedAfterRelease | src/ingest_orquestator_server/application/services/parser_worker_service.py:134-136 | an accepted resubmission finds nobody else acting for the job |
| ParserWorkers.ChainsAreFinite | src/ingest_orquestator_server/application/services/parser_worker_service.py:117-136 | under the same discipline, and if no progress report outlives its parser, no more retries are asked for than the counter still allowed, and a job’s parser is launched at most once per accepted submission plus once per retry |
| ParserWorkers.BudgetExactly | src/ingest_orquestator_server/application/services/job_parse_coordinator.py:147-154 | from any natural counters, the retry budget holds in every run iff the discipline does and no progress report outlives its parser, or no retry is allowed at all |
| ParserWorkers.LateReportOverdraws | src/ingest_orquestator_server/infrastructure/docling/docling_progress.py:67-70 | the failing run under the discipline: a late report takes a counted failure back, and the last retry is asked for twice |
| ParserWorkers.FinishLaw | src/ingest_orquestator_server/application/services/job_parse_coordinator.py:144-189 | how a future ends: its own read is used up and no other, the counter is what it read, one more if the parser failed, untouched if the runner raised, and a retry is asked for iff the parser failed below the budget |
| ParserWorkers.ReleaseLaw | src/ingest_orquestator_server/application/services/parser_worker_service.py:117-136 | the callback of a future releases its job and has it submitted again iff a retry was asked for; no other job is released or submitted |
| ParserWorkers.ReportsAreHarmless | src/ingest_orquestator_server/application/services/job_progress_reporter.py:31-51 | while its parser is at work a job can be reported on, and a report saved at once changes no counter |
| ParserWorkers.LostFailure | src/ingest_orquestator_server/application/services/job_parse_coordinator.py:147-154 | the failing continuation: two futures read the counter before either saves, one failure is lost, and both ask for the last retry |
| ParserWorkers.StrandedForever | src/ingest_orquestator_server/application/services/parser_worker_service.py:64-81 | under the discipline a job whose executor.submit raised stays claimed and is never launched again |
| ParserWorkers.StrandedExactly | src/ingest_orquestator_server/application/services/parser_worker_service.py:64-81 | in any run a job is stranded iff its executor.submit raised and no callback or direct process_job call has released it since |
| ParserWorkers.SubmitRaises | src/ingest_orquestator_server/application/services/parser_worker_service.py:75 | the run that strands a job: claimed, nobody acting for it, and a further submission does nothing |
| ParserWorkers.DirectCallUnstrands | src/ingest_orquestator_server/application/services/parser_worker_service.py:100-110 | the run in which a direct call frees a stranded job and it is launched |
| ParserWorkers.NothingStranded | src/ingest_orquestator_server/application/services/parser_worker_service.py:64-81 | if no executor.submit raises, _submitted is under the discipline exactly the set of jobs acted for |
| ParserWorkers.FinishIsARun | src/ingest_orquestator_server/application/services/job_parse_coordinator.py:144-169 | the pool’s counter steps are the coordinator’s runs |
| BatchParsing.ParseMany | src/ingest_orquestator_server/infrastructure/docling/docling_document_parser.py:179-235 | checks, grouping dictionary, group conversions and assignment by index, with every error in the order it is raised |
| BatchParsing.Group | src/ingest_orquestator_server/infrastructure/docling/docling_document_parser.py:209-213 | the dictionary lists each key’s positions in order, its keys in order of first occurrence |
| BatchParsing.FillGroup | src/ingest_orquestator_server/infrastructure/docling/docling_document_parser.py:215-233 | converts one group and fills just the positions its results reach; the first exception ends it |
| BatchParsing.GroupsPartition | src/ingest_orquestator_server/infrastructure/docling/docling_document_parser.py:209-213 | the groups partition the files: each file in the group of its key, once, in order |
| BatchParsing.KeyLaw | src/ingest_orquestator_server/infrastructure/docling/docling_document_parser.py:188-200 | the key of one file, or the first of its checks to fail, with the pipeline by the one request |
| BatchParsing.ParseOneLaw | src/ingest_orquestator_server/infrastructure/docling/docling_document_parser.py:78-177 | what a single parse gives: the checks, the conversion, the normalisation, each with its error |
| BatchParsing.SlotLaw | src/ingest_orquestator_server/infrastructure/docling/docling_document_parser.py:215-233 | a file’s slot is filled iff its group returned a result at its place in the group, and then with that result normalised |
| BatchParsing.KeysLaw | src/ingest_orquestator_server/infrastructure/docling/docling_document_parser.py:188-200 | checking all files stage by stage finds the keys, and no other errors, of checking file by file |
| BatchParsing.NeverMixed | src/ingest_orquestator_server/infrastructure/docling/docling_document_parser.py:201-205 | the several-pipelines ValueError is never raised |
| BatchParsing.CompleteExactly | src/ingest_orquestator_server/infrastructure/docling/docling_document_parser.py:224-235 | there are as many outputs as files iff every group returned enough results |
| BatchParsing.OutputsShift | src/ingest_orquestator_server/infrastructure/docling/docling_document_parser.py:223-235 | each output stands as many places too early as results are missing before it |
| BatchParsing.ShortGroupShifts | src/ingest_orquestator_server/infrastructure/docling/docling_document_parser.py:223-235 | the failing input: a group one result short, and the second file’s output comes first |
| BatchParsing.BatchRefinesSingles | src/ingest_orquestator_server/infrastructure/docling/docling_document_parser.py:179-235 | if the conversions of this call’s groups give what single ones give and their results name no other source, the batch succeeds iff every single parse does, with its output at each position, and fails only with the error of one of its files |
| BatchParsing.SourceMatters | src/ingest_orquestator_server/infrastructure/docling/docling_document_parser.py:224-226 | the source is needed: with results that name another file, batch and single parse differ although the conversions agree |
| TableRenderer.RenderMarkdown | src/ingest_orquestator_server/normalizers/docling/docling_table_renderer.py:16-37 | the grid filled in place and printed is the specified rendering, None for no cells or no extent |
| TableRenderer.LastAtLaw | src/ingest_orquestator_server/normalizers/docling/docling_table_renderer.py:27-31 | a position shows the last cell starting there |
| TableRenderer.CellShown | src/ingest_orquestator_server/normalizers/docling/docling_table_renderer.py:21-31 | a cell that ends after it starts lands in bounds and shows its stripped text unless a later cell starts at the same place |
| TableRenderer.BlankShown | src/ingest_orquestator_server/normalizers/docling/docling_table_renderer.py:24-31 | a position where no cell starts is blank |
| TableRenderer.RowCountExactly | src/ingest_orquestator_server/normalizers/docling/docling_table_renderer.py:21 | some cell ends with the last row, and the count itself promises that none ends after it |
| TableRenderer.ColCountExactly | src/ingest_orquestator_server/normalizers/docling/docling_table_renderer.py:22 | the same for the columns |
| TableRenderer.NoTableExactly | src/ingest_orquestator_server/normalizers/docling/docling_table_renderer.py:17-24 | nothing is rendered iff there are no cells, or no cell ends after row 0, or none after column 0 |
| TableRenderer.PrintedShape | src/ingest_orquestator_server/normalizers/docling/docling_table_renderer.py:33-37 | 2 + max(1, rows - 1) lines, each of as many cells as columns |
| TableRenderer.PrintedLines | src/ingest_orquestator_server/normalizers/docling/docling_table_renderer.py:33-37 | the lines in order, cell by cell: header, separator of dashes, body, or one empty row if there is no body |
| TableRenderer.ReadPrintedExactly | src/ingest_orquestator_server/normalizers/docling/docling_table_renderer.py:33-37 | for every rectangular table: splitting the Markdown at newlines and pipes undoes printing, up to the padding of a single row, iff no text holds a pipe or a newline |
| TableRenderer.PrintedAlikeExactly | src/ingest_orquestator_server/normalizers/docling/docling_table_renderer.py:33-37 | two pipe-free tables of any sizes, newlines allowed, print alike iff they are equal once a single row is padded |
| TableRenderer.OneRowLooksPadded | src/ingest_orquestator_server/normalizers/docling/docling_table_renderer.py:35-37 | the one exception: a one-row table prints like itself with an empty second row |
| TableRenderer.PipesCollide | src/ingest_orquestator_server/normalizers/docling/docling_table_renderer.py:37 | pipes are not escaped: two different tables of one size print alike |
| TableRenderer.NewlinesCollide | src/ingest_orquestator_server/normalizers/docling/docling_table_renderer.py:37 | nor are newlines: with one between pipes, tables of different sizes print alike |
| TableRenderer.RenderingShowsTheGrid | src/ingest_orquestator_server/normalizers/docling/docling_table_renderer.py:16-37 | from cells to Markdown and back: every position shows its last cell’s stripped text iff no text that shows holds a pipe or newline, as when no cell’s does |

## Left out

* Routes, wiring, the frontend, logging, settings validation, capability metadata, id generators: no hard property.
* Docling, Elasticsearch, Dramatiq, tokenizers, CUDA, SQLite internals: foreign, so arbitrary outcomes; SQL statements are atomic steps on tables.
* Thread start and stop, wake events, heartbeats, process signals and file deletion: effects of the operating system.
* `BaseException`s that bypass `except Exception`, and repository calls that raise inside the dispatcher.
* Payload size estimation and SHA-256: payload sizes, content hashes and engine signatures are given values.
* `dispatch_item` and `update_queue=False`: the dispatch of one item without a queue.
* The sink mode "mixed": it is never stored, since handoffs are written for one item.
* `warmup` and the registry's snapshots: an acquire, an initialisation and a release; reports of fields.
* Engine metadata in batch outputs, and the random document id that a batch parse gives each output.
* `list_active_job_ids` (which omits RETRYING) and the recent-by-status listings; `render_plain_text`; the other fields of an indexed document.
* SQL row order where the ORDER BY leaves ties: the listing is one arbitrary fixed order. The LIKE filter is an arbitrary selection.
* `int()` on decimal digits other than ASCII, which it accepts and `ParseInt` refuses, and on more than 4300 digits; SQLite's 64-bit offsets; float offsets in table cells.
* `Lower`: maps only the characters whose lower case is an ASCII letter (A to Z and the Kelvin sign). The names it is used on are compared with ASCII names only, and a name with any other character equals none of them before or after.
* Stored metadata of the wrong shape: a retry note that is not a dictionary with an integer counts as 0, as in the source; other malformed metadata is not represented. `ParsedJob` lets the parser's diagnostics rewrite metadata freely.
* A failed dispatch leaves `completed_at` unset, as in the source.
- DispatchQueue.ParsedDocumentDispatchQueueService.Snapshot: states the counts, not the item lists sorted by time, because items carry no timestamps here.
- DispatchService.ParsedDocumentDispatchService.Drain: starts with nothing in flight, because otherwise it need not end (DrainEndsExactly); DrainFor takes any start.
- ParseCoordinator.JobParseCoordinator.ProcessJob: other threads' work during the parse is a sequence of events given in advance; another save of the same job by a third party is not among the laws' hypotheses.
- ParseRetries.RetryProtocol: a report left open by a run saves, if at all, before the next run begins; one that saves later still, or beside another, is covered for the counter by ParserWorkers.BudgetExactly.
- ParserWorkers.StrandedExactly: takes the save and the release of a direct call as one step, because nothing but a crash can come between them in that thread.
