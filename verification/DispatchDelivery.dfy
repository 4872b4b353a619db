/**
 * What a delivered batch with mixed sink modes amounts to: how many documents
 * count as accepted, and which job gets local outputs and which a response of
 * the Elasticsearch sink.
 */
module DispatchDelivery {
  import opened Wrappers
  import opened Sequences
  import opened JobModels
  import opened DispatchQueue
  import opened QueueLaws
  import Repo = JobRepository
  import opened ElasticSink
  import opened DispatchSteps
  import opened DispatchJobs

  /** Every item goes to Elasticsearch or is stored locally only. */
  lemma {:induction false} ModesPartition(items: seq<Item>, settings: Settings)
    ensures |ElasticItems(items, settings)| + LocalOnlyCount(items, settings) == |items|
  {
    if items != [] {
      ModesPartition(items[1..], settings);
    }
  }

  /** A delivered batch accepts exactly its non-skipped items; any other batch accepts none. */
  lemma AcceptedCount(sys: System, batch: seq<Item>, env: Env, n: nat, settings: Settings)
    ensures var report := Dispatch(sys, batch, env, n, settings).1;
            report.accepted == if report.verdict == Delivered then |KnownItems(sys.t, batch)| else 0
  {
    var known := KnownItems(sys.t, batch);
    ModesPartition(known, settings);
  }

  /** So does a run; one that finds no batch accepts none either. */
  lemma AcceptedByRun(sys: System, env: Env, n: nat, settings: Settings)
    ensures var (report, batch) := (RunOnce(sys, env, n, settings).1,
                                    Take(sys.q, BatchLimit(sys.q.limits, Some(settings.maxBulkSize))).1);
            && (report.verdict == NoBatch <==> batch == [])
            && report.accepted == if report.verdict == Delivered then |KnownItems(sys.t, batch)| else 0
  {
    var (q, batch) := Take(sys.q, BatchLimit(sys.q.limits, Some(settings.maxBulkSize)));
    AcceptedCount(System(q, sys.t), batch, env, n, settings);
  }

  predicate SinkTakes(elastic: seq<Item>, bulk: BulkOutcome) {
    elastic == [] || RecordTotal(elastic) == 0 || (bulk.BulkAnswered? && !bulk.itemErrors)
  }

  lemma {:induction false} LocalIds(items: seq<Item>, settings: Settings)
    requires Distinct(Ids(items))
    ensures Distinct(Ids(LocalItems(items, settings)))
    ensures forall i :: 0 <= i < |items| ==>
              (items[i].queueId in Ids(LocalItems(items, settings)) <==> StoresLocal(items[i], settings))
    ensures forall id :: id in Ids(LocalItems(items, settings)) ==> id in Ids(items)
  {
    if items != [] {
      IdsTail(items);
      LocalIds(items[1..], settings);
      var rest := LocalItems(items[1..], settings);
      var local := LocalItems(items, settings);
      if StoresLocal(items[0], settings) {
        assert Ids(local) == [items[0].queueId] + Ids(rest);
      } else {
        assert local == rest;
      }
      forall i | 0 <= i < |items|
        ensures items[i].queueId in Ids(local) <==> StoresLocal(items[i], settings)
      {
        if 0 < i {
          assert items[i] == items[1..][i - 1];
          assert Ids(items)[i] != Ids(items)[0];
        }
      }
    }
  }

  lemma {:induction false} ElasticIds(items: seq<Item>, settings: Settings)
    requires Distinct(Ids(items))
    ensures forall i :: 0 <= i < |items| ==>
              (items[i].queueId in Ids(ElasticItems(items, settings)) <==> GoesElastic(items[i], settings))
    ensures forall id :: id in Ids(ElasticItems(items, settings)) ==> id in Ids(items)
  {
    if items != [] {
      IdsTail(items);
      ElasticIds(items[1..], settings);
      var rest := ElasticItems(items[1..], settings);
      var elastic := ElasticItems(items, settings);
      if GoesElastic(items[0], settings) {
        assert Ids(elastic) == [items[0].queueId] + Ids(rest);
      } else {
        assert elastic == rest;
      }
      forall i | 0 <= i < |items|
        ensures items[i].queueId in Ids(elastic) <==> GoesElastic(items[i], settings)
      {
        if 0 < i {
          assert items[i] == items[1..][i - 1];
          assert Ids(items)[i] != Ids(items)[0];
        }
      }
    }
  }

  /** A batch is delivered iff every local write succeeds and the sink takes its part. */
  lemma DeliveredExactly(sys: System, batch: seq<Item>, env: Env, n: nat, settings: Settings)
    requires Distinct(Ids(batch))
    ensures var known := KnownItems(sys.t, batch);
            Dispatch(sys, batch, env, n, settings).1.verdict == Delivered <==>
              && (forall i :: 0 <= i < |known| && StoresLocal(known[i], settings) ==>
                    env.write(n, known[i].queueId).Ok?)
              && SinkTakes(ElasticItems(known, settings), env.bulk(n))
  {
    var known := KnownItems(sys.t, batch);
    SelectSplits(batch, MissingIds(sys.t, batch));
    if known != [] {
      LocalIds(known, settings);
      var local := LocalItems(known, settings);
      var t1 := AllStates(sys.t, known, DispatchingJob, NO_NOTE, settings, env.now(n));
      StoredOutputs(t1, local, env, n, settings);
      WritesOfLocal(known, local, env, n, settings);
      OutcomeExactly(sys.t, known, env, n, settings);
    }
  }

  lemma WritesOfLocal(known: seq<Item>, local: seq<Item>, env: Env, n: nat, settings: Settings)
    requires forall i :: 0 <= i < |known| ==> (known[i].queueId in Ids(local) <==> StoresLocal(known[i], settings))
    requires forall id :: id in Ids(local) ==> id in Ids(known)
    ensures (forall i :: 0 <= i < |local| ==> env.write(n, local[i].queueId).Ok?) <==>
            (forall i :: 0 <= i < |known| && StoresLocal(known[i], settings) ==> env.write(n, known[i].queueId).Ok?)
  {
    if forall i :: 0 <= i < |local| ==> env.write(n, local[i].queueId).Ok? {
      forall i | 0 <= i < |known| && StoresLocal(known[i], settings)
        ensures env.write(n, known[i].queueId).Ok?
      {
        var k :| 0 <= k < |local| && Ids(local)[k] == known[i].queueId;
        assert env.write(n, local[k].queueId).Ok?;
      }
    }
    if forall i :: 0 <= i < |known| && StoresLocal(known[i], settings) ==> env.write(n, known[i].queueId).Ok? {
      forall i | 0 <= i < |local|
        ensures env.write(n, local[i].queueId).Ok?
      {
        assert Ids(local)[i] in Ids(known);
        var k :| 0 <= k < |known| && Ids(known)[k] == local[i].queueId;
        assert known[k].queueId in Ids(local);
      }
    }
  }

  lemma OutcomeExactly(t: Repo.Tables, known: seq<Item>, env: Env, n: nat, settings: Settings)
    ensures Outcome(t, known, env, n, settings).Ok? <==>
              && LocalStage(t, known, env, n, settings).2.None?
              && SinkTakes(ElasticItems(known, settings), env.bulk(n))
    ensures Outcome(t, known, env, n, settings).Ok? ==>
              (Outcome(t, known, env, n, settings).value.Some? <==> ElasticItems(known, settings) != [])
  {
  }

  // ------------------------------------------------------------- job by job

  ghost predicate DistinctJobs(items: seq<Item>) {
    forall i, j :: 0 <= i < j < |items| ==> items[i].jobId != items[j].jobId
  }

  lemma {:induction false} CompletedAt(t: Repo.Tables, items: seq<Item>, outputs: map<string, Outputs>,
                                       elasticIds: set<string>, result: Option<SinkResult>, settings: Settings,
                                       now: int, i: nat)
    requires Repo.KeyedRows(t) && DistinctJobs(items) && i < |items| && items[i].jobId in t.jobs
    ensures var t' := AllCompleted(t, items, outputs, elasticIds, result, settings, now);
            && items[i].jobId in t'.jobs
            && t'.jobs[items[i].jobId]
               == JobWithState(t.jobs[items[i].jobId], items[i], JobCompleted,
                               CompletionNote(items[i], outputs, elasticIds, result), settings, now)
    decreases |items|
  {
    var note := CompletionNote(items[0], outputs, elasticIds, result);
    var t1 := AfterItemState(t, items[0], JobCompleted, note, settings, now);
    ItemStateTouches(t, items[0], JobCompleted, note, settings, now);
    if i == 0 {
      AllCompletedTouch(t1, items[1..], outputs, elasticIds, result, settings, now);
    } else {
      assert items[i] == items[1..][i - 1] && items[i].jobId != items[0].jobId;
      CompletedAt(t1, items[1..], outputs, elasticIds, result, settings, now, i - 1);
    }
  }

  /** The local stage leaves the outputs of a job alone unless one of its items is stored locally. */
  lemma {:induction false} StatesKeepOutputs(t: Repo.Tables, items: seq<Item>, status: JobStatus, settings: Settings,
                                             now: int, j: string)
    requires Repo.KeyedRows(t) && j in t.jobs
    ensures var t' := AllStates(t, items, status, NO_NOTE, settings, now);
            j in t'.jobs && t'.jobs[j].outputs == t.jobs[j].outputs
    decreases |items|
  {
    if items != [] {
      ItemStateTouches(t, items[0], status, NO_NOTE, settings, now);
      StatesKeepOutputs(AfterItemState(t, items[0], status, NO_NOTE, settings, now), items[1..], status, settings,
                        now, j);
    }
  }

  lemma {:induction false} NotLocalJob(items: seq<Item>, settings: Settings, i: nat)
    requires DistinctJobs(items) && i < |items| && !StoresLocal(items[i], settings)
    ensures items[i].jobId !in JobIds(LocalItems(items, settings))
  {
    var rest := LocalItems(items[1..], settings);
    if StoresLocal(items[0], settings) {
      JobIdsTail([items[0]] + rest);
      assert ([items[0]] + rest)[1..] == rest;
    } else {
      assert [] + rest == rest;
    }
    if i == 0 {
      LocalItemsPart(items[1..], settings);
    } else {
      assert items[1..][i - 1] == items[i];
      NotLocalJob(items[1..], settings, i - 1);
    }
  }

  lemma {:induction false} NoRecords(items: seq<Item>)
    ensures RecordTotal(items) == 0 <==> forall i :: 0 <= i < |items| ==> items[i].payload.recordCount == 0
  {
    if items != [] {
      NoRecords(items[1..]);
      assert forall i :: 0 <= i < |items| - 1 ==> items[1..][i] == items[i + 1];
      assert forall i :: 1 <= i < |items| ==> items[i] == items[1..][i - 1];
    }
  }

  /** What the Elasticsearch sink answers when it takes a batch. */
  lemma SinkAnswer(items: seq<Item>, bulk: BulkOutcome)
    requires items != [] && SinkTakes(items, bulk)
    ensures var r := SubmitBatch(items, bulk);
            && r.Ok? && r.value.acceptedDocuments == |items|
            && if forall i :: 0 <= i < |items| ==> items[i].payload.recordCount == 0 then
                 r.value.acceptedRecords == 0 && r.value.rawResponse == "successful: 0"
               else
                 && bulk.BulkAnswered? && !bulk.itemErrors
                 && r.value.acceptedRecords == bulk.successful && r.value.rawResponse == bulk.response
  {
    NoRecords(items);
  }

  /** When it refuses, and with what error. */
  lemma SinkRefusal(items: seq<Item>, bulk: BulkOutcome)
    ensures SubmitBatch(items, bulk).Err? <==> items == [] || !SinkTakes(items, bulk)
    ensures items == [] ==> SubmitBatch(items, bulk) == Err("Cannot submit an empty RAG record batch.")
    ensures !SinkTakes(items, bulk) ==>
              SubmitBatch(items, bulk).error == match bulk
                case BulkRaised(message) => "Elastic bulk request failed: " + message
                case BulkAnswered(_, _, response) => "Elastic bulk request returned item errors: " + response
  {
  }

  /** The modes: the one requested, or else the configured one, says which sinks an item goes to. */
  lemma ModeLaw(item: Item, settings: Settings)
    ensures var mode := if item.payload.requestedSinkMode.Some? then item.payload.requestedSinkMode.value
                        else settings.sinkMode;
            && ModeOfItem(item, settings) == mode
            && (StoresLocal(item, settings) <==> mode in {LocalSink, LocalAndElasticSink})
            && (GoesElastic(item, settings) <==> mode in {SinkMode.ElasticSink, LocalAndElasticSink})
  {
  }

  /** The same record apart from what a dispatch in progress may change. */
  predicate Unsettled(before: Job, after: Job) {
    after == before.(status := after.status, outputs := after.outputs, updatedAt := after.updatedAt,
                     metadata := before.metadata.(handoff := after.metadata.handoff))
  }

  lemma {:induction false} StatesUnsettle(t: Repo.Tables, items: seq<Item>, settings: Settings, now: int, j: string)
    requires Repo.KeyedRows(t) && j in t.jobs
    ensures var t' := AllStates(t, items, DispatchingJob, NO_NOTE, settings, now);
            j in t'.jobs && Unsettled(t.jobs[j], t'.jobs[j])
    decreases |items|
  {
    if items != [] {
      ItemStateTouches(t, items[0], DispatchingJob, NO_NOTE, settings, now);
      StatesUnsettle(AfterItemState(t, items[0], DispatchingJob, NO_NOTE, settings, now), items[1..], settings, now, j);
    }
  }

  lemma {:induction false} StoredUnsettles(t: Repo.Tables, items: seq<Item>, env: Env, n: nat, settings: Settings,
                                           j: string)
    requires Repo.KeyedRows(t) && j in t.jobs
    ensures var t' := Stored(t, items, env, n, settings).0;
            j in t'.jobs && Unsettled(t.jobs[j], t'.jobs[j])
    decreases |items|
  {
    if items != [] && env.write(n, items[0].queueId).Ok? {
      var note := NO_NOTE.(outputs := Some(env.write(n, items[0].queueId).value));
      ItemStateTouches(t, items[0], StoredLocal, note, settings, env.now(n));
      StoredUnsettles(AfterItemState(t, items[0], StoredLocal, note, settings, env.now(n)), items[1..], env, n,
                      settings, j);
    }
  }

  lemma OutcomeAnswer(t: Repo.Tables, known: seq<Item>, env: Env, n: nat, settings: Settings)
    requires Outcome(t, known, env, n, settings).Ok?
    ensures var (elastic, result) := (ElasticItems(known, settings), Outcome(t, known, env, n, settings).value);
            && (result.Some? <==> elastic != [])
            && (result.Some? ==>
                  if forall i :: 0 <= i < |elastic| ==> elastic[i].payload.recordCount == 0 then
                    result.value.rawResponse == "successful: 0"
                  else env.bulk(n).BulkAnswered? && result.value.rawResponse == env.bulk(n).response)
  {
    OutcomeExactly(t, known, env, n, settings);
    if ElasticItems(known, settings) != [] {
      SinkAnswer(ElasticItems(known, settings), env.bulk(n));
    }
  }

  /** What the local stage, if all its writes return, leaves of a job, and what outputs it hands on. */
  lemma LocalStageKeeps(t: Repo.Tables, known: seq<Item>, env: Env, n: nat, settings: Settings, i: nat)
    requires Repo.KeyedRows(t) && Distinct(Ids(known)) && DistinctJobs(known) && i < |known|
    requires known[i].jobId in t.jobs && LocalStage(t, known, env, n, settings).2.None?
    ensures var (t', outputs, _) := LocalStage(t, known, env, n, settings);
            var (item, job) := (known[i], known[i].jobId);
            && Repo.KeyedRows(t') && job in t'.jobs && Unsettled(t.jobs[job], t'.jobs[job])
            && (item.queueId in outputs <==> StoresLocal(item, settings))
            && (StoresLocal(item, settings) ==> env.write(n, item.queueId) == Ok(outputs[item.queueId]))
            && (!StoresLocal(item, settings) ==> t'.jobs[job].outputs == t.jobs[job].outputs)
  {
    var local, j := LocalItems(known, settings), known[i].jobId;
    var t1 := AllStates(t, known, DispatchingJob, NO_NOTE, settings, env.now(n));
    LocalIds(known, settings);
    AllStatesTouch(t, known, DispatchingJob, NO_NOTE, settings, env.now(n));
    StatesKeepOutputs(t, known, DispatchingJob, settings, env.now(n), j);
    StatesUnsettle(t, known, settings, env.now(n), j);
    StoredTouches(t1, local, env, n, settings);
    StoredOutputs(t1, local, env, n, settings);
    StoredUnsettles(t1, local, env, n, settings, j);
    if !StoresLocal(known[i], settings) {
      NotLocalJob(known, settings, i);
    }
  }

  /** What the sink's answer to a delivered batch was. */
  ghost predicate AnsweredWith(elastic: seq<Item>, bulk: BulkOutcome, response: string) {
    if forall i :: 0 <= i < |elastic| ==> elastic[i].payload.recordCount == 0 then response == "successful: 0"
    else bulk.BulkAnswered? && response == bulk.response
  }

  /**
   * After a delivered batch each job is COMPLETED at the batch's time and its
   * handoff records exactly what its mode asked for: local outputs iff the mode
   * includes local, the sink's response iff it includes Elasticsearch.  The
   * job's own outputs are the ones just written, or the ones it had, and nothing else of it changes.
   */
  lemma DeliveredJobs(sys: System, batch: seq<Item>, env: Env, n: nat, settings: Settings, i: nat)
    requires Repo.KeyedRows(sys.t) && Distinct(Ids(batch))
    requires DistinctJobs(KnownItems(sys.t, batch)) && i < |KnownItems(sys.t, batch)|
    requires KnownItems(sys.t, batch)[i].jobId in sys.t.jobs
    requires Dispatch(sys, batch, env, n, settings).1.verdict == Delivered
    ensures var (known, item) := (KnownItems(sys.t, batch), KnownItems(sys.t, batch)[i]);
            var t' := Dispatch(sys, batch, env, n, settings).0.t;
            && item.jobId in t'.jobs
            && var (before, job) := (sys.t.jobs[item.jobId], t'.jobs[item.jobId]);
               && job == before.(status := JobCompleted, completedAt := Some(env.now(n)), updatedAt := env.now(n),
                                 outputs := job.outputs, metadata := before.metadata.(handoff := job.metadata.handoff))
               && job.metadata.handoff.Some? && job.metadata.handoff.value.lastResponse.Some?
               && var handoff := job.metadata.handoff.value;
                  var response := handoff.lastResponse.value;
                  && handoff.state == JobCompleted && handoff.queueIds == [item.queueId]
                  && handoff.recordCount == item.payload.recordCount
                  && handoff.sinkMode == ModeOfItem(item, settings)
                  && handoff.error == (if item.lastError == Some("") then None else item.lastError)
                  && (response.localOutputs.Some? <==> StoresLocal(item, settings))
                  && (response.elasticResponse.Some? <==> GoesElastic(item, settings))
                  && (GoesElastic(item, settings) ==>
                        AnsweredWith(ElasticItems(known, settings), env.bulk(n), response.elasticResponse.value))
                  && (StoresLocal(item, settings) ==>
                        && env.write(n, item.queueId) == Ok(response.localOutputs.value)
                        && job.outputs == response.localOutputs)
                  && (!StoresLocal(item, settings) ==> job.outputs == before.outputs)
  {
    var known := KnownItems(sys.t, batch);
    SelectSplits(batch, MissingIds(sys.t, batch));
    ElasticIds(known, settings);
    OutcomeAnswer(sys.t, known, env, n, settings);
    OutcomeExactly(sys.t, known, env, n, settings);
    LocalStageKeeps(sys.t, known, env, n, settings, i);
    var (t2, outputs, _) := LocalStage(sys.t, known, env, n, settings);
    var elasticIds := Elements(Ids(ElasticItems(known, settings)));
    var result := Outcome(sys.t, known, env, n, settings).value;
    CompletedAt(t2, known, outputs, elasticIds, result, settings, env.now(n), i);
    hide LocalStage, Outcome, AllCompleted, ElasticItems, Touched;
  }

  /** A delivered batch leaves its items COMPLETED, those of deleted jobs as well. */
  lemma DeliveredItems(sys: System, batch: seq<Item>, env: Env, n: nat, settings: Settings, i: nat)
    requires Distinct(Ids(batch)) && i < |batch| && Dispatch(sys, batch, env, n, settings).1.verdict == Delivered
    ensures var q' := Dispatch(sys, batch, env, n, settings).0.q;
            && batch[i].queueId in q'.items && q'.fifo == sys.q.fifo
            && q'.items[batch[i].queueId] == batch[i].(status := Completed, lastError := None)
  {
    var known, deleted := KnownItems(sys.t, batch), DeletedItems(sys.t, batch);
    var q1 := AfterCompleted(sys.q, deleted);
    SelectSplits(batch, MissingIds(sys.t, batch));
    SelectMembers(batch, MissingIds(sys.t, batch), true, batch[i]);
    SelectMembers(batch, MissingIds(sys.t, batch), false, batch[i]);
    SelectIds(batch, MissingIds(sys.t, batch), false, batch[i].queueId);
    CompletedLaw(sys.q, deleted);
    CompletedLaw(q1, known);
    hide LocalStage, Outcome, AfterCompleted;
  }

  lemma OthersOfFirst(known: seq<Item>, settings: Settings)
    requires DistinctJobs(known) && known != []
    ensures known[0].jobId !in JobIds(known[1..])
  {
    assert forall j :: 0 <= j < |known[1..]| ==> known[1..][j] == known[j + 1];
  }

  /** The local write of an item comes to pass: it is stored locally, and its write and those before it return. */
  predicate Written(known: seq<Item>, env: Env, n: nat, settings: Settings, i: nat)
    requires i < |known|
  {
    && StoresLocal(known[i], settings)
    && forall j :: 0 <= j <= i && StoresLocal(known[j], settings) ==> env.write(n, known[j].queueId).Ok?
  }

  lemma WrittenTail(known: seq<Item>, env: Env, n: nat, settings: Settings, i: nat)
    requires 0 < i < |known|
    ensures Written(known, env, n, settings, i)
            <==> Written(known[1..], env, n, settings, i - 1)
                 && (StoresLocal(known[0], settings) ==> env.write(n, known[0].queueId).Ok?)
  {
    assert forall j :: 1 <= j < |known| ==> known[j] == known[1..][j - 1];
    assert forall j :: 0 <= j < |known| - 1 ==> known[1..][j] == known[j + 1];
  }

  /** The local stage's effect on the first item's job. */
  lemma LocalStatusFirst(t: Repo.Tables, known: seq<Item>, env: Env, n: nat, settings: Settings)
    requires Repo.KeyedRows(t) && DistinctJobs(known) && known != [] && known[0].jobId in t.jobs
    ensures var (t', job) := (Stored(t, LocalItems(known, settings), env, n, settings).0, known[0].jobId);
            && job in t'.jobs
            && if Written(known, env, n, settings, 0)
               then t'.jobs[job].status == StoredLocal
                    && t'.jobs[job].outputs == Some(env.write(n, known[0].queueId).value)
               else t'.jobs[job] == t.jobs[job]
  {
    var head, rest := known[0], LocalItems(known[1..], settings);
    LocalItemsPart(known[1..], settings);
    OthersOfFirst(known, settings);
    if StoresLocal(head, settings) {
      assert ([head] + rest)[1..] == rest;
      if env.write(n, head.queueId).Ok? {
        var note := NO_NOTE.(outputs := Some(env.write(n, head.queueId).value));
        ItemStateTouches(t, head, StoredLocal, note, settings, env.now(n));
        StoredTouches(AfterItemState(t, head, StoredLocal, note, settings, env.now(n)), rest, env, n, settings);
      }
    } else {
      assert [] + rest == rest;
      StoredTouches(t, rest, env, n, settings);
    }
  }

  /**
   * What the job table shows between the two saves of a dispatch: a job is STORED_LOCAL with its new
   * outputs once its own local write and those before it in the batch have succeeded; otherwise the
   * local stage has left it alone.
   */
  lemma {:induction false} LocalStatus(t: Repo.Tables, known: seq<Item>, env: Env, n: nat, settings: Settings, i: nat)
    requires Repo.KeyedRows(t) && DistinctJobs(known) && i < |known| && known[i].jobId in t.jobs
    ensures var (t', job) := (Stored(t, LocalItems(known, settings), env, n, settings).0, known[i].jobId);
            && job in t'.jobs
            && if Written(known, env, n, settings, i)
               then t'.jobs[job].status == StoredLocal
                    && t'.jobs[job].outputs == Some(env.write(n, known[i].queueId).value)
               else t'.jobs[job] == t.jobs[job]
    decreases |known|
  {
    if i == 0 {
      LocalStatusFirst(t, known, env, n, settings);
    } else {
      var head, rest := known[0], LocalItems(known[1..], settings);
      WrittenTail(known, env, n, settings, i);
      hide Written, JobWithState;
      assert known[i] == known[1..][i - 1] && known[i].jobId != head.jobId;
      if !StoresLocal(head, settings) {
        assert [] + rest == rest;
        LocalStatus(t, known[1..], env, n, settings, i - 1);
      } else {
        assert ([head] + rest)[1..] == rest;
        if env.write(n, head.queueId).Ok? {
          var note := NO_NOTE.(outputs := Some(env.write(n, head.queueId).value));
          var t1 := AfterItemState(t, head, StoredLocal, note, settings, env.now(n));
          ItemStateTouches(t, head, StoredLocal, note, settings, env.now(n));
          LocalStatus(t1, known[1..], env, n, settings, i - 1);
        }
      }
    }
  }

  /** The stage as a whole: every job is DISPATCHING first, and then STORED_LOCAL if its write comes to pass. */
  lemma LocalStageLaw(t: Repo.Tables, known: seq<Item>, env: Env, n: nat, settings: Settings, i: nat)
    requires Repo.KeyedRows(t) && DistinctJobs(known) && i < |known| && known[i].jobId in t.jobs
    ensures var t' := LocalStage(t, known, env, n, settings).0;
            && known[i].jobId in t'.jobs
            && t'.jobs[known[i].jobId].status
               == if Written(known, env, n, settings, i) then StoredLocal else DispatchingJob
  {
    var t1 := AllStates(t, known, DispatchingJob, NO_NOTE, settings, env.now(n));
    AllStatesTouch(t, known, DispatchingJob, NO_NOTE, settings, env.now(n));
    assert known[i].jobId in JobIds(known);
    LocalStatus(t1, known, env, n, settings, i);
  }
}
