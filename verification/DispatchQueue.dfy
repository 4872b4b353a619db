/**
 * The process-local dispatch queue: a bounded FIFO of queue ids beside a table
 * of items and an index from job to item.  Removal is lazy: it drops the item
 * and its index entry and leaves the id in the FIFO as a tombstone.
 *
 * Each public method of the service runs under one lock, so each is one atomic
 * step.  The functions specify the steps on values; the class carries them out
 * in place.
 */
module DispatchQueue {
  import opened Wrappers
  import opened Sequences
  import opened JobModels

  datatype ItemStatus = Queued | Dispatching | Completed | Failed

  /** The part of a parse result that the queue and the dispatcher look at. */
  datatype Payload = Payload(
    documentId: string,
    recordCount: nat,
    payloadBytes: nat,
    requestedSinkMode: Option<SinkMode>)

  datatype Item = Item(
    queueId: string,
    jobId: string,
    payload: Payload,
    status: ItemStatus,
    attempts: nat,
    lastError: Option<string>)

  datatype QueueError = PayloadTooLarge | QueueFull

  datatype Limits = Limits(maxBulkSize: nat, maxSize: nat, maxPayloadBytes: Option<nat>)

  /** What the constructor accepts; it raises ValueError on anything else. */
  predicate ValidLimits(limits: Limits) {
    && 1 <= limits.maxBulkSize <= 5
    && 1 <= limits.maxSize
    && (limits.maxPayloadBytes.Some? ==> 1 <= limits.maxPayloadBytes.value)
  }

  datatype Queue = Queue(
    limits: Limits,
    fifo: seq<string>,
    items: map<string, Item>,
    jobIndex: map<string, string>)

  function Ids(batch: seq<Item>): (ids: seq<string>)
    ensures |ids| == |batch| && forall i :: 0 <= i < |ids| ==> ids[i] == batch[i].queueId
  {
    seq(|batch|, i requires 0 <= i < |batch| => batch[i].queueId)
  }

  /** The index points at items, as every step keeps it (QueueWorkers.Inv). */
  predicate Indexed(q: Queue) {
    forall j :: j in q.jobIndex ==> q.jobIndex[j] in q.items
  }

  predicate TooLarge(limits: Limits, payload: Payload) {
    limits.maxPayloadBytes.Some? && limits.maxPayloadBytes.value < payload.payloadBytes
  }

  function NewItem(jobId: string, payload: Payload, queueId: string): Item {
    Item(queueId, jobId, payload, Queued, 0, None)
  }

  function AfterEnqueue(q: Queue, jobId: string, payload: Payload, queueId: string): (Queue, Result<Item, QueueError>)
    requires Indexed(q)
  {
    if TooLarge(q.limits, payload) then (q, Err(PayloadTooLarge))
    else if jobId in q.jobIndex then (q, Ok(q.items[q.jobIndex[jobId]]))
    else if |q.fifo| >= q.limits.maxSize then (q, Err(QueueFull))
    else
      var item := NewItem(jobId, payload, queueId);
      (q.(fifo := q.fifo + [queueId],
          items := q.items[queueId := item],
          jobIndex := q.jobIndex[jobId := queueId]),
       Ok(item))
  }

  function AfterRemove(q: Queue, jobId: string): Queue {
    if jobId in q.jobIndex
    then q.(items := q.items - {q.jobIndex[jobId]}, jobIndex := q.jobIndex - {jobId})
    else q
  }

  predicate Live(items: map<string, Item>, id: string) {
    id in items && items[id].status == Queued
  }

  function Dispatched(item: Item): Item {
    item.(status := Dispatching, attempts := item.attempts + 1)
  }

  /** min(max_items or max_bulk_size, max_bulk_size); zero counts as "not given". */
  function BatchLimit(limits: Limits, maxItems: Option<int>): int {
    var asked := if maxItems.Some? && maxItems.value != 0 then maxItems.value else limits.maxBulkSize;
    Min(asked, limits.maxBulkSize)
  }

  /** Pops ids until `limit` live ones are taken, skipping the others. */
  function Take(q: Queue, limit: int): (Queue, seq<Item>)
    decreases |q.fifo|
  {
    if limit <= 0 || q.fifo == [] then (q, [])
    else
      var id := q.fifo[0];
      var popped := q.(fifo := q.fifo[1..]);
      if Live(q.items, id) then
        var item := Dispatched(q.items[id]);
        var (after, rest) := Take(popped.(items := q.items[id := item]), limit - 1);
        (after, [item] + rest)
      else
        Take(popped, limit)
  }

  /** The table after the items of a batch have been written to it one by one. */
  function PutAll(items: map<string, Item>, batch: seq<Item>): map<string, Item>
    decreases |batch|
  {
    if batch == [] then items
    else PutAll(items[batch[0].queueId := batch[0]], batch[1..])
  }

  function Completion(item: Item): Item {
    item.(status := Completed, lastError := None)
  }

  function Completions(batch: seq<Item>): (done: seq<Item>)
    ensures |done| == |batch| && forall i :: 0 <= i < |batch| ==> done[i] == Completion(batch[i])
  {
    seq(|batch|, i requires 0 <= i < |batch| => Completion(batch[i]))
  }

  function AfterCompleted(q: Queue, batch: seq<Item>): Queue {
    q.(items := PutAll(q.items, Completions(batch)))
  }

  function Failure(item: Item, error: string, retry: bool): Item {
    item.(status := if retry then Queued else Failed, lastError := Some(error))
  }

  /**
   * mark_batch_failed.  On a retry each id is put back with a blocking put
   * while the lock is held; a put into a full FIFO therefore never returns,
   * because nobody else can take the lock to make room.  None is that outcome.
   */
  function AfterFailed(q: Queue, batch: seq<Item>, error: string, retry: bool): (Queue, Option<seq<Item>>)
    decreases |batch|
  {
    if batch == [] then (q, Some([]))
    else
      var item := Failure(batch[0], error, retry);
      var marked := q.(items := q.items[item.queueId := item]);
      if retry && |q.fifo| >= q.limits.maxSize then (marked, None)
      else
        var put := if retry then marked.(fifo := q.fifo + [item.queueId]) else marked;
        var (after, rest) := AfterFailed(put, batch[1..], error, retry);
        (after, Prefixed([item], rest))
  }

  function Prefixed(done: seq<Item>, rest: Option<seq<Item>>): Option<seq<Item>> {
    if rest.None? then None else Some(done + rest.value)
  }

  /** any(item.attempts <= max_retries for item in batch) */
  predicate ShouldRetry(batch: seq<Item>, maxRetries: nat) {
    exists i :: 0 <= i < |batch| && batch[i].attempts <= maxRetries
  }

  /** The number of items with a status, as a snapshot reports it. */
  function CountStatus(items: map<string, Item>, status: ItemStatus): nat {
    |WithStatus(items, status)|
  }

  function WithStatus(items: map<string, Item>, status: ItemStatus): set<string> {
    set id | id in items && items[id].status == status
  }

  // ------------------------------------------------------------------ service

  class ParsedDocumentDispatchQueueService {
    const limits: Limits
    var fifo: seq<string>
    var items: map<string, Item>
    var jobIndex: map<string, string>

    function View(): Queue
      reads this
    {
      Queue(limits, fifo, items, jobIndex)
    }

    constructor (limits: Limits)
      requires 1 <= limits.maxBulkSize <= 5 && 1 <= limits.maxSize
      requires limits.maxPayloadBytes.Some? ==> 1 <= limits.maxPayloadBytes.value
      ensures ValidLimits(limits)
      ensures View() == Queue(limits, [], map[], map[])
    {
      this.limits := limits;
      fifo, items, jobIndex := [], map[], map[];
    }

    /** The queue id is a fresh uuid; a full FIFO rolls both table writes back. */
    method EnqueueParseResult(jobId: string, payload: Payload, queueId: string)
      returns (r: Result<Item, QueueError>)
      requires Indexed(View())
      requires queueId !in items
      modifies this
      ensures (View(), r) == AfterEnqueue(old(View()), jobId, payload, queueId)
      ensures r.Err? ==> View() == old(View())
    {
      if TooLarge(limits, payload) {
        return Err(PayloadTooLarge);
      }
      if jobId in jobIndex {
        return Ok(items[jobIndex[jobId]]);
      }
      var item := NewItem(jobId, payload, queueId);
      items := items[queueId := item];
      jobIndex := jobIndex[jobId := queueId];
      if |fifo| < limits.maxSize {
        fifo := fifo + [queueId];
        r := Ok(item);
      } else {
        items := items - {queueId};
        jobIndex := jobIndex - {jobId};
        assert items == old(items) && jobIndex == old(jobIndex);
        r := Err(QueueFull);
      }
    }

    method RemoveByJobId(jobId: string) returns (removed: bool)
      modifies this
      ensures View() == AfterRemove(old(View()), jobId)
      ensures removed == (jobId in old(jobIndex))
    {
      if jobId !in jobIndex {
        return false;
      }
      var queueId := jobIndex[jobId];
      jobIndex := jobIndex - {jobId};
      items := items - {queueId};
      removed := true;
    }

    method DequeueBatch(maxItems: Option<int>) returns (batch: seq<Item>)
      modifies this
      ensures (View(), batch)
           == Take(old(View()), if maxItems == None || maxItems == Some(0) then limits.maxBulkSize
                                else Min(maxItems.value, limits.maxBulkSize))
    {
      var limit := BatchLimit(limits, maxItems);
      batch := [];
      while |batch| < limit
        invariant 0 < limit ==> |batch| <= limit
        invariant Take(old(View()), limit).0 == Take(View(), limit - |batch|).0
        invariant Take(old(View()), limit).1 == batch + Take(View(), limit - |batch|).1
        decreases |fifo|, limit - |batch|
      {
        if fifo == [] {
          break;
        }
        var queueId := fifo[0];
        fifo := fifo[1..];
        if !Live(items, queueId) {
          continue;
        }
        var updated := Dispatched(items[queueId]);
        items := items[queueId := updated];
        ghost var was := batch;
        batch := batch + [updated];
        assert forall rest: seq<Item> :: was + ([updated] + rest) == batch + rest;
      }
      assert batch + [] == batch;
    }

    method MarkCompleted(batch: seq<Item>)
      modifies this
      ensures View() == AfterCompleted(old(View()), batch)
    {
      ghost var done := Completions(batch);
      assert done[0..] == done;
      for i := 0 to |batch|
        invariant View() == old(View()).(items := items)
        invariant PutAll(old(items), done) == PutAll(items, done[i..])
      {
        var updated := batch[i].(status := Completed, lastError := None);
        assert done[i..][1..] == done[i + 1..];
        items := items[updated.queueId := updated];
      }
      assert done[|batch|..] == [];
    }

    /** `None` stands for the call that never returns (see the function). */
    method MarkBatchFailed(batch: seq<Item>, error: string, retry: bool)
      returns (updated: Option<seq<Item>>)
      modifies this
      ensures (View(), updated) == AfterFailed(old(View()), batch, error, retry)
    {
      var done := [];
      assert batch[0..] == batch;
      assert forall rest: seq<Item> :: [] + rest == rest;
      for i := 0 to |batch|
        invariant View() == old(View()).(items := items, fifo := fifo)
        invariant |done| == i
        invariant AfterFailed(old(View()), batch, error, retry).0 == AfterFailed(View(), batch[i..], error, retry).0
        invariant AfterFailed(old(View()), batch, error, retry).1
               == Prefixed(done, AfterFailed(View(), batch[i..], error, retry).1)
      {
        var item := Failure(batch[i], error, retry);
        assert batch[i..][1..] == batch[i + 1..];
        var full := |fifo| >= limits.maxSize;
        items := items[item.queueId := item];
        if retry {
          if full {
            return None;
          }
          fifo := fifo + [item.queueId];
        }
        ghost var was := done;
        done := done + [item];
        assert forall rest: seq<Item> :: was + ([item] + rest) == done + rest;
      }
      assert batch[|batch|..] == [] && done + [] == done;
      updated := Some(done);
    }

    method Snapshot() returns (queued: nat, inFlight: nat, completed: nat, failed: nat)
      ensures queued == CountStatus(items, Queued) && inFlight == CountStatus(items, Dispatching)
      ensures completed == CountStatus(items, Completed) && failed == CountStatus(items, Failed)
      ensures queued + inFlight + completed + failed == |items|
    {
      queued, inFlight := CountStatus(items, Queued), CountStatus(items, Dispatching);
      completed, failed := CountStatus(items, Completed), CountStatus(items, Failed);
      CountsPartition(items);
    }
  }

  /** Every item is in exactly one of the four lists of a snapshot. */
  lemma CountsPartition(items: map<string, Item>)
    ensures CountStatus(items, Queued) + CountStatus(items, Dispatching)
            + CountStatus(items, Completed) + CountStatus(items, Failed) == |items|
  {
    FourWaySplit(items.Keys,
                 WithStatus(items, Queued), WithStatus(items, Dispatching),
                 WithStatus(items, Completed), WithStatus(items, Failed));
  }

  lemma FourWaySplit<T>(all: set<T>, a: set<T>, b: set<T>, c: set<T>, d: set<T>)
    requires a !! b !! c !! d
    requires forall x :: x in all <==> x in a || x in b || x in c || x in d
    ensures |all| == |a| + |b| + |c| + |d|
  {
    assert all == a + b + c + d;
  }
}
