/**
 * What the loops of the dispatch queue amount to.  `Pending` is the queue a
 * caller has in mind: the FIFO without its tombstones.
 */
module QueueLaws {
  import opened Wrappers
  import opened Sequences
  import opened DispatchQueue

  function Pending(fifo: seq<string>, items: map<string, Item>): seq<string> {
    if fifo == [] then []
    else (if Live(items, fifo[0]) then [fifo[0]] else []) + Pending(fifo[1..], items)
  }

  function PendingOf(q: Queue): seq<string> { Pending(q.fifo, q.items) }

  function Without(ids: seq<string>, id: string): seq<string> {
    if ids == [] then []
    else (if ids[0] == id then [] else [ids[0]]) + Without(ids[1..], id)
  }

  /** The state of the queue on its own, whoever holds batches. */
  ghost predicate WellFormed(q: Queue) {
    && Distinct(q.fifo)
    && |q.fifo| <= q.limits.maxSize
    && (forall id :: id in q.items ==> q.items[id].queueId == id)
    && (forall id :: id in q.items && id in q.fifo ==> q.items[id].status == Queued)
    && (forall id :: id in q.items && q.items[id].status == Queued ==> id in q.fifo)
    && (forall j :: j in q.jobIndex ==> q.jobIndex[j] in q.items && q.items[q.jobIndex[j]].jobId == j)
  }

  // ------------------------------------------------------------------ Pending

  lemma {:induction false} PendingMember(fifo: seq<string>, items: map<string, Item>, id: string)
    ensures id in Pending(fifo, items) <==> id in fifo && Live(items, id)
  {
    if fifo != [] {
      PendingMember(fifo[1..], items, id);
      assert fifo == [fifo[0]] + fifo[1..];
    }
  }

  lemma {:induction false} PendingFrame(fifo: seq<string>, items: map<string, Item>, items': map<string, Item>)
    requires forall id :: id in fifo ==> (Live(items, id) <==> Live(items', id))
    ensures Pending(fifo, items) == Pending(fifo, items')
  {
    if fifo != [] {
      PendingFrame(fifo[1..], items, items');
    }
  }

  lemma {:induction false} PendingAppend(fifo: seq<string>, id: string, items: map<string, Item>)
    ensures Pending(fifo + [id], items) == Pending(fifo, items) + if Live(items, id) then [id] else []
  {
    if fifo == [] {
      assert [] + [id] == [id] && [id][1..] == [];
    } else {
      PendingAppend(fifo[1..], id, items);
      assert (fifo + [id])[1..] == fifo[1..] + [id];
    }
  }

  /** Appending live ids to the FIFO appends them to the pending sequence. */
  lemma {:induction false} PendingAppendAll(fifo: seq<string>, ids: seq<string>, items: map<string, Item>)
    requires forall id :: id in ids ==> Live(items, id)
    ensures Pending(fifo + ids, items) == Pending(fifo, items) + ids
    decreases |ids|
  {
    if ids == [] {
      assert fifo + ids == fifo;
    } else {
      var n := |ids| - 1;
      PendingAppendAll(fifo, ids[..n], items);
      PendingAppend(fifo + ids[..n], ids[n], items);
      assert ids == ids[..n] + [ids[n]];
      assert fifo + ids == (fifo + ids[..n]) + [ids[n]];
    }
  }

  lemma {:induction false} PendingSize(fifo: seq<string>, items: map<string, Item>)
    ensures |Pending(fifo, items)| <= |fifo|
  {
    if fifo != [] {
      PendingSize(fifo[1..], items);
    }
  }

  lemma {:induction false} PendingDistinct(fifo: seq<string>, items: map<string, Item>)
    requires Distinct(fifo)
    ensures Distinct(Pending(fifo, items))
  {
    if fifo != [] {
      PendingDistinct(fifo[1..], items);
      PendingMember(fifo[1..], items, fifo[0]);
      assert fifo == [fifo[0]] + fifo[1..];
    }
  }

  /** Dropping an item deletes its id from the middle of the pending sequence. */
  lemma {:induction false} PendingDrop(fifo: seq<string>, items: map<string, Item>, id: string)
    ensures Pending(fifo, items - {id}) == Without(Pending(fifo, items), id)
  {
    if fifo != [] {
      PendingDrop(fifo[1..], items, id);
      var rest := Pending(fifo[1..], items);
      if Live(items, fifo[0]) {
        assert ([fifo[0]] + rest)[1..] == rest;
      } else {
        assert [] + rest == rest;
      }
    }
  }

  lemma {:induction false} WithoutAbsent(ids: seq<string>, id: string)
    requires id !in ids
    ensures Without(ids, id) == ids
  {
    if ids != [] {
      WithoutAbsent(ids[1..], id);
    }
  }

  /** Deleting from a duplicate-free sequence closes the gap and nothing else. */
  lemma {:induction false} WithoutMiddle(ids: seq<string>, k: nat)
    requires k < |ids| && Distinct(ids)
    ensures Without(ids, ids[k]) == ids[..k] + ids[k + 1..]
  {
    if k == 0 {
      WithoutAbsent(ids[1..], ids[0]);
    } else {
      WithoutMiddle(ids[1..], k - 1);
      assert ids[1..][..k - 1] == ids[1..k] && ids[1..][k..] == ids[k + 1..];
      assert ids[..k] == [ids[0]] + ids[1..k];
    }
  }

  // ------------------------------------------------------- enqueue and remove

  /**
   * What enqueue_parse_result does.  It refuses a payload above the limit, and a new job
   * when the FIFO is full; it returns the item of a job it knows; in any other case the job gets
   * an untried QUEUED item with the payload handed over, at the end of the queue.
   */
  lemma EnqueueLaw(q: Queue, jobId: string, payload: Payload, queueId: string)
    requires WellFormed(q) && queueId !in q.items && queueId !in q.fifo
    ensures var (after, r) := AfterEnqueue(q, jobId, payload, queueId);
            var large := q.limits.maxPayloadBytes.Some? && payload.payloadBytes > q.limits.maxPayloadBytes.value;
            var full := |q.fifo| == q.limits.maxSize;
            if large then after == q && r == Err(PayloadTooLarge)
            else if jobId in q.jobIndex then after == q && r == Ok(q.items[q.jobIndex[jobId]])
            else if full then after == q && r == Err(QueueFull)
            else
              && r == Ok(Item(queueId, jobId, payload, Queued, 0, None))
              && after.limits == q.limits && after.fifo == q.fifo + [queueId]
              && after.items == q.items[queueId := r.value]
              && after.jobIndex == q.jobIndex[jobId := queueId]
              && PendingOf(after) == PendingOf(q) + [queueId]
  {
    var after := AfterEnqueue(q, jobId, payload, queueId).0;
    if after != q {
      PendingAppend(q.fifo, queueId, after.items);
      PendingFrame(q.fifo, q.items, after.items);
    }
  }

  lemma EnqueueWellFormed(q: Queue, jobId: string, payload: Payload, queueId: string)
    requires WellFormed(q) && queueId !in q.items && queueId !in q.fifo
    ensures WellFormed(AfterEnqueue(q, jobId, payload, queueId).0)
    ensures AfterEnqueue(q, jobId, payload, queueId).0.limits == q.limits
  {
    DistinctAppend(q.fifo, [queueId]);
  }

  /** What remove_by_job_id does: item and index entry go, the FIFO keeps the id, and nothing else changes. */
  lemma RemoveLaw(q: Queue, jobId: string)
    requires WellFormed(q)
    ensures var after := AfterRemove(q, jobId);
            && after.fifo == q.fifo && after.limits == q.limits
            && (forall j :: j in after.jobIndex <==> j in q.jobIndex && j != jobId)
            && (forall j :: j in after.jobIndex ==> after.jobIndex[j] == q.jobIndex[j])
            && (forall id :: id in after.items <==>
                  id in q.items && !(jobId in q.jobIndex && q.jobIndex[jobId] == id))
            && (forall id :: id in after.items ==> after.items[id] == q.items[id])
            && (forall id :: id in PendingOf(after) <==>
                  id in PendingOf(q) && !(jobId in q.jobIndex && q.jobIndex[jobId] == id))
  {
    var after := AfterRemove(q, jobId);
    forall id
      ensures id in PendingOf(after) <==> id in q.fifo && Live(after.items, id)
      ensures id in PendingOf(q) <==> id in q.fifo && Live(q.items, id)
    {
      PendingMember(q.fifo, after.items, id);
      PendingMember(q.fifo, q.items, id);
    }
  }

  // ------------------------------------------------------------------ dequeue

  /** How far into the pending sequence a dequeue reaches. */
  function Reach(q: Queue, limit: int): (m: nat)
    ensures m <= |PendingOf(q)|
  {
    Min(Max(limit, 0), |PendingOf(q)|)
  }

  ghost predicate Took(q: Queue, limit: int, after: Queue, batch: seq<Item>) {
    var m := Reach(q, limit);
    && Ids(batch) == PendingOf(q)[..m]
    && PendingOf(after) == PendingOf(q)[m..]
    && after == q.(fifo := after.fifo, items := after.items)
    && after.items.Keys == q.items.Keys
    && (forall i :: 0 <= i < |batch| ==>
          && batch[i].queueId in q.items
          && batch[i] == Dispatched(q.items[batch[i].queueId])
          && after.items[batch[i].queueId] == batch[i])
    && (forall id :: id in q.items && id !in Ids(batch) ==> after.items[id] == q.items[id])
    && |after.fifo| <= |q.fifo| && after.fifo == q.fifo[|q.fifo| - |after.fifo|..]
    && |after.fifo| + |batch| <= |q.fifo|
  }

  /** A dequeue takes exactly the first pending ids, in order, each dispatched once more. */
  lemma {:induction false} TakeLaw(q: Queue, limit: int)
    requires WellFormed(q)
    ensures WellFormed(Take(q, limit).0)
    ensures Took(q, limit, Take(q, limit).0, Take(q, limit).1)
    decreases |q.fifo|
  {
    if limit <= 0 || q.fifo == [] {
      assert q.fifo[0..] == q.fifo;
    } else if Live(q.items, q.fifo[0]) {
      hide *;
      TakeLiveStep(q, limit);
    } else {
      hide Took, WellFormed, PendingOf, Live;
      var next := q.(fifo := q.fifo[1..]);
      SkipTombstone(q);
      TakeLaw(next, limit);
      assert Take(q, limit) == Take(next, limit) by {
        TakeSkips(q, limit);
      }
      TookAfterSkip(q, limit, Take(next, limit).0, Take(next, limit).1);
    }
  }

  lemma TakeSkips(q: Queue, limit: int)
    requires 0 < limit && q.fifo != [] && !Live(q.items, q.fifo[0])
    ensures Take(q, limit) == Take(q.(fifo := q.fifo[1..]), limit)
  {
  }

  lemma TookAfterSkip(q: Queue, limit: int, after: Queue, batch: seq<Item>)
    requires q.fifo != [] && PendingOf(q) == PendingOf(q.(fifo := q.fifo[1..]))
    requires Took(q.(fifo := q.fifo[1..]), limit, after, batch)
    ensures Took(q, limit, after, batch)
  {
    hide PendingOf;
    var rest := q.fifo[1..];
    assert rest[|rest| - |after.fifo|..] == q.fifo[|q.fifo| - |after.fifo|..];
  }

  /**
   * How much dequeue_batch returns: asked for k items, the first min(k, bulk size, pending) pending
   * ids; asked for none in particular, or for 0, as many as bulk size and queue allow.
   */
  lemma DequeueLaw(q: Queue, maxItems: Option<int>)
    requires WellFormed(q) && ValidLimits(q.limits)
    ensures var (after, batch) := Take(q, BatchLimit(q.limits, maxItems));
            var (pending, bulk) := (PendingOf(q), q.limits.maxBulkSize);
            && (maxItems.Some? && 1 <= maxItems.value ==>
                  Ids(batch) == pending[..Min(Min(maxItems.value, bulk), |pending|)])
            && (maxItems == None || maxItems == Some(0) ==> Ids(batch) == pending[..Min(bulk, |pending|)])
            && (maxItems.Some? && maxItems.value < 0 ==> batch == [])
            && PendingOf(after) == pending[|batch|..]
  {
    TakeLaw(q, BatchLimit(q.limits, maxItems));
    hide Take, PendingOf, WellFormed;
    assert |Ids(Take(q, BatchLimit(q.limits, maxItems)).1)| == Reach(q, BatchLimit(q.limits, maxItems));
  }

  /** What becomes of the items: those taken are DISPATCHING with one more attempt, and no other changes. */
  lemma DequeuedItems(q: Queue, limit: int)
    requires WellFormed(q)
    ensures var (after, batch) := Take(q, limit);
            && after.jobIndex == q.jobIndex && after.limits == q.limits && after.items.Keys == q.items.Keys
            && (forall item :: item in batch ==>
                  && item.queueId in q.items && after.items[item.queueId] == item
                  && item == q.items[item.queueId].(
                       status := Dispatching, attempts := q.items[item.queueId].attempts + 1))
            && (forall id :: id in q.items && id !in Ids(batch) ==> after.items[id] == q.items[id])
  {
    TakeLaw(q, limit);
    hide Take, PendingOf, WellFormed;
  }

  /** In a well-formed queue a head that is not live is a tombstone; popping it changes nothing else. */
  lemma SkipTombstone(q: Queue)
    requires WellFormed(q) && q.fifo != [] && !Live(q.items, q.fifo[0])
    ensures q.fifo[0] !in q.items
    ensures WellFormed(q.(fifo := q.fifo[1..]))
    ensures PendingOf(q) == PendingOf(q.(fifo := q.fifo[1..]))
  {
    assert q.fifo == [q.fifo[0]] + q.fifo[1..];
  }

  /** The queue after the live head has been taken. */
  function HeadTaken(q: Queue): Queue
    requires q.fifo != [] && q.fifo[0] in q.items
  {
    q.(fifo := q.fifo[1..], items := q.items[q.fifo[0] := Dispatched(q.items[q.fifo[0]])])
  }

  lemma HeadTakenLaw(q: Queue)
    requires WellFormed(q) && q.fifo != [] && Live(q.items, q.fifo[0])
    ensures WellFormed(HeadTaken(q))
    ensures PendingOf(q) == [q.fifo[0]] + PendingOf(HeadTaken(q))
    ensures q.fifo[0] !in PendingOf(HeadTaken(q))
  {
    var id := q.fifo[0];
    var next := HeadTaken(q);
    assert q.fifo == [id] + next.fifo;
    assert id !in next.fifo;
    PendingFrame(next.fifo, q.items, next.items);
    PendingMember(next.fifo, next.items, id);
  }

  lemma {:induction false} TakeLiveStep(q: Queue, limit: int)
    requires WellFormed(q) && 0 < limit && q.fifo != [] && Live(q.items, q.fifo[0])
    ensures WellFormed(Take(q, limit).0)
    ensures Took(q, limit, Take(q, limit).0, Take(q, limit).1)
    decreases |q.fifo|, 0
  {
    var next := HeadTaken(q);
    HeadTakenLaw(q);
    TakeLaw(next, limit - 1);
    TookHead(q, limit, Take(next, limit - 1).0, Take(next, limit - 1).1);
  }

  lemma TookHead(q: Queue, limit: int, after: Queue, rest: seq<Item>)
    requires 0 < limit && q.fifo != [] && Live(q.items, q.fifo[0])
    requires q.items[q.fifo[0]].queueId == q.fifo[0]
    requires PendingOf(q) == [q.fifo[0]] + PendingOf(HeadTaken(q))
    requires q.fifo[0] !in PendingOf(HeadTaken(q))
    requires Took(HeadTaken(q), limit - 1, after, rest)
    ensures Took(q, limit, after, [Dispatched(q.items[q.fifo[0]])] + rest)
  {
    var id := q.fifo[0];
    var item := Dispatched(q.items[id]);
    var next := HeadTaken(q);
    var batch := [item] + rest;
    var m := Reach(next, limit - 1);
    assert Reach(q, limit) == m + 1;
    assert Ids(batch) == [id] + Ids(rest);
    assert id !in Ids(rest) by {
      assert forall x :: x in Ids(rest) ==> x in PendingOf(next);
    }
    assert Ids(batch) == PendingOf(q)[..m + 1];
    assert PendingOf(after) == PendingOf(q)[m + 1..];
    assert after.items.Keys == q.items.Keys;
    forall i | 0 <= i < |batch|
      ensures batch[i].queueId in q.items
      ensures batch[i] == Dispatched(q.items[batch[i].queueId])
      ensures after.items[batch[i].queueId] == batch[i]
    {
      if 0 < i {
        assert batch[i] == rest[i - 1];
        assert Ids(rest)[i - 1] == batch[i].queueId;
      }
    }
  }

  // ------------------------------------------------------- settling a batch

  lemma {:induction false} PutAllLaw(items: map<string, Item>, batch: seq<Item>)
    requires Distinct(Ids(batch))
    ensures PutAll(items, batch).Keys == items.Keys + Elements(Ids(batch))
    ensures forall i :: 0 <= i < |batch| ==> PutAll(items, batch)[batch[i].queueId] == batch[i]
    ensures forall id :: id in items && id !in Ids(batch) ==> PutAll(items, batch)[id] == items[id]
    decreases |batch|
  {
    if batch != [] {
      IdsTail(batch);
      PutAllLaw(items[batch[0].queueId := batch[0]], batch[1..]);
      forall i | 0 <= i < |batch|
        ensures PutAll(items, batch)[batch[i].queueId] == batch[i]
      {
        if 0 < i {
          assert batch[i] == batch[1..][i - 1];
        }
      }
    }
  }

  lemma IdsTail(batch: seq<Item>)
    requires batch != [] && Distinct(Ids(batch))
    ensures Ids(batch) == [batch[0].queueId] + Ids(batch[1..])
    ensures Distinct(Ids(batch[1..])) && batch[0].queueId !in Ids(batch[1..])
  {
    assert Ids(batch[1..]) == Ids(batch)[1..];
    assert Ids(batch)[0] == batch[0].queueId;
  }

  lemma CompletedLaw(q: Queue, batch: seq<Item>)
    requires Distinct(Ids(batch))
    ensures var items := AfterCompleted(q, batch).items;
            && items.Keys == q.items.Keys + Elements(Ids(batch))
            && (forall i :: 0 <= i < |batch| ==>
                  items[batch[i].queueId] == batch[i].(status := Completed, lastError := None))
            && (forall id :: id in q.items && id !in Ids(batch) ==> items[id] == q.items[id])
  {
    var done := Completions(batch);
    assert Ids(done) == Ids(batch);
    PutAllLaw(q.items, done);
    forall i | 0 <= i < |batch|
      ensures AfterCompleted(q, batch).items[batch[i].queueId] == Completion(batch[i])
    {
      assert PutAll(q.items, done)[done[i].queueId] == done[i];
    }
  }

  function Failures(batch: seq<Item>, error: string, retry: bool): (failed: seq<Item>)
    ensures |failed| == |batch| && forall i :: 0 <= i < |batch| ==> failed[i] == Failure(batch[i], error, retry)
  {
    seq(|batch|, i requires 0 <= i < |batch| => Failure(batch[i], error, retry))
  }

  /** mark_batch_failed returns exactly when the FIFO has room for the whole batch. */
  lemma {:induction false} FailedReturns(q: Queue, batch: seq<Item>, error: string, retry: bool)
    requires |q.fifo| <= q.limits.maxSize
    ensures AfterFailed(q, batch, error, retry).1.Some?
            <==> (retry ==> |q.fifo| + |batch| <= q.limits.maxSize)
    decreases |batch|
  {
    if batch != [] && !(retry && |q.fifo| >= q.limits.maxSize) {
      var item := Failure(batch[0], error, retry);
      var marked := q.(items := q.items[item.queueId := item]);
      FailedReturns(if retry then marked.(fifo := q.fifo + [item.queueId]) else marked, batch[1..], error, retry);
    }
  }

  /** When it returns, the table holds the verdicts and a retry has appended the ids in order. */
  lemma {:induction false} FailedClosed(q: Queue, batch: seq<Item>, error: string, retry: bool)
    requires retry ==> |q.fifo| + |batch| <= q.limits.maxSize
    ensures AfterFailed(q, batch, error, retry)
         == (q.(fifo := q.fifo + (if retry then Ids(batch) else []),
                items := PutAll(q.items, Failures(batch, error, retry))),
             Some(Failures(batch, error, retry)))
    decreases |batch|
  {
    var failed := Failures(batch, error, retry);
    if batch == [] {
      assert q.fifo + [] == q.fifo;
    } else {
      var item := failed[0];
      var marked := q.(items := q.items[item.queueId := item]);
      var put := if retry then marked.(fifo := q.fifo + [item.queueId]) else marked;
      FailedClosed(put, batch[1..], error, retry);
      FailedHead(q, batch, error, retry);
      assert (q.fifo + [item.queueId]) + Ids(batch[1..]) == q.fifo + ([item.queueId] + Ids(batch[1..]));
    }
  }

  lemma FailedHead(q: Queue, batch: seq<Item>, error: string, retry: bool)
    requires batch != []
    ensures var failed := Failures(batch, error, retry);
            && failed[1..] == Failures(batch[1..], error, retry) && failed == [failed[0]] + failed[1..]
            && failed[0] == Failure(batch[0], error, retry)
            && Ids(batch) == [failed[0].queueId] + Ids(batch[1..])
            && PutAll(q.items, failed) == PutAll(q.items[failed[0].queueId := failed[0]], failed[1..])
  {
    var failed := Failures(batch, error, retry);
    hide PutAll;
    assert failed[1..] == Failures(batch[1..], error, retry);
    assert Ids(batch)[1..] == Ids(batch[1..]);
    PutAllHead(q.items, failed);
    hide *;
  }

  lemma PutAllHead(items: map<string, Item>, batch: seq<Item>)
    requires batch != []
    ensures PutAll(items, batch) == PutAll(items[batch[0].queueId := batch[0]], batch[1..])
  {
  }

  lemma FailedLaw(q: Queue, batch: seq<Item>, error: string, retry: bool)
    requires Distinct(Ids(batch))
    requires retry ==> |q.fifo| + |batch| <= q.limits.maxSize
    ensures var (after, updated) := AfterFailed(q, batch, error, retry);
            && updated == Some(Failures(batch, error, retry))
            && after == q.(fifo := q.fifo + (if retry then Ids(batch) else []), items := after.items)
            && after.items.Keys == q.items.Keys + Elements(Ids(batch))
            && (forall i :: 0 <= i < |batch| ==>
                  after.items[batch[i].queueId]
                  == batch[i].(status := if retry then Queued else Failed, lastError := Some(error)))
            && (forall id :: id in q.items && id !in Ids(batch) ==> after.items[id] == q.items[id])
  {
    var failed := Failures(batch, error, retry);
    FailedClosed(q, batch, error, retry);
    assert Ids(failed) == Ids(batch);
    PutAllLaw(q.items, failed);
    forall i | 0 <= i < |batch|
      ensures PutAll(q.items, failed)[batch[i].queueId] == Failure(batch[i], error, retry)
    {
      assert PutAll(q.items, failed)[failed[i].queueId] == failed[i];
    }
  }

  lemma {:induction false} BlockedClosed(q: Queue, batch: seq<Item>, error: string)
    requires |q.fifo| <= q.limits.maxSize < |q.fifo| + |batch|
    ensures var room := q.limits.maxSize - |q.fifo|;
            AfterFailed(q, batch, error, true)
            == (q.(fifo := q.fifo + Ids(batch[..room]),
                   items := PutAll(q.items, Failures(batch[..room + 1], error, true))),
                None)
    decreases |batch|
  {
    var room := q.limits.maxSize - |q.fifo|;
    var front := batch[..room + 1];
    FailedHead(q, front, error, true);
    if room == 0 {
      assert q.fifo + Ids([]) == q.fifo && Failures(front[1..], error, true) == [];
    } else {
      var put := q.(fifo := q.fifo + [batch[0].queueId],
                    items := q.items[batch[0].queueId := Failure(batch[0], error, true)]);
      BlockedClosed(put, batch[1..], error);
      assert batch[1..][..room] == front[1..];
      assert Ids(batch[..room]) == [batch[0].queueId] + Ids(batch[1..][..room - 1]);
      assert put.fifo + Ids(batch[1..][..room - 1]) == q.fifo + Ids(batch[..room]);
    }
  }

  /**
   * When it does not return, the FIFO has been filled with the first ids of the batch, and
   * the item it blocks on, like those before it, is already marked QUEUED in the table.
   */
  lemma BlockedLaw(q: Queue, batch: seq<Item>, error: string)
    requires Distinct(Ids(batch)) && |q.fifo| <= q.limits.maxSize < |q.fifo| + |batch|
    ensures var ((after, updated), room) := (AfterFailed(q, batch, error, true), q.limits.maxSize - |q.fifo|);
            && updated == None && after == q.(fifo := q.fifo + Ids(batch[..room]), items := after.items)
            && after.items.Keys == q.items.Keys + Elements(Ids(batch[..room + 1]))
            && (forall i :: 0 <= i <= room ==>
                  after.items[batch[i].queueId] == batch[i].(status := Queued, lastError := Some(error)))
            && (forall id :: id in q.items && id !in Ids(batch[..room + 1]) ==> after.items[id] == q.items[id])
  {
    var front := batch[..q.limits.maxSize - |q.fifo| + 1];
    assert Ids(front) == Ids(batch)[..|front|];
    BlockedClosed(q, batch, error);
    MarkedItems(q.items, front, error);
    hide PutAll, AfterFailed, Failures;
    assert forall i :: 0 <= i < |front| ==> front[i] == batch[i];
  }

  lemma MarkedItems(items: map<string, Item>, batch: seq<Item>, error: string)
    requires Distinct(Ids(batch))
    ensures var after := PutAll(items, Failures(batch, error, true));
            && after.Keys == items.Keys + Elements(Ids(batch))
            && (forall i :: 0 <= i < |batch| ==>
                  after[batch[i].queueId] == batch[i].(status := Queued, lastError := Some(error)))
            && (forall id :: id in items && id !in Ids(batch) ==> after[id] == items[id])
  {
    var failed := Failures(batch, error, true);
    assert Ids(failed) == Ids(batch);
    PutAllLaw(items, failed);
    hide PutAll;
    forall i | 0 <= i < |batch|
      ensures PutAll(items, failed)[batch[i].queueId] == Failure(batch[i], error, true)
    {
      assert PutAll(items, failed)[failed[i].queueId] == failed[i];
    }
  }

  // ----------------------------------------------------------- parts of a batch

  function Select(batch: seq<Item>, ids: set<string>, inside: bool): seq<Item> {
    if batch == [] then []
    else (if (batch[0].queueId in ids) == inside then [batch[0]] else []) + Select(batch[1..], ids, inside)
  }

  lemma {:induction false} SelectMembers(batch: seq<Item>, ids: set<string>, inside: bool, item: Item)
    ensures item in Select(batch, ids, inside) <==> item in batch && (item.queueId in ids) == inside
  {
    if batch != [] {
      SelectMembers(batch[1..], ids, inside, item);
      assert item in batch <==> item == batch[0] || item in batch[1..];
    }
  }

  lemma IdsMember(batch: seq<Item>, id: string)
    ensures id in Ids(batch) <==> exists item :: item in batch && item.queueId == id
  {
    if id in Ids(batch) {
      var i :| 0 <= i < |batch| && Ids(batch)[i] == id;
      assert batch[i] in batch;
    }
    if item :| item in batch && item.queueId == id {
      var i :| 0 <= i < |batch| && batch[i] == item;
      assert Ids(batch)[i] == id;
    }
  }

  lemma SelectIds(batch: seq<Item>, ids: set<string>, inside: bool, id: string)
    ensures id in Ids(Select(batch, ids, inside)) <==> id in Ids(batch) && (id in ids) == inside
  {
    var part := Select(batch, ids, inside);
    IdsMember(batch, id);
    IdsMember(part, id);
    forall item: Item ensures item in part <==> item in batch && (item.queueId in ids) == inside {
      SelectMembers(batch, ids, inside, item);
    }
  }

  lemma {:induction false} SelectDistinct(batch: seq<Item>, ids: set<string>, inside: bool)
    requires Distinct(Ids(batch))
    ensures Distinct(Ids(Select(batch, ids, inside)))
    ensures |Select(batch, ids, inside)| <= |batch|
  {
    if batch != [] {
      IdsTail(batch);
      SelectDistinct(batch[1..], ids, inside);
      var rest := Select(batch[1..], ids, inside);
      SelectIds(batch[1..], ids, inside, batch[0].queueId);
      if (batch[0].queueId in ids) == inside {
        assert Ids([batch[0]] + rest) == [batch[0].queueId] + Ids(rest);
      } else {
        assert [] + rest == rest;
      }
    }
  }

  /** A batch falls into the selected part and the rest. */
  lemma SelectSplits(batch: seq<Item>, ids: set<string>)
    requires Distinct(Ids(batch))
    ensures var done, keep := Select(batch, ids, true), Select(batch, ids, false);
            && Distinct(Ids(done)) && Distinct(Ids(keep)) && |keep| <= |batch|
            && (forall id :: id in Ids(batch) <==> id in Ids(done) || id in Ids(keep))
            && (forall id :: id in Ids(done) ==> id !in Ids(keep))
            && (forall i :: 0 <= i < |keep| ==> keep[i] in batch)
            && (forall i :: 0 <= i < |done| ==> done[i] in batch)
  {
    var done, keep := Select(batch, ids, true), Select(batch, ids, false);
    SelectDistinct(batch, ids, true);
    SelectDistinct(batch, ids, false);
    forall id: string
      ensures id in Ids(done) <==> id in Ids(batch) && id in ids
      ensures id in Ids(keep) <==> id in Ids(batch) && id !in ids
    {
      SelectIds(batch, ids, true, id);
      SelectIds(batch, ids, false, id);
    }
    forall item: Item
      ensures item in done || item in keep ==> item in batch
    {
      SelectMembers(batch, ids, true, item);
      SelectMembers(batch, ids, false, item);
    }
  }

  function Outside(ids: seq<string>, drop: set<string>): seq<string> {
    if ids == [] then []
    else (if ids[0] in drop then [] else [ids[0]]) + Outside(ids[1..], drop)
  }

  lemma {:induction false} KeptIds(batch: seq<Item>, ids: set<string>)
    ensures Ids(Select(batch, ids, false)) == Outside(Ids(batch), ids)
  {
    if batch != [] {
      KeptIds(batch[1..], ids);
      var rest := Select(batch[1..], ids, false);
      assert Ids(batch) == [batch[0].queueId] + Ids(batch[1..]);
      assert Ids([batch[0]] + rest) == [batch[0].queueId] + Ids(rest);
      assert [] + rest == rest;
    }
  }
}
