/**
 * Any number of dispatcher threads, one enqueuing side and one removing side
 * share the dispatch queue.  Every queue method runs under the lock, so a run
 * is a sequence of atomic steps in any order.
 */
module QueueWorkers {
  import opened Wrappers
  import opened Sequences
  import opened DispatchQueue
  import opened QueueLaws

  /**
   * `held[a]` is the batch thread `a` has dequeued and not yet settled.  `used`
   * and `dequeues` are history: the queue ids ever drawn, and how often each
   * was dequeued.  `stuck` says that a put blocked while the lock was held.
   */
  datatype World = World(
    q: Queue,
    held: seq<seq<Item>>,
    used: set<string>,
    dequeues: multiset<string>,
    stuck: bool)

  datatype Step =
    | EnqueueStep(jobId: string, payload: Payload, queueId: string)
    | RemoveStep(jobId: string)
    | DequeueStep(worker: nat, maxItems: Option<int>)
      // the items of deleted jobs first, the others after a successful dispatch
    | CompleteStep(worker: nat, ids: set<string>)
    | FailStep(worker: nat, error: string)

  ghost predicate Next(w: World, step: Step, w': World, maxRetries: nat) {
    && !w.stuck
    && Indexed(w.q)
    && match step
       case EnqueueStep(jobId, payload, queueId) =>
         && queueId !in w.used
         && w' == w.(q := AfterEnqueue(w.q, jobId, payload, queueId).0, used := w.used + {queueId})
       case RemoveStep(jobId) =>
         w' == w.(q := AfterRemove(w.q, jobId))
       case DequeueStep(a, maxItems) =>
         && a < |w.held| && w.held[a] == []
         && var (q, batch) := Take(w.q, BatchLimit(w.q.limits, maxItems));
            w' == w.(q := q, held := w.held[a := batch], dequeues := w.dequeues + multiset(Ids(batch)))
       case CompleteStep(a, ids) =>
         && a < |w.held|
         && w' == w.(q := AfterCompleted(w.q, Select(w.held[a], ids, true)),
                     held := w.held[a := Select(w.held[a], ids, false)])
       case FailStep(a, error) =>
         && a < |w.held|
         && var (q, updated) := AfterFailed(w.q, w.held[a], error, ShouldRetry(w.held[a], maxRetries));
            w' == if updated.None? then w.(q := q, stuck := true) else w.(q := q, held := w.held[a := []])
  }

  ghost predicate Init(w: World) {
    && ValidLimits(w.q.limits)
    && w.q == Queue(w.q.limits, [], map[], map[])
    && (forall a :: 0 <= a < |w.held| ==> w.held[a] == [])
    && w.used == {} && w.dequeues == multiset{}
    && !w.stuck
  }

  ghost predicate Run(worlds: seq<World>, steps: seq<Step>, maxRetries: nat) {
    && |worlds| == |steps| + 1
    && Init(worlds[0])
    && forall i :: 0 <= i < |steps| ==> Next(worlds[i], steps[i], worlds[i + 1], maxRetries)
  }

  // ---------------------------------------------------------------- invariant

  predicate Holds(held: seq<seq<Item>>, a: int, id: string) {
    0 <= a < |held| && id in Ids(held[a])
  }

  /** The batches in the threads' hands: disjoint, out of the FIFO, and true copies of the table. */
  ghost predicate HeldInv(w: World) {
    && (forall a :: 0 <= a < |w.held| ==> Distinct(Ids(w.held[a])) && |w.held[a]| <= w.q.limits.maxBulkSize)
    && (forall a, b, id :: Holds(w.held, a, id) && Holds(w.held, b, id) ==> a == b)
    && (forall a, id :: Holds(w.held, a, id) ==> id in w.used && id !in w.q.fifo)
    && (forall a, i :: 0 <= a < |w.held| && 0 <= i < |w.held[a]| ==> HeldItem(w, w.held[a][i]))
  }

  ghost predicate HeldItem(w: World, item: Item) {
    && item.status == Dispatching
    && 1 <= item.attempts == w.dequeues[item.queueId]
    && (item.queueId in w.q.items ==> w.q.items[item.queueId] == item)
  }

  ghost predicate TableInv(w: World, maxRetries: nat) {
    && (forall id :: id in w.q.items && w.q.items[id].status == Dispatching ==> exists a :: Holds(w.held, a, id))
    && (forall id :: id in w.q.items ==> w.q.items[id].attempts == w.dequeues[id])
    && (forall id :: id in w.q.items && w.q.items[id].status == Failed ==> maxRetries < w.q.items[id].attempts)
    && w.q.items.Keys <= w.used
    && Elements(w.q.fifo) <= w.used
    && (forall id :: id in w.dequeues ==> id in w.used)
  }

  ghost predicate Inv(w: World, maxRetries: nat) {
    && ValidLimits(w.q.limits)
    && WellFormed(w.q)
    && HeldInv(w)
    && TableInv(w, maxRetries)
  }

  lemma InitInv(w: World, maxRetries: nat)
    requires Init(w)
    ensures Inv(w, maxRetries)
  {
    assert Elements(w.q.fifo) == {};
  }

  lemma EnqueueKeeps(w: World, step: Step, w': World, maxRetries: nat)
    requires Inv(w, maxRetries) && step.EnqueueStep? && Next(w, step, w', maxRetries)
    ensures Inv(w', maxRetries)
  {
    var id := step.queueId;
    assert id !in w.q.fifo by {
      assert id !in Elements(w.q.fifo);
    }
    if w'.q != w.q {
      assert w'.q.fifo == w.q.fifo + [id];
      assert Elements(w'.q.fifo) == Elements(w.q.fifo) + {id};
      assert w.dequeues[id] == 0;
    }
  }

  /** What a dequeue by thread `a` leaves, in terms of the batch it took. */
  ghost predicate Gave(w: World, a: nat, batch: seq<Item>, w': World) {
    && a < |w.held| && w.held[a] == []
    && w' == w.(q := w'.q, held := w.held[a := batch], dequeues := w.dequeues + multiset(Ids(batch)))
    && w'.q == w.q.(fifo := w'.q.fifo, items := w'.q.items)
    && w'.q.items.Keys == w.q.items.Keys
    && Distinct(Ids(batch)) && |batch| <= w.q.limits.maxBulkSize
    && (forall id :: id in Ids(batch) ==> id in w.q.fifo && id in w.q.items && id !in w'.q.fifo)
    && Elements(w'.q.fifo) <= Elements(w.q.fifo)
    && (forall i :: 0 <= i < |batch| ==>
          && batch[i] == Dispatched(w.q.items[batch[i].queueId])
          && w'.q.items[batch[i].queueId] == batch[i])
    && (forall id :: id in w.q.items && id !in Ids(batch) ==> w'.q.items[id] == w.q.items[id])
  }

  lemma {:induction false} OccursOnce(ids: seq<string>, id: string)
    requires Distinct(ids)
    ensures multiset(ids)[id] == if id in ids then 1 else 0
  {
    if ids != [] {
      assert ids == ids[..|ids| - 1] + [ids[|ids| - 1]];
      OccursOnce(ids[..|ids| - 1], id);
    }
  }

  lemma DequeueGave(w: World, step: Step, w': World, maxRetries: nat)
    requires Inv(w, maxRetries) && step.DequeueStep? && Next(w, step, w', maxRetries)
    ensures WellFormed(w'.q)
    ensures Gave(w, step.worker, w'.held[step.worker], w')
  {
    var limit := BatchLimit(w.q.limits, step.maxItems);
    var (q, batch) := Take(w.q, limit);
    TakeLaw(w.q, limit);
    PendingDistinct(w.q.fifo, w.q.items);
    forall id | id in Ids(batch)
      ensures id in w.q.fifo && id in w.q.items && id !in q.fifo
    {
      assert id in PendingOf(w.q);
      PendingMember(w.q.fifo, w.q.items, id);
      var i :| 0 <= i < |batch| && Ids(batch)[i] == id;
      assert q.items[batch[i].queueId] == batch[i];
    }
    assert Elements(q.fifo) <= Elements(w.q.fifo);
  }

  lemma GaveHeld(w: World, a: nat, batch: seq<Item>, w': World, maxRetries: nat)
    requires Inv(w, maxRetries) && Gave(w, a, batch, w')
    ensures HeldInv(w')
  {
    forall x, id | Holds(w'.held, x, id)
      ensures id in w'.used && id !in w'.q.fifo
      ensures x == a <==> id in Ids(batch)
    {
      if x != a {
        assert Holds(w.held, x, id);
      }
      assert id in w'.q.fifo ==> id in Elements(w'.q.fifo);
      assert id in Ids(batch) ==> id in Elements(w.q.fifo);
    }
    forall x, y, id | Holds(w'.held, x, id) && Holds(w'.held, y, id)
      ensures x == y
    {
      if x != a && y != a {
        assert Holds(w.held, x, id) && Holds(w.held, y, id);
      }
    }
    forall x, i | 0 <= x < |w'.held| && 0 <= i < |w'.held[x]|
      ensures HeldItem(w', w'.held[x][i])
    {
      var item := w'.held[x][i];
      OccursOnce(Ids(batch), item.queueId);
      assert Ids(w'.held[x])[i] == item.queueId;
      assert Holds(w'.held, x, item.queueId);
      if x != a {
        assert HeldItem(w, w.held[x][i]);
      }
    }
  }

  lemma GaveTable(w: World, a: nat, batch: seq<Item>, w': World, maxRetries: nat)
    requires Inv(w, maxRetries) && Gave(w, a, batch, w')
    ensures TableInv(w', maxRetries)
  {
    forall id | id in w'.q.items
      ensures w'.q.items[id].attempts == w'.dequeues[id]
      ensures w'.q.items[id].status == Failed ==> maxRetries < w'.q.items[id].attempts
      ensures w'.q.items[id].status == Dispatching ==> exists x :: Holds(w'.held, x, id)
    {
      OccursOnce(Ids(batch), id);
      if id in Ids(batch) {
        var i :| 0 <= i < |batch| && Ids(batch)[i] == id;
        assert w'.q.items[batch[i].queueId] == batch[i];
        assert Holds(w'.held, a, id);
      } else if w.q.items[id].status == Dispatching {
        var x :| Holds(w.held, x, id);
        assert Holds(w'.held, x, id);
      }
    }
    forall id | id in w'.dequeues
      ensures id in w'.used
    {
      OccursOnce(Ids(batch), id);
      assert id in Ids(batch) ==> id in Elements(w.q.fifo);
    }
  }

  lemma DequeueKeeps(w: World, step: Step, w': World, maxRetries: nat)
    requires Inv(w, maxRetries) && step.DequeueStep? && Next(w, step, w', maxRetries)
    ensures Inv(w', maxRetries)
  {
    DequeueGave(w, step, w', maxRetries);
    GaveHeld(w, step.worker, w'.held[step.worker], w', maxRetries);
    GaveTable(w, step.worker, w'.held[step.worker], w', maxRetries);
  }

  // ----------------------------------------------------------- settling a batch

  /**
   * Thread `a` settles `done`, a part of its batch, and keeps `keep`, the other
   * part: the settled items get a verdict, and on a retry go to the FIFO's end.
   */
  ghost predicate SettledBy(w: World, a: nat, done: seq<Item>, keep: seq<Item>, retry: bool, w': World,
                            maxRetries: nat)
  {
    && a < |w.held|
    && w' == w.(q := w'.q, held := w.held[a := keep])
    && w'.q == w.q.(fifo := w.q.fifo + (if retry then Ids(done) else []), items := w'.q.items)
    && |w'.q.fifo| <= w.q.limits.maxSize
    && Distinct(Ids(done)) && Distinct(Ids(keep)) && |keep| <= |w.held[a]|
    && (forall id :: id in Ids(w.held[a]) <==> id in Ids(done) || id in Ids(keep))
    && (forall id :: id in Ids(done) ==> id !in Ids(keep))
    && (forall i :: 0 <= i < |keep| ==> keep[i] in w.held[a])
    && (forall i :: 0 <= i < |done| ==> done[i] in w.held[a])
    && w'.q.items.Keys == w.q.items.Keys + Elements(Ids(done))
    && (forall i :: 0 <= i < |done| ==> MarkedAs(done[i], w'.q.items[done[i].queueId], retry, maxRetries))
    && (forall id :: id in w.q.items && id !in Ids(done) ==> w'.q.items[id] == w.q.items[id])
  }

  predicate MarkedAs(item: Item, settled: Item, retry: bool, maxRetries: nat) {
    && settled == item.(status := settled.status, lastError := settled.lastError)
    && (if retry then settled.status == Queued
        else settled.status == Completed || (settled.status == Failed && maxRetries < item.attempts))
  }

  lemma HeldAt(w: World, a: nat, item: Item)
    requires HeldInv(w) && a < |w.held| && item in w.held[a]
    ensures HeldItem(w, item) && Holds(w.held, a, item.queueId)
  {
    var i :| 0 <= i < |w.held[a]| && w.held[a][i] == item;
    assert Ids(w.held[a])[i] == item.queueId;
  }

  lemma SettledHeld(w: World, a: nat, done: seq<Item>, keep: seq<Item>, retry: bool, w': World, maxRetries: nat)
    requires Inv(w, maxRetries) && SettledBy(w, a, done, keep, retry, w', maxRetries)
    ensures HeldInv(w')
  {
    forall x, id | Holds(w'.held, x, id)
      ensures Holds(w.held, x, id) && id in w'.used && id !in Ids(done) && id !in w'.q.fifo
    {
      assert Holds(w.held, x, id);
      assert Holds(w.held, a, id) <==> id in Ids(w.held[a]);
    }
    forall x, i | 0 <= x < |w'.held| && 0 <= i < |w'.held[x]|
      ensures HeldItem(w', w'.held[x][i])
    {
      var item := w'.held[x][i];
      assert Ids(w'.held[x])[i] == item.queueId;
      assert Holds(w'.held, x, item.queueId);
      HeldAt(w, x, item);
    }
  }

  lemma SettledTable(w: World, a: nat, done: seq<Item>, keep: seq<Item>, retry: bool, w': World, maxRetries: nat)
    requires Inv(w, maxRetries) && SettledBy(w, a, done, keep, retry, w', maxRetries)
    ensures TableInv(w', maxRetries)
  {
    forall id | id in w'.q.items
      ensures id in w'.used
      ensures w'.q.items[id].attempts == w'.dequeues[id]
      ensures w'.q.items[id].status == Failed ==> maxRetries < w'.q.items[id].attempts
      ensures w'.q.items[id].status == Dispatching ==> exists x :: Holds(w'.held, x, id)
    {
      if id in Ids(done) {
        var i :| 0 <= i < |done| && Ids(done)[i] == id;
        assert MarkedAs(done[i], w'.q.items[done[i].queueId], retry, maxRetries);
        HeldAt(w, a, done[i]);
      } else {
        assert id in w.q.items;
        if w.q.items[id].status == Dispatching {
          var x :| Holds(w.held, x, id);
          assert Holds(w'.held, x, id);
        }
      }
    }
    forall id | id in Elements(w'.q.fifo)
      ensures id in w'.used
    {
      if id in w.q.fifo {
        assert id in Elements(w.q.fifo);
      } else {
        assert id in Ids(w.held[a]);
        assert Holds(w.held, a, id);
      }
    }
  }

  lemma SettledWellFormed(w: World, a: nat, done: seq<Item>, keep: seq<Item>, retry: bool, w': World, maxRetries: nat)
    requires Inv(w, maxRetries) && SettledBy(w, a, done, keep, retry, w', maxRetries)
    ensures WellFormed(w'.q)
  {
    forall id | id in Ids(done)
      ensures id !in w.q.fifo
      ensures w'.q.items[id].queueId == id && (w'.q.items[id].status == Queued <==> retry)
      ensures w'.q.items[id].status == Queued || id !in w'.q.fifo
      ensures id in w.q.items ==> w'.q.items[id].jobId == w.q.items[id].jobId
    {
      var i :| 0 <= i < |done| && Ids(done)[i] == id;
      assert MarkedAs(done[i], w'.q.items[done[i].queueId], retry, maxRetries);
      HeldAt(w, a, done[i]);
    }
    DistinctAppend(w.q.fifo, if retry then Ids(done) else []);
  }

  lemma SettledKeeps(w: World, a: nat, done: seq<Item>, keep: seq<Item>, retry: bool, w': World, maxRetries: nat)
    requires Inv(w, maxRetries) && SettledBy(w, a, done, keep, retry, w', maxRetries)
    ensures Inv(w', maxRetries)
  {
    SettledWellFormed(w, a, done, keep, retry, w', maxRetries);
    SettledHeld(w, a, done, keep, retry, w', maxRetries);
    SettledTable(w, a, done, keep, retry, w', maxRetries);
  }

  lemma CompleteSettles(w: World, a: nat, ids: set<string>, w': World, maxRetries: nat)
    requires a < |w.held| && Distinct(Ids(w.held[a])) && |w.q.fifo| <= w.q.limits.maxSize
    requires w' == w.(q := AfterCompleted(w.q, Select(w.held[a], ids, true)),
                      held := w.held[a := Select(w.held[a], ids, false)])
    ensures SettledBy(w, a, Select(w.held[a], ids, true), Select(w.held[a], ids, false), false, w', maxRetries)
  {
    var done := Select(w.held[a], ids, true);
    SelectSplits(w.held[a], ids);
    CompletedLaw(w.q, done);
    assert w.q.fifo + [] == w.q.fifo;
    forall i | 0 <= i < |done|
      ensures MarkedAs(done[i], w'.q.items[done[i].queueId], false, maxRetries)
    {
      assert w'.q.items[done[i].queueId] == Completion(done[i]);
    }
  }

  lemma CompleteKeeps(w: World, step: Step, w': World, maxRetries: nat)
    requires Inv(w, maxRetries) && step.CompleteStep? && Next(w, step, w', maxRetries)
    ensures Inv(w', maxRetries)
  {
    var a := step.worker;
    CompleteSettles(w, a, step.ids, w', maxRetries);
    SettledKeeps(w, a, Select(w.held[a], step.ids, true), w'.held[a], false, w', maxRetries);
  }

  lemma FailSettles(w: World, a: nat, error: string, retry: bool, w': World, maxRetries: nat)
    requires a < |w.held| && Distinct(Ids(w.held[a])) && |w.q.fifo| <= w.q.limits.maxSize
    requires retry <==> ShouldRetry(w.held[a], maxRetries)
    requires AfterFailed(w.q, w.held[a], error, retry).1.Some?
    requires w' == w.(q := AfterFailed(w.q, w.held[a], error, retry).0, held := w.held[a := []])
    ensures SettledBy(w, a, w.held[a], [], retry, w', maxRetries)
  {
    var batch := w.held[a];
    FailedReturns(w.q, batch, error, retry);
    FailedLaw(w.q, batch, error, retry);
    assert Ids([]) == [];
    forall i | 0 <= i < |batch|
      ensures MarkedAs(batch[i], w'.q.items[batch[i].queueId], retry, maxRetries)
    {
      assert w'.q.items[batch[i].queueId] == Failure(batch[i], error, retry);
    }
  }

  lemma FailKeeps(w: World, step: Step, w': World, maxRetries: nat)
    requires Inv(w, maxRetries) && step.FailStep? && Next(w, step, w', maxRetries) && !w'.stuck
    ensures Inv(w', maxRetries)
  {
    var a := step.worker;
    var retry := ShouldRetry(w.held[a], maxRetries);
    FailSettles(w, a, step.error, retry, w', maxRetries);
    SettledKeeps(w, a, w.held[a], [], retry, w', maxRetries);
  }

  lemma StepKeeps(w: World, step: Step, w': World, maxRetries: nat)
    requires Inv(w, maxRetries) && Next(w, step, w', maxRetries) && !w'.stuck
    ensures Inv(w', maxRetries)
  {
    match step
    case EnqueueStep(_, _, _) => EnqueueKeeps(w, step, w', maxRetries);
    case RemoveStep(_) =>
    case DequeueStep(_, _) => DequeueKeeps(w, step, w', maxRetries);
    case CompleteStep(_, _) => CompleteKeeps(w, step, w', maxRetries);
    case FailStep(_, _) => FailKeeps(w, step, w', maxRetries);
  }

  lemma {:induction false} RunInv(worlds: seq<World>, steps: seq<Step>, maxRetries: nat, n: nat)
    requires Run(worlds, steps, maxRetries) && n <= |steps|
    ensures worlds[n].stuck ==> n == |steps|
    ensures !worlds[n].stuck ==> Inv(worlds[n], maxRetries)
    decreases n
  {
    if n == 0 {
      InitInv(worlds[0], maxRetries);
    } else {
      RunInv(worlds, steps, maxRetries, n - 1);
      assert Next(worlds[n - 1], steps[n - 1], worlds[n], maxRetries);
      if n < |steps| {
        assert Next(worlds[n], steps[n], worlds[n + 1], maxRetries);
      }
      if !worlds[n].stuck {
        StepKeeps(worlds[n - 1], steps[n - 1], worlds[n], maxRetries);
      }
    }
  }

  // ------------------------------------------------------------ main results

  /**
   * At every point of every run, under any interleaving: FIFO ids are distinct
   * and bounded, the QUEUED items are exactly the FIFO's live ids, batches in
   * different hands are disjoint, every DISPATCHING item is in exactly one
   * thread's batch, the index is injective and type-correct, every item has
   * been dequeued `attempts` times, and nothing is FAILED within its retries.
   */
  lemma WorkersSafe(worlds: seq<World>, steps: seq<Step>, maxRetries: nat, n: nat)
    requires Run(worlds, steps, maxRetries) && n <= |steps| && !worlds[n].stuck
    ensures var w := worlds[n];
            && Distinct(w.q.fifo) && |w.q.fifo| <= w.q.limits.maxSize
            && (forall id :: id in w.q.items ==> (w.q.items[id].status == Queued <==> id in w.q.fifo))
            && (forall a, b, id :: Holds(w.held, a, id) && Holds(w.held, b, id) ==> a == b)
            && (forall a, id :: Holds(w.held, a, id) && id in w.q.items ==> w.q.items[id].status == Dispatching)
            && (forall id :: id in w.q.items && w.q.items[id].status == Dispatching ==>
                  exists a :: Holds(w.held, a, id))
            && (forall j, k :: j in w.q.jobIndex && k in w.q.jobIndex && w.q.jobIndex[j] == w.q.jobIndex[k] ==> j == k)
            && (forall j :: j in w.q.jobIndex ==> w.q.jobIndex[j] in w.q.items && w.q.items[w.q.jobIndex[j]].jobId == j)
            && (forall id :: id in w.q.items ==> w.q.items[id].attempts == w.dequeues[id])
            && (forall id :: id in w.q.items && w.q.items[id].status == Failed ==> maxRetries < w.q.items[id].attempts)
  {
    RunInv(worlds, steps, maxRetries, n);
    var w := worlds[n];
    forall a, id | Holds(w.held, a, id) && id in w.q.items
      ensures w.q.items[id].status == Dispatching
    {
      var i :| 0 <= i < |w.held[a]| && Ids(w.held[a])[i] == id;
      assert HeldItem(w, w.held[a][i]);
    }
  }

  /** A refused enqueue, for either reason, leaves every table as it was. */
  lemma RefusedEnqueueChangesNothing(q: Queue, jobId: string, payload: Payload, queueId: string)
    requires WellFormed(q)
    ensures var (after, r) := AfterEnqueue(q, jobId, payload, queueId);
            && (r.Err? ==> after == q)
            && (r.Err? <==> TooLarge(q.limits, payload)
                            || (jobId !in q.jobIndex && |q.fifo| == q.limits.maxSize))
            && (r.Ok? ==> jobId in after.jobIndex && after.items[after.jobIndex[jobId]] == r.value)
  {
  }

  function TotalHeld(held: seq<seq<Item>>): nat {
    if held == [] then 0 else |held[0]| + TotalHeld(held[1..])
  }

  lemma {:induction false} TotalHeldUpdate(held: seq<seq<Item>>, a: nat, batch: seq<Item>)
    requires a < |held|
    ensures TotalHeld(held[a := batch]) == TotalHeld(held) - |held[a]| + |batch|
  {
    if a == 0 {
      assert held[a := batch][1..] == held[1..];
    } else {
      TotalHeldUpdate(held[1..], a - 1, batch);
      assert held[a := batch][1..] == held[1..][a - 1 := batch];
    }
  }

  lemma {:induction false} TotalHeldPart(held: seq<seq<Item>>, a: nat)
    requires a < |held|
    ensures |held[a]| <= TotalHeld(held)
  {
    if 0 < a {
      TotalHeldPart(held[1..], a - 1);
    }
  }

  /** Room for every dequeued item to come back. */
  predicate Room(w: World) {
    |w.q.fifo| + TotalHeld(w.held) <= w.q.limits.maxSize
  }

  /**
   * Only an enqueue can use up the room that a retry needs: every other step
   * keeps it, and a world with room never gets stuck in the next step.
   */
  lemma RoomKept(w: World, step: Step, w': World, maxRetries: nat)
    requires Inv(w, maxRetries) && Room(w) && Next(w, step, w', maxRetries)
    ensures !w'.stuck
    ensures !step.EnqueueStep? ==> Room(w')
  {
    match step
    case EnqueueStep(_, _, _) =>
    case RemoveStep(_) =>
    case DequeueStep(a, maxItems) =>
      TakeLaw(w.q, BatchLimit(w.q.limits, maxItems));
      TotalHeldUpdate(w.held, a, w'.held[a]);
    case CompleteStep(a, ids) =>
      SelectDistinct(w.held[a], ids, false);
      TotalHeldUpdate(w.held, a, w'.held[a]);
    case FailStep(a, error) =>
      var retry := ShouldRetry(w.held[a], maxRetries);
      TotalHeldPart(w.held, a);
      FailedReturns(w.q, w.held[a], error, retry);
      FailedLaw(w.q, w.held[a], error, retry);
      TotalHeldUpdate(w.held, a, []);
  }

  /** A thread blocks for ever inside mark_batch_failed iff its retry does not fit. */
  lemma StuckExactly(w: World, step: Step, w': World, maxRetries: nat)
    requires Inv(w, maxRetries) && Next(w, step, w', maxRetries)
    ensures w'.stuck <==>
            && step.FailStep?
            && ShouldRetry(w.held[step.worker], maxRetries)
            && w.q.limits.maxSize < |w.q.fifo| + |w.held[step.worker]|
  {
    if step.FailStep? {
      FailedReturns(w.q, w.held[step.worker], step.error, ShouldRetry(w.held[step.worker], maxRetries));
    }
  }

  /** Once nothing more is enqueued and there is room, no run from there blocks. */
  lemma {:induction false} NoEnqueueNoBlock(worlds: seq<World>, steps: seq<Step>, maxRetries: nat)
    requires |worlds| == |steps| + 1
    requires Inv(worlds[0], maxRetries) && Room(worlds[0]) && !worlds[0].stuck
    requires forall i :: 0 <= i < |steps| ==> Next(worlds[i], steps[i], worlds[i + 1], maxRetries)
    requires forall i :: 0 <= i < |steps| ==> !steps[i].EnqueueStep?
    ensures !worlds[|steps|].stuck && Room(worlds[|steps|]) && Inv(worlds[|steps|], maxRetries)
    decreases |steps|
  {
    if steps != [] {
      var n := |steps| - 1;
      NoEnqueueNoBlock(worlds[..n + 1], steps[..n], maxRetries);
      assert Next(worlds[n], steps[n], worlds[n + 1], maxRetries);
      RoomKept(worlds[n], steps[n], worlds[n + 1], maxRetries);
      StepKeeps(worlds[n], steps[n], worlds[n + 1], maxRetries);
    }
  }

  /** A dequeue of one item from a queue of one. */
  lemma TakeOnly(q: Queue, id: string)
    requires q.fifo == [id] && Live(q.items, id)
    ensures Take(q, 1) == (HeadTaken(q), [Dispatched(q.items[id])])
    ensures HeadTaken(q).fifo == []
  {
    assert Take(HeadTaken(q), 0) == (HeadTaken(q), []);
    assert [Dispatched(q.items[id])] + [] == [Dispatched(q.items[id])];
  }

  // One slot, one thread: document "q0" is taken into flight and "q1" takes the slot.

  const ONE_SLOT := Limits(1, 1, None)

  function SlotEmpty(): World {
    World(Queue(ONE_SLOT, [], map[], map[]), [[]], {}, multiset{}, false)
  }

  function SlotQueued(payload: Payload): World {
    World(Queue(ONE_SLOT, ["q0"], map["q0" := NewItem("j0", payload, "q0")], map["j0" := "q0"]),
          [[]], {"q0"}, multiset{}, false)
  }

  function SlotFreed(payload: Payload): World {
    var inFlight := Dispatched(NewItem("j0", payload, "q0"));
    World(Queue(ONE_SLOT, [], map["q0" := inFlight], map["j0" := "q0"]),
          [[inFlight]], {"q0"}, multiset{"q0"}, false)
  }

  function SlotTaken(payload: Payload): World {
    var inFlight := Dispatched(NewItem("j0", payload, "q0"));
    World(Queue(ONE_SLOT, ["q1"],
                map["q0" := inFlight, "q1" := NewItem("j1", payload, "q1")],
                map["j0" := "q0", "j1" := "q1"]),
          [[inFlight]], {"q0", "q1"}, multiset{"q0"}, false)
  }

  lemma SlotFreedNext(payload: Payload)
    ensures Next(SlotQueued(payload), DequeueStep(0, None), SlotFreed(payload), 1)
  {
    var w, w' := SlotQueued(payload), SlotFreed(payload);
    TakeOnly(w.q, "q0");
    assert HeadTaken(w.q) == w'.q;
    assert w.held[0 := w'.held[0]] == w'.held;
    assert Ids(w'.held[0]) == ["q0"];
  }

  lemma SlotTakenReachable(payload: Payload)
    ensures exists worlds: seq<World>, steps: seq<Step> ::
              Run(worlds, steps, 1) && worlds[|steps|] == SlotTaken(payload)
  {
    var steps := [EnqueueStep("j0", payload, "q0"), DequeueStep(0, None), EnqueueStep("j1", payload, "q1")];
    var worlds := [SlotEmpty(), SlotQueued(payload), SlotFreed(payload), SlotTaken(payload)];
    SlotFreedNext(payload);
    hide Next;
    assert Run(worlds, steps, 1) && worlds[|steps|] == SlotTaken(payload);
  }

  /** With an enqueue in between a thread can block: the retry of "q0" finds no room. */
  lemma EnqueueCanBlockARetry(payload: Payload)
    ensures exists worlds: seq<World>, steps: seq<Step> :: Run(worlds, steps, 1) && worlds[|steps|].stuck
  {
    SlotTakenReachable(payload);
    var worlds: seq<World>, steps: seq<Step> :| Run(worlds, steps, 1) && worlds[|steps|] == SlotTaken(payload);
    var w := SlotTaken(payload);
    assert w.held[0][0].attempts == 1 && ShouldRetry(w.held[0], 1);
    FailedReturns(w.q, w.held[0], "sink down", true);
    var w' := w.(q := AfterFailed(w.q, w.held[0], "sink down", true).0, stuck := true);
    var step := FailStep(0, "sink down");
    assert Next(w, step, w', 1);
    var worlds', steps' := worlds + [w'], steps + [step];
    assert Run(worlds', steps', 1) && worlds'[|steps'|].stuck;
  }
}
