/**
 * Draining the queue with one dispatcher: what one run does to the queue, why
 * the drain ends, and how often a batch can come back before it does.
 */
module DispatchDrain {
  import opened Wrappers
  import opened Sequences
  import opened DispatchQueue
  import opened QueueLaws
  import Repo = JobRepository
  import opened DispatchSteps

  // ------------------------------------------------------------ settling a batch

  /** The dispatcher has just taken `batch` and nobody has touched its items since. */
  ghost predicate InFlight(q: Queue, batch: seq<Item>) {
    && Distinct(Ids(batch))
    && forall i :: 0 <= i < |batch| ==>
         && batch[i].status == Dispatching
         && batch[i].queueId in q.items
         && q.items[batch[i].queueId] == batch[i]
  }

  /** The items of `batch` got a verdict: put back at the FIFO's end, or a final status. */
  ghost predicate Settled(q: Queue, batch: seq<Item>, status: ItemStatus, q': Queue) {
    && q' == q.(fifo := q.fifo + (if status == Queued then Ids(batch) else []), items := q'.items)
    && q'.items.Keys == q.items.Keys
    && (forall i :: 0 <= i < |batch| ==>
          && batch[i].queueId in q'.items
          && q'.items[batch[i].queueId]
             == batch[i].(status := status, lastError := q'.items[batch[i].queueId].lastError))
    && (forall id :: id in q.items && id !in Ids(batch) ==> q'.items[id] == q.items[id])
  }

  lemma SettledKeeps(q: Queue, batch: seq<Item>, status: ItemStatus, q': Queue)
    requires WellFormed(q) && InFlight(q, batch) && Settled(q, batch, status, q') && status != Dispatching
    requires |q'.fifo| <= q.limits.maxSize
    ensures WellFormed(q')
  {
    forall id | id in Ids(batch)
      ensures id in q.items && id !in q.fifo
      ensures q'.items[id].status == status && q'.items[id].queueId == id && q'.items[id].jobId == q.items[id].jobId
    {
      var i :| 0 <= i < |batch| && Ids(batch)[i] == id;
      assert q.items[batch[i].queueId] == batch[i];
    }
    DistinctAppend(q.fifo, if status == Queued then Ids(batch) else []);
  }

  lemma CompletedSettles(q: Queue, batch: seq<Item>)
    requires WellFormed(q) && InFlight(q, batch)
    ensures Settled(q, batch, Completed, AfterCompleted(q, batch))
    ensures WellFormed(AfterCompleted(q, batch))
  {
    CompletedLaw(q, batch);
    var q' := AfterCompleted(q, batch);
    assert q.fifo + [] == q.fifo;
    assert Settled(q, batch, Completed, q');
    SettledKeeps(q, batch, Completed, q');
  }

  lemma FailedSettles(q: Queue, batch: seq<Item>, error: string, retry: bool)
    requires WellFormed(q) && InFlight(q, batch) && |q.fifo| + |batch| <= q.limits.maxSize
    ensures AfterFailed(q, batch, error, retry).1 == Some(Failures(batch, error, retry))
    ensures Settled(q, batch, if retry then Queued else Failed, AfterFailed(q, batch, error, retry).0)
    ensures WellFormed(AfterFailed(q, batch, error, retry).0)
  {
    FailedLaw(q, batch, error, retry);
    var q' := AfterFailed(q, batch, error, retry).0;
    var status := if retry then Queued else Failed;
    forall i | 0 <= i < |batch|
      ensures batch[i].queueId in q'.items
      ensures q'.items[batch[i].queueId]
           == batch[i].(status := status, lastError := q'.items[batch[i].queueId].lastError)
    {
      assert q'.items[batch[i].queueId] == Failure(batch[i], error, retry);
    }
    SettledKeeps(q, batch, status, q');
  }

  // ------------------------------------------------------------- one dispatch

  function StatusAfter(v: Verdict): ItemStatus {
    match v
    case PutBack => Queued
    case GivenUp => Failed
    case _ => Completed
  }

  /** The ids that a dispatch puts back, in batch order: all but those of deleted jobs. */
  function Returned(ids: seq<string>, drop: set<string>, v: Verdict): seq<string> {
    if v == PutBack then Outside(ids, drop) else []
  }

  /** A dispatch completes the items of deleted jobs (`drop`) and gives the others one common verdict. */
  ghost predicate Handled(q: Queue, batch: seq<Item>, drop: set<string>, v: Verdict, q': Queue) {
    && q' == q.(fifo := q.fifo + Returned(Ids(batch), drop, v), items := q'.items)
    && q'.items.Keys == q.items.Keys
    && (forall i :: 0 <= i < |batch| ==> ItemSettled(batch[i], drop, v, q'.items))
    && (forall id :: id in q.items && id !in Ids(batch) ==> q'.items[id] == q.items[id])
  }

  ghost predicate ItemSettled(item: Item, drop: set<string>, v: Verdict, items: map<string, Item>) {
    && item.queueId in items
    && items[item.queueId] == item.(
         status := if item.queueId in drop then Completed else StatusAfter(v),
         lastError := items[item.queueId].lastError)
  }

  /** Completing the dropped part first and settling the rest afterwards has that effect. */
  lemma TwoPartsSettled(q: Queue, batch: seq<Item>, drop: set<string>, v: Verdict, q1: Queue, q': Queue)
    requires InFlight(q, batch)
    requires Settled(q, Select(batch, drop, true), Completed, q1)
    requires Settled(q1, Select(batch, drop, false), StatusAfter(v), q')
    requires StatusAfter(v) == Queued <==> v == PutBack
    ensures Handled(q, batch, drop, v, q')
  {
    var done, known := Select(batch, drop, true), Select(batch, drop, false);
    KeptIds(batch, drop);
    assert q.fifo + [] == q.fifo;
    forall i | 0 <= i < |batch|
      ensures ItemSettled(batch[i], drop, v, q'.items)
    {
      var item := batch[i];
      SelectMembers(batch, drop, true, item);
      SelectMembers(batch, drop, false, item);
      SelectIds(batch, drop, false, item.queueId);
      if item.queueId in drop {
        var k :| 0 <= k < |done| && done[k] == item;
        assert q1.items[done[k].queueId] == item.(status := Completed, lastError := q1.items[item.queueId].lastError);
        assert item.queueId !in Ids(known);
      } else {
        var k :| 0 <= k < |known| && known[k] == item;
        assert q'.items[known[k].queueId].queueId == item.queueId;
      }
    }
    forall id | id in q.items && id !in Ids(batch)
      ensures q'.items[id] == q.items[id]
    {
      SelectIds(batch, drop, true, id);
      SelectIds(batch, drop, false, id);
    }
  }

  /** After the dropped part is completed the rest is still in flight. */
  lemma RestInFlight(q: Queue, batch: seq<Item>, drop: set<string>)
    requires WellFormed(q) && InFlight(q, batch)
    ensures InFlight(q, Select(batch, drop, true))
    ensures Settled(q, Select(batch, drop, true), Completed, AfterCompleted(q, Select(batch, drop, true)))
    ensures WellFormed(AfterCompleted(q, Select(batch, drop, true)))
    ensures InFlight(AfterCompleted(q, Select(batch, drop, true)), Select(batch, drop, false))
  {
    var done, known := Select(batch, drop, true), Select(batch, drop, false);
    SelectSplits(batch, drop);
    assert InFlight(q, done) by {
      forall i | 0 <= i < |done|
        ensures done[i].status == Dispatching && done[i].queueId in q.items && q.items[done[i].queueId] == done[i]
      {
        var k :| 0 <= k < |batch| && batch[k] == done[i];
      }
    }
    CompletedSettles(q, done);
    var q1 := AfterCompleted(q, done);
    forall i | 0 <= i < |known|
      ensures known[i].status == Dispatching && known[i].queueId in q1.items && q1.items[known[i].queueId] == known[i]
    {
      var k :| 0 <= k < |batch| && batch[k] == known[i];
      assert Ids(known)[i] == known[i].queueId;
      assert known[i].queueId !in Ids(done);
    }
  }

  /** What a dispatch of `batch` must leave in the queue, given its verdict. */
  ghost predicate DispatchedWell(sys: System, batch: seq<Item>, v: Verdict, maxRetries: nat, q': Queue) {
    && v != NoBatch && v != Stuck
    && WellFormed(q')
    && Handled(sys.q, batch, MissingIds(sys.t, batch), v, q')
    && (v == PutBack ==> ShouldRetry(KnownItems(sys.t, batch), maxRetries))
    && (v == GivenUp ==> !ShouldRetry(KnownItems(sys.t, batch), maxRetries))
  }

  ghost predicate Ready(sys: System, batch: seq<Item>) {
    WellFormed(sys.q) && InFlight(sys.q, batch) && |sys.q.fifo| + |batch| <= sys.q.limits.maxSize
  }

  lemma FailureDispatchedWell(sys: System, batch: seq<Item>, t: Repo.Tables, error: string, settings: Settings,
                              now: int)
    requires Ready(sys, batch)
    ensures var q1 := AfterCompleted(sys.q, DeletedItems(sys.t, batch));
            var (sys', report) := AfterBatchFailure(System(q1, t), KnownItems(sys.t, batch), error, settings, now);
            DispatchedWell(sys, batch, report.verdict, settings.maxRetries, sys'.q)
  {
    var drop := MissingIds(sys.t, batch);
    var known := KnownItems(sys.t, batch);
    RestInFlight(sys.q, batch, drop);
    SelectSplits(batch, drop);
    var q1 := AfterCompleted(sys.q, DeletedItems(sys.t, batch));
    var retry := ShouldRetry(known, settings.maxRetries);
    FailedSettles(q1, known, error, retry);
    TwoPartsSettled(sys.q, batch, drop, if retry then PutBack else GivenUp, q1, AfterFailed(q1, known, error, retry).0);
  }

  lemma SuccessDispatchedWell(sys: System, batch: seq<Item>, maxRetries: nat)
    requires Ready(sys, batch)
    ensures var q1 := AfterCompleted(sys.q, DeletedItems(sys.t, batch));
            DispatchedWell(sys, batch, Delivered, maxRetries, AfterCompleted(q1, KnownItems(sys.t, batch)))
  {
    var drop := MissingIds(sys.t, batch);
    RestInFlight(sys.q, batch, drop);
    var q1 := AfterCompleted(sys.q, DeletedItems(sys.t, batch));
    CompletedSettles(q1, KnownItems(sys.t, batch));
    TwoPartsSettled(sys.q, batch, drop, Delivered, q1, AfterCompleted(q1, KnownItems(sys.t, batch)));
  }

  lemma DispatchLaw(sys: System, batch: seq<Item>, env: Env, n: nat, settings: Settings)
    requires Ready(sys, batch)
    ensures var (sys', report) := Dispatch(sys, batch, env, n, settings);
            DispatchedWell(sys, batch, report.verdict, settings.maxRetries, sys'.q)
  {
    var known := KnownItems(sys.t, batch);
    var q1 := AfterCompleted(sys.q, DeletedItems(sys.t, batch));
    SuccessDispatchedWell(sys, batch, settings.maxRetries);
    if known == [] {
      assert AfterCompleted(q1, known) == q1;
    } else {
      match Outcome(sys.t, known, env, n, settings)
      case Err(e) =>
        FailureDispatchedWell(sys, batch, LocalStage(sys.t, known, env, n, settings).0, e, settings, env.now(n));
      case Ok(_) =>
    }
  }

  // ------------------------------------------------------------------ run_once

  /** What one run_once does to the queue: it takes the front of the pending ids and settles them. */
  ghost predicate Ran(q: Queue, taken: seq<string>, drop: set<string>, v: Verdict, maxRetries: nat, q': Queue) {
    && WellFormed(q')
    && q'.limits == q.limits && q'.jobIndex == q.jobIndex && q'.items.Keys == q.items.Keys
    && v != Stuck
    && (taken == [] <==> PendingOf(q) == []) && (taken == [] <==> v == NoBatch)
    && taken <= PendingOf(q)
    && PendingOf(q') == PendingOf(q)[|taken|..] + Returned(taken, drop, v)
    && (forall id :: id in taken ==> id in q.items && TakenItem(q.items[id], drop, v, maxRetries, q'.items[id]))
    && (forall id :: id in q.items && id !in taken ==> q'.items[id] == q.items[id])
    && (v == PutBack ==> exists id :: id in Returned(taken, drop, v) && id in q.items
                                      && q.items[id].attempts + 1 <= maxRetries)
  }

  predicate TakenItem(item: Item, drop: set<string>, v: Verdict, maxRetries: nat, after: Item) {
    && after == item.(attempts := item.attempts + 1, lastError := after.lastError,
                      status := if item.queueId in drop then Completed else StatusAfter(v))
    && (after.status == Failed ==> maxRetries < after.attempts)
  }

  /** A dequeue with a positive limit leaves its batch in flight. */
  lemma TakenInFlight(q: Queue, limit: int)
    requires WellFormed(q) && 0 < limit
    ensures var (q1, batch) := Take(q, limit);
            && WellFormed(q1) && InFlight(q1, batch) && Took(q, limit, q1, batch)
            && |q1.fifo| + |batch| <= q1.limits.maxSize
            && (batch == [] <==> PendingOf(q) == [])
  {
    TakeLaw(q, limit);
    PendingDistinct(q.fifo, q.items);
    var (q1, batch) := Take(q, limit);
    assert |Ids(batch)| == Reach(q, limit);
  }

  function LimitOf(q: Queue, settings: Settings): int {
    BatchLimit(q.limits, Some(settings.maxBulkSize))
  }

  lemma HandledIsRan(q: Queue, limit: int, drop: set<string>, v: Verdict, maxRetries: nat, q': Queue)
    requires WellFormed(q) && 0 < limit && PendingOf(q) != []
    requires WellFormed(q') && v != NoBatch && v != Stuck
    requires Handled(Take(q, limit).0, Take(q, limit).1, drop, v, q')
    requires v == PutBack ==> ShouldRetry(Select(Take(q, limit).1, drop, false), maxRetries)
    requires v == GivenUp ==> !ShouldRetry(Select(Take(q, limit).1, drop, false), maxRetries)
    ensures Ran(q, Ids(Take(q, limit).1), drop, v, maxRetries, q')
  {
    TakenInFlight(q, limit);
    var (q1, batch) := Take(q, limit);
    var taken := Ids(batch);
    forall id | id in taken
      ensures id in q.items && TakenItem(q.items[id], drop, v, maxRetries, q'.items[id])
    {
      var i :| 0 <= i < |batch| && taken[i] == id;
      assert ItemSettled(batch[i], drop, v, q'.items);
      assert batch[i] == DispatchQueue.Dispatched(q.items[id]);
      if v == GivenUp && id !in drop {
        SelectMembers(batch, drop, false, batch[i]);
      }
    }
    HandledPending(q1, batch, drop, v, q');
    if v == PutBack {
      RetryDue(q, limit, drop, maxRetries);
    }
  }

  /** A batch is put back because of an item that has a retry left and goes back with it. */
  lemma RetryDue(q: Queue, limit: int, drop: set<string>, maxRetries: nat)
    requires WellFormed(q) && 0 < limit
    requires ShouldRetry(Select(Take(q, limit).1, drop, false), maxRetries)
    ensures exists id :: id in Outside(Ids(Take(q, limit).1), drop) && id in q.items
                         && q.items[id].attempts + 1 <= maxRetries
  {
    TakenInFlight(q, limit);
    var batch := Take(q, limit).1;
    var known := Select(batch, drop, false);
    KeptIds(batch, drop);
    var k :| 0 <= k < |known| && known[k].attempts <= maxRetries;
    var id := Ids(known)[k];
    SelectMembers(batch, drop, false, known[k]);
    var i :| 0 <= i < |batch| && batch[i] == known[k];
    assert batch[i] == DispatchQueue.Dispatched(q.items[batch[i].queueId]);
    assert id in Outside(Ids(batch), drop) && id in q.items && q.items[id].attempts + 1 <= maxRetries;
  }

  /** Only what was put back joins the pending ids, at the end. */
  lemma HandledPending(q: Queue, batch: seq<Item>, drop: set<string>, v: Verdict, q': Queue)
    requires WellFormed(q) && InFlight(q, batch) && Handled(q, batch, drop, v, q')
    ensures PendingOf(q') == PendingOf(q) + Returned(Ids(batch), drop, v)
  {
    forall id | id in q.fifo
      ensures Live(q.items, id) <==> Live(q'.items, id)
    {
      assert id !in Ids(batch);
    }
    PendingFrame(q.fifo, q.items, q'.items);
    var back := Returned(Ids(batch), drop, v);
    forall id | id in back
      ensures Live(q'.items, id)
    {
      OutsideMember(Ids(batch), drop, id);
      var i :| 0 <= i < |batch| && Ids(batch)[i] == id;
      assert ItemSettled(batch[i], drop, v, q'.items);
    }
    PendingAppendAll(q.fifo, back, q'.items);
  }

  lemma {:induction false} OutsideMember(ids: seq<string>, drop: set<string>, id: string)
    ensures id in Outside(ids, drop) <==> id in ids && id !in drop
    ensures |Outside(ids, drop)| <= |ids|
  {
    if ids != [] {
      OutsideMember(ids[1..], drop, id);
      assert id in ids <==> id == ids[0] || id in ids[1..];
    }
  }

  /** The ids a run_once takes, and the deleted jobs' ids among them. */
  function TakenIds(sys: System, settings: Settings): seq<string> {
    Ids(Take(sys.q, LimitOf(sys.q, settings)).1)
  }

  function DroppedIds(sys: System, settings: Settings): set<string> {
    MissingIds(sys.t, Take(sys.q, LimitOf(sys.q, settings)).1)
  }

  /** The batch of a run: the first min(asked, bulk size, pending) ids; one is dropped iff its job is gone. */
  lemma TakenLaw(sys: System, settings: Settings)
    requires WellFormed(sys.q) && ValidLimits(sys.q.limits)
    ensures var (pending, bulk) := (PendingOf(sys.q), sys.q.limits.maxBulkSize);
            var asked := if settings.maxBulkSize == 0 then bulk else Min(settings.maxBulkSize, bulk);
            TakenIds(sys, settings) == pending[..Min(asked, |pending|)]
    ensures forall id :: id in TakenIds(sys, settings) ==>
              id in sys.q.items && (id in DroppedIds(sys, settings) <==> sys.q.items[id].jobId !in sys.t.jobs)
  {
    DequeueLaw(sys.q, Some(settings.maxBulkSize));
    TakenInFlight(sys.q, LimitOf(sys.q, settings));
    var batch := Take(sys.q, LimitOf(sys.q, settings)).1;
    hide Take, WellFormed, PendingOf;
    forall i | 0 <= i < |batch|
      ensures batch[i].queueId in sys.q.items && sys.q.items[batch[i].queueId].jobId == batch[i].jobId
      ensures batch[i].queueId in MissingIds(sys.t, batch) <==> batch[i].jobId !in sys.t.jobs
    {
      assert Ids(batch)[i] == batch[i].queueId;
      if batch[i].queueId in MissingIds(sys.t, batch) {
        var k :| 0 <= k < |batch| && batch[k].jobId !in sys.t.jobs && batch[k].queueId == batch[i].queueId;
        assert Ids(batch)[k] == Ids(batch)[i];
      }
    }
  }

  lemma RunOnceLaw(sys: System, env: Env, n: nat, settings: Settings)
    requires WellFormed(sys.q) && ValidLimits(sys.q.limits)
    ensures var (sys', report) := RunOnce(sys, env, n, settings);
            Ran(sys.q, TakenIds(sys, settings), DroppedIds(sys, settings), report.verdict, settings.maxRetries, sys'.q)
  {
    var limit := LimitOf(sys.q, settings);
    TakenInFlight(sys.q, limit);
    var (q1, batch) := Take(sys.q, limit);
    var (sys', report) := RunOnce(sys, env, n, settings);
    if batch == [] {
      assert Ids(batch) == [];
    } else {
      DispatchLaw(System(q1, sys.t), batch, env, n, settings);
      HandledIsRan(sys.q, limit, MissingIds(sys.t, batch), report.verdict, settings.maxRetries, sys'.q);
    }
  }

  // -------------------------------------------------------------------- budget

  /** How often the items may still come back: max(0, R - attempts) each. */
  function Budget(items: map<string, Item>, ids: seq<string>, maxRetries: nat): nat {
    if ids == [] then 0
    else (if ids[0] in items then Max(0, maxRetries - items[ids[0]].attempts) else 0)
         + Budget(items, ids[1..], maxRetries)
  }

  function BudgetOf(q: Queue, maxRetries: nat): nat { Budget(q.items, PendingOf(q), maxRetries) }

  lemma {:induction false} BudgetAppend(items: map<string, Item>, a: seq<string>, b: seq<string>, maxRetries: nat)
    ensures Budget(items, a + b, maxRetries) == Budget(items, a, maxRetries) + Budget(items, b, maxRetries)
  {
    if a == [] {
      assert a + b == b;
    } else {
      BudgetAppend(items, a[1..], b, maxRetries);
      assert (a + b)[1..] == a[1..] + b;
    }
  }

  lemma {:induction false} BudgetFrame(items: map<string, Item>, items': map<string, Item>, ids: seq<string>,
                                       maxRetries: nat)
    requires items.Keys == items'.Keys
    requires forall id :: id in ids && id in items ==> items'[id] == items[id]
    ensures Budget(items, ids, maxRetries) == Budget(items', ids, maxRetries)
  {
    if ids != [] {
      BudgetFrame(items, items', ids[1..], maxRetries);
    }
  }

  /** One more attempt each, and at least one retry still due among them: the budget falls. */
  lemma {:induction false} BudgetOfReturned(items: map<string, Item>, items': map<string, Item>,
                                            ids: seq<string>, drop: set<string>, maxRetries: nat)
    requires items.Keys == items'.Keys
    requires forall id :: id in ids ==> id in items && items'[id].attempts == items[id].attempts + 1
    ensures Budget(items', Outside(ids, drop), maxRetries) <= Budget(items, ids, maxRetries)
    ensures (exists id :: id in Outside(ids, drop) && id in items && items[id].attempts + 1 <= maxRetries) ==>
              Budget(items', Outside(ids, drop), maxRetries) < Budget(items, ids, maxRetries)
  {
    if ids != [] {
      BudgetOfReturned(items, items', ids[1..], drop, maxRetries);
      var rest := Outside(ids[1..], drop);
      if ids[0] in drop {
        assert [] + rest == rest;
      } else {
        assert ([ids[0]] + rest)[1..] == rest;
        assert items'[ids[0]].attempts == items[ids[0]].attempts + 1;
      }
    }
  }

  /**
   * The termination measure: pending items plus budget.  Every run that takes a
   * batch lowers it, and a run that puts its batch back lowers the budget.
   */
  lemma RunOnceProgress(q: Queue, taken: seq<string>, drop: set<string>, v: Verdict, maxRetries: nat, q': Queue)
    requires WellFormed(q) && Ran(q, taken, drop, v, maxRetries, q')
    ensures |PendingOf(q')| <= |PendingOf(q)|
    ensures BudgetOf(q', maxRetries) + (if v == PutBack then 1 else 0) <= BudgetOf(q, maxRetries)
    ensures PendingOf(q) != [] && v != PutBack ==> |PendingOf(q')| < |PendingOf(q)|
  {
    var p, rest := PendingOf(q), PendingOf(q)[|taken|..];
    assert p == taken + rest;
    BudgetAppend(q.items, taken, rest, maxRetries);
    BudgetAppend(q'.items, rest, Returned(taken, drop, v), maxRetries);
    BudgetRest(q, taken, drop, v, maxRetries, q');
    BudgetOfReturned(q.items, q'.items, taken, drop, maxRetries);
    OutsideMember(taken, drop, "");
  }

  lemma BudgetRest(q: Queue, taken: seq<string>, drop: set<string>, v: Verdict, maxRetries: nat, q': Queue)
    requires WellFormed(q) && Ran(q, taken, drop, v, maxRetries, q')
    ensures Budget(q.items, PendingOf(q)[|taken|..], maxRetries)
         == Budget(q'.items, PendingOf(q)[|taken|..], maxRetries)
  {
    var p := PendingOf(q);
    PendingDistinct(q.fifo, q.items);
    forall id | id in p[|taken|..] && id in q.items
      ensures q'.items[id] == q.items[id]
    {
      var k :| |taken| <= k < |p| && p[k] == id;
      assert forall j :: 0 <= j < |taken| ==> taken[j] == p[j];
    }
    BudgetFrame(q.items, q'.items, p[|taken|..], maxRetries);
  }

  // ---------------------------------------------------------------- whole drains

  /** The system after k runs of run_once, the first of them batch number n. */
  function After(sys: System, env: Env, n: nat, settings: Settings, k: nat): System {
    if k == 0 then sys
    else RunOnce(After(sys, env, n, settings, k - 1), env, n + k - 1, settings).0
  }

  /** The verdicts of those runs, in order. */
  function Verdicts(sys: System, env: Env, n: nat, settings: Settings, k: nat): (vs: seq<Verdict>)
    ensures |vs| == k
  {
    if k == 0 then []
    else Verdicts(sys, env, n, settings, k - 1)
         + [RunOnce(After(sys, env, n, settings, k - 1), env, n + k - 1, settings).1.verdict]
  }

  /** How many of them put their batch back. */
  function PutBacks(vs: seq<Verdict>): nat
    decreases |vs|
  {
    if vs == [] then 0 else PutBacks(vs[..|vs| - 1]) + if vs[|vs| - 1] == PutBack then 1 else 0
  }

  ghost predicate RanSome(q: Queue, v: Verdict, maxRetries: nat, q': Queue) {
    exists taken, drop :: Ran(q, taken, drop, v, maxRetries, q')
  }

  /** The queues a drain goes through. */
  ghost predicate Trace(qs: seq<Queue>, vs: seq<Verdict>, maxRetries: nat) {
    && |qs| == |vs| + 1
    && WellFormed(qs[0]) && ValidLimits(qs[0].limits)
    && forall i :: 0 <= i < |vs| ==> RanSome(qs[i], vs[i], maxRetries, qs[i + 1])
  }

  lemma RunOnceRan(sys: System, env: Env, n: nat, settings: Settings)
    requires WellFormed(sys.q) && ValidLimits(sys.q.limits)
    ensures RanSome(sys.q, RunOnce(sys, env, n, settings).1.verdict, settings.maxRetries,
                    RunOnce(sys, env, n, settings).0.q)
  {
    RunOnceLaw(sys, env, n, settings);
  }

  lemma {:induction false} TraceOf(sys: System, env: Env, n: nat, settings: Settings, k: nat) returns (qs: seq<Queue>)
    requires WellFormed(sys.q) && ValidLimits(sys.q.limits)
    ensures Trace(qs, Verdicts(sys, env, n, settings, k), settings.maxRetries)
    ensures qs[0] == sys.q && forall i :: 0 <= i <= k ==> qs[i] == After(sys, env, n, settings, i).q
    decreases k
  {
    hide RunOnce, RanSome;
    if k == 0 {
      qs := [sys.q];
    } else {
      qs := TraceOf(sys, env, n, settings, k - 1);
      var mid := After(sys, env, n, settings, k - 1);
      TraceSound(qs, Verdicts(sys, env, n, settings, k - 1), settings.maxRetries, k - 1);
      RunOnceRan(mid, env, n + k - 1, settings);
      var (next, report) := RunOnce(mid, env, n + k - 1, settings);
      qs := qs + [next.q];
    }
  }

  lemma TraceStep(qs: seq<Queue>, vs: seq<Verdict>, maxRetries: nat, k: nat)
    requires Trace(qs, vs, maxRetries) && k < |vs|
    ensures |qs| == |vs| + 1 && RanSome(qs[k], vs[k], maxRetries, qs[k + 1])
  {
  }

  lemma {:induction false} TraceSound(qs: seq<Queue>, vs: seq<Verdict>, maxRetries: nat, k: nat)
    requires Trace(qs, vs, maxRetries) && k <= |vs|
    ensures WellFormed(qs[k]) && qs[k].limits == qs[0].limits && qs[k].jobIndex == qs[0].jobIndex
    decreases k
  {
    if k != 0 {
      TraceSound(qs, vs, maxRetries, k - 1);
      RanSound(qs[k - 1], vs[k - 1], maxRetries, qs[k]);
    }
  }

  lemma RanSound(q: Queue, v: Verdict, maxRetries: nat, q': Queue)
    requires RanSome(q, v, maxRetries, q')
    ensures WellFormed(q') && q'.limits == q.limits && q'.jobIndex == q.jobIndex && q'.items.Keys == q.items.Keys
  {
  }

  /** The bound on an item's attempts after `putBacks` batches came back. */
  ghost predicate AttemptsBounded(before: map<string, Item>, after: map<string, Item>, putBacks: nat) {
    && after.Keys == before.Keys
    && forall id :: id in after ==>
         after[id].attempts <= before[id].attempts + putBacks + if after[id].status == Queued then 0 else 1
  }

  lemma RanAttempts(before: map<string, Item>, q: Queue, taken: seq<string>, drop: set<string>, v: Verdict,
                    maxRetries: nat, q': Queue, putBacks: nat)
    requires WellFormed(q) && Ran(q, taken, drop, v, maxRetries, q') && AttemptsBounded(before, q.items, putBacks)
    ensures AttemptsBounded(before, q'.items, putBacks + if v == PutBack then 1 else 0)
  {
    forall id | id in q'.items
      ensures q'.items[id].attempts <= before[id].attempts + putBacks + (if v == PutBack then 1 else 0)
                                       + if q'.items[id].status == Queued then 0 else 1
    {
      if id in taken {
        assert TakenItem(q.items[id], drop, v, maxRetries, q'.items[id]);
        var i :| 0 <= i < |taken| && taken[i] == id;
        assert id == PendingOf(q)[i];
        PendingMember(q.fifo, q.items, id);
      }
    }
  }

  lemma NoAttempts(items: map<string, Item>)
    ensures AttemptsBounded(items, items, 0)
  {
  }

  /** The conserved quantity of a drain: batches put back plus what may still come back. */
  lemma {:induction false} TraceBudget(qs: seq<Queue>, vs: seq<Verdict>, maxRetries: nat, k: nat)
    requires Trace(qs, vs, maxRetries) && k <= |vs|
    ensures PutBacks(vs[..k]) + BudgetOf(qs[k], maxRetries) <= BudgetOf(qs[0], maxRetries)
    ensures |PendingOf(qs[k])| <= |PendingOf(qs[0])|
    ensures AttemptsBounded(qs[0].items, qs[k].items, PutBacks(vs[..k]))
    decreases k
  {
    hide Ran, WellFormed, AttemptsBounded, Budget;
    if k == 0 {
      NoAttempts(qs[0].items);
    } else {
      TraceBudget(qs, vs, maxRetries, k - 1);
      TraceSound(qs, vs, maxRetries, k - 1);
      assert vs[..k][..k - 1] == vs[..k - 1];
      assert RanSome(qs[k - 1], vs[k - 1], maxRetries, qs[k]);
      var taken, drop :| Ran(qs[k - 1], taken, drop, vs[k - 1], maxRetries, qs[k]);
      RunOnceProgress(qs[k - 1], taken, drop, vs[k - 1], maxRetries, qs[k]);
      RanAttempts(qs[0].items, qs[k - 1], taken, drop, vs[k - 1], maxRetries, qs[k], PutBacks(vs[..k - 1]));
    }
  }

  // --------------------------------------------------------------- termination

  /** Nothing queued and nothing in flight: the loop condition of `drain` is false. */
  predicate Drained(q: Queue) {
    CountStatus(q.items, Queued) == 0 && CountStatus(q.items, Dispatching) == 0
  }

  lemma CountZero(items: map<string, Item>, status: ItemStatus)
    ensures CountStatus(items, status) == 0 <==> forall id :: id in items ==> items[id].status != status
  {
    var found := WithStatus(items, status);
    assert forall id :: id in found <==> id in items && items[id].status == status;
    assert (forall id :: id !in found) <==> found == {};
    assert CountStatus(items, status) == 0 <==> found == {};
  }

  lemma NothingQueued(q: Queue)
    requires WellFormed(q)
    ensures CountStatus(q.items, Queued) == 0 <==> PendingOf(q) == []
  {
    CountZero(q.items, Queued);
    if PendingOf(q) != [] {
      PendingMember(q.fifo, q.items, PendingOf(q)[0]);
    } else {
      forall id | id in q.items
        ensures q.items[id].status != Queued
      {
        PendingMember(q.fifo, q.items, id);
      }
    }
  }

  /** No batch is in anybody's hands, as between the runs of a single dispatcher. */
  ghost predicate Idle(q: Queue) {
    forall id :: id in q.items ==> q.items[id].status != Dispatching
  }

  /** An item somebody else holds stays DISPATCHING through every run, and no other is left so. */
  lemma RanKeepsDispatching(q: Queue, v: Verdict, maxRetries: nat, q': Queue, id: string)
    requires WellFormed(q) && RanSome(q, v, maxRetries, q') && id in q.items
    ensures id in q'.items
    ensures q'.items[id].status == Dispatching <==> q.items[id].status == Dispatching
  {
    var taken, drop :| Ran(q, taken, drop, v, maxRetries, q');
    if id in taken {
      assert TakenItem(q.items[id], drop, v, maxRetries, q'.items[id]);
      var i :| 0 <= i < |taken| && taken[i] == id;
      assert id == PendingOf(q)[i];
      PendingMember(q.fifo, q.items, id);
    }
  }

  lemma {:induction false} DispatchingStays(qs: seq<Queue>, vs: seq<Verdict>, maxRetries: nat, k: nat, id: string)
    requires Trace(qs, vs, maxRetries) && k <= |vs|
    ensures qs[k].items.Keys == qs[0].items.Keys
    ensures id in qs[0].items ==> (qs[k].items[id].status == Dispatching <==> qs[0].items[id].status == Dispatching)
    decreases k
  {
    hide RanSome, Trace;
    if k != 0 {
      DispatchingStays(qs, vs, maxRetries, k - 1, id);
      TraceSound(qs, vs, maxRetries, k - 1);
      TraceStep(qs, vs, maxRetries, k - 1);
      RanSound(qs[k - 1], vs[k - 1], maxRetries, qs[k]);
      if id in qs[0].items {
        RanKeepsDispatching(qs[k - 1], vs[k - 1], maxRetries, qs[k], id);
      }
    }
  }

  function Measure(q: Queue, maxRetries: nat): nat { |PendingOf(q)| + BudgetOf(q, maxRetries) }

  /** After as many runs as the measure says nothing is pending any more. */
  lemma {:induction false} PendingRunsOut(qs: seq<Queue>, vs: seq<Verdict>, maxRetries: nat, k: nat)
    requires Trace(qs, vs, maxRetries) && k <= |vs|
    ensures PendingOf(qs[k]) == [] || Measure(qs[k], maxRetries) + k <= Measure(qs[0], maxRetries)
    decreases k
  {
    if k != 0 {
      PendingRunsOut(qs, vs, maxRetries, k - 1);
      TraceSound(qs, vs, maxRetries, k - 1);
      assert RanSome(qs[k - 1], vs[k - 1], maxRetries, qs[k]);
      var taken, drop :| Ran(qs[k - 1], taken, drop, vs[k - 1], maxRetries, qs[k]);
      RunOnceProgress(qs[k - 1], taken, drop, vs[k - 1], maxRetries, qs[k]);
    }
  }

  lemma DrainedInTime(sys: System, env: Env, n: nat, settings: Settings, k: nat)
    requires WellFormed(sys.q) && ValidLimits(sys.q.limits) && Idle(sys.q)
    requires Measure(sys.q, settings.maxRetries) < k
    ensures Drained(After(sys, env, n, settings, k).q)
  {
    var qs := TraceOf(sys, env, n, settings, k);
    var vs := Verdicts(sys, env, n, settings, k);
    PendingRunsOut(qs, vs, settings.maxRetries, k);
    TraceSound(qs, vs, settings.maxRetries, k);
    NothingQueued(qs[k]);
    forall id | id in qs[k].items
      ensures qs[k].items[id].status != Dispatching
    {
      DispatchingStays(qs, vs, settings.maxRetries, k, id);
    }
    CountZero(qs[k].items, Dispatching);
  }

  lemma SomebodyElsesItem(sys: System, env: Env, n: nat, settings: Settings, k: nat, id: string)
    requires WellFormed(sys.q) && ValidLimits(sys.q.limits)
    requires id in sys.q.items && sys.q.items[id].status == Dispatching
    ensures !Drained(After(sys, env, n, settings, k).q)
  {
    var qs := TraceOf(sys, env, n, settings, k);
    DispatchingStays(qs, Verdicts(sys, env, n, settings, k), settings.maxRetries, k, id);
    CountZero(qs[k].items, Dispatching);
  }

  /** drain stops after k runs of run_once: the loop condition is false by then. */
  ghost predicate StopsAfter(sys: System, env: Env, n: nat, settings: Settings, k: nat) {
    Drained(After(sys, env, n, settings, k).q)
  }

  /**
   * A drain by a single dispatcher ends, whatever the sinks do, iff no item was
   * DISPATCHING when it began: otherwise `drain` waits for an item that its own
   * run_once never touches.
   */
  lemma DrainEndsExactly(sys: System, env: Env, n: nat, settings: Settings)
    requires WellFormed(sys.q) && ValidLimits(sys.q.limits)
    ensures (exists k :: 0 < k && StopsAfter(sys, env, n, settings, k)) <==> Idle(sys.q)
  {
    if Idle(sys.q) {
      var k := Measure(sys.q, settings.maxRetries) + 1;
      DrainedInTime(sys, env, n, settings, k);
      assert StopsAfter(sys, env, n, settings, k);
    } else {
      var id :| id in sys.q.items && sys.q.items[id].status == Dispatching;
      forall k: nat
        ensures !StopsAfter(sys, env, n, settings, k)
      {
        SomebodyElsesItem(sys, env, n, settings, k, id);
      }
    }
  }

  /** One job was enqueued, and some thread has dequeued its item and not yet settled it. */
  function TakenByAnother(limits: Limits, payload: Payload): Queue {
    Take(AfterEnqueue(Queue(limits, [], map[], map[]), "job", payload, "q0").0, 1).0
  }

  lemma TakenItemInFlight(limits: Limits, payload: Payload)
    requires ValidLimits(limits) && !TooLarge(limits, payload)
    ensures var q := TakenByAnother(limits, payload);
            WellFormed(q) && q.limits == limits && q.items.Keys == {"q0"} && q.items["q0"].status == Dispatching
  {
    var empty := Queue(limits, [], map[], map[]);
    var enqueued := AfterEnqueue(empty, "job", payload, "q0").0;
    assert enqueued == Queue(limits, ["q0"], map["q0" := NewItem("job", payload, "q0")], map["job" := "q0"]);
    TakeHead(enqueued, "q0");
    HeadTakenLaw(enqueued);
  }

  lemma TakeHead(q: Queue, id: string)
    requires q.fifo == [id] && Live(q.items, id)
    ensures Take(q, 1).0 == HeadTaken(q)
  {
    assert Take(HeadTaken(q), 0) == (HeadTaken(q), []);
  }

  /** A drain that never ends: another thread's batch is in flight when it begins. */
  lemma DrainCanSpin(limits: Limits, payload: Payload, t: Repo.Tables, env: Env, n: nat, settings: Settings)
    requires ValidLimits(limits) && !TooLarge(limits, payload)
    ensures forall k: nat :: !StopsAfter(System(TakenByAnother(limits, payload), t), env, n, settings, k)
  {
    hide RunOnce, TakenByAnother, After;
    TakenItemInFlight(limits, payload);
    forall k: nat
      ensures !StopsAfter(System(TakenByAnother(limits, payload), t), env, n, settings, k)
    {
      SomebodyElsesItem(System(TakenByAnother(limits, payload), t), env, n, settings, k, "q0");
    }
  }

  /** One run from an idle queue: idle again, and closer to the end if anything was pending. */
  lemma RunOnceIdle(sys: System, env: Env, n: nat, settings: Settings)
    requires WellFormed(sys.q) && ValidLimits(sys.q.limits) && Idle(sys.q)
    ensures var sys' := RunOnce(sys, env, n, settings).0;
            && WellFormed(sys'.q) && sys'.q.limits == sys.q.limits && Idle(sys'.q)
            && (PendingOf(sys.q) != [] ==> Measure(sys'.q, settings.maxRetries) < Measure(sys.q, settings.maxRetries))
  {
    RunOnceRan(sys, env, n, settings);
    RanIdle(sys.q, RunOnce(sys, env, n, settings).1.verdict, settings.maxRetries, RunOnce(sys, env, n, settings).0.q);
  }

  lemma RanIdle(q: Queue, v: Verdict, maxRetries: nat, q': Queue)
    requires WellFormed(q) && Idle(q) && RanSome(q, v, maxRetries, q')
    ensures WellFormed(q') && q'.limits == q.limits && Idle(q')
    ensures PendingOf(q) != [] ==> Measure(q', maxRetries) < Measure(q, maxRetries)
  {
    RanSound(q, v, maxRetries, q');
    var taken, drop :| Ran(q, taken, drop, v, maxRetries, q');
    RunOnceProgress(q, taken, drop, v, maxRetries, q');
    forall id | id in q'.items
      ensures q'.items[id].status != Dispatching
    {
      RanKeepsDispatching(q, v, maxRetries, q', id);
    }
  }
}
