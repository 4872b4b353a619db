/**
 * When every delivery fails.  The untried items of the queue are then tried in
 * rotation, batch by batch, until no retry is left; the batch in which that happens
 * may reach round to items that are already one attempt ahead.
 */
module FailingSinks {
  import opened Sequences
  import opened DispatchQueue
  import opened QueueLaws
  import Repo = JobRepository
  import opened ElasticSink
  import opened DispatchSteps
  import opened DispatchDrain
  import Agreement = DispatchAgreement
  import opened DispatchRetries

  /** No local write and no bulk request ever succeeds. */
  ghost predicate NothingDelivers(env: Env) {
    && (forall n, id :: env.write(n, id).Err?)
    && (forall n :: env.bulk(n).BulkRaised?)
  }

  /** Delivering the item takes a sink; an item without records needs none if it is not stored locally. */
  predicate NeedsSink(item: Item, settings: Settings) {
    StoresLocal(item, settings) || item.payload.recordCount > 0
  }

  lemma {:induction false} WhollyElastic(known: seq<Item>, settings: Settings)
    requires LocalItems(known, settings) == []
    requires forall i :: 0 <= i < |known| ==> NeedsSink(known[i], settings)
    ensures ElasticItems(known, settings) == known
    ensures known != [] ==> RecordTotal(known) > 0
  {
    if known != [] {
      assert known == [known[0]] + known[1..];
      WhollyElastic(known[1..], settings);
    }
  }

  lemma OutcomeFails(t: Repo.Tables, known: seq<Item>, env: Env, n: nat, settings: Settings)
    requires NothingDelivers(env) && known != []
    requires forall i :: 0 <= i < |known| ==> NeedsSink(known[i], settings)
    ensures Outcome(t, known, env, n, settings).Err?
  {
    if LocalItems(known, settings) == [] {
      WhollyElastic(known, settings);
    }
  }

  // ------------------------------------------------------------------ one round

  /** These items' jobs exist and they need a sink. */
  ghost predicate Waiting(sys: System, ids: seq<string>, settings: Settings) {
    forall i :: 0 <= i < |ids| ==>
      && ids[i] in sys.q.items
      && sys.q.items[ids[i]].jobId in sys.t.jobs
      && NeedsSink(sys.q.items[ids[i]], settings)
  }

  ghost predicate Steady(sys: System, ids: seq<string>, settings: Settings) {
    && WellFormed(sys.q) && ValidLimits(sys.q.limits) && Repo.KeyedRows(sys.t)
    && Waiting(sys, ids, settings)
  }

  /** A run that fails: its batch is the head of the queue, and nothing in it is dropped. */
  ghost predicate FailedRound(q: Queue, size: nat, v: Verdict, maxRetries: nat, q': Queue) {
    && size <= |PendingOf(q)| && (v == PutBack || v == GivenUp)
    && Ran(q, PendingOf(q)[..size], {}, v, maxRetries, q')
  }

  lemma NothingMissing(t: Repo.Tables, batch: seq<Item>)
    requires forall i :: 0 <= i < |batch| ==> batch[i].jobId in t.jobs
    ensures MissingIds(t, batch) == {} && KnownItems(t, batch) == batch
  {
    NothingSelected(batch);
  }

  lemma {:induction false} NothingSelected(batch: seq<Item>)
    ensures Select(batch, {}, false) == batch
  {
    if batch != [] {
      NothingSelected(batch[1..]);
      assert batch == [batch[0]] + batch[1..];
    }
  }

  lemma RunFails(sys: System, env: Env, n: nat, settings: Settings)
    requires NothingDelivers(env) && Steady(sys, PendingOf(sys.q), settings) && PendingOf(sys.q) != []
    ensures var (sys', report) := RunOnce(sys, env, n, settings);
            FailedRound(sys.q, Min(LimitOf(sys.q, settings), |PendingOf(sys.q)|), report.verdict, settings.maxRetries,
                        sys'.q)
  {
    var limit := LimitOf(sys.q, settings);
    TakenInFlight(sys.q, limit);
    var batch := Take(sys.q, limit).1;
    forall i | 0 <= i < |batch|
      ensures batch[i].jobId in sys.t.jobs && NeedsSink(batch[i], settings)
    {
      assert Ids(batch)[i] == PendingOf(sys.q)[i];
      assert batch[i] == DispatchQueue.Dispatched(sys.q.items[batch[i].queueId]);
    }
    NothingMissing(sys.t, batch);
    OutcomeFails(sys.t, batch, env, n, settings);
    RunOnceLaw(sys, env, n, settings);
    FailsVerdict(sys, env, n, settings);
  }

  /** A run changes no item's job or payload, and deletes no job. */
  lemma RunSteady(sys: System, ids: seq<string>, env: Env, n: nat, settings: Settings)
    requires Steady(sys, ids, settings)
    ensures Steady(RunOnce(sys, env, n, settings).0, ids, settings)
    ensures RunOnce(sys, env, n, settings).0.q.limits == sys.q.limits
  {
    var (sys', report) := RunOnce(sys, env, n, settings);
    RunOnceLaw(sys, env, n, settings);
    Agreement.RunOnceJobs(sys, env, n, settings);
    forall i | 0 <= i < |ids|
      ensures ids[i] in sys'.q.items && sys'.q.items[ids[i]].jobId == sys.q.items[ids[i]].jobId
      ensures sys'.q.items[ids[i]].payload == sys.q.items[ids[i]].payload
    {
      if ids[i] in TakenIds(sys, settings) {
        assert TakenItem(sys.q.items[ids[i]], DroppedIds(sys, settings), report.verdict, settings.maxRetries,
                         sys'.q.items[ids[i]]);
      }
    }
  }

  // --------------------------------------------------------------- the rotation

  /** `turn` items of `ids` have moved to the end with attempt number lap + 1; the others are at attempt number lap. */
  ghost predicate Rotated(q: Queue, ids: seq<string>, lap: nat, turn: nat) {
    && turn < |ids| && Distinct(ids)
    && PendingOf(q) == ids[turn..] + ids[..turn]
    && forall i :: 0 <= i < |ids| ==>
         ids[i] in q.items && q.items[ids[i]].attempts == if i < turn then lap + 1 else lap
  }

  /** The batch at the head of the rotation. */
  lemma HeadOfRotation(q: Queue, ids: seq<string>, lap: nat, turn: nat, size: nat, i: nat)
    requires Rotated(q, ids, lap, turn) && size <= |ids| && i < |ids|
    ensures |PendingOf(q)| == |ids|
    ensures ids[i] in PendingOf(q)[..size] <==> turn <= i < turn + size || i < turn + size - |ids|
  {
    var head := PendingOf(q)[..size];
    if turn <= i < turn + size {
      assert head[i - turn] == ids[i];
    } else if i < turn + size - |ids| {
      assert head[|ids| - turn + i] == ids[i];
    }
  }

  /** After the batch has been put back an item has one attempt more iff it was in the batch. */
  lemma TurnedItem(q: Queue, ids: seq<string>, size: nat, v: Verdict, maxRetries: nat, q': Queue, lap: nat, turn: nat,
                   i: nat)
    requires WellFormed(q) && Rotated(q, ids, lap, turn) && FailedRound(q, size, v, maxRetries, q') && i < |ids|
    ensures ids[i] in q.items && ids[i] in q'.items
    ensures q'.items[ids[i]].attempts
         == q.items[ids[i]].attempts + if turn <= i < turn + size || i < turn + size - |ids| then 1 else 0
    ensures v == GivenUp && turn <= i < turn + size ==> q.items[ids[i]].attempts >= maxRetries
  {
    HeadOfRotation(q, ids, lap, turn, size, i);
    hide Rotated, WellFormed, PendingOf;
    if ids[i] in PendingOf(q)[..size] {
      assert TakenItem(q.items[ids[i]], {}, v, maxRetries, q'.items[ids[i]]);
    }
  }

  lemma TurnedOrder(q: Queue, ids: seq<string>, size: nat, maxRetries: nat, q': Queue, lap: nat, turn: nat,
                    turn': nat)
    requires Rotated(q, ids, lap, turn) && FailedRound(q, size, PutBack, maxRetries, q')
    requires turn' < |ids| && (turn' == turn + size || turn' == turn + size - |ids|)
    ensures PendingOf(q') == ids[turn'..] + ids[..turn']
  {
    NothingOutside(PendingOf(q)[..size]);
    RotationOrder(ids, turn, size, turn');
  }

  /** A failed batch with a retry left turns the rotation on by its size. */
  lemma Turned(q: Queue, ids: seq<string>, size: nat, maxRetries: nat, q': Queue, lap: nat, turn: nat)
    returns (lap': nat, turn': nat)
    requires WellFormed(q) && Rotated(q, ids, lap, turn) && FailedRound(q, size, PutBack, maxRetries, q')
    requires size <= |ids|
    ensures Rotated(q', ids, lap', turn')
    ensures lap' * |ids| + turn' == lap * |ids| + turn + size
  {
    var n := |ids|;
    if turn + size < n {
      lap', turn' := lap, turn + size;
    } else {
      lap', turn' := lap + 1, turn + size - n;
      assert (lap + 1) * n == lap * n + n;
    }
    TurnedOrder(q, ids, size, maxRetries, q', lap, turn, turn');
    hide FailedRound, PendingOf, WellFormed;
    forall i | 0 <= i < n
      ensures ids[i] in q'.items && q'.items[ids[i]].attempts == if i < turn' then lap' + 1 else lap'
    {
      TurnedItem(q, ids, size, PutBack, maxRetries, q', lap, turn, i);
    }
  }

  lemma RotationOrder(ids: seq<string>, turn: nat, size: nat, turn': nat)
    requires turn < |ids| && size <= |ids| && turn' < |ids|
    requires turn' == turn + size || turn' == turn + size - |ids|
    ensures var p := ids[turn..] + ids[..turn];
            p[size..] + p[..size] == ids[turn'..] + ids[..turn']
  {
  }

  lemma {:induction false} NothingOutside(ids: seq<string>)
    ensures Outside(ids, {}) == ids
  {
    if ids != [] {
      NothingOutside(ids[1..]);
      assert ids == [ids[0]] + ids[1..];
    }
  }

  /** Nobody in the rotation is further behind than `lap`. */
  lemma NobodyBehind(q: Queue, ids: seq<string>, lap: nat, turn: nat, id: string)
    requires Rotated(q, ids, lap, turn) && id in PendingOf(q)
    ensures id in q.items && q.items[id].attempts >= lap
  {
    var d :| 0 <= d < |PendingOf(q)| && PendingOf(q)[d] == id;
    assert id == ids[if turn + d < |ids| then turn + d else turn + d - |ids|];
  }

  /** The head of the rotation is furthest behind, so it decides. */
  lemma HeadDecides(q: Queue, ids: seq<string>, size: nat, v: Verdict, maxRetries: nat, q': Queue, lap: nat, turn: nat)
    requires WellFormed(q) && Rotated(q, ids, lap, turn) && 0 < size && FailedRound(q, size, v, maxRetries, q')
    ensures v == PutBack <==> lap < maxRetries
  {
    if v == PutBack {
      var head := PendingOf(q)[..size];
      NothingOutside(head);
      var due :| due in head && due in q.items && q.items[due].attempts + 1 <= maxRetries;
      hide *;
      assert due in PendingOf(q);
      NobodyBehind(q, ids, lap, turn, due);
    } else {
      TurnedItem(q, ids, size, v, maxRetries, q', lap, turn, turn);
    }
  }

  // ------------------------------------------------------------- many rounds

  /** Every pending item is untried, its job exists, and it needs a sink. */
  ghost predicate Untried(sys: System, settings: Settings) {
    && Steady(sys, PendingOf(sys.q), settings)
    && forall id :: id in PendingOf(sys.q) ==> id in sys.q.items && sys.q.items[id].attempts == 0
  }

  /** How many items a batch takes while all of them stay pending. */
  function BatchSize(sys: System, settings: Settings): int {
    Min(LimitOf(sys.q, settings), |PendingOf(sys.q)|)
  }

  lemma FreshRotation(sys: System, settings: Settings)
    requires Untried(sys, settings) && PendingOf(sys.q) != []
    ensures Rotated(sys.q, PendingOf(sys.q), 0, 0)
    ensures 0 < BatchSize(sys, settings) <= |PendingOf(sys.q)|
  {
    PendingDistinct(sys.q.fifo, sys.q.items);
  }

  lemma SameBatches(sys: System, now: System, settings: Settings, lap: nat, turn: nat)
    requires Rotated(now.q, PendingOf(sys.q), lap, turn) && now.q.limits == sys.q.limits
    ensures BatchSize(now, settings) == BatchSize(sys, settings)
    ensures PendingOf(now.q) != []
  {
  }

  lemma {:induction false} SteadyAfter(sys: System, ids: seq<string>, env: Env, n: nat, settings: Settings, k: nat)
    requires Steady(sys, ids, settings)
    ensures Steady(After(sys, env, n, settings, k), ids, settings)
    ensures After(sys, env, n, settings, k).q.limits == sys.q.limits
    decreases k
  {
    hide RunOnce, Steady;
    if k != 0 {
      SteadyAfter(sys, ids, env, n, settings, k - 1);
      RunSteady(After(sys, env, n, settings, k - 1), ids, env, n + k - 1, settings);
    }
  }

  lemma SteadyRotation(sys: System, ids: seq<string>, settings: Settings, lap: nat, turn: nat)
    requires Steady(sys, ids, settings) && Rotated(sys.q, ids, lap, turn)
    ensures Steady(sys, PendingOf(sys.q), settings)
  {
  }

  /** One more run on a rotation that still has a lap to go. */
  lemma OneRound(now: System, ids: seq<string>, env: Env, n: nat, settings: Settings, lap: nat, turn: nat)
    returns (lap': nat, turn': nat)
    requires NothingDelivers(env) && Steady(now, ids, settings) && Rotated(now.q, ids, lap, turn)
    requires lap < settings.maxRetries
    ensures Rotated(RunOnce(now, env, n, settings).0.q, ids, lap', turn')
    ensures lap' * |ids| + turn' == lap * |ids| + turn + BatchSize(now, settings)
  {
    SteadyRotation(now, ids, settings, lap, turn);
    RunFails(now, env, n, settings);
    var (next, report) := RunOnce(now, env, n, settings);
    var size := BatchSize(now, settings);
    hide RunOnce, FailedRound, PendingOf, WellFormed;
    HeadDecides(now.q, ids, size, report.verdict, settings.maxRetries, next.q, lap, turn);
    lap', turn' := Turned(now.q, ids, size, settings.maxRetries, next.q, lap, turn);
  }

  lemma TimesMonotone(a: nat, b: nat, c: nat)
    ensures a <= b ==> a * c <= b * c
    ensures (a + 1) * c == a * c + c
  {
  }

  /** After k batches some pending item still has a retry left. */
  ghost predicate RetryLeft(sys: System, settings: Settings, k: int) {
    k * BatchSize(sys, settings) < settings.maxRetries * |PendingOf(sys.q)|
  }

  /** `lap` laps and `turn` items are k batches. */
  ghost predicate Covers(sys: System, settings: Settings, lap: nat, turn: nat, k: nat) {
    lap * |PendingOf(sys.q)| + turn == k * BatchSize(sys, settings)
  }

  lemma RetryLeftBefore(sys: System, settings: Settings, j: nat, k: nat)
    requires 0 <= BatchSize(sys, settings) && RetryLeft(sys, settings, k) && j <= k
    ensures RetryLeft(sys, settings, j)
  {
    TimesMonotone(j, k, BatchSize(sys, settings));
  }

  lemma LapLeft(sys: System, settings: Settings, lap: nat, turn: nat, k: nat)
    requires Covers(sys, settings, lap, turn, k) && RetryLeft(sys, settings, k)
    ensures lap < settings.maxRetries
  {
    TimesMonotone(settings.maxRetries, lap, |PendingOf(sys.q)|);
  }

  lemma CoversNext(sys: System, settings: Settings, lap: nat, turn: nat, k: nat, lap': nat, turn': nat)
    requires 0 <= BatchSize(sys, settings) && Covers(sys, settings, lap, turn, k)
    requires var size := |PendingOf(sys.q)|;
             lap' * size + turn' == lap * size + turn + BatchSize(sys, settings)
    ensures Covers(sys, settings, lap', turn', k + 1)
  {
    TimesMonotone(k, k, BatchSize(sys, settings));
  }

  lemma NextRound(sys: System, env: Env, n: nat, settings: Settings, k: nat, lap: nat, turn: nat)
    returns (lap': nat, turn': nat)
    requires NothingDelivers(env) && Untried(sys, settings) && PendingOf(sys.q) != []
    requires Rotated(After(sys, env, n, settings, k).q, PendingOf(sys.q), lap, turn)
    requires Covers(sys, settings, lap, turn, k) && RetryLeft(sys, settings, k)
    ensures Rotated(After(sys, env, n, settings, k + 1).q, PendingOf(sys.q), lap', turn')
    ensures Covers(sys, settings, lap', turn', k + 1)
  {
    var ids, now := PendingOf(sys.q), After(sys, env, n, settings, k);
    FreshRotation(sys, settings);
    SteadyAfter(sys, ids, env, n, settings, k);
    SameBatches(sys, now, settings, lap, turn);
    hide RunOnce, PendingOf, BatchSize, Rotated, Steady, Untried, Covers, RetryLeft;
    LapLeft(sys, settings, lap, turn, k);
    lap', turn' := OneRound(now, ids, env, n + k, settings, lap, turn);
    CoversNext(sys, settings, lap, turn, k, lap', turn');
  }

  /** After k runs the queue has rotated by k batches, as long as the last of them had a retry left. */
  lemma {:induction false} Rounds(sys: System, env: Env, n: nat, settings: Settings, k: nat)
    returns (lap: nat, turn: nat)
    requires NothingDelivers(env) && Untried(sys, settings) && PendingOf(sys.q) != []
    requires 0 < k ==> RetryLeft(sys, settings, k - 1)
    ensures Rotated(After(sys, env, n, settings, k).q, PendingOf(sys.q), lap, turn)
    ensures Covers(sys, settings, lap, turn, k)
    decreases k
  {
    hide RunOnce, PendingOf, BatchSize, Rotated, Steady, Untried, RetryLeft;
    FreshRotation(sys, settings);
    if k == 0 {
      lap, turn := 0, 0;
    } else {
      hide Covers, After;
      if 1 < k {
        RetryLeftBefore(sys, settings, k - 2, k - 1);
      }
      lap, turn := Rounds(sys, env, n, settings, k - 1);
      lap, turn := NextRound(sys, env, n, settings, k - 1, lap, turn);
    }
  }

  // -------------------------------------------------- when no retry is left

  /** The first multiple of `size` that reaches `total`. */
  lemma FirstMultiple(total: nat, size: nat) returns (k: nat)
    requires 0 < size
    ensures total <= k * size < total + size && (0 < k ==> (k - 1) * size < total)
    ensures k * size == total <==> total % size == 0
  {
    var q, r := total / size, total % size;
    assert total == q * size + r;
    TimesMonotone(q, q, size);
    k := if r == 0 then q else q + 1;
    assert 0 < k ==> (k - 1) * size + size == k * size;
  }

  lemma LapReached(lap: nat, turn: nat, size: nat, maxRetries: nat)
    requires turn < size && maxRetries * size <= lap * size + turn < maxRetries * size + size
    ensures lap == maxRetries
  {
    TimesMonotone(lap + 1, maxRetries, size);
    TimesMonotone(maxRetries + 1, lap, size);
    TimesMonotone(lap, lap, size);
    TimesMonotone(maxRetries, lap, size);
  }

  /** The run after which nobody has a retry left, and how far the rotation has come by then. */
  lemma LastRetry(sys: System, env: Env, n: nat, settings: Settings) returns (k: nat, turn: nat)
    requires NothingDelivers(env) && Untried(sys, settings) && PendingOf(sys.q) != []
    ensures 0 < BatchSize(sys, settings)
    ensures 0 < k ==> RetryLeft(sys, settings, k - 1)
    ensures Covers(sys, settings, settings.maxRetries, turn, k)
    ensures turn == 0 <==> settings.maxRetries * |PendingOf(sys.q)| % BatchSize(sys, settings) == 0
    ensures Rotated(After(sys, env, n, settings, k).q, PendingOf(sys.q), settings.maxRetries, turn)
  {
    FreshRotation(sys, settings);
    var size, all := BatchSize(sys, settings), |PendingOf(sys.q)|;
    k := FirstMultiple(settings.maxRetries * all, size);
    var lap;
    lap, turn := Rounds(sys, env, n, settings, k);
    hide RunOnce, PendingOf, BatchSize, Rotated, Steady, Untried;
    TurnInside(After(sys, env, n, settings, k).q, PendingOf(sys.q), lap, turn);
    LapReached(lap, turn, all, settings.maxRetries);
  }

  lemma TurnInside(q: Queue, ids: seq<string>, lap: nat, turn: nat)
    requires Rotated(q, ids, lap, turn)
    ensures turn < |ids|
  {
  }

  // ----------------------------------------------------- once more, and no more

  lemma RanTries(q: Queue, v: Verdict, maxRetries: nat, q': Queue, id: string)
    requires WellFormed(q) && RanSome(q, v, maxRetries, q') && id in q.items
    ensures id in q'.items && q'.items[id].attempts >= q.items[id].attempts
    ensures id in PendingOf(q) ==> id in PendingOf(q') || q'.items[id].attempts > q.items[id].attempts
  {
    var taken, drop :| Ran(q, taken, drop, v, maxRetries, q');
    if id in taken {
      assert TakenItem(q.items[id], drop, v, maxRetries, q'.items[id]);
    } else if id in PendingOf(q) {
      assert PendingOf(q) == taken + PendingOf(q)[|taken|..];
    }
  }

  /** An item that is pending is tried again before it stops being pending. */
  lemma {:induction false} TriedAgain(qs: seq<Queue>, vs: seq<Verdict>, maxRetries: nat, j: nat, k: nat, id: string)
    requires Trace(qs, vs, maxRetries) && j <= k <= |vs| && id in PendingOf(qs[j]) && id in qs[j].items
    ensures id in qs[k].items && qs[k].items[id].attempts >= qs[j].items[id].attempts
    ensures id in PendingOf(qs[k]) || qs[k].items[id].attempts > qs[j].items[id].attempts
    decreases k
  {
    hide RanSome, Trace, PendingOf;
    if j < k {
      TriedAgain(qs, vs, maxRetries, j, k - 1, id);
      TraceSound(qs, vs, maxRetries, k - 1);
      TraceStep(qs, vs, maxRetries, k - 1);
      RanTries(qs[k - 1], vs[k - 1], maxRetries, qs[k], id);
    }
  }

  lemma {:induction false} BudgetSpent(items: map<string, Item>, ids: seq<string>, maxRetries: nat)
    requires forall id :: id in ids ==> id in items && items[id].attempts >= maxRetries
    ensures Budget(items, ids, maxRetries) == 0
  {
    if ids != [] {
      BudgetSpent(items, ids[1..], maxRetries);
    }
  }

  /** Once nobody pending has a retry left, an item is tried once more at most. */
  lemma TriedOnceMore(qs: seq<Queue>, vs: seq<Verdict>, maxRetries: nat, j: nat, k: nat, id: string)
    requires Trace(qs, vs, maxRetries) && j <= k <= |vs| && id in qs[j].items
    requires forall i :: i in PendingOf(qs[j]) ==> i in qs[j].items && qs[j].items[i].attempts >= maxRetries
    ensures id in qs[k].items && qs[k].items[id].attempts <= qs[j].items[id].attempts + 1
  {
    TraceSound(qs, vs, maxRetries, j);
    hide RanSome, PendingOf, WellFormed, Budget;
    var rs, ws := qs[j..], vs[j..];
    assert Trace(rs, ws, maxRetries) by {
      forall i | 0 <= i < |ws|
        ensures RanSome(rs[i], ws[i], maxRetries, rs[i + 1])
      {
        TraceStep(qs, vs, maxRetries, j + i);
      }
    }
    TraceBudget(rs, ws, maxRetries, k - j);
    BudgetSpent(qs[j].items, PendingOf(qs[j]), maxRetries);
    assert AttemptsBounded(qs[j].items, qs[k].items, 0);
  }

  // ---------------------------------------------------------------- main result

  /** An item is pending at the start, and has been tried R + 2 times after k runs. */
  predicate OverTried(sys: System, env: Env, n: nat, settings: Settings, k: nat, id: string) {
    && id in PendingOf(sys.q)
    && id in After(sys, env, n, settings, k).q.items
    && After(sys, env, n, settings, k).q.items[id].attempts == settings.maxRetries + 2
  }

  lemma FirstAhead(q: Queue, ids: seq<string>, lap: nat, turn: nat)
    requires Rotated(q, ids, lap, turn) && 0 < turn
    ensures ids[0] in PendingOf(q) && ids[0] in q.items && q.items[ids[0]].attempts == lap + 1
  {
    assert PendingOf(q)[|ids| - turn] == ids[0];
  }

  /** The batch with the last retry reached round, so the first item goes back beyond its limit. */
  lemma FirstOverTried(sys: System, env: Env, n: nat, settings: Settings, k: nat, turn: nat) returns (last: nat)
    requires NothingDelivers(env) && Untried(sys, settings) && PendingOf(sys.q) != [] && 0 < turn
    requires Rotated(After(sys, env, n, settings, k).q, PendingOf(sys.q), settings.maxRetries, turn)
    ensures OverTried(sys, env, n, settings, last, PendingOf(sys.q)[0])
  {
    hide RunOnce, After, RanSome, PendingOf, Rotated;
    var id, maxRetries := PendingOf(sys.q)[0], settings.maxRetries;
    last := k + Measure(sys.q, maxRetries) + 1;
    var qs := TraceOf(sys, env, n, settings, last);
    FirstAhead(qs[k], PendingOf(sys.q), maxRetries, turn);
    TriedAgain(qs, Verdicts(sys, env, n, settings, last), maxRetries, k, last, id);
    PendingRunsOut(qs, Verdicts(sys, env, n, settings, last), maxRetries, last);
    RetriesBounded(sys, env, n, settings, last, id);
  }

  /** No attempt beyond R as long as there are retries, if the rotation ends with a whole lap. */
  lemma WithinLimit(sys: System, env: Env, n: nat, settings: Settings, k: nat, id: string)
    requires NothingDelivers(env) && Untried(sys, settings) && id in PendingOf(sys.q)
    requires 0 < k ==> RetryLeft(sys, settings, k - 1)
    requires k * BatchSize(sys, settings) <= settings.maxRetries * |PendingOf(sys.q)|
    ensures var q := After(sys, env, n, settings, k).q;
            id in q.items && q.items[id].attempts <= settings.maxRetries
  {
    var lap, turn := Rounds(sys, env, n, settings, k);
    var ids := PendingOf(sys.q);
    LapsWithin(lap, turn, |ids|, settings.maxRetries);
    hide RunOnce, After, PendingOf, Steady;
    var i :| 0 <= i < |ids| && ids[i] == id;
  }

  lemma LapsWithin(lap: nat, turn: nat, size: nat, maxRetries: nat)
    requires 0 < size && lap * size + turn <= maxRetries * size
    ensures lap < maxRetries || (lap == maxRetries && turn == 0)
  {
    TimesMonotone(maxRetries + 1, lap, size);
    TimesMonotone(maxRetries, maxRetries, size);
  }

  lemma BeforeLast(sys: System, settings: Settings, last: nat, k: nat)
    requires 0 <= BatchSize(sys, settings) && k <= last
    requires 0 < last ==> RetryLeft(sys, settings, last - 1)
    requires Covers(sys, settings, settings.maxRetries, 0, last)
    ensures 0 < k ==> RetryLeft(sys, settings, k - 1)
    ensures k * BatchSize(sys, settings) <= settings.maxRetries * |PendingOf(sys.q)|
  {
    TimesMonotone(k, last, BatchSize(sys, settings));
    if 0 < k {
      RetryLeftBefore(sys, settings, k - 1, last - 1);
    }
  }

  /** If the last retry ends a lap, nobody is tried more than R + 1 times. */
  lemma NobodyOverTried(sys: System, env: Env, n: nat, settings: Settings, last: nat, k: nat, id: string)
    requires NothingDelivers(env) && Untried(sys, settings) && PendingOf(sys.q) != []
    requires 0 < last ==> RetryLeft(sys, settings, last - 1)
    requires Covers(sys, settings, settings.maxRetries, 0, last)
    requires Rotated(After(sys, env, n, settings, last).q, PendingOf(sys.q), settings.maxRetries, 0)
    ensures !OverTried(sys, env, n, settings, k, id)
  {
    hide After, RunOnce, Rotated, RetryLeft, Covers, BatchSize;
    if id in PendingOf(sys.q) {
      FreshRotation(sys, settings);
      var met := if k <= last then k else last;
      BeforeLast(sys, settings, last, met);
      WithinLimit(sys, env, n, settings, met, id);
      if last < k {
        OnceAfter(sys, env, n, settings, last, k, id);
      }
    }
  }

  lemma OnceAfter(sys: System, env: Env, n: nat, settings: Settings, last: nat, k: nat, id: string)
    requires WellFormed(sys.q) && ValidLimits(sys.q.limits) && last <= k
    requires Rotated(After(sys, env, n, settings, last).q, PendingOf(sys.q), settings.maxRetries, 0)
    requires id in After(sys, env, n, settings, last).q.items
    ensures var (q, q') := (After(sys, env, n, settings, last).q, After(sys, env, n, settings, k).q);
            id in q'.items && q'.items[id].attempts <= q.items[id].attempts + 1
  {
    hide RunOnce, After, RanSome;
    var qs := TraceOf(sys, env, n, settings, k);
    TriedOnceMore(qs, Verdicts(sys, env, n, settings, k), settings.maxRetries, last, k, id);
  }

  lemma WholeLaps(maxRetries: nat, size: nat)
    requires 0 < size
    ensures maxRetries * size % size == 0
  {
    var k := FirstMultiple(maxRetries * size, size);
    TimesMonotone(k + 1, maxRetries, size);
    TimesMonotone(maxRetries + 1, k, size);
    TimesMonotone(k, k, size);
    TimesMonotone(maxRetries, maxRetries, size);
  }

  /** A batch as large as the queue ends every lap. */
  lemma BatchDivides(maxRetries: nat, size: nat, b: int)
    requires 0 < size && 0 < b
    ensures maxRetries * size % Min(b, size) == 0 <==> !(size > b && maxRetries * size % b != 0)
  {
    WholeLaps(maxRetries, size);
  }

  /**
   * When nothing can be delivered, from N pending items of existing jobs that were never
   * tried and need a sink, in batches of b, with R retries: some item is tried R + 2 times
   * iff N is more than b and b does not divide R * N.
   */
  lemma OverTriedExactly(sys: System, env: Env, n: nat, settings: Settings)
    requires NothingDelivers(env) && Untried(sys, settings)
    ensures 0 < sys.q.limits.maxBulkSize
    ensures var (size, bulk) := (|PendingOf(sys.q)|, sys.q.limits.maxBulkSize);
            var b := if settings.maxBulkSize == 0 then bulk else Min(settings.maxBulkSize, bulk);
            (exists k: nat, id :: OverTried(sys, env, n, settings, k, id))
            <==> size > b && settings.maxRetries * size % b != 0
  {
    if PendingOf(sys.q) != [] {
      FreshRotation(sys, settings);
      var last, turn := LastRetry(sys, env, n, settings);
      BatchDivides(settings.maxRetries, |PendingOf(sys.q)|, LimitOf(sys.q, settings));
      hide *;
      if turn == 0 {
        forall k: nat, id
          ensures !OverTried(sys, env, n, settings, k, id)
        {
          NobodyOverTried(sys, env, n, settings, last, k, id);
        }
      } else {
        var k := FirstOverTried(sys, env, n, settings, last, turn);
        assert OverTried(sys, env, n, settings, k, PendingOf(sys.q)[0]);
      }
    }
  }

  /** Three jobs are enqueued, one after the other. */
  function ThreeQueued(limits: Limits, payload: Payload): Queue {
    var empty := Queue(limits, [], map[], map[]);
    var one := AfterEnqueue(empty, "a", payload, "q0").0;
    var two := AfterEnqueue(one, "b", payload, "q1").0;
    AfterEnqueue(two, "c", payload, "q2").0
  }

  function ThreeItems(payload: Payload): map<string, Item> {
    map["q0" := NewItem("a", payload, "q0"), "q1" := NewItem("b", payload, "q1"), "q2" := NewItem("c", payload, "q2")]
  }

  lemma ThreeInOrder(limits: Limits, payload: Payload)
    requires limits.maxSize >= 3 && !TooLarge(limits, payload)
    ensures ThreeQueued(limits, payload)
         == Queue(limits, ["q0", "q1", "q2"], ThreeItems(payload), map["a" := "q0", "b" := "q1", "c" := "q2"])
  {
  }

  lemma ThreePending(limits: Limits, payload: Payload)
    requires limits.maxSize >= 3 && !TooLarge(limits, payload)
    ensures WellFormed(ThreeQueued(limits, payload))
    ensures PendingOf(ThreeQueued(limits, payload)) == ["q0", "q1", "q2"]
  {
    ThreeInOrder(limits, payload);
    hide ThreeQueued;
    var q := ThreeQueued(limits, payload);
    assert q.fifo[1..] == ["q1", "q2"] && q.fifo[1..][1..] == ["q2"] && q.fifo[1..][1..][1..] == [];
    assert QueueLaws.Pending(["q2"], q.items) == ["q2"];
    assert QueueLaws.Pending(["q1", "q2"], q.items) == ["q1", "q2"];
  }

  lemma ThreeAlike(payload: Payload)
    ensures forall id :: id in ["q0", "q1", "q2"] ==>
              && id in ThreeItems(payload)
              && ThreeItems(payload)[id].payload == payload
              && ThreeItems(payload)[id].attempts == 0
              && ThreeItems(payload)[id].jobId in {"a", "b", "c"}
  {
  }

  lemma ThreeUntried(limits: Limits, payload: Payload, t: Repo.Tables, settings: Settings)
    requires ValidLimits(limits) && limits.maxBulkSize >= 2 && limits.maxSize >= 3 && !TooLarge(limits, payload)
    requires payload.recordCount > 0 && settings.maxBulkSize == 2
    requires Repo.KeyedRows(t) && {"a", "b", "c"} <= t.jobs.Keys
    ensures var sys := System(ThreeQueued(limits, payload), t);
            Untried(sys, settings) && PendingOf(sys.q) == ["q0", "q1", "q2"] && BatchSize(sys, settings) == 2
  {
    ThreePending(limits, payload);
    ThreeInOrder(limits, payload);
    ThreeAlike(payload);
    hide PendingOf, ThreeQueued, WellFormed, ThreeItems, TooLarge, NewItem;
  }

  /**
   * An item tried beyond the limit of one retry: three jobs in batches of two go
   * (a, b), (c, a), (b, c), (a), and the second batch is put back for c, although a has had its retry.
   */
  lemma ThirdTry(limits: Limits, payload: Payload, t: Repo.Tables, env: Env, settings: Settings)
    returns (k: nat)
    requires ValidLimits(limits) && limits.maxBulkSize >= 2 && limits.maxSize >= 3 && !TooLarge(limits, payload)
    requires payload.recordCount > 0 && NothingDelivers(env)
    requires Repo.KeyedRows(t) && {"a", "b", "c"} <= t.jobs.Keys
    requires settings.maxBulkSize == 2 && settings.maxRetries == 1
    ensures var q := After(System(ThreeQueued(limits, payload), t), env, 0, settings, k).q;
            "q0" in q.items && q.items["q0"].attempts == 3
  {
    var sys := System(ThreeQueued(limits, payload), t);
    ThreeUntried(limits, payload, t, settings);
    hide *;
    var last, turn := LastRetry(sys, env, 0, settings);
    k := FirstOverTried(sys, env, 0, settings, last, turn);
    OverTriedItem(sys, env, settings, k, PendingOf(sys.q)[0]);
  }

  lemma OverTriedItem(sys: System, env: Env, settings: Settings, k: nat, id: string)
    requires OverTried(sys, env, 0, settings, k, id)
    ensures var q := After(sys, env, 0, settings, k).q;
            id in q.items && q.items[id].attempts == settings.maxRetries + 2
  {
  }
}
