/**
 * How often a single dispatcher tries again.  A batch is retried as a whole as
 * soon as one of its items has attempts left, so an item may be tried beyond its
 * own limit, and exactly when is said here; but retries go to the end of the queue, which
 * keeps the attempts of the pending items level, and so the excess small.
 */
module DispatchRetries {
  import opened Sequences
  import opened DispatchQueue
  import opened QueueLaws
  import opened DispatchSteps
  import opened DispatchDrain

  lemma {:induction false} FreshBudget(items: map<string, Item>, ids: seq<string>, maxRetries: nat)
    requires forall id :: id in ids ==> id in items && items[id].attempts == 0
    ensures Budget(items, ids, maxRetries) == |ids| * maxRetries
  {
    if ids != [] {
      FreshBudget(items, ids[1..], maxRetries);
      assert |ids| == 1 + |ids[1..]|;
      assert (1 + |ids[1..]|) * maxRetries == maxRetries + |ids[1..]| * maxRetries;
    }
  }

  // --------------------------------------------------------------------- level

  /** Attempts do not fall along the pending ids, and rise by one at most from first to last. */
  ghost predicate Level(items: map<string, Item>, ids: seq<string>) {
    && (forall i :: 0 <= i < |ids| ==> ids[i] in items)
    && forall i, j :: 0 <= i <= j < |ids| ==>
         items[ids[i]].attempts <= items[ids[j]].attempts <= items[ids[i]].attempts + 1
  }

  /** Level, and nobody pending has been tried more than maxRetries + 1 times. */
  ghost predicate LevelWithin(q: Queue, maxRetries: nat) {
    Level(q.items, PendingOf(q)) && forall id :: id in PendingOf(q) ==> q.items[id].attempts <= maxRetries + 1
  }

  /** Leaving ids out keeps the order of the others. */
  lemma {:induction false} OutsideOrder(ids: seq<string>, drop: set<string>, i: nat, j: nat) returns (a: nat, b: nat)
    requires i <= j < |Outside(ids, drop)|
    ensures a <= b < |ids| && ids[a] == Outside(ids, drop)[i] && ids[b] == Outside(ids, drop)[j]
  {
    var rest := Outside(ids[1..], drop);
    if ids[0] in drop {
      assert Outside(ids, drop) == rest;
      a, b := OutsideOrder(ids[1..], drop, i, j);
      a, b := a + 1, b + 1;
    } else {
      assert Outside(ids, drop) == [ids[0]] + rest;
      if j == 0 {
        a, b := 0, 0;
      } else {
        a, b := OutsideOrder(ids[1..], drop, if i == 0 then 0 else i - 1, j - 1);
        a, b := if i == 0 then 0 else a + 1, b + 1;
      }
    }
  }

  /** What is put back has the attempts of the batch it came from, and one more. */
  lemma ReturnedAttempts(q: Queue, taken: seq<string>, drop: set<string>, v: Verdict, maxRetries: nat, q': Queue,
                         k: nat) returns (b: nat)
    requires WellFormed(q) && Ran(q, taken, drop, v, maxRetries, q') && k < |Returned(taken, drop, v)|
    ensures v == PutBack && b < |taken| && taken[b] == Returned(taken, drop, v)[k]
    ensures taken[b] in q.items && taken[b] in q'.items
    ensures q'.items[taken[b]].attempts == q.items[taken[b]].attempts + 1
  {
    var a;
    a, b := OutsideOrder(taken, drop, k, k);
    assert TakenItem(q.items[taken[b]], drop, v, maxRetries, q'.items[taken[b]]);
  }

  lemma RestAttempts(q: Queue, taken: seq<string>, drop: set<string>, v: Verdict, maxRetries: nat, q': Queue, k: nat)
    requires WellFormed(q) && Ran(q, taken, drop, v, maxRetries, q') && |taken| <= k < |PendingOf(q)|
    ensures PendingOf(q)[k] in q.items && PendingOf(q)[k] in q'.items
    ensures q'.items[PendingOf(q)[k]].attempts == q.items[PendingOf(q)[k]].attempts
  {
    var p := PendingOf(q);
    PendingDistinct(q.fifo, q.items);
    PendingMember(q.fifo, q.items, p[k]);
    assert forall j :: 0 <= j < |taken| ==> taken[j] == p[j];
  }

  /** After a run the pending ids are the rest of the queue and then what was put back. */
  lemma PendingAfter(q: Queue, taken: seq<string>, drop: set<string>, v: Verdict, maxRetries: nat, q': Queue, k: nat)
    requires Ran(q, taken, drop, v, maxRetries, q') && k < |PendingOf(q')|
    ensures |taken| <= |PendingOf(q)|
    ensures var m := |PendingOf(q)| - |taken|;
            && (k < m ==> PendingOf(q')[k] == PendingOf(q)[|taken| + k])
            && (m <= k ==> k - m < |Returned(taken, drop, v)| && PendingOf(q')[k] == Returned(taken, drop, v)[k - m])
  {
  }

  lemma TakenFirst(q: Queue, taken: seq<string>, drop: set<string>, v: Verdict, maxRetries: nat, q': Queue, b: nat)
    requires Ran(q, taken, drop, v, maxRetries, q') && b < |taken|
    ensures |taken| <= |PendingOf(q)| && PendingOf(q)[b] == taken[b]
  {
  }

  lemma PairLevel(q: Queue, taken: seq<string>, drop: set<string>, v: Verdict, maxRetries: nat, q': Queue, i: nat,
                  j: nat)
    requires WellFormed(q) && Ran(q, taken, drop, v, maxRetries, q') && Level(q.items, PendingOf(q))
    requires i <= j < |PendingOf(q')|
    ensures var p' := PendingOf(q');
            && p'[i] in q'.items && p'[j] in q'.items
            && q'.items[p'[i]].attempts <= q'.items[p'[j]].attempts <= q'.items[p'[i]].attempts + 1
  {
    hide Ran, WellFormed, Returned, PendingOf;
    PendingAfter(q, taken, drop, v, maxRetries, q', i);
    var m := |PendingOf(q)| - |taken|;
    PendingAfter(q, taken, drop, v, maxRetries, q', j);
    if i < m {
      RestAttempts(q, taken, drop, v, maxRetries, q', |taken| + i);
    }
    if j < m {
      RestAttempts(q, taken, drop, v, maxRetries, q', |taken| + j);
    } else if i < m {
      var b := ReturnedAttempts(q, taken, drop, v, maxRetries, q', j - m);
      TakenFirst(q, taken, drop, v, maxRetries, q', b);
    } else {
      hide *;
      BothReturned(q, taken, drop, v, maxRetries, q', i - m, j - m);
    }
  }

  /** One run keeps the pending ids level: the batch was ahead of the rest, and comes back one higher. */
  lemma RanLevel(q: Queue, taken: seq<string>, drop: set<string>, v: Verdict, maxRetries: nat, q': Queue)
    requires WellFormed(q) && Ran(q, taken, drop, v, maxRetries, q') && Level(q.items, PendingOf(q))
    ensures Level(q'.items, PendingOf(q'))
  {
    forall i, j | 0 <= i <= j < |PendingOf(q')|
      ensures PendingOf(q')[i] in q'.items && PendingOf(q')[j] in q'.items
      ensures q'.items[PendingOf(q')[i]].attempts <= q'.items[PendingOf(q')[j]].attempts
              <= q'.items[PendingOf(q')[i]].attempts + 1
    {
      hide *;
      PairLevel(q, taken, drop, v, maxRetries, q', i, j);
    }
  }

  lemma BothReturned(q: Queue, taken: seq<string>, drop: set<string>, v: Verdict, maxRetries: nat, q': Queue,
                     i: nat, j: nat)
    requires WellFormed(q) && Ran(q, taken, drop, v, maxRetries, q') && Level(q.items, PendingOf(q))
    requires i <= j < |Returned(taken, drop, v)|
    ensures var back := Returned(taken, drop, v);
            && back[i] in q'.items && back[j] in q'.items
            && q'.items[back[i]].attempts <= q'.items[back[j]].attempts <= q'.items[back[i]].attempts + 1
  {
    var a, b := OutsideOrder(taken, drop, i, j);
    assert PendingOf(q)[a] == taken[a] && PendingOf(q)[b] == taken[b];
    assert TakenItem(q.items[taken[a]], drop, v, maxRetries, q'.items[taken[a]]);
    assert TakenItem(q.items[taken[b]], drop, v, maxRetries, q'.items[taken[b]]);
  }

  /** A batch that is put back has an item within the limit, so none of it is beyond the limit by more than one. */
  lemma BackWithin(q: Queue, taken: seq<string>, drop: set<string>, maxRetries: nat, q': Queue, b: nat)
    requires WellFormed(q) && Ran(q, taken, drop, PutBack, maxRetries, q') && LevelWithin(q, maxRetries)
    requires b < |taken|
    ensures taken[b] in q.items && q.items[taken[b]].attempts <= maxRetries
  {
    var p := PendingOf(q);
    var due :| due in Returned(taken, drop, PutBack) && due in q.items && q.items[due].attempts + 1 <= maxRetries;
    OutsideMember(taken, drop, due);
    var d :| 0 <= d < |taken| && taken[d] == due;
    assert p[b] == taken[b] && p[d] == due;
  }

  lemma RanWithin(q: Queue, taken: seq<string>, drop: set<string>, v: Verdict, maxRetries: nat, q': Queue, k: nat)
    requires WellFormed(q) && Ran(q, taken, drop, v, maxRetries, q') && LevelWithin(q, maxRetries)
    requires k < |PendingOf(q')|
    ensures PendingOf(q')[k] in q'.items && q'.items[PendingOf(q')[k]].attempts <= maxRetries + 1
  {
    hide Ran, WellFormed, Level, Returned, PendingOf;
    PendingAfter(q, taken, drop, v, maxRetries, q', k);
    var m := |PendingOf(q)| - |taken|;
    if k < m {
      RestAttempts(q, taken, drop, v, maxRetries, q', |taken| + k);
      assert PendingOf(q)[|taken| + k] in PendingOf(q);
    } else {
      var b := ReturnedAttempts(q, taken, drop, v, maxRetries, q', k - m);
      BackWithin(q, taken, drop, maxRetries, q', b);
    }
  }

  lemma RanLevelWithin(q: Queue, v: Verdict, maxRetries: nat, q': Queue)
    requires WellFormed(q) && RanSome(q, v, maxRetries, q') && LevelWithin(q, maxRetries)
    ensures LevelWithin(q', maxRetries)
    ensures forall id :: id in q.items ==>
              id in q'.items && q'.items[id].attempts <= Max(q.items[id].attempts, maxRetries + 2)
  {
    var taken, drop :| Ran(q, taken, drop, v, maxRetries, q');
    RanLevel(q, taken, drop, v, maxRetries, q');
    forall k | 0 <= k < |PendingOf(q')|
      ensures q'.items[PendingOf(q')[k]].attempts <= maxRetries + 1
    {
      RanWithin(q, taken, drop, v, maxRetries, q', k);
    }
    forall id | id in q.items
      ensures id in q'.items && q'.items[id].attempts <= Max(q.items[id].attempts, maxRetries + 2)
    {
    }
  }

  lemma {:induction false} TraceLevel(qs: seq<Queue>, vs: seq<Verdict>, maxRetries: nat, k: nat)
    requires Trace(qs, vs, maxRetries) && k <= |vs| && LevelWithin(qs[0], maxRetries)
    ensures LevelWithin(qs[k], maxRetries)
    ensures forall id :: id in qs[0].items ==>
              id in qs[k].items && qs[k].items[id].attempts <= Max(qs[0].items[id].attempts, maxRetries + 2)
    decreases k
  {
    hide RanSome, Trace, LevelWithin;
    if k != 0 {
      TraceLevel(qs, vs, maxRetries, k - 1);
      TraceSound(qs, vs, maxRetries, k - 1);
      TraceStep(qs, vs, maxRetries, k - 1);
      RanLevelWithin(qs[k - 1], vs[k - 1], maxRetries, qs[k]);
    }
  }

  // --------------------------------------------------------------- main results

  lemma UntriedLevel(q: Queue, maxRetries: nat)
    requires WellFormed(q) && forall id :: id in PendingOf(q) ==> id in q.items && q.items[id].attempts == 0
    ensures LevelWithin(q, maxRetries)
  {
  }

  /** A run touches no item that is not pending, and nothing becomes pending that was not. */
  lemma RanOthers(q: Queue, v: Verdict, maxRetries: nat, q': Queue, id: string)
    requires WellFormed(q) && RanSome(q, v, maxRetries, q') && id in q.items && id !in PendingOf(q)
    ensures id in q'.items && q'.items[id] == q.items[id] && id !in PendingOf(q')
  {
    var taken, drop :| Ran(q, taken, drop, v, maxRetries, q');
    OutsideMember(taken, drop, id);
    assert forall i :: 0 <= i < |taken| ==> taken[i] == PendingOf(q)[i];
    forall k | 0 <= k < |PendingOf(q')|
      ensures PendingOf(q')[k] != id
    {
      PendingAfter(q, taken, drop, v, maxRetries, q', k);
    }
  }

  lemma {:induction false} TraceOthers(qs: seq<Queue>, vs: seq<Verdict>, maxRetries: nat, k: nat, id: string)
    requires Trace(qs, vs, maxRetries) && k <= |vs| && id in qs[0].items && id !in PendingOf(qs[0])
    ensures id in qs[k].items && qs[k].items[id] == qs[0].items[id] && id !in PendingOf(qs[k])
    decreases k
  {
    hide RanSome, Trace;
    if k != 0 {
      TraceOthers(qs, vs, maxRetries, k - 1, id);
      TraceSound(qs, vs, maxRetries, k - 1);
      TraceStep(qs, vs, maxRetries, k - 1);
      RanOthers(qs[k - 1], vs[k - 1], maxRetries, qs[k], id);
    }
  }

  lemma TraceRetries(qs: seq<Queue>, vs: seq<Verdict>, maxRetries: nat, id: string)
    requires Trace(qs, vs, maxRetries) && id in qs[0].items
    requires forall i :: i in PendingOf(qs[0]) ==> i in qs[0].items && qs[0].items[i].attempts == 0
    ensures PutBacks(vs) <= |PendingOf(qs[0])| * maxRetries
    ensures id in qs[|vs|].items
    ensures if id in PendingOf(qs[0])
            then qs[|vs|].items[id].attempts <= Min(|PendingOf(qs[0])| * maxRetries + 1, maxRetries + 2)
            else qs[|vs|].items[id] == qs[0].items[id]
  {
    assert vs[..|vs|] == vs;
    TraceBudget(qs, vs, maxRetries, |vs|);
    FreshBudget(qs[0].items, PendingOf(qs[0]), maxRetries);
    if id in PendingOf(qs[0]) {
      UntriedLevel(qs[0], maxRetries);
      TraceLevel(qs, vs, maxRetries, |vs|);
    } else {
      TraceOthers(qs, vs, maxRetries, |vs|, id);
    }
  }

  /**
   * From N pending items that have not been tried, beside any others, and
   * whatever the sinks do: at most N * R batches are ever put back, no pending item is tried
   * more than N * R + 1 times nor more than R + 2 times, and the other items are not touched.
   */
  lemma RetriesBounded(sys: System, env: Env, n: nat, settings: Settings, k: nat, id: string)
    requires WellFormed(sys.q) && ValidLimits(sys.q.limits) && id in sys.q.items
    requires forall i :: i in PendingOf(sys.q) ==> i in sys.q.items && sys.q.items[i].attempts == 0
    ensures var size, retries, after := |PendingOf(sys.q)|, settings.maxRetries, After(sys, env, n, settings, k).q;
            && PutBacks(Verdicts(sys, env, n, settings, k)) <= size * retries
            && id in after.items
            && if id in PendingOf(sys.q) then after.items[id].attempts <= Min(size * retries + 1, retries + 2)
               else after.items[id] == sys.q.items[id]
  {
    hide RunOnce;
    var qs := TraceOf(sys, env, n, settings, k);
    TraceRetries(qs, Verdicts(sys, env, n, settings, k), settings.maxRetries, id);
  }

  // ------------------------------------------------------------ beyond the limit

  /** The next batch, without the items of deleted jobs. */
  function HeadIds(sys: System, settings: Settings): seq<string> {
    Outside(TakenIds(sys, settings), DroppedIds(sys, settings))
  }

  /** The delivery of the next batch fails. */
  predicate Fails(sys: System, env: Env, n: nat, settings: Settings) {
    var known := KnownItems(sys.t, Take(sys.q, LimitOf(sys.q, settings)).1);
    known != [] && Outcome(sys.t, known, env, n, settings).Err?
  }

  /** Some of the items have been tried less often than the limit, and some that often. */
  predicate Mixed(items: map<string, Item>, ids: seq<string>, maxRetries: nat) {
    && (exists i :: 0 <= i < |ids| && ids[i] in items && items[ids[i]].attempts < maxRetries)
    && (exists i :: 0 <= i < |ids| && ids[i] in items && items[ids[i]].attempts >= maxRetries)
  }

  /** One of these items is pending although it has used up its own retries. */
  predicate PendingBeyond(q: Queue, ids: seq<string>, maxRetries: nat) {
    exists i :: 0 <= i < |ids| && ids[i] in PendingOf(q) && ids[i] in q.items && q.items[ids[i]].attempts > maxRetries
  }

  lemma FailsVerdict(sys: System, env: Env, n: nat, settings: Settings)
    requires WellFormed(sys.q) && ValidLimits(sys.q.limits)
    ensures var v := RunOnce(sys, env, n, settings).1.verdict;
            v == PutBack || v == GivenUp <==> Fails(sys, env, n, settings)
  {
    RunOnceLaw(sys, env, n, settings);
    hide Ran, WellFormed, AfterFailed, AllStates, Take;
  }

  /** What is pending again after a run has been put back. */
  lemma PutBackPending(q: Queue, taken: seq<string>, drop: set<string>, v: Verdict, maxRetries: nat, q': Queue, b: nat)
    requires WellFormed(q) && Ran(q, taken, drop, v, maxRetries, q') && b < |taken|
    ensures taken[b] in q.items && taken[b] in q'.items
    ensures q'.items[taken[b]].attempts == q.items[taken[b]].attempts + 1
    ensures taken[b] in PendingOf(q') <==> v == PutBack && taken[b] !in drop
    ensures v == GivenUp && taken[b] !in drop ==> q.items[taken[b]].attempts >= maxRetries
  {
    var id := taken[b];
    PendingDistinct(q.fifo, q.items);
    OutsideMember(taken, drop, id);
    assert TakenItem(q.items[id], drop, v, maxRetries, q'.items[id]);
    assert PendingOf(q)[b] == id;
    PendingMember(q.fifo, q.items, id);
    assert id !in PendingOf(q)[|taken|..];
  }

  /**
   * A run puts an item back beyond its own limit iff its delivery fails and its batch mixes
   * items that still have a retry with items that have none.
   */
  lemma BeyondLimitExactly(sys: System, env: Env, n: nat, settings: Settings)
    requires WellFormed(sys.q) && ValidLimits(sys.q.limits)
    ensures PendingBeyond(RunOnce(sys, env, n, settings).0.q, HeadIds(sys, settings), settings.maxRetries)
            <==> Fails(sys, env, n, settings) && Mixed(sys.q.items, HeadIds(sys, settings), settings.maxRetries)
  {
    var (sys', report) := RunOnce(sys, env, n, settings);
    RunOnceLaw(sys, env, n, settings);
    FailsVerdict(sys, env, n, settings);
    HeadBeyond(sys.q, TakenIds(sys, settings), DroppedIds(sys, settings), report.verdict, settings.maxRetries, sys'.q);
  }

  lemma HeadBeyond(q: Queue, taken: seq<string>, drop: set<string>, v: Verdict, maxRetries: nat, q': Queue)
    requires WellFormed(q) && Ran(q, taken, drop, v, maxRetries, q')
    ensures PendingBeyond(q', Outside(taken, drop), maxRetries)
            <==> (v == PutBack || v == GivenUp) && Mixed(q.items, Outside(taken, drop), maxRetries)
  {
    var head := Outside(taken, drop);
    forall i | 0 <= i < |head|
      ensures head[i] in q.items && head[i] in q'.items
      ensures q'.items[head[i]].attempts == q.items[head[i]].attempts + 1
      ensures head[i] in PendingOf(q') <==> v == PutBack
      ensures v == GivenUp ==> q.items[head[i]].attempts >= maxRetries
    {
      OutsideMember(taken, drop, head[i]);
      var b :| 0 <= b < |taken| && taken[b] == head[i];
      PutBackPending(q, taken, drop, v, maxRetries, q', b);
    }
    assert v == PutBack ==> exists d :: 0 <= d < |head| && head[d] in q.items && q.items[head[d]].attempts < maxRetries;
    hide Ran, WellFormed, PendingOf, Outside;
  }
}
