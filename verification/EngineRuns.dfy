/**
 * Threads share the engine registry.  The semaphore and the registry lock are
 * separate, so acquiring is two atomic steps and so is releasing; a thread that
 * has a permit but no engine holds a ticket.
 */
module EngineRuns {
  import opened Wrappers
  import opened Sequences
  import opened Tallies
  import opened EnginePools

  datatype Hold<E> = Hold(engine: E, key: EngineKey, cached: bool)

  /**
   * `made` are the engines ever built; the three counts per key are history of
   * the cached ones.
   */
  datatype World<E> = World(
    reg: Registry<E>,
    holds: seq<Hold<E>>,
    tickets: nat,
    made: set<E>,
    built: map<EngineKey, nat>,
    discarded: map<EngineKey, nat>,
    evicted: map<EngineKey, nat>)

  datatype Step<E> =
    | TakePermit
      // under the lock with a ticket; `offer` is the engine the factory would build, None if it raises
    | Lease(key: EngineKey, cached: bool, offer: Option<E>)
    | GiveBackEngine(i: nat, discard: bool)
    | GiveBackPermit
    | EvictIdle(stale: set<E>)

  function Dropped<T>(s: seq<T>, i: nat): seq<T>
    requires i < |s|
  {
    s[..i] + s[i + 1..]
  }

  function Leased<E>(w: World<E>, key: EngineKey, cached: bool, offer: Option<E>): World<E> {
    var free := if cached then FirstFree(PoolOf(w.reg.pools, key), w.reg.leased) else None;
    if free.Some? then
      w.(reg := AfterHit(w.reg, free.value),
         holds := w.holds + [Hold(free.value, key, true)],
         tickets := if w.tickets > 0 then w.tickets - 1 else 0)
    else if offer.None? then w
    else
      w.(reg := if cached then AfterBuild(w.reg, key, offer.value) else w.reg,
         holds := w.holds + [Hold(offer.value, key, cached)],
         tickets := if w.tickets > 0 then w.tickets - 1 else 0,
         made := w.made + {offer.value},
         built := if cached then Bump(w.built, key) else w.built)
  }

  function EvictedCounts<E>(w: World<E>, stale: set<E>): map<EngineKey, nat> {
    map k | k in w.evicted.Keys + w.reg.pools.Keys ::
      Tally(w.evicted, k) + |Evicted(PoolOf(w.reg.pools, k), w.reg.leased, stale)|
  }

  ghost predicate Next<E>(w: World<E>, step: Step<E>, w': World<E>) {
    match step
    case TakePermit =>
      0 < w.reg.permits && w' == w.(reg := w.reg.(permits := w.reg.permits - 1), tickets := w.tickets + 1)
    case Lease(key, cached, offer) =>
      && 0 < w.tickets
      && (offer.Some? ==> offer.value !in w.made)
      && w' == Leased(w, key, cached, offer)
    case GiveBackEngine(i, discard) =>
      && i < |w.holds|
      && var h := w.holds[i];
         w' == w.(reg := AfterReturn(w.reg, h.key, h.engine, discard || !h.cached),
                  holds := Dropped(w.holds, i),
                  tickets := w.tickets + 1,
                  discarded := if h.cached && discard then Bump(w.discarded, h.key) else w.discarded)
    case GiveBackPermit =>
      0 < w.tickets && w' == w.(reg := w.reg.(permits := w.reg.permits + 1), tickets := w.tickets - 1)
    case EvictIdle(stale) =>
      w' == w.(reg := AfterEvict(w.reg, stale), evicted := EvictedCounts(w, stale))
  }

  ghost predicate Init<E>(w: World<E>, concurrency: nat) {
    w == World(Registry(map[], {}, concurrency), [], 0, {}, map[], map[], map[])
  }

  // ---------------------------------------------------------------- invariant

  /** The engines of the cached holds. */
  function CachedEngines<E>(holds: seq<Hold<E>>): set<E> {
    set i | 0 <= i < |holds| && holds[i].cached :: holds[i].engine
  }

  ghost predicate PoolsInv<E>(w: World<E>, concurrency: nat) {
    && (forall k :: k in w.reg.pools ==> 0 < |w.reg.pools[k]| <= concurrency && Distinct(w.reg.pools[k]))
    && (forall k, l, e :: k in w.reg.pools && l in w.reg.pools && e in w.reg.pools[k] && e in w.reg.pools[l] ==> k == l)
    && (forall k, e :: k in w.reg.pools && e in w.reg.pools[k] ==> e in w.made)
  }

  ghost predicate HoldsInv<E>(w: World<E>) {
    && (forall i, j :: 0 <= i < j < |w.holds| ==> w.holds[i].engine != w.holds[j].engine)
    && (forall i :: 0 <= i < |w.holds| ==> HoldOk(w, w.holds[i]))
    && w.reg.leased == CachedEngines(w.holds)
  }

  ghost predicate HoldOk<E>(w: World<E>, h: Hold<E>) {
    && h.engine in w.made
    && (h.cached ==> h.engine in PoolOf(w.reg.pools, h.key))
    && (!h.cached ==> forall k :: k in w.reg.pools ==> h.engine !in w.reg.pools[k])
  }

  ghost predicate Conserved<E>(w: World<E>) {
    forall k :: Tally(w.built, k) == |PoolOf(w.reg.pools, k)| + Tally(w.discarded, k) + Tally(w.evicted, k)
  }

  ghost predicate Inv<E>(w: World<E>, concurrency: nat) {
    && w.reg.permits + w.tickets + |w.holds| == concurrency
    && PoolsInv(w, concurrency)
    && HoldsInv(w)
    && Conserved(w)
  }

  lemma {:induction false} CachedCount<E>(holds: seq<Hold<E>>)
    ensures |CachedEngines(holds)| <= |holds|
  {
    if holds == [] {
      assert CachedEngines(holds) == {};
    } else {
      var init, last := holds[..|holds| - 1], holds[|holds| - 1];
      CachedCount(init);
      CachedAppend(init, last);
      assert holds == init + [last];
    }
  }

  lemma CachedAppend<E>(holds: seq<Hold<E>>, h: Hold<E>)
    ensures CachedEngines(holds + [h]) == CachedEngines(holds) + if h.cached then {h.engine} else {}
  {
    var whole := holds + [h];
    forall e | e in CachedEngines(holds)
      ensures e in CachedEngines(whole)
    {
      var i :| 0 <= i < |holds| && holds[i].cached && holds[i].engine == e;
      assert whole[i] == holds[i];
    }
    assert whole[|holds|] == h;
  }

  /** The pigeonhole: a pool whose engines are all leased is smaller than the concurrency. */
  lemma AllLeasedMeansRoom<E>(w: World<E>, key: EngineKey, concurrency: nat)
    requires Inv(w, concurrency) && 0 < w.tickets
    requires FirstFree(PoolOf(w.reg.pools, key), w.reg.leased).None?
    ensures |PoolOf(w.reg.pools, key)| < concurrency
  {
    var pool := PoolOf(w.reg.pools, key);
    FirstFreeLaw(pool, w.reg.leased);
    DistinctCardinality(pool);
    SubsetSize(Elements(pool), w.reg.leased);
    CachedCount(w.holds);
  }

  lemma HitKeeps<E>(w: World<E>, key: EngineKey, engine: E, w': World<E>, concurrency: nat)
    requires Inv(w, concurrency) && 0 < w.tickets
    requires FirstFree(PoolOf(w.reg.pools, key), w.reg.leased) == Some(engine)
    requires w' == w.(reg := AfterHit(w.reg, engine), holds := w.holds + [Hold(engine, key, true)],
                      tickets := w.tickets - 1)
    ensures Inv(w', concurrency)
  {
    FirstFreeLaw(PoolOf(w.reg.pools, key), w.reg.leased);
    CachedAppend(w.holds, Hold(engine, key, true));
    forall i | 0 <= i < |w.holds|
      ensures w.holds[i].engine != engine
    {
      assert HoldOk(w, w.holds[i]);
      assert w.holds[i].cached ==> w.holds[i].engine in CachedEngines(w.holds);
    }
    forall i | 0 <= i < |w'.holds|
      ensures HoldOk(w', w'.holds[i])
    {
      if i < |w.holds| {
        assert HoldOk(w, w.holds[i]);
      }
    }
    assert Conserved(w') by {
      forall k
        ensures Tally(w'.built, k) == |PoolOf(w'.reg.pools, k)| + Tally(w'.discarded, k) + Tally(w'.evicted, k)
      {
        assert Tally(w.built, k) == |PoolOf(w.reg.pools, k)| + Tally(w.discarded, k) + Tally(w.evicted, k);
      }
    }
  }

  ghost predicate Builds<E>(w: World<E>, key: EngineKey, cached: bool, engine: E, w': World<E>) {
    && 0 < w.tickets && engine !in w.made
    && w' == w.(reg := if cached then AfterBuild(w.reg, key, engine) else w.reg,
                holds := w.holds + [Hold(engine, key, cached)],
                tickets := w.tickets - 1,
                made := w.made + {engine},
                built := if cached then Bump(w.built, key) else w.built)
  }

  lemma BuildPools<E>(w: World<E>, key: EngineKey, engine: E, w': World<E>, concurrency: nat)
    requires Inv(w, concurrency) && Builds(w, key, true, engine, w')
    requires FirstFree(PoolOf(w.reg.pools, key), w.reg.leased).None?
    ensures PoolsInv(w', concurrency)
  {
    AllLeasedMeansRoom(w, key, concurrency);
    var pool := PoolOf(w.reg.pools, key);
    assert forall e :: e in pool ==> e in w.made;
    DistinctAppend(pool, [engine]);
    forall k, e | k in w'.reg.pools && e in w'.reg.pools[k]
      ensures e == engine ==> k == key
      ensures e != engine ==> k in w.reg.pools && e in w.reg.pools[k]
      ensures e in w'.made
    {
    }
  }

  lemma BuildHolds<E>(w: World<E>, key: EngineKey, cached: bool, engine: E, w': World<E>, concurrency: nat)
    requires Inv(w, concurrency) && Builds(w, key, cached, engine, w')
    ensures HoldsInv(w')
  {
    CachedAppend(w.holds, Hold(engine, key, cached));
    forall i | 0 <= i < |w'.holds|
      ensures HoldOk(w', w'.holds[i])
      ensures i < |w.holds| ==> w'.holds[i].engine != engine
    {
      if i < |w.holds| {
        assert HoldOk(w, w.holds[i]);
      }
    }
  }

  lemma BuildKeeps<E>(w: World<E>, key: EngineKey, cached: bool, engine: E, w': World<E>, concurrency: nat)
    requires Inv(w, concurrency) && Builds(w, key, cached, engine, w')
    requires cached ==> FirstFree(PoolOf(w.reg.pools, key), w.reg.leased).None?
    ensures Inv(w', concurrency)
  {
    if cached {
      BuildPools(w, key, engine, w', concurrency);
    }
    BuildHolds(w, key, cached, engine, w', concurrency);
    forall k
      ensures Tally(w'.built, k) == |PoolOf(w'.reg.pools, k)| + Tally(w'.discarded, k) + Tally(w'.evicted, k)
    {
      assert Tally(w.built, k) == |PoolOf(w.reg.pools, k)| + Tally(w.discarded, k) + Tally(w.evicted, k);
    }
  }

  // -------------------------------------------------------------------- return

  lemma CachedDropped<E>(holds: seq<Hold<E>>, i: nat)
    requires i < |holds|
    requires forall a, b :: 0 <= a < b < |holds| ==> holds[a].engine != holds[b].engine
    ensures CachedEngines(Dropped(holds, i)) == CachedEngines(holds) - {holds[i].engine}
  {
    var rest := Dropped(holds, i);
    forall e | e in CachedEngines(rest)
      ensures e in CachedEngines(holds) - {holds[i].engine}
    {
      var k :| 0 <= k < |rest| && rest[k].cached && rest[k].engine == e;
      var l := if k < i then k else k + 1;
      assert holds[l] == rest[k];
    }
    forall e | e in CachedEngines(holds) - {holds[i].engine}
      ensures e in CachedEngines(rest)
    {
      var l :| 0 <= l < |holds| && holds[l].cached && holds[l].engine == e;
      var k := if l < i then l else l - 1;
      assert rest[k] == holds[l];
    }
  }

  /** What a return does to one pool. */
  lemma ReturnPool<E>(w: World<E>, h: Hold<E>, drop: bool, concurrency: nat, k: EngineKey)
    requires PoolsInv(w, concurrency) && HoldOk(w, h)
    ensures var before := PoolOf(w.reg.pools, k);
            var pools := AfterReturn(w.reg, h.key, h.engine, drop).pools;
            var after := PoolOf(pools, k);
            && (k in pools <==> after != [])
            && Distinct(after)
            && (forall e :: e in after <==> e in before && !(drop && k == h.key && e == h.engine))
            && |after| + (if drop && h.cached && k == h.key then 1 else 0) == |before|
  {
    if drop && k == h.key && k in w.reg.pools {
      var pool := w.reg.pools[k];
      MinusLaw(pool, h.engine);
      var rest := Minus(pool, h.engine);
      forall e
        ensures e in rest <==> e in pool && e != h.engine
      {
        assert e in rest <==> e in Elements(rest);
        assert e in pool <==> e in Elements(pool);
      }
    }
  }

  /** Returning an engine, dropped or not, leaves the pools in order. */
  lemma ReturnPools<E>(w: World<E>, h: Hold<E>, drop: bool, concurrency: nat)
    requires PoolsInv(w, concurrency) && HoldOk(w, h)
    ensures PoolsInv(w.(reg := w.reg.(pools := AfterReturn(w.reg, h.key, h.engine, drop).pools)), concurrency)
  {
    var pools := AfterReturn(w.reg, h.key, h.engine, drop).pools;
    forall k | k in pools
      ensures k in w.reg.pools && Distinct(pools[k]) && 0 < |pools[k]| <= |w.reg.pools[k]|
      ensures forall e :: e in pools[k] ==> e in w.reg.pools[k]
    {
      ReturnPool(w, h, drop, concurrency, k);
      assert pools[k] == PoolOf(pools, k);
    }
  }

  lemma ReturnKeeps<E>(w: World<E>, i: nat, discard: bool, w': World<E>, concurrency: nat)
    requires Inv(w, concurrency) && Next(w, GiveBackEngine(i, discard), w')
    ensures Inv(w', concurrency)
  {
    var h := w.holds[i];
    var drop := discard || !h.cached;
    assert HoldOk(w, h);
    ReturnPools(w, h, drop, concurrency);
    CachedDropped(w.holds, i);
    forall a | 0 <= a < |w'.holds|
      ensures HoldOk(w', w'.holds[a])
    {
      var l := if a < i then a else a + 1;
      assert w'.holds[a] == w.holds[l];
      ReturnHold(w, i, l, drop, w', concurrency);
    }
    forall a, b | 0 <= a < b < |w'.holds|
      ensures w'.holds[a].engine != w'.holds[b].engine
    {
      var k := if a < i then a else a + 1;
      var l := if b < i then b else b + 1;
      assert w'.holds[a] == w.holds[k] && w'.holds[b] == w.holds[l];
    }
    forall k
      ensures Tally(w'.built, k) == |PoolOf(w'.reg.pools, k)| + Tally(w'.discarded, k) + Tally(w'.evicted, k)
    {
      assert Tally(w.built, k) == |PoolOf(w.reg.pools, k)| + Tally(w.discarded, k) + Tally(w.evicted, k);
      ReturnPool(w, h, drop, concurrency, k);
    }
  }

  /** The other holders keep their engines where they were. */
  lemma ReturnHold<E>(w: World<E>, i: nat, l: nat, drop: bool, w': World<E>, concurrency: nat)
    requires Inv(w, concurrency) && i < |w.holds| && l < |w.holds| && l != i
    requires w'.made == w.made
    requires w'.reg == AfterReturn(w.reg, w.holds[i].key, w.holds[i].engine, drop)
    ensures HoldOk(w', w.holds[l])
  {
    var h := w.holds[l];
    assert HoldOk(w, h) && HoldOk(w, w.holds[i]);
    assert h.engine != w.holds[i].engine by {
      assert l < i || i < l;
    }
    ReturnPool(w, w.holds[i], drop, concurrency, h.key);
    forall k | k in w'.reg.pools && !h.cached
      ensures h.engine !in w'.reg.pools[k]
    {
      ReturnPool(w, w.holds[i], drop, concurrency, k);
      assert w'.reg.pools[k] == PoolOf(w'.reg.pools, k);
    }
  }

  // ------------------------------------------------------------------ eviction

  lemma EvictPools<E>(w: World<E>, stale: set<E>, concurrency: nat, k: EngineKey)
    requires PoolsInv(w, concurrency)
    ensures var before, after := PoolOf(w.reg.pools, k), PoolOf(AfterEvict(w.reg, stale).pools, k);
            && after == Kept(before, w.reg.leased, stale)
            && Distinct(after)
            && |after| + |Evicted(before, w.reg.leased, stale)| == |before|
            && (forall e :: e in after <==> e in before && (e in w.reg.leased || e !in stale))
  {
    var before := PoolOf(w.reg.pools, k);
    KeptLaw(before, w.reg.leased, stale);
    forall e
      ensures e in Kept(before, w.reg.leased, stale) <==> e in before && (e in w.reg.leased || e !in stale)
    {
      KeptMember(before, w.reg.leased, stale, e);
    }
  }

  lemma EvictKeeps<E>(w: World<E>, stale: set<E>, w': World<E>, concurrency: nat)
    requires Inv(w, concurrency) && Next(w, EvictIdle(stale), w')
    ensures Inv(w', concurrency)
  {
    forall k, e | k in w'.reg.pools && e in w'.reg.pools[k]
      ensures k in w.reg.pools && e in w.reg.pools[k]
    {
      EvictPools(w, stale, concurrency, k);
    }
    forall k | k in w'.reg.pools
      ensures 0 < |w'.reg.pools[k]| <= concurrency && Distinct(w'.reg.pools[k])
    {
      EvictPools(w, stale, concurrency, k);
      assert |PoolOf(w.reg.pools, k)| <= concurrency;
    }
    forall i | 0 <= i < |w'.holds|
      ensures HoldOk(w', w'.holds[i])
    {
      var h := w.holds[i];
      assert HoldOk(w, h);
      EvictPools(w, stale, concurrency, h.key);
      assert h.cached ==> h.engine in CachedEngines(w.holds);
    }
    forall k
      ensures Tally(w'.built, k) == |PoolOf(w'.reg.pools, k)| + Tally(w'.discarded, k) + Tally(w'.evicted, k)
    {
      EvictPools(w, stale, concurrency, k);
      assert Tally(w.built, k) == |PoolOf(w.reg.pools, k)| + Tally(w.discarded, k) + Tally(w.evicted, k);
      assert Tally(w'.evicted, k) == Tally(w.evicted, k) + |Evicted(PoolOf(w.reg.pools, k), w.reg.leased, stale)|;
    }
  }

  // -------------------------------------------------------------- main results

  lemma StepKeeps<E>(w: World<E>, step: Step<E>, w': World<E>, concurrency: nat)
    requires Inv(w, concurrency) && Next(w, step, w')
    ensures Inv(w', concurrency)
  {
    match step
    case TakePermit =>
    case GiveBackPermit =>
    case Lease(key, cached, offer) =>
      var free := if cached then FirstFree(PoolOf(w.reg.pools, key), w.reg.leased) else None;
      if free.Some? {
        HitKeeps(w, key, free.value, w', concurrency);
      } else if offer.Some? {
        BuildKeeps(w, key, cached, offer.value, w', concurrency);
      }
    case GiveBackEngine(i, discard) => ReturnKeeps(w, i, discard, w', concurrency);
    case EvictIdle(stale) => EvictKeeps(w, stale, w', concurrency);
  }

  ghost predicate Run<E>(worlds: seq<World<E>>, steps: seq<Step<E>>, concurrency: nat) {
    && |worlds| == |steps| + 1
    && Init(worlds[0], concurrency)
    && forall i :: 0 <= i < |steps| ==> Next(worlds[i], steps[i], worlds[i + 1])
  }

  lemma {:induction false} RunInv<E>(worlds: seq<World<E>>, steps: seq<Step<E>>, concurrency: nat, n: nat)
    requires Run(worlds, steps, concurrency) && n <= |steps|
    ensures Inv(worlds[n], concurrency)
    decreases n
  {
    if n == 0 {
      assert CachedEngines(worlds[0].holds) == {};
    } else {
      RunInv(worlds, steps, concurrency, n - 1);
      assert Next(worlds[n - 1], steps[n - 1], worlds[n]);
      StepKeeps(worlds[n - 1], steps[n - 1], worlds[n], concurrency);
    }
  }

  /**
   * At every point of every interleaving: free permits, tickets and holders add
   * up to the concurrency; the leased engines are just those of the cached
   * holders, and no engine is with two; every leased engine is
   * in its key's pool; no pool is empty or larger than the concurrency; and the
   * engines built for a key are those pooled, discarded and evicted.
   */
  lemma RegistrySafe<E>(worlds: seq<World<E>>, steps: seq<Step<E>>, concurrency: nat, n: nat)
    requires Run(worlds, steps, concurrency) && n <= |steps|
    ensures var w := worlds[n];
            && w.reg.permits + w.tickets + |w.holds| == concurrency
            && w.reg.leased == CachedEngines(w.holds) && |w.reg.leased| <= |w.holds|
            && (forall i, j :: 0 <= i < j < |w.holds| ==> w.holds[i].engine != w.holds[j].engine)
            && (forall i :: 0 <= i < |w.holds| && w.holds[i].cached ==>
                  w.holds[i].engine in w.reg.leased && w.holds[i].engine in PoolOf(w.reg.pools, w.holds[i].key))
            && (forall k :: k in w.reg.pools ==> 0 < |w.reg.pools[k]| <= concurrency && Distinct(w.reg.pools[k]))
            && (forall k :: Tally(w.built, k) == |PoolOf(w.reg.pools, k)| + Tally(w.discarded, k) + Tally(w.evicted, k))
  {
    RunInv(worlds, steps, concurrency, n);
    var w := worlds[n];
    CachedCount(w.holds);
    forall i | 0 <= i < |w.holds| && w.holds[i].cached
      ensures w.holds[i].engine in w.reg.leased && w.holds[i].engine in PoolOf(w.reg.pools, w.holds[i].key)
    {
      assert HoldOk(w, w.holds[i]);
      assert w.holds[i].engine in CachedEngines(w.holds);
    }
  }

  /** A discarded engine is in no pool afterwards, and nobody can be given it again. */
  lemma DiscardedIsGone<E>(w: World<E>, i: nat, w': World<E>, concurrency: nat)
    requires Inv(w, concurrency) && Next(w, GiveBackEngine(i, true), w')
    ensures forall k :: k in w'.reg.pools ==> w.holds[i].engine !in w'.reg.pools[k]
    ensures w.holds[i].engine !in w'.reg.leased
  {
    var h := w.holds[i];
    assert HoldOk(w, h);
    forall k | k in w'.reg.pools
      ensures h.engine !in w'.reg.pools[k]
    {
      ReturnPool(w, h, true, concurrency, k);
      assert w'.reg.pools[k] == PoolOf(w'.reg.pools, k);
      assert h.cached ==> h.key in w.reg.pools && h.engine in w.reg.pools[h.key];
    }
  }

  /** With less than `concurrency` threads at work, one more can take a permit and get an engine. */
  lemma OneMoreCanLease<E>(w: World<E>, key: EngineKey, cached: bool, offer: E, concurrency: nat)
    returns (w1: World<E>, w2: World<E>)
    requires Inv(w, concurrency) && w.tickets + |w.holds| < concurrency && offer !in w.made
    ensures Next(w, TakePermit, w1) && Next(w1, Lease(key, cached, Some(offer)), w2)
    ensures |w2.holds| == |w.holds| + 1 && w2.tickets == w.tickets && w2.holds[|w.holds|].key == key
    ensures w2.holds[|w.holds|].engine == offer || (cached && w2.holds[|w.holds|].engine in PoolOf(w.reg.pools, key))
  {
    w1 := w.(reg := w.reg.(permits := w.reg.permits - 1), tickets := w.tickets + 1);
    w2 := Leased(w1, key, cached, Some(offer));
    FirstFreeLaw(PoolOf(w.reg.pools, key), w.reg.leased);
  }

  ghost predicate Path<E>(worlds: seq<World<E>>, steps: seq<Step<E>>) {
    && |worlds| == |steps| + 1
    && forall i :: 0 <= i < |steps| ==> Next(worlds[i], steps[i], worlds[i + 1])
  }

  lemma PathCons<E>(w: World<E>, step: Step<E>, worlds: seq<World<E>>, steps: seq<Step<E>>)
    requires Path(worlds, steps) && Next(w, step, worlds[0])
    ensures Path([w] + worlds, [step] + steps)
  {
    forall i | 0 <= i < |steps| + 1
      ensures Next(([w] + worlds)[i], ([step] + steps)[i], ([w] + worlds)[i + 1])
    {
      if 0 < i {
        assert Next(worlds[i - 1], steps[i - 1], worlds[i]);
      }
    }
  }

  /** Nobody waits for ever: from every such point all threads can finish, and every permit comes back. */
  lemma {:induction false} AllCanFinish<E>(w: World<E>, concurrency: nat)
    returns (worlds: seq<World<E>>, steps: seq<Step<E>>)
    requires Inv(w, concurrency)
    ensures Path(worlds, steps) && worlds[0] == w
    ensures var last := worlds[|steps|];
            last.holds == [] && last.tickets == 0 && last.reg.permits == concurrency && last.reg.leased == {}
    decreases 2 * |w.holds| + w.tickets
  {
    if 0 < w.tickets {
      var w' := w.(reg := w.reg.(permits := w.reg.permits + 1), tickets := w.tickets - 1);
      assert Next(w, GiveBackPermit, w');
      StepKeeps(w, GiveBackPermit, w', concurrency);
      hide Next;
      worlds, steps := AllCanFinish(w', concurrency);
      PathCons(w, GiveBackPermit, worlds, steps);
      worlds, steps := [w] + worlds, [GiveBackPermit] + steps;
    } else if w.holds != [] {
      var step, w' := ReturnFirst(w);
      StepKeeps(w, step, w', concurrency);
      hide Next;
      worlds, steps := AllCanFinish(w', concurrency);
      PathCons(w, step, worlds, steps);
      worlds, steps := [w] + worlds, [step] + steps;
    } else {
      worlds, steps := [w], [];
    }
  }

  lemma ReturnFirst<E>(w: World<E>) returns (step: Step<E>, w': World<E>)
    requires w.holds != []
    ensures Next(w, step, w') && |w'.holds| + 1 == |w.holds| && w'.tickets == w.tickets + 1
  {
    var h := w.holds[0];
    step := GiveBackEngine(0, false);
    w' := w.(reg := AfterReturn(w.reg, h.key, h.engine, !h.cached), holds := Dropped(w.holds, 0),
             tickets := w.tickets + 1);
  }
}
