/**
 * The engine registry on values: keyed pools of engines, the set of leased
 * ones, and a counting semaphore.  `E` is whatever identifies an engine.
 */
module EnginePools {
  import opened Wrappers
  import opened Sequences

  /** The signature covers every option that an engine depends on. */
  datatype EngineKey = EngineKey(inputFormat: string, pipeline: string, signature: string)

  datatype Registry<E> = Registry(pools: map<EngineKey, seq<E>>, leased: set<E>, permits: nat)

  function PoolOf<E>(pools: map<EngineKey, seq<E>>, key: EngineKey): seq<E> {
    if key in pools then pools[key] else []
  }

  /** The first pooled engine that nobody has leased. */
  function FirstFree<E(==)>(pool: seq<E>, leased: set<E>): Option<E> {
    if pool == [] then None
    else if pool[0] !in leased then Some(pool[0])
    else FirstFree(pool[1..], leased)
  }

  function AfterHit<E>(r: Registry<E>, engine: E): Registry<E> {
    r.(leased := r.leased + {engine})
  }

  function AfterBuild<E>(r: Registry<E>, key: EngineKey, engine: E): Registry<E> {
    r.(pools := r.pools[key := PoolOf(r.pools, key) + [engine]], leased := r.leased + {engine})
  }

  function FreeEngine<E(==)>(r: Registry<E>, cached: bool, key: EngineKey): Option<E> {
    if cached then FirstFree(PoolOf(r.pools, key), r.leased) else None
  }

  /** `r` with `engine` leased for `key`: a pooled engine, or one just built. */
  function WithLease<E(==)>(r: Registry<E>, cached: bool, key: EngineKey, engine: E): Registry<E> {
    if FreeEngine(r, cached, key).Some? then AfterHit(r, engine)
    else if cached then AfterBuild(r, key, engine)
    else r
  }

  function Minus<E(==)>(pool: seq<E>, engine: E): seq<E> {
    if pool == [] then []
    else (if pool[0] == engine then [] else [pool[0]]) + Minus(pool[1..], engine)
  }

  /** The pools with `key`'s pool replaced; an empty pool is deleted. */
  function WithPool<E>(pools: map<EngineKey, seq<E>>, key: EngineKey, pool: seq<E>): map<EngineKey, seq<E>> {
    if |pool| == 0 then pools - {key} else pools[key := pool]
  }

  /** `drop` says that the engine is discarded or was never meant to be cached. */
  function AfterReturn<E(==)>(r: Registry<E>, key: EngineKey, engine: E, drop: bool): Registry<E> {
    r.(leased := r.leased - {engine},
       pools := if drop && key in r.pools then WithPool(r.pools, key, Minus(r.pools[key], engine)) else r.pools)
  }

  function Kept<E(==)>(pool: seq<E>, leased: set<E>, stale: set<E>): seq<E> {
    if pool == [] then []
    else (if pool[0] in leased || pool[0] !in stale then [pool[0]] else []) + Kept(pool[1..], leased, stale)
  }

  function AfterEvict<E(==)>(r: Registry<E>, stale: set<E>): Registry<E> {
    r.(pools := map k | k in r.pools && |Kept(r.pools[k], r.leased, stale)| != 0 :: Kept(r.pools[k], r.leased, stale))
  }

  // ------------------------------------------------------------------- laws

  lemma {:induction false} FirstFreeLaw<E>(pool: seq<E>, leased: set<E>)
    ensures FirstFree(pool, leased).Some? ==>
              FirstFree(pool, leased).value in pool && FirstFree(pool, leased).value !in leased
    ensures FirstFree(pool, leased).None? ==> Elements(pool) <= leased
  {
    if pool == [] {
      assert Elements(pool) == {};
    } else {
      FirstFreeLaw(pool[1..], leased);
      assert pool == [pool[0]] + pool[1..];
      if pool[0] in leased && FirstFree(pool[1..], leased).None? {
        assert Elements(pool) == {pool[0]} + Elements(pool[1..]);
      }
    }
  }

  /** Taking one engine out of a duplicate-free pool takes out one or nothing and keeps the order. */
  lemma {:induction false} MinusLaw<E>(pool: seq<E>, engine: E)
    requires Distinct(pool)
    ensures Distinct(Minus(pool, engine))
    ensures Elements(Minus(pool, engine)) == Elements(pool) - {engine}
    ensures |Minus(pool, engine)| == |pool| - if engine in pool then 1 else 0
  {
    if pool == [] {
      assert Elements(pool) == {} && Elements(Minus(pool, engine)) == {};
    } else {
      MinusLaw(pool[1..], engine);
      var rest := Minus(pool[1..], engine);
      assert pool == [pool[0]] + pool[1..];
      assert Elements(pool) == {pool[0]} + Elements(pool[1..]);
      assert pool[0] !in pool[1..];
      if pool[0] == engine {
        assert [] + rest == rest;
      } else {
        assert Elements([pool[0]] + rest) == {pool[0]} + Elements(rest);
        assert pool[0] !in Elements(rest);
      }
    }
  }

  function Evicted<E(==)>(pool: seq<E>, leased: set<E>, stale: set<E>): set<E> {
    set e | e in pool && e in stale && e !in leased
  }

  lemma {:induction false} KeptDistinct<E>(pool: seq<E>, leased: set<E>, stale: set<E>)
    requires Distinct(pool)
    ensures Distinct(Kept(pool, leased, stale))
  {
    if pool != [] {
      KeptDistinct(pool[1..], leased, stale);
      KeptMember(pool[1..], leased, stale, pool[0]);
      assert pool[0] !in pool[1..];
    }
  }

  /** Eviction splits a duplicate-free pool into what it keeps and what it evicts. */
  lemma KeptLaw<E>(pool: seq<E>, leased: set<E>, stale: set<E>)
    requires Distinct(pool)
    ensures Distinct(Kept(pool, leased, stale))
    ensures Elements(Kept(pool, leased, stale)) == Elements(pool) - Evicted(pool, leased, stale)
    ensures |Kept(pool, leased, stale)| + |Evicted(pool, leased, stale)| == |pool|
  {
    var kept, gone := Kept(pool, leased, stale), Evicted(pool, leased, stale);
    KeptDistinct(pool, leased, stale);
    forall e | e in pool
      ensures e in kept <==> e !in gone
    {
      KeptMember(pool, leased, stale, e);
    }
    forall e | e in kept
      ensures e in pool
    {
      KeptMember(pool, leased, stale, e);
    }
    assert Elements(kept) == Elements(pool) - gone;
    DistinctCardinality(kept);
    DistinctCardinality(pool);
    assert gone <= Elements(pool);
  }

  /** Eviction keeps the order: what comes first among the kept came first in the pool. */
  lemma {:induction false} KeptOrder<E>(pool: seq<E>, leased: set<E>, stale: set<E>, i: nat, j: nat)
    requires i < j < |Kept(pool, leased, stale)|
    ensures exists a, b :: 0 <= a < b < |pool| && pool[a] == Kept(pool, leased, stale)[i]
                                           && pool[b] == Kept(pool, leased, stale)[j]
  {
    var kept, rest := Kept(pool, leased, stale), Kept(pool[1..], leased, stale);
    var shift := if pool[0] in leased || pool[0] !in stale then 1 else 0;
    assert kept[j] == rest[j - shift];
    if shift <= i {
      assert kept[i] == rest[i - shift];
      KeptOrder(pool[1..], leased, stale, i - shift, j - shift);
      var a, b :| 0 <= a < b < |pool[1..]| && pool[1..][a] == kept[i] && pool[1..][b] == kept[j];
      assert pool[a + 1] == kept[i] && pool[b + 1] == kept[j];
    } else {
      KeptMember(pool[1..], leased, stale, kept[j]);
      var b :| 0 <= b < |pool[1..]| && pool[1..][b] == kept[j];
      assert pool[0] == kept[i] && pool[b + 1] == kept[j];
    }
  }

  lemma {:induction false} KeptMember<E>(pool: seq<E>, leased: set<E>, stale: set<E>, e: E)
    ensures e in Kept(pool, leased, stale) <==> e in pool && (e in leased || e !in stale)
  {
    if pool != [] {
      KeptMember(pool[1..], leased, stale, e);
      assert e in pool <==> e == pool[0] || e in pool[1..];
    }
  }

  /** A caller is given the first engine of its pool that nobody has leased, if caching is on. */
  lemma {:induction false} FirstFreeExactly<E>(pool: seq<E>, leased: set<E>)
    ensures match FirstFree(pool, leased)
            case None => forall j :: 0 <= j < |pool| ==> pool[j] in leased
            case Some(e) => exists i :: 0 <= i < |pool| && pool[i] == e && e !in leased
                                        && forall j :: 0 <= j < i ==> pool[j] in leased
  {
    if pool != [] {
      FirstFreeExactly(pool[1..], leased);
      assert forall j :: 1 <= j < |pool| ==> pool[j] == pool[1..][j - 1];
      if pool[0] !in leased {
        assert pool[0] == FirstFree(pool, leased).value;
      } else if FirstFree(pool[1..], leased).Some? {
        var i :| 0 <= i < |pool[1..]| && pool[1..][i] == FirstFree(pool, leased).value
              && forall j :: 0 <= j < i ==> pool[1..][j] in leased;
        assert pool[i + 1] == FirstFree(pool, leased).value;
      }
    }
  }

  /** What a lease does: a pooled engine is only marked, a new one joins its pool if it is to be cached. */
  lemma LeaseLaw<E>(r: Registry<E>, cached: bool, key: EngineKey, engine: E)
    ensures var (after, pool) := (WithLease(r, cached, key, engine), PoolOf(r.pools, key));
            var pooled := cached && exists j :: 0 <= j < |pool| && pool[j] !in r.leased;
            && after.permits == r.permits
            && after.leased == (if cached then r.leased + {engine} else r.leased)
            && (forall k :: k != key ==> PoolOf(after.pools, k) == PoolOf(r.pools, k))
            && PoolOf(after.pools, key) == (if cached && !pooled then pool + [engine] else pool)
  {
    FirstFreeExactly(PoolOf(r.pools, key), r.leased);
  }

  /** What a return does: the lease ends, and an engine that is dropped leaves its pool; no pool is left empty. */
  lemma ReturnLaw<E>(r: Registry<E>, key: EngineKey, engine: E, drop: bool)
    requires forall k :: k in r.pools ==> 0 < |r.pools[k]| && Distinct(r.pools[k])
    ensures var after := AfterReturn(r, key, engine, drop);
            && after.permits == r.permits && after.leased == r.leased - {engine}
            && (forall k :: k != key ==> PoolOf(after.pools, k) == PoolOf(r.pools, k))
            && (!drop ==> after.pools == r.pools)
            && (drop ==> Elements(PoolOf(after.pools, key)) == Elements(PoolOf(r.pools, key)) - {engine})
            && (forall k :: k in after.pools ==> k in r.pools && 0 < |after.pools[k]| <= |r.pools[k]|)
  {
    if drop && key in r.pools {
      MinusLaw(r.pools[key], engine);
    }
  }
}
