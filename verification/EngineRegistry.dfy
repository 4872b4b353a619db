/**
 * The engine registry and the conversion scheduler in their own form: objects
 * that change pools, leases and permits in place.  Each method is one thread's
 * call under the lock; EngineRuns covers the interleavings.
 */
module EngineRegistry {
  import opened Wrappers
  import opened Sequences
  import opened EnginePools
  import opened DoclingEngines

  /** The settings a call runs with; the key's signature is computed from them elsewhere. */
  datatype EngineSettings = EngineSettings(cacheEnabled: bool, allowedFormats: set<string>)

  /** Waits: no permit is free, so the call does not return yet and has changed nothing. */
  datatype AcquireError = FormatNotAllowed | Waits | BuildFailed

  /** Why a call has no engine. */
  function Refusal(settings: EngineSettings, key: EngineKey, permits: nat): AcquireError {
    if key.inputFormat !in settings.allowedFormats then FormatNotAllowed
    else if permits == 0 then Waits
    else BuildFailed
  }

  datatype ConversionError = NoEngine(reason: AcquireError) | ConversionRaised

  ghost function EnginesOf(pools: map<EngineKey, seq<DoclingEngine>>): set<DoclingEngine> {
    set k, e | k in pools && e in pools[k] :: e
  }

  /** Pools hold only cached engines of their own key, each once, and none is empty. */
  ghost predicate PoolsOk(pools: map<EngineKey, seq<DoclingEngine>>) {
    forall k :: k in pools ==> PoolOk(k, pools[k])
  }

  ghost predicate PoolOk(key: EngineKey, pool: seq<DoclingEngine>) {
    0 < |pool| && Distinct(pool) && forall e :: e in pool ==> e.key == key && e.cacheEnabled
  }

  /** `engine` is what a caller may be given: the first free one of the pool, or a new one. */
  ghost predicate Leasable(r: Registry<DoclingEngine>, cached: bool, key: EngineKey, engine: DoclingEngine) {
    && engine !in r.leased && engine.key == key
    && (FreeEngine(r, cached, key).Some? ==> FreeEngine(r, cached, key) == Some(engine))
    && (FreeEngine(r, cached, key).None? ==> engine !in EnginesOf(r.pools))
  }

  class DoclingEngineRegistry {
    const idleTtlSeconds: int
    var engines: map<EngineKey, seq<DoclingEngine>>
    var leased: set<DoclingEngine>
    var permits: nat

    function View(): Registry<DoclingEngine>
      reads this
    {
      Registry(engines, leased, permits)
    }

    ghost function Pooled(): set<DoclingEngine>
      reads this
    {
      EnginesOf(engines)
    }

    ghost predicate Valid()
      reads this
    {
      PoolsOk(engines)
    }

    /** The pooled engines idle for longer than the time to live; a time to live of 0 turns eviction off. */
    ghost function Stale(now: int): set<DoclingEngine>
      reads this, Pooled()
    {
      if idleTtlSeconds <= 0 then {}
      else set e | e in Pooled()
                   && now - (if e.lastUsedAt.Some? then e.lastUsedAt.value else e.createdAt) > idleTtlSeconds
    }

    constructor (concurrency: nat, idleTtlSeconds: int)
      ensures Valid() && View() == Registry(map[], {}, concurrency)
      ensures this.idleTtlSeconds == idleTtlSeconds
    {
      this.idleTtlSeconds := idleTtlSeconds;
      engines, leased, permits := map[], {}, concurrency;
    }

    /**
     * `builds` says whether the converter factory returns; if it raises, the
     * permit goes back.
     */
    method AcquireEngine(settings: EngineSettings, key: EngineKey, builds: bool, now: int)
      returns (r: Result<DoclingEngine, AcquireError>)
      requires Valid()
      modifies this, Pooled()
      ensures Valid()
      ensures var free := FreeEngine(old(View()), settings.cacheEnabled, key);
              match r
              case Err(error) =>
                && View() == old(View())
                && error == (if key.inputFormat !in settings.allowedFormats then FormatNotAllowed
                             else if old(permits) == 0 then Waits else BuildFailed)
                && (error.BuildFailed? ==> free.None? && !builds)
              case Ok(engine) =>
                && key.inputFormat in settings.allowedFormats && 0 < old(permits)
                && Leasable(old(View()), settings.cacheEnabled, key, engine)
                && View() == WithLease(old(View()), settings.cacheEnabled, key, engine).(permits := old(permits) - 1)
                && engine.cacheEnabled == settings.cacheEnabled
                && (free.Some? ==> engine.State() == AfterEvent(old(free.value.State()), LeaseHit))
                && (free.None? ==> builds && fresh(engine) && engine.createdAt == now && engine.State() == FRESH)
      ensures forall e :: e in old(Pooled()) && r != Ok(e) ==> unchanged(e)
    {
      if key.inputFormat !in settings.allowedFormats {
        return Err(FormatNotAllowed);
      }
      if permits == 0 {
        return Err(Waits);
      }
      permits := permits - 1;
      if settings.cacheEnabled {
        var pool := PoolOf(engines, key);
        for i := 0 to |pool|
          invariant engines == old(engines) && leased == old(leased) && permits == old(permits) - 1
          invariant FirstFree(pool, leased) == FirstFree(pool[i..], leased)
          invariant forall e :: e in old(Pooled()) ==> unchanged(e)
        {
          assert pool[i..][1..] == pool[i + 1..];
          if pool[i] !in leased {
            assert pool == engines[key] && pool[i] in engines[key];
            leased := leased + {pool[i]};
            assert pool[i] in Pooled();
            pool[i].CountHit();
            return Ok(pool[i]);
          }
        }
      }
      if !builds {
        permits := permits + 1;
        return Err(BuildFailed);
      }
      var engine := new DoclingEngine(key, settings.cacheEnabled, now);
      if settings.cacheEnabled {
        DistinctAppend(PoolOf(engines, key), [engine]);
        engines := engines[key := PoolOf(engines, key) + [engine]];
        leased := leased + {engine};
      }
      r := Ok(engine);
    }

    method ReleaseEngine(engine: DoclingEngine, discard: bool)
      requires Valid()
      modifies this
      ensures Valid()
      ensures View() == AfterReturn(old(View()), engine.key, engine, discard || !engine.cacheEnabled)
                        .(permits := old(permits) + 1)
    {
      ReturnedPools(View(), engine, discard || !engine.cacheEnabled);
      leased := leased - {engine};
      if (discard || !engine.cacheEnabled) && engine.key in engines {
        var kept := WithoutEngine(engines[engine.key], engine);
        engines := if |kept| == 0 then engines - {engine.key} else engines[engine.key := kept];
      }
      permits := permits + 1;
    }

    /** [item for item in pool if item is not engine] */
    method WithoutEngine(pool: seq<DoclingEngine>, engine: DoclingEngine) returns (kept: seq<DoclingEngine>)
      ensures kept == Minus(pool, engine)
    {
      kept := [];
      for i := 0 to |pool|
        invariant Minus(pool, engine) == kept + Minus(pool[i..], engine)
      {
        assert pool[i..][1..] == pool[i + 1..];
        if pool[i] != engine {
          assert kept + ([pool[i]] + Minus(pool[i + 1..], engine))
              == (kept + [pool[i]]) + Minus(pool[i + 1..], engine);
          kept := kept + [pool[i]];
        }
      }
      assert kept + Minus(pool[|pool|..], engine) == kept;
    }

    /**
     * Evicts exactly the free engines that were last used, or if never used created, longer ago than
     * the time to live, in every pool, and counts them.
     */
    method EvictIdle(now: int) returns (evicted: nat)
      requires Valid()
      modifies this
      ensures Valid()
      ensures View() == AfterEvict(old(View()), old(Stale(now)))
      ensures evicted == |old(Pooled()) - Pooled()| && Pooled() <= old(Pooled())
      ensures forall e :: e in old(Pooled()) ==>
                var since := if e.lastUsedAt.Some? then e.lastUsedAt.value else e.createdAt;
                e !in Pooled() <==> 0 < idleTtlSeconds && e !in leased && now - since > idleTtlSeconds
    {
      ghost var stale := Stale(now);
      if idleTtlSeconds <= 0 {
        NothingEvicted(View());
        assert Pooled() - Pooled() == {};
        return 0;
      }
      evicted := SweepPools(now, stale);
      assert old(Pooled()) - Pooled() == stale - leased;
    }

    /** The loop over the pools. */
    method SweepPools(now: int, ghost stale: set<DoclingEngine>) returns (evicted: nat)
      requires Valid() && stale <= Pooled()
      requires forall e :: e in Pooled() ==> (e in stale <==> now - e.IdleSince() > idleTtlSeconds)
      modifies this`engines
      ensures Valid()
      ensures View() == AfterEvict(old(View()), stale)
      ensures evicted == |stale - leased|
      ensures Pooled() == old(Pooled()) - (stale - leased)
    {
      ghost var was := View();
      evicted := 0;
      var keys := engines.Keys;
      while keys != {}
        invariant leased == was.leased && permits == was.permits
        invariant Swept(was, stale, keys, engines)
        invariant evicted == |EvictedIn(was, stale, keys)|
        decreases |keys|
      {
        var key := PickKey(keys);
        assert PoolOk(key, was.pools[key]);
        var retained, count := EvictPool(engines[key], now, stale);
        SweepStep(was, stale, keys, engines, key);
        engines := WithPool(engines, key, retained);
        evicted := evicted + count;
        keys := keys - {key};
      }
      SweepEnd(was, stale, engines);
    }

    /** One pool's share of the eviction. */
    method EvictPool(pool: seq<DoclingEngine>, now: int, ghost stale: set<DoclingEngine>)
      returns (retained: seq<DoclingEngine>, count: nat)
      requires Distinct(pool)
      requires forall e :: e in pool ==> (e in stale <==> now - e.IdleSince() > idleTtlSeconds)
      ensures retained == Kept(pool, leased, stale)
      ensures count == |Evicted(pool, leased, stale)|
    {
      retained, count := [], 0;
      for i := 0 to |pool|
        invariant Kept(pool, leased, stale) == retained + Kept(pool[i..], leased, stale)
        invariant |retained| + count == i
      {
        assert pool[i..][1..] == pool[i + 1..];
        if pool[i] in leased || now - pool[i].IdleSince() <= idleTtlSeconds {
          assert retained + ([pool[i]] + Kept(pool[i + 1..], leased, stale))
              == (retained + [pool[i]]) + Kept(pool[i + 1..], leased, stale);
          retained := retained + [pool[i]];
        } else {
          count := count + 1;
        }
      }
      KeptLaw(pool, leased, stale);
    }
  }

  /** The sweep has dealt with every pool but those of `keys`. */
  ghost predicate Swept(was: Registry<DoclingEngine>, stale: set<DoclingEngine>, keys: set<EngineKey>,
                        pools: map<EngineKey, seq<DoclingEngine>>)
  {
    && keys <= was.pools.Keys && pools.Keys <= was.pools.Keys
    && (forall k :: k in keys ==> k in pools && pools[k] == was.pools[k])
    && (forall k :: k in was.pools && k !in keys ==> (k in pools <==> |Kept(was.pools[k], was.leased, stale)| != 0))
    && (forall k :: k in pools && k !in keys ==> pools[k] == Kept(was.pools[k], was.leased, stale))
  }

  ghost function EvictedIn(was: Registry<DoclingEngine>, stale: set<DoclingEngine>, keys: set<EngineKey>)
    : set<DoclingEngine>
  {
    set e | e in EnginesOf(was.pools) && e in stale && e !in was.leased && e.key !in keys
  }

  lemma SweepEnd(was: Registry<DoclingEngine>, stale: set<DoclingEngine>, pools: map<EngineKey, seq<DoclingEngine>>)
    requires PoolsOk(was.pools) && stale <= EnginesOf(was.pools)
    requires Swept(was, stale, {}, pools)
    ensures pools == AfterEvict(was, stale).pools && PoolsOk(pools)
    ensures EnginesOf(pools) == EnginesOf(was.pools) - (stale - was.leased)
    ensures EvictedIn(was, stale, {}) == stale - was.leased
  {
    assert pools == AfterEvict(was, stale).pools;
    EvictedPools(was, stale);
  }

  lemma SweepStep(was: Registry<DoclingEngine>, stale: set<DoclingEngine>, keys: set<EngineKey>,
                  pools: map<EngineKey, seq<DoclingEngine>>, key: EngineKey)
    requires PoolsOk(was.pools) && Swept(was, stale, keys, pools) && key in keys
    ensures Swept(was, stale, keys - {key}, WithPool(pools, key, Kept(was.pools[key], was.leased, stale)))
    ensures |EvictedIn(was, stale, keys - {key})|
         == |EvictedIn(was, stale, keys)| + |Evicted(was.pools[key], was.leased, stale)|
  {
    var here := Evicted(was.pools[key], was.leased, stale);
    assert PoolOk(key, was.pools[key]);
    forall e
      ensures e in EvictedIn(was, stale, keys - {key}) <==> e in EvictedIn(was, stale, keys) || e in here
    {
      if e in EnginesOf(was.pools) {
        var k :| k in was.pools && e in was.pools[k];
        assert PoolOk(k, was.pools[k]);
      }
    }
    assert EvictedIn(was, stale, keys - {key}) == EvictedIn(was, stale, keys) + here;
    assert EvictedIn(was, stale, keys) !! here;
  }

  method PickKey(keys: set<EngineKey>) returns (key: EngineKey)
    requires keys != {}
    ensures key in keys
  {
    ghost var some := Member(keys);
    assert some in keys;
    key :| key in keys;
  }

  lemma {:induction false} MinusMember<E>(pool: seq<E>, engine: E, e: E)
    ensures e in Minus(pool, engine) <==> e in pool && e != engine
  {
    if pool != [] {
      MinusMember(pool[1..], engine, e);
      assert e in pool <==> e == pool[0] || e in pool[1..];
    }
  }

  lemma {:induction false} KeptAll<E>(pool: seq<E>, leased: set<E>)
    ensures Kept(pool, leased, {}) == pool
  {
    if pool != [] {
      KeptAll(pool[1..], leased);
    }
  }

  lemma NothingEvicted<E>(r: Registry<E>)
    requires forall k :: k in r.pools ==> 0 < |r.pools[k]|
    ensures AfterEvict(r, {}) == r
  {
    forall k | k in r.pools
      ensures Kept(r.pools[k], r.leased, {}) == r.pools[k]
    {
      KeptAll(r.pools[k], r.leased);
    }
    assert AfterEvict(r, {}).pools == r.pools;
  }

  /** What a return leaves is again in order. */
  lemma ReturnedPools(r: Registry<DoclingEngine>, engine: DoclingEngine, drop: bool)
    requires PoolsOk(r.pools)
    ensures PoolsOk(AfterReturn(r, engine.key, engine, drop).pools)
  {
    var after := AfterReturn(r, engine.key, engine, drop).pools;
    forall k | k in after
      ensures PoolOk(k, after[k])
    {
      assert PoolOk(k, r.pools[k]);
      MinusLaw(r.pools[k], engine);
      forall e | e in after[k]
        ensures e in r.pools[k]
      {
        MinusMember(r.pools[k], engine, e);
      }
    }
  }

  /** What eviction leaves is again in order, and lacks just the free stale engines. */
  lemma EvictedPools(r: Registry<DoclingEngine>, stale: set<DoclingEngine>)
    requires PoolsOk(r.pools)
    ensures PoolsOk(AfterEvict(r, stale).pools)
    ensures EnginesOf(AfterEvict(r, stale).pools) == EnginesOf(r.pools) - (stale - r.leased)
  {
    var after := AfterEvict(r, stale).pools;
    forall k | k in after
      ensures PoolOk(k, after[k])
      ensures forall e :: e in after[k] ==> e in EnginesOf(r.pools) - (stale - r.leased)
    {
      assert PoolOk(k, r.pools[k]);
      KeptDistinct(r.pools[k], r.leased, stale);
      forall e | e in after[k]
        ensures e in r.pools[k] && (e in r.leased || e !in stale)
      {
        KeptMember(r.pools[k], r.leased, stale, e);
      }
    }
    forall e | e in EnginesOf(r.pools) - (stale - r.leased)
      ensures e in EnginesOf(after)
    {
      var k :| k in r.pools && e in r.pools[k];
      KeptMember(r.pools[k], r.leased, stale, e);
      assert k in after && e in after[k];
    }
  }
}
