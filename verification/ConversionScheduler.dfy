/** One conversion: evict what is idle, lease an engine, use it, and give it back or discard it. */
module ConversionScheduler {
  import opened Wrappers
  import opened Sequences
  import opened EnginePools
  import opened DoclingEngines
  import opened EngineRegistry

  /**
   * What a whole conversion leaves of the registry: the leases are back as they
   * were; a failure leaves the pools without the engine, a success with it,
   * unless it was never to be cached.
   */
  lemma LeaseAndReturn<E>(r: Registry<E>, cached: bool, key: EngineKey, engine: E, failed: bool)
    requires engine !in r.leased
    requires key in r.pools ==> 0 < |r.pools[key]| && Distinct(r.pools[key])
    requires FreeEngine(r, cached, key).Some? ==> FreeEngine(r, cached, key) == Some(engine)
    requires FreeEngine(r, cached, key).None? ==> engine !in PoolOf(r.pools, key)
    ensures var after := AfterReturn(WithLease(r, cached, key, engine), key, engine, failed || !cached);
            var pool := PoolOf(r.pools, key);
            && after.leased == r.leased && after.permits == r.permits
            && (forall k :: k != key ==> PoolOf(after.pools, k) == PoolOf(r.pools, k))
            && (failed || !cached ==>
                  && engine !in PoolOf(after.pools, key)
                  && Elements(PoolOf(after.pools, key)) == Elements(pool) - {engine})
            && (!failed && cached ==>
                  && PoolOf(after.pools, key) == pool + (if engine in pool then [] else [engine])
                  && FirstFree(PoolOf(after.pools, key), after.leased) == Some(engine))
  {
    var pool := PoolOf(r.pools, key);
    FirstFreeLaw(pool, r.leased);
    if FreeEngine(r, cached, key).None? {
      DistinctAppend(pool, [engine]);
      FirstFreeAppend(pool, r.leased, engine);
    }
    var held := PoolOf(WithLease(r, cached, key, engine).pools, key);
    MinusLaw(held, engine);
    assert forall e :: e in Minus(held, engine) <==> e in Elements(Minus(held, engine));
    assert Elements(held) - {engine} == Elements(pool) - {engine};
    assert r.leased + {engine} - {engine} == r.leased;
    assert pool + [] == pool;
  }

  lemma {:induction false} FirstFreeAppend<E>(pool: seq<E>, leased: set<E>, engine: E)
    requires engine !in leased
    ensures FirstFree(pool, leased).None? ==> FirstFree(pool + [engine], leased) == Some(engine)
  {
    if pool != [] {
      assert (pool + [engine])[1..] == pool[1..] + [engine];
      FirstFreeAppend(pool[1..], leased, engine);
    }
  }

  /** The same for the registry as a whole. */
  lemma ScheduledLaw(r: Registry<DoclingEngine>, cached: bool, key: EngineKey, engine: DoclingEngine, failed: bool,
                     after: Registry<DoclingEngine>)
    requires PoolsOk(r.pools) && PoolsOk(after.pools) && Leasable(r, cached, key, engine)
    requires after == AfterReturn(WithLease(r, cached, key, engine), key, engine, failed || !cached)
    ensures after.leased == r.leased && after.permits == r.permits
    ensures failed || !cached ==> EnginesOf(after.pools) == EnginesOf(r.pools) - {engine}
    ensures !failed && cached ==>
              && EnginesOf(after.pools) == EnginesOf(r.pools) + {engine}
              && FirstFree(PoolOf(after.pools, key), after.leased) == Some(engine)
  {
    assert key in r.pools ==> PoolOk(key, r.pools[key]);
    assert forall e :: e in PoolOf(r.pools, key) ==> e in EnginesOf(r.pools);
    LeaseAndReturn(r, cached, key, engine, failed);
    forall k, e | e in PoolOf(r.pools, k)
      ensures e != engine ==> e in PoolOf(after.pools, k)
      ensures !failed && cached ==> e in PoolOf(after.pools, k)
    {
      assert e in Elements(PoolOf(r.pools, k));
      assert k == key ==> e in Elements(PoolOf(r.pools, k)) - {engine} || e == engine;
    }
    forall k, e | e in PoolOf(after.pools, k)
      ensures e == engine || e in PoolOf(r.pools, k)
      ensures failed || !cached ==> e != engine
    {
      assert e in Elements(PoolOf(after.pools, k));
    }
    EnginesByPool(r.pools);
    EnginesByPool(after.pools);
  }

  lemma EnginesByPool(pools: map<EngineKey, seq<DoclingEngine>>)
    ensures forall e :: e in EnginesOf(pools) ==> exists k :: e in PoolOf(pools, k)
    ensures forall k, e :: e in PoolOf(pools, k) ==> e in EnginesOf(pools)
  {
    forall e | e in EnginesOf(pools)
      ensures exists k :: e in PoolOf(pools, k)
    {
      var k :| k in pools && e in pools[k];
      assert e in PoolOf(pools, k);
    }
  }

  ghost predicate Scheduled(swept: Registry<DoclingEngine>, settings: EngineSettings, key: EngineKey,
                            lease: Option<DoclingEngine>, ok: bool, after: Registry<DoclingEngine>)
  {
    && after.permits == swept.permits && after.leased == swept.leased
    && match lease
       case None => after.pools == swept.pools && !ok
       case Some(engine) =>
         && (!ok || !settings.cacheEnabled ==> EnginesOf(after.pools) == EnginesOf(swept.pools) - {engine})
         && (ok && settings.cacheEnabled ==>
               && EnginesOf(after.pools) == EnginesOf(swept.pools) + {engine}
               && FirstFree(PoolOf(after.pools, key), after.leased) == Some(engine))
  }

  class DoclingConversionScheduler {
    const registry: DoclingEngineRegistry

    constructor (registry: DoclingEngineRegistry)
      ensures this.registry == registry
    {
      this.registry := registry;
    }

    /**
     * Whatever goes wrong, the permit is back and nothing stays leased.  An engine
     * whose conversion raised is gone from the pools; a cached engine whose
     * conversion returned is the very one the next conversion for its key gets.  The
     * sweep at the beginning takes no engine that was used within the time to live.
     */
    method Convert<R>(settings: EngineSettings, key: EngineKey, builds: bool, initializes: bool,
                      outcome: Option<R>, now: int)
      returns (r: Result<R, ConversionError>, ghost lease: Option<DoclingEngine>)
      requires registry.Valid()
      modifies registry, registry.Pooled()
      ensures registry.Valid()
      ensures Scheduled(AfterEvict(old(registry.View()), old(registry.Stale(now))), settings, key,
                        lease, r.Ok?, registry.View())
      ensures lease.None? ==>
                r == Err(NoEngine(Refusal(settings, key, old(registry.permits))))
      ensures lease.Some? && r.Err? ==> r == Err(ConversionRaised)
      ensures lease.Some? && r.Ok? ==> outcome == Some(r.value) && lease.value.lastUsedAt == Some(now)
      ensures forall e :: e in old(registry.Pooled()) && Some(e) != lease ==>
                var used := old(e.lastUsedAt);
                (used.Some? && now - used.value <= registry.idleTtlSeconds ==> e in registry.Pooled())
    {
      var _ := registry.EvictIdle(now);
      r, lease := ConvertLeased(settings, key, builds, initializes, outcome, now);
    }

    method ConvertLeased<R>(settings: EngineSettings, key: EngineKey, builds: bool, initializes: bool,
                            outcome: Option<R>, now: int)
      returns (r: Result<R, ConversionError>, ghost lease: Option<DoclingEngine>)
      requires registry.Valid()
      modifies registry, registry.Pooled()
      ensures registry.Valid()
      ensures Scheduled(old(registry.View()), settings, key, lease, r.Ok?, registry.View())
      ensures lease.None? ==>
                r == Err(NoEngine(Refusal(settings, key, old(registry.permits))))
      ensures lease.Some? && r.Err? ==> r == Err(ConversionRaised)
      ensures lease.Some? && r.Ok? ==> outcome == Some(r.value) && lease.value.lastUsedAt == Some(now)
    {
      var acquired := registry.AcquireEngine(settings, key, builds, now);
      if acquired.Err? {
        return Err(NoEngine(acquired.error)), None;
      }
      lease := Some(acquired.value);
      var result := ConvertAndRelease(acquired.value, key, initializes, outcome, now);
      ScheduledLaw(old(registry.View()), settings.cacheEnabled, key, acquired.value, result.None?, registry.View());
      r := if result.Some? then Ok(result.value) else Err(ConversionRaised);
    }

    /** The engine goes back whatever happens, and is discarded unless its conversion returned. */
    method ConvertAndRelease<R>(engine: DoclingEngine, key: EngineKey, initializes: bool, outcome: Option<R>, now: int)
      returns (r: Option<R>)
      requires registry.Valid() && engine.key == key
      modifies registry, engine
      ensures registry.Valid()
      ensures registry.View() == AfterReturn(old(registry.View()), key, engine, r.None? || !engine.cacheEnabled)
                                 .(permits := old(registry.permits) + 1)
      ensures r.Some? ==> r == outcome && engine.lastUsedAt == Some(now)
    {
      r := engine.Convert(key.inputFormat, initializes, outcome, now);
      registry.ReleaseEngine(engine, r.None?);
    }

    /** The same for a batch of documents of one format, which is converted under one lease. */
    method ConvertAll<R>(settings: EngineSettings, key: EngineKey, size: nat, builds: bool, initializes: bool,
                         outcome: Option<seq<R>>, now: int)
      returns (r: Result<seq<R>, ConversionError>, ghost lease: Option<DoclingEngine>)
      requires registry.Valid()
      modifies registry, registry.Pooled()
      ensures registry.Valid()
      ensures Scheduled(AfterEvict(old(registry.View()), old(registry.Stale(now))), settings, key,
                        lease, r.Ok?, registry.View())
      ensures lease.None? ==>
                r == Err(NoEngine(Refusal(settings, key, old(registry.permits))))
      ensures lease.Some? && r.Err? ==> r == Err(ConversionRaised)
      ensures lease.Some? && r.Ok? ==>
                && outcome == Some(r.value)
                && lease.value.lastUsedAt == Some(now) && lease.value.lastBatchSize == Some(size)
    {
      var _ := registry.EvictIdle(now);
      r, lease := ConvertAllLeased(settings, key, size, builds, initializes, outcome, now);
    }

    method ConvertAllLeased<R>(settings: EngineSettings, key: EngineKey, size: nat, builds: bool, initializes: bool,
                               outcome: Option<seq<R>>, now: int)
      returns (r: Result<seq<R>, ConversionError>, ghost lease: Option<DoclingEngine>)
      requires registry.Valid()
      modifies registry, registry.Pooled()
      ensures registry.Valid()
      ensures Scheduled(old(registry.View()), settings, key, lease, r.Ok?, registry.View())
      ensures lease.None? ==>
                r == Err(NoEngine(Refusal(settings, key, old(registry.permits))))
      ensures lease.Some? && r.Err? ==> r == Err(ConversionRaised)
      ensures lease.Some? && r.Ok? ==>
                && outcome == Some(r.value)
                && lease.value.lastUsedAt == Some(now) && lease.value.lastBatchSize == Some(size)
    {
      var acquired := registry.AcquireEngine(settings, key, builds, now);
      if acquired.Err? {
        return Err(NoEngine(acquired.error)), None;
      }
      lease := Some(acquired.value);
      var result := ConvertAllAndRelease(acquired.value, key, size, initializes, outcome, now);
      ScheduledLaw(old(registry.View()), settings.cacheEnabled, key, acquired.value, result.None?, registry.View());
      r := if result.Some? then Ok(result.value) else Err(ConversionRaised);
    }

    method ConvertAllAndRelease<R>(engine: DoclingEngine, key: EngineKey, size: nat, initializes: bool,
                                   outcome: Option<seq<R>>, now: int)
      returns (r: Option<seq<R>>)
      requires registry.Valid() && engine.key == key
      modifies registry, engine
      ensures registry.Valid()
      ensures registry.View() == AfterReturn(old(registry.View()), key, engine, r.None? || !engine.cacheEnabled)
                                 .(permits := old(registry.permits) + 1)
      ensures r.Some? ==> r == outcome && engine.lastUsedAt == Some(now) && engine.lastBatchSize == Some(size)
    {
      r := engine.ConvertAll(key.inputFormat, size, initializes, outcome, now);
      registry.ReleaseEngine(engine, r.None?);
    }
  }
}
