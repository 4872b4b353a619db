/** One Docling engine: which formats it has initialised, and its counters. */
module DoclingEngines {
  import opened Wrappers
  import opened EnginePools

  datatype EngineState = EngineState(
    formats: set<string>,
    initializeCount: nat,
    conversionCount: nat,
    batchConversionCount: nat,
    cacheHitCount: nat,
    lastUsedAt: Option<int>,
    lastBatchSize: Option<nat>)

  const FRESH := EngineState({}, 0, 0, 0, 0, None, None)

  /**
   * What can happen to an engine: a lease from the pool, an initialisation by
   * itself (the warm-up), or a conversion.  `batch` is the number of paths of a
   * batch conversion, None for a single file; `initializes` says whether the foreign
   * initialisation would work if it is needed, `converts` whether the foreign
   * conversion returns.
   */
  datatype EngineEvent =
    | LeaseHit
    | Initializing(inputFormat: string, initializes: bool)
    | Converting(inputFormat: string, batch: Option<nat>, initializes: bool, converts: bool, now: int)

  function Initialized(s: EngineState, inputFormat: string, works: bool): EngineState {
    if inputFormat in s.formats then s.(cacheHitCount := s.cacheHitCount + 1)
    else if works then s.(formats := s.formats + {inputFormat}, initializeCount := s.initializeCount + 1)
    else s
  }

  predicate Starts(s: EngineState, inputFormat: string, works: bool) {
    inputFormat in s.formats || works
  }

  function AfterEvent(s: EngineState, e: EngineEvent): EngineState {
    match e
    case LeaseHit => s.(cacheHitCount := s.cacheHitCount + 1)
    case Initializing(inputFormat, initializes) => Initialized(s, inputFormat, initializes)
    case Converting(inputFormat, batch, initializes, converts, now) =>
      var ready := Initialized(s, inputFormat, initializes);
      if !Starts(s, inputFormat, initializes) then ready
      else
        var begun := ready.(lastUsedAt := Some(now),
                            lastBatchSize := if batch.Some? then batch else ready.lastBatchSize);
        if !converts then begun
        else
          begun.(conversionCount := begun.conversionCount + batch.GetOr(1),
                 batchConversionCount := begun.batchConversionCount + if batch.Some? then 1 else 0)
  }

  class DoclingEngine {
    const key: EngineKey
    const cacheEnabled: bool
    const createdAt: int
    var initializedFormats: set<string>
    var initializeCount: nat
    var conversionCount: nat
    var batchConversionCount: nat
    var cacheHitCount: nat
    var lastUsedAt: Option<int>
    var lastBatchSize: Option<nat>

    function State(): EngineState
      reads this
    {
      EngineState(initializedFormats, initializeCount, conversionCount, batchConversionCount,
                  cacheHitCount, lastUsedAt, lastBatchSize)
    }

    function IdleSince(): int
      reads this
    {
      lastUsedAt.GetOr(createdAt)
    }

    constructor (key: EngineKey, cacheEnabled: bool, now: int)
      ensures this.key == key && this.cacheEnabled == cacheEnabled && createdAt == now
      ensures State() == FRESH
    {
      this.key, this.cacheEnabled, createdAt := key, cacheEnabled, now;
      initializedFormats, initializeCount, conversionCount := {}, 0, 0;
      batchConversionCount, cacheHitCount := 0, 0;
      lastUsedAt, lastBatchSize := None, None;
    }

    method Initialize(inputFormat: string, works: bool) returns (ok: bool)
      modifies this
      ensures State() == AfterEvent(old(State()), Initializing(inputFormat, works))
      ensures ok == Starts(old(State()), inputFormat, works)
    {
      if inputFormat in initializedFormats {
        cacheHitCount := cacheHitCount + 1;
        return true;
      }
      if !works {
        return false;
      }
      initializedFormats := initializedFormats + {inputFormat};
      initializeCount := initializeCount + 1;
      ok := true;
    }

    /** `outcome` is what the foreign converter returns, None if it raises. */
    method Convert<R>(inputFormat: string, initializes: bool, outcome: Option<R>, now: int) returns (r: Option<R>)
      modifies this
      ensures State() == AfterEvent(old(State()), Converting(inputFormat, None, initializes, outcome.Some?, now))
      ensures r == if Starts(old(State()), inputFormat, initializes) then outcome else None
    {
      var ok := Initialize(inputFormat, initializes);
      if !ok {
        return None;
      }
      lastUsedAt := Some(now);
      if outcome.Some? {
        conversionCount := conversionCount + 1;
      }
      r := outcome;
    }

    method ConvertAll<R>(inputFormat: string, size: nat, initializes: bool, outcome: Option<seq<R>>, now: int)
      returns (r: Option<seq<R>>)
      modifies this
      ensures State() == AfterEvent(old(State()), Converting(inputFormat, Some(size), initializes, outcome.Some?, now))
      ensures r == if Starts(old(State()), inputFormat, initializes) then outcome else None
    {
      var ok := Initialize(inputFormat, initializes);
      if !ok {
        return None;
      }
      lastUsedAt := Some(now);
      lastBatchSize := Some(size);
      if outcome.Some? {
        batchConversionCount := batchConversionCount + 1;
        conversionCount := conversionCount + size;
      }
      r := outcome;
    }

    method CountHit()
      modifies this
      ensures State() == AfterEvent(old(State()), LeaseHit)
    {
      cacheHitCount := cacheHitCount + 1;
    }
  }

  // ------------------------------------------------------- a whole engine life

  function Life(events: seq<EngineEvent>): EngineState {
    if events == [] then FRESH else AfterEvent(Life(events[..|events| - 1]), events[|events| - 1])
  }

  /** Event i gets past initialisation: its format is initialised there, or was by an earlier event. */
  ghost predicate Started(events: seq<EngineEvent>, i: nat)
    requires i < |events|
  {
    && !events[i].LeaseHit?
    && exists j :: 0 <= j <= i && Initializes(events[j], events[i].inputFormat)
  }

  predicate Initializes(e: EngineEvent, inputFormat: string) {
    !e.LeaseHit? && e.inputFormat == inputFormat && e.initializes
  }

  ghost function StartedUses(events: seq<EngineEvent>): set<nat> {
    set i: nat | i < |events| && Started(events, i)
  }

  function LeaseHits(events: seq<EngineEvent>): set<nat> {
    set i: nat | i < |events| && events[i].LeaseHit?
  }

  ghost predicate Converted(events: seq<EngineEvent>, i: nat)
    requires i < |events|
  {
    Started(events, i) && events[i].Converting? && events[i].converts
  }

  ghost function Documents(events: seq<EngineEvent>, n: nat): nat
    requires n <= |events|
  {
    if n == 0 then 0
    else Documents(events, n - 1) + if Converted(events, n - 1) then events[n - 1].batch.GetOr(1) else 0
  }

  ghost function Batches(events: seq<EngineEvent>, n: nat): nat
    requires n <= |events|
  {
    if n == 0 then 0
    else Batches(events, n - 1) + if Converted(events, n - 1) && events[n - 1].batch.Some? then 1 else 0
  }

  /** The time of the last conversion that got past initialisation. */
  ghost function LastStart(events: seq<EngineEvent>, n: nat): Option<int>
    requires n <= |events|
  {
    if n == 0 then None
    else if Started(events, n - 1) && events[n - 1].Converting? then Some(events[n - 1].now)
    else LastStart(events, n - 1)
  }

  /** The size of the last batch that got past initialisation. */
  ghost function LastBatch(events: seq<EngineEvent>, n: nat): Option<nat>
    requires n <= |events|
  {
    if n == 0 then None
    else if Started(events, n - 1) && events[n - 1].Converting? && events[n - 1].batch.Some? then events[n - 1].batch
    else LastBatch(events, n - 1)
  }

  lemma {:induction false} CountsPrefix(events: seq<EngineEvent>, m: nat, n: nat)
    requires m <= n <= |events|
    ensures Documents(events[..n], m) == Documents(events, m)
    ensures Batches(events[..n], m) == Batches(events, m)
    ensures LastStart(events[..n], m) == LastStart(events, m)
    ensures LastBatch(events[..n], m) == LastBatch(events, m)
    decreases m
  {
    if m > 0 {
      CountsPrefix(events, m - 1, n);
      assert events[..n][m - 1] == events[m - 1];
    }
  }

  /** Exactly the formats of some event whose initialisation works get initialised. */
  lemma {:induction false} FormatsLaw(events: seq<EngineEvent>, f: string)
    ensures f in Life(events).formats <==> exists i :: 0 <= i < |events| && Initializes(events[i], f)
    decreases |events|
  {
    if events != [] {
      var n := |events| - 1;
      FormatsLaw(events[..n], f);
      assert forall i :: 0 <= i < n ==> events[..n][i] == events[i];
      assert Initializes(events[n], f) ==> f in Life(events).formats;
    }
  }

  lemma StartsExactly(events: seq<EngineEvent>, n: nat)
    requires n < |events| && !events[n].LeaseHit?
    ensures Starts(Life(events[..n]), events[n].inputFormat, events[n].initializes) <==> Started(events, n)
  {
    var f := events[n].inputFormat;
    FormatsLaw(events[..n], f);
    assert forall i :: 0 <= i < n ==> events[..n][i] == events[i];
    assert Initializes(events[n], f) <==> events[n].initializes;
    if Started(events, n) {
      var j :| 0 <= j <= n && Initializes(events[j], f);
      assert j < n ==> Initializes(events[..n][j], f);
    }
  }

  lemma StartedBefore(events: seq<EngineEvent>, n: nat, i: nat)
    requires i < n <= |events|
    ensures Started(events[..n], i) <==> Started(events, i)
  {
    hide Initializes;
    assert events[..n][i] == events[i];
    if Started(events, i) {
      var j :| 0 <= j <= i && Initializes(events[j], events[i].inputFormat);
      assert events[..n][j] == events[j];
    }
    if Started(events[..n], i) {
      var j :| 0 <= j <= i && Initializes(events[..n][j], events[i].inputFormat);
      assert events[..n][j] == events[j];
    }
  }

  /** The last event adds itself to the started ones or to the lease hits, or to neither. */
  lemma StartedSplit(events: seq<EngineEvent>)
    requires events != []
    ensures |StartedUses(events)|
         == |StartedUses(events[..|events| - 1])| + if Started(events, |events| - 1) then 1 else 0
  {
    var n := |events| - 1;
    forall i: nat | i < n
      ensures Started(events, i) <==> Started(events[..n], i)
    {
      StartedBefore(events, n, i);
    }
    hide Started;
    assert n !in StartedUses(events[..n]);
    assert StartedUses(events) == StartedUses(events[..n]) + if Started(events, n) then {n} else {};
  }

  lemma HitsSplit(events: seq<EngineEvent>)
    requires events != []
    ensures |LeaseHits(events)|
         == |LeaseHits(events[..|events| - 1])| + if events[|events| - 1].LeaseHit? then 1 else 0
  {
    var n := |events| - 1;
    assert n !in LeaseHits(events[..n]);
    assert LeaseHits(events) == LeaseHits(events[..n]) + if events[n].LeaseHit? then {n} else {};
  }

  lemma EventCounts(s: EngineState, e: EngineEvent, starts: bool)
    requires s.initializeCount == |s.formats|
    requires !e.LeaseHit? ==> starts == Starts(s, e.inputFormat, e.initializes)
    requires e.LeaseHit? ==> !starts
    ensures var t := AfterEvent(s, e);
            var converted := starts && e.Converting? && e.converts;
            && t.initializeCount == |t.formats|
            && t.initializeCount + t.cacheHitCount
               == s.initializeCount + s.cacheHitCount + (if starts || e.LeaseHit? then 1 else 0)
            && t.conversionCount == s.conversionCount + (if converted then e.batch.GetOr(1) else 0)
            && t.batchConversionCount == s.batchConversionCount + (if converted && e.batch.Some? then 1 else 0)
            && t.lastUsedAt == (if starts && e.Converting? then Some(e.now) else s.lastUsedAt)
            && t.lastBatchSize == (if starts && e.Converting? && e.batch.Some? then e.batch else s.lastBatchSize)
  {
    if !e.LeaseHit? && e.inputFormat !in s.formats {
      assert |s.formats + {e.inputFormat}| == |s.formats| + 1;
    }
  }

  /**
   * Over any life of an engine, leased from the pool as often as you like: each
   * format is initialised at most once; initialisations and hits together are the
   * uses that got past initialisation and the leases; the conversion counts are those
   * of just the conversions that returned; and the engine was last used
   * when the last conversion began, and last given a batch of the size of the last batch that began.
   */
  lemma {:induction false} EngineHistory(events: seq<EngineEvent>)
    ensures var s := Life(events);
            && s.initializeCount == |s.formats|
            && s.initializeCount + s.cacheHitCount == |StartedUses(events)| + |LeaseHits(events)|
            && s.conversionCount == Documents(events, |events|)
            && s.batchConversionCount == Batches(events, |events|)
            && s.lastUsedAt == LastStart(events, |events|)
            && s.lastBatchSize == LastBatch(events, |events|)
    decreases |events|
  {
    if events == [] {
      assert StartedUses(events) == {} && LeaseHits(events) == {};
    } else {
      hide AfterEvent;
      var n := |events| - 1;
      EngineHistory(events[..n]);
      if !events[n].LeaseHit? {
        StartsExactly(events, n);
      }
      CountsPrefix(events, n, n);
      StartedSplit(events);
      HitsSplit(events);
      EventCounts(Life(events[..n]), events[n], Started(events, n));
    }
  }

  /** So an engine that serves two leases ends with one initialisation and two hits. */
  lemma LeasedTwice(f: string, now: int)
    ensures var use := Converting(f, None, true, true, now);
            var s := Life([use, LeaseHit, use]);
            s.initializeCount == 1 && s.cacheHitCount == 2 && s.conversionCount == 2
  {
    var use := Converting(f, None, true, true, now);
    var events := [use, LeaseHit, use];
    assert events[..2] == [use, LeaseHit] && events[..2][..1] == [use] && [use][..0] == [];
    assert Life([use]) == AfterEvent(FRESH, use);
    assert Life([use, LeaseHit]) == AfterEvent(Life([use]), LeaseHit);
  }
}
