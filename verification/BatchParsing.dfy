/**
 * Batch parsing: files are grouped by input format and pipeline, each group is
 * converted at once, and the outputs are put back at their files' positions.
 * The foreign converter and the normaliser are arbitrary functions.
 */
module BatchParsing {
  import opened Wrappers
  import opened Sequences
  import opened Text

  datatype ParseError =
    | FileNotFound(path: string)
    | UnsupportedExtension(path: string)
    | FormatDisabled(inputFormat: string)
    | UnknownPipeline
    | VlmUnsupported(inputFormat: string)
    | MixedPipelines
    | Raised(message: string)

  datatype Key = Key(inputFormat: string, pipeline: string)

  /** `requested` is the pipeline asked for, or the configured one. */
  datatype Env<!R, !O> = Env(
    isFile: string -> bool,
    formatOf: string -> Option<string>,
    allowed: set<string>,
    vlmFormats: set<string>,
    requested: string,
    convert: (Key, seq<string>) -> Result<seq<R>, string>,
    sourceOf: (R, string) -> string,
    normalise: (R, string, Key) -> Result<O, string>)

  /** The batch normalises a result under the path that the result names, or else the file's own. */
  function Finish<R, O>(env: Env<R, O>, result: R, path: string, key: Key): Result<O, string> {
    env.normalise(result, env.sourceOf(result, path), key)
  }

  // -------------------------------------------------------------------- checks

  function FileCheck<R, O>(env: Env<R, O>, path: string): Result<string, ParseError> {
    if env.isFile(path) then Ok(path) else Err(FileNotFound(path))
  }

  function Format<R, O>(env: Env<R, O>, path: string): Result<string, ParseError> {
    match env.formatOf(path)
    case None => Err(UnsupportedExtension(path))
    case Some(f) => Ok(f)
  }

  function FormatCheck<R, O>(env: Env<R, O>, inputFormat: string): Result<string, ParseError> {
    if inputFormat in env.allowed then Ok(inputFormat) else Err(FormatDisabled(inputFormat))
  }

  function Pipeline<R, O>(env: Env<R, O>, inputFormat: string): Result<Key, ParseError> {
    var pipeline := Lower(Strip(env.requested));
    if pipeline !in {"standard", "vlm", "auto"} then Err(UnknownPipeline)
    else if pipeline == "auto" then Ok(Key(inputFormat, "standard"))
    else if pipeline == "vlm" && inputFormat !in env.vlmFormats then Err(VlmUnsupported(inputFormat))
    else Ok(Key(inputFormat, pipeline))
  }

  /** A comprehension or loop over `s` that stops at the first exception. */
  function MapAll<A, B>(s: seq<A>, f: A -> Result<B, ParseError>): Result<seq<B>, ParseError> {
    if s == [] then Ok([])
    else
      match f(s[0])
      case Err(e) => Err(e)
      case Ok(b) =>
        match MapAll(s[1..], f)
        case Err(e) => Err(e)
        case Ok(rest) => Ok([b] + rest)
  }

  function Then<A, B>(r: Result<A, ParseError>, f: A -> Result<B, ParseError>): Result<B, ParseError> {
    match r
    case Err(e) => Err(e)
    case Ok(a) => f(a)
  }

  /** The stages run over all files one after the other. */
  function KeysOf<R, O>(paths: seq<string>, env: Env<R, O>): Result<seq<Key>, ParseError> {
    var files := MapAll(paths, p => FileCheck(env, p));
    var formats := Then(files, ps => MapAll(ps, p => Format(env, p)));
    var checked := Then(formats, fs => MapAll(fs, f => FormatCheck(env, f)));
    Then(checked, fs => MapAll(fs, f => Pipeline(env, f)))
  }

  predicate OnePipeline(keys: seq<Key>) {
    forall i, j :: 0 <= i < j < |keys| ==> keys[i].pipeline == keys[j].pipeline
  }

  // -------------------------------------------------------------------- groups

  /** The positions of `key`, in increasing order. */
  function PositionsOf(keys: seq<Key>, key: Key): seq<nat>
    decreases |keys|
  {
    if keys == [] then []
    else PositionsOf(keys[..|keys| - 1], key) + if keys[|keys| - 1] == key then [|keys| - 1] else []
  }

  /** How many earlier files are in the same group. */
  function Rank(keys: seq<Key>, i: nat): nat
    requires i < |keys|
  {
    |PositionsOf(keys[..i], keys[i])|
  }

  lemma {:induction false} PositionsLaw(keys: seq<Key>, key: Key, j: nat)
    requires j < |PositionsOf(keys, key)|
    ensures var i := PositionsOf(keys, key)[j];
            i < |keys| && keys[i] == key && Rank(keys, i) == j
    decreases |keys|
  {
    var n := |keys| - 1;
    var init := PositionsOf(keys[..n], key);
    if j < |init| {
      PositionsLaw(keys[..n], key, j);
      assert keys[..n][..init[j]] == keys[..init[j]];
    }
  }

  lemma {:induction false} RankLaw(keys: seq<Key>, i: nat)
    requires i < |keys|
    ensures Rank(keys, i) < |PositionsOf(keys, keys[i])|
    ensures PositionsOf(keys, keys[i])[Rank(keys, i)] == i
    decreases |keys|
  {
    var n := |keys| - 1;
    if i < n {
      RankLaw(keys[..n], i);
      assert keys[..n][..i] == keys[..i];
    }
  }

  /**
   * The groups partition the files: file i is in the group of its own key, once,
   * and each group lists its files in their order.
   */
  lemma GroupsPartition(keys: seq<Key>, i: nat)
    requires i < |keys|
    ensures keys[i] in Dedup(keys)
    ensures forall k, j :: k in Dedup(keys) && 0 <= j < |PositionsOf(keys, k)| ==>
              (PositionsOf(keys, k)[j] == i <==> k == keys[i] && j == Rank(keys, i))
    ensures forall a, b :: 0 <= a < b < |PositionsOf(keys, keys[i])| ==>
              PositionsOf(keys, keys[i])[a] < PositionsOf(keys, keys[i])[b]
  {
    DedupMember(keys, keys[i]);
    RankLaw(keys, i);
    forall k, j | k in Dedup(keys) && 0 <= j < |PositionsOf(keys, k)|
      ensures PositionsOf(keys, k)[j] == i <==> k == keys[i] && j == Rank(keys, i)
    {
      PositionsLaw(keys, k, j);
    }
    PositionsIncrease(keys, keys[i]);
  }

  lemma {:induction false} PositionsIncrease(keys: seq<Key>, key: Key)
    ensures forall a, b :: 0 <= a < b < |PositionsOf(keys, key)| ==>
              PositionsOf(keys, key)[a] < PositionsOf(keys, key)[b] < |keys|
    ensures forall a :: 0 <= a < |PositionsOf(keys, key)| ==> PositionsOf(keys, key)[a] < |keys|
    decreases |keys|
  {
    if keys != [] {
      var n := |keys| - 1;
      PositionsIncrease(keys[..n], key);
      var init, all := PositionsOf(keys[..n], key), PositionsOf(keys, key);
      forall a, b | 0 <= a < b < |all|
        ensures all[a] < all[b] < |keys|
      {
        assert all[a] == init[a];
        assert b < |init| ==> init[a] < init[b];
      }
    }
  }

  // -------------------------------------------------------------------- gather

  function PathsAt(paths: seq<string>, positions: seq<nat>): (group: seq<string>)
    requires forall j :: 0 <= j < |positions| ==> positions[j] < |paths|
    ensures |group| == |positions|
    ensures forall j :: 0 <= j < |group| ==> group[j] == paths[positions[j]]
  {
    seq(|positions|, j requires 0 <= j < |positions| => paths[positions[j]])
  }

  function GroupPaths(paths: seq<string>, keys: seq<Key>, key: Key): (group: seq<string>)
    requires |keys| == |paths|
    ensures |group| == |PositionsOf(keys, key)|
    ensures forall i :: 0 <= i < |keys| && keys[i] == key ==>
              Rank(keys, i) < |group| && group[Rank(keys, i)] == paths[i]
  {
    PositionsIncrease(keys, key);
    assert forall i :: 0 <= i < |keys| && keys[i] == key ==>
      Rank(keys, i) < |PositionsOf(keys, key)| && PositionsOf(keys, key)[Rank(keys, i)] == i by {
      forall i | 0 <= i < |keys| && keys[i] == key
        ensures Rank(keys, i) < |PositionsOf(keys, key)| && PositionsOf(keys, key)[Rank(keys, i)] == i
      {
        RankLaw(keys, i);
      }
    }
    PathsAt(paths, PositionsOf(keys, key))
  }

  function Converted<R, O>(paths: seq<string>, keys: seq<Key>, key: Key, env: Env<R, O>): Result<seq<R>, string>
    requires |keys| == |paths|
  {
    env.convert(key, GroupPaths(paths, keys, key))
  }

  /** zip stops at the shorter of the two; the first exception ends the group. */
  function FinishFailure<R, O>(results: seq<R>, group: seq<string>, key: Key, env: Env<R, O>, from: nat): Option<string>
    decreases |results| - from
  {
    if from >= |results| || from >= |group| then None
    else
      match Finish(env, results[from], group[from], key)
      case Err(e) => Some(e)
      case Ok(_) => FinishFailure(results, group, key, env, from + 1)
  }

  function GroupFailure<R, O>(paths: seq<string>, keys: seq<Key>, key: Key, env: Env<R, O>): Option<string>
    requires |keys| == |paths|
  {
    match Converted(paths, keys, key, env)
    case Err(e) => Some(e)
    case Ok(results) => FinishFailure(results, GroupPaths(paths, keys, key), key, env, 0)
  }

  function FirstFailure<R, O>(paths: seq<string>, keys: seq<Key>, order: seq<Key>, env: Env<R, O>): Option<string>
    requires |keys| == |paths|
  {
    if order == [] then None
    else
      var failure := GroupFailure(paths, keys, order[0], env);
      if failure.Some? then failure else FirstFailure(paths, keys, order[1..], env)
  }

  /** What ends up at a file's position: nothing if its group's results ran out. */
  function Slot<R, O>(paths: seq<string>, keys: seq<Key>, i: nat, env: Env<R, O>): Option<O>
    requires |keys| == |paths| && i < |keys|
  {
    var converted := Converted(paths, keys, keys[i], env);
    if converted.Err? || Rank(keys, i) >= |converted.value| then None
    else
      match Finish(env, converted.value[Rank(keys, i)], paths[i], keys[i])
      case Err(_) => None
      case Ok(output) => Some(output)
  }

  function Slots<R, O>(paths: seq<string>, keys: seq<Key>, env: Env<R, O>): (slots: seq<Option<O>>)
    requires |keys| == |paths|
    ensures |slots| == |paths|
  {
    seq(|paths|, i requires 0 <= i < |paths| => Slot(paths, keys, i, env))
  }

  function Compact<O>(slots: seq<Option<O>>): seq<O> {
    if slots == [] then []
    else (if slots[0].Some? then [slots[0].value] else []) + Compact(slots[1..])
  }

  function ParsedMany<R, O>(paths: seq<string>, env: Env<R, O>): Result<seq<O>, ParseError> {
    match KeysOf(paths, env)
    case Err(e) => Err(e)
    case Ok(keys) =>
      KeysLength(paths, env);
      if !OnePipeline(keys) then Err(MixedPipelines)
      else
        match FirstFailure(paths, keys, Dedup(keys), env)
        case Some(e) => Err(Raised(e))
        case None => Ok(Compact(Slots(paths, keys, env)))
  }

  lemma {:induction false} MapAllLength<A, B>(s: seq<A>, f: A -> Result<B, ParseError>)
    ensures MapAll(s, f).Ok? ==> |MapAll(s, f).value| == |s|
  {
    if s != [] {
      MapAllLength(s[1..], f);
    }
  }

  lemma KeysLength<R, O>(paths: seq<string>, env: Env<R, O>)
    ensures KeysOf(paths, env).Ok? ==> |KeysOf(paths, env).value| == |paths|
  {
    var files := MapAll(paths, p => FileCheck(env, p));
    var formats := Then(files, ps => MapAll(ps, p => Format(env, p)));
    var checked := Then(formats, fs => MapAll(fs, f => FormatCheck(env, f)));
    MapAllLength(paths, p => FileCheck(env, p));
    if files.Ok? {
      MapAllLength(files.value, p => Format(env, p));
      if formats.Ok? {
        MapAllLength(formats.value, f => FormatCheck(env, f));
        if checked.Ok? {
          MapAllLength(checked.value, f => Pipeline(env, f));
        }
      }
    }
  }

  // ----------------------------------------------------------------- the method

  ghost predicate Grouped(keys: seq<Key>, order: seq<Key>, grouped: map<Key, seq<nat>>) {
    && order == Dedup(keys)
    && grouped.Keys == Elements(order)
    && forall k :: k in grouped ==> grouped[k] == PositionsOf(keys, k)
  }

  lemma {:induction false} NoPositions(keys: seq<Key>, key: Key)
    requires key !in keys
    ensures PositionsOf(keys, key) == []
    decreases |keys|
  {
    if keys != [] {
      NoPositions(keys[..|keys| - 1], key);
    }
  }

  lemma GroupStart(keys: seq<Key>)
    ensures Grouped(keys[..0], [], map[])
  {
  }

  lemma GroupStep(keys: seq<Key>, key: Key, order: seq<Key>, grouped: map<Key, seq<nat>>)
    requires Grouped(keys, order, grouped)
    ensures Grouped(keys + [key],
                    if key in grouped then order else order + [key],
                    grouped[key := (if key in grouped then grouped[key] else []) + [|keys|]])
  {
    var next := keys + [key];
    assert next[..|keys|] == keys;
    DedupMember(keys, key);
    if key !in grouped {
      NoPositions(keys, key);
      assert Elements(order + [key]) == Elements(order) + {key};
    }
  }

  /** The dictionary of groups and, beside it, the order in which its keys were added. */
  method Group(keys: seq<Key>) returns (order: seq<Key>, grouped: map<Key, seq<nat>>)
    ensures order == Dedup(keys)
    ensures grouped.Keys == Elements(order)
    ensures forall k :: k in grouped ==> grouped[k] == PositionsOf(keys, k)
  {
    order, grouped := [], map[];
    GroupStart(keys);
    hide Dedup, PositionsOf;
    for i := 0 to |keys|
      invariant Grouped(keys[..i], order, grouped)
    {
      GroupStep(keys[..i], keys[i], order, grouped);
      assert keys[..i + 1] == keys[..i] + [keys[i]];
      if keys[i] !in grouped {
        order := order + [keys[i]];
        grouped := grouped[keys[i] := []];
      }
      grouped := grouped[keys[i] := grouped[keys[i]] + [i]];
    }
    assert keys[..|keys|] == keys;
  }

  /** The groups of `done` are in place, the other positions still empty. */
  ghost predicate Filled<R, O>(paths: seq<string>, keys: seq<Key>, done: seq<Key>, env: Env<R, O>,
                               outputs: seq<Option<O>>)
    requires |keys| == |paths|
  {
    && |outputs| == |paths|
    && forall i :: 0 <= i < |paths| ==> outputs[i] == if keys[i] in done then Slot(paths, keys, i, env) else None
  }

  method ParseMany<R, O>(paths: seq<string>, env: Env<R, O>) returns (r: Result<seq<O>, ParseError>)
    ensures r == ParsedMany(paths, env)
  {
    var checked := KeysOf(paths, env);
    if checked.Err? {
      return Err(checked.error);
    }
    KeysLength(paths, env);
    if !OnePipeline(checked.value) {
      return Err(MixedPipelines);
    }
    var outputs, failure := ConvertGroups(paths, checked.value, env);
    r := if failure.Some? then Err(Raised(failure.value)) else Ok(Compact(outputs));
  }

  method ConvertGroups<R, O>(paths: seq<string>, keys: seq<Key>, env: Env<R, O>)
    returns (slots: seq<Option<O>>, failure: Option<string>)
    requires |keys| == |paths|
    ensures failure == FirstFailure(paths, keys, Dedup(keys), env)
    ensures failure.None? ==> slots == Slots(paths, keys, env)
  {
    slots := [];
    var outputs := new Option<O>[|paths|](_ => None);
    var order, grouped := Group(keys);
    DedupDistinct(keys);
    for g := 0 to |order|
      invariant FirstFailure(paths, keys, order, env) == FirstFailure(paths, keys, order[g..], env)
      invariant Filled(paths, keys, order[..g], env, outputs[..])
    {
      failure := FillGroup(paths, keys, order[..g], order[g], grouped[order[g]], env, outputs);
      if failure.Some? {
        return;
      }
    }
    assert order[..|order|] == order;
    AllFilled(paths, keys, env, outputs[..]);
    slots, failure := outputs[..], None;
  }

  lemma AllFilled<R, O>(paths: seq<string>, keys: seq<Key>, env: Env<R, O>, outputs: seq<Option<O>>)
    requires |keys| == |paths| && Filled(paths, keys, Dedup(keys), env, outputs)
    ensures outputs == Slots(paths, keys, env)
  {
    forall i | 0 <= i < |paths|
      ensures outputs[i] == Slot(paths, keys, i, env)
    {
      DedupMember(keys, keys[i]);
    }
  }

  lemma OneAtRank(keys: seq<Key>, key: Key, j: nat)
    requires j < |PositionsOf(keys, key)|
    ensures forall i :: 0 <= i < |keys| && keys[i] == key && Rank(keys, i) == j ==> i == PositionsOf(keys, key)[j]
  {
    forall i | 0 <= i < |keys| && keys[i] == key && Rank(keys, i) == j
      ensures i == PositionsOf(keys, key)[j]
    {
      RankLaw(keys, i);
    }
  }

  /** Converts one group and puts its outputs at the positions of its files. */
  method FillGroup<R, O>(paths: seq<string>, keys: seq<Key>, ghost done: seq<Key>, key: Key, positions: seq<nat>,
                         env: Env<R, O>, outputs: array<Option<O>>)
    returns (failure: Option<string>)
    requires |keys| == |paths| && positions == PositionsOf(keys, key)
    requires key !in done && Filled(paths, keys, done, env, outputs[..])
    modifies outputs
    ensures failure == GroupFailure(paths, keys, key, env)
    ensures failure.None? ==> Filled(paths, keys, done + [key], env, outputs[..])
  {
    var group := GroupPaths(paths, keys, key);
    var converted := env.convert(key, group);
    if converted.Err? {
      return Some(converted.error);
    }
    var results := converted.value;
    var j := 0;
    while j < |results| && j < |group|
      invariant j <= |group| && j <= |results|
      invariant FinishFailure(results, group, key, env, 0) == FinishFailure(results, group, key, env, j)
      invariant forall i :: 0 <= i < |keys| && keys[i] != key ==> outputs[i] == old(outputs[i])
      invariant forall i :: 0 <= i < |keys| && keys[i] == key ==>
                  outputs[i] == if Rank(keys, i) < j then Slot(paths, keys, i, env) else None
    {
      PositionsLaw(keys, key, j);
      var at := positions[j];
      var output := Finish(env, results[j], group[j], key);
      if output.Err? {
        return Some(output.error);
      }
      OneAtRank(keys, key, j);
      assert Slot(paths, keys, at, env) == Some(output.value);
      outputs[at] := Some(output.value);
      j := j + 1;
    }
    failure := None;
  }

  // ---------------------------------------------------------------- main results

  /** The checks of a single file's parse. */
  function KeyOf<R, O>(env: Env<R, O>, path: string): Result<Key, ParseError> {
    Then(Then(Then(FileCheck(env, path), p => Format(env, p)), f => FormatCheck(env, f)), f => Pipeline(env, f))
  }

  /** A single file's parse, with `one` for the converter; it normalises under the file's own path. */
  function ParseOne<R, O>(env: Env<R, O>, one: (Key, string) -> Result<R, string>, path: string)
    : Result<O, ParseError>
  {
    match KeyOf(env, path)
    case Err(e) => Err(e)
    case Ok(key) =>
      match one(key, path)
      case Err(e) => Err(Raised(e))
      case Ok(result) =>
        match env.normalise(result, path, key)
        case Err(e) => Err(Raised(e))
        case Ok(output) => Ok(output)
  }

  lemma {:induction false} MapAllLaw<A, B>(s: seq<A>, f: A -> Result<B, ParseError>)
    ensures MapAll(s, f).Ok? ==>
              && |MapAll(s, f).value| == |s|
              && forall i :: 0 <= i < |s| ==> f(s[i]) == Ok(MapAll(s, f).value[i])
    ensures MapAll(s, f).Err? ==> exists i :: 0 <= i < |s| && f(s[i]) == Err(MapAll(s, f).error)
  {
    if s != [] {
      MapAllLaw(s[1..], f);
      if f(s[0]).Ok? && MapAll(s[1..], f).Err? {
        var i :| 0 <= i < |s[1..]| && f(s[1..][i]) == Err(MapAll(s[1..], f).error);
        assert f(s[i + 1]) == Err(MapAll(s, f).error);
      }
    }
  }

  /** Checking stage by stage or file by file finds the same keys, and no other errors. */
  lemma KeysLaw<R, O>(paths: seq<string>, env: Env<R, O>)
    ensures KeysOf(paths, env).Ok? ==>
              && |KeysOf(paths, env).value| == |paths|
              && forall i :: 0 <= i < |paths| ==> KeyOf(env, paths[i]) == Ok(KeysOf(paths, env).value[i])
    ensures KeysOf(paths, env).Err? ==>
              exists i :: 0 <= i < |paths| && KeyOf(env, paths[i]) == Err(KeysOf(paths, env).error)
  {
    var files := MapAll(paths, p => FileCheck(env, p));
    var formats := Then(files, ps => MapAll(ps, p => Format(env, p)));
    var checked := Then(formats, fs => MapAll(fs, f => FormatCheck(env, f)));
    MapAllLaw(paths, p => FileCheck(env, p));
    if files.Ok? {
      MapAllLaw(files.value, p => Format(env, p));
      if formats.Ok? {
        MapAllLaw(formats.value, f => FormatCheck(env, f));
        if checked.Ok? {
          MapAllLaw(checked.value, f => Pipeline(env, f));
        }
      }
    }
  }

  /** The batch runs under one request, so its files never resolve to different pipelines. */
  lemma NeverMixed<R, O>(paths: seq<string>, env: Env<R, O>)
    ensures KeysOf(paths, env).Ok? ==> OnePipeline(KeysOf(paths, env).value)
    ensures ParsedMany(paths, env) != Err(MixedPipelines)
  {
    KeysLaw(paths, env);
    if KeysOf(paths, env).Ok? {
      var keys := KeysOf(paths, env).value;
      forall i | 0 <= i < |keys|
        ensures keys[i].pipeline == if Lower(Strip(env.requested)) == "vlm" then "vlm" else "standard"
      {
        assert KeyOf(env, paths[i]) == Ok(keys[i]);
      }
    } else {
      var i :| 0 <= i < |paths| && KeyOf(env, paths[i]) == Err(KeysOf(paths, env).error);
    }
  }

  lemma {:induction false} FinishFailureLaw<R, O>(results: seq<R>, group: seq<string>, key: Key, env: Env<R, O>,
                                                  from: nat)
    ensures FinishFailure(results, group, key, env, from).None? ==>
              forall j :: from <= j < |results| && j < |group| ==> Finish(env, results[j], group[j], key).Ok?
    ensures FinishFailure(results, group, key, env, from).Some? ==>
              exists j :: from <= j < |results| && j < |group|
                       && Finish(env, results[j], group[j], key)
                          == Err(FinishFailure(results, group, key, env, from).value)
    decreases |results| - from
  {
    if from < |results| && from < |group| {
      FinishFailureLaw(results, group, key, env, from + 1);
    }
  }

  lemma {:induction false} FirstFailureLaw<R, O>(paths: seq<string>, keys: seq<Key>, order: seq<Key>, env: Env<R, O>)
    requires |keys| == |paths|
    ensures FirstFailure(paths, keys, order, env).None? ==>
              forall k :: k in order ==> GroupFailure(paths, keys, k, env).None?
    ensures FirstFailure(paths, keys, order, env).Some? ==>
              exists k :: k in order && GroupFailure(paths, keys, k, env) == FirstFailure(paths, keys, order, env)
  {
    if order != [] {
      FirstFailureLaw(paths, keys, order[1..], env);
      assert order == [order[0]] + order[1..];
    }
  }

  /** Nothing is dropped iff every slot is filled, and then the outputs are the slots. */
  lemma {:induction false} CompactLaw<O>(slots: seq<Option<O>>)
    ensures |Compact(slots)| <= |slots|
    ensures |Compact(slots)| == |slots| <==> forall i :: 0 <= i < |slots| ==> slots[i].Some?
    ensures |Compact(slots)| == |slots| ==> forall i :: 0 <= i < |slots| ==> slots[i] == Some(Compact(slots)[i])
  {
    if slots != [] {
      CompactLaw(slots[1..]);
      assert forall i :: 0 <= i < |slots| - 1 ==> slots[1..][i] == slots[i + 1];
      if |Compact(slots)| == |slots| {
        assert slots[0].Some?;
        assert Compact(slots) == [slots[0].value] + Compact(slots[1..]);
      }
      if forall i :: 0 <= i < |slots| ==> slots[i].Some? {
        assert forall i :: 0 <= i < |slots[1..]| ==> slots[1..][i].Some?;
      }
    }
  }

  /** The outputs are as many as the files iff every group's conversion returned enough results. */
  lemma CompleteExactly<R, O>(paths: seq<string>, env: Env<R, O>)
    requires ParsedMany(paths, env).Ok?
    ensures KeysOf(paths, env).Ok? && |KeysOf(paths, env).value| == |paths|
    ensures var keys := KeysOf(paths, env).value;
            |ParsedMany(paths, env).value| == |paths| <==>
            forall k :: k in keys ==>
              Converted(paths, keys, k, env).Ok? && |PositionsOf(keys, k)| <= |Converted(paths, keys, k, env).value|
  {
    KeysLength(paths, env);
    var keys := KeysOf(paths, env).value;
    var slots := Slots(paths, keys, env);
    CompactLaw(slots);
    FirstFailureLaw(paths, keys, Dedup(keys), env);
    forall i | 0 <= i < |paths|
      ensures Converted(paths, keys, keys[i], env).Ok?
      ensures slots[i].Some? <==> Rank(keys, i) < |Converted(paths, keys, keys[i], env).value|
    {
      SlotFilled(paths, keys, i, env);
    }
    if |Compact(slots)| == |slots| {
      forall k | k in keys
        ensures Converted(paths, keys, k, env).Ok? && |PositionsOf(keys, k)| <= |Converted(paths, keys, k, env).value|
      {
        var i := LastOf(keys, k);
        assert slots[i].Some?;
      }
    } else {
      var i :| 0 <= i < |slots| && slots[i].None?;
      RankLaw(keys, i);
      assert keys[i] in keys;
    }
  }

  /** If nothing failed, a position is filled iff its group's results reach that far. */
  lemma SlotFilled<R, O>(paths: seq<string>, keys: seq<Key>, i: nat, env: Env<R, O>)
    requires |keys| == |paths| && i < |keys|
    requires FirstFailure(paths, keys, Dedup(keys), env).None?
    ensures Converted(paths, keys, keys[i], env).Ok?
    ensures Slot(paths, keys, i, env).Some? <==> Rank(keys, i) < |Converted(paths, keys, keys[i], env).value|
  {
    FirstFailureLaw(paths, keys, Dedup(keys), env);
    DedupMember(keys, keys[i]);
    assert GroupFailure(paths, keys, keys[i], env).None?;
    FinishFailureLaw(Converted(paths, keys, keys[i], env).value, GroupPaths(paths, keys, keys[i]), keys[i], env, 0);
  }

  /** The last file of a group has the group's highest rank. */
  lemma LastOf(keys: seq<Key>, k: Key) returns (i: nat)
    requires k in keys
    ensures i < |keys| && keys[i] == k && Rank(keys, i) == |PositionsOf(keys, k)| - 1
  {
    var some :| 0 <= some < |keys| && keys[some] == k;
    RankLaw(keys, some);
    var last := |PositionsOf(keys, k)| - 1;
    PositionsLaw(keys, k, last);
    i := PositionsOf(keys, k)[last];
  }

  /**
   * For every group of this call: its conversion does not raise, gives path by path what the
   * single conversion gives, and its results name no other source than their file.
   */
  ghost predicate Faithful<R, O>(paths: seq<string>, keys: seq<Key>, env: Env<R, O>,
                                 one: (Key, string) -> Result<R, string>)
  {
    && |keys| == |paths|
    && forall k :: k in keys ==> FaithfulGroup(env, one, k, GroupPaths(paths, keys, k))
  }

  ghost predicate FaithfulGroup<R, O>(env: Env<R, O>, one: (Key, string) -> Result<R, string>, key: Key,
                                      group: seq<string>)
  {
    && env.convert(key, group).Ok?
    && |env.convert(key, group).value| == |group|
    && forall j :: 0 <= j < |group| ==>
         && one(key, group[j]) == Ok(env.convert(key, group).value[j])
         && env.sourceOf(env.convert(key, group).value[j], group[j]) == group[j]
  }

  /** One position of the batch is the single parse of that file. */
  lemma SlotIsParseOne<R, O>(paths: seq<string>, keys: seq<Key>, i: nat, env: Env<R, O>,
                             one: (Key, string) -> Result<R, string>)
    requires Faithful(paths, keys, env, one) && i < |keys| && KeyOf(env, paths[i]) == Ok(keys[i])
    ensures var single := ParseOne(env, one, paths[i]);
            Slot(paths, keys, i, env) == if single.Ok? then Some(single.value) else None
  {
    var group := GroupPaths(paths, keys, keys[i]);
    assert FaithfulGroup(env, one, keys[i], group);
    assert group[Rank(keys, i)] == paths[i];
  }

  /** A failure of the batch is the failure of one of its files. */
  lemma FailureIsParseOne<R, O>(paths: seq<string>, keys: seq<Key>, k: Key, env: Env<R, O>,
                                one: (Key, string) -> Result<R, string>) returns (i: nat)
    requires Faithful(paths, keys, env, one) && k in keys && GroupFailure(paths, keys, k, env).Some?
    requires forall i :: 0 <= i < |paths| ==> KeyOf(env, paths[i]) == Ok(keys[i])
    ensures i < |paths| && ParseOne(env, one, paths[i]) == Err(Raised(GroupFailure(paths, keys, k, env).value))
  {
    var group := GroupPaths(paths, keys, k);
    assert FaithfulGroup(env, one, k, group);
    var results := Converted(paths, keys, k, env).value;
    FinishFailureLaw(results, group, k, env, 0);
    var j :| 0 <= j < |results| && j < |group|
          && Finish(env, results[j], group[j], k) == Err(FinishFailure(results, group, k, env, 0).value);
    PositionsLaw(keys, k, j);
    i := PositionsOf(keys, k)[j];
    assert one(k, group[j]) == Ok(results[j]);
  }

  /**
   * Batch parsing refines parsing one by one, for any mix of formats: it succeeds
   * iff every single parse does, each output is the single parse of the file at that
   * position, and a batch that fails does so with the error of one of its files.
   */
  lemma BatchRefinesSingles<R, O>(paths: seq<string>, env: Env<R, O>, one: (Key, string) -> Result<R, string>)
    requires KeysOf(paths, env).Ok? ==> Faithful(paths, KeysOf(paths, env).value, env, one)
    ensures var r := ParsedMany(paths, env);
            && (r.Ok? <==> forall i :: 0 <= i < |paths| ==> ParseOne(env, one, paths[i]).Ok?)
            && (r.Ok? ==>
                  && |r.value| == |paths|
                  && forall i :: 0 <= i < |paths| ==> ParseOne(env, one, paths[i]) == Ok(r.value[i]))
            && (r.Err? ==> exists i :: 0 <= i < |paths| && ParseOne(env, one, paths[i]) == Err(r.error))
  {
    KeysLaw(paths, env);
    NeverMixed(paths, env);
    if KeysOf(paths, env).Ok? {
      var keys := KeysOf(paths, env).value;
      FirstFailureLaw(paths, keys, Dedup(keys), env);
      if ParsedMany(paths, env).Ok? {
        SlotsAreSingles(paths, keys, env, one);
      } else {
        var k :| k in Dedup(keys) && GroupFailure(paths, keys, k, env) == FirstFailure(paths, keys, Dedup(keys), env);
        DedupMember(keys, k);
        var i := FailureIsParseOne(paths, keys, k, env, one);
      }
    } else {
      var i :| 0 <= i < |paths| && KeyOf(env, paths[i]) == Err(KeysOf(paths, env).error);
      assert ParseOne(env, one, paths[i]) == Err(KeysOf(paths, env).error);
    }
  }

  lemma SlotsAreSingles<R, O>(paths: seq<string>, keys: seq<Key>, env: Env<R, O>,
                              one: (Key, string) -> Result<R, string>)
    requires Faithful(paths, keys, env, one)
    requires forall i :: 0 <= i < |paths| ==> KeyOf(env, paths[i]) == Ok(keys[i])
    requires FirstFailure(paths, keys, Dedup(keys), env).None?
    ensures var outputs := Compact(Slots(paths, keys, env));
            && |outputs| == |paths|
            && forall i :: 0 <= i < |paths| ==> ParseOne(env, one, paths[i]) == Ok(outputs[i])
  {
    var slots := Slots(paths, keys, env);
    forall i | 0 <= i < |slots|
      ensures slots[i].Some? && ParseOne(env, one, paths[i]) == Ok(slots[i].value)
    {
      SlotFilled(paths, keys, i, env);
      SlotIsParseOne(paths, keys, i, env, one);
      assert FaithfulGroup(env, one, keys[i], GroupPaths(paths, keys, keys[i]));
    }
    CompactLaw(slots);
  }

  // ------------------------------------------------------------ failing inputs

  ghost predicate NeverFails<R(!new), O>(env: Env<R, O>) {
    && (forall key, group :: env.convert(key, group).Ok?)
    && (forall result, path, key :: env.normalise(result, path, key).Ok?)
  }

  lemma GroupNeverFails<R(!new), O>(paths: seq<string>, keys: seq<Key>, key: Key, env: Env<R, O>)
    requires |keys| == |paths| && NeverFails(env)
    ensures GroupFailure(paths, keys, key, env).None?
  {
    FinishFailureLaw(Converted(paths, keys, key, env).value, GroupPaths(paths, keys, key), key, env, 0);
  }

  lemma NothingFails<R(!new), O>(paths: seq<string>, env: Env<R, O>)
    requires KeysOf(paths, env).Ok? && NeverFails(env)
    ensures |KeysOf(paths, env).value| == |paths|
    ensures ParsedMany(paths, env) == Ok(Compact(Slots(paths, KeysOf(paths, env).value, env)))
  {
    hide NeverFails, GroupFailure, Slots;
    KeysLength(paths, env);
    NeverMixed(paths, env);
    var keys := KeysOf(paths, env).value;
    FirstFailureLaw(paths, keys, Dedup(keys), env);
    forall k
      ensures GroupFailure(paths, keys, k, env).None?
    {
      GroupNeverFails(paths, keys, k, env);
    }
  }

  /** How many of the first i slots are empty. */
  function Missing<O>(slots: seq<Option<O>>, i: nat): nat
    requires i <= |slots|
  {
    if i == 0 then 0 else Missing(slots, i - 1) + if slots[i - 1].None? then 1 else 0
  }

  lemma {:induction false} MissingTail<O>(slots: seq<Option<O>>, i: nat)
    requires 0 < i <= |slots|
    ensures Missing(slots, i) == Missing(slots[1..], i - 1) + if slots[0].None? then 1 else 0
    ensures Missing(slots, i) <= i
  {
    if i > 1 {
      MissingTail(slots, i - 1);
    }
  }

  /** Each output stands as many places too early as results are missing before it. */
  lemma {:induction false} OutputsShift<O>(slots: seq<Option<O>>, i: nat)
    requires i < |slots| && slots[i].Some?
    ensures Missing(slots, i) <= i && i - Missing(slots, i) < |Compact(slots)|
    ensures Compact(slots)[i - Missing(slots, i)] == slots[i].value
  {
    if i > 0 {
      OutputsShift(slots[1..], i - 1);
      MissingTail(slots, i);
    }
  }

  const EVERY_FILE: string -> bool := _ => true
  const BY_SUFFIX: string -> Option<string> := p => if p == "a.pdf" then Some("pdf") else Some("docx")

  /** A converter that drops every pdf. */
  const DROPPING: Env<string, string> :=
    Env(EVERY_FILE, BY_SUFFIX, {"pdf", "docx"}, {}, "standard",
        (key, group) => Ok(if key == Key("pdf", "standard") then [] else group),
        (_, path) => path, (_, path, _) => Ok(path))

  /** A converter whose results all name another file as their source. */
  const MISNAMING: Env<string, string> :=
    Env(EVERY_FILE, BY_SUFFIX, {"pdf", "docx"}, {}, "standard", (_, group) => Ok(group),
        (_, _) => "copy.pdf", (_, path, _) => Ok(path))

  const SINGLY: (Key, string) -> Result<string, string> := (_, path) => Ok(path)

  lemma ExampleKeys(env: Env<string, string>, paths: seq<string>)
    requires env.isFile == EVERY_FILE && env.formatOf == BY_SUFFIX
    requires env.allowed == {"pdf", "docx"} && env.requested == "standard"
    ensures KeysOf(paths, env).Ok? && |KeysOf(paths, env).value| == |paths|
    ensures forall i :: 0 <= i < |paths| ==>
              KeysOf(paths, env).value[i] == Key(if paths[i] == "a.pdf" then "pdf" else "docx", "standard")
  {
    KeysLaw(paths, env);
    assert Lower(Strip("standard")) == "standard";
    forall i | 0 <= i < |paths|
      ensures KeyOf(env, paths[i]) == Ok(Key(if paths[i] == "a.pdf" then "pdf" else "docx", "standard"))
    {
    }
  }

  /** One result short in the first group, and the second file's output comes first. */
  lemma ShortGroupShifts()
    ensures ParsedMany(["a.pdf", "b.docx"], DROPPING) == Ok(["b.docx"])
  {
    var paths := ["a.pdf", "b.docx"];
    ExampleKeys(DROPPING, paths);
    NothingFails(paths, DROPPING);
    hide *;
    CompactPair("b.docx");
  }

  lemma CompactPair(x: string)
    ensures Compact([None, Some(x)]) == [x] && Compact([Some(x)]) == [x]
  {
    assert [None, Some(x)][1..] == [Some(x)] && [Some(x)][1..] == [];
    assert Compact<string>([]) == [];
  }

  /**
   * When results name another file the batch normalises under that name and the
   * single parse does not, although the conversions agree.
   */
  lemma SourceMatters()
    ensures MISNAMING.convert(Key("pdf", "standard"), ["a.pdf"]) == Ok(["a.pdf"])
    ensures SINGLY(Key("pdf", "standard"), "a.pdf") == Ok("a.pdf")
    ensures ParsedMany(["a.pdf"], MISNAMING) == Ok(["copy.pdf"])
    ensures ParseOne(MISNAMING, SINGLY, "a.pdf") == Ok("a.pdf")
  {
    var paths := ["a.pdf"];
    ExampleKeys(MISNAMING, paths);
    NothingFails(paths, MISNAMING);
    var keys := KeysOf(paths, MISNAMING).value;
    KeysLaw(paths, MISNAMING);
    assert KeyOf(MISNAMING, paths[0]) == Ok(keys[0]);
    hide ParsedMany, Slots, KeysOf, KeyOf;
    CompactPair("copy.pdf");
  }

  // ------------------------------------------------------------ checks and ends

  /**
   * The checks that each file passes, in the order in which the first that fails is
   * reported: it exists, its suffix names a format, the format is allowed, the pipeline is known, and the
   * vlm pipeline takes the format.  "auto" means standard.
   */
  lemma KeyLaw<R, O>(env: Env<R, O>, path: string)
    ensures var (format, name) := (env.formatOf(path), Lower(Strip(env.requested)));
            && (!env.isFile(path) ==> KeyOf(env, path) == Err(FileNotFound(path)))
            && (env.isFile(path) ==>
                  && (format.None? ==> KeyOf(env, path) == Err(UnsupportedExtension(path)))
                  && (format.Some? && format.value !in env.allowed ==>
                        KeyOf(env, path) == Err(FormatDisabled(format.value)))
                  && (format.Some? && format.value in env.allowed ==>
                        && (name != "standard" && name != "vlm" && name != "auto" ==>
                              KeyOf(env, path) == Err(UnknownPipeline))
                        && (name == "standard" || name == "auto" ==>
                              KeyOf(env, path) == Ok(Key(format.value, "standard")))
                        && (name == "vlm" ==>
                              KeyOf(env, path) == if format.value in env.vlmFormats then Ok(Key(format.value, "vlm"))
                                                  else Err(VlmUnsupported(format.value)))))
  {
  }

  /** What a file's single parse is: its key, its conversion, and the normalisation under its own path. */
  lemma ParseOneLaw<R, O>(env: Env<R, O>, one: (Key, string) -> Result<R, string>, path: string)
    ensures var r := ParseOne(env, one, path);
            match KeyOf(env, path)
            case Err(e) => r == Err(e)
            case Ok(key) =>
              match one(key, path)
              case Err(e) => r == Err(Raised(e))
              case Ok(result) =>
                match env.normalise(result, path, key)
                case Err(e) => r == Err(Raised(e))
                case Ok(output) => r == Ok(output)
  {
  }

  /** A file's slot holds the normalised result of its rank in its group, if there is one. */
  lemma SlotLaw<R, O>(paths: seq<string>, keys: seq<Key>, i: nat, env: Env<R, O>)
    requires |keys| == |paths| && i < |keys|
    ensures var (group, rank) := (GroupPaths(paths, keys, keys[i]), Rank(keys, i));
            && rank < |group| && group[rank] == paths[i]
            && match env.convert(keys[i], group)
               case Err(_) => Slots(paths, keys, env)[i] == None
               case Ok(results) =>
                 if |results| <= rank then Slots(paths, keys, env)[i] == None
                 else match env.normalise(results[rank], env.sourceOf(results[rank], paths[i]), keys[i])
                   case Err(_) => Slots(paths, keys, env)[i] == None
                   case Ok(output) => Slots(paths, keys, env)[i] == Some(output)
  {
  }
}
