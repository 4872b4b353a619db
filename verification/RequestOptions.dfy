/** Request options: the sink mode of a job and its OCR languages. */
module RequestOptions {
  import opened Wrappers
  import opened Sequences
  import opened Text
  import opened JobModels

  datatype OptionError = UnsupportedIngestionOption

  // ---------------------------------------------------------------- sink mode

  function ModeName(mode: SinkMode): string {
    match mode
    case LocalSink => "local"
    case ElasticSink => "elastic"
    case LocalAndElasticSink => "local_and_elastic"
  }

  function ModeOf(name: string): Option<SinkMode> {
    if name == "local" then Some(LocalSink)
    else if name == "elastic" then Some(ElasticSink)
    else if name == "local_and_elastic" then Some(LocalAndElasticSink)
    else None
  }

  function NormalizeSinkMode(value: Option<string>): Result<Option<string>, OptionError> {
    if value.None? || Strip(value.value) == "" then Ok(None)
    else
      var normalized := Lower(Strip(value.value));
      if ModeOf(normalized).None? then Err(UnsupportedIngestionOption) else Ok(Some(normalized))
  }

  /** dispatch_sink_mode_from_metadata, on the stored request and the configured default. */
  function SinkModeFromMetadata(requested: Option<string>, default: SinkMode): Result<SinkMode, OptionError> {
    match NormalizeSinkMode(requested)
    case Err(e) => Err(e)
    case Ok(None) => Ok(default)
    case Ok(Some(name)) => Ok(ModeOf(name).GetOr(default))
  }

  lemma ModeNameRoundTrip(mode: SinkMode)
    ensures ModeOf(ModeName(mode)) == Some(mode)
    ensures Strip(ModeName(mode)) == ModeName(mode) && Lower(ModeName(mode)) == ModeName(mode)
  {
  }

  /**
   * A mode that an upload stored reads back as the mode it named: the
   * dispatcher's reading of stored metadata never raises.
   */
  lemma StoredModeReadable(value: Option<string>, default: SinkMode)
    requires NormalizeSinkMode(value).Ok?
    ensures var stored := NormalizeSinkMode(value).value;
            && NormalizeSinkMode(stored) == Ok(stored)
            && SinkModeFromMetadata(stored, default)
               == Ok(if stored.None? then default else ModeOf(stored.value).value)
            && SinkModeFromMetadata(stored, default) == SinkModeFromMetadata(value, default)
  {
    var stored := NormalizeSinkMode(value).value;
    if stored.Some? {
      var mode := ModeOf(stored.value).value;
      assert stored.value == ModeName(mode);
      ModeNameRoundTrip(mode);
    }
  }

  // ------------------------------------------------------------ OCR languages

  const MAX_OCR_LANGUAGES := 8

  function Canonical(raw: string): string { Lower(Strip(raw)) }

  /** ^[a-z][a-z0-9_-]{1,15}$ */
  predicate IsLanguageCode(s: string) {
    && 2 <= |s| <= 16
    && 'a' <= s[0] <= 'z'
    && forall i :: 1 <= i < |s| ==> 'a' <= s[i] <= 'z' || IsDigit(s[i]) || s[i] == '_' || s[i] == '-'
  }

  function Canonicals(raws: seq<string>): (r: seq<string>)
    ensures |r| == |raws| && forall i :: 0 <= i < |raws| ==> r[i] == Canonical(raws[i])
  {
    seq(|raws|, i requires 0 <= i < |raws| => Canonical(raws[i]))
  }

  function NonBlank(names: seq<string>): seq<string>
    decreases |names|
  {
    if names == [] then []
    else
      var init := NonBlank(names[..|names| - 1]);
      var last := names[|names| - 1];
      if last == "" then init else init + [last]
  }

  /** What a list of raw languages stands for: None for "nothing given". */
  function Normalized(raws: seq<string>): Result<Option<seq<string>>, OptionError> {
    var names := NonBlank(Canonicals(raws));
    var languages := Dedup(names);
    if exists n :: n in names && !IsLanguageCode(n) then Err(UnsupportedIngestionOption)
    else if languages == [] then Ok(None)
    else if |languages| > MAX_OCR_LANGUAGES then Err(UnsupportedIngestionOption)
    else Ok(Some(languages))
  }

  lemma {:induction false} NonBlankMember(names: seq<string>, n: string)
    ensures n in NonBlank(names) <==> n in names && n != ""
    decreases |names|
  {
    if names != [] {
      NonBlankMember(names[..|names| - 1], n);
      assert names == names[..|names| - 1] + [names[|names| - 1]];
    }
  }

  /** normalize_ocr_languages on an iterable, one pass with a list and a set of what was seen. */
  method NormalizeOcrLanguages(raws: seq<string>) returns (r: Result<Option<seq<string>>, OptionError>)
    ensures r == Normalized(raws)
  {
    var languages: seq<string> := [];
    var seen: set<string> := {};
    for i := 0 to |raws|
      invariant languages == Dedup(NonBlank(Canonicals(raws[..i])))
      invariant seen == Elements(languages)
      invariant forall n :: n in languages ==> IsLanguageCode(n)
    {
      var language := Canonical(raws[i]);
      assert Canonicals(raws[..i + 1]) == Canonicals(raws[..i]) + [language];
      ghost var before := NonBlank(Canonicals(raws[..i]));
      assert NonBlank(Canonicals(raws[..i + 1])) == if language == "" then before else before + [language];
      if language == "" || language in seen {
        assert language != "" ==> language in Dedup(before) && (before + [language])[..|before|] == before;
        continue;
      }
      if !IsLanguageCode(language) {
        assert Canonicals(raws)[i] == language;
        NonBlankMember(Canonicals(raws), language);
        return Err(UnsupportedIngestionOption);
      }
      assert (before + [language])[..|before|] == before;
      seen := seen + {language};
      languages := languages + [language];
    }
    assert raws[..|raws|] == raws;
    forall n | n in NonBlank(Canonicals(raws))
      ensures IsLanguageCode(n)
    {
      DedupMember(NonBlank(Canonicals(raws)), n);
    }
    if languages == [] {
      return Ok(None);
    }
    if |languages| > MAX_OCR_LANGUAGES {
      return Err(UnsupportedIngestionOption);
    }
    r := Ok(Some(languages));
  }

  lemma {:induction false} NonBlankFixed(names: seq<string>)
    requires forall n :: n in names ==> n != ""
    ensures NonBlank(names) == names
    decreases |names|
  {
    if names != [] {
      var init := names[..|names| - 1];
      assert forall n :: n in init ==> n in names;
      assert names[|names| - 1] in names;
      NonBlankFixed(init);
      assert names == init + [names[|names| - 1]];
    }
  }

  lemma CodeIsCanonical(s: string)
    requires IsLanguageCode(s)
    ensures Canonical(s) == s && s != "" && ',' !in s
  {
    assert Lower(s) == s;
  }

  /**
   * A normalised list is duplicate-free, at most eight valid codes long, holds
   * exactly the languages asked for in order of first mention, and stays as it
   * is when it is stored as a list, or joined with commas, and read again.
   */
  lemma NormalizedLaw(raws: seq<string>)
    requires Normalized(raws).Ok? && Normalized(raws).value.Some?
    ensures var languages := Normalized(raws).value.value;
            && 1 <= |languages| <= MAX_OCR_LANGUAGES && Distinct(languages)
            && (forall n :: n in languages ==> IsLanguageCode(n))
            && (forall n :: n in languages <==> n != "" && n in Canonicals(raws))
            && Normalized(languages) == Normalized(raws)
            && Normalized(Split(Join(languages, ","), ',')) == Normalized(raws)
  {
    var names := NonBlank(Canonicals(raws));
    var languages := Dedup(names);
    DedupDistinct(names);
    forall n: string
      ensures n in languages <==> n != "" && n in Canonicals(raws)
      ensures n in languages ==> IsLanguageCode(n) && Canonical(n) == n && n != "" && ',' !in n
    {
      DedupMember(names, n);
      NonBlankMember(Canonicals(raws), n);
      if n in languages {
        assert n in names;
        CodeIsCanonical(n);
      }
    }
    assert Canonicals(languages) == languages by {
      forall i | 0 <= i < |languages| ensures Canonicals(languages)[i] == languages[i] {
        assert languages[i] in languages;
      }
    }
    NonBlankFixed(languages);
    DedupFixed(languages);
    SplitJoin(languages, ',');
    assert [','] == ",";
  }

  /** Order of first mention: an earlier language was mentioned before any mention of a later one. */
  lemma NormalizedOrder(raws: seq<string>, i: nat, j: nat)
    requires Normalized(raws).Ok? && Normalized(raws).value.Some?
    requires i < j < |Normalized(raws).value.value|
    ensures Before(NonBlank(Canonicals(raws)), Normalized(raws).value.value[i], Normalized(raws).value.value[j])
  {
    DedupOrder(NonBlank(Canonicals(raws)), i, j);
  }

  /** A code is a letter and one to fifteen letters, digits, underscores or hyphens, all lower case. */
  lemma CodeExactly(s: string)
    ensures IsLanguageCode(s) <==>
              && 2 <= |s| <= 16
              && s[0] in "abcdefghijklmnopqrstuvwxyz"
              && forall i :: 1 <= i < |s| ==> s[i] in "abcdefghijklmnopqrstuvwxyz0123456789_-"
  {
    forall c: char
      ensures c in "abcdefghijklmnopqrstuvwxyz" <==> 'a' <= c <= 'z'
      ensures c in "abcdefghijklmnopqrstuvwxyz0123456789_-" <==>
                'a' <= c <= 'z' || '0' <= c <= '9' || c == '_' || c == '-'
    {
      LetterIn(c);
    }
  }

  lemma LetterIn(c: char)
    ensures c in "abcdefghijklmnopqrstuvwxyz" <==> 'a' <= c <= 'z'
    ensures c in "abcdefghijklmnopqrstuvwxyz0123456789_-" <==>
              'a' <= c <= 'z' || '0' <= c <= '9' || c == '_' || c == '-'
  {
    var letters, all := "abcdefghijklmnopqrstuvwxyz", "abcdefghijklmnopqrstuvwxyz0123456789_-";
    assert all == letters + "0123456789_-";
    if 'a' <= c <= 'z' {
      assert letters[c as int - 'a' as int] == c;
    } else if '0' <= c <= '9' {
      assert "0123456789_-"[c as int - '0' as int] == c;
    } else if c == '_' {
      assert "0123456789_-"[10] == c;
    } else if c == '-' {
      assert "0123456789_-"[11] == c;
    }
  }

  /**
   * When a list of languages is accepted: every entry, trimmed and in lower case, is blank or a
   * code, and there are at most eight different codes.  Without any code nothing was asked for.
   */
  lemma AcceptedExactly(raws: seq<string>)
    ensures var codes := set raw | raw in raws && Lower(Strip(raw)) != "" :: Lower(Strip(raw));
            && (Normalized(raws).Ok? <==> (forall code :: code in codes ==> IsLanguageCode(code)) && |codes| <= 8)
            && (Normalized(raws) == Ok(None) <==> codes == {})
            && (Normalized(raws).Ok? && codes != {} ==>
                  Normalized(raws).value.Some? && Elements(Normalized(raws).value.value) == codes)
  {
    var codes := set raw | raw in raws && Lower(Strip(raw)) != "" :: Lower(Strip(raw));
    var names := NonBlank(Canonicals(raws));
    forall code: string
      ensures code in codes <==> code in names
      ensures code in names <==> code in Dedup(names)
    {
      NonBlankMember(Canonicals(raws), code);
      DedupMember(names, code);
      if code in names {
        var i :| 0 <= i < |Canonicals(raws)| && Canonicals(raws)[i] == code;
        assert raws[i] in raws;
      }
      if code in codes {
        var raw :| raw in raws && Lower(Strip(raw)) == code;
        var i :| 0 <= i < |raws| && raws[i] == raw;
        assert Canonicals(raws)[i] == code;
      }
    }
    DedupDistinct(names);
    DistinctCardinality(Dedup(names));
    assert Elements(Dedup(names)) == codes;
    assert codes == {} <==> Dedup(names) == [];
  }

  /** When a sink mode is accepted: it is blank, which means none, or names one of the three. */
  lemma ModeAcceptedExactly(value: Option<string>, default: SinkMode)
    ensures var name := if value.None? then "" else Lower(Strip(value.value));
            && (name == "" ==>
                  NormalizeSinkMode(value) == Ok(None) && SinkModeFromMetadata(value, default) == Ok(default))
            && (name in {"local", "elastic", "local_and_elastic"} ==> NormalizeSinkMode(value) == Ok(Some(name)))
            && (name == "local" ==> SinkModeFromMetadata(value, default) == Ok(LocalSink))
            && (name == "elastic" ==> SinkModeFromMetadata(value, default) == Ok(ElasticSink))
            && (name == "local_and_elastic" ==> SinkModeFromMetadata(value, default) == Ok(LocalAndElasticSink))
            && (name !in {"", "local", "elastic", "local_and_elastic"} ==>
                  NormalizeSinkMode(value).Err? && SinkModeFromMetadata(value, default).Err?)
  {
  }
}
