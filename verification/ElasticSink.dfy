/** The Elasticsearch sink: bulk submission of a batch and the text it indexes. */
module ElasticSink {
  import opened Wrappers
  import opened DispatchQueue

  // --------------------------------------------------------------- submission

  /** What the bulk helper does with the actions: raise, or report successes and item errors. */
  datatype BulkOutcome =
    | BulkRaised(message: string)
    | BulkAnswered(successful: nat, itemErrors: bool, response: string)

  datatype SinkResult = SinkResult(acceptedDocuments: nat, acceptedRecords: nat, rawResponse: string)

  function RecordTotal(items: seq<Item>): nat {
    if items == [] then 0 else items[0].payload.recordCount + RecordTotal(items[1..])
  }

  const NOTHING_TO_INDEX := "successful: 0"

  function SubmitBatch(items: seq<Item>, bulk: BulkOutcome): Result<SinkResult, string> {
    if items == [] then Err("Cannot submit an empty RAG record batch.")
    else if RecordTotal(items) == 0 then Ok(SinkResult(|items|, 0, NOTHING_TO_INDEX))
    else match bulk
      case BulkRaised(message) => Err("Elastic bulk request failed: " + message)
      case BulkAnswered(successful, itemErrors, response) =>
        if itemErrors then Err("Elastic bulk request returned item errors: " + response)
        else Ok(SinkResult(|items|, successful, response))
  }

  // ------------------------------------------------------------- indexed text

  /** value.replace("${", "$ {") */
  function Escape(s: string): string {
    if |s| >= 2 && s[0] == '$' && s[1] == '{' then "$ {" + Escape(s[2..])
    else if s == [] then []
    else [s[0]] + Escape(s[1..])
  }

  ghost predicate HasTemplate(s: string) {
    exists i :: 0 <= i < |s| - 1 && s[i] == '$' && s[i + 1] == '{'
  }

  /** Escaped text opens no template. */
  lemma {:induction false} EscapeClean(s: string)
    ensures !HasTemplate(Escape(s))
  {
    if |s| >= 2 && s[0] == '$' && s[1] == '{' {
      EscapeClean(s[2..]);
      var rest := Escape(s[2..]);
      forall i | 0 <= i < |Escape(s)| - 1
        ensures !(Escape(s)[i] == '$' && Escape(s)[i + 1] == '{')
      {
        if 3 <= i {
          assert Escape(s)[i] == rest[i - 3] && Escape(s)[i + 1] == rest[i - 2];
        }
      }
    } else if s != [] {
      EscapeClean(s[1..]);
      var rest := Escape(s[1..]);
      forall i | 0 <= i < |Escape(s)| - 1
        ensures !(Escape(s)[i] == '$' && Escape(s)[i + 1] == '{')
      {
        if 0 < i {
          assert Escape(s)[i] == rest[i - 1] && Escape(s)[i + 1] == rest[i];
        }
      }
    }
  }

  /** Escaping changes exactly the texts that open a template, and makes them longer. */
  lemma {:induction false} EscapeFixedExactly(s: string)
    ensures |Escape(s)| >= |s|
    ensures HasTemplate(s) ==> |Escape(s)| > |s|
    ensures !HasTemplate(s) ==> Escape(s) == s
  {
    if |s| >= 2 && s[0] == '$' && s[1] == '{' {
      EscapeFixedExactly(s[2..]);
      assert HasTemplate(s);
    } else if s != [] {
      EscapeFixedExactly(s[1..]);
      if HasTemplate(s) {
        var i :| 0 <= i < |s| - 1 && s[i] == '$' && s[i + 1] == '{';
        assert s[1..][i - 1] == '$' && s[1..][i] == '{';
      } else {
        forall i | 0 <= i < |s[1..]| - 1
          ensures !(s[1..][i] == '$' && s[1..][i + 1] == '{')
        {
          assert s[1..][i] == s[i + 1] && s[1..][i + 1] == s[i + 1 + 1];
        }
        assert s == [s[0]] + s[1..];
      }
    }
  }

  lemma EscapeIdempotent(s: string)
    ensures Escape(Escape(s)) == Escape(s)
  {
    EscapeClean(s);
    EscapeFixedExactly(Escape(s));
  }

  function NoSpaces(s: string): string {
    if s == [] then [] else (if s[0] == ' ' then [] else [s[0]]) + NoSpaces(s[1..])
  }

  /** Escaping only inserts spaces. */
  lemma {:induction false} EscapeOnlyInsertsSpaces(s: string)
    ensures NoSpaces(Escape(s)) == NoSpaces(s)
  {
    if |s| >= 2 && s[0] == '$' && s[1] == '{' {
      EscapeOnlyInsertsSpaces(s[2..]);
      var e := Escape(s);
      assert e[1..][1..][1..] == Escape(s[2..]);
      assert s[1..][1..] == s[2..];
      assert NoSpaces(e) == ['$'] + NoSpaces(e[1..]);
      assert NoSpaces(e[1..]) == NoSpaces(e[1..][1..]);
      assert NoSpaces(e[1..][1..]) == ['{'] + NoSpaces(Escape(s[2..]));
      assert NoSpaces(s) == ['$'] + NoSpaces(s[1..]);
      assert NoSpaces(s[1..]) == ['{'] + NoSpaces(s[2..]);
    } else if s != [] {
      EscapeOnlyInsertsSpaces(s[1..]);
      assert Escape(s)[1..] == Escape(s[1..]);
    }
  }

  /** content_length of a v3 document: the record's own figure unless the text was escaped. */
  function IndexedLength(content: string, declared: Option<nat>): nat {
    if declared.Some? && Escape(content) == content then declared.value else |Escape(content)|
  }

  /** The figure is the indexed text's length unless an untouched text came with a wrong one. */
  lemma IndexedLengthExactly(content: string, declared: Option<nat>)
    ensures IndexedLength(content, declared) == |Escape(content)|
            <==> declared.None? || HasTemplate(content) || declared.value == |content|
    ensures IndexedLength(content, Some(|content|)) == |Escape(content)|
  {
    EscapeFixedExactly(content);
  }
}
