/** The few facts about sequences that several components share. */
module Sequences {
  ghost predicate Distinct<T>(s: seq<T>) {
    forall i, j :: 0 <= i < j < |s| ==> s[i] != s[j]
  }

  function Min(a: int, b: int): int { if a <= b then a else b }

  function Max(a: int, b: int): int { if a >= b then a else b }

  function Elements<T>(s: seq<T>): set<T> { set x | x in s }

  lemma Member<T>(s: set<T>) returns (x: T)
    requires s != {}
    ensures x in s
  {
    x :| x in s;
  }

  /** A duplicate-free sequence has as many elements as its set. */
  lemma {:induction false} DistinctCardinality<T>(s: seq<T>)
    requires Distinct(s)
    ensures |Elements(s)| == |s|
  {
    if s == [] {
      assert Elements(s) == {};
    } else {
      var rest := s[1..];
      DistinctCardinality(rest);
      assert s == [s[0]] + rest;
      assert Elements(s) == {s[0]} + Elements(rest);
      assert s[0] !in rest;
    }
  }

  lemma DistinctAppend<T>(s: seq<T>, t: seq<T>)
    requires Distinct(s) && Distinct(t)
    requires forall x :: x in s ==> x !in t
    ensures Distinct(s + t)
  {
    forall i, j | 0 <= i < j < |s + t| ensures (s + t)[i] != (s + t)[j] {
      if i < |s| <= j {
        assert (s + t)[i] in s && (s + t)[j] in t;
      }
    }
  }

  lemma SubsetSize<T>(a: set<T>, b: set<T>)
    requires a <= b
    ensures |a| <= |b|
  {
    assert |b - a| == |b| - |a|;
  }

  // ------------------------------------------------- keeping first occurrences

  /** The elements of `s` in the order of their first occurrence (dict.fromkeys, a `seen` loop). */
  function Dedup<T(==)>(s: seq<T>): seq<T>
    decreases |s|
  {
    if s == [] then []
    else
      var init := Dedup(s[..|s| - 1]);
      if s[|s| - 1] in init then init else init + [s[|s| - 1]]
  }

  lemma {:induction false} DedupMember<T>(s: seq<T>, x: T)
    ensures x in Dedup(s) <==> x in s
    decreases |s|
  {
    if s != [] {
      DedupMember(s[..|s| - 1], x);
      assert s == s[..|s| - 1] + [s[|s| - 1]];
    }
  }

  lemma {:induction false} DedupDistinct<T>(s: seq<T>)
    ensures Distinct(Dedup(s))
    decreases |s|
  {
    if s != [] {
      DedupDistinct(s[..|s| - 1]);
    }
  }

  /** x turns up before y when some occurrence of x precedes every occurrence of y. */
  ghost predicate Before<T>(s: seq<T>, x: T, y: T) {
    exists i :: 0 <= i < |s| && s[i] == x && forall j :: 0 <= j <= i ==> s[j] != y
  }

  lemma {:induction false} DedupOrder<T>(s: seq<T>, i: nat, j: nat)
    requires i < j < |Dedup(s)|
    ensures Before(s, Dedup(s)[i], Dedup(s)[j])
    decreases |s|
  {
    var init := s[..|s| - 1];
    var x, y := Dedup(s)[i], Dedup(s)[j];
    DedupMember(init, x);
    DedupMember(init, y);
    if j < |Dedup(init)| {
      DedupOrder(init, i, j);
      var k :| 0 <= k < |init| && init[k] == x && forall l :: 0 <= l <= k ==> init[l] != y;
      assert s[k] == x && forall l :: 0 <= l <= k ==> s[l] != y by {
        assert forall l :: 0 <= l <= k ==> s[l] == init[l];
      }
    } else {
      assert Dedup(s) == Dedup(init) + [y];
      assert x == Dedup(init)[i] && x in Dedup(init) && y !in Dedup(init);
      assert x in init && y !in init;
      var k :| 0 <= k < |init| && init[k] == x;
      assert s[k] == x && forall l :: 0 <= l <= k ==> s[l] != y by {
        assert forall l :: 0 <= l <= k ==> s[l] == init[l] && init[l] in init;
      }
    }
  }

  lemma {:induction false} DedupFixed<T>(s: seq<T>)
    requires Distinct(s)
    ensures Dedup(s) == s
    decreases |s|
  {
    if s != [] {
      DedupFixed(s[..|s| - 1]);
      assert s == s[..|s| - 1] + [s[|s| - 1]];
    }
  }
}
