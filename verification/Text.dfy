/** Python's string operations, as far as the modelled code uses them. */
module Text {
  import opened Wrappers

  /** The characters str.strip() and int() treat as white space. */
  predicate IsSpace(c: char) {
    var n := c as int;
    || 0x09 <= n <= 0x0D || 0x1C <= n <= 0x20 || n == 0x85 || n == 0xA0 || n == 0x1680
    || 0x2000 <= n <= 0x200A || n == 0x2028 || n == 0x2029 || n == 0x202F || n == 0x205F || n == 0x3000
  }

  function StripLeft(s: string): string {
    if s != [] && IsSpace(s[0]) then StripLeft(s[1..]) else s
  }

  function StripRight(s: string): string
    decreases |s|
  {
    if s != [] && IsSpace(s[|s| - 1]) then StripRight(s[..|s| - 1]) else s
  }

  function Strip(s: string): string { StripRight(StripLeft(s)) }

  predicate Trimmed(s: string) {
    s == [] || (!IsSpace(s[0]) && !IsSpace(s[|s| - 1]))
  }

  lemma {:induction false} StripLeftLaw(s: string)
    ensures StripLeft(s) == [] || !IsSpace(StripLeft(s)[0])
    ensures forall c :: c in StripLeft(s) ==> c in s
  {
    if s != [] && IsSpace(s[0]) {
      StripLeftLaw(s[1..]);
    }
  }

  lemma {:induction false} StripRightLaw(s: string)
    ensures StripRight(s) <= s
    ensures StripRight(s) == [] || !IsSpace(StripRight(s)[|StripRight(s)| - 1])
    decreases |s|
  {
    if s != [] && IsSpace(s[|s| - 1]) {
      StripRightLaw(s[..|s| - 1]);
    }
  }

  lemma StripTrimmed(s: string)
    ensures Trimmed(Strip(s))
    ensures forall c :: c in Strip(s) ==> c in s
  {
    StripLeftLaw(s);
    StripRightLaw(StripLeft(s));
  }

  /** str.lower() as far as it yields ASCII: the letters A to Z, and the Kelvin sign. */
  function LowerChar(c: char): char {
    if 'A' <= c <= 'Z' then (c as int - 'A' as int + 'a' as int) as char
    else if c as int == 0x212A then 'k'
    else c
  }

  function Lower(s: string): (r: string)
    ensures |r| == |s| && forall i :: 0 <= i < |s| ==> r[i] == LowerChar(s[i])
  {
    seq(|s|, i requires 0 <= i < |s| => LowerChar(s[i]))
  }

  function Join(parts: seq<string>, sep: string): string {
    if parts == [] then ""
    else if |parts| == 1 then parts[0]
    else parts[0] + sep + Join(parts[1..], sep)
  }

  /** str.split(sep) for a one-character separator; it never returns an empty list. */
  function Split(s: string, sep: char): (parts: seq<string>)
    ensures parts != []
  {
    if s == [] then [""]
    else
      var rest := Split(s[1..], sep);
      if s[0] == sep then [""] + rest else [[s[0]] + rest[0]] + rest[1..]
  }

  lemma {:induction false} SplitClean(s: string, sep: char)
    requires sep !in s
    ensures Split(s, sep) == [s]
  {
    if s != [] {
      SplitClean(s[1..], sep);
      assert [s[0]] + s[1..] == s;
    }
  }

  lemma {:induction false} SplitHead(s: string, sep: char, rest: string)
    requires sep !in s
    ensures Split(s + [sep] + rest, sep) == [s] + Split(rest, sep)
  {
    if s == [] {
      assert ([] + [sep] + rest)[1..] == rest;
    } else {
      SplitHead(s[1..], sep, rest);
      assert (s + [sep] + rest)[1..] == s[1..] + [sep] + rest;
      assert [s[0]] + s[1..] == s;
      assert ([s[1..]] + Split(rest, sep))[1..] == Split(rest, sep);
    }
  }

  /** Splitting undoes joining when no part contains the separator. */
  lemma {:induction false} SplitJoin(parts: seq<string>, sep: char)
    requires parts != [] && forall p :: p in parts ==> sep !in p
    ensures Split(Join(parts, [sep]), sep) == parts
  {
    if |parts| == 1 {
      SplitClean(parts[0], sep);
    } else {
      SplitJoin(parts[1..], sep);
      SplitHead(parts[0], sep, Join(parts[1..], [sep]));
      assert Join(parts, [sep]) == parts[0] + [sep] + Join(parts[1..], [sep]);
      hide *;
      assert [parts[0]] + parts[1..] == parts;
    }
  }

  /** Splitting what follows a joining: the last part runs on into it. */
  lemma {:induction false} SplitJoined(parts: seq<string>, sep: char, rest: string)
    requires parts != [] && forall p :: p in parts ==> sep !in p
    ensures Split(Join(parts, [sep]) + rest, sep)
         == parts[..|parts| - 1] + Split(parts[|parts| - 1] + rest, sep)
  {
    if |parts| > 1 {
      var tail, more := parts[1..], Join(parts[1..], [sep]);
      SplitJoined(tail, sep, rest);
      SplitHead(parts[0], sep, more + rest);
      JoinedHead(parts, [sep], rest);
      assert tail[|tail| - 1] == parts[|parts| - 1];
      hide *;
      assert parts[..|parts| - 1] == [parts[0]] + tail[..|tail| - 1];
    }
  }

  lemma JoinedHead(parts: seq<string>, sep: string, rest: string)
    requires |parts| > 1
    ensures Join(parts, sep) + rest == parts[0] + sep + (Join(parts[1..], sep) + rest)
  {
    assert Join(parts, sep) == parts[0] + sep + Join(parts[1..], sep);
    hide *;
    assert parts[0] + sep + Join(parts[1..], sep) + rest == parts[0] + sep + (Join(parts[1..], sep) + rest);
  }

  /** A prefix without separators goes in front of the first part. */
  lemma {:induction false} SplitPrefix(s: string, sep: char, rest: string)
    requires sep !in s
    ensures Split(s + rest, sep) == [s + Split(rest, sep)[0]] + Split(rest, sep)[1..]
  {
    if s == [] {
      assert s + rest == rest && s + Split(rest, sep)[0] == Split(rest, sep)[0];
    } else {
      SplitPrefix(s[1..], sep, rest);
      assert (s + rest)[1..] == s[1..] + rest;
      assert [s[0]] + (s[1..] + Split(rest, sep)[0]) == s + Split(rest, sep)[0];
    }
  }

  /** How often a character occurs. */
  function Count(s: string, c: char): nat {
    if s == [] then 0 else (if s[0] == c then 1 else 0) + Count(s[1..], c)
  }

  lemma {:induction false} CountAppend(a: string, b: string, c: char)
    ensures Count(a + b, c) == Count(a, c) + Count(b, c)
  {
    if a == [] {
      assert a + b == b;
    } else {
      CountAppend(a[1..], b, c);
      assert (a + b)[1..] == a[1..] + b;
    }
  }

  lemma {:induction false} CountPresent(s: string, c: char)
    requires c in s
    ensures Count(s, c) > 0
  {
    if s[0] != c {
      CountPresent(s[1..], c);
    }
  }

  /** A text has one part more than separators. */
  lemma {:induction false} SplitCount(s: string, sep: char)
    ensures |Split(s, sep)| == Count(s, sep) + 1
  {
    if s != [] {
      SplitCount(s[1..], sep);
    }
  }

  /** A separator inside a part comes on top of those between the parts. */
  lemma {:induction false} CountJoin(parts: seq<string>, sep: char, k: nat)
    requires k <= |parts| && parts != []
    requires k < |parts| ==> sep in parts[k]
    ensures Count(Join(parts, [sep]), sep) >= |parts| - if k < |parts| then 0 else 1
  {
    if k == 0 {
      CountPresent(parts[0], sep);
    }
    if |parts| > 1 {
      var rest := Join(parts[1..], [sep]);
      CountJoin(parts[1..], sep, if k == 0 then |parts[1..]| else k - 1);
      CountAppend(parts[0] + [sep], rest, sep);
      CountAppend(parts[0], [sep], sep);
    }
  }

  // -------------------------------------------------------- decimal numbers

  predicate IsDigit(c: char) { '0' <= c <= '9' }

  function DigitChar(d: nat): (c: char)
    requires d < 10
    ensures IsDigit(c) && c as int - '0' as int == d
  {
    ('0' as int + d) as char
  }

  /** str(n) for a natural number. */
  function Print(n: nat): (s: string)
    ensures s != [] && forall i :: 0 <= i < |s| ==> IsDigit(s[i])
  {
    if n < 10 then [DigitChar(n)] else Print(n / 10) + [DigitChar(n % 10)]
  }

  /** The digit part of int(): single underscores may stand between digits. */
  function ParseDigits(s: string, acc: nat, afterDigit: bool): Option<nat> {
    if s == [] then (if afterDigit then Some(acc) else None)
    else if IsDigit(s[0]) then ParseDigits(s[1..], acc * 10 + (s[0] as int - '0' as int), true)
    else if s[0] == '_' && afterDigit then ParseDigits(s[1..], acc, false)
    else None
  }

  /** int(s); None is the ValueError. */
  function ParseInt(s: string): Option<int> {
    var t := Strip(s);
    if t == [] then None
    else if t[0] == '-' then
      var n := ParseDigits(t[1..], 0, false);
      var magnitude: int := n.GetOr(0);
      if n.Some? then Some(-magnitude) else None
    else
      var n := ParseDigits(if t[0] == '+' then t[1..] else t, 0, false);
      if n.Some? then Some(n.value) else None
  }

  lemma {:induction false} ParseDigitsAppend(s: string, acc: nat, afterDigit: bool, d: nat)
    requires d < 10 && ParseDigits(s, acc, afterDigit).Some?
    ensures ParseDigits(s + [DigitChar(d)], acc, afterDigit) == Some(ParseDigits(s, acc, afterDigit).value * 10 + d)
  {
    var t := s + [DigitChar(d)];
    if s == [] {
      assert t[1..] == [];
    } else {
      assert t[1..] == s[1..] + [DigitChar(d)];
      if IsDigit(s[0]) {
        ParseDigitsAppend(s[1..], acc * 10 + (s[0] as int - '0' as int), true, d);
      } else {
        ParseDigitsAppend(s[1..], acc, false, d);
      }
    }
  }

  lemma {:induction false} ParsePrintDigits(n: nat)
    ensures ParseDigits(Print(n), 0, false) == Some(n)
  {
    if n >= 10 {
      ParsePrintDigits(n / 10);
      ParseDigitsAppend(Print(n / 10), 0, false, n % 10);
    }
  }

  /** int(str(n)) == n */
  lemma ParsePrint(n: nat)
    ensures ParseInt(Print(n)) == Some(n)
  {
    var s := Print(n);
    assert IsDigit(s[0]) && IsDigit(s[|s| - 1]);
    ParsePrintDigits(n);
  }

  /** str.strip(): what it takes away on either side is white space, and it takes all of it. */
  lemma StripLaw(s: string) returns (left: string, right: string)
    ensures s == left + Strip(s) + right
    ensures Strip(s) != "" ==> !IsSpace(Strip(s)[0]) && !IsSpace(Strip(s)[|Strip(s)| - 1])
    ensures forall c :: c in left || c in right ==> IsSpace(c)
  {
    left := StripLeftCut(s);
    right := StripRightCut(StripLeft(s));
    StripTrimmed(s);
    assert left + (Strip(s) + right) == left + Strip(s) + right;
  }

  lemma {:induction false} StripLeftCut(s: string) returns (left: string)
    ensures s == left + StripLeft(s) && forall c :: c in left ==> IsSpace(c)
  {
    left := "";
    if s != [] && IsSpace(s[0]) {
      var rest := StripLeftCut(s[1..]);
      left := [s[0]] + rest;
    }
  }

  lemma {:induction false} StripRightCut(s: string) returns (right: string)
    ensures s == StripRight(s) + right && forall c :: c in right ==> IsSpace(c)
    decreases |s|
  {
    right := "";
    if s != [] && IsSpace(s[|s| - 1]) {
      var rest := StripRightCut(s[..|s| - 1]);
      right := rest + [s[|s| - 1]];
      assert s == s[..|s| - 1] + [s[|s| - 1]];
    }
  }

  /** The white space: tab to carriage return, the four separators, blank, and the Unicode spaces. */
  lemma SpaceExactly(c: char)
    ensures IsSpace(c) <==>
              c as int in {0x09, 0x0A, 0x0B, 0x0C, 0x0D, 0x1C, 0x1D, 0x1E, 0x1F, 0x20, 0x85, 0xA0, 0x1680,
                           0x2000, 0x2001, 0x2002, 0x2003, 0x2004, 0x2005, 0x2006, 0x2007, 0x2008, 0x2009, 0x200A,
                           0x2028, 0x2029, 0x202F, 0x205F, 0x3000}
  {
  }

  /** Lower case of the letters, and of nothing else but the Kelvin sign. */
  lemma LowerLaw(s: string, i: nat)
    requires i < |s|
    ensures var (c, r, upper, lower) :=
              (s[i], Lower(s)[i], "ABCDEFGHIJKLMNOPQRSTUVWXYZ", "abcdefghijklmnopqrstuvwxyz");
            && (forall k :: 0 <= k < 26 && c == upper[k] ==> r == lower[k])
            && (c as int == 0x212A ==> r == 'k')
            && (c !in upper && c as int != 0x212A ==> r == c)
  {
    var upper, lower := "ABCDEFGHIJKLMNOPQRSTUVWXYZ", "abcdefghijklmnopqrstuvwxyz";
    assert forall k :: 0 <= k < 26 ==> upper[k] as int == 'A' as int + k && lower[k] as int == 'a' as int + k;
    if 'A' <= s[i] <= 'Z' {
      assert upper[s[i] as int - 'A' as int] == s[i];
    }
  }

  lemma SignedTrimmed(sign: char, digits: string)
    requires (sign == '-' || sign == '+') && digits != [] && IsDigit(digits[|digits| - 1])
    ensures Strip([sign] + digits) == [sign] + digits
  {
    assert ([sign] + digits)[|digits|] == digits[|digits| - 1];
  }

  /** int() of a printed number with a sign. */
  lemma ParseSigned(n: nat)
    ensures ParseInt(['-'] + Print(n)).Some? && ParseInt(['-'] + Print(n)).value + n == 0
    ensures ParseInt(['+'] + Print(n)) == Some(n)
    ensures ParseInt("") == None
  {
    var s := Print(n);
    ParsePrintDigits(n);
    assert IsDigit(s[|s| - 1]);
    SignedTrimmed('-', s);
    SignedTrimmed('+', s);
    assert Strip("") == "";
    hide Print, Strip, ParseDigits;
    assert (['-'] + s)[1..] == s && (['+'] + s)[1..] == s;
  }

  /** Digits, and between two of them perhaps an underscore. */
  predicate Grouped(s: string) {
    && s != [] && IsDigit(s[0]) && IsDigit(s[|s| - 1])
    && (forall i :: 0 <= i < |s| ==> IsDigit(s[i]) || s[i] == '_')
    && (forall i :: 0 < i < |s| ==> IsDigit(s[i]) || IsDigit(s[i - 1]))
  }

  lemma {:induction false} DigitsExactly(s: string, acc: nat, afterDigit: bool)
    ensures s == [] ==> (ParseDigits(s, acc, afterDigit).Some? <==> afterDigit)
    ensures s != [] ==> (ParseDigits(s, acc, afterDigit).Some? <==>
                           Grouped(s) || (afterDigit && s[0] == '_' && Grouped(s[1..])))
  {
    if s != [] {
      var rest := s[1..];
      if IsDigit(s[0]) {
        DigitsExactly(rest, acc * 10 + (s[0] as int - '0' as int), true);
        if rest != [] {
          GroupedTail(s);
        }
      } else {
        DigitsExactly(rest, acc, false);
      }
    }
  }

  lemma GroupedTail(s: string)
    requires |s| > 1 && IsDigit(s[0])
    ensures Grouped(s) <==> Grouped(s[1..]) || (s[1] == '_' && Grouped(s[2..]))
  {
    var tail := if IsDigit(s[1]) then 1 else 2;
    if tail < |s| {
      assert forall i :: tail <= i < |s| ==> s[i] == s[tail..][i - tail];
      assert forall i :: 0 <= i < |s| - tail ==> s[tail..][i] == s[i + tail];
    }
  }

  /** Which texts int() reads: a sign perhaps, and grouped digits, between white space. */
  lemma IntExactly(s: string)
    ensures var t := Strip(s);
            ParseInt(s).Some? <==> Grouped(t) || (t != "" && t[0] in {'-', '+'} && Grouped(t[1..]))
  {
    var t := Strip(s);
    if t != "" {
      DigitsExactly(t, 0, false);
      DigitsExactly(t[1..], 0, false);
    }
  }

  /** The number read: a digit more is ten times as much and the digit, an underscore before it or not. */
  lemma {:induction false} GroupedValue(s: string, acc: nat, afterDigit: bool, d: nat)
    requires d < 10 && ParseDigits(s, acc, afterDigit).Some?
    ensures ParseDigits(s + [DigitChar(d)], acc, afterDigit) == Some(ParseDigits(s, acc, afterDigit).value * 10 + d)
    ensures ParseDigits(s + ['_', DigitChar(d)], acc, afterDigit)
         == Some(ParseDigits(s, acc, afterDigit).value * 10 + d)
  {
    var u := s + ['_', DigitChar(d)];
    ParseDigitsAppend(s, acc, afterDigit, d);
    if s == [] {
      assert u[1..] == [DigitChar(d)] && u[1..][1..] == [];
    } else {
      assert u[1..] == s[1..] + ['_', DigitChar(d)];
      if IsDigit(s[0]) {
        GroupedValue(s[1..], acc * 10 + (s[0] as int - '0' as int), true, d);
      } else {
        GroupedValue(s[1..], acc, false, d);
      }
    }
  }
}
