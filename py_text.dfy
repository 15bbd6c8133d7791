/**
 * The handful of Python `str` operations the modelled code relies on:
 * whitespace stripping, character stripping, ASCII lower-casing, substring
 * tests, single-character split/join, `int()` on text, `str()` of an int and
 * Python's code-point ordering of strings.
 */
module PyText {
  import opened Wrappers

  predicate IsAsciiDigit(c: char) { '0' <= c <= '9' }

  predicate IsAsciiLetter(c: char) { 'a' <= c <= 'z' || 'A' <= c <= 'Z' }

  /** The characters for which Python's `str.isspace()` holds. */
  predicate IsSpace(c: char) {
    c == ' ' || ('\t' <= c <= '\r') || ('\U{1C}' <= c <= '\U{1F}') || c == '\U{85}' || c == '\U{A0}'
    || c == '\U{1680}' || ('\U{2000}' <= c <= '\U{200A}') || c == '\U{2028}' || c == '\U{2029}'
    || c == '\U{202F}' || c == '\U{205F}' || c == '\U{3000}'
  }

  predicate AllDigits(s: string) { forall i :: 0 <= i < |s| ==> IsAsciiDigit(s[i]) }

  // ---------------------------------------------------------------------------
  // strip / lstrip / rstrip
  // ---------------------------------------------------------------------------

  /** `s.lstrip()`: drops leading whitespace and nothing else. */
  function LStrip(s: string): (r: string)
    ensures |r| <= |s| && r == s[|s| - |r|..]
    ensures forall i :: 0 <= i < |s| - |r| ==> IsSpace(s[i])
    ensures r == [] || !IsSpace(r[0])
  {
    if |s| > 0 && IsSpace(s[0]) then LStrip(s[1..]) else s
  }

  /** `s.rstrip()`: drops trailing whitespace and nothing else. */
  function RStrip(s: string): (r: string)
    ensures |r| <= |s| && r == s[..|r|]
    ensures forall i :: |r| <= i < |s| ==> IsSpace(s[i])
    ensures r == [] || !IsSpace(r[|r| - 1])
  {
    if |s| > 0 && IsSpace(s[|s| - 1]) then RStrip(s[..|s| - 1]) else s
  }

  /** Where `s.strip()` starts within `s`. */
  function StripStart(s: string): (k: nat)
    ensures k <= |s|
  {
    |s| - |LStrip(s)|
  }

  /** `s.strip()`: a contiguous slice of `s` with no whitespace at either end. */
  function Strip(s: string): (r: string)
    ensures StripStart(s) + |r| <= |s| && r == s[StripStart(s)..StripStart(s) + |r|]
    ensures forall i :: 0 <= i < StripStart(s) ==> IsSpace(s[i])
    ensures forall i :: StripStart(s) + |r| <= i < |s| ==> IsSpace(s[i])
    ensures r == [] || (!IsSpace(r[0]) && !IsSpace(r[|r| - 1]))
  {
    var l := LStrip(s);
    var r := RStrip(l);
    PrefixOfSuffix(s, |s| - |l|, |r|);
    r
  }

  /** A prefix of the suffix of `s` from `k` is the slice of `s` from `k`. */
  lemma PrefixOfSuffix<T>(s: seq<T>, k: nat, n: nat)
    requires k + n <= |s|
    ensures s[k..][..n] == s[k..k + n]
    ensures forall i :: k <= i < |s| ==> s[i] == s[k..][i - k]
  {
  }

  /** Each character of a text is whitespace strip() removes or a character of the strip. */
  lemma StripPosition(s: string, i: int)
    requires 0 <= i < |s|
    ensures IsSpace(s[i]) || (StripStart(s) <= i < StripStart(s) + |Strip(s)| && s[i] == Strip(s)[i - StripStart(s)])
  {
  }

  /** Text that strip() leaves alone is its own strip: stripping twice is stripping once. */
  lemma {:induction false} StripFixedPoint(s: string)
    requires s == [] || (!IsSpace(s[0]) && !IsSpace(s[|s| - 1]))
    ensures Strip(s) == s
  {
    assert LStrip(s) == s;
    assert RStrip(s) == s;
  }

  lemma StripIdempotent(s: string)
    ensures Strip(Strip(s)) == Strip(s)
  {
    StripFixedPoint(Strip(s));
  }

  predicate AllSpace(s: string) { forall i :: 0 <= i < |s| ==> IsSpace(s[i]) }

  lemma {:induction false} LStripSpacePrefix(p: string, x: string)
    requires AllSpace(p)
    ensures LStrip(p + x) == LStrip(x)
  {
    if p == [] {
      assert p + x == x;
    } else {
      assert (p + x)[0] == p[0] && IsSpace(p[0]);
      assert (p + x)[1..] == p[1..] + x;
      LStripSpacePrefix(p[1..], x);
    }
  }

  lemma {:induction false} RStripSpaceSuffix(x: string, q: string)
    requires AllSpace(q)
    ensures RStrip(x + q) == RStrip(x)
  {
    if q == [] {
      assert x + q == x;
    } else {
      assert (x + q)[|x + q| - 1] == q[|q| - 1] && IsSpace(q[|q| - 1]);
      assert (x + q)[..|x + q| - 1] == x + q[..|q| - 1];
      RStripSpaceSuffix(x, q[..|q| - 1]);
    }
  }

  /** Whitespace around a text that has none at its ends is exactly what strip() removes. */
  lemma StripPadded(p: string, m: string, q: string)
    requires AllSpace(p) && AllSpace(q)
    requires m == [] || (!IsSpace(m[0]) && !IsSpace(m[|m| - 1]))
    ensures Strip(p + m + q) == m
  {
    assert p + m + q == p + (m + q);
    LStripSpacePrefix(p, m + q);
    if m == [] {
      assert m + q == q + [];
      LStripSpacePrefix(q, []);
    } else {
      RStripSpaceSuffix(m, q);
    }
  }

  /** Every text is its strip() with whitespace around it. */
  lemma StripDecompose(s: string) returns (p: string, q: string)
    ensures AllSpace(p) && AllSpace(q) && s == p + Strip(s) + q
  {
    var k := StripStart(s);
    var m := Strip(s);
    p, q := s[..k], s[k + |m|..];
    forall i | 0 <= i < |p|
      ensures IsSpace(p[i])
    {
      assert p[i] == s[i];
    }
    forall i | 0 <= i < |q|
      ensures IsSpace(q[i])
    {
      assert q[i] == s[k + |m| + i];
    }
    SplitThree(s, k, k + |m|);
  }

  lemma SplitThree<T>(s: seq<T>, i: nat, j: nat)
    requires i <= j <= |s|
    ensures s == s[..i] + s[i..j] + s[j..]
  {
  }

  lemma AllSpaceConcat(a: string, b: string)
    requires AllSpace(a) && AllSpace(b)
    ensures AllSpace(a + b)
  {
  }

  /** strip() ignores whitespace added at either end. */
  lemma StripIgnoresPadding(a: string, s: string, b: string)
    requires AllSpace(a) && AllSpace(b)
    ensures Strip(a + s + b) == Strip(s)
  {
    var m := Strip(s);
    var p, q := StripDecompose(s);
    AllSpaceConcat(a, p);
    AllSpaceConcat(q, b);
    Regroup(a, p, m, q, b);
    StripPadded(a + p, m, q + b);
  }

  lemma Regroup<T>(a: seq<T>, p: seq<T>, m: seq<T>, q: seq<T>, b: seq<T>)
    ensures a + (p + m + q) + b == (a + p) + m + (q + b)
  {
  }

  /** `s.lstrip(c)` for a one-character argument. */
  function LStripChar(s: string, c: char): (r: string)
    ensures |r| <= |s| && r == s[|s| - |r|..]
    ensures forall i :: 0 <= i < |s| - |r| ==> s[i] == c
    ensures r == [] || r[0] != c
  {
    if |s| > 0 && s[0] == c then LStripChar(s[1..], c) else s
  }

  /** `s.rstrip(c)` for a one-character argument. */
  function RStripChar(s: string, c: char): (r: string)
    ensures |r| <= |s| && r == s[..|r|]
    ensures forall i :: |r| <= i < |s| ==> s[i] == c
    ensures r == [] || r[|r| - 1] != c
  {
    if |s| > 0 && s[|s| - 1] == c then RStripChar(s[..|s| - 1], c) else s
  }

  // ---------------------------------------------------------------------------
  // lower, replace
  // ---------------------------------------------------------------------------

  function LowerChar(c: char): char {
    if 'A' <= c <= 'Z' then (c as int + 32) as char else c
  }

  /** `s.lower()`, restricted to the ASCII letters. */
  function Lower(s: string): (r: string)
    ensures |r| == |s|
  {
    seq(|s|, i requires 0 <= i < |s| => LowerChar(s[i]))
  }

  /** `s.replace(a, b)` for one-character `a` and `b`. */
  function ReplaceChar(s: string, a: char, b: char): (r: string)
    ensures |r| == |s|
  {
    seq(|s|, i requires 0 <= i < |s| => if s[i] == a then b else s[i])
  }

  /** `s.replace("\r\n", "\n")`: left-to-right, non-overlapping. */
  function ReplaceCrLf(s: string): (r: string)
    ensures |r| <= |s|
    ensures (forall i :: 0 <= i < |s| ==> s[i] != '\r') ==> r == s
  {
    if |s| >= 2 && s[0] == '\r' && s[1] == '\n' then "\n" + ReplaceCrLf(s[2..])
    else if s == [] then []
    else [s[0]] + ReplaceCrLf(s[1..])
  }

  // ---------------------------------------------------------------------------
  // Substring tests
  // ---------------------------------------------------------------------------

  predicate StartsWith(s: string, p: string) { |p| <= |s| && s[..|p|] == p }

  predicate EndsWith(s: string, p: string) { |p| <= |s| && s[|s| - |p|..] == p }

  /** `p` occurs in `s` at position `i`. */
  predicate OccursAt(s: string, p: string, i: int) {
    0 <= i <= |s| - |p| && s[i..i + |p|] == p
  }

  /** `p in s` for strings. */
  predicate Contains(s: string, p: string) {
    exists i :: 0 <= i <= |s| - |p| && OccursAt(s, p, i)
  }

  lemma StartsWithContains(s: string, p: string)
    requires StartsWith(s, p)
    ensures Contains(s, p)
  {
    assert OccursAt(s, p, 0);
  }

  /** A substring of a slice is a substring of the whole. */
  lemma ContainsInSlice(s: string, lo: int, hi: int, p: string)
    requires 0 <= lo <= hi <= |s|
    requires Contains(s[lo..hi], p)
    ensures Contains(s, p)
  {
    var i :| 0 <= i <= (hi - lo) - |p| && OccursAt(s[lo..hi], p, i);
    var t := s[lo..hi];
    assert forall k :: 0 <= k < |t| ==> t[k] == s[lo + k];
    assert t[i..i + |p|] == s[lo + i..lo + i + |p|];
    assert OccursAt(s, p, lo + i);
  }

  /** A character that never occurs in `s` rules out every `p` holding it. */
  lemma NoCharNoContains(s: string, p: string, c: char)
    requires c in p
    requires forall i :: 0 <= i < |s| ==> s[i] != c
    ensures !Contains(s, p)
  {
    var j :| 0 <= j < |p| && p[j] == c;
    forall i | 0 <= i <= |s| - |p|
      ensures !OccursAt(s, p, i)
    {
      assert s[i..i + |p|][j] == s[i + j];
    }
  }

  // ---------------------------------------------------------------------------
  // split / join on one separator character
  // ---------------------------------------------------------------------------

  /** The position of the first `c` in `s`, if any. */
  function IndexOf(s: string, c: char): (r: Option<nat>)
    ensures r.None? <==> c !in s
    ensures r.Some? ==> r.value < |s| && s[r.value] == c && c !in s[..r.value]
  {
    if s == [] then None
    else if s[0] == c then Some(0)
    else match IndexOf(s[1..], c)
      case None => None
      case Some(k) => assert s[1..][..k] == s[1..k + 1]; Some(k + 1)
  }

  /** `s.split(c)`: at least one part, and no part holds the separator. */
  function Split(s: string, c: char): (r: seq<string>)
    ensures |r| >= 1
    ensures forall k :: 0 <= k < |r| ==> c !in r[k]
    decreases |s|
  {
    match IndexOf(s, c)
      case None => [s]
      case Some(i) => [s[..i]] + Split(s[i + 1..], c)
  }

  /** `sep.join(parts)`. */
  function JoinText(parts: seq<string>, sep: string): string {
    if |parts| == 0 then ""
    else if |parts| == 1 then parts[0]
    else parts[0] + sep + JoinText(parts[1..], sep)
  }

  /** `c.join(parts)` for a one-character separator. */
  function Join(parts: seq<string>, c: char): string {
    JoinText(parts, [c])
  }

  /** The first separator after a separator-free prefix is found right there. */
  lemma {:induction false} IndexOfAfterPrefix(p: string, c: char, rest: string)
    requires c !in p
    ensures IndexOf(p + [c] + rest, c) == Some(|p|)
  {
    if p != [] {
      assert (p + [c] + rest)[1..] == p[1..] + [c] + rest;
      IndexOfAfterPrefix(p[1..], c, rest);
    }
  }

  lemma JoinCons(a: string, tail: seq<string>, c: char)
    requires |tail| >= 1
    ensures Join([a] + tail, c) == a + [c] + Join(tail, c)
  {
    assert ([a] + tail)[1..] == tail;
  }

  /** Joining the parts of a split gives back the text. */
  lemma {:induction false} JoinSplit(s: string, c: char)
    ensures Join(Split(s, c), c) == s
    decreases |s|
  {
    match IndexOf(s, c)
      case None =>
      case Some(i) =>
        var tail := Split(s[i + 1..], c);
        assert Split(s, c) == [s[..i]] + tail;
        JoinSplit(s[i + 1..], c);
        JoinCons(s[..i], tail, c);
        assert s == s[..i] + [c] + s[i + 1..];
  }

  /** Splitting a join of separator-free parts gives back the parts. */
  lemma {:induction false} SplitJoin(parts: seq<string>, c: char)
    requires |parts| >= 1
    requires forall k :: 0 <= k < |parts| ==> c !in parts[k]
    ensures Split(Join(parts, c), c) == parts
  {
    if |parts| > 1 {
      var p := parts[0];
      var rest := Join(parts[1..], c);
      JoinCons(p, parts[1..], c);
      assert parts == [p] + parts[1..];
      IndexOfAfterPrefix(p, c, rest);
      assert (p + [c] + rest)[..|p|] == p;
      assert (p + [c] + rest)[|p| + 1..] == rest;
      SplitJoin(parts[1..], c);
    }
  }

  // ---------------------------------------------------------------------------
  // int(text) and str(int)
  // ---------------------------------------------------------------------------

  function DigitValue(c: char): nat
    requires IsAsciiDigit(c)
  {
    c as int - '0' as int
  }

  /** The value of a run of ASCII digits (leading zeros allowed, as `int()` allows them). */
  function DigitsValue(d: string): nat
    requires AllDigits(d)
  {
    if d == [] then 0 else DigitsValue(d[..|d| - 1]) * 10 + DigitValue(d[|d| - 1])
  }

  /** `str(n)` for a natural number: its shortest decimal spelling. */
  function NatToDigits(n: nat): (r: string)
    ensures |r| >= 1 && AllDigits(r)
    ensures |r| > 1 ==> r[0] != '0'
  {
    var last := ['0' + (n % 10) as char];
    if n < 10 then last else NatToDigits(n / 10) + last
  }

  /** Decimal spelling and digit-run value are inverse. */
  lemma {:induction false} NatToDigitsValue(n: nat)
    ensures DigitsValue(NatToDigits(n)) == n
  {
    var d := NatToDigits(n);
    if n >= 10 {
      NatToDigitsValue(n / 10);
      assert d[..|d| - 1] == NatToDigits(n / 10);
    }
  }

  /** `10 ** w`. */
  function Pow10(w: nat): (r: nat)
    ensures r >= 1
  {
    if w == 0 then 1 else 10 * Pow10(w - 1)
  }

  /** `n` written with exactly `w` digits, zero-padded, as `%Y`, `%m` or a float's fraction write it. */
  function Pad(n: nat, w: nat): (r: string)
    requires n < Pow10(w)
    ensures |r| == w && AllDigits(r)
    ensures DigitsValue(r) == n
  {
    if w == 0 then ""
    else
      var r := Pad(n / 10, w - 1) + ['0' + (n % 10) as char];
      assert r[..|r| - 1] == Pad(n / 10, w - 1);
      r
  }

  /** A digit run is the padding of its own value to its own width. */
  lemma {:induction false} PadOfDigits(s: string)
    requires AllDigits(s)
    ensures DigitsValue(s) < Pow10(|s|) && Pad(DigitsValue(s), |s|) == s
  {
    if s != [] {
      var init := s[..|s| - 1];
      PadOfDigits(init);
      var n := DigitsValue(s);
      assert n / 10 == DigitsValue(init) && n % 10 == DigitValue(s[|s| - 1]);
      assert s == init + [s[|s| - 1]];
    }
  }

  /** `str(i)` for any int. */
  function IntToString(i: int): string {
    if i < 0 then "-" + NatToDigits(-i) else NatToDigits(i)
  }

  /**
   * The digits of an integer literal body: digits, where single underscores
   * may stand between two of them (`1_000`); the digits without their
   * underscores, or None when the text breaks that grammar.
   */
  function GroupedDigits(s: string): (r: Option<string>)
    ensures r.Some? ==> |r.value| >= 1 && AllDigits(r.value) && |r.value| <= |s|
    ensures r.Some? ==> s[0] == r.value[0]
    ensures |s| >= 1 && AllDigits(s) ==> r == Some(s)
  {
    if s == [] || !IsAsciiDigit(s[0]) then None
    else if |s| == 1 then Some(s)
    else
      var rest := if s[1] == '_' then s[2..] else s[1..];
      match GroupedDigits(rest)
      case None => None
      case Some(d) =>
        assert AllDigits(s) ==> rest == s[1..] && AllDigits(rest) && [s[0]] + rest == s;
        Some([s[0]] + d)
  }

  /**
   * `int(text)` on ASCII input: surrounding whitespace, an optional sign and
   * at least one digit, with single underscores allowed between digits.
   */
  function ParseInt(text: string): (r: Option<int>)
    ensures r.Some? ==> |Strip(text)| >= 1
    ensures |Strip(text)| >= 1 && AllDigits(Strip(text)) ==> r == Some(DigitsValue(Strip(text)))
  {
    var t := Strip(text);
    var signed := |t| >= 1 && (t[0] == '-' || t[0] == '+');
    match GroupedDigits(if signed then t[1..] else t)
    case None => None
    case Some(d) =>
      var m: int := DigitsValue(d);
      Some(if signed && t[0] == '-' then -m else m)
  }

  lemma GroupedThousand()
    ensures GroupedDigits("1_000") == Some("1000") && DigitsValue("1000") == 1000
  {
    var a := "1_000";
    assert GroupedDigits(a[4..]) == Some("0");
    assert a[3..][1..] == a[4..];
    assert GroupedDigits(a[3..]) == Some("00");
    assert a[2..][1..] == a[3..];
    assert GroupedDigits(a[2..]) == Some("000");
    assert a[0] == '1' && a[1] == '_' && ['1'] + "000" == "1000";
    var n := "1000";
    assert DigitsValue(n[..1]) == 1;
    assert n[..2][..1] == n[..1];
    assert DigitsValue(n[..2]) == 10;
    assert n[..3][..2] == n[..2];
    assert DigitsValue(n[..3]) == 100;
    assert n[..4][..3] == n[..3] && n[..4] == n;
  }

  lemma GroupedMalformed()
    ensures GroupedDigits("1__0") == None && GroupedDigits("_1") == None && GroupedDigits("1_") == None
  {
    assert "1__0"[2..] == "_0";
    assert "1_"[2..] == "";
  }

  lemma GroupedTwentyFive()
    ensures GroupedDigits("2_5") == Some("25") && DigitsValue("25") == 25
  {
    var c := "2_5";
    assert c[2..] == "5";
    assert GroupedDigits(c[2..]) == Some("5");
    assert c[0] == '2' && c[1] == '_' && ['2'] + "5" == "25";
    assert "25"[..1] == "2";
  }

  /** Underscores may group digits. */
  lemma ParseIntUnderscores()
    ensures ParseInt("1_000") == Some(1000)
    ensures ParseInt("-2_5") == Some(-25)
  {
    GroupedThousand();
    GroupedTwentyFive();
    var b := "-2_5";
    assert b[1..] == "2_5";
    StripFixedPoint("1_000");
    StripFixedPoint(b);
  }

  /** An underscore may not lead, trail or double. */
  lemma ParseIntMisplacedUnderscores()
    ensures ParseInt("1__0") == None && ParseInt("_1") == None && ParseInt("1_") == None
  {
    GroupedMalformed();
    StripFixedPoint("1__0");
    StripFixedPoint("_1");
    StripFixedPoint("1_");
  }

  /** A digit string is left alone by strip(). */
  lemma DigitsUnstripped(d: string)
    requires |d| >= 1 && AllDigits(d)
    ensures Strip(d) == d
  {
    StripFixedPoint(d);
  }

  /** The spelling of a negative number: a minus sign before the digits of its magnitude. */
  lemma NegativeRoundTrip(n: nat)
    requires n > 0
    ensures ParseInt("-" + NatToDigits(n)) == Some(-(n as int))
  {
    var d := NatToDigits(n);
    var s := "-" + d;
    assert s[1..] == d;
    assert s[|s| - 1] == d[|d| - 1];
    StripFixedPoint(s);
    NatToDigitsValue(n);
  }

  /** `int(str(i)) == i`. */
  lemma IntToStringRoundTrip(i: int)
    ensures ParseInt(IntToString(i)) == Some(i)
  {
    if i < 0 {
      NegativeRoundTrip(-i);
      assert IntToString(i) == "-" + NatToDigits(-i);
    } else {
      var d := NatToDigits(i);
      assert IntToString(i) == d;
      DigitsUnstripped(d);
      NatToDigitsValue(i);
      assert ParseInt(d) == Some(DigitsValue(d));
    }
  }

  // ---------------------------------------------------------------------------
  // Python's `<` on str: code-point lexicographic order
  // ---------------------------------------------------------------------------

  predicate StrLess(a: string, b: string) {
    if a == [] then b != []
    else if b == [] then false
    else if a[0] != b[0] then a[0] < b[0]
    else StrLess(a[1..], b[1..])
  }

  lemma {:induction false} StrLessIrreflexive(a: string)
    ensures !StrLess(a, a)
  {
    if a != [] { StrLessIrreflexive(a[1..]); }
  }

  lemma {:induction false} StrLessAsymmetric(a: string, b: string)
    ensures !(StrLess(a, b) && StrLess(b, a))
  {
    if a != [] && b != [] && a[0] == b[0] { StrLessAsymmetric(a[1..], b[1..]); }
  }

  lemma {:induction false} StrLessTransitive(a: string, b: string, c: string)
    requires StrLess(a, b) && StrLess(b, c)
    ensures StrLess(a, c)
  {
    if a != [] && b != [] && c != [] && a[0] == b[0] && b[0] == c[0] {
      StrLessTransitive(a[1..], b[1..], c[1..]);
    }
  }

  lemma {:induction false} StrLessTotal(a: string, b: string)
    requires a != b
    ensures StrLess(a, b) || StrLess(b, a)
  {
    if a != [] && b != [] && a[0] == b[0] {
      assert a == [a[0]] + a[1..] && b == [b[0]] + b[1..];
      StrLessTotal(a[1..], b[1..]);
    }
  }
}
