/**
 * The version grammar shared by both `version_utils` modules:
 * `MAJOR.MINOR.PATCH[-prerelease][+build]` after `strip()`, where each number
 * is a run of ASCII digits and prerelease/build are non-empty runs of ASCII
 * letters, digits, `-` and `.`. The pattern is matched by hand here: `Match`
 * returns the five capture groups, and `Spell` is its exact inverse.
 *
 * Also here: the three-way comparator of the cmi-tools copy and the
 * `handle_version_errors` decorator, both copies of which behave alike.
 */
module SemVer {
  import opened Wrappers
  import opened PyText
  import opened PyValue

  predicate IsIdentChar(c: char) { IsAsciiLetter(c) || IsAsciiDigit(c) || c == '-' || c == '.' }

  predicate IsDigitRun(s: string) { |s| >= 1 && AllDigits(s) }

  predicate AllIdent(s: string) { forall i :: 0 <= i < |s| ==> IsIdentChar(s[i]) }

  predicate IsIdentRun(s: string) { |s| >= 1 && AllIdent(s) }

  /** The five capture groups of the version pattern. */
  datatype Pieces = Pieces(major: string, minor: string, patch: string, prerelease: Option<string>, build: Option<string>)

  predicate WellFormed(p: Pieces) {
    IsDigitRun(p.major) && IsDigitRun(p.minor) && IsDigitRun(p.patch)
    && (p.prerelease.Some? ==> IsIdentRun(p.prerelease.value))
    && (p.build.Some? ==> IsIdentRun(p.build.value))
  }

  function SuffixText(prerelease: Option<string>, build: Option<string>): string {
    (match prerelease case None => "" case Some(x) => "-" + x)
    + (match build case None => "" case Some(x) => "+" + x)
  }

  /** The text whose match yields exactly these groups. */
  function Spell(p: Pieces): string {
    p.major + "." + p.minor + "." + p.patch + SuffixText(p.prerelease, p.build)
  }

  /** Length of the longest prefix of ASCII digits. */
  function DigitPrefix(s: string): (n: nat)
    ensures n <= |s| && AllDigits(s[..n])
    ensures n == |s| || !IsAsciiDigit(s[n])
  {
    if s != [] && IsAsciiDigit(s[0]) then
      var k := DigitPrefix(s[1..]);
      assert s[..k + 1] == [s[0]] + s[1..][..k];
      k + 1
    else 0
  }

  /** Length of the longest prefix of identifier characters. */
  function IdentPrefix(s: string): (n: nat)
    ensures n <= |s| && AllIdent(s[..n])
    ensures n == |s| || !IsIdentChar(s[n])
  {
    if s != [] && IsIdentChar(s[0]) then
      var k := IdentPrefix(s[1..]);
      assert s[..k + 1] == [s[0]] + s[1..][..k];
      k + 1
    else 0
  }

  /** Matches the optional `-prerelease` and `+build` groups against all of `u`. */
  function MatchSuffix(u: string): (r: Option<(Option<string>, Option<string>)>)
    ensures r.Some? ==> SuffixText(r.value.0, r.value.1) == u
    ensures r.Some? ==> (r.value.0.Some? ==> IsIdentRun(r.value.0.value))
    ensures r.Some? ==> (r.value.1.Some? ==> IsIdentRun(r.value.1.value))
  {
    if u == [] then Some((None, None))
    else if u[0] == '-' then
      var k := IdentPrefix(u[1..]);
      var pre := u[1..][..k];
      var after := u[1..][k..];
      assert u == "-" + pre + after;
      if k == 0 then None
      else if after == [] then Some((Some(pre), None))
      else if after[0] == '+' && IsIdentRun(after[1..]) then
        assert after == "+" + after[1..];
        Some((Some(pre), Some(after[1..])))
      else None
    else if u[0] == '+' && IsIdentRun(u[1..]) then
      assert u == "+" + u[1..];
      Some((None, Some(u[1..])))
    else None
  }

  /** One `\d+` group followed by a literal `.`: the group and what follows the dot. */
  function MatchNumberDot(t: string): (r: Option<(string, string)>)
    ensures r.Some? ==> IsDigitRun(r.value.0) && t == r.value.0 + "." + r.value.1
  {
    var n := DigitPrefix(t);
    if n == 0 || n == |t| || t[n] != '.' then None
    else
      assert t == t[..n] + "." + t[n + 1..];
      Some((t[..n], t[n + 1..]))
  }

  /** The last `\d+` group followed by the optional suffix groups. */
  function MatchPatchSuffix(t: string): (r: Option<(string, Option<string>, Option<string>)>)
    ensures r.Some? ==> IsDigitRun(r.value.0) && t == r.value.0 + SuffixText(r.value.1, r.value.2)
    ensures r.Some? ==> (r.value.1.Some? ==> IsIdentRun(r.value.1.value))
    ensures r.Some? ==> (r.value.2.Some? ==> IsIdentRun(r.value.2.value))
  {
    var n := DigitPrefix(t);
    if n == 0 then None
    else
      match MatchSuffix(t[n..])
        case None => None
        case Some(groups) =>
          assert t == t[..n] + t[n..];
          Some((t[..n], groups.0, groups.1))
  }

  /** `re.match(SEMANTIC_VERSION_PATTERN, t)`: the groups when the whole of `t` matches. */
  function Match(t: string): (r: Option<Pieces>)
    ensures r.Some? ==> WellFormed(r.value) && Spell(r.value) == t
  {
    match MatchNumberDot(t)
      case None => None
      case Some(g1) =>
        match MatchNumberDot(g1.1)
          case None => None
          case Some(g2) =>
            match MatchPatchSuffix(g2.1)
              case None => None
              case Some(g3) =>
                var p := Pieces(g1.0, g2.0, g3.0, g3.1, g3.2);
                SpellSteps(p, g1.1, g2.1);
                Some(p)
  }

  lemma SpellSteps(p: Pieces, r1: string, r2: string)
    requires r2 == p.patch + SuffixText(p.prerelease, p.build)
    requires r1 == p.minor + "." + r2
    ensures Spell(p) == p.major + "." + r1
  {
  }

  lemma DigitPrefixOf(d: string, rest: string)
    requires AllDigits(d)
    requires rest == [] || !IsAsciiDigit(rest[0])
    ensures DigitPrefix(d + rest) == |d|
  {
    if d != [] {
      assert (d + rest)[0] == d[0];
      assert (d + rest)[1..] == d[1..] + rest;
      DigitPrefixOf(d[1..], rest);
    } else {
      assert d + rest == rest;
    }
  }

  lemma IdentPrefixOf(d: string, rest: string)
    requires AllIdent(d)
    requires rest == [] || !IsIdentChar(rest[0])
    ensures IdentPrefix(d + rest) == |d|
  {
    if d != [] {
      assert (d + rest)[0] == d[0];
      assert (d + rest)[1..] == d[1..] + rest;
      IdentPrefixOf(d[1..], rest);
    } else {
      assert d + rest == rest;
    }
  }

  lemma MatchSuffixSpell(pre: Option<string>, build: Option<string>)
    requires pre.Some? ==> IsIdentRun(pre.value)
    requires build.Some? ==> IsIdentRun(build.value)
    ensures MatchSuffix(SuffixText(pre, build)) == Some((pre, build))
  {
    var u := SuffixText(pre, build);
    var b := match build case None => "" case Some(x) => "+" + x;
    if pre.Some? {
      var x := pre.value;
      assert u == "-" + x + b;
      assert u[1..] == x + b;
      IdentPrefixOf(x, b);
      assert u[1..][..|x|] == x;
      assert u[1..][|x|..] == b;
      if build.Some? {
        assert b[1..] == build.value;
      }
    } else if build.Some? {
      assert u == "+" + build.value;
      assert u[1..] == build.value;
    }
  }

  lemma MatchNumberDotOf(d: string, rest: string)
    requires IsDigitRun(d)
    ensures MatchNumberDot(d + "." + rest) == Some((d, rest))
  {
    var t := d + "." + rest;
    DigitPrefixOf(d, "." + rest);
    assert t == d + ("." + rest);
    assert t[..|d|] == d && t[|d| + 1..] == rest;
  }

  lemma MatchPatchSuffixOf(d: string, pre: Option<string>, build: Option<string>)
    requires IsDigitRun(d)
    requires pre.Some? ==> IsIdentRun(pre.value)
    requires build.Some? ==> IsIdentRun(build.value)
    ensures MatchPatchSuffix(d + SuffixText(pre, build)) == Some((d, pre, build))
  {
    var sfx := SuffixText(pre, build);
    var t := d + sfx;
    assert sfx == [] || sfx[0] == '-' || sfx[0] == '+';
    DigitPrefixOf(d, sfx);
    assert t[..|d|] == d && t[|d|..] == sfx;
    MatchSuffixSpell(pre, build);
  }

  /** Every well-formed set of groups is matched back from its spelling. */
  lemma {:induction false} MatchSpell(p: Pieces)
    requires WellFormed(p)
    ensures Match(Spell(p)) == Some(p)
  {
    var r2 := p.patch + SuffixText(p.prerelease, p.build);
    var r1 := p.minor + "." + r2;
    assert Spell(p) == p.major + "." + r1;
    MatchNumberDotOf(p.major, r1);
    MatchNumberDotOf(p.minor, r2);
    MatchPatchSuffixOf(p.patch, p.prerelease, p.build);
  }

  // ---------------------------------------------------------------------------
  // is_valid_semantic_version / parse_semantic_version
  // ---------------------------------------------------------------------------

  /** `is_valid_semantic_version(v)`: a str whose stripped text matches; any other type is rejected. */
  predicate IsValid(v: Value) {
    v.PyStr? && Match(Strip(v.s)).Some?
  }

  /** Validity is exactly "the stripped text is the spelling of well-formed groups". */
  lemma ValidIffSpelled(v: Value)
    ensures IsValid(v) <==> v.PyStr? && exists p :: WellFormed(p) && Spell(p) == Strip(v.s)
  {
    if v.PyStr? && exists p :: WellFormed(p) && Spell(p) == Strip(v.s) {
      var p :| WellFormed(p) && Spell(p) == Strip(v.s);
      MatchSpell(p);
    }
  }

  /** The characters a version spelling is made of. */
  predicate IsVersionChar(c: char) { IsIdentChar(c) || c == '+' }

  predicate AllVersionChars(s: string) { forall i :: 0 <= i < |s| ==> IsVersionChar(s[i]) }

  lemma AllVersionCharsConcat(a: string, b: string)
    requires AllVersionChars(a) && AllVersionChars(b)
    ensures AllVersionChars(a + b)
  {
    assert forall i :: |a| <= i < |a + b| ==> (a + b)[i] == b[i - |a|];
  }

  lemma SpellVersionChars(p: Pieces)
    requires WellFormed(p)
    ensures AllVersionChars(Spell(p))
  {
    AllVersionCharsConcat(p.major, ".");
    AllVersionCharsConcat(p.major + ".", p.minor);
    AllVersionCharsConcat(p.major + "." + p.minor, ".");
    AllVersionCharsConcat(p.major + "." + p.minor + ".", p.patch);
    var pre := match p.prerelease case None => "" case Some(x) => "-" + x;
    var b := match p.build case None => "" case Some(x) => "+" + x;
    if p.prerelease.Some? { AllVersionCharsConcat("-", p.prerelease.value); }
    if p.build.Some? { AllVersionCharsConcat("+", p.build.value); }
    AllVersionCharsConcat(pre, b);
    assert SuffixText(p.prerelease, p.build) == pre + b;
    AllVersionCharsConcat(p.major + "." + p.minor + "." + p.patch, pre + b);
  }

  /** The text of a valid version holds only version characters, apart from surrounding whitespace. */
  lemma ValidTextChars(v: Value)
    requires v.PyStr?
    ensures IsValid(v) ==> forall i :: 0 <= i < |v.s| ==> IsVersionChar(v.s[i]) || IsSpace(v.s[i])
  {
    if IsValid(v) {
      var t := Strip(v.s);
      var p := Match(t).value;
      SpellVersionChars(p);
      assert AllVersionChars(t);
      forall i | 0 <= i < |v.s|
        ensures IsVersionChar(v.s[i]) || IsSpace(v.s[i])
      {
        StripPosition(v.s, i);
      }
    }
  }

  /** A text with an underscore somewhere is never a valid version. */
  lemma UnderscoreNotValid(s: string, i: int)
    requires 0 <= i < |s| && s[i] == '_'
    ensures !IsValid(PyStr(s))
  {
    assert !IsVersionChar(s[i]) && !IsSpace(s[i]);
    ValidTextChars(PyStr(s));
  }

  /** A valid version is truthy. */
  lemma ValidIsTruthy(v: Value)
    ensures IsValid(v) ==> Truthy(v)
  {
    if IsValid(v) {
      assert |Spell(Match(Strip(v.s)).value)| > 0;
    }
  }

  datatype Version = Version(major: nat, minor: nat, patch: nat, prerelease: Option<string>, build: Option<string>)

  function ToVersion(p: Pieces): Version
    requires WellFormed(p)
  {
    Version(DigitsValue(p.major), DigitsValue(p.minor), DigitsValue(p.patch), p.prerelease, p.build)
  }

  /** `parse_semantic_version(v)`: ValueError exactly on invalid input, otherwise `int()` of each number and the optional texts. */
  function Parse(v: Value): (r: Result<Version>)
    ensures r.Ok? <==> IsValid(v)
    ensures r.Ok? ==> exists p :: WellFormed(p) && Spell(p) == Strip(v.s) && r.value == ToVersion(p)
  {
    if IsValid(v) then
      var p := Match(Strip(v.s)).value;
      Ok(ToVersion(p))
    else Err("ValueError")
  }

  /** The shortest text for a version: no leading zeros. */
  function Format(ver: Version): string {
    Spell(Pieces(NatToDigits(ver.major), NatToDigits(ver.minor), NatToDigits(ver.patch), ver.prerelease, ver.build))
  }

  /** The spelling of well-formed groups has no whitespace at either end. */
  lemma SpellUnstripped(p: Pieces)
    requires WellFormed(p)
    ensures Strip(Spell(p)) == Spell(p)
  {
    var t := Spell(p);
    assert t[0] == p.major[0];
    assert !IsSpace(t[|t| - 1]) by {
      if p.build.Some? {
        assert t[|t| - 1] == p.build.value[|p.build.value| - 1];
      } else if p.prerelease.Some? {
        assert t[|t| - 1] == p.prerelease.value[|p.prerelease.value| - 1];
      } else {
        assert t[|t| - 1] == p.patch[|p.patch| - 1];
      }
    }
    StripFixedPoint(t);
  }

  /** Parsing the formatted text of a version with well-formed labels gives the version back. */
  lemma ParseFormat(ver: Version)
    requires ver.prerelease.Some? ==> IsIdentRun(ver.prerelease.value)
    requires ver.build.Some? ==> IsIdentRun(ver.build.value)
    ensures Parse(PyStr(Format(ver))) == Ok(ver)
  {
    var p := Pieces(NatToDigits(ver.major), NatToDigits(ver.minor), NatToDigits(ver.patch), ver.prerelease, ver.build);
    SpellUnstripped(p);
    MatchSpell(p);
    NatToDigitsValue(ver.major);
    NatToDigitsValue(ver.minor);
    NatToDigitsValue(ver.patch);
  }

  // ---------------------------------------------------------------------------
  // compare_versions (cmi-tools copy)
  // ---------------------------------------------------------------------------

  function Sign(x: int, y: int): int {
    if x < y then -1 else if x > y then 1 else 0
  }

  /** The prerelease step: no label outranks a label; two labels by plain string order. */
  function ComparePrerelease(a: Option<string>, b: Option<string>): int {
    match (a, b)
      case (None, None) => 0
      case (None, Some(_)) => 1
      case (Some(_), None) => -1
      case (Some(x), Some(y)) => if StrLess(x, y) then -1 else if StrLess(y, x) then 1 else 0
  }

  /** The comparison of two parsed versions: major, minor, patch, then prerelease. */
  function CompareParsed(x: Version, y: Version): (r: int)
    ensures r == -1 || r == 0 || r == 1
  {
    if x.major != y.major then Sign(x.major, y.major)
    else if x.minor != y.minor then Sign(x.minor, y.minor)
    else if x.patch != y.patch then Sign(x.patch, y.patch)
    else ComparePrerelease(x.prerelease, y.prerelease)
  }

  /** `compare_versions(a, b)`: -1, 0 or 1, and 0 whenever either side is invalid. */
  function CompareVersions(a: Value, b: Value): (r: int)
    ensures r == -1 || r == 0 || r == 1
    ensures !IsValid(a) || !IsValid(b) ==> r == 0
  {
    if IsValid(a) && IsValid(b) then CompareParsed(Parse(a).value, Parse(b).value) else 0
  }

  /** The numeric triple, compared lexicographically. */
  function Triple(v: Version): (nat, nat, nat) { (v.major, v.minor, v.patch) }

  predicate TripleLess(x: Version, y: Version) {
    x.major < y.major
    || (x.major == y.major && x.minor < y.minor)
    || (x.major == y.major && x.minor == y.minor && x.patch < y.patch)
  }

  /** The first differing number of the triple decides, numerically. */
  lemma TripleDecides(a: Value, b: Value)
    requires IsValid(a) && IsValid(b)
    requires Triple(Parse(a).value) != Triple(Parse(b).value)
    ensures CompareVersions(a, b) == -1 <==> TripleLess(Parse(a).value, Parse(b).value)
    ensures CompareVersions(a, b) == 1 <==> TripleLess(Parse(b).value, Parse(a).value)
  {
  }

  /** With equal triples, a release outranks any prerelease, whatever the build metadata. */
  lemma ReleaseBeatsPrerelease(a: Value, b: Value)
    requires IsValid(a) && IsValid(b)
    requires Triple(Parse(a).value) == Triple(Parse(b).value)
    requires Parse(a).value.prerelease.None? && Parse(b).value.prerelease.Some?
    ensures CompareVersions(a, b) == 1 && CompareVersions(b, a) == -1
  {
  }

  /** With equal triples, two prereleases are ordered by the plain string order of their whole labels. */
  lemma PrereleaseByStringOrder(a: Value, b: Value)
    requires IsValid(a) && IsValid(b)
    requires Triple(Parse(a).value) == Triple(Parse(b).value)
    requires Parse(a).value.prerelease.Some? && Parse(b).value.prerelease.Some?
    ensures var x, y := Parse(a).value.prerelease.value, Parse(b).value.prerelease.value;
      (CompareVersions(a, b) == -1 <==> StrLess(x, y))
      && (CompareVersions(a, b) == 1 <==> StrLess(y, x))
      && (CompareVersions(a, b) == 0 <==> x == y)
  {
    var x, y := Parse(a).value.prerelease.value, Parse(b).value.prerelease.value;
    StrLessAsymmetric(x, y);
    StrLessIrreflexive(x);
    if x != y { StrLessTotal(x, y); }
  }

  /** Build metadata never changes a comparison. */
  lemma BuildIgnored(x: Version, y: Version, b: Option<string>)
    ensures CompareParsed(x.(build := b), y) == CompareParsed(x, y)
  {
  }

  lemma CompareReflexive(a: Value)
    ensures CompareVersions(a, a) == 0
  {
    if IsValid(a) {
      var x := Parse(a).value;
      if x.prerelease.Some? { StrLessIrreflexive(x.prerelease.value); }
    }
  }

  lemma CompareParsedAntisymmetric(x: Version, y: Version)
    ensures CompareParsed(x, y) == -CompareParsed(y, x)
  {
    if x.prerelease.Some? && y.prerelease.Some? {
      StrLessAsymmetric(x.prerelease.value, y.prerelease.value);
    }
  }

  /** `compare(a, b) == -compare(b, a)`, for valid and invalid arguments alike. */
  lemma CompareAntisymmetric(a: Value, b: Value)
    ensures CompareVersions(a, b) == -CompareVersions(b, a)
  {
    if IsValid(a) && IsValid(b) {
      CompareParsedAntisymmetric(Parse(a).value, Parse(b).value);
    }
  }

  lemma ComparePrereleaseTransitive(a: Option<string>, b: Option<string>, c: Option<string>)
    requires ComparePrerelease(a, b) == 1 && ComparePrerelease(b, c) == 1
    ensures ComparePrerelease(a, c) == 1
  {
    if a.Some? && b.Some? && c.Some? {
      StrLessTransitive(c.value, b.value, a.value);
      StrLessAsymmetric(a.value, c.value);
    }
  }

  lemma CompareParsedTransitive(x: Version, y: Version, z: Version)
    requires CompareParsed(x, y) == 1 && CompareParsed(y, z) == 1
    ensures CompareParsed(x, z) == 1
  {
    if Triple(x) == Triple(y) && Triple(y) == Triple(z) {
      ComparePrereleaseTransitive(x.prerelease, y.prerelease, z.prerelease);
    }
  }

  /** "Greater than" is transitive. */
  lemma {:induction false} CompareTransitive(a: Value, b: Value, c: Value)
    requires CompareVersions(a, b) == 1 && CompareVersions(b, c) == 1
    ensures CompareVersions(a, c) == 1
  {
    CompareParsedTransitive(Parse(a).value, Parse(b).value, Parse(c).value);
  }

  lemma ParseSample(t: string, ver: Version)
    requires ver.prerelease.Some? ==> IsIdentRun(ver.prerelease.value)
    requires ver.build.None?
    requires t == Format(ver)
    ensures Parse(PyStr(t)) == Ok(ver)
  {
    ParseFormat(ver);
  }

  lemma ParsesOne()
    ensures Parse(PyStr("1.0.0")) == Ok(Version(1, 0, 0, None, None))
  {
    assert NatToDigits(0) == "0" && NatToDigits(1) == "1";
    ParseSample("1.0.0", Version(1, 0, 0, None, None));
  }

  lemma ParsesTwo()
    ensures Parse(PyStr("2.0.0")) == Ok(Version(2, 0, 0, None, None))
  {
    assert NatToDigits(0) == "0" && NatToDigits(2) == "2";
    ParseSample("2.0.0", Version(2, 0, 0, None, None));
  }

  lemma ParsesAlpha()
    ensures Parse(PyStr("1.0.0-alpha")) == Ok(Version(1, 0, 0, Some("alpha"), None))
  {
    assert NatToDigits(0) == "0" && NatToDigits(1) == "1";
    assert IsIdentRun("alpha");
    ParseSample("1.0.0-alpha", Version(1, 0, 0, Some("alpha"), None));
  }

  /** The orderings the system test of the fdma2530 tools expects. */
  lemma SampleComparisons()
    ensures CompareVersions(PyStr("1.0.0"), PyStr("2.0.0")) == -1
    ensures CompareVersions(PyStr("2.0.0"), PyStr("1.0.0")) == 1
    ensures CompareVersions(PyStr("1.0.0"), PyStr("1.0.0")) == 0
    ensures CompareVersions(PyStr("1.0.0-alpha"), PyStr("1.0.0")) == -1
    ensures CompareVersions(PyStr("1.0.0"), PyStr("1.0.0-alpha")) == 1
  {
    var one, two, alpha := PyStr("1.0.0"), PyStr("2.0.0"), PyStr("1.0.0-alpha");
    var v1, v2, va := Version(1, 0, 0, None, None), Version(2, 0, 0, None, None), Version(1, 0, 0, Some("alpha"), None);
    ParsesOne();
    ParsesTwo();
    ParsesAlpha();
    CompareOk(one, two, v1, v2);
    CompareOk(two, one, v2, v1);
    CompareOk(one, one, v1, v1);
    CompareOk(alpha, one, va, v1);
    CompareOk(one, alpha, v1, va);
  }

  /** Two parsed versions compare as their parses do. */
  lemma CompareOk(a: Value, b: Value, x: Version, y: Version)
    requires Parse(a) == Ok(x) && Parse(b) == Ok(y)
    ensures CompareVersions(a, b) == CompareParsed(x, y)
  {
  }

  // ---------------------------------------------------------------------------
  // handle_version_errors
  // ---------------------------------------------------------------------------

  /** `@handle_version_errors(fallback)`: the result when it is truthy and valid, otherwise the fallback. */
  function WithFallback(o: Outcome, fallback: string): (r: Value)
    ensures o.Returned? && IsValid(o.value) ==> r == o.value
    ensures !(o.Returned? && IsValid(o.value)) ==> r == PyStr(fallback)
    ensures IsValid(PyStr(fallback)) ==> IsValid(r)
  {
    if o.Returned? then
      // a valid version is never falsy, so the truthiness test never rejects it
      ValidIsTruthy(o.value);
      if Truthy(o.value) && IsValid(o.value) then o.value else PyStr(fallback)
    else PyStr(fallback)
  }

  /** Wrapping an already wrapped call changes nothing. */
  lemma WithFallbackIdempotent(o: Outcome, fallback: string)
    requires IsValid(PyStr(fallback))
    ensures WithFallback(Returned(WithFallback(o, fallback)), fallback) == WithFallback(o, fallback)
  {
    var r := WithFallback(o, fallback);
    assert r.PyStr?;
    assert |Strip(r.s)| > 0 by {
      var p := Match(Strip(r.s)).value;
      assert |Spell(p)| > 0;
    }
  }
}
