/**
 * The assignment file-name convention both `validate_file_name` versions
 * check: an optional Maya extension, the pattern
 * `^([A-Za-z]{2,3})_(U\d+)_(SS\d+)_(V\d+)(?:_(\d+)|\.(\d+))?$` written out as
 * a parser, and the structural tests used when the pattern does not match.
 * `\d` is taken to be an ASCII digit.
 */
module FileNameGrammar {
  import opened Wrappers
  import opened PyText

  const Extensions: seq<string> := [".ma", ".mb", ".mayaAscii", ".mayaBinary"]

  /** Whether the lower-cased name ends with the lower-cased extension. */
  predicate HasExtension(name: string, ext: string) {
    EndsWith(Lower(name), Lower(ext))
  }

  /** The first extension of `exts` the name ends with, case-insensitively. */
  function FirstExtension(name: string, exts: seq<string>): (r: Option<nat>)
    ensures r.None? <==> forall k :: 0 <= k < |exts| ==> !HasExtension(name, exts[k])
    ensures r.Some? ==> r.value < |exts| && HasExtension(name, exts[r.value])
                        && forall k :: 0 <= k < r.value ==> !HasExtension(name, exts[k])
  {
    if exts == [] then None
    else if HasExtension(name, exts[0]) then Some(0)
    else
      var r := FirstExtension(name, exts[1..]);
      assert forall k :: 1 <= k < |exts| ==> exts[k] == exts[1..][k - 1];
      if r.Some? then Some(r.value + 1) else None
  }

  /** The name with at most one Maya extension removed: the first in `Extensions` that matches. */
  function StripExtension(name: string): (r: string)
    ensures FirstExtension(name, Extensions).None? ==> r == name
    ensures FirstExtension(name, Extensions).Some? ==>
      var e := Extensions[FirstExtension(name, Extensions).value];
      |e| <= |name| && r == name[..|name| - |e|]
  {
    match FirstExtension(name, Extensions)
      case None => name
      case Some(k) => name[..|name| - |Extensions[k]|]
  }

  // ---------------------------------------------------------------------------
  // The pattern
  // ---------------------------------------------------------------------------

  datatype Iteration = NoIteration | UnderscoreIteration(digits: string) | DotIteration(digits: string)

  /** The groups of a match: initials, "U..", "SS..", "V.." and the optional iteration. */
  datatype NameParts = NameParts(initials: string, unit: string, softskill: string, version: string,
                                 iteration: Iteration)

  predicate AllLetters(s: string) { forall i :: 0 <= i < |s| ==> IsAsciiLetter(s[i]) }

  /** A letter tag followed by at least one digit. */
  predicate Tagged(s: string, tag: string) {
    |s| > |tag| && s[..|tag|] == tag && AllDigits(s[|tag|..])
  }

  predicate ValidParts(p: NameParts) {
    2 <= |p.initials| <= 3 && AllLetters(p.initials)
    && Tagged(p.unit, "U") && Tagged(p.softskill, "SS") && Tagged(p.version, "V")
    && ValidIteration(p.iteration)
  }

  predicate ValidIteration(it: Iteration) {
    it.NoIteration? || (|it.digits| > 0 && AllDigits(it.digits))
  }

  function IterationText(it: Iteration): string {
    match it
      case NoIteration => ""
      case UnderscoreIteration(d) => "_" + d
      case DotIteration(d) => "." + d
  }

  /** `a + "_" + b`, the way every separator of the pattern joins two parts. */
  function Joined(a: string, b: string): string { a + "_" + b }

  /** The text from the version on. */
  function VersionText(version: string, it: Iteration): string { version + IterationText(it) }

  /** The text a match covers. */
  function Render(p: NameParts): string {
    Joined(p.initials, Joined(p.unit, Joined(p.softskill, VersionText(p.version, p.iteration))))
  }

  lemma JoinedParts(a: string, b: string)
    ensures |Joined(a, b)| == |a| + 1 + |b|
    ensures Joined(a, b)[..|a|] == a && Joined(a, b)[|a|] == '_' && Joined(a, b)[|a| + 1..] == b
  {
  }

  lemma JoinedOf(s: string, k: nat)
    requires k < |s| && s[k] == '_'
    ensures s == Joined(s[..k], s[k + 1..])
  {
  }

  /** The length of the run of digits `s` starts with. */
  function DigitRun(s: string): (n: nat)
    ensures n <= |s| && AllDigits(s[..n])
    ensures n < |s| ==> !IsAsciiDigit(s[n])
  {
    if s != [] && IsAsciiDigit(s[0]) then
      var n := 1 + DigitRun(s[1..]);
      assert forall i :: 1 <= i < n ==> s[..n][i] == s[1..][..n - 1][i - 1];
      n
    else 0
  }

  lemma {:induction false} DigitRunOf(d: string, rest: string)
    requires AllDigits(d) && (rest == [] || !IsAsciiDigit(rest[0]))
    ensures DigitRun(d + rest) == |d|
  {
    if d != [] {
      assert (d + rest)[1..] == d[1..] + rest;
      DigitRunOf(d[1..], rest);
    }
  }

  /** What may follow the version: nothing, or `_` or `.` and digits. */
  function ParseIteration(rest: string): (r: Option<Iteration>)
    ensures r.Some? ==> ValidIteration(r.value) && IterationText(r.value) == rest
  {
    if rest == [] then Some(NoIteration)
    else if |rest| >= 2 && rest[0] == '_' && AllDigits(rest[1..]) then Some(UnderscoreIteration(rest[1..]))
    else if |rest| >= 2 && rest[0] == '.' && AllDigits(rest[1..]) then Some(DotIteration(rest[1..]))
    else None
  }

  /** A tag and its digits at the start of `s`, as the length they cover. */
  function TagRun(s: string, tag: string): (n: Option<nat>)
    ensures n.Some? ==> n.value <= |s| && Tagged(s[..n.value], tag)
    ensures n.Some? ==> n.value == |s| || !IsAsciiDigit(s[n.value])
  {
    if |s| >= |tag| && s[..|tag|] == tag then
      var d := DigitRun(s[|tag|..]);
      if d == 0 then None
      else
        assert s[..|tag| + d][|tag|..] == s[|tag|..][..d];
        Some(|tag| + d)
    else None
  }

  lemma TagRunOf(t: string, tag: string, rest: string)
    requires Tagged(t, tag) && (rest == [] || !IsAsciiDigit(rest[0]))
    ensures TagRun(t + rest, tag) == Some(|t|)
  {
    assert (t + rest)[..|tag|] == tag;
    assert (t + rest)[|tag|..] == t[|tag|..] + rest;
    DigitRunOf(t[|tag|..], rest);
  }

  /** The version and the iteration, when they make up the whole of `t`. */
  function ParseVersion(t: string): (r: Option<(string, Iteration)>)
    ensures r.Some? ==> Tagged(r.value.0, "V") && ValidIteration(r.value.1)
                        && VersionText(r.value.0, r.value.1) == t
  {
    match TagRun(t, "V")
      case None => None
      case Some(c) =>
        match ParseIteration(t[c..])
          case None => None
          case Some(it) => Some((t[..c], it))
  }

  /** "SS..", an underscore, then the version. */
  function ParseSoftskill(t: string): (r: Option<(string, string, Iteration)>)
    ensures r.Some? ==> Tagged(r.value.0, "SS") && Tagged(r.value.1, "V") && ValidIteration(r.value.2)
                        && Joined(r.value.0, VersionText(r.value.1, r.value.2)) == t
  {
    match TagRun(t, "SS")
      case None => None
      case Some(b) =>
        if !(b < |t| && t[b] == '_') then None
        else
          JoinedOf(t, b);
          match ParseVersion(t[b + 1..])
            case None => None
            case Some(v) => Some((t[..b], v.0, v.1))
  }

  /** "U..", an underscore, then the rest. */
  function ParseUnit(initials: string, t: string): (r: Option<NameParts>)
    ensures r.Some? ==> r.value.initials == initials
    ensures r.Some? ==> Tagged(r.value.unit, "U") && Tagged(r.value.softskill, "SS")
                        && Tagged(r.value.version, "V") && ValidIteration(r.value.iteration)
    ensures r.Some? ==> Joined(r.value.unit, Joined(r.value.softskill, VersionText(r.value.version, r.value.iteration))) == t
  {
    match TagRun(t, "U")
      case None => None
      case Some(a) =>
        if !(a < |t| && t[a] == '_') then None
        else
          JoinedOf(t, a);
          match ParseSoftskill(t[a + 1..])
            case None => None
            case Some(v) => Some(NameParts(initials, t[..a], v.0, v.1, v.2))
  }

  /**
   * `re.match` of the pattern without its final `$`: the groups, when the
   * whole text matches; what it returns is well formed and covers the text.
   */
  function ParseName(s: string): (r: Option<NameParts>)
    ensures r.Some? ==> ValidParts(r.value) && Render(r.value) == s
  {
    var k := if |s| >= 3 && s[2] == '_' then 2 else 3;
    if !(k < |s| && s[k] == '_' && AllLetters(s[..k])) then None
    else
      JoinedOf(s, k);
      ParseUnit(s[..k], s[k + 1..])
  }

  lemma ParseVersionOf(p: NameParts)
    requires ValidParts(p)
    ensures ParseVersion(VersionText(p.version, p.iteration)) == Some((p.version, p.iteration))
  {
    var itext := IterationText(p.iteration);
    var t := VersionText(p.version, p.iteration);
    TagRunOf(p.version, "V", itext);
    assert t[..|p.version|] == p.version && t[|p.version|..] == itext;
    match p.iteration
      case NoIteration =>
      case UnderscoreIteration(d) => assert itext[1..] == d;
      case DotIteration(d) => assert itext[1..] == d;
  }

  lemma ParseSoftskillOf(p: NameParts)
    requires ValidParts(p)
    ensures ParseSoftskill(Joined(p.softskill, VersionText(p.version, p.iteration)))
            == Some((p.softskill, p.version, p.iteration))
  {
    var rest := VersionText(p.version, p.iteration);
    var t := Joined(p.softskill, rest);
    var b := |p.softskill|;
    JoinedParts(p.softskill, rest);
    assert t == p.softskill + ("_" + rest);
    TagRunOf(p.softskill, "SS", "_" + rest);
    assert TagRun(t, "SS") == Some(b) && b < |t| && t[b] == '_';
    assert t[..b] == p.softskill && t[b + 1..] == rest;
    ParseVersionOf(p);
  }

  lemma ParseUnitOf(p: NameParts)
    requires ValidParts(p)
    ensures ParseUnit(p.initials, Joined(p.unit, Joined(p.softskill, VersionText(p.version, p.iteration)))) == Some(p)
  {
    var rest := Joined(p.softskill, VersionText(p.version, p.iteration));
    var t := Joined(p.unit, rest);
    var a := |p.unit|;
    JoinedParts(p.unit, rest);
    assert t == p.unit + ("_" + rest);
    TagRunOf(p.unit, "U", "_" + rest);
    assert TagRun(t, "U") == Some(a) && a < |t| && t[a] == '_';
    assert t[..a] == p.unit && t[a + 1..] == rest;
    ParseSoftskillOf(p);
  }

  /** Every well-formed name is parsed back into its parts. */
  lemma ParseRender(p: NameParts)
    requires ValidParts(p)
    ensures ParseName(Render(p)) == Some(p)
  {
    var s := Render(p);
    var k := |p.initials|;
    JoinedParts(p.initials, Joined(p.unit, Joined(p.softskill, VersionText(p.version, p.iteration))));
    assert k == 2 ==> s[2] == '_';
    assert k == 3 ==> s[2] == p.initials[2] && s[2] != '_';
    ParseUnitOf(p);
  }

  /**
   * `re.match(pattern, name)`: `$` also matches just before a newline that
   * ends the text.
   */
  function MatchName(s: string): (r: Option<NameParts>)
    ensures r.Some? ==> ValidParts(r.value)
    ensures r.Some? ==> s == Render(r.value) || s == Render(r.value) + "\n"
  {
    var whole := ParseName(s);
    if whole.Some? then whole
    else if |s| > 0 && s[|s| - 1] == '\n' then
      var q := s[..|s| - 1];
      var r := ParseName(q);
      assert s == q + "\n";
      r
    else None
  }

  /** Every well-formed text matches with its own parts. */
  lemma MatchRender(p: NameParts)
    requires ValidParts(p)
    ensures MatchName(Render(p)) == Some(p)
  {
    ParseRender(p);
  }

  // ---------------------------------------------------------------------------
  // Structural tests for names that do not match
  // ---------------------------------------------------------------------------

  /** `re.search(r'^[A-Za-z]{2,3}_', name)`. */
  predicate StartsWithInitials(s: string) {
    (|s| >= 3 && AllLetters(s[..2]) && s[2] == '_') || (|s| >= 4 && AllLetters(s[..3]) && s[3] == '_')
  }

  /** `re.search(r'_V\d+', name)`. */
  predicate HasVersionTag(s: string) {
    exists i :: 0 <= i < |s| - 2 && OccursAt(s, "_V", i) && IsAsciiDigit(s[i + 2])
  }

  /**
   * Text the pattern accepts also passes the structural tests: it has an
   * underscore, starts with initials and an underscore, and holds `_V` and
   * a digit.
   */
  lemma RenderPassesStructure(p: NameParts)
    requires ValidParts(p)
    ensures StartsWithInitials(Render(p)) && Contains(Render(p), "_") && HasVersionTag(Render(p))
  {
    var v := VersionText(p.version, p.iteration);
    var c := Joined(p.softskill, v);
    var b := Joined(p.unit, c);
    var s := Render(p);
    var k := |p.initials|;
    JoinedParts(p.initials, b);
    assert OccursAt(s, "_", k);
    assert StartsWithInitials(s);
    var j := |p.unit| + 1 + |p.softskill|;
    assert c[|p.softskill|] == '_' && c[|p.softskill| + 1] == 'V' && IsAsciiDigit(c[|p.softskill| + 2]) by {
      JoinedIndex(p.softskill, v, 0);
      JoinedIndex(p.softskill, v, 1);
      assert p.version[..1] == "V" && p.version[1] == p.version[1..][0];
    }
    JoinedIndex(p.unit, c, |p.softskill|);
    JoinedIndex(p.unit, c, |p.softskill| + 1);
    JoinedIndex(p.unit, c, |p.softskill| + 2);
    JoinedIndex(p.initials, b, j);
    JoinedIndex(p.initials, b, j + 1);
    JoinedIndex(p.initials, b, j + 2);
    VersionTagAt(s, k + 1 + j);
  }

  lemma VersionTagAt(s: string, i: nat)
    requires i + 2 < |s| && s[i] == '_' && s[i + 1] == 'V' && IsAsciiDigit(s[i + 2])
    ensures HasVersionTag(s)
  {
    assert s[i..i + 2] == "_V";
    assert OccursAt(s, "_V", i);
  }

  lemma JoinedIndex(a: string, b: string, j: nat)
    requires j < |b|
    ensures Joined(a, b)[|a| + 1 + j] == b[j] && Joined(a, b)[|a|] == '_'
  {
  }

  /** The same holds for everything `MatchName` accepts, a trailing newline included. */
  lemma MatchPassesStructure(s: string)
    requires MatchName(s).Some?
    ensures StartsWithInitials(s) && Contains(s, "_") && HasVersionTag(s)
  {
    var p := MatchName(s).value;
    RenderPassesStructure(p);
    if s != Render(p) {
      StructureSurvivesNewline(Render(p));
    }
  }

  lemma StructureSurvivesNewline(r: string)
    requires StartsWithInitials(r) && Contains(r, "_") && HasVersionTag(r)
    ensures var s := r + "\n"; StartsWithInitials(s) && Contains(s, "_") && HasVersionTag(s)
  {
    var s := r + "\n";
    assert s[..|r|] == r;
    var i :| 0 <= i < |r| - 2 && OccursAt(r, "_V", i) && IsAsciiDigit(r[i + 2]);
    assert r[i..i + 2][0] == r[i] && r[i..i + 2][1] == r[i + 1];
    VersionTagAt(s, i);
    assert s[..4] == r[..4] || |r| < 4;
    assert s[..3] == r[..3];
    ContainsInSlice(s, 0, |r|, "_");
  }

  /** The iteration digits, when present (`iter_underscore or iter_dot`). */
  function IterationDigits(it: Iteration): (r: Option<string>)
    ensures r.None? <==> it.NoIteration?
    ensures r.Some? ==> IterationText(it) == [IterationText(it)[0]] + r.value
  {
    match it
      case NoIteration => None
      case UnderscoreIteration(d) => Some(d)
      case DotIteration(d) => Some(d)
  }

  /** `int(iteration_num) < 1` for a present iteration. */
  predicate IterationBelowOne(p: NameParts)
    requires ValidParts(p)
  {
    !p.iteration.NoIteration? && DigitsValue(p.iteration.digits) < 1
  }

  /** A run of digits is worth less than 1 exactly when every digit is a zero. */
  lemma {:induction false} BelowOneIffZeros(d: string)
    requires AllDigits(d)
    ensures DigitsValue(d) < 1 <==> forall i :: 0 <= i < |d| ==> d[i] == '0'
  {
    if d != [] {
      var init := d[..|d| - 1];
      BelowOneIffZeros(init);
      assert forall i :: 0 <= i < |init| ==> init[i] == d[i];
    }
  }

  /** The match is the expected assignment: unit U01, soft skill SS01, no iteration below 1. */
  predicate Conforms(p: NameParts)
    requires ValidParts(p)
  {
    p.unit == "U01" && p.softskill == "SS01" && !IterationBelowOne(p)
  }

  /** The regular expression already puts "V" in front of the version, so its own check never fires. */
  lemma VersionAlwaysTagged(p: NameParts)
    requires ValidParts(p)
    ensures StartsWith(p.version, "V")
  {
  }

  /**
   * The problems both validators report for a matching name, in their order:
   * wrong unit, wrong soft skill, iteration below 1. The version and
   * `int()` checks cannot fail on a match and add nothing.
   */
  function ComponentIssues(p: NameParts): (r: seq<string>)
    requires ValidParts(p)
    ensures |r| <= 3
    ensures r == [] <==> Conforms(p)
    ensures p.unit != "U01" ==> |r| > 0 && r[0] == "Unit number should be 'U01', found '" + p.unit + "'"
  {
    (if p.unit != "U01" then ["Unit number should be 'U01', found '" + p.unit + "'"] else [])
    + (if p.softskill != "SS01" then ["SoftSkill number should be 'SS01', found '" + p.softskill + "'"] else [])
    + (if IterationBelowOne(p) then ["Iteration number should start from 01 (or 0001)"] else [])
  }

  /** `not file_name or file_name.strip() == ""`. */
  predicate IsBlank(fileName: string) {
    Strip(fileName) == ""
  }

  /** `"{initials}_{unit}_{softskill}_{version}"`. */
  function Core(p: NameParts): string {
    Joined(p.initials, Joined(p.unit, Joined(p.softskill, p.version)))
  }

  /** The comment for a perfect name: its components, and the iteration when there is one. */
  function PerfectComment(p: NameParts): (r: string)
    ensures StartsWith(r, "Perfect file naming! Format: " + Core(p))
  {
    match IterationDigits(p.iteration)
      case Some(d) => "Perfect file naming! Format: " + Core(p) + " with iteration " + d + "."
      case None => "Perfect file naming! Format: " + Core(p) + "."
  }
}
