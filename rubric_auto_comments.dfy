/**
 * Comment selection of the auto-grader `LessonRubric`
 * (`prof/tools/auto_grader/assignments/lessonRubric_template.py`): the level of
 * a percentage, a criterion's own performance comments keyed by score or by
 * level name, the generic fallback, and how validation comments and
 * performance comments are combined.
 */
module RubricAutoComments {
  import opened Wrappers
  import opened PyText
  import opened PyValue
  import opened RubricCommon

  /** `_get_score_level_for_percentage`: the level of `int(p)`. */
  function LevelFor(p: real): (l: Level)
    ensures l == FullMarks <==> 100.0 <= p < 101.0
    ensures l == HighMarks <==> 85.0 <= p < 100.0
    ensures l == PartialMarks <==> 70.0 <= p < 85.0
    ensures l == LowMarks <==> 1.0 <= p < 70.0
    ensures l == NoMarks <==> p < 1.0 || 101.0 <= p
  {
    var q := Trunc(p);
    if q == 0 then NoMarks
    else if 1 <= q <= 69 then LowMarks
    else if 70 <= q <= 84 then PartialMarks
    else if 85 <= q <= 99 then HighMarks
    else if q == 100 then FullMarks
    else NoMarks
  }

  /** A key of `general_performance_comments`: a number, a level name, or anything else. */
  datatype Key = NumKey(k: real) | NameKey(name: string) | OtherKey

  /** One item of a criterion's performance-comment dict, in insertion order. */
  datatype Entry = Entry(key: Key, comment: string)

  function Abs(x: real): real { if x < 0.0 then -x else x }

  /** `percentage in comments` and the comment stored under it. */
  function ExactComment(pc: seq<Entry>, p: real): (r: Option<string>)
    ensures r.None? <==> forall i :: 0 <= i < |pc| ==> pc[i].key != NumKey(p)
    ensures r.Some? ==> exists i :: 0 <= i < |pc| && pc[i] == Entry(NumKey(p), r.value)
  {
    if pc == [] then None
    else if pc[0].key == NumKey(p) then Some(pc[0].comment)
    else
      var r := ExactComment(pc[1..], p);
      assert forall i :: 1 <= i < |pc| ==> pc[i] == pc[1..][i - 1];
      r
  }

  /** Whether an entry is a level-name key naming the level of `p`. */
  predicate NamesLevel(e: Entry, p: real) {
    e.key.NameKey? && e.key.name == LevelName(LevelFor(p))
  }

  /**
   * The closest-match loop from a given state: the best difference so far
   * (None standing for `float('inf')`) and the best comment so far. A
   * numeric key replaces the best only when strictly closer; a level-name key
   * naming the level of `p` ends the loop with its comment.
   */
  function Scan(pc: seq<Entry>, p: real, bestDiff: Option<real>, bestMatch: Option<string>): Option<string>
    decreases |pc|
  {
    if pc == [] then bestMatch
    else if pc[0].key.NumKey? then
      var diff := Abs(p - pc[0].key.k);
      if bestDiff.None? || diff < bestDiff.value then Scan(pc[1..], p, Some(diff), Some(pc[0].comment))
      else Scan(pc[1..], p, bestDiff, bestMatch)
    else if NamesLevel(pc[0], p) then Some(pc[0].comment)
    else Scan(pc[1..], p, bestDiff, bestMatch)
  }

  /** `best_match` after the loop. */
  function Closest(pc: seq<Entry>, p: real): Option<string> {
    Scan(pc, p, None, None)
  }

  /** The loop of `_generate_performance_level_comments` that looks for the closest key. */
  method ClosestComment(pc: seq<Entry>, p: real) returns (best: Option<string>)
    ensures best == Closest(pc, p)
  {
    var bestDiff: Option<real> := None;
    best := None;
    var i := 0;
    while i < |pc|
      invariant 0 <= i <= |pc|
      invariant Scan(pc[i..], p, bestDiff, best) == Closest(pc, p)
    {
      assert pc[i..][1..] == pc[i + 1..];
      var e := pc[i];
      match e.key {
        case NumKey(k) =>
          var diff := Abs(p - k);
          if bestDiff.None? || diff < bestDiff.value {
            bestDiff := Some(diff);
            best := Some(e.comment);
          }
        case NameKey(name) =>
          if name == LevelName(LevelFor(p)) {
            best := Some(e.comment);
            return;
          }
        case OtherKey =>
      }
      i := i + 1;
    }
  }

  /**
   * Entry `i` is a numeric entry at distance `d` from `p` with comment `c`,
   * and every numeric entry before it is strictly farther.
   */
  predicate FirstAtDistance(pc: seq<Entry>, p: real, i: int, d: real, c: string) {
    0 <= i < |pc| && pc[i].key.NumKey? && pc[i].comment == c && Abs(p - pc[i].key.k) == d
    && forall j :: 0 <= j < i && pc[j].key.NumKey? ==> d < Abs(p - pc[j].key.k)
  }

  /**
   * An independent reference for the numeric part: the numeric entry whose key
   * is nearest to `p`, the earliest one on ties, with its distance.
   */
  function Nearest(pc: seq<Entry>, p: real): (r: Option<(real, string)>)
    ensures r.None? <==> forall j :: 0 <= j < |pc| ==> !pc[j].key.NumKey?
    ensures r.Some? ==> exists i :: FirstAtDistance(pc, p, i, r.value.0, r.value.1)
    ensures r.Some? ==> forall j :: 0 <= j < |pc| && pc[j].key.NumKey? ==> r.value.0 <= Abs(p - pc[j].key.k)
  {
    if pc == [] then None
    else
      var rest := Nearest(pc[1..], p);
      assert forall j :: 1 <= j < |pc| ==> pc[j] == pc[1..][j - 1];
      if pc[0].key.NumKey? && (rest.None? || Abs(p - pc[0].key.k) <= rest.value.0) then
        assert FirstAtDistance(pc, p, 0, Abs(p - pc[0].key.k), pc[0].comment);
        Some((Abs(p - pc[0].key.k), pc[0].comment))
      else if rest.Some? then
        var i :| FirstAtDistance(pc[1..], p, i, rest.value.0, rest.value.1);
        assert FirstAtDistance(pc, p, i + 1, rest.value.0, rest.value.1);
        rest
      else rest
  }

  /** Without a matching level-name key, the loop ends on the nearest numeric key, if it beats the best so far. */
  lemma {:induction false} ScanIsNearest(pc: seq<Entry>, p: real, bestDiff: Option<real>, bestMatch: Option<string>)
    requires forall j :: 0 <= j < |pc| ==> !NamesLevel(pc[j], p)
    ensures var n := Nearest(pc, p);
      Scan(pc, p, bestDiff, bestMatch)
      == if n.Some? && (bestDiff.None? || n.value.0 < bestDiff.value) then Some(n.value.1) else bestMatch
    decreases |pc|
  {
    if pc != [] {
      assert forall j :: 1 <= j < |pc| ==> pc[j] == pc[1..][j - 1];
      if pc[0].key.NumKey? {
        var diff := Abs(p - pc[0].key.k);
        if bestDiff.None? || diff < bestDiff.value {
          ScanIsNearest(pc[1..], p, Some(diff), Some(pc[0].comment));
        } else {
          ScanIsNearest(pc[1..], p, bestDiff, bestMatch);
        }
      } else {
        ScanIsNearest(pc[1..], p, bestDiff, bestMatch);
      }
    }
  }

  /** Without a matching level-name key, `best_match` is the comment of the nearest numeric key (first on ties). */
  lemma ClosestIsNearest(pc: seq<Entry>, p: real)
    requires forall j :: 0 <= j < |pc| ==> !NamesLevel(pc[j], p)
    ensures Closest(pc, p).None? <==> forall j :: 0 <= j < |pc| ==> !pc[j].key.NumKey?
    ensures Closest(pc, p).Some? ==> Closest(pc, p).value == Nearest(pc, p).value.1
  {
    ScanIsNearest(pc, p, None, None);
  }

  /** A key naming the level of `p` wins, whatever numeric keys come before it. */
  lemma {:induction false} ScanStopsAtLevelName(pc: seq<Entry>, p: real, m: nat, bestDiff: Option<real>, bestMatch: Option<string>)
    requires m < |pc| && NamesLevel(pc[m], p)
    requires forall j :: 0 <= j < m ==> !NamesLevel(pc[j], p)
    ensures Scan(pc, p, bestDiff, bestMatch) == Some(pc[m].comment)
    decreases |pc|
  {
    if m > 0 {
      assert forall j :: 1 <= j < |pc| ==> pc[j] == pc[1..][j - 1];
      if pc[0].key.NumKey? {
        var diff := Abs(p - pc[0].key.k);
        if bestDiff.None? || diff < bestDiff.value {
          ScanStopsAtLevelName(pc[1..], p, m - 1, Some(diff), Some(pc[0].comment));
        } else {
          ScanStopsAtLevelName(pc[1..], p, m - 1, bestDiff, bestMatch);
        }
      } else {
        ScanStopsAtLevelName(pc[1..], p, m - 1, bestDiff, bestMatch);
      }
    }
  }

  /** `_get_generic_performance_comment`. */
  function GenericPerformanceComment(p: real, isEmptyFile: bool): (r: string)
    ensures r == GenericComment(LevelFor(p), isEmptyFile)
    ensures r != ""
  {
    GenericComment(LevelFor(p), isEmptyFile)
  }

  /** The lowered empty-file prefix starts with "empty". */
  lemma PrefixedMentionsEmpty(x: string)
    ensures Contains(Lower(EmptyPrefix + x), "empty")
  {
    var l := Lower(EmptyPrefix + x);
    assert l[0] == 'e' && l[1] == 'm' && l[2] == 'p' && l[3] == 't' && l[4] == 'y';
    assert l[0..5] == "empty";
    assert OccursAt(l, "empty", 0);
  }

  /**
   * `_generate_performance_level_comments` for a known criterion: without
   * own comments, the generic one; otherwise the exact key, else the closest
   * match when it is non-empty, else the generic one, prefixed for an empty
   * scene unless it already mentions "empty".
   */
  function PerformanceComment(pc: seq<Entry>, isEmptyFile: bool, p: real): (r: string)
    ensures isEmptyFile ==> Contains(Lower(r), "empty")
    ensures pc == [] ==> r == GenericPerformanceComment(p, isEmptyFile)
    ensures !isEmptyFile && ExactComment(pc, p).Some? ==> r == ExactComment(pc, p).value
    ensures !isEmptyFile && pc != [] && ExactComment(pc, p).None? ==>
      (Closest(pc, p).Some? && Closest(pc, p).value != "" ==> r == Closest(pc, p).value)
  {
    if pc == [] then
      if isEmptyFile then PrefixedMentionsEmpty(LevelComment(LevelFor(p))); GenericPerformanceComment(p, isEmptyFile)
      else GenericPerformanceComment(p, isEmptyFile)
    else
      var exact := ExactComment(pc, p);
      var best := Closest(pc, p);
      var comment :=
        if exact.Some? then exact.value
        else if best.Some? && best.value != "" then best.value
        else GenericPerformanceComment(p, isEmptyFile);
      if isEmptyFile && !Contains(Lower(comment), "empty") then
        PrefixedMentionsEmpty(comment); EmptyPrefix + comment
      else comment
  }

  const GenericPatterns: seq<string> :=
    ["auto-validation:", "manual evaluation required", "validation error:", "no validation function", "todo:", "implement"]

  /** `_is_generic_validation_comment`: empty, or mentions one of the placeholder phrases, case-insensitively. */
  predicate IsGenericValidationComment(comment: string) {
    comment == "" || exists k :: 0 <= k < |GenericPatterns| && Contains(Lower(comment), GenericPatterns[k])
  }

  /** The text `re_run_validations` writes for a bare score counts as generic. */
  lemma AutoValidationIsGeneric(rest: string)
    ensures IsGenericValidationComment("Auto-validation: " + rest)
  {
    var l := Lower("Auto-validation: " + rest);
    assert l[0] == 'a';
    assert l[0..16] == "auto-validation:";
    assert OccursAt(l, GenericPatterns[0], 0);
  }

  /** `validation_comments.strip() if validation_comments else ""`; None where `.strip()` raises. */
  function StripComments(v: Value): (r: Option<string>)
    ensures r.None? <==> Truthy(v) && !v.PyStr?
    ensures v.PyStr? ==> r == Some(Strip(v.s))
    ensures r.Some? ==> Strip(r.value) == r.value
  {
    if !Truthy(v) then (assert Strip("") == ""; Some(""))
    else if v.PyStr? then (StripIdempotent(v.s); Some(Strip(v.s)))
    else None
  }

  /**
   * `_create_enhanced_comments` once the validation text is stripped: at 100%
   * the performance comment; a generic validation text is replaced by the
   * performance comment; after a manual override both are joined; otherwise
   * the validation text.
   */
  function EnhancedText(performance: string, manualOverride: bool, p: real, validation: string): (r: string)
    ensures performance != "" && (p == 100.0 || IsGenericValidationComment(validation)) ==> r == performance
    ensures p != 100.0 && !IsGenericValidationComment(validation) ==> EndsWith(r, validation)
    ensures p != 100.0 && !IsGenericValidationComment(validation) && (!manualOverride || performance == "") ==>
      r == validation
    ensures p != 100.0 && !IsGenericValidationComment(validation) && manualOverride && performance != "" ==>
      StartsWith(r, performance + " | Details: ")
  {
    if p == 100.0 then (if performance != "" then performance else validation)
    else if IsGenericValidationComment(validation) then (if performance != "" then performance else validation)
    else if manualOverride && validation != "" && performance != "" then performance + " | Details: " + validation
    else if validation != "" then validation
    else performance
  }

  /** `_create_enhanced_comments` for a known criterion; None where stripping the validation comments raises. */
  function EnhancedComments(pc: seq<Entry>, isEmptyFile: bool, manualOverride: bool, p: real, validation: Value)
    : (r: Option<string>)
    ensures r.None? <==> StripComments(validation).None?
    ensures r.Some? ==> r.value == EnhancedText(PerformanceComment(pc, isEmptyFile, p), manualOverride, p,
                                                 StripComments(validation).value)
  {
    match StripComments(validation)
      case None => None
      case Some(v) => Some(EnhancedText(PerformanceComment(pc, isEmptyFile, p), manualOverride, p, v))
  }

  /**
   * `_generate_comments` for a known criterion: after a manual override, the
   * performance comment; otherwise the existing comments when they are not
   * blank, else the performance comment.
   */
  function GenerateComments(pc: seq<Entry>, isEmptyFile: bool, manualOverride: bool, p: real, existing: string)
    : (r: string)
    ensures !manualOverride && Strip(existing) != "" ==> r == Strip(existing)
    ensures manualOverride || Strip(existing) == "" ==> r == PerformanceComment(pc, isEmptyFile, p)
  {
    if manualOverride then PerformanceComment(pc, isEmptyFile, p)
    else if Strip(existing) != "" then Strip(existing)
    else PerformanceComment(pc, isEmptyFile, p)
  }
}
