/**
 * The older `LessonRubric` of `prof/tools/assignments/lessonRubric_template.py`:
 * an ordered dict of criteria, the `SCORE_LEVELS` bands, points per
 * criterion, the total rounded up to the tenth, and the percentage-change
 * handler. The ordered dict is a sequence of names (insertion order) beside a
 * map from name to criterion; the Maya widgets are reduced to the key set of
 * `ui_elements` and to the value read from a percentage field.
 *
 * As written, `_on_percentage_change` returns at once unless the bare
 * criterion name is a key of `ui_elements`, whose keys are "window",
 * "total_score" and "<name>_percentage" / "<name>_points"; so a change to an
 * ordinary criterion is ignored. `OnPercentageChangeAsWritten` models that and
 * `OnPercentageChange` tests the "<name>_percentage" key it goes on to use.
 */
module RubricLegacy {
  import opened Wrappers
  import opened PyText
  import opened RubricCommon

  /** `SCORE_LEVELS`: each level with its inclusive percentage range, in order. */
  datatype Band = Band(level: Level, lo: int, hi: int) {
    predicate Holds(p: real) { lo as real <= p <= hi as real }
  }

  const Bands: seq<Band> :=
    [Band(NoMarks, 0, 5), Band(LowMarks, 6, 15), Band(PartialMarks, 16, 45), Band(HighMarks, 46, 75), Band(FullMarks, 76, 100)]

  /** The level of the first band holding `p`, if any. */
  function FirstBand(bands: seq<Band>, p: real): (r: Option<Level>)
    ensures r.None? <==> forall k :: 0 <= k < |bands| ==> !bands[k].Holds(p)
    ensures r.Some? ==> exists k :: 0 <= k < |bands| && bands[k].Holds(p) && bands[k].level == r.value
  {
    if bands == [] then None
    else if bands[0].Holds(p) then Some(bands[0].level)
    else
      var r := FirstBand(bands[1..], p);
      assert forall k :: 1 <= k < |bands| ==> bands[k] == bands[1..][k - 1];
      r
  }

  /** `_get_score_level_for_percentage`: the first band holding the percentage, else No Marks. */
  function LevelFor(p: real): (l: Level)
    ensures l == FullMarks <==> 76.0 <= p <= 100.0
    ensures l == HighMarks <==> 46.0 <= p <= 75.0
    ensures l == PartialMarks <==> 16.0 <= p <= 45.0
    ensures l == LowMarks <==> 6.0 <= p <= 15.0
    ensures l == NoMarks <==> !(6.0 <= p <= 15.0 || 16.0 <= p <= 45.0 || 46.0 <= p <= 75.0 || 76.0 <= p <= 100.0)
  {
    assert Bands[0].Holds(p) <==> 0.0 <= p <= 5.0;
    assert Bands[1] == Band(LowMarks, 6, 15) && Bands[2] == Band(PartialMarks, 16, 45);
    assert Bands[3] == Band(HighMarks, 46, 75) && Bands[4] == Band(FullMarks, 76, 100);
    match FirstBand(Bands, p)
      case None => NoMarks
      case Some(l) => l
  }

  /** The bands leave gaps: 5.5 and 101 fall in none and get No Marks. */
  lemma BandGaps()
    ensures LevelFor(5.5) == NoMarks && LevelFor(15.5) == NoMarks && LevelFor(101.0) == NoMarks
    ensures LevelFor(-1.0) == NoMarks
  {
  }

  datatype Criterion = Criterion(pointValue: real, description: string, percentage: real, score: real,
                                 comments: string, manualOverride: bool)

  /** `_calculate_criterion_score`: 0.0 for an unknown name. */
  function CriterionScore(criteria: map<string, Criterion>, name: string): (r: real)
    ensures name !in criteria ==> r == 0.0
    ensures name in criteria ==> r == Points(criteria[name].percentage, criteria[name].pointValue)
  {
    if name in criteria then Points(criteria[name].percentage, criteria[name].pointValue) else 0.0
  }

  /** `_generate_comments`: the fixed text of the level, prefixed for an empty scene; "" for an unknown name. */
  function GenerateComments(criteria: map<string, Criterion>, isEmptyFile: bool, name: string): (r: string)
    ensures name !in criteria ==> r == ""
    ensures name in criteria ==> r == GenericComment(LevelFor(criteria[name].percentage), isEmptyFile)
  {
    if name in criteria then GenericComment(LevelFor(criteria[name].percentage), isEmptyFile) else ""
  }

  /** What a criterion adds to the total: its stored score when overridden, its computed points otherwise. */
  function Contribution(c: Criterion): real {
    if c.manualOverride then c.score else Points(c.percentage, c.pointValue)
  }

  /** The sum of the contributions of the named criteria, in order. */
  function Sum(names: seq<string>, criteria: map<string, Criterion>): real
    requires forall n :: n in names ==> n in criteria
  {
    if names == [] then 0.0
    else Sum(names[..|names| - 1], criteria) + Contribution(criteria[names[|names| - 1]])
  }

  /** Criteria that are not overridden contribute exactly their points, so the sum only moves with them. */
  lemma {:induction false} SumWithoutOverrides(names: seq<string>, criteria: map<string, Criterion>)
    requires forall n :: n in names ==> n in criteria && !criteria[n].manualOverride
    ensures Sum(names, criteria) == SumOfPoints(names, criteria)
  {
    if names != [] {
      SumWithoutOverrides(names[..|names| - 1], criteria);
    }
  }

  function SumOfPoints(names: seq<string>, criteria: map<string, Criterion>): real
    requires forall n :: n in names ==> n in criteria
  {
    if names == [] then 0.0
    else SumOfPoints(names[..|names| - 1], criteria) + CriterionScore(criteria, names[|names| - 1])
  }

  /** `max(0, min(100, v))`. */
  function Clamp(v: int): (r: int)
    ensures 0 <= r <= 100
    ensures 0 <= v <= 100 ==> r == v
  {
    if v < 0 then 0 else if v > 100 then 100 else v
  }

  /** The keys `_create_rubric_window` puts in `ui_elements` for the shown criteria. */
  function UiKeys(names: seq<string>): set<string> {
    {"window", "total_score"} + (set n | n in names :: n + "_percentage") + (set n | n in names :: n + "_points")
  }

  /** Whether the handler gets past its guards, as written: the bare name must be a key, then "<name>_percentage". */
  predicate ProceedsAsWritten(ui: set<string>, name: string) {
    name in ui && name + "_percentage" in ui
  }

  /** Whether the handler gets past its guard when it tests the key it then reads. */
  predicate Proceeds(ui: set<string>, name: string) {
    name + "_percentage" in ui
  }

  /** A criterion after a percentage change: the clamped value and the comments of its level. */
  function Changed(c: Criterion, isEmptyFile: bool, fieldValue: int): (r: Criterion)
    ensures 0.0 <= r.percentage <= 100.0
    ensures r.comments == GenericComment(LevelFor(r.percentage), isEmptyFile)
    ensures r.pointValue == c.pointValue && r.score == c.score && r.manualOverride == c.manualOverride
  {
    var p := Clamp(fieldValue) as real;
    c.(percentage := p, comments := GenericComment(LevelFor(p), isEmptyFile))
  }

  lemma SuffixCancels(a: string, b: string, suffix: string)
    requires a + suffix == b + suffix
    ensures a == b
  {
    assert a == (a + suffix)[..|a|];
    assert b == (b + suffix)[..|b|];
  }

  /**
   * As written, a shown criterion whose name is not itself one of the keys
   * is never updated, although the corrected guard lets the change through.
   */
  lemma {:induction false} ChangeIgnoredAsWritten(names: seq<string>, name: string)
    requires name in names && name != "window" && name != "total_score"
    requires forall n :: n in names ==> name != n + "_percentage" && name != n + "_points"
    ensures !ProceedsAsWritten(UiKeys(names), name)
    ensures Proceeds(UiKeys(names), name)
  {
  }

  /** A percentage key is neither a fixed key nor a points key. */
  lemma PercentageKeyIsNoOtherKey(name: string)
    ensures name + "_percentage" != "window" && name + "_percentage" != "total_score"
    ensures forall n :: name + "_percentage" != n + "_points"
  {
    var key := name + "_percentage";
    assert key[|name|] == '_' && key[|key| - 1] == 'e';
    forall n ensures key != n + "_points" {
      var other := n + "_points";
      assert other[|other| - 1] == 's';
    }
  }

  /** With the corrected guard, the shown criteria are exactly the names that proceed. */
  lemma ProceedsExactlyForShown(names: seq<string>, name: string)
    ensures Proceeds(UiKeys(names), name) <==> name in names
  {
    if Proceeds(UiKeys(names), name) {
      PercentageKeyIsNoOtherKey(name);
      var n :| n in names && n + "_percentage" == name + "_percentage";
      SuffixCancels(n, name, "_percentage");
    }
  }

  /** A concrete case: with one criterion "Modeling" shown, a change to it is dropped as written. */
  lemma ModelingChangeDropped()
    ensures !ProceedsAsWritten(UiKeys(["Modeling"]), "Modeling")
    ensures Proceeds(UiKeys(["Modeling"]), "Modeling")
  {
    var names := ["Modeling"];
    assert |"Modeling"| < |"Modeling" + "_percentage"| && |"Modeling"| < |"Modeling" + "_points"|;
    ChangeIgnoredAsWritten(names, "Modeling");
  }

  class LessonRubric {
    /** The keys of `criteria`, in insertion order. */
    var names: seq<string>
    var criteria: map<string, Criterion>
    var isEmptyFile: bool
    /** The keys of `ui_elements`. */
    var uiElements: set<string>

    ghost predicate Valid()
      reads this
    {
      (forall n :: n in names <==> n in criteria)
      && forall i, j :: 0 <= i < j < |names| ==> names[i] != names[j]
    }

    /** `__init__`; `scene` is what the DAG query returned, None without Maya or on failure. */
    constructor(scene: Option<seq<string>>)
      ensures Valid() && names == [] && criteria == map[] && uiElements == {}
      ensures isEmptyFile == IsEmptyFile(scene)
    {
      names := [];
      criteria := map[];
      uiElements := {};
      isEmptyFile := IsEmptyFile(scene);
    }

    /** `add_criterion`: a new name goes last; re-adding a name replaces its entry in place. */
    method AddCriterion(name: string, pointValue: real, description: string)
      requires Valid()
      modifies this
      ensures Valid()
      ensures criteria == old(criteria)[name := Criterion(pointValue, description,
                                                          if isEmptyFile then 10.0 else 85.0, 0.0, "", false)]
      ensures names == if name in old(criteria) then old(names) else old(names) + [name]
      ensures isEmptyFile == old(isEmptyFile) && uiElements == old(uiElements)
    {
      if name !in criteria {
        names := names + [name];
      }
      criteria := criteria[name := Criterion(pointValue, description, if isEmptyFile then 10.0 else 85.0, 0.0, "", false)];
    }

    /** `calculate_total_score`: the contributions summed in order, rounded up to the tenth. */
    method CalculateTotalScore() returns (total: real)
      requires Valid()
      ensures total == CeilTenth(Sum(names, criteria))
      ensures Sum(names, criteria) <= total < Sum(names, criteria) + 0.1
    {
      var acc := 0.0;
      var i := 0;
      while i < |names|
        invariant 0 <= i <= |names|
        invariant acc == Sum(names[..i], criteria)
      {
        assert names[..i + 1][..i] == names[..i];
        var c := criteria[names[i]];
        if c.manualOverride {
          acc := acc + c.score;
        } else {
          acc := acc + CriterionScore(criteria, names[i]);
        }
        i := i + 1;
      }
      assert names[..i] == names;
      total := CeilTenth(acc);
    }

    /** The widget keys `_create_rubric_window` registers. */
    method ShowRubricUi()
      modifies this
      ensures uiElements == UiKeys(names)
      ensures names == old(names) && criteria == old(criteria) && isEmptyFile == old(isEmptyFile)
    {
      uiElements := UiKeys(names);
    }

    /** `_on_percentage_change(name)` as written, the field holding `fieldValue`. */
    method OnPercentageChangeAsWritten(name: string, fieldValue: int)
      modifies this
      ensures ProceedsAsWritten(old(uiElements), name) && name in old(criteria) ==>
        criteria == old(criteria)[name := Changed(old(criteria)[name], isEmptyFile, fieldValue)]
      ensures !(ProceedsAsWritten(old(uiElements), name) && name in old(criteria)) ==> criteria == old(criteria)
      ensures names == old(names) && isEmptyFile == old(isEmptyFile) && uiElements == old(uiElements)
    {
      if name !in uiElements {
        return;
      }
      if name + "_percentage" !in uiElements || name !in criteria {
        return;
      }
      criteria := criteria[name := Changed(criteria[name], isEmptyFile, fieldValue)];
    }

    /** `_on_percentage_change(name)` guarded by the key it reads. */
    method OnPercentageChange(name: string, fieldValue: int)
      modifies this
      ensures Proceeds(old(uiElements), name) && name in old(criteria) ==>
        criteria == old(criteria)[name := Changed(old(criteria)[name], isEmptyFile, fieldValue)]
      ensures !(Proceeds(old(uiElements), name) && name in old(criteria)) ==> criteria == old(criteria)
      ensures names == old(names) && isEmptyFile == old(isEmptyFile) && uiElements == old(uiElements)
    {
      if name + "_percentage" !in uiElements || name !in criteria {
        return;
      }
      criteria := criteria[name := Changed(criteria[name], isEmptyFile, fieldValue)];
    }
  }
}
