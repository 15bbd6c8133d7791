/**
 * The criteria of the auto-grader `LessonRubric`
 * (`prof/tools/auto_grader/assignments/lessonRubric_template.py`): adding
 * criteria one at a time or in a batch, the total, re-running validation
 * functions, a manual percentage change and the full recalculation that
 * clears manual overrides.
 *
 * A validation function is not run here: what calling a criterion's function
 * with its stored arguments does in the current scene is the parameter
 * `run(name)`, an `Outcome` (the value returned, or that it raised).
 */
module RubricAuto {
  import opened Wrappers
  import opened PyText
  import opened PyValue
  import opened PyFloat
  import opened RubricCommon
  import opened RubricAutoComments

  /** What is stored as `validation_function`: none, a non-callable object, or a function. */
  datatype Validator = NoFunction | NotCallable(obj: Value) | Function

  /** `if validation_function:` */
  predicate Present(v: Validator) {
    match v
      case NoFunction => false
      case NotCallable(obj) => Truthy(obj)
      case Function => true
  }

  datatype Criterion = Criterion(
    pointValue: real,
    description: string,
    percentage: real,
    score: real,
    comments: string,
    manualOverride: bool,
    validator: Validator,
    validationArgs: seq<Value>,
    performanceComments: seq<Entry>,
    /** `validation_comments`; `""` until a validation stores one, which reads the same as the missing key. */
    validationComments: Value)

  /** The normalisation of `validation_args`: None becomes no arguments, a non-list one argument. */
  function NormaliseArgs(args: Value): (r: seq<Value>)
    ensures args.PyNone? ==> r == []
    ensures args.PyList? ==> r == args.items
    ensures !args.PyNone? && !args.PyList? ==> r == [args]
  {
    match args
      case PyNone => []
      case PyList(items) => items
      case _ => [args]
  }

  /** The entry `add_criterion` stores. */
  function NewCriterion(isEmptyFile: bool, pointValue: real, description: string, validator: Validator,
                        args: Value, performanceComments: seq<Entry>): (c: Criterion)
    ensures c.percentage == if isEmptyFile then 10.0 else 85.0
    ensures c.score == 0.0 && c.comments == "" && !c.manualOverride
    ensures c.validationArgs == NormaliseArgs(args)
  {
    Criterion(pointValue, description, if isEmptyFile then 10.0 else 85.0, 0.0, "", false,
              validator, NormaliseArgs(args), performanceComments, PyStr(""))
  }

  /** `_calculate_criterion_score`: 0.0 for an unknown name. */
  function CriterionScore(criteria: map<string, Criterion>, name: string): (r: real)
    ensures name !in criteria ==> r == 0.0
    ensures name in criteria ==> r == Points(criteria[name].percentage, criteria[name].pointValue)
  {
    if name in criteria then Points(criteria[name].percentage, criteria[name].pointValue) else 0.0
  }

  /** The computed points of the named criteria, in order; stored scores and overrides play no part. */
  function Sum(names: seq<string>, criteria: map<string, Criterion>): real {
    if names == [] then 0.0
    else Sum(names[..|names| - 1], criteria) + CriterionScore(criteria, names[|names| - 1])
  }

  /** Only percentages and point values enter the total. */
  lemma {:induction false} SumIgnoresScores(names: seq<string>, a: map<string, Criterion>, b: map<string, Criterion>)
    requires forall n :: n in names ==> (n in a <==> n in b)
    requires forall n :: n in names && n in a ==>
      a[n].percentage == b[n].percentage && a[n].pointValue == b[n].pointValue
    ensures Sum(names, a) == Sum(names, b)
  {
    if names != [] {
      SumIgnoresScores(names[..|names| - 1], a, b);
    }
  }

  // ---------------------------------------------------------------------------
  // re_run_validations, for one criterion
  // ---------------------------------------------------------------------------

  /** "Auto-validation: <score>%". */
  function AutoComment(score: Value): string {
    "Auto-validation: " + StrOf(score) + "%"
  }

  /**
   * The (score, comments) pair read from what a validation function returned:
   * a tuple of two or more, a bare number, or a dict with `score`,
   * `percentage` (default 85) and `comments`; None for any other type.
   */
  function ScoreAndComments(result: Value): (r: Option<(Value, Value)>)
    ensures r.None? <==> !(result.PyTuple? && |result.elems| >= 2) && !IsNumber(result) && !result.PyDict?
    ensures IsNumber(result) ==> r == Some((result, PyStr(AutoComment(result))))
  {
    if result.PyTuple? && |result.elems| >= 2 then Some((result.elems[0], result.elems[1]))
    else if IsNumber(result) then Some((result, PyStr(AutoComment(result))))
    else if result.PyDict? then
      var score := Get(result.entries, "score", Get(result.entries, "percentage", PyInt(85)));
      Some((score, Get(result.entries, "comments", PyStr(AutoComment(score)))))
    else None
  }

  /** A score `re_run_validations` accepts: a number within [0, 100]. */
  predicate AcceptedScore(score: Value) {
    IsNumber(score) && 0.0 <= NumOf(score) <= 100.0
  }

  /**
   * The body of the `re_run_validations` loop for one criterion: the
   * criterion as updated, or None when it is skipped (manual override, no
   * callable function, a raise, an unexpected type, a score out of range).
   */
  function ReRunOne(c: Criterion, isEmptyFile: bool, o: Outcome): (r: Option<Criterion>)
    ensures c.manualOverride || !c.validator.Function? || o.Raised? ==> r.None?
    ensures r.Some? ==> 0.0 <= r.value.percentage <= 100.0 && !r.value.manualOverride
    ensures r.Some? ==> r.value == c.(percentage := r.value.percentage, comments := r.value.comments,
                                      validationComments := r.value.validationComments)
    ensures r.Some? ==> o.Returned? && ScoreAndComments(o.value).Some?
                        && r.value.validationComments == PyStr(StrOf(ScoreAndComments(o.value).value.1))
  {
    if c.manualOverride || !c.validator.Function? || o.Raised? then None
    else
      match ScoreAndComments(o.value)
        case None => None
        case Some(sc) =>
          if !AcceptedScore(sc.0) then None
          else
            var p := NumOf(sc.0);
            var text := StrOf(sc.1);
            Some(c.(percentage := p, validationComments := PyStr(text),
                    comments := EnhancedText(PerformanceComment(c.performanceComments, isEmptyFile, p), false, p,
                                             Strip(text))))
  }

  /** The comments of an updated criterion: the validation text, enhanced as `_create_enhanced_comments` says. */
  lemma ReRunComments(c: Criterion, isEmptyFile: bool, o: Outcome)
    requires ReRunOne(c, isEmptyFile, o).Some?
    ensures var u := ReRunOne(c, isEmptyFile, o).value;
      u.comments == EnhancedText(PerformanceComment(c.performanceComments, isEmptyFile, u.percentage), false,
                                 u.percentage, Strip(u.validationComments.s))
  {
  }

  /** A criterion after the `re_run_validations` loop body: updated, or as it was. */
  function ReRun(c: Criterion, isEmptyFile: bool, o: Outcome): (r: Criterion)
    ensures c.manualOverride ==> r == c
    ensures r.pointValue == c.pointValue && r.manualOverride == c.manualOverride
  {
    match ReRunOne(c, isEmptyFile, o)
      case Some(u) => u
      case None => c
  }

  /** How many of the named criteria `re_run_validations` updates. */
  function ReRunCount(names: seq<string>, criteria: map<string, Criterion>, isEmptyFile: bool, run: string -> Outcome)
    : (r: nat)
    requires forall n :: n in names ==> n in criteria
    ensures r <= |names|
  {
    if names == [] then 0
    else
      var n := names[|names| - 1];
      ReRunCount(names[..|names| - 1], criteria, isEmptyFile, run)
      + if ReRunOne(criteria[n], isEmptyFile, run(n)).Some? then 1 else 0
  }

  /** How many of the named criteria `_recalculate_all_criteria` recalculates. */
  function RecalcCount(names: seq<string>, criteria: map<string, Criterion>, isEmptyFile: bool, run: string -> Outcome)
    : (r: nat)
    requires forall n :: n in names ==> n in criteria
    ensures r <= |names|
  {
    if names == [] then 0
    else
      var n := names[|names| - 1];
      RecalcCount(names[..|names| - 1], criteria, isEmptyFile, run)
      + if RecalcOne(criteria[n], isEmptyFile, run(n)).1 then 1 else 0
  }

  /** One more criterion visited adds one to the count when it is updated. */
  lemma ReRunCountStep(names: seq<string>, i: nat, criteria: map<string, Criterion>, isEmptyFile: bool,
                       run: string -> Outcome)
    requires i < |names| && forall n :: n in names ==> n in criteria
    ensures ReRunCount(names[..i + 1], criteria, isEmptyFile, run)
         == ReRunCount(names[..i], criteria, isEmptyFile, run)
            + if ReRunOne(criteria[names[i]], isEmptyFile, run(names[i])).Some? then 1 else 0
  {
    assert names[..i + 1][..i] == names[..i];
  }

  /** The criteria after the `re_run_validations` loop has visited `names`, in order. */
  function ReRunAll(names: seq<string>, criteria: map<string, Criterion>, isEmptyFile: bool, run: string -> Outcome)
    : (r: map<string, Criterion>)
    requires forall n :: n in names ==> n in criteria
    ensures forall n :: n in r <==> n in criteria
  {
    if names == [] then criteria
    else
      var m := ReRunAll(names[..|names| - 1], criteria, isEmptyFile, run);
      var n := names[|names| - 1];
      m[n := ReRun(m[n], isEmptyFile, run(n))]
  }

  /** One more criterion visited is updated from its value so far. */
  lemma ReRunAllStep(names: seq<string>, i: nat, criteria: map<string, Criterion>, isEmptyFile: bool,
                     run: string -> Outcome)
    requires i < |names| && forall n :: n in names ==> n in criteria
    ensures var m := ReRunAll(names[..i], criteria, isEmptyFile, run);
      ReRunAll(names[..i + 1], criteria, isEmptyFile, run) == m[names[i] := ReRun(m[names[i]], isEmptyFile, run(names[i]))]
  {
    assert names[..i + 1][..i] == names[..i];
  }

  /** Visiting distinct names updates each of them once, from its value before the loop. */
  lemma {:induction false} ReRunAllPointwise(names: seq<string>, criteria: map<string, Criterion>, isEmptyFile: bool,
                                             run: string -> Outcome, n: string)
    requires forall k :: k in names ==> k in criteria
    requires forall i, j :: 0 <= i < j < |names| ==> names[i] != names[j]
    requires n in criteria
    ensures ReRunAll(names, criteria, isEmptyFile, run)[n]
         == if n in names then ReRun(criteria[n], isEmptyFile, run(n)) else criteria[n]
  {
    if names != [] {
      var init := names[..|names| - 1];
      var last := names[|names| - 1];
      ReRunAllPointwise(init, criteria, isEmptyFile, run, n);
      ReRunAllPointwise(init, criteria, isEmptyFile, run, last);
      assert forall i :: 0 <= i < |init| ==> init[i] == names[i];
      assert n in names <==> n in init || n == last;
    }
  }

  /** The criteria after the `_recalculate_all_criteria` loop has visited `names`, in order. */
  function RecalcAll(names: seq<string>, criteria: map<string, Criterion>, isEmptyFile: bool, run: string -> Outcome)
    : (r: map<string, Criterion>)
    requires forall n :: n in names ==> n in criteria
    ensures forall n :: n in r <==> n in criteria
  {
    if names == [] then criteria
    else
      var m := RecalcAll(names[..|names| - 1], criteria, isEmptyFile, run);
      var n := names[|names| - 1];
      m[n := RecalcOne(m[n], isEmptyFile, run(n)).0]
  }

  /** Visiting distinct names recalculates each of them once, from its value before the loop. */
  lemma {:induction false} RecalcAllPointwise(names: seq<string>, criteria: map<string, Criterion>, isEmptyFile: bool,
                                              run: string -> Outcome, n: string)
    requires forall k :: k in names ==> k in criteria
    requires forall i, j :: 0 <= i < j < |names| ==> names[i] != names[j]
    requires n in criteria
    ensures RecalcAll(names, criteria, isEmptyFile, run)[n]
         == if n in names then RecalcOne(criteria[n], isEmptyFile, run(n)).0 else criteria[n]
  {
    if names != [] {
      var init := names[..|names| - 1];
      var last := names[|names| - 1];
      RecalcAllPointwise(init, criteria, isEmptyFile, run, n);
      RecalcAllPointwise(init, criteria, isEmptyFile, run, last);
      assert forall i :: 0 <= i < |init| ==> init[i] == names[i];
      assert n in names <==> n in init || n == last;
    }
  }

  /**
   * The loop of `re_run_validations` visiting its `i`-th name: the name has
   * not been visited yet, so it is updated from its value before the loop.
   */
  lemma ReRunVisit(names: seq<string>, i: nat, start: map<string, Criterion>, isEmptyFile: bool,
                   run: string -> Outcome)
    requires i < |names| && (forall n :: n in names <==> n in start)
    requires forall p, q :: 0 <= p < q < |names| ==> names[p] != names[q]
    ensures var m := ReRunAll(names[..i], start, isEmptyFile, run);
      && names[i] in m && m[names[i]] == start[names[i]]
      && ReRunAll(names[..i + 1], start, isEmptyFile, run) == m[names[i] := ReRun(m[names[i]], isEmptyFile, run(names[i]))]
      && ReRunCount(names[..i + 1], start, isEmptyFile, run)
         == ReRunCount(names[..i], start, isEmptyFile, run)
            + if ReRunOne(m[names[i]], isEmptyFile, run(names[i])).Some? then 1 else 0
  {
    assert names[i] !in names[..i];
    ReRunAllPointwise(names[..i], start, isEmptyFile, run, names[i]);
    ReRunCountStep(names, i, start, isEmptyFile, run);
    ReRunAllStep(names, i, start, isEmptyFile, run);
  }

  /**
   * The loop of `_recalculate_all_criteria` visiting its `i`-th name: it is
   * recalculated from its value before the loop, and counted when that succeeds.
   */
  lemma RecalcVisit(names: seq<string>, i: nat, start: map<string, Criterion>, isEmptyFile: bool,
                    run: string -> Outcome)
    requires i < |names| && (forall n :: n in names <==> n in start)
    requires forall p, q :: 0 <= p < q < |names| ==> names[p] != names[q]
    ensures var m := RecalcAll(names[..i], start, isEmptyFile, run);
      && names[i] in m && m[names[i]] == start[names[i]]
      && RecalcAll(names[..i + 1], start, isEmptyFile, run) == m[names[i] := RecalcOne(m[names[i]], isEmptyFile, run(names[i])).0]
      && RecalcCount(names[..i + 1], start, isEmptyFile, run)
         == RecalcCount(names[..i], start, isEmptyFile, run)
            + if RecalcOne(m[names[i]], isEmptyFile, run(names[i])).1 then 1 else 0
  {
    assert names[..i + 1][..i] == names[..i] && names[..i + 1][i] == names[i];
    assert names[i] !in names[..i];
    RecalcAllPointwise(names[..i], start, isEmptyFile, run, names[i]);
  }

  /** A function returning a number within range always updates a criterion that is not overridden. */
  lemma ReRunAcceptsNumber(c: Criterion, isEmptyFile: bool, v: Value)
    requires !c.manualOverride && c.validator.Function?
    requires IsNumber(v) && 0.0 <= NumOf(v) <= 100.0
    ensures ReRunOne(c, isEmptyFile, Returned(v)).Some?
    ensures ReRunOne(c, isEmptyFile, Returned(v)).value.percentage == NumOf(v)
    ensures ReRunOne(c, isEmptyFile, Returned(v)).value.validationComments == PyStr(AutoComment(v))
    ensures IsGenericValidationComment(AutoComment(v))
  {
    var text := AutoComment(v);
    assert ScoreAndComments(v) == Some((v, PyStr(text)));
    assert AcceptedScore(v) && StrOf(PyStr(text)) == text;
    assert text == "Auto-validation: " + (StrOf(v) + "%");
    AutoValidationIsGeneric(StrOf(v) + "%");
  }

  /** The comment shows the score as `str` spells it. */
  lemma AutoCommentText(v: Value, t: string)
    requires StrOf(v) == t
    ensures AutoComment(v) == "Auto-validation: " + t + "%"
  {
  }

  /** A float score with a fraction is shown with its fraction: "Auto-validation: 92.5%". */
  lemma AutoCommentFraction()
    ensures AutoComment(PyFloat(92.5)) == "Auto-validation: 92.5%"
  {
    StrOfNumber(PyFloat(92.5));
    FractionSample();
    AutoCommentText(PyFloat(92.5), "92.5");
  }

  /** A whole float score keeps its ".0": "Auto-validation: 85.0%". */
  lemma AutoCommentWholeFloat()
    ensures AutoComment(PyFloat(85.0)) == "Auto-validation: 85.0%"
  {
    StrOfNumber(PyFloat(85.0));
    WholeSample();
    AutoCommentText(PyFloat(85.0), "85.0");
  }

  /** An int score is shown as its digits: "Auto-validation: 85%". */
  lemma AutoCommentInt()
    ensures AutoComment(PyInt(85)) == "Auto-validation: 85%"
  {
    StrOfNumber(PyInt(85));
    assert IntToString(85) == "85";
    AutoCommentText(PyInt(85), "85");
  }

  /** A number out of range is discarded. */
  lemma ReRunRejectsOutOfRange(c: Criterion, isEmptyFile: bool, v: Value)
    requires IsNumber(v) && (NumOf(v) < 0.0 || 100.0 < NumOf(v))
    ensures ReRunOne(c, isEmptyFile, Returned(v)).None?
  {
  }

  // ---------------------------------------------------------------------------
  // _recalculate_all_criteria, for one criterion
  // ---------------------------------------------------------------------------

  /** `max(0, min(100, v))`. */
  function Clamp(v: real): (r: real)
    ensures 0.0 <= r <= 100.0
    ensures 0.0 <= v <= 100.0 ==> r == v
  {
    if v < 0.0 then 0.0 else if v > 100.0 then 100.0 else v
  }

  /** `score, comments = result`: a list or tuple of exactly two; None where unpacking raises or gives a non-number score. */
  function Unpacked(result: Value): (r: Option<(real, Value)>)
    ensures r.Some? ==> (result.PyTuple? && |result.elems| == 2) || (result.PyList? && |result.items| == 2)
  {
    var pair :=
      if result.PyTuple? && |result.elems| == 2 then Some((result.elems[0], result.elems[1]))
      else if result.PyList? && |result.items| == 2 then Some((result.items[0], result.items[1]))
      else None;
    if pair.Some? && IsNumber(pair.value.0) then Some((NumOf(pair.value.0), pair.value.1)) else None
  }

  const ValidationErrorPrefix: string := "Validation error: "

  /**
   * The body of the `_recalculate_all_criteria` loop for one criterion: the
   * override is cleared; a present function is called and its clamped score
   * and comments stored; a failure replaces the comments with the error text.
   * The flag says whether the criterion counts as recalculated.
   */
  function RecalcOne(c: Criterion, isEmptyFile: bool, o: Outcome): (r: (Criterion, bool))
    ensures !r.0.manualOverride
    ensures r.0.pointValue == c.pointValue && r.0.validator == c.validator
    ensures r.0.performanceComments == c.performanceComments && r.0.validationArgs == c.validationArgs
    ensures !Present(c.validator) ==> r == (c.(manualOverride := false), false)
    ensures r.1 ==> 0.0 <= r.0.percentage <= 100.0
    ensures r.1 <==> c.validator.Function? && o.Returned? && Unpacked(o.value).Some?
                     && StripComments(Unpacked(o.value).value.1).Some?
    ensures Present(c.validator) && !r.1 ==> StartsWith(r.0.comments, ValidationErrorPrefix)
  {
    var cleared := c.(manualOverride := false);
    if !Present(c.validator) then (cleared, false)
    else if !c.validator.Function? || o.Raised? then (cleared.(comments := ValidationErrorPrefix), false)
    else
      match Unpacked(o.value)
        case None => (cleared.(comments := ValidationErrorPrefix), false)
        case Some(sc) =>
          var p := Clamp(sc.0);
          var stored := cleared.(percentage := p, validationComments := sc.1);
          match EnhancedComments(c.performanceComments, isEmptyFile, false, p, sc.1)
            case None => (stored.(comments := ValidationErrorPrefix), false)
            case Some(text) => (stored.(comments := text), true)
  }

  // ---------------------------------------------------------------------------
  // _update_percentage_value, for one criterion
  // ---------------------------------------------------------------------------

  /**
   * `_update_percentage_value`: the percentage, its points as the score, the
   * override flag, then comments joining performance and validation text.
   * The flag is false where stripping the stored validation comments raises,
   * after the first three are already set.
   */
  function ManualUpdate(c: Criterion, isEmptyFile: bool, p: real): (r: (Criterion, bool))
    ensures r.0.percentage == p && r.0.score == Points(p, c.pointValue) && r.0.manualOverride
    ensures r.0 == c.(percentage := p, score := Points(p, c.pointValue), manualOverride := true,
                      comments := r.0.comments)
    ensures r.1 <==> StripComments(c.validationComments).Some?
    ensures !r.1 ==> r.0.comments == c.comments
    ensures r.1 ==> r.0.comments == EnhancedComments(c.performanceComments, isEmptyFile, true, p,
                                                     c.validationComments).value
  {
    var set1 := c.(percentage := p, score := Points(p, c.pointValue), manualOverride := true);
    match EnhancedComments(c.performanceComments, isEmptyFile, true, p, c.validationComments)
      case None => (set1, false)
      case Some(text) => (set1.(comments := text), true)
  }

  /** A manual change survives `re_run_validations` and is undone by `_recalculate_all_criteria`. */
  lemma ManualChangeSurvivesReRun(c: Criterion, isEmptyFile: bool, p: real, o: Outcome)
    ensures ReRunOne(ManualUpdate(c, isEmptyFile, p).0, isEmptyFile, o).None?
    ensures !RecalcOne(ManualUpdate(c, isEmptyFile, p).0, isEmptyFile, o).0.manualOverride
  {
  }

  /** After a manual change with specific validation text, the comments keep that text as their tail. */
  lemma ManualChangeKeepsDetails(c: Criterion, isEmptyFile: bool, p: real)
    requires c.validationComments.PyStr? && p != 100.0
    requires !IsGenericValidationComment(Strip(c.validationComments.s))
    ensures ManualUpdate(c, isEmptyFile, p).1
    ensures EndsWith(ManualUpdate(c, isEmptyFile, p).0.comments, Strip(c.validationComments.s))
  {
  }

  // ---------------------------------------------------------------------------
  // add_criteria_batch
  // ---------------------------------------------------------------------------

  /**
   * One item of the list given to `add_criteria_batch`: not a dict, or a dict's
   * fields (`name` and `point_value` None when missing or None).
   */
  datatype BatchItem =
    | NotADict
    | Fields(name: Option<string>, pointValue: Option<real>, description: string, validator: Validator,
             args: Value, performanceComments: seq<Entry>)

  /** Whether `add_criteria_batch` adds the item: a dict with a non-empty name and a point value. */
  predicate Accepted(item: BatchItem) {
    item.Fields? && item.name.Some? && item.name.value != "" && item.pointValue.Some?
  }

  /** The criterion names in insertion order after adding `name`. */
  function AddName(names: seq<string>, name: string): (r: seq<string>)
    ensures name in r && forall n :: n in names ==> n in r
    ensures forall n :: n in r ==> n in names || n == name
  {
    if name in names then names else names + [name]
  }

  /** The names after a batch: each accepted item's name, in order, after the existing ones. */
  function BatchNames(names: seq<string>, items: seq<BatchItem>): seq<string> {
    if items == [] then names
    else
      var last := items[|items| - 1];
      var before := BatchNames(names, items[..|items| - 1]);
      if Accepted(last) then AddName(before, last.name.value) else before
  }

  /** The criteria after a batch: each accepted item added as `add_criterion` adds it. */
  function BatchCriteria(criteria: map<string, Criterion>, isEmptyFile: bool, items: seq<BatchItem>)
    : map<string, Criterion>
  {
    if items == [] then criteria
    else
      var last := items[|items| - 1];
      var before := BatchCriteria(criteria, isEmptyFile, items[..|items| - 1]);
      if Accepted(last) then
        before[last.name.value := NewCriterion(isEmptyFile, last.pointValue.value, last.description, last.validator,
                                               last.args, last.performanceComments)]
      else before
  }

  /** A batch adds exactly the names of its accepted items. */
  lemma {:induction false} BatchAddsAccepted(criteria: map<string, Criterion>, isEmptyFile: bool, items: seq<BatchItem>,
                                             name: string)
    ensures name in BatchCriteria(criteria, isEmptyFile, items) <==>
      (name in criteria || exists i :: 0 <= i < |items| && Accepted(items[i]) && items[i].name.value == name)
  {
    if items != [] {
      var init := items[..|items| - 1];
      BatchAddsAccepted(criteria, isEmptyFile, init, name);
      assert forall i :: 0 <= i < |init| ==> init[i] == items[i];
    }
  }

  class LessonRubric {
    /** The keys of `criteria`, in insertion order. */
    var names: seq<string>
    var criteria: map<string, Criterion>
    var isEmptyFile: bool

    ghost predicate Valid()
      reads this
    {
      (forall n :: n in names <==> n in criteria)
      && forall i, j :: 0 <= i < j < |names| ==> names[i] != names[j]
    }

    /** `__init__`; `scene` is what the DAG query returned, None without Maya or on failure. */
    constructor(scene: Option<seq<string>>)
      ensures Valid() && names == [] && criteria == map[]
      ensures isEmptyFile == IsEmptyFile(scene)
    {
      names := [];
      criteria := map[];
      isEmptyFile := IsEmptyFile(scene);
    }

    /** `add_criterion`: a new name goes last; re-adding a name replaces its entry in place. */
    method AddCriterion(name: string, pointValue: real, description: string, validator: Validator, args: Value,
                        performanceComments: seq<Entry>)
      requires Valid()
      modifies this
      ensures Valid()
      ensures criteria == old(criteria)[name := NewCriterion(isEmptyFile, pointValue, description, validator, args,
                                                             performanceComments)]
      ensures names == AddName(old(names), name)
      ensures isEmptyFile == old(isEmptyFile)
    {
      if name !in criteria {
        names := names + [name];
      }
      criteria := criteria[name := NewCriterion(isEmptyFile, pointValue, description, validator, args,
                                                performanceComments)];
    }

    /** `add_criteria_batch`: the accepted items, added in order. */
    method AddCriteriaBatch(items: seq<BatchItem>)
      requires Valid()
      modifies this
      ensures Valid()
      ensures criteria == BatchCriteria(old(criteria), isEmptyFile, items)
      ensures names == BatchNames(old(names), items)
      ensures isEmptyFile == old(isEmptyFile)
    {
      var i := 0;
      while i < |items|
        invariant 0 <= i <= |items|
        invariant Valid() && isEmptyFile == old(isEmptyFile)
        invariant criteria == BatchCriteria(old(criteria), isEmptyFile, items[..i])
        invariant names == BatchNames(old(names), items[..i])
      {
        assert items[..i + 1][..i] == items[..i];
        var item := items[i];
        if item.Fields? && item.name.Some? && item.name.value != "" && item.pointValue.Some? {
          AddCriterion(item.name.value, item.pointValue.value, item.description, item.validator, item.args,
                       item.performanceComments);
        }
        i := i + 1;
      }
      assert items[..i] == items;
    }

    /** `calculate_total_score`: the computed points summed in order, rounded up to the tenth. */
    method CalculateTotalScore() returns (total: real)
      ensures total == CeilTenth(Sum(names, criteria))
      ensures Sum(names, criteria) <= total < Sum(names, criteria) + 0.1
    {
      var acc := 0.0;
      var i := 0;
      while i < |names|
        invariant 0 <= i <= |names|
        invariant acc == Sum(names[..i], criteria)
      {
        assert names[..i + 1][..i] == names[..i];
        acc := acc + CriterionScore(criteria, names[i]);
        i := i + 1;
      }
      assert names[..i] == names;
      total := CeilTenth(acc);
    }

    /**
     * `re_run_validations`: every criterion updated as `ReRunOne` says, the
     * others untouched; the count of those updated.
     */
    method ReRunValidations(run: string -> Outcome) returns (count: nat)
      requires Valid()
      modifies this
      ensures Valid() && names == old(names) && isEmptyFile == old(isEmptyFile)
      ensures criteria == ReRunAll(names, old(criteria), isEmptyFile, run)
      ensures forall n :: n in old(criteria) ==> criteria[n] == ReRun(old(criteria)[n], isEmptyFile, run(n))
      ensures count == ReRunCount(names, old(criteria), isEmptyFile, run)
    {
      count := 0;
      var i := 0;
      while i < |names|
        invariant 0 <= i <= |names|
        invariant Valid() && names == old(names) && isEmptyFile == old(isEmptyFile)
        invariant criteria == ReRunAll(names[..i], old(criteria), isEmptyFile, run)
        invariant count == ReRunCount(names[..i], old(criteria), isEmptyFile, run)
      {
        var updated := ReRunCriterion(i, run, old(criteria));
        if updated {
          count := count + 1;
        }
        i := i + 1;
      }
      assert names[..i] == names;
      forall n | n in old(criteria) ensures criteria[n] == ReRun(old(criteria)[n], isEmptyFile, run(n)) {
        ReRunAllPointwise(names, old(criteria), isEmptyFile, run, n);
      }
    }

    /** The body of the `re_run_validations` loop, for the `i`-th criterion, starting from `start`. */
    method ReRunCriterion(i: nat, run: string -> Outcome, ghost start: map<string, Criterion>) returns (updated: bool)
      requires Valid() && i < |names| && (forall n :: n in names <==> n in start)
      requires criteria == ReRunAll(names[..i], start, isEmptyFile, run)
      modifies this
      ensures Valid() && names == old(names) && isEmptyFile == old(isEmptyFile)
      ensures criteria == ReRunAll(names[..i + 1], start, isEmptyFile, run)
      ensures ReRunCount(names[..i + 1], start, isEmptyFile, run)
           == ReRunCount(names[..i], start, isEmptyFile, run) + if updated then 1 else 0
    {
      var name := names[i];
      ReRunVisit(names, i, start, isEmptyFile, run);
      var c := criteria[name];
      updated := ReRunOne(c, isEmptyFile, run(name)).Some?;
      criteria := criteria[name := ReRun(c, isEmptyFile, run(name))];
    }

    /** `_update_percentage_value` for a shown criterion; `ok` is false where the comment update raises. */
    method UpdatePercentageValue(name: string, newPercentage: int) returns (ok: bool)
      requires Valid() && name in criteria
      modifies this
      ensures Valid() && names == old(names) && isEmptyFile == old(isEmptyFile)
      ensures criteria == old(criteria)[name := ManualUpdate(old(criteria)[name], isEmptyFile, newPercentage as real).0]
      ensures ok == ManualUpdate(old(criteria)[name], isEmptyFile, newPercentage as real).1
    {
      var r := ManualUpdate(criteria[name], isEmptyFile, newPercentage as real);
      criteria := criteria[name := r.0];
      ok := r.1;
    }

    /** The body of the `_recalculate_all_criteria` loop, for the `i`-th criterion, starting from `start`. */
    method RecalculateCriterion(i: nat, run: string -> Outcome, ghost start: map<string, Criterion>)
      returns (recalculated: bool)
      requires Valid() && i < |names| && (forall n :: n in names <==> n in start)
      requires criteria == RecalcAll(names[..i], start, isEmptyFile, run)
      modifies this
      ensures Valid() && names == old(names) && isEmptyFile == old(isEmptyFile)
      ensures criteria == RecalcAll(names[..i + 1], start, isEmptyFile, run)
      ensures RecalcCount(names[..i + 1], start, isEmptyFile, run)
           == RecalcCount(names[..i], start, isEmptyFile, run) + if recalculated then 1 else 0
    {
      var name := names[i];
      RecalcVisit(names, i, start, isEmptyFile, run);
      var r := RecalcOne(criteria[name], isEmptyFile, run(name));
      criteria := criteria[name := r.0];
      recalculated := r.1;
    }

    /**
     * `_recalculate_all_criteria`: every criterion replaced as `RecalcOne`
     * says, so no override remains; the count of criteria recalculated.
     */
    method RecalculateAllCriteria(run: string -> Outcome) returns (count: nat)
      requires Valid()
      modifies this
      ensures Valid() && names == old(names) && isEmptyFile == old(isEmptyFile)
      ensures criteria == RecalcAll(names, old(criteria), isEmptyFile, run)
      ensures forall n :: n in old(criteria) ==> criteria[n] == RecalcOne(old(criteria)[n], isEmptyFile, run(n)).0
      ensures forall n :: n in criteria ==> !criteria[n].manualOverride
      ensures count == RecalcCount(names, old(criteria), isEmptyFile, run)
    {
      count := 0;
      var i := 0;
      while i < |names|
        invariant 0 <= i <= |names|
        invariant Valid() && names == old(names) && isEmptyFile == old(isEmptyFile)
        invariant criteria == RecalcAll(names[..i], old(criteria), isEmptyFile, run)
        invariant count == RecalcCount(names[..i], old(criteria), isEmptyFile, run)
      {
        var recalculated := RecalculateCriterion(i, run, old(criteria));
        if recalculated {
          count := count + 1;
        }
        i := i + 1;
      }
      assert names[..i] == names;
      forall n | n in old(criteria)
        ensures criteria[n] == RecalcOne(old(criteria)[n], isEmptyFile, run(n)).0 && !criteria[n].manualOverride
      {
        RecalcAllPointwise(names, old(criteria), isEmptyFile, run, n);
      }
    }
  }
}
