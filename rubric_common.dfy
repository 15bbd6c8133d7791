/**
 * What the two generations of `LessonRubric` share: the five level names and
 * their fixed comments, `round(x, 2)` for criterion points and the total
 * rounded up to the tenth. Python floats are modelled as exact reals.
 */
module RubricCommon {
  import opened Wrappers
  import opened PyText

  datatype Level = NoMarks | LowMarks | PartialMarks | HighMarks | FullMarks

  function LevelName(l: Level): string {
    match l
      case NoMarks => "No Marks"
      case LowMarks => "Low Marks"
      case PartialMarks => "Partial Marks"
      case HighMarks => "High Marks"
      case FullMarks => "Full Marks"
  }

  /** The fixed comment of each level. */
  function LevelComment(l: Level): string {
    match l
      case NoMarks => "Criterion not met or not attempted."
      case LowMarks => "Minimal effort shown, significant improvements needed."
      case PartialMarks => "Basic requirements met, some areas need improvement."
      case HighMarks => "Good work with minor areas for improvement."
      case FullMarks => "Excellent work, all requirements exceeded."
  }

  const EmptyPrefix: string := "Empty or minimal file detected. "

  /** The generic comment of a level, prefixed for an empty scene. */
  function GenericComment(l: Level, isEmptyFile: bool): (r: string)
    ensures isEmptyFile ==> StartsWith(r, EmptyPrefix) && r[|EmptyPrefix|..] == LevelComment(l)
    ensures !isEmptyFile ==> r == LevelComment(l)
  {
    if isEmptyFile then EmptyPrefix + LevelComment(l) else LevelComment(l)
  }

  /** `math.ceil(y)`. */
  function Ceil(y: real): (r: int)
    ensures y <= r as real < y + 1.0
  {
    -((-y).Floor)
  }

  /** `math.ceil(t * 10) / 10.0`: the least tenth not below `t`. */
  function CeilTenth(t: real): (r: real)
    ensures t <= r < t + 0.1
    ensures (r * 10.0).Floor as real == r * 10.0
  {
    Ceil(t * 10.0) as real / 10.0
  }

  /** Python's `round(y)`: the nearest integer, halves to the even one. */
  function RoundHalfEven(y: real): (r: int)
    ensures y - 0.5 <= r as real <= y + 0.5
    ensures r as real == y - 0.5 || r as real == y + 0.5 ==> r % 2 == 0
  {
    var f := y.Floor;
    var d := y - f as real;
    if d < 0.5 then f
    else if d > 0.5 then f + 1
    else if f % 2 == 0 then f
    else f + 1
  }

  /** `round(x, 2)` on an exact value. */
  function Round2(x: real): (r: real)
    ensures x - 0.005 <= r <= x + 0.005
  {
    RoundHalfEven(x * 100.0) as real / 100.0
  }

  /** `round((percentage / 100.0) * point_value, 2)`. */
  function Points(percentage: real, pointValue: real): (r: real)
    ensures percentage / 100.0 * pointValue - 0.005 <= r <= percentage / 100.0 * pointValue + 0.005
  {
    Round2(percentage / 100.0 * pointValue)
  }

  /** The node names of a new scene, which do not count as work. */
  const DefaultObjects: seq<string> := [
    "persp", "top", "front", "side", "perspShape", "topShape", "frontShape", "sideShape",
    "defaultLightSet", "defaultObjectSet", "initialShadingGroup", "initialParticleSE", "initialMaterialInfo",
    "lambert1", "particleCloud1", "time1", "sequenceManager1", "renderPartition", "renderGlobalsList1",
    "defaultRenderLayer", "globalRender1", "defaultResolution", "hardwareRenderGlobals", "characterPartition",
    "defaultHardwareRenderGlobals"]

  predicate MentionsDefault(path: string) {
    exists k :: 0 <= k < |DefaultObjects| && Contains(path, DefaultObjects[k])
  }

  /** The scene paths that contain no default node name, in scene order. */
  function ContentObjects(paths: seq<string>): (r: seq<string>)
    ensures |r| <= |paths|
    ensures forall i :: 0 <= i < |r| ==> r[i] in paths && !MentionsDefault(r[i])
    ensures forall i :: 0 <= i < |paths| && !MentionsDefault(paths[i]) ==> paths[i] in r
  {
    if paths == [] then []
    else
      var rest := ContentObjects(paths[1..]);
      if MentionsDefault(paths[0]) then rest else [paths[0]] + rest
  }

  /**
   * `_check_empty_file`: with the scene's DAG paths (None when Maya is absent
   * or the query raises), whether at most five of them are user content.
   */
  function IsEmptyFile(paths: Option<seq<string>>): (r: bool)
    ensures paths.None? ==> !r
    ensures paths.Some? && |paths.value| <= 5 ==> r
  {
    paths.Some? && |ContentObjects(paths.value)| <= 5
  }
}
