/**
 * The classification rules of the cmi-tools modelling checklist: how each
 * check turns what it reads from the scene into a pass, a warning or an
 * error and a number of issues, the lists some checks build on the way, and
 * the text of the exported full report. The scene is plain data: counts,
 * names and light records; a scene query that raises is None.
 */
module CmiChecklist {
  import opened Wrappers
  import opened PyText
  import opened ChecklistCommon

  // ---------------------------------------------------------------------------
  // Item 2: render output resolution
  // ---------------------------------------------------------------------------

  const DefaultResolution: seq<string> := ["1280", "720"]

  /**
   * `check_output_resolution`: a custom setting with fewer than two entries is
   * replaced by the defaults; the check passes when the width or the height,
   * written as a decimal, equals either expected entry.
   */
  function ResolutionPasses(width: int, height: int, expected: seq<string>): (r: bool)
    ensures |expected| >= 2 ==>
              (r <==> IntToString(width) in expected[..2] || IntToString(height) in expected[..2])
    ensures |expected| < 2 ==>
              (r <==> IntToString(width) in DefaultResolution || IntToString(height) in DefaultResolution)
  {
    var e := if |expected| < 2 then DefaultResolution else expected;
    IntToString(width) == e[0] || IntToString(height) == e[1]
    || IntToString(width) == e[1] || IntToString(height) == e[0]
  }

  /** What `check_output_resolution` reports: a verdict, or that the custom setting could not be used. */
  datatype ResolutionOutcome = Checked(verdict: Verdict) | CustomUnusable

  /**
   * The reported outcome: a custom setting with fewer than two entries is
   * reported as one issue, "couldn't be used", whatever the scene holds;
   * otherwise a pass with no issue or an error with one.
   */
  function ResolutionCheck(width: int, height: int, expected: seq<string>): (r: ResolutionOutcome)
    ensures r.CustomUnusable? <==> |expected| < 2
    ensures r.Checked? ==> r.verdict == Verdict(Pass, 0) || r.verdict == Verdict(Error, 1)
    ensures r.Checked? ==>
              (r.verdict.status == Pass <==> IntToString(width) in expected[..2] || IntToString(height) in expected[..2])
  {
    if |expected| < 2 then CustomUnusable
    else if ResolutionPasses(width, height, expected) then Checked(Verdict(Pass, 0))
    else Checked(Verdict(Error, 1))
  }

  /** The number of issues the report names. */
  function ResolutionIssues(r: ResolutionOutcome): nat {
    match r
      case Checked(v) => v.issues
      case CustomUnusable => 1
  }

  /** A short custom setting is one issue whatever the width and height are. */
  lemma ShortCustomIsOneIssue(width: int, height: int, expected: seq<string>)
    requires |expected| < 2
    ensures ResolutionIssues(ResolutionCheck(width, height, expected)) == 1
    ensures ResolutionCheck(width, height, expected) == CustomUnusable
  {
  }

  lemma Spell1280()
    ensures IntToString(1280) == "1280" && IntToString(720) == "720"
  {
    assert NatToDigits(1) == "1";
    assert NatToDigits(12) == "12";
    assert NatToDigits(128) == "128";
    assert NatToDigits(7) == "7";
    assert NatToDigits(72) == "72";
  }

  /** `str(i)` tells integers apart. */
  lemma IntToStringInjective(a: int, b: int)
    requires IntToString(a) == IntToString(b)
    ensures a == b
  {
    IntToStringRoundTrip(a);
    IntToStringRoundTrip(b);
  }

  /**
   * With the default setting the check passes exactly when one side is 1280
   * or 720: any width goes with a 720-pixel height, so 1280 by 1 and 720 by
   * 1280 both pass.
   */
  lemma DefaultResolutionRule(width: int, height: int)
    ensures ResolutionPasses(width, height, DefaultResolution)
        <==> width in {1280, 720} || height in {1280, 720}
  {
    Spell1280();
    if IntToString(width) == "1280" { IntToStringInjective(width, 1280); }
    if IntToString(width) == "720" { IntToStringInjective(width, 720); }
    if IntToString(height) == "1280" { IntToStringInjective(height, 1280); }
    if IntToString(height) == "720" { IntToStringInjective(height, 720); }
  }

  // ---------------------------------------------------------------------------
  // Item 3: total texture count
  // ---------------------------------------------------------------------------

  /** What one file node adds: its UDIM tiles when tiled, else 1; 1 as well when a query raises. */
  function TextureTiles(node: FileTexture): nat {
    if node.tilingMode == 0 then 1
    else match node.udimTiles
      case Some(n) => n
      case None => 1
  }

  /** The scene's texture count. */
  function TextureTotal(nodes: seq<FileTexture>): nat {
    SumOf(nodes, TextureTiles)
  }

  /** Without UDIM tiling every file node is one texture. */
  lemma UntiledNodesCountOnce(nodes: seq<FileTexture>)
    requires forall k :: 0 <= k < |nodes| ==> nodes[k].tilingMode == 0
    ensures TextureTotal(nodes) == |nodes|
  {
    SumOfOnes(nodes, TextureTiles);
  }

  /** `check_total_texture_count`, counting node by node. */
  method CountTextures(nodes: seq<FileTexture>) returns (total: nat)
    ensures total == TextureTotal(nodes)
  {
    total := 0;
    var i := 0;
    while i < |nodes|
      invariant 0 <= i <= |nodes|
      invariant total == SumOf(nodes[..i], TextureTiles)
    {
      var node := nodes[i];
      if node.tilingMode != 0 {
        match node.udimTiles {
          case Some(n) => total := total + n;
          case None => total := total + 1;
        }
      } else {
        total := total + 1;
      }
      assert nodes[..i + 1][..i] == nodes[..i];
      i := i + 1;
    }
    assert nodes[..i] == nodes;
  }

  /** A node whose tile lookup raises counts as one texture wherever it is. */
  lemma FailedLookupCountsOne(a: seq<FileTexture>, mode: int, b: seq<FileTexture>)
    ensures TextureTotal(a + [FileTexture(mode, None)] + b) == TextureTotal(a + b) + 1
  {
    SumOfConcat(a + [FileTexture(mode, None)], b, TextureTiles);
    SumOfConcat(a, [FileTexture(mode, None)], TextureTiles);
    SumOfConcat(a, b, TextureTiles);
    assert [FileTexture(mode, None)][..0] == [];
  }

  /** The texture band: above `lo` up to `hi` a warning, up to `lo` a pass, above `hi` an error. */
  function TextureVerdict(n: int, lo: int, hi: int): (r: Verdict)
    ensures r.status == Warning <==> lo < n <= hi
    ensures r.status == Pass <==> n <= lo && !(lo < n <= hi)
    ensures r.status == Error <==> n > lo && n > hi
    ensures r.issues == (if r.status == Error then 1 else 0)
  {
    if n <= hi && n > lo then Verdict(Warning, 0)
    else if n <= lo then Verdict(Pass, 0)
    else Verdict(Error, 1)
  }

  const TextureLimits: (int, int) := (40, 50)

  /** The whole check: a scene without file nodes passes. */
  function TextureCheck(nodes: seq<FileTexture>): (r: Verdict)
    ensures nodes == [] ==> r == Verdict(Pass, 0)
    ensures nodes != [] ==> r == TextureVerdict(TextureTotal(nodes), TextureLimits.0, TextureLimits.1)
  {
    if nodes == [] then Verdict(Pass, 0)
    else TextureVerdict(TextureTotal(nodes), TextureLimits.0, TextureLimits.1)
  }

  // ---------------------------------------------------------------------------
  // Item 6: total triangle count
  // ---------------------------------------------------------------------------

  /** What one mesh adds; a mesh whose queries raise is skipped. */
  function MeshContribution(m: Option<Mesh>): nat {
    match m
      case None => 0
      case Some(mesh) => MeshTriangles(mesh)
  }

  function TriangleTotal(meshes: seq<Option<Mesh>>): nat {
    SumOf(meshes, MeshContribution)
  }

  /** `check_total_triangle_count`, adding mesh by mesh. */
  method CountTriangles(meshes: seq<Option<Mesh>>) returns (total: nat)
    ensures total == TriangleTotal(meshes)
  {
    total := 0;
    var i := 0;
    while i < |meshes|
      invariant 0 <= i <= |meshes|
      invariant total == SumOf(meshes[..i], MeshContribution)
    {
      match meshes[i] {
        case None =>
        case Some(m) =>
          if m.smoothState > 0 && m.smoothLevel != 0 {
            var one := m.edges * 4;
            if m.smoothLevel > 1 {
              total := total + one * Pow4(m.smoothLevel - 1);
            } else {
              total := total + one;
            }
          } else {
            total := total + m.triangles;
          }
      }
      assert meshes[..i + 1][..i] == meshes[..i];
      i := i + 1;
    }
    assert meshes[..i] == meshes;
  }

  /** A mesh that cannot be read is left out of the total wherever it is. */
  lemma UnreadableMeshIgnored(a: seq<Option<Mesh>>, b: seq<Option<Mesh>>)
    ensures TriangleTotal(a + [None] + b) == TriangleTotal(a + b)
  {
    SumOfConcat(a + [None], b, MeshContribution);
    SumOfConcat(a, [None], MeshContribution);
    SumOfConcat(a, b, MeshContribution);
    var one: seq<Option<Mesh>> := [None];
    assert one[..0] == [];
  }

  const TriangleLimits: (int, int) := (180000, 200000)

  /** The whole check: a scene without meshes passes. */
  function TriangleCheck(meshes: seq<Option<Mesh>>): (r: Verdict)
    ensures meshes == [] ==> r == Verdict(Pass, 0)
    ensures meshes != [] ==> (r.status == Error <==> TriangleTotal(meshes) >= TriangleLimits.1)
    ensures meshes != [] ==> (r.status == Warning <==> TriangleLimits.0 < TriangleTotal(meshes) < TriangleLimits.1)
  {
    if meshes == [] then Verdict(Pass, 0)
    else BandVerdict(TriangleTotal(meshes), TriangleLimits.0, TriangleLimits.1)
  }

  // ---------------------------------------------------------------------------
  // Item 9: default object names
  // ---------------------------------------------------------------------------

  /** The offending objects (named like a default) and the possible offenders (containing one). */
  datatype NameLists = NameLists(offending: seq<string>, possible: seq<string>)

  /** `if x not in xs: xs.append(x)`. */
  function AddOnce(xs: seq<string>, x: string): (r: seq<string>)
    ensures forall y :: y in r <==> y in xs || y == x
    ensures NoDup(xs) ==> NoDup(r)
  {
    if x in xs then xs else xs + [x]
  }

  /** One pass of the inner loop: `obj` against one default name. */
  function NameStep(acc: NameLists, obj: string, d: string): NameLists {
    if StartsWith(obj, d) then acc.(offending := AddOnce(acc.offending, obj))
    else if Contains(obj, d) then acc.(possible := AddOnce(acc.possible, obj))
    else acc
  }

  /** The inner loop over the default names, for the first `|names|` of them. */
  function ScanNames(acc: NameLists, obj: string, names: seq<string>): NameLists {
    if names == [] then acc
    else NameStep(ScanNames(acc, obj, names[..|names| - 1]), obj, names[|names| - 1])
  }

  /** The outer loop over the scene's objects. */
  function ScanObjects(objects: seq<string>): NameLists {
    if objects == [] then NameLists([], [])
    else ScanNames(ScanObjects(objects[..|objects| - 1]), objects[|objects| - 1], DefaultObjectNames)
  }

  /** The inner loop adds `obj` to a list exactly when a default name puts it there. */
  lemma {:induction false} ScanNamesMembers(acc: NameLists, obj: string, names: seq<string>)
    ensures var r := ScanNames(acc, obj, names);
            (forall x :: x in r.offending <==> x in acc.offending || (x == obj && HasDefaultPrefix(obj, names)))
            && (forall x :: x in r.possible <==> x in acc.possible || (x == obj && EmbedsDefault(obj, names)))
            && (NoDup(acc.offending) ==> NoDup(r.offending))
            && (NoDup(acc.possible) ==> NoDup(r.possible))
  {
    if names != [] {
      var init := names[..|names| - 1];
      var d := names[|names| - 1];
      ScanNamesMembers(acc, obj, init);
      assert forall k :: 0 <= k < |init| ==> init[k] == names[k];
      assert HasDefaultPrefix(obj, names) <==> HasDefaultPrefix(obj, init) || StartsWith(obj, d) by {
        if StartsWith(obj, d) { assert StartsWith(obj, names[|names| - 1]); }
        if HasDefaultPrefix(obj, names) && !StartsWith(obj, d) {
          var k :| 0 <= k < |names| && StartsWith(obj, names[k]);
          assert k < |init| && StartsWith(obj, init[k]);
        }
      }
      assert EmbedsDefault(obj, names) <==> EmbedsDefault(obj, init) || (!StartsWith(obj, d) && Contains(obj, d)) by {
        if !StartsWith(obj, d) && Contains(obj, d) { assert Contains(obj, names[|names| - 1]); }
        if EmbedsDefault(obj, names) && !(!StartsWith(obj, d) && Contains(obj, d)) {
          var k :| 0 <= k < |names| && !StartsWith(obj, names[k]) && Contains(obj, names[k]);
          assert k < |init| && !StartsWith(obj, init[k]) && Contains(obj, init[k]);
        }
      }
    }
  }

  /**
   * An object is offending exactly when a default name starts it, and a
   * possible offender exactly when a default name occurs in it elsewhere; no
   * object is listed twice.
   */
  lemma {:induction false} DefaultNameLists(objects: seq<string>)
    ensures var r := ScanObjects(objects);
            (forall x :: x in r.offending <==> x in objects && HasDefaultPrefix(x, DefaultObjectNames))
            && (forall x :: x in r.possible <==> x in objects && EmbedsDefault(x, DefaultObjectNames))
            && NoDup(r.offending) && NoDup(r.possible)
  {
    if objects != [] {
      var init := objects[..|objects| - 1];
      DefaultNameLists(init);
      ScanNamesMembers(ScanObjects(init), objects[|objects| - 1], DefaultObjectNames);
      assert forall x :: x in objects <==> x in init || x == objects[|objects| - 1] by {
        assert objects == init + [objects[|objects| - 1]];
      }
    }
  }

  /** `check_default_object_names`: every object against every default name. */
  method FindDefaultNames(objects: seq<string>) returns (offending: seq<string>, possible: seq<string>)
    ensures NameLists(offending, possible) == ScanObjects(objects)
  {
    offending, possible := [], [];
    var i := 0;
    while i < |objects|
      invariant 0 <= i <= |objects|
      invariant NameLists(offending, possible) == ScanObjects(objects[..i])
    {
      var obj := objects[i];
      ghost var before := NameLists(offending, possible);
      var j := 0;
      while j < |DefaultObjectNames|
        invariant 0 <= j <= |DefaultObjectNames|
        invariant NameLists(offending, possible) == ScanNames(before, obj, DefaultObjectNames[..j])
      {
        var d := DefaultObjectNames[j];
        ScanNamesStep(before, obj, DefaultObjectNames, j);
        if StartsWith(obj, d) {
          if obj !in offending {
            offending := offending + [obj];
          }
        } else if Contains(obj, d) {
          if obj !in possible {
            possible := possible + [obj];
          }
        }
        j := j + 1;
      }
      assert DefaultObjectNames[..j] == DefaultObjectNames;
      ScanObjectsStep(objects, i);
      i := i + 1;
    }
    assert objects[..i] == objects;
  }

  /** One more default name in the inner loop is one more step. */
  lemma ScanNamesStep(acc: NameLists, obj: string, names: seq<string>, j: nat)
    requires j < |names|
    ensures ScanNames(acc, obj, names[..j + 1]) == NameStep(ScanNames(acc, obj, names[..j]), obj, names[j])
  {
    assert names[..j + 1][..j] == names[..j];
  }

  /** One more object in the outer loop is one more inner loop. */
  lemma ScanObjectsStep(objects: seq<string>, i: nat)
    requires i < |objects|
    ensures ScanObjects(objects[..i + 1]) == ScanNames(ScanObjects(objects[..i]), objects[i], DefaultObjectNames)
  {
    assert objects[..i + 1][..i] == objects[..i];
  }

  /** The whole check: a scene without objects passes. */
  function DefaultNamesCheck(objects: seq<string>): (r: Verdict)
    ensures objects == [] ==> r == Verdict(Pass, 0)
    ensures objects != [] ==> r == NameVerdict(|ScanObjects(objects).offending|, |ScanObjects(objects).possible|)
  {
    if objects == [] then Verdict(Pass, 0)
    else
      var lists := ScanObjects(objects);
      NameVerdict(|lists.offending|, |lists.possible|)
  }

  /** A fresh cube ("pCube1") makes the check an error. */
  lemma FreshCubeIsError(objects: seq<string>)
    requires "pCube1" in objects
    ensures DefaultNamesCheck(objects).status == Error
  {
    DefaultNameLists(objects);
    assert StartsWith("pCube1", DefaultObjectNames[9]);
    assert "pCube1" in ScanObjects(objects).offending;
  }

  // ---------------------------------------------------------------------------
  // Item 14: animated visibility, with the turntable exception
  // ---------------------------------------------------------------------------

  /**
   * A transform as the check reads it: whether its attributes can be listed
   * and read, whether it has `visibility`, its `hiddenInOutliner` flag
   * (false when absent), its visibility value, the node types of its shapes
   * and of the nodes driving its visibility.
   */
  datatype Transform = Transform(name: string, readable: bool, hasVisibility: bool, outlinerHidden: bool,
                                 visibility: int, shapeKinds: seq<string>, inputKinds: seq<string>)

  /** Hidden: invisible, not hidden in the outliner, with a first shape that is not a camera. */
  predicate IsHidden(t: Transform) {
    t.hasVisibility && !t.outlinerHidden && t.visibility == 0
    && |t.shapeKinds| != 0 && t.shapeKinds[0] != "camera"
  }

  /** The lower-cased name holds "turntable" or "turn_table". */
  predicate IsTurntable(name: string) {
    Contains(Lower(name), "turntable") || Contains(Lower(name), "turn_table")
  }

  /** How many of the visibility inputs are animation curves. */
  function AnimCurveInputs(kinds: seq<string>): (n: nat)
    ensures n <= |kinds|
  {
    if kinds == [] then 0
    else AnimCurveInputs(kinds[..|kinds| - 1]) + (if Contains(kinds[|kinds| - 1], "animCurve") then 1 else 0)
  }

  datatype VisibilityLists = VisibilityLists(hidden: seq<string>, animated: seq<string>, turntable: seq<string>)

  /** One transform: listed as hidden, and once per animation-curve input as animated or turntable. */
  function VisibilityStep(acc: VisibilityLists, t: Transform): VisibilityLists {
    if !t.readable then acc
    else
      var hidden := if IsHidden(t) then acc.hidden + [t.name] else acc.hidden;
      var keys := Repeat(t.name, AnimCurveInputs(t.inputKinds));
      if IsTurntable(t.name) then VisibilityLists(hidden, acc.animated, acc.turntable + keys)
      else VisibilityLists(hidden, acc.animated + keys, acc.turntable)
  }

  function ScanVisibility(ts: seq<Transform>): VisibilityLists {
    if ts == [] then VisibilityLists([], [], [])
    else VisibilityStep(ScanVisibility(ts[..|ts| - 1]), ts[|ts| - 1])
  }

  /** `check_animated_visibility`: transforms one by one, inputs one by one. */
  method ScanTransforms(ts: seq<Transform>) returns (hidden: seq<string>, animated: seq<string>, turntable: seq<string>)
    ensures VisibilityLists(hidden, animated, turntable) == ScanVisibility(ts)
  {
    hidden, animated, turntable := [], [], [];
    var i := 0;
    while i < |ts|
      invariant 0 <= i <= |ts|
      invariant VisibilityLists(hidden, animated, turntable) == ScanVisibility(ts[..i])
    {
      var t := ts[i];
      assert ts[..i + 1][..i] == ts[..i];
      if t.readable {
        if t.hasVisibility && !t.outlinerHidden && t.visibility == 0 {
          if |t.shapeKinds| != 0 && t.shapeKinds[0] != "camera" {
            hidden := hidden + [t.name];
          }
        }
        ghost var animated0, turntable0 := animated, turntable;
        var j := 0;
        while j < |t.inputKinds|
          invariant 0 <= j <= |t.inputKinds|
          invariant IsTurntable(t.name) ==>
                      animated == animated0 && turntable == turntable0 + Repeat(t.name, AnimCurveInputs(t.inputKinds[..j]))
          invariant !IsTurntable(t.name) ==>
                      turntable == turntable0 && animated == animated0 + Repeat(t.name, AnimCurveInputs(t.inputKinds[..j]))
        {
          assert t.inputKinds[..j + 1][..j] == t.inputKinds[..j];
          if Contains(t.inputKinds[j], "animCurve") {
            var lowered := Lower(t.name);
            if Contains(lowered, "turntable") || Contains(lowered, "turn_table") {
              turntable := turntable + [t.name];
            } else {
              animated := animated + [t.name];
            }
          }
          j := j + 1;
        }
        assert t.inputKinds[..j] == t.inputKinds;
      }
      i := i + 1;
    }
    assert ts[..i] == ts;
  }

  /**
   * The colour and issues: exactly one turntable entry and nothing else
   * animated is a warning; otherwise turntable entries join the animated ones,
   * each an issue, and hidden objects alone only warn.
   */
  function VisibilityVerdict(lists: VisibilityLists): (r: Verdict)
    ensures |lists.turntable| == 1 && |lists.animated| == 0 ==> r == Verdict(Warning, 0)
    ensures !(|lists.turntable| == 1 && |lists.animated| == 0) ==>
              (r.status == Error <==> |lists.animated| + |lists.turntable| > 0)
              && (r.status == Warning <==> |lists.animated| + |lists.turntable| == 0 && |lists.hidden| > 0)
              && r.issues == |lists.animated| + |lists.turntable|
  {
    if |lists.turntable| == 1 && |lists.animated| == 0 then Verdict(Warning, 0)
    else
      var all := lists.animated + lists.turntable;
      if |lists.hidden| != 0 && |all| == 0 then Verdict(Warning, 0)
      else if |all| == 0 then Verdict(Pass, 0)
      else Verdict(Error, |all|)
  }

  /** The whole check: a scene without transforms passes. */
  function VisibilityCheck(ts: seq<Transform>): (r: Verdict)
    ensures ts == [] ==> r == Verdict(Pass, 0)
    ensures ts != [] ==> r == VisibilityVerdict(ScanVisibility(ts))
  {
    if ts == [] then Verdict(Pass, 0) else VisibilityVerdict(ScanVisibility(ts))
  }

  /** What one transform contributes to each list. */
  function HiddenCount(t: Transform): nat { if t.readable && IsHidden(t) then 1 else 0 }
  function AnimatedCount(t: Transform): nat {
    if t.readable && !IsTurntable(t.name) then AnimCurveInputs(t.inputKinds) else 0
  }
  function TurntableCount(t: Transform): nat {
    if t.readable && IsTurntable(t.name) then AnimCurveInputs(t.inputKinds) else 0
  }

  /** The lists hold one entry per hidden transform and one per animation-curve input of each kind. */
  lemma {:induction false} VisibilityCounts(ts: seq<Transform>)
    ensures |ScanVisibility(ts).hidden| == SumOf(ts, HiddenCount)
    ensures |ScanVisibility(ts).animated| == SumOf(ts, AnimatedCount)
    ensures |ScanVisibility(ts).turntable| == SumOf(ts, TurntableCount)
  {
    if ts != [] {
      VisibilityCounts(ts[..|ts| - 1]);
    }
  }

  /**
   * A single turntable transform keyed by one animation curve, with nothing
   * else animated or hidden, is a warning without issues; two such
   * turntables are two issues.
   */
  lemma TurntableException(tt: Transform, other: Transform)
    requires tt.readable && IsTurntable(tt.name) && AnimCurveInputs(tt.inputKinds) == 1 && !IsHidden(tt)
    requires other.readable && IsTurntable(other.name) && AnimCurveInputs(other.inputKinds) == 1 && !IsHidden(other)
    ensures VisibilityCheck([tt]) == Verdict(Warning, 0)
    ensures VisibilityCheck([tt, other]) == Verdict(Error, 2)
  {
    VisibilityCounts([tt]);
    VisibilityCounts([tt, other]);
    assert [tt, other][..1] == [tt];
    assert [tt][..0] == [];
  }

  // ---------------------------------------------------------------------------
  // Item 17: shadow-casting lights
  // ---------------------------------------------------------------------------

  datatype LightLists = LightLists(skydomes: seq<string>, keys: seq<string>, casters: seq<string>, nonKeyCasters: seq<string>)

  /**
   * One light: skydomes and key-named lights are listed first; then, unless
   * the shadow query raises, a caster is listed, and a caster that is neither
   * is listed again as a non-key caster.
   */
  function LightStep(acc: LightLists, l: Light): LightLists {
    var skydomes := if l.kind == SkyDomeKind then acc.skydomes + [l.name] else acc.skydomes;
    var keys := if IsKeyName(l.name) then acc.keys + [l.name] else acc.keys;
    if l.castsShadows == Some(true) then
      var nonKey := if !IsKeyName(l.name) && l.kind != SkyDomeKind then acc.nonKeyCasters + [l.name]
                    else acc.nonKeyCasters;
      LightLists(skydomes, keys, acc.casters + [l.name], nonKey)
    else LightLists(skydomes, keys, acc.casters, acc.nonKeyCasters)
  }

  function ScanLights(lights: seq<Light>): LightLists {
    if lights == [] then LightLists([], [], [], [])
    else LightStep(ScanLights(lights[..|lights| - 1]), lights[|lights| - 1])
  }

  /** `check_ai_shadow_casting_lights`, light by light. */
  method CategorizeLights(lights: seq<Light>) returns (result: LightLists)
    ensures result == ScanLights(lights)
  {
    var skydomes, keys, casters, nonKey: seq<string> := [], [], [], [];
    var i := 0;
    while i < |lights|
      invariant 0 <= i <= |lights|
      invariant LightLists(skydomes, keys, casters, nonKey) == ScanLights(lights[..i])
    {
      var l := lights[i];
      if l.kind == SkyDomeKind {
        skydomes := skydomes + [l.name];
      }
      var isKey := Contains(Lower(l.name), "key");
      if isKey {
        keys := keys + [l.name];
      }
      match l.castsShadows {
        case None =>
        case Some(casts) =>
          if casts {
            casters := casters + [l.name];
            if !isKey && l.kind != SkyDomeKind {
              nonKey := nonKey + [l.name];
            }
          }
      }
      assert lights[..i + 1][..i] == lights[..i];
      i := i + 1;
    }
    assert lights[..i] == lights;
    return LightLists(skydomes, keys, casters, nonKey);
  }

  /** The check's outcome: colour, issues and warnings; the row shows their sum. */
  datatype LightVerdict = LightVerdict(status: Status, issues: nat, warnings: nat)

  const MaxLights: nat := 4
  const MaxShadowCasters: nat := 2

  /**
   * One issue each for a skydome count other than one, a key-light count
   * other than one and more than two casters; one warning each for more than
   * four lights and for any non-key caster that is not a skydome.
   */
  function JudgeLights(lightCount: nat, lists: LightLists): (r: LightVerdict)
    ensures r.issues == (if |lists.skydomes| != 1 then 1 else 0) + (if |lists.keys| != 1 then 1 else 0)
                        + (if |lists.casters| > MaxShadowCasters then 1 else 0)
    ensures r.warnings == (if lightCount > MaxLights then 1 else 0) + (if |lists.nonKeyCasters| > 0 then 1 else 0)
    ensures r.status == Error <==> r.issues > 0
    ensures r.status == Warning <==> r.issues == 0 && r.warnings > 0
  {
    var issues := (if |lists.skydomes| != 1 then 1 else 0) + (if |lists.keys| != 1 then 1 else 0)
                  + (if |lists.casters| > MaxShadowCasters then 1 else 0);
    var warnings := (if lightCount > MaxLights then 1 else 0) + (if |lists.nonKeyCasters| > 0 then 1 else 0);
    LightVerdict(if issues > 0 then Error else if warnings > 0 then Warning else Pass, issues, warnings)
  }

  /** The whole check: a scene without lights passes. */
  function LightsCheck(lights: seq<Light>): (r: LightVerdict)
    ensures lights == [] ==> r == LightVerdict(Pass, 0, 0)
    ensures lights != [] ==> r == JudgeLights(|lights|, ScanLights(lights))
  {
    if lights == [] then LightVerdict(Pass, 0, 0) else JudgeLights(|lights|, ScanLights(lights))
  }

  function SkydomeCount(l: Light): nat { if l.kind == SkyDomeKind then 1 else 0 }
  function KeyCount(l: Light): nat { if IsKeyName(l.name) then 1 else 0 }
  function CasterCount(l: Light): nat { if l.castsShadows == Some(true) then 1 else 0 }
  function NonKeyCasterCount(l: Light): nat {
    if l.castsShadows == Some(true) && !IsKeyName(l.name) && l.kind != SkyDomeKind then 1 else 0
  }

  /**
   * The skydome and key counts do not depend on the shadow query (a light
   * whose query raises still counts), and a caster is a non-key caster only
   * when it is neither a key light nor a skydome.
   */
  lemma {:induction false} LightCounts(lights: seq<Light>)
    ensures |ScanLights(lights).skydomes| == SumOf(lights, SkydomeCount)
    ensures |ScanLights(lights).keys| == SumOf(lights, KeyCount)
    ensures |ScanLights(lights).casters| == SumOf(lights, CasterCount)
    ensures |ScanLights(lights).nonKeyCasters| == SumOf(lights, NonKeyCasterCount)
    ensures |ScanLights(lights).nonKeyCasters| <= |ScanLights(lights).casters|
  {
    if lights != [] {
      LightCounts(lights[..|lights| - 1]);
    }
  }

  /** The four steps of the scan over a four-light scene. */
  lemma ScanFour(a: Light, b: Light, c: Light, d: Light)
    ensures ScanLights([a, b, c, d])
         == LightStep(LightStep(LightStep(LightStep(LightLists([], [], [], []), a), b), c), d)
  {
    var ls := [a, b, c, d];
    assert [a][..0] == [];
    assert ScanLights([a]) == LightStep(LightLists([], [], [], []), a);
    assert [a, b][..1] == [a];
    assert ScanLights([a, b]) == LightStep(ScanLights([a]), b);
    assert [a, b, c][..2] == [a, b];
    assert ScanLights([a, b, c]) == LightStep(ScanLights([a, b]), c);
    assert ls[..3] == [a, b, c];
    assert ScanLights(ls) == LightStep(ScanLights([a, b, c]), d);
  }

  /**
   * A three-point setup passes: one skydome and one key light, both casting,
   * with a fill and a rim that do not cast.
   */
  lemma ThreePointSetupPasses(dome: Light, key: Light, fill: Light, rim: Light)
    requires dome.kind == SkyDomeKind && !IsKeyName(dome.name) && dome.castsShadows == Some(true)
    requires key.kind != SkyDomeKind && IsKeyName(key.name) && key.castsShadows == Some(true)
    requires fill.kind != SkyDomeKind && !IsKeyName(fill.name) && fill.castsShadows == Some(false)
    requires rim.kind != SkyDomeKind && !IsKeyName(rim.name) && rim.castsShadows == Some(false)
    ensures LightsCheck([dome, key, fill, rim]) == LightVerdict(Pass, 0, 0)
  {
    ScanFour(dome, key, fill, rim);
  }

  /**
   * A fill light that casts shadows as well makes three casters: one issue
   * for the caster count and one warning for the non-key caster.
   */
  lemma CastingFillWarns(dome: Light, key: Light, fill: Light, rim: Light)
    requires dome.kind == SkyDomeKind && !IsKeyName(dome.name) && dome.castsShadows == Some(true)
    requires key.kind != SkyDomeKind && IsKeyName(key.name) && key.castsShadows == Some(true)
    requires fill.kind != SkyDomeKind && !IsKeyName(fill.name) && fill.castsShadows == Some(true)
    requires rim.kind != SkyDomeKind && !IsKeyName(rim.name) && rim.castsShadows == Some(false)
    ensures LightsCheck([dome, key, fill, rim]) == LightVerdict(Error, 1, 1)
  {
    ScanFour(dome, key, fill, rim);
  }

  // ---------------------------------------------------------------------------
  // The exported full report
  // ---------------------------------------------------------------------------

  /** The report's title line and its rule of sixty '='. */
  const ReportHeader: string := "CMI Modeling Checklist Full Report v2.0.4:\n" + Repeat('=', 60) + "\n\n"

  /** The reports after the header: each non-empty one followed by a blank line. */
  function ReportBody(reports: seq<string>): string {
    if reports == [] then ""
    else
      var last := reports[|reports| - 1];
      ReportBody(reports[..|reports| - 1]) + (if last != "" then last + "\n\n" else "")
  }

  /** `export_report_to_txt`: the text written to the report file. */
  method ExportReport(reports: seq<string>) returns (text: string)
    ensures text == ReportHeader + ReportBody(reports)
  {
    text := "CMI Modeling Checklist Full Report v2.0.4:\n";
    text := text + Repeat('=', 60) + "\n\n";
    var i := 0;
    while i < |reports|
      invariant 0 <= i <= |reports|
      invariant text == ReportHeader + ReportBody(reports[..i])
    {
      assert reports[..i + 1][..i] == reports[..i];
      if reports[i] != "" {
        text := text + reports[i] + "\n\n";
      }
      i := i + 1;
    }
    assert reports[..i] == reports;
  }

  /** The report of `a + b` is the report of `a` followed by that of `b`. */
  lemma {:induction false} ReportBodyConcat(a: seq<string>, b: seq<string>)
    ensures ReportBody(a + b) == ReportBody(a) + ReportBody(b)
    decreases |b|
  {
    if b == [] {
      assert a + b == a;
    } else {
      var b' := b[..|b| - 1];
      assert (a + b)[..|a + b| - 1] == a + b';
      ReportBodyConcat(a, b');
    }
  }

  /** A check that returned nothing leaves no trace in the report. */
  lemma EmptyReportIgnored(a: seq<string>, b: seq<string>)
    ensures ReportBody(a + [""] + b) == ReportBody(a + b)
  {
    ReportBodyConcat(a + [""], b);
    ReportBodyConcat(a, [""]);
    ReportBodyConcat(a, b);
    var one: seq<string> := [""];
    assert one[..0] == [];
  }

  /** Each non-empty report appears in order, each closed by a blank line. */
  lemma ReportOfTwo(x: string, y: string)
    requires x != "" && y != ""
    ensures ReportBody([x, y]) == x + "\n\n" + y + "\n\n"
  {
    assert [x, y][..1] == [x];
    assert [x][..0] == [];
    assert ReportBody([x]) == x + "\n\n";
    assert (x + "\n\n") + (y + "\n\n") == x + "\n\n" + y + "\n\n";
  }
}
