/**
 * The classification rules of the earlier, single-file modelling checklist.
 * Unlike the cmi-tools checklist it has no per-node exception handling (a
 * scene query that raises ends the check), it appends a default-named object
 * once per matching default name, lists a file node once per expected folder
 * its path lacks, also counts polygons, checks frozen transforms, and judges
 * the lights by a decision chain that leaves skydomes out of the casters.
 */
module LegacyChecklist {
  import opened Wrappers
  import opened PyText
  import opened ChecklistCommon
  import CmiChecklist

  // ---------------------------------------------------------------------------
  // Item 3: total texture count
  // ---------------------------------------------------------------------------

  /** What one file node adds, or None when its UDIM lookup raises. */
  function TextureTiles(node: FileTexture): Option<nat> {
    if node.tilingMode == 0 then Some(1) else node.udimTiles
  }

  /** Every tiled node's UDIM lookup succeeds. */
  predicate LookupsSucceed(nodes: seq<FileTexture>) {
    forall k :: 0 <= k < |nodes| ==> nodes[k].tilingMode == 0 || nodes[k].udimTiles.Some?
  }

  /**
   * The scene's texture count, or None when a lookup raises; when nothing
   * raises it is the count the cmi-tools checklist computes.
   */
  function TextureTotal(nodes: seq<FileTexture>): (r: Option<nat>)
    ensures r.Some? <==> LookupsSucceed(nodes)
    ensures r.Some? ==> r.value == CmiChecklist.TextureTotal(nodes)
  {
    if nodes == [] then Some(0)
    else
      var init := nodes[..|nodes| - 1];
      var last := nodes[|nodes| - 1];
      assert forall k :: 0 <= k < |init| ==> init[k] == nodes[k];
      match TextureTotal(init)
        case None => None
        case Some(n) =>
          match TextureTiles(last)
            case None => None
            case Some(m) => Some(n + m)
  }

  /** `check_total_texture_count`: node by node, stopping where a lookup raises. */
  method CountTextures(nodes: seq<FileTexture>) returns (total: Option<nat>)
    ensures total == TextureTotal(nodes)
  {
    var sum := 0;
    var i := 0;
    while i < |nodes|
      invariant 0 <= i <= |nodes|
      invariant TextureTotal(nodes[..i]) == Some(sum)
    {
      assert nodes[..i + 1][..i] == nodes[..i];
      var node := nodes[i];
      if node.tilingMode != 0 {
        if node.udimTiles.None? {
          assert !LookupsSucceed(nodes) by {
            assert !(nodes[i].tilingMode == 0 || nodes[i].udimTiles.Some?);
          }
          return None;
        }
        sum := sum + node.udimTiles.value;
      } else {
        sum := sum + 1;
      }
      i := i + 1;
    }
    assert nodes[..i] == nodes;
    return Some(sum);
  }

  /** The texture band of this checklist: a count up to `hi` that is not a warning passes. */
  function TextureVerdict(n: int, lo: int, hi: int): (r: Verdict)
    ensures r.status == Warning <==> lo < n <= hi
    ensures r.status == Pass <==> n <= hi && n <= lo
    ensures r.status == Error <==> n > hi
    ensures r.issues == (if r.status == Error then 1 else 0)
  {
    if n <= hi && n > lo then Verdict(Warning, 0)
    else if n <= hi then Verdict(Pass, 0)
    else Verdict(Error, 1)
  }

  /** With the lower limit below the upper one both checklists judge a count alike. */
  lemma TextureRulesAgree(n: int, lo: int, hi: int)
    requires lo < hi
    ensures TextureVerdict(n, lo, hi) == CmiChecklist.TextureVerdict(n, lo, hi)
  {
  }

  /** With custom limits the wrong way round, a count between them passes there and fails here. */
  lemma TextureRulesDiffer(n: int, lo: int, hi: int)
    requires hi < n <= lo
    ensures TextureVerdict(n, lo, hi).status == Error
    ensures CmiChecklist.TextureVerdict(n, lo, hi).status == Pass
  {
  }

  /** The whole check; None where a lookup raised. */
  function TextureCheck(nodes: seq<FileTexture>): (r: Option<Verdict>)
    ensures nodes == [] ==> r == Some(Verdict(Pass, 0))
    ensures nodes != [] ==> (r.Some? <==> LookupsSucceed(nodes))
    ensures nodes != [] && r.Some? ==> r.value == TextureVerdict(TextureTotal(nodes).value, 40, 50)
  {
    if nodes == [] then Some(Verdict(Pass, 0))
    else match TextureTotal(nodes)
      case None => None
      case Some(n) => Some(TextureVerdict(n, 40, 50))
  }

  // ---------------------------------------------------------------------------
  // Item 4: file paths
  // ---------------------------------------------------------------------------

  /** A file node's name and its `fileTextureName`. */
  datatype FileNode = FileNode(name: string, path: string)

  const ExpectedFolders: seq<string> := ["sourceimages"]

  /** How many of the expected folders the lower-cased path does not contain. */
  function MissingFolders(path: string, folders: seq<string>): (n: nat)
    ensures n <= |folders|
  {
    if folders == [] then 0
    else MissingFolders(path, folders[..|folders| - 1])
         + (if !Contains(Lower(path), folders[|folders| - 1]) then 1 else 0)
  }

  /** The entries one node adds: once if its path is empty, else once per missing folder. */
  function PathEntries(node: FileNode, folders: seq<string>): (r: seq<string>)
    ensures |r| == if node.path == "" then 1 else MissingFolders(node.path, folders)
    ensures forall k :: 0 <= k < |r| ==> r[k] == node.name
  {
    if node.path != "" then Repeat(node.name, MissingFolders(node.path, folders)) else [node.name]
  }

  function IncorrectNodes(nodes: seq<FileNode>, folders: seq<string>): seq<string> {
    if nodes == [] then []
    else IncorrectNodes(nodes[..|nodes| - 1], folders) + PathEntries(nodes[|nodes| - 1], folders)
  }

  /** `check_network_file_paths`: every node against every expected folder. */
  method FindIncorrectPaths(nodes: seq<FileNode>, folders: seq<string>) returns (incorrect: seq<string>)
    ensures incorrect == IncorrectNodes(nodes, folders)
  {
    incorrect := [];
    var i := 0;
    while i < |nodes|
      invariant 0 <= i <= |nodes|
      invariant incorrect == IncorrectNodes(nodes[..i], folders)
    {
      assert nodes[..i + 1][..i] == nodes[..i];
      var node := nodes[i];
      if node.path != "" {
        var lowered := Lower(node.path);
        ghost var before := incorrect;
        var j := 0;
        while j < |folders|
          invariant 0 <= j <= |folders|
          invariant incorrect == before + Repeat(node.name, MissingFolders(node.path, folders[..j]))
        {
          assert folders[..j + 1][..j] == folders[..j];
          if !Contains(lowered, folders[j]) {
            incorrect := incorrect + [node.name];
          }
          j := j + 1;
        }
        assert folders[..j] == folders;
      } else {
        incorrect := incorrect + [node.name];
      }
      i := i + 1;
    }
    assert nodes[..i] == nodes;
  }

  /** How many entries one node adds. */
  function EntryCount(folders: seq<string>): FileNode -> nat {
    (node: FileNode) => if node.path == "" then 1 else MissingFolders(node.path, folders)
  }

  /** The list holds one entry per empty path and one per folder a path lacks, so names can repeat. */
  lemma {:induction false} IncorrectCount(nodes: seq<FileNode>, folders: seq<string>)
    ensures |IncorrectNodes(nodes, folders)| == SumOf(nodes, EntryCount(folders))
    ensures forall x :: x in IncorrectNodes(nodes, folders) ==> exists k :: 0 <= k < |nodes| && nodes[k].name == x
  {
    if nodes != [] {
      var init := nodes[..|nodes| - 1];
      IncorrectCount(init, folders);
      assert forall k :: 0 <= k < |init| ==> init[k] == nodes[k];
      var last := PathEntries(nodes[|nodes| - 1], folders);
      forall x | x in IncorrectNodes(nodes, folders)
        ensures exists k :: 0 <= k < |nodes| && nodes[k].name == x
      {
        if x !in IncorrectNodes(init, folders) {
          assert x in last;
          assert nodes[|nodes| - 1].name == x;
        }
      }
    }
  }

  /** A node whose path lacks two expected folders is listed twice. */
  lemma ListedOncePerMissingFolder(node: FileNode, a: string, b: string)
    requires node.path != ""
    requires !Contains(Lower(node.path), a) && !Contains(Lower(node.path), b)
    ensures IncorrectNodes([node], [a, b]) == [node.name, node.name]
  {
    assert [a, b][..1] == [a];
    assert [a][..0] == [];
    assert MissingFolders(node.path, [a]) == 1;
    assert MissingFolders(node.path, [a, b]) == 2;
    assert [node][..0] == [];
    assert IncorrectNodes([node], [a, b]) == [] + Repeat(node.name, 2);
  }

  /** With the one default folder, each node is listed at most once. */
  lemma DefaultFolderListsOnce(nodes: seq<FileNode>)
    ensures |IncorrectNodes(nodes, ExpectedFolders)| <= |nodes|
  {
    IncorrectCount(nodes, ExpectedFolders);
    AtMostOnes(nodes, EntryCount(ExpectedFolders));
  }

  lemma {:induction false} AtMostOnes(xs: seq<FileNode>, f: FileNode -> nat)
    requires forall k :: 0 <= k < |xs| ==> f(xs[k]) <= 1
    ensures SumOf(xs, f) <= |xs|
    decreases |xs|
  {
    if xs != [] {
      AtMostOnes(xs[..|xs| - 1], f);
    }
  }

  /** The whole check: any entry is an error, one issue per entry. */
  function FilePathsCheck(nodes: seq<FileNode>): (r: Verdict)
    ensures r.issues == |IncorrectNodes(nodes, ExpectedFolders)|
    ensures r.status == Error <==> r.issues > 0
    ensures r.status != Warning
  {
    var n := |IncorrectNodes(nodes, ExpectedFolders)|;
    if n == 0 then Verdict(Pass, 0) else Verdict(Error, n)
  }

  // ---------------------------------------------------------------------------
  // Items 6 and 7: triangle and polygon counts
  // ---------------------------------------------------------------------------

  function TriangleTotal(meshes: seq<Mesh>): nat {
    SumOf(meshes, MeshTriangles)
  }

  /** `check_total_triangle_count`, mesh by mesh; a query that raises is not modelled here. */
  method CountTriangles(meshes: seq<Mesh>) returns (total: nat)
    ensures total == TriangleTotal(meshes)
  {
    total := 0;
    var i := 0;
    while i < |meshes|
      invariant 0 <= i <= |meshes|
      invariant total == SumOf(meshes[..i], MeshTriangles)
    {
      var m := meshes[i];
      if m.smoothState > 0 && m.smoothLevel != 0 {
        var one := m.edges * 4;
        if m.smoothLevel > 1 {
          total := total + one * Pow4(m.smoothLevel - 1);
        } else {
          total := total + one;
        }
      } else {
        total := total + m.triangles;
      }
      assert meshes[..i + 1][..i] == meshes[..i];
      i := i + 1;
    }
    assert meshes[..i] == meshes;
  }

  /** The triangle check; its limits are ten times those of the cmi-tools checklist. */
  function TriangleCheck(meshes: seq<Mesh>): (r: Verdict)
    ensures meshes == [] ==> r == Verdict(Pass, 0)
    ensures meshes != [] ==> (r.status == Error <==> TriangleTotal(meshes) >= 2000000)
    ensures meshes != [] ==> (r.status == Warning <==> 1800000 < TriangleTotal(meshes) < 2000000)
  {
    if meshes == [] then Verdict(Pass, 0) else BandVerdict(TriangleTotal(meshes), 1800000, 2000000)
  }

  /** The polygon estimate of one mesh: four faces per face per subdivision level. */
  function MeshPolygons(m: Mesh): (r: nat)
    ensures r >= m.faces
    ensures !Smoothed(m) ==> r == m.faces
  {
    if m.smoothState > 0 && m.smoothLevel != 0 then m.faces * Pow4(m.smoothLevel) else m.faces
  }

  /**
   * On a closed all-quad mesh (twice as many edges as faces) the smoothed
   * estimates agree: two triangles per polygon.
   */
  lemma QuadMeshTwoTrianglesPerPolygon(m: Mesh)
    requires Smoothed(m) && m.edges == 2 * m.faces
    ensures MeshTriangles(m) == 2 * MeshPolygons(m)
  {
  }

  function PolygonTotal(meshes: seq<Mesh>): nat {
    SumOf(meshes, MeshPolygons)
  }

  /** `check_total_polygon_count`, mesh by mesh. */
  method CountPolygons(meshes: seq<Mesh>) returns (total: nat)
    ensures total == PolygonTotal(meshes)
  {
    total := 0;
    var i := 0;
    while i < |meshes|
      invariant 0 <= i <= |meshes|
      invariant total == SumOf(meshes[..i], MeshPolygons)
    {
      var m := meshes[i];
      if m.smoothState > 0 && m.smoothLevel != 0 {
        total := total + m.faces * Pow4(m.smoothLevel);
      } else {
        total := total + m.faces;
      }
      assert meshes[..i + 1][..i] == meshes[..i];
      i := i + 1;
    }
    assert meshes[..i] == meshes;
  }

  function PolygonCheck(meshes: seq<Mesh>): (r: Verdict)
    ensures meshes == [] ==> r == Verdict(Pass, 0)
    ensures meshes != [] ==> (r.status == Error <==> PolygonTotal(meshes) >= 1000000)
    ensures meshes != [] ==> (r.status == Warning <==> 900000 < PolygonTotal(meshes) < 1000000)
  {
    if meshes == [] then Verdict(Pass, 0) else BandVerdict(PolygonTotal(meshes), 900000, 1000000)
  }

  // ---------------------------------------------------------------------------
  // Item 9: default object names, without duplicate removal
  // ---------------------------------------------------------------------------

  /** One pass of the inner loop: append the object for a matching default name. */
  function NameStep(acc: CmiChecklist.NameLists, obj: string, d: string): CmiChecklist.NameLists {
    if StartsWith(obj, d) then acc.(offending := acc.offending + [obj])
    else if Contains(obj, d) then acc.(possible := acc.possible + [obj])
    else acc
  }

  function ScanNames(acc: CmiChecklist.NameLists, obj: string, names: seq<string>): CmiChecklist.NameLists {
    if names == [] then acc
    else NameStep(ScanNames(acc, obj, names[..|names| - 1]), obj, names[|names| - 1])
  }

  function ScanObjects(objects: seq<string>): CmiChecklist.NameLists {
    if objects == [] then CmiChecklist.NameLists([], [])
    else ScanNames(ScanObjects(objects[..|objects| - 1]), objects[|objects| - 1], DefaultObjectNames)
  }

  /** How many default names start `obj`, and how many occur in it elsewhere. */
  function PrefixMatches(obj: string, names: seq<string>): nat {
    if names == [] then 0
    else PrefixMatches(obj, names[..|names| - 1]) + (if StartsWith(obj, names[|names| - 1]) then 1 else 0)
  }

  function EmbedMatches(obj: string, names: seq<string>): nat {
    if names == [] then 0
    else
      var d := names[|names| - 1];
      EmbedMatches(obj, names[..|names| - 1]) + (if !StartsWith(obj, d) && Contains(obj, d) then 1 else 0)
  }

  /** The inner loop appends `obj` once per default name that starts it or occurs in it. */
  lemma {:induction false} ScanNamesAppends(acc: CmiChecklist.NameLists, obj: string, names: seq<string>)
    ensures ScanNames(acc, obj, names).offending == acc.offending + Repeat(obj, PrefixMatches(obj, names))
    ensures ScanNames(acc, obj, names).possible == acc.possible + Repeat(obj, EmbedMatches(obj, names))
  {
    if names != [] {
      ScanNamesAppends(acc, obj, names[..|names| - 1]);
    }
  }

  /** A positive count of matches means some default name matches, and back. */
  lemma {:induction false} MatchesWitness(obj: string, names: seq<string>)
    ensures PrefixMatches(obj, names) > 0 <==> HasDefaultPrefix(obj, names)
    ensures EmbedMatches(obj, names) > 0 <==> EmbedsDefault(obj, names)
  {
    if names != [] {
      var init := names[..|names| - 1];
      var d := names[|names| - 1];
      MatchesWitness(obj, init);
      assert forall k :: 0 <= k < |init| ==> init[k] == names[k];
      if HasDefaultPrefix(obj, names) && !StartsWith(obj, d) {
        var k :| 0 <= k < |names| && StartsWith(obj, names[k]);
        assert k < |init| && StartsWith(obj, init[k]);
      }
      if StartsWith(obj, d) { assert StartsWith(obj, names[|names| - 1]); }
      if EmbedsDefault(obj, names) && !(!StartsWith(obj, d) && Contains(obj, d)) {
        var k :| 0 <= k < |names| && !StartsWith(obj, names[k]) && Contains(obj, names[k]);
        assert k < |init| && !StartsWith(obj, init[k]) && Contains(obj, init[k]);
      }
      if !StartsWith(obj, d) && Contains(obj, d) { assert Contains(obj, names[|names| - 1]); }
    }
  }

  /** `check_default_object_names`: every object against every default name. */
  method FindDefaultNames(objects: seq<string>) returns (offending: seq<string>, possible: seq<string>)
    ensures CmiChecklist.NameLists(offending, possible) == ScanObjects(objects)
  {
    offending, possible := [], [];
    var i := 0;
    while i < |objects|
      invariant 0 <= i <= |objects|
      invariant CmiChecklist.NameLists(offending, possible) == ScanObjects(objects[..i])
    {
      var obj := objects[i];
      ghost var before := CmiChecklist.NameLists(offending, possible);
      var j := 0;
      while j < |DefaultObjectNames|
        invariant 0 <= j <= |DefaultObjectNames|
        invariant CmiChecklist.NameLists(offending, possible) == ScanNames(before, obj, DefaultObjectNames[..j])
      {
        var d := DefaultObjectNames[j];
        ScanNamesStep(before, obj, DefaultObjectNames, j);
        if StartsWith(obj, d) {
          offending := offending + [obj];
        } else if Contains(obj, d) {
          possible := possible + [obj];
        }
        j := j + 1;
      }
      assert DefaultObjectNames[..j] == DefaultObjectNames;
      ScanObjectsStep(objects, i);
      i := i + 1;
    }
    assert objects[..i] == objects;
  }

  /** One more default name in the inner loop is one more step. */
  lemma ScanNamesStep(acc: CmiChecklist.NameLists, obj: string, names: seq<string>, j: nat)
    requires j < |names|
    ensures ScanNames(acc, obj, names[..j + 1]) == NameStep(ScanNames(acc, obj, names[..j]), obj, names[j])
  {
    assert names[..j + 1][..j] == names[..j];
  }

  /** One more object in the outer loop is one more inner loop. */
  lemma ScanObjectsStep(objects: seq<string>, i: nat)
    requires i < |objects|
    ensures ScanObjects(objects[..i + 1]) == ScanNames(ScanObjects(objects[..i]), objects[i], DefaultObjectNames)
  {
    assert objects[..i + 1][..i] == objects[..i];
  }

  function PrefixCount(obj: string): nat { PrefixMatches(obj, DefaultObjectNames) }
  function EmbedCount(obj: string): nat { EmbedMatches(obj, DefaultObjectNames) }

  /**
   * The lists hold an object once per matching default name, so their lengths
   * (and the issue count) add up the matches.
   */
  lemma {:induction false} DefaultNameCounts(objects: seq<string>)
    ensures |ScanObjects(objects).offending| == SumOf(objects, PrefixCount)
    ensures |ScanObjects(objects).possible| == SumOf(objects, EmbedCount)
  {
    if objects != [] {
      var init := objects[..|objects| - 1];
      DefaultNameCounts(init);
      ScanNamesAppends(ScanObjects(init), objects[|objects| - 1], DefaultObjectNames);
    }
  }

  /** Both checklists list the same objects; only the cmi-tools one keeps each once. */
  lemma {:induction false} SameObjectsListed(objects: seq<string>)
    ensures forall x :: x in ScanObjects(objects).offending <==> x in CmiChecklist.ScanObjects(objects).offending
    ensures forall x :: x in ScanObjects(objects).possible <==> x in CmiChecklist.ScanObjects(objects).possible
  {
    CmiChecklist.DefaultNameLists(objects);
    if objects != [] {
      var init := objects[..|objects| - 1];
      var obj := objects[|objects| - 1];
      SameObjectsListed(init);
      CmiChecklist.DefaultNameLists(init);
      ScanNamesAppends(ScanObjects(init), obj, DefaultObjectNames);
      MatchesWitness(obj, DefaultObjectNames);
      RepeatMembers(obj, PrefixCount(obj));
      RepeatMembers(obj, EmbedCount(obj));
      assert forall x :: x in objects <==> x in init || x == obj by {
        assert objects == init + [obj];
      }
    }
  }

  lemma RepeatMembers(obj: string, n: nat)
    ensures forall x :: x in Repeat(obj, n) <==> n > 0 && x == obj
  {
    if n > 0 { assert Repeat(obj, n)[0] == obj; }
  }

  /** The whole check: a scene without objects passes; the issues are the offending list's length. */
  function DefaultNamesCheck(objects: seq<string>): (r: Verdict)
    ensures objects == [] ==> r == Verdict(Pass, 0)
    ensures objects != [] ==> r == NameVerdict(|ScanObjects(objects).offending|, |ScanObjects(objects).possible|)
  {
    if objects == [] then Verdict(Pass, 0)
    else
      var lists := ScanObjects(objects);
      NameVerdict(|lists.offending|, |lists.possible|)
  }

  /** Both checklists give the same colour for the same scene; only the issue count may differ. */
  lemma DefaultNamesSameColour(objects: seq<string>)
    ensures DefaultNamesCheck(objects).status == CmiChecklist.DefaultNamesCheck(objects).status
  {
    SameObjectsListed(objects);
    var a := ScanObjects(objects);
    var b := CmiChecklist.ScanObjects(objects);
    assert |a.offending| == 0 <==> |b.offending| == 0 by {
      if |a.offending| > 0 { assert a.offending[0] in b.offending; }
      if |b.offending| > 0 { assert b.offending[0] in a.offending; }
    }
    assert |a.possible| == 0 <==> |b.possible| == 0 by {
      if |a.possible| > 0 { assert a.possible[0] in b.possible; }
      if |b.possible| > 0 { assert b.possible[0] in a.possible; }
    }
  }

  // ---------------------------------------------------------------------------
  // Item 13: frozen transforms
  // ---------------------------------------------------------------------------

  /**
   * A transform as the check reads it: the node types of its children,
   * whether any rotation channel is non-zero, and whether anything is
   * connected to rotateX, rotateY, rotateZ or rotate.
   */
  datatype RotatedTransform = RotatedTransform(name: string, childKinds: seq<string>, rotated: bool, connected: bool)

  predicate IsGeometry(kind: string) { kind == "mesh" || kind == "nurbsCurve" }

  /** How many of the children are meshes or NURBS curves. */
  function GeometryChildren(kinds: seq<string>): (n: nat)
    ensures n <= |kinds|
  {
    if kinds == [] then 0
    else GeometryChildren(kinds[..|kinds| - 1]) + (if IsGeometry(kinds[|kinds| - 1]) then 1 else 0)
  }

  /** The entries one transform adds: once per geometry child when rotated and not driven. */
  function UnfrozenEntries(t: RotatedTransform): (r: seq<string>)
    ensures |r| == if t.rotated && !t.connected then GeometryChildren(t.childKinds) else 0
    ensures forall k :: 0 <= k < |r| ==> r[k] == t.name
  {
    if t.rotated && !t.connected then Repeat(t.name, GeometryChildren(t.childKinds)) else []
  }

  function Unfrozen(ts: seq<RotatedTransform>): seq<string> {
    if ts == [] then [] else Unfrozen(ts[..|ts| - 1]) + UnfrozenEntries(ts[|ts| - 1])
  }

  /** `check_frozen_transforms`: every child of every transform. */
  method FindUnfrozen(ts: seq<RotatedTransform>) returns (unfrozen: seq<string>)
    ensures unfrozen == Unfrozen(ts)
  {
    unfrozen := [];
    var i := 0;
    while i < |ts|
      invariant 0 <= i <= |ts|
      invariant unfrozen == Unfrozen(ts[..i])
    {
      assert ts[..i + 1][..i] == ts[..i];
      var t := ts[i];
      ghost var before := unfrozen;
      var j := 0;
      while j < |t.childKinds|
        invariant 0 <= j <= |t.childKinds|
        invariant unfrozen == before + (if t.rotated && !t.connected
                                         then Repeat(t.name, GeometryChildren(t.childKinds[..j])) else [])
      {
        assert t.childKinds[..j + 1][..j] == t.childKinds[..j];
        var kind := t.childKinds[j];
        if kind == "mesh" || kind == "nurbsCurve" {
          if t.rotated && !t.connected {
            unfrozen := unfrozen + [t.name];
          }
        }
        j := j + 1;
      }
      assert t.childKinds[..j] == t.childKinds;
      i := i + 1;
    }
    assert ts[..i] == ts;
  }

  function UnfrozenCount(t: RotatedTransform): nat {
    if t.rotated && !t.connected then GeometryChildren(t.childKinds) else 0
  }

  /** One entry per geometry child of each rotated, undriven transform. */
  lemma {:induction false} UnfrozenCounts(ts: seq<RotatedTransform>)
    ensures |Unfrozen(ts)| == SumOf(ts, UnfrozenCount)
  {
    if ts != [] {
      UnfrozenCounts(ts[..|ts| - 1]);
    }
  }

  /** The whole check: un-frozen transforms only ever warn, one issue per entry. */
  function FrozenCheck(ts: seq<RotatedTransform>): (r: Verdict)
    ensures r.status != Error
    ensures r.status == Warning <==> |Unfrozen(ts)| > 0
    ensures r.issues == |Unfrozen(ts)|
  {
    var n := |Unfrozen(ts)|;
    if n == 0 then Verdict(Pass, 0) else Verdict(Warning, n)
  }

  /** A rotated transform with two mesh children counts as two issues. */
  lemma TwoShapesTwoIssues(name: string)
    ensures FrozenCheck([RotatedTransform(name, ["mesh", "mesh"], true, false)]) == Verdict(Warning, 2)
  {
    var t := RotatedTransform(name, ["mesh", "mesh"], true, false);
    assert ["mesh", "mesh"][..1] == ["mesh"];
    assert ["mesh"][..0] == [];
    assert GeometryChildren(["mesh"]) == 1;
    assert GeometryChildren(["mesh", "mesh"]) == 2;
    assert [t][..0] == [];
    assert Unfrozen([t]) == [] + UnfrozenEntries(t);
  }

  // ---------------------------------------------------------------------------
  // Item 17: shadow-casting lights
  // ---------------------------------------------------------------------------

  datatype LightLists = LightLists(skydomes: nat, casters: seq<string>, keyCasters: seq<string>, nonKeyCasters: seq<string>)

  /**
   * One light: a skydome is only counted (its shadows are never queried);
   * another light's shadow query decides whether it is a caster, split by a
   * "key" in its name. None when that query raises.
   */
  function LightStep(acc: LightLists, l: Light): Option<LightLists> {
    if l.kind == SkyDomeKind then Some(acc.(skydomes := acc.skydomes + 1))
    else match l.castsShadows
      case None => None
      case Some(false) => Some(acc)
      case Some(true) =>
        if IsKeyName(l.name) then Some(acc.(casters := acc.casters + [l.name], keyCasters := acc.keyCasters + [l.name]))
        else Some(acc.(casters := acc.casters + [l.name], nonKeyCasters := acc.nonKeyCasters + [l.name]))
  }

  function ScanLights(lights: seq<Light>): Option<LightLists> {
    if lights == [] then Some(LightLists(0, [], [], []))
    else match ScanLights(lights[..|lights| - 1])
      case None => None
      case Some(acc) => LightStep(acc, lights[|lights| - 1])
  }

  /** `check_ai_shadow_casting_lights`, light by light; None where a query raised. */
  method CategorizeLights(lights: seq<Light>) returns (result: Option<LightLists>)
    ensures result == ScanLights(lights)
  {
    var skydomes := 0;
    var casters, keyCasters, nonKey: seq<string> := [], [], [];
    var i := 0;
    while i < |lights|
      invariant 0 <= i <= |lights|
      invariant ScanLights(lights[..i]) == Some(LightLists(skydomes, casters, keyCasters, nonKey))
    {
      assert lights[..i + 1][..i] == lights[..i];
      var l := lights[i];
      if l.kind == SkyDomeKind {
        skydomes := skydomes + 1;
      } else {
        if l.castsShadows.None? {
          ScanLightsStopped(lights, i);
          return None;
        }
        if l.castsShadows.value {
          casters := casters + [l.name];
          if Contains(Lower(l.name), "key") {
            keyCasters := keyCasters + [l.name];
          } else {
            nonKey := nonKey + [l.name];
          }
        }
      }
      i := i + 1;
    }
    assert lights[..i] == lights;
    return Some(LightLists(skydomes, casters, keyCasters, nonKey));
  }

  /** Once a query has raised, the scan stays raised. */
  lemma {:induction false} ScanLightsStopped(lights: seq<Light>, i: nat)
    requires i < |lights| && ScanLights(lights[..i + 1]).None?
    ensures ScanLights(lights).None?
    decreases |lights|
  {
    if i + 1 < |lights| {
      var init := lights[..|lights| - 1];
      assert init[..i + 1] == lights[..i + 1];
      ScanLightsStopped(init, i);
    } else {
      assert lights[..i + 1] == lights;
    }
  }

  /** The number of non-skydome casters, and of those with "key" in their name. */
  function CasterCount(l: Light): nat { if l.kind != SkyDomeKind && l.castsShadows == Some(true) then 1 else 0 }
  function KeyCasterCount(l: Light): nat { if CasterCount(l) == 1 && IsKeyName(l.name) then 1 else 0 }
  function SkydomeCount(l: Light): nat { if l.kind == SkyDomeKind then 1 else 0 }

  /**
   * When no query raises: skydomes are counted but never casters, and the
   * casters split exactly into key and non-key casters. A skydome's shadow
   * query never runs, so it cannot raise.
   */
  lemma {:induction false} LightCounts(lights: seq<Light>)
    ensures ScanLights(lights).Some? <==>
              forall k :: 0 <= k < |lights| ==> lights[k].kind == SkyDomeKind || lights[k].castsShadows.Some?
    ensures ScanLights(lights).Some? ==>
              var r := ScanLights(lights).value;
              r.skydomes == SumOf(lights, SkydomeCount)
              && |r.casters| == SumOf(lights, CasterCount)
              && |r.keyCasters| == SumOf(lights, KeyCasterCount)
              && |r.keyCasters| + |r.nonKeyCasters| == |r.casters|
  {
    if lights != [] {
      var init := lights[..|lights| - 1];
      LightCounts(init);
      assert forall k :: 0 <= k < |init| ==> init[k] == lights[k];
    }
  }

  const MaxTotalLights: nat := 4
  const MinSkydomes: nat := 1

  /**
   * The decision chain, first match wins: no caster is an error; several
   * casters are an error with several key casters and a warning otherwise;
   * then a missing skydome is an error, a single caster without "key" is an
   * error, more than four lights a warning, and anything else passes.
   */
  function JudgeLights(totalLights: nat, lists: LightLists): (r: Verdict)
    ensures r.issues == (if r.status == Error then 1 else 0)
    ensures |lists.casters| == 0 ==> r.status == Error
    ensures |lists.casters| > 1 ==> (r.status == Error <==> |lists.keyCasters| > 1) && r.status != Pass
    ensures r.status == Pass <==>
              |lists.casters| == 1 && lists.skydomes >= MinSkydomes && |lists.keyCasters| >= 1
              && totalLights <= MaxTotalLights
  {
    if |lists.casters| == 0 then Verdict(Error, 1)
    else if |lists.casters| > 1 then
      (if |lists.keyCasters| > 1 then Verdict(Error, 1) else Verdict(Warning, 0))
    else if lists.skydomes < MinSkydomes then Verdict(Error, 1)
    else if |lists.casters| == 1 && |lists.keyCasters| < 1 then Verdict(Error, 1)
    else if totalLights > MaxTotalLights then Verdict(Warning, 0)
    else Verdict(Pass, 0)
  }

  /** What the check ends with: Arnold not loaded, a raised query, or a verdict. */
  datatype LightsOutcome = NoArnold | QueryRaised | Judged(verdict: Verdict)

  /** The whole check: without Arnold nothing is judged; a scene without lights passes. */
  function LightsCheck(arnoldLoaded: bool, lights: seq<Light>): (r: LightsOutcome)
    ensures !arnoldLoaded ==> r == NoArnold
    ensures arnoldLoaded && lights == [] ==> r == Judged(Verdict(Pass, 0))
    ensures arnoldLoaded && lights != [] ==>
              (r.QueryRaised? <==> ScanLights(lights).None?)
              && (r.Judged? ==> r.verdict == JudgeLights(|lights|, ScanLights(lights).value))
  {
    if !arnoldLoaded then NoArnold
    else if lights == [] then Judged(Verdict(Pass, 0))
    else match ScanLights(lights)
      case None => QueryRaised
      case Some(lists) => Judged(JudgeLights(|lights|, lists))
  }

  /** The four steps of the scan over a four-light scene. */
  lemma ScanFour(a: Light, b: Light, c: Light, d: Light)
    ensures ScanLights([a, b, c, d])
         == match ScanLights([a, b, c])
              case None => None
              case Some(acc) => LightStep(acc, d)
    ensures ScanLights([a, b, c])
         == match ScanLights([a, b])
              case None => None
              case Some(acc) => LightStep(acc, c)
    ensures ScanLights([a, b])
         == match LightStep(LightLists(0, [], [], []), a)
              case None => None
              case Some(acc) => LightStep(acc, b)
  {
    assert [a, b, c, d][..3] == [a, b, c];
    assert [a, b, c][..2] == [a, b];
    assert [a, b][..1] == [a];
    assert [a][..0] == [];
    assert ScanLights([a]) == LightStep(LightLists(0, [], [], []), a);
  }

  /**
   * Where the checklists part: a casting skydome, key and fill light with a
   * rim that does not cast is an error there (three casters) and only a
   * warning here (two casters, one of them a key light).
   */
  lemma CastingFillDiffers(dome: Light, key: Light, fill: Light, rim: Light)
    requires dome.kind == SkyDomeKind && !IsKeyName(dome.name) && dome.castsShadows == Some(true)
    requires key.kind != SkyDomeKind && IsKeyName(key.name) && key.castsShadows == Some(true)
    requires fill.kind != SkyDomeKind && !IsKeyName(fill.name) && fill.castsShadows == Some(true)
    requires rim.kind != SkyDomeKind && !IsKeyName(rim.name) && rim.castsShadows == Some(false)
    ensures CmiChecklist.LightsCheck([dome, key, fill, rim]).status == Error
    ensures LightsCheck(true, [dome, key, fill, rim]) == Judged(Verdict(Warning, 0))
  {
    CmiChecklist.CastingFillWarns(dome, key, fill, rim);
    ScanFour(dome, key, fill, rim);
  }

  /** Both checklists pass the plain three-point setup with a skydome. */
  lemma ThreePointSetupPasses(dome: Light, key: Light, fill: Light, rim: Light)
    requires dome.kind == SkyDomeKind && !IsKeyName(dome.name) && dome.castsShadows == Some(true)
    requires key.kind != SkyDomeKind && IsKeyName(key.name) && key.castsShadows == Some(true)
    requires fill.kind != SkyDomeKind && !IsKeyName(fill.name) && fill.castsShadows == Some(false)
    requires rim.kind != SkyDomeKind && !IsKeyName(rim.name) && rim.castsShadows == Some(false)
    ensures CmiChecklist.LightsCheck([dome, key, fill, rim]).status == Pass
    ensures LightsCheck(true, [dome, key, fill, rim]) == Judged(Verdict(Pass, 0))
  {
    CmiChecklist.ThreePointSetupPasses(dome, key, fill, rim);
    ScanFour(dome, key, fill, rim);
  }
}
