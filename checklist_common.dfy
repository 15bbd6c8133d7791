/**
 * What the two modelling checklists share: the status colour a check ends
 * in, Maya's short object names, the ids of the checklist rows, the
 * scene records the checks read (meshes, file textures, lights), the
 * smoothed-mesh estimates and the band rule of the count checks.
 */
module ChecklistCommon {
  import opened Wrappers
  import opened PyText

  /** The colour of a check's status button. */
  datatype Status = Pass | Warning | Error

  /** A check's colour and the number of issues it reports. */
  datatype Verdict = Verdict(status: Status, issues: nat)

  // ---------------------------------------------------------------------------
  // get_short_name and item ids
  // ---------------------------------------------------------------------------

  /** The last part of a split is a suffix of the text. */
  lemma {:induction false} LastPartSuffix(s: string, c: char)
    ensures EndsWith(s, Split(s, c)[|Split(s, c)| - 1])
    decreases |s|
  {
    match IndexOf(s, c)
      case None =>
        assert s[|s| - |s|..] == s;
      case Some(i) =>
        var t := s[i + 1..];
        assert Split(s, c) == [s[..i]] + Split(t, c);
        LastPartSuffix(t, c);
        var x := Split(t, c)[|Split(t, c)| - 1];
        assert t[|t| - |x|..] == s[|s| - |x|..];
  }

  /**
   * `get_short_name(obj)`: "" for "", otherwise the text after the last '|'
   * of a Maya DAG path. The result never holds a '|' and ends the path.
   */
  function ShortName(obj: string): (r: string)
    ensures obj == "" ==> r == ""
    ensures '|' !in r
    ensures EndsWith(obj, r)
  {
    if obj == "" then ""
    else
      var parts := Split(obj, '|');
      LastPartSuffix(obj, '|');
      parts[|parts| - 1]
  }

  /** The short name of a path built from '|'-free names is its last name. */
  lemma ShortNameOfPath(parts: seq<string>)
    requires |parts| >= 1
    requires forall k :: 0 <= k < |parts| ==> '|' !in parts[k]
    ensures ShortName(Join(parts, '|')) == parts[|parts| - 1]
  {
    var path := Join(parts, '|');
    SplitJoin(parts, '|');
    if path == "" {
      assert IndexOf(path, '|') == None;
      assert parts == [path];
    } else {
      var split := Split(path, '|');
      assert ShortName(path) == split[|split| - 1];
    }
  }

  /** `item_name.lower().replace(" ", "_").replace("-", "_")`. */
  function ItemId(name: string): (r: string)
    ensures |r| == |name|
    ensures forall i :: 0 <= i < |r| ==> r[i] != ' ' && r[i] != '-' && !('A' <= r[i] <= 'Z')
    ensures forall i :: 0 <= i < |r| && name[i] != ' ' && name[i] != '-' ==> r[i] == LowerChar(name[i])
  {
    ReplaceChar(ReplaceChar(Lower(name), ' ', '_'), '-', '_')
  }

  /** An item id is its own id. */
  lemma ItemIdIdempotent(name: string)
    ensures ItemId(ItemId(name)) == ItemId(name)
  {
  }

  /** Names differing only in letter case, spaces and hyphens share their id. */
  lemma ItemIdExample()
    ensures ItemId("Non-manifold Geometry") == ItemId("non manifold-geometry")
  {
    SameIdPointwise("Non-manifold Geometry", "non manifold-geometry");
  }

  /** Names whose characters agree up to letter case, spaces and hyphens share their id. */
  lemma SameIdPointwise(a: string, b: string)
    requires |a| == |b|
    requires forall i :: 0 <= i < |a| ==> ItemId([a[i]]) == ItemId([b[i]])
    ensures ItemId(a) == ItemId(b)
  {
    forall i | 0 <= i < |a|
      ensures ItemId(a)[i] == ItemId(b)[i]
    {
      assert ItemId(a)[i] == ItemId([a[i]])[0];
      assert ItemId(b)[i] == ItemId([b[i]])[0];
    }
  }

  // ---------------------------------------------------------------------------
  // Scene records
  // ---------------------------------------------------------------------------

  /**
   * A mesh as the count checks read it: `smoothLevel` (never negative in
   * Maya), `displaySmoothMesh`, and the triangle, edge and face counts.
   */
  datatype Mesh = Mesh(smoothLevel: nat, smoothState: int, triangles: nat, edges: nat, faces: nat)

  /** The mesh is displayed smoothed, so the viewport renders its subdivision. */
  predicate Smoothed(m: Mesh) { m.smoothState > 0 && m.smoothLevel != 0 }

  function Pow4(n: nat): (r: nat)
    ensures r >= 1
  {
    if n == 0 then 1 else 4 * Pow4(n - 1)
  }

  /**
   * The triangle estimate of one mesh: four triangles per edge for the first
   * subdivision level and a factor four per further level, or the mesh's own
   * triangles when it is not displayed smoothed.
   */
  function MeshTriangles(m: Mesh): (r: nat)
    ensures Smoothed(m) ==> r == m.edges * Pow4(m.smoothLevel)
    ensures !Smoothed(m) ==> r == m.triangles
  {
    if Smoothed(m) then
      var one := m.edges * 4;
      if m.smoothLevel > 1 then one * Pow4(m.smoothLevel - 1) else one
    else m.triangles
  }

  /** One more subdivision level multiplies a smoothed mesh's estimate by four. */
  lemma MoreLevelsMoreTriangles(m: Mesh)
    requires Smoothed(m)
    ensures MeshTriangles(m.(smoothLevel := m.smoothLevel + 1)) == 4 * MeshTriangles(m)
  {
  }

  /**
   * The count checks' band rule: strictly between the two limits is a
   * warning, under the upper limit otherwise a pass, at or above it an error.
   */
  function BandVerdict(n: int, lo: int, hi: int): (r: Verdict)
    ensures r.status == Warning <==> lo < n < hi
    ensures r.status == Pass <==> n < hi && n <= lo
    ensures r.status == Error <==> n >= hi
    ensures r.issues == (if r.status == Error then 1 else 0)
  {
    if n < hi && n > lo then Verdict(Warning, 0)
    else if n < hi then Verdict(Pass, 0)
    else Verdict(Error, 1)
  }

  /** A texture file node: its `uvTilingMode` and the UDIM tiles found for it, None when that lookup raises. */
  datatype FileTexture = FileTexture(tilingMode: int, udimTiles: Option<nat>)

  /** A light: its node name, its node type, and whether it casts shadows (None when that query raises). */
  datatype Light = Light(name: string, kind: string, castsShadows: Option<bool>)

  const SkyDomeKind: string := "aiSkyDomeLight"

  /** `'key' in light.lower()`. */
  predicate IsKeyName(name: string) { Contains(Lower(name), "key") }

  // ---------------------------------------------------------------------------
  // Default object names
  // ---------------------------------------------------------------------------

  /** The names Maya gives new primitives and lights, which the default-name checks look for. */
  const DefaultObjectNames: seq<string> := [
    "nurbsSphere", "nurbsCube", "nurbsCylinder", "nurbsCone",
    "nurbsPlane", "nurbsTorus", "nurbsCircle", "nurbsSquare",
    "pSphere", "pCube", "pCylinder", "pCone", "pPlane", "pTorus",
    "pPrism", "pPyramid", "pPipe", "pHelix", "pSolid",
    "rsPhysicalLight", "rsIESLight", "rsPortalLight", "aiAreaLight",
    "rsDomeLight", "aiPhotometricLight", "aiLightPortal",
    "ambientLight", "directionalLight", "pointLight", "spotLight",
    "areaLight", "volumeLight"]

  /** Some default name starts `x`. */
  predicate HasDefaultPrefix(x: string, names: seq<string>) {
    exists k :: 0 <= k < |names| && StartsWith(x, names[k])
  }

  /** Some default name occurs in `x` without starting it. */
  predicate EmbedsDefault(x: string, names: seq<string>) {
    exists k :: 0 <= k < |names| && !StartsWith(x, names[k]) && Contains(x, names[k])
  }

  /**
   * The default-name checks' colour: an error for any offending object (one
   * issue each), a warning when there are only possible offenders, else a pass.
   */
  function NameVerdict(offending: nat, possible: nat): (r: Verdict)
    ensures r.status == Error <==> offending > 0
    ensures r.status == Warning <==> offending == 0 && possible > 0
    ensures r.issues == offending
  {
    if possible != 0 && offending == 0 then Verdict(Warning, 0)
    else if offending == 0 then Verdict(Pass, 0)
    else Verdict(Error, offending)
  }

  /** No element twice. */
  predicate NoDup<T(==)>(xs: seq<T>) {
    forall i, j :: 0 <= i < j < |xs| ==> xs[i] != xs[j]
  }

  /** How often `x` occurs in `xs`. */
  function Occurrences<T(==)>(xs: seq<T>, x: T): (n: nat)
    ensures n <= |xs|
    ensures n > 0 <==> x in xs
  {
    if xs == [] then 0
    else (if xs[0] == x then 1 else 0) + Occurrences(xs[1..], x)
  }

  /** `n` copies of `x`: what appending `x` once per match leaves behind. */
  function Repeat<T>(x: T, n: nat): (r: seq<T>)
    ensures |r| == n
    ensures forall k :: 0 <= k < n ==> r[k] == x
  {
    seq(n, _ => x)
  }

  // ---------------------------------------------------------------------------
  // Running totals over scene nodes
  // ---------------------------------------------------------------------------

  /** `total += f(node)` over the nodes, in order. */
  function SumOf<T>(xs: seq<T>, f: T -> nat): (n: nat)
    ensures xs == [] ==> n == 0
  {
    if xs == [] then 0 else SumOf(xs[..|xs| - 1], f) + f(xs[|xs| - 1])
  }

  /** The total over `a + b` is the total over `a` plus the total over `b`. */
  lemma {:induction false} SumOfConcat<T>(a: seq<T>, b: seq<T>, f: T -> nat)
    ensures SumOf(a + b, f) == SumOf(a, f) + SumOf(b, f)
    decreases |b|
  {
    if b == [] {
      assert a + b == a;
    } else {
      var b' := b[..|b| - 1];
      assert (a + b)[..|a + b| - 1] == a + b';
      SumOfConcat(a, b', f);
    }
  }

  /** A total that is 1 per node is the number of nodes. */
  lemma {:induction false} SumOfOnes<T>(xs: seq<T>, f: T -> nat)
    requires forall k :: 0 <= k < |xs| ==> f(xs[k]) == 1
    ensures SumOf(xs, f) == |xs|
    decreases |xs|
  {
    if xs != [] {
      SumOfOnes(xs[..|xs| - 1], f);
    }
  }
}
