/**
 * The `releases.json` manifest as both `version_utils` modules read it: a
 * decoded JSON document that must hold the fields `current_version` and
 * `tool_name`, checked with Python's `in` operator on whatever the document
 * turned out to be.
 */
module Manifest {
  import opened Wrappers
  import opened PyText
  import opened PyValue
  import opened SemVer

  /**
   * What a read gets from its file or URL: nothing (missing file, HTTP
   * failure, undecodable JSON) or the decoded document.
   */
  datatype Source = Unavailable | Loaded(doc: Value)

  /** Python's `key in container` for a str key; `None` where Python raises TypeError. */
  function PyIn(key: string, container: Value): (r: Option<bool>)
    ensures r.None? <==> !(container.PyDict? || container.PyStr? || container.PyList? || container.PyTuple?)
    ensures container.PyDict? ==> r == Some(key in container.entries)
    ensures container.PyStr? ==> r == Some(Contains(container.s, key))
  {
    match container
      case PyDict(entries) => Some(key in entries)
      case PyStr(s) => Some(Contains(s, key))
      case PyList(items) => Some(PyStr(key) in items)
      case PyTuple(elems) => Some(PyStr(key) in elems)
      case _ => None
  }

  predicate HasRequiredFields(doc: Value) {
    PyIn("current_version", doc) == Some(true) && PyIn("tool_name", doc) == Some(true)
  }

  /** `read_manifest_from_file` / `read_manifest_from_url` without a decorator. */
  function ReadManifest(src: Source): (r: Outcome)
    ensures r.Returned? <==> src.Loaded? && HasRequiredFields(src.doc)
    ensures r.Returned? ==> r.value == src.doc
  {
    match src
      case Unavailable => Raised
      case Loaded(doc) =>
        if PyIn("current_version", doc) != Some(true) then Raised
        else if PyIn("tool_name", doc) != Some(true) then Raised
        else Returned(doc)
  }

  /** A dict document is accepted exactly when it has both keys; other values are kept only by the `in` of their own type. */
  lemma ReadManifestDict(entries: map<string, Value>)
    ensures ReadManifest(Loaded(PyDict(entries))).Returned? <==> "current_version" in entries && "tool_name" in entries
  {
  }

  /**
   * A read wrapped in `@handle_version_errors(fallback)` never yields the
   * manifest: a dict is not a valid version, and a str that holds
   * "current_version" holds an underscore.
   */
  lemma {:induction false} DecoratedReadIsFallback(src: Source, fallback: string)
    ensures WithFallback(ReadManifest(src), fallback) == PyStr(fallback)
  {
    var o := ReadManifest(src);
    if o.Returned? && o.value.PyStr? {
      var s := o.value.s;
      assert Contains(s, "current_version");
      var i :| 0 <= i <= |s| - 15 && OccursAt(s, "current_version", i);
      assert s[i..i + 15][7] == '_';
      UnderscoreNotValid(s, i + 7);
    }
  }

  lemma KeyMakesTruthy(md: Value, k: string)
    ensures md.PyDict? && k in md.entries ==> Truthy(md)
  {
    if md.PyDict? && k in md.entries { assert k in md.entries.Keys; }
  }

  /**
   * The steps of `get_prof_tools_version` and `get_fdma2530_version` after
   * the manifest is obtained: a falsy manifest, a non-dict (`.get` raises),
   * a falsy or invalid `current_version` all raise; otherwise that field.
   */
  function CurrentVersionOf(md: Value): (r: Option<Value>)
    ensures r.Some? <==> md.PyDict? && "current_version" in md.entries && IsValid(md.entries["current_version"])
    ensures r.Some? ==> r.value == md.entries["current_version"] && IsValid(r.value)
  {
    KeyMakesTruthy(md, "current_version");
    if !Truthy(md) then None
    else if !md.PyDict? then None
    else
      var cv := Get(md.entries, "current_version", PyNone);
      ValidIsTruthy(cv);
      if !Truthy(cv) || !IsValid(cv) then None else Some(cv)
  }
}
