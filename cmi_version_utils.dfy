/**
 * `fdma_shelf/utils/version_utils.py` of the cmi-tools shelf: the FDMA 2530
 * version lookup over a module-level cache. The grammar, parser and
 * comparator live in `SemVer`; the manifest reading in `Manifest`.
 *
 * In this module `read_manifest_from_file` carries `@handle_version_errors()`,
 * so it returns a version string, never the manifest; `get_fdma2530_version`
 * then calls `.get` on that string, which raises, and the manifest's own
 * `current_version` is never used. `Fdma2530VersionAsWritten` models that;
 * `Fdma2530Version` reads the manifest undecorated, as evidently intended.
 */
module CmiVersionUtils {
  import opened Wrappers
  import opened PyText
  import opened PyValue
  import opened SemVer
  import opened Manifest

  const DefaultFallbackVersion: string := "2.0.1"
  const VersionKey: string := "fdma2530_version"

  lemma FallbackValid()
    ensures IsValid(PyStr(DefaultFallbackVersion))
  {
    assert NatToDigits(0) == "0" && NatToDigits(1) == "1" && NatToDigits(2) == "2";
    ParseSample(DefaultFallbackVersion, Version(2, 0, 1, None, None));
  }

  /** The module's `read_manifest_from_file`, decorated: always the fallback version text. */
  function ReadManifestFromFile(src: Source): (r: Value)
    ensures r == PyStr(DefaultFallbackVersion)
  {
    DecoratedReadIsFallback(src, DefaultFallbackVersion);
    WithFallback(ReadManifest(src), DefaultFallbackVersion)
  }

  /** The cached version, when it is present and valid. */
  function CachedVersion(cache: map<string, Value>): (r: Option<Value>)
    ensures r.Some? <==> VersionKey in cache && IsValid(cache[VersionKey])
    ensures r.Some? ==> r.value == cache[VersionKey]
  {
    if VersionKey in cache && IsValid(cache[VersionKey]) then Some(cache[VersionKey]) else None
  }

  /**
   * The body of `get_fdma2530_version` once the read is done: the valid
   * cached value, else the read manifest's valid `current_version`, else
   * the fallback. A raising read and every raising step give the fallback.
   */
  function VersionAfterRead(cache: map<string, Value>, read: Outcome): (r: Value)
    ensures IsValid(r)
    ensures CachedVersion(cache).Some? ==> r == CachedVersion(cache).value
  {
    FallbackValid();
    match CachedVersion(cache)
      case Some(v) => v
      case None =>
        if read.Raised? then PyStr(DefaultFallbackVersion)
        else match CurrentVersionOf(read.value)
          case Some(cv) => cv
          case None => PyStr(DefaultFallbackVersion)
  }

  /** `get_fdma2530_version` as written: the manifest is read through the decorated reader. */
  function Fdma2530VersionAsWritten(cache: map<string, Value>, src: Source): (r: Value)
    ensures IsValid(r)
  {
    VersionAfterRead(cache, Returned(ReadManifestFromFile(src)))
  }

  /** `get_fdma2530_version` with the manifest read undecorated. */
  function Fdma2530Version(cache: map<string, Value>, src: Source): (r: Value)
    ensures IsValid(r)
  {
    VersionAfterRead(cache, ReadManifest(src))
  }

  /** As written, without a valid cached value the answer is the fallback whatever the manifest says. */
  lemma AsWrittenIgnoresManifest(cache: map<string, Value>, src: Source)
    requires CachedVersion(cache).None?
    ensures Fdma2530VersionAsWritten(cache, src) == PyStr(DefaultFallbackVersion)
  {
  }

  /** With the manifest read undecorated, a manifest's valid `current_version` is the answer. */
  lemma ManifestVersionUsed(cache: map<string, Value>, entries: map<string, Value>)
    requires CachedVersion(cache).None?
    requires "current_version" in entries && "tool_name" in entries
    requires IsValid(entries["current_version"])
    ensures Fdma2530Version(cache, Loaded(PyDict(entries))) == entries["current_version"]
  {
  }

  /** Without a valid cached value or a usable manifest, the answer is the fallback. */
  lemma FallbackWithoutManifest(cache: map<string, Value>, src: Source)
    requires CachedVersion(cache).None?
    requires ReadManifest(src).Raised? || CurrentVersionOf(ReadManifest(src).value).None?
    ensures Fdma2530Version(cache, src) == PyStr(DefaultFallbackVersion)
  {
  }

  /** A manifest announcing 2.0.5 yields 2.0.1 as written and 2.0.5 once read undecorated. */
  lemma ManifestVersionLost()
    ensures var src := Loaded(PyDict(map["current_version" := PyStr("2.0.5"), "tool_name" := PyStr("FDMA2530-Modeling")]));
      Fdma2530VersionAsWritten(map[], src) == PyStr("2.0.1") && Fdma2530Version(map[], src) == PyStr("2.0.5")
  {
    var entries := map["current_version" := PyStr("2.0.5"), "tool_name" := PyStr("FDMA2530-Modeling")];
    SampleValid();
    ManifestVersionUsed(map[], entries);
  }

  lemma SampleValid()
    ensures IsValid(PyStr("2.0.5"))
  {
    assert NatToDigits(0) == "0" && NatToDigits(2) == "2" && NatToDigits(5) == "5";
    ParseSample("2.0.5", Version(2, 0, 5, None, None));
  }

  /** The module-level `_VERSION_CACHE`. */
  class VersionCache {
    var cache: map<string, Value>

    constructor()
      ensures cache == map[]
    {
      cache := map[];
    }

    /** `get_fdma2530_version` as written; it caches only what it never reaches. */
    method GetFdma2530VersionAsWritten(src: Source) returns (r: Value)
      modifies this
      ensures r == Fdma2530VersionAsWritten(old(cache), src)
      ensures cache == old(cache)
    {
      if VersionKey in cache {
        var cached := cache[VersionKey];
        if IsValid(cached) {
          return cached;
        }
      }
      var manifestData := ReadManifestFromFile(src);
      var cv := CurrentVersionOf(manifestData);
      // `.get` on the returned string raises, so the caching path is never taken.
      assert cv.None?;
      FallbackValid();
      r := PyStr(DefaultFallbackVersion);
    }

    /** `get_fdma2530_version` with an undecorated read; a version taken from the manifest is cached. */
    method GetFdma2530Version(src: Source) returns (r: Value)
      modifies this
      ensures r == Fdma2530Version(old(cache), src)
      ensures CachedVersion(old(cache)).None? && ReadManifest(src).Returned? && CurrentVersionOf(ReadManifest(src).value).Some?
        ==> cache == old(cache)[VersionKey := r]
      ensures !(CachedVersion(old(cache)).None? && ReadManifest(src).Returned? && CurrentVersionOf(ReadManifest(src).value).Some?)
        ==> cache == old(cache)
    {
      if VersionKey in cache {
        var cached := cache[VersionKey];
        if IsValid(cached) {
          return cached;
        }
      }
      var read := ReadManifest(src);
      if read.Raised? {
        return PyStr(DefaultFallbackVersion);
      }
      var cv := CurrentVersionOf(read.value);
      if cv.None? {
        return PyStr(DefaultFallbackVersion);
      }
      cache := cache[VersionKey := cv.value];
      r := cv.value;
    }
  }
}
