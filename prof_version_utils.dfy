/**
 * `prof/core/version_utils.py` (and its identical twin `version_utils_new.py`):
 * the prof-tools version lookup over a module-level cache. Here the manifest
 * reads are undecorated and raise on failure; `get_prof_tools_version` is the
 * decorated one. The grammar and parser are shared with the cmi-tools copy
 * and live in `SemVer`.
 */
module ProfVersionUtils {
  import opened Wrappers
  import opened PyText
  import opened PyValue
  import opened SemVer
  import opened Manifest

  const DefaultFallbackVersion: string := "0.1.0"
  const VersionKey: string := "prof_tools_version"
  const ManifestKey: string := "manifest"

  lemma FallbackValid()
    ensures IsValid(PyStr(DefaultFallbackVersion))
    ensures Parse(PyStr(DefaultFallbackVersion)) == Ok(Version(0, 1, 0, None, None))
  {
    assert NatToDigits(0) == "0" && NatToDigits(1) == "1";
    ParseSample(DefaultFallbackVersion, Version(0, 1, 0, None, None));
  }

  /** A read that returned a truthy document. */
  predicate Usable(src: Source) {
    ReadManifest(src).Returned? && Truthy(src.doc)
  }

  /**
   * `get_manifest_data`: the local file, else the URL, else the cached
   * manifest, else None; paired with the cache afterwards, where a usable
   * read is stored under "manifest".
   */
  function ManifestData(cache: map<string, Value>, file: Source, url: Source): (r: (Value, map<string, Value>))
    ensures Usable(file) ==> r == (file.doc, cache[ManifestKey := file.doc])
    ensures !Usable(file) && Usable(url) ==> r == (url.doc, cache[ManifestKey := url.doc])
    ensures !Usable(file) && !Usable(url) ==> r == (Get(cache, ManifestKey, PyNone), cache)
  {
    if Usable(file) then (file.doc, cache[ManifestKey := file.doc])
    else if Usable(url) then (url.doc, cache[ManifestKey := url.doc])
    else (Get(cache, ManifestKey, PyNone), cache)
  }

  /** Whatever `get_manifest_data` returns, the cache holds it under "manifest", or it returns None. */
  lemma ManifestDataCached(cache: map<string, Value>, file: Source, url: Source)
    ensures var (md, after) := ManifestData(cache, file, url);
      (ManifestKey in after && after[ManifestKey] == md) || (md == PyNone && ManifestKey !in after)
  {
  }

  /** The valid cached version, when there is one. */
  function CachedVersion(cache: map<string, Value>): (r: Option<Value>)
    ensures r.Some? <==> VersionKey in cache && IsValid(cache[VersionKey])
    ensures r.Some? ==> r.value == cache[VersionKey]
  {
    if VersionKey in cache && IsValid(cache[VersionKey]) then Some(cache[VersionKey]) else None
  }

  /**
   * `get_prof_tools_version` inside its decorator: the valid cached value,
   * else the valid `current_version` of `get_manifest_data()`, else (every
   * raising step) the fallback.
   */
  function ProfToolsVersion(cache: map<string, Value>, file: Source, url: Source): (r: Value)
    ensures IsValid(r)
    ensures CachedVersion(cache).Some? ==> r == cache[VersionKey]
  {
    FallbackValid();
    match CachedVersion(cache)
      case Some(v) => ValidIsTruthy(v); WithFallback(Returned(v), DefaultFallbackVersion)
      case None =>
        match CurrentVersionOf(ManifestData(cache, file, url).0)
          case Some(cv) => WithFallback(Returned(cv), DefaultFallbackVersion)
          case None => WithFallback(Raised, DefaultFallbackVersion)
  }

  /**
   * The cache after `get_prof_tools_version`: untouched when it held a valid
   * version; else as `get_manifest_data` left it, with the version stored
   * when it came from the manifest.
   */
  function VersionCacheAfter(cache: map<string, Value>, file: Source, url: Source): (r: map<string, Value>)
    ensures CachedVersion(cache).Some? ==> r == cache
    ensures CachedVersion(cache).None? && CurrentVersionOf(ManifestData(cache, file, url).0).None?
            ==> r == ManifestData(cache, file, url).1
    ensures CachedVersion(cache).None? && CurrentVersionOf(ManifestData(cache, file, url).0).Some?
            ==> r == ManifestData(cache, file, url).1[VersionKey := CurrentVersionOf(ManifestData(cache, file, url).0).value]
  {
    if CachedVersion(cache).Some? then cache
    else
      var md := ManifestData(cache, file, url);
      match CurrentVersionOf(md.0)
        case Some(cv) => md.1[VersionKey := cv]
        case None => md.1
  }

  /**
   * Once a lookup has found a version in the cache or the manifest, every
   * later lookup answers the same from the cache, whatever the sources then hold.
   */
  lemma LookupIsCached(cache: map<string, Value>, file: Source, url: Source, file2: Source, url2: Source)
    requires CachedVersion(cache).Some? || CurrentVersionOf(ManifestData(cache, file, url).0).Some?
    ensures CachedVersion(VersionCacheAfter(cache, file, url)).Some?
    ensures ProfToolsVersion(VersionCacheAfter(cache, file, url), file2, url2) == ProfToolsVersion(cache, file, url)
  {
    if CachedVersion(cache).None? {
      var md := ManifestData(cache, file, url);
      var cv := CurrentVersionOf(md.0).value;
      var after := VersionCacheAfter(cache, file, url);
      assert after == md.1[VersionKey := cv];
      assert CachedVersion(after) == Some(cv);
      ManifestVersionAnswer(cache, file, url);
    }
  }

  /** Without a valid cached value, a valid `current_version` of the manifest is the answer. */
  lemma ManifestVersionAnswer(cache: map<string, Value>, file: Source, url: Source)
    requires CachedVersion(cache).None? && CurrentVersionOf(ManifestData(cache, file, url).0).Some?
    ensures ProfToolsVersion(cache, file, url) == CurrentVersionOf(ManifestData(cache, file, url).0).value
  {
    var cv := CurrentVersionOf(ManifestData(cache, file, url).0).value;
    ValidIsTruthy(cv);
  }

  /** Without a valid cached value, a valid `current_version` of the manifest found is the answer, and only then. */
  lemma ProfToolsVersionFromManifest(cache: map<string, Value>, file: Source, url: Source)
    requires CachedVersion(cache).None?
    ensures var md := ManifestData(cache, file, url).0;
      if md.PyDict? && "current_version" in md.entries && IsValid(md.entries["current_version"])
      then ProfToolsVersion(cache, file, url) == md.entries["current_version"]
      else ProfToolsVersion(cache, file, url) == PyStr(DefaultFallbackVersion)
  {
    ValidIsTruthy(PyStr(DefaultFallbackVersion));
    var md := ManifestData(cache, file, url).0;
    match CurrentVersionOf(md)
      case Some(cv) => ValidIsTruthy(cv);
      case None =>
  }

  /** The local file wins over the URL and the cache when it holds a valid version. */
  lemma FileWins(cache: map<string, Value>, entries: map<string, Value>, url: Source)
    requires CachedVersion(cache).None?
    requires "current_version" in entries && "tool_name" in entries && IsValid(entries["current_version"])
    ensures ProfToolsVersion(cache, Loaded(PyDict(entries)), url) == entries["current_version"]
  {
    var src := Loaded(PyDict(entries));
    KeyMakesTruthy(src.doc, "current_version");
    assert ReadManifest(src).Returned?;
    assert ManifestData(cache, src, url).0 == src.doc;
    ProfToolsVersionFromManifest(cache, src, url);
  }

  /** With no source and no cache at all, the answer is the fallback. */
  lemma NothingGivesFallback()
    ensures ProfToolsVersion(map[], Unavailable, Unavailable) == PyStr(DefaultFallbackVersion)
  {
    assert ManifestData(map[], Unavailable, Unavailable).0 == PyNone;
    ProfToolsVersionFromManifest(map[], Unavailable, Unavailable);
  }

  /** The numeric triple of a valid version. */
  function TripleOf(v: Value): (r: (nat, nat, nat))
    requires IsValid(v)
    ensures var p := Parse(v).value; r == (p.major, p.minor, p.patch)
  {
    var p := Parse(v).value;
    (p.major, p.minor, p.patch)
  }

  /** The module-level `_VERSION_CACHE`. */
  class VersionCache {
    var cache: map<string, Value>

    constructor()
      ensures cache == map[]
    {
      cache := map[];
    }

    /** `get_manifest_data`. */
    method GetManifestData(file: Source, url: Source) returns (md: Value)
      modifies this
      ensures (md, cache) == ManifestData(old(cache), file, url)
    {
      var fromFile := ReadManifest(file);
      if fromFile.Returned? && Truthy(fromFile.value) {
        cache := cache[ManifestKey := fromFile.value];
        return fromFile.value;
      }
      var fromUrl := ReadManifest(url);
      if fromUrl.Returned? && Truthy(fromUrl.value) {
        cache := cache[ManifestKey := fromUrl.value];
        return fromUrl.value;
      }
      if ManifestKey in cache {
        return cache[ManifestKey];
      }
      md := PyNone;
    }

    /**
     * `get_prof_tools_version`: always a valid version; the cache keeps the
     * manifest read and, when the version came from it, the version too.
     */
    method GetProfToolsVersion(file: Source, url: Source) returns (r: Value)
      modifies this
      ensures r == ProfToolsVersion(old(cache), file, url)
      ensures cache == VersionCacheAfter(old(cache), file, url)
    {
      FallbackValid();
      ValidIsTruthy(PyStr(DefaultFallbackVersion));
      if VersionKey in cache {
        var cached := cache[VersionKey];
        if IsValid(cached) {
          ValidIsTruthy(cached);
          return cached;
        }
      }
      var md := GetManifestData(file, url);
      var cv := CurrentVersionOf(md);
      if cv.None? {
        return PyStr(DefaultFallbackVersion);
      }
      ValidIsTruthy(cv.value);
      cache := cache[VersionKey := cv.value];
      r := cv.value;
    }

    /**
     * `get_version_tuple`: the triple of the current version. The fallback
     * branch of the source is unreachable, because the version is always valid.
     */
    method GetVersionTuple(file: Source, url: Source) returns (t: (nat, nat, nat))
      modifies this
      ensures t == TripleOf(ProfToolsVersion(old(cache), file, url))
      ensures cache == VersionCacheAfter(old(cache), file, url)
    {
      var v := GetProfToolsVersion(file, url);
      var parsed := Parse(v);
      t := (parsed.value.major, parsed.value.minor, parsed.value.patch);
    }

    /**
     * `get_individual_tool_version`: the tool module's own `__version__` when
     * it is valid (`None` stands for no module or no attribute), else the main
     * version. The fallback branch of the source is unreachable, because the
     * decorated main lookup never raises.
     */
    method GetIndividualToolVersion(moduleVersion: Option<Value>, file: Source, url: Source) returns (r: Value)
      modifies this
      ensures IsValid(r)
      ensures moduleVersion.Some? && IsValid(moduleVersion.value) ==> r == moduleVersion.value && cache == old(cache)
      ensures !(moduleVersion.Some? && IsValid(moduleVersion.value)) ==>
        r == ProfToolsVersion(old(cache), file, url) && cache == VersionCacheAfter(old(cache), file, url)
    {
      if moduleVersion.Some? && IsValid(moduleVersion.value) {
        return moduleVersion.value;
      }
      r := GetProfToolsVersion(file, url);
    }
  }
}
