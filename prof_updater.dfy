/**
 * `prof/core/updater.py`: the "is the remote release newer" test, the latest
 * version read from the releases manifest, and the decision of
 * `check_for_updates`. The manifest fetch, the dialogs and the browser are
 * left to the caller: the manifest arrives as a value (`PyNone` when the
 * fetch failed) and the decision is returned instead of shown.
 */
module ProfUpdater {
  import opened Wrappers
  import opened PyText
  import opened PyValue
  import opened SemVer
  import opened Manifest

  /** `compare_versions(local, remote)`: True iff both are valid and remote's numeric triple is greater. */
  predicate IsRemoteNewer(local: Value, remote: Value) {
    IsValid(local) && IsValid(remote) && TripleLess(Parse(local).value, Parse(remote).value)
  }

  /** Never True for two equal values. */
  lemma IsRemoteNewerIrreflexive(v: Value)
    ensures !IsRemoteNewer(v, v)
  {
  }

  /** Never True both ways. */
  lemma IsRemoteNewerAsymmetric(a: Value, b: Value)
    ensures !(IsRemoteNewer(a, b) && IsRemoteNewer(b, a))
  {
  }

  /** Newer-than chains. */
  lemma IsRemoteNewerTransitive(a: Value, b: Value, c: Value)
    requires IsRemoteNewer(a, b) && IsRemoteNewer(b, c)
    ensures IsRemoteNewer(a, c)
  {
  }

  /** Prerelease and build labels play no part: equal triples are never newer either way. */
  lemma LabelsIgnored(a: Value, b: Value)
    requires IsValid(a) && IsValid(b)
    requires Triple(Parse(a).value) == Triple(Parse(b).value)
    ensures !IsRemoteNewer(a, b) && !IsRemoteNewer(b, a)
  {
  }

  /** "1.0.0-alpha" and "1.0.0" are not newer than each other, unlike the three-way comparator. */
  lemma PrereleaseSample()
    ensures !IsRemoteNewer(PyStr("1.0.0-alpha"), PyStr("1.0.0"))
    ensures !IsRemoteNewer(PyStr("1.0.0"), PyStr("1.0.0-alpha"))
    ensures CompareVersions(PyStr("1.0.0-alpha"), PyStr("1.0.0")) == -1
  {
    ParsesOne();
    ParsesAlpha();
    SampleComparisons();
  }

  /** On valid input, newer-than is exactly a three-way comparison of 1 with the labels removed. */
  lemma IsRemoteNewerMatchesCompare(local: Value, remote: Value)
    requires IsValid(local) && IsValid(remote)
    ensures IsRemoteNewer(local, remote) <==>
      CompareParsed(Parse(remote).value.(prerelease := None), Parse(local).value.(prerelease := None)) == 1
  {
    TripleLessCompare(Parse(local).value, Parse(remote).value);
  }

  lemma TripleLessCompare(x: Version, y: Version)
    ensures TripleLess(x, y) <==> CompareParsed(y.(prerelease := None), x.(prerelease := None)) == 1
  {
  }

  /**
   * `get_latest_version(manifest)`: None for a falsy manifest, a non-dict
   * (the `.get` raises and is caught), a missing or falsy `current_version`
   * and an invalid one; otherwise that field unchanged.
   */
  function LatestVersion(manifest: Value): (r: Option<Value>)
    ensures r.Some? <==> (manifest.PyDict? && "current_version" in manifest.entries
                          && IsValid(manifest.entries["current_version"]))
    ensures r.Some? ==> r.value == manifest.entries["current_version"]
  {
    CurrentVersionOf(manifest)
  }

  /** What `check_for_updates` shows: a titled notice, or the offer to open the releases page. */
  datatype Decision =
    | Notice(title: string, message: string)
    | OfferUpdate(message: string)

  /** The decision of `check_for_updates` for a current version and a fetched manifest. */
  function CheckForUpdates(current: Value, manifest: Value): (d: Decision)
    ensures d.OfferUpdate? <==> (Truthy(current) && LatestVersion(manifest).Some?
                                 && IsRemoteNewer(current, LatestVersion(manifest).value))
    ensures !Truthy(current) ==> d == Notice("Version Error", "Could not determine current Prof-Tools version.")
    ensures Truthy(current) && LatestVersion(manifest).None? ==> d.Notice? && d.title == "Update Check Failed"
  {
    if !Truthy(current) then
      Notice("Version Error", "Could not determine current Prof-Tools version.")
    else match LatestVersion(manifest)
      case None =>
        Notice("Update Check Failed",
          "Could not determine latest version. Please check your internet connection and try again later.")
      case Some(latest) =>
        ValidIsTruthy(latest);
        if IsRemoteNewer(current, latest) then
          OfferUpdate("A new version of Prof-Tools is available.\n\nCurrent: " + StrOf(current)
            + "\nLatest: " + StrOf(latest) + "\n\nOpen the releases page to download?")
        else
          Notice("Up to Date", "You are running the latest version (" + StrOf(current) + ").")
  }

  /** The current version from the version lookup is always valid, so "Version Error" cannot be shown. */
  lemma NoVersionErrorForValidCurrent(current: Value, manifest: Value)
    requires IsValid(current)
    ensures CheckForUpdates(current, manifest).Notice? ==>
      CheckForUpdates(current, manifest).title in {"Update Check Failed", "Up to Date"}
  {
    ValidIsTruthy(current);
  }
}
