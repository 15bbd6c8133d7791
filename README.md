# NMSU_Scripts decision procedures in Dafny

This project models the deterministic core of the NMSU_Scripts Maya tool
collection. Two tool sets are involved: the FDMA 2530 student shelf (cmi-tools
and its older copy) and the prof-tools menu. It models:

- the version strings both tool sets use: the `MAJOR.MINOR.PATCH[-prerelease][+build]`
  grammar, the parser, the cmi-tools three-way comparator, the
  `handle_version_errors` fallback decorator and the cached version lookups
  over a `releases.json` manifest;
- the updater rules: the prof-tools "remote is newer" test and latest-version
  pick, and the two `_is_newer` variants, the release selection and the
  local-version priority chain of the cmi-tools backup updater;
- `ProfToolsPrefs`, the prof-tools preferences: dev mode, update checks and
  their interval, and the temporary-install record with its check-and-revert;
- the two generations of `LessonRubric`, the grading rubric: percentage bands,
  points per criterion, the total rounded up to the tenth, validation re-runs
  that keep manual overrides, and comment selection;
- the two assignment file-name validators, one scoring by regex groups and one
  by deductions;
- the management of the `userSetup.mel` startup entry: install paths,
  append-if-absent and removal of the marked lines;
- the GitHub helpers: raw URLs, subdirectory paths, the "file changed" decision
  on normalised text and the script-header scan;
- both shelf builders: button commands, item filtering and the build guard;
- both modelling checklists: the pass/warning/error rules, the count formulas,
  the lists of offending objects and the report text.

Maya, the file system and the network do not appear. What the code reads from
them (a manifest document, a scene's meshes and lights, a file's lines, a
downloaded text) is a parameter of the model. Python values of dynamic type
(JSON documents, shelf items, preference values) are the `PyValue.Value`
datatype. An exception is an explicit outcome (`Outcome.Raised`, `Result`,
`Option` or a dedicated constructor).

Each source file is one module, and shared definitions have modules of their own:

- `PyText`: the Python `str` operations used;
- `PyValue`: dynamic values, truthiness, `int()`, `str()` and `repr()`;
- `PyFloat`: the text `repr` gives a float;
- `SemVer`: the version grammar and comparator;
- `Manifest`: the manifest reads;
- `DateText`: datetimes, the text `strftime` writes and what `fromisoformat` and `strptime` read;
- `RubricCommon`: shared rubric definitions;
- `FileNameGrammar`: the file-name pattern;
- `ShelfCommon`: shared shelf-builder definitions;
- `ChecklistCommon`: shared checklist definitions.

Where a method updates state in place (the version caches, the preferences
object, the rubric, the `userSetup.mel` file), the model is a class. Its
methods are proved against functions on values, and the lemmas are stated
about those functions.

## Model

| member | source | states |
|---|---|---|
| SemVer.Match | cmi-tools/FDMA2530-Modeling/Student-Shelf/fdma_shelf/utils/version_utils.py:45 | a text the version pattern accepts yields well-formed groups (digit runs; labels over letters, digits, `-`, `.`) whose spelling is exactly that text |
| SemVer.MatchSpell | cmi-tools/FDMA2530-Modeling/Student-Shelf/fdma_shelf/utils/version_utils.py:45 | every well-formed set of groups is matched back from its spelling, so `Match` accepts exactly the spellings |
| SemVer.ValidIffSpelled | cmi-tools/FDMA2530-Modeling/Student-Shelf/fdma_shelf/utils/version_utils.py:89-121 | `is_valid_semantic_version` holds iff the value is a str whose stripped text is the spelling of well-formed groups; non-strings are rejected |
| SemVer.ValidTextChars | cmi-tools/FDMA2530-Modeling/Student-Shelf/fdma_shelf/utils/version_utils.py:89-121 | a valid version text holds only letters, digits, `-`, `.`, `+` and surrounding whitespace |
| SemVer.UnderscoreNotValid | cmi-tools/FDMA2530-Modeling/Student-Shelf/fdma_shelf/utils/version_utils.py:45 | a text holding an underscore is never a valid version |
| SemVer.ValidIsTruthy | cmi-tools/FDMA2530-Modeling/Student-Shelf/fdma_shelf/utils/version_utils.py:71-86 | a valid version is truthy, so the decorator keeps it |
| SemVer.Parse | cmi-tools/FDMA2530-Modeling/Student-Shelf/fdma_shelf/utils/version_utils.py:124-168 | ValueError exactly on invalid input; otherwise the integers of the three digit groups and the optional prerelease and build texts of the stripped text |
| SemVer.ParseFormat | cmi-tools/FDMA2530-Modeling/Student-Shelf/fdma_shelf/utils/version_utils.py:124-168 | parsing the leading-zero-free text of a version with well-formed labels gives the version back |
| SemVer.ParsesOne | cmi-tools/FDMA2530-Modeling/Student-Shelf/tests/test_fdma2530_system.py:60-69 | "1.0.0" parses to (1, 0, 0) with no labels |
| SemVer.ParsesTwo | cmi-tools/FDMA2530-Modeling/Student-Shelf/tests/test_fdma2530_system.py:60-69 | "2.0.0" parses to (2, 0, 0) with no labels |
| SemVer.ParsesAlpha | cmi-tools/FDMA2530-Modeling/Student-Shelf/tests/test_fdma2530_system.py:40-48 | "1.0.0-alpha" parses to (1, 0, 0) with prerelease "alpha" |
| SemVer.CompareParsed | cmi-tools/FDMA2530-Modeling/Student-Shelf/fdma_shelf/utils/version_utils.py:205-229 | the comparison of two parsed versions is -1, 0 or 1 |
| SemVer.CompareVersions | cmi-tools/FDMA2530-Modeling/Student-Shelf/fdma_shelf/utils/version_utils.py:171-229 | `compare_versions` is -1, 0 or 1, and 0 whenever either argument is invalid |
| SemVer.TripleDecides | cmi-tools/FDMA2530-Modeling/Student-Shelf/fdma_shelf/utils/version_utils.py:205-211 | with different numeric triples, the result is -1 exactly when the first triple is lexicographically smaller and 1 exactly when it is larger |
| SemVer.ReleaseBeatsPrerelease | cmi-tools/FDMA2530-Modeling/Student-Shelf/fdma_shelf/utils/version_utils.py:213-221 | with equal triples a release outranks any prerelease, in both argument orders |
| SemVer.PrereleaseByStringOrder | cmi-tools/FDMA2530-Modeling/Student-Shelf/fdma_shelf/utils/version_utils.py:222-229 | with equal triples two prereleases are ordered by the plain string order of their whole labels (not by dot-separated identifiers) |
| SemVer.BuildIgnored | cmi-tools/FDMA2530-Modeling/Student-Shelf/fdma_shelf/utils/version_utils.py:198-229 | build metadata never changes a comparison |
| SemVer.CompareReflexive | cmi-tools/FDMA2530-Modeling/Student-Shelf/fdma_shelf/utils/version_utils.py:171-229 | every value compares equal to itself |
| SemVer.CompareAntisymmetric | cmi-tools/FDMA2530-Modeling/Student-Shelf/fdma_shelf/utils/version_utils.py:171-229 | `compare(a, b) == -compare(b, a)` for valid and invalid arguments alike |
| SemVer.CompareTransitive | cmi-tools/FDMA2530-Modeling/Student-Shelf/fdma_shelf/utils/version_utils.py:171-229 | "greater than" is transitive |
| SemVer.SampleComparisons | cmi-tools/FDMA2530-Modeling/Student-Shelf/tests/test_fdma2530_system.py:60-69 | the system test's five expected comparisons, including "1.0.0-alpha" < "1.0.0" |
| SemVer.WithFallback | cmi-tools/FDMA2530-Modeling/Student-Shelf/fdma_shelf/utils/version_utils.py:51-86 | a call that returned a valid version gives that version (a valid version is never falsy); a call that raised or returned anything else gives the fallback; with a valid fallback the result is always valid |
| SemVer.WithFallbackIdempotent | cmi-tools/FDMA2530-Modeling/Student-Shelf/fdma_shelf/utils/version_utils.py:51-86 | wrapping an already wrapped call changes nothing |
| Manifest.PyIn | cmi-tools/FDMA2530-Modeling/Student-Shelf/fdma_shelf/utils/version_utils.py:307-310 | Python's `key in doc`: dict key membership, substring for a str, and a TypeError for types without `in` |
| Manifest.ReadManifest | prof-tools/prof/core/version_utils.py:177-208 | an undecorated manifest read returns the document exactly when it was loaded and holds both `current_version` and `tool_name`, and raises otherwise |
| Manifest.ReadManifestDict | prof-tools/prof/core/version_utils.py:195-199 | a dict document is accepted iff it has both required keys |
| Manifest.DecoratedReadIsFallback | cmi-tools/FDMA2530-Modeling/Student-Shelf/fdma_shelf/utils/version_utils.py:284-318 | a manifest read wrapped in `@handle_version_errors` always yields the fallback text: a dict is not a version, and a str holding "current_version" holds an underscore |
| Manifest.CurrentVersionOf | cmi-tools/FDMA2530-Modeling/Student-Shelf/fdma_shelf/utils/version_utils.py:423-426 | the steps after the read succeed iff the manifest is a dict whose `current_version` is valid, and then give that value |
| CmiVersionUtils.FallbackValid | cmi-tools/FDMA2530-Modeling/Student-Shelf/fdma_shelf/utils/version_utils.py:43 | the fallback "2.0.1" is a valid version |
| CmiVersionUtils.ReadManifestFromFile | cmi-tools/FDMA2530-Modeling/Student-Shelf/fdma_shelf/utils/version_utils.py:284-318 | the decorated `read_manifest_from_file` returns the fallback text whatever the file holds |
| CmiVersionUtils.CachedVersion | cmi-tools/FDMA2530-Modeling/Student-Shelf/fdma_shelf/utils/version_utils.py:416-420 | a cached `fdma2530_version` is used iff it is present and valid |
| CmiVersionUtils.VersionAfterRead | cmi-tools/FDMA2530-Modeling/Student-Shelf/fdma_shelf/utils/version_utils.py:411-433 | whatever the read gives, the answer is a valid version, and a valid cached value wins |
| CmiVersionUtils.Fdma2530VersionAsWritten | cmi-tools/FDMA2530-Modeling/Student-Shelf/fdma_shelf/utils/version_utils.py:411-433 | `get_fdma2530_version` as written always answers a valid version |
| CmiVersionUtils.AsWrittenIgnoresManifest | cmi-tools/FDMA2530-Modeling/Student-Shelf/fdma_shelf/utils/version_utils.py:421-433 | as written, without a valid cached value the answer is "2.0.1" whatever the manifest says (see Findings) |
| CmiVersionUtils.ManifestVersionLost | cmi-tools/FDMA2530-Modeling/Student-Shelf/fdma_shelf/utils/version_utils.py:411-433 | a manifest announcing 2.0.5 yields 2.0.1 as written and 2.0.5 with an undecorated read (see Findings) |
| CmiVersionUtils.Fdma2530Version | cmi-tools/FDMA2530-Modeling/Student-Shelf/fdma_shelf/utils/version_utils.py:411-433 | with the manifest read undecorated, the answer is always a valid version |
| CmiVersionUtils.ManifestVersionUsed | cmi-tools/FDMA2530-Modeling/Student-Shelf/fdma_shelf/utils/version_utils.py:421-428 | with an undecorated read and no valid cached value, a manifest's valid `current_version` is the answer |
| CmiVersionUtils.FallbackWithoutManifest | cmi-tools/FDMA2530-Modeling/Student-Shelf/fdma_shelf/utils/version_utils.py:429-433 | without a valid cached value and without a usable manifest the answer is the fallback |
| CmiVersionUtils.VersionCache.GetFdma2530VersionAsWritten | cmi-tools/FDMA2530-Modeling/Student-Shelf/fdma_shelf/utils/version_utils.py:411-433 | the method returns the as-written answer and leaves the cache unchanged, since the caching line is never reached |
| CmiVersionUtils.VersionCache.GetFdma2530Version | cmi-tools/FDMA2530-Modeling/Student-Shelf/fdma_shelf/utils/version_utils.py:411-433 | the method returns the corrected answer and caches the version exactly when it came from the manifest |
| ProfVersionUtils.FallbackValid | prof-tools/prof/core/version_utils.py:49 | the fallback "0.1.0" is valid and parses to (0, 1, 0) |
| ProfVersionUtils.ManifestData | prof-tools/prof/core/version_utils.py:255-286 | `get_manifest_data`: a usable local file, else a usable URL (each then cached under "manifest"), else the cached manifest, else None |
| ProfVersionUtils.ManifestDataCached | prof-tools/prof/core/version_utils.py:255-286 | whatever `get_manifest_data` returns is what the cache holds under "manifest", or it returns None with nothing cached |
| ProfVersionUtils.CachedVersion | prof-tools/prof/core/version_utils.py:299-303 | a cached `prof_tools_version` is used iff it is present and valid |
| ProfVersionUtils.ProfToolsVersion | prof-tools/prof/core/version_utils.py:289-319 | `get_prof_tools_version` always answers a valid version, and a valid cached value wins |
| ProfVersionUtils.VersionCacheAfter | prof-tools/prof/core/version_utils.py:289-319 | the cache after `get_prof_tools_version`: unchanged when a valid version was cached; with the manifest read added otherwise, and the version too when the manifest gave a valid one |
| ProfVersionUtils.LookupIsCached | prof-tools/prof/core/version_utils.py:289-319 | once a version is cached, the next lookup answers it whatever the sources then say |
| ProfVersionUtils.ManifestVersionAnswer | prof-tools/prof/core/version_utils.py:305-319 | without a valid cached value and with a valid manifest version, that version is the answer |
| ProfVersionUtils.ProfToolsVersionFromManifest | prof-tools/prof/core/version_utils.py:305-319 | without a valid cached value, the answer is the manifest's `current_version` when that is valid, and the fallback otherwise |
| ProfVersionUtils.FileWins | prof-tools/prof/core/version_utils.py:262-267 | a local manifest with a valid version wins over the URL and the cache |
| ProfVersionUtils.NothingGivesFallback | prof-tools/prof/core/version_utils.py:289-319 | with no source and an empty cache the answer is "0.1.0" |
| ProfVersionUtils.TripleOf | prof-tools/prof/core/version_utils.py:322-337 | the numeric triple of the parsed version |
| ProfVersionUtils.VersionCache.GetManifestData | prof-tools/prof/core/version_utils.py:255-286 | the method returns `ManifestData`'s document and leaves the cache it describes |
| ProfVersionUtils.VersionCache.GetProfToolsVersion | prof-tools/prof/core/version_utils.py:289-319 | the method returns `ProfToolsVersion` and leaves the cache `VersionCacheAfter` describes |
| ProfVersionUtils.VersionCache.GetVersionTuple | prof-tools/prof/core/version_utils.py:322-337 | the triple of the current version, with the cache left as `VersionCacheAfter` says; the fallback branch cannot be reached because that version is always valid |
| ProfVersionUtils.VersionCache.GetIndividualToolVersion | prof-tools/prof/core/version_utils.py:382-414 | a tool module's own valid `__version__` wins and leaves the cache alone; otherwise the main version, with the cache as `VersionCacheAfter` says; the result is always valid |
| ProfUpdater.IsRemoteNewerIrreflexive | prof-tools/prof/core/updater.py:114-146 | `compare_versions(v, v)` is never True |
| ProfUpdater.IsRemoteNewerAsymmetric | prof-tools/prof/core/updater.py:114-146 | `compare_versions` is never True in both directions |
| ProfUpdater.IsRemoteNewerTransitive | prof-tools/prof/core/updater.py:114-146 | "remote is newer" chains |
| ProfUpdater.LabelsIgnored | prof-tools/prof/core/updater.py:136-140 | only the numeric triples are compared: versions with equal triples are never newer than each other |
| ProfUpdater.PrereleaseSample | prof-tools/prof/core/updater.py:136-140 | "1.0.0-alpha" and "1.0.0" are not newer than each other, although the cmi-tools comparator orders them |
| ProfUpdater.IsRemoteNewerMatchesCompare | prof-tools/prof/core/updater.py:114-146 | on valid input, "remote is newer" is exactly a three-way comparison of 1 with the prerelease labels removed |
| ProfUpdater.LatestVersion | prof-tools/prof/core/updater.py:83-111 | `get_latest_version` gives the manifest's `current_version` exactly when the manifest is a dict holding a valid one, and None otherwise |
| ProfUpdater.CheckForUpdates | prof-tools/prof/core/updater.py:164-222 | `check_for_updates` offers the update iff the current version is truthy, a latest version was found and it is newer; a falsy current version gives "Version Error" and a missing latest version gives "Update Check Failed" |
| ProfUpdater.NoVersionErrorForValidCurrent | prof-tools/prof/core/updater.py:176-190 | with a valid current version the only notices are "Update Check Failed" and "Up to Date" |
| UpdaterBackup.IntsOf | cmi-tools/FDMA2530-Modeling/Student-Shelf/fdma_shelf/utils/updater_backup.py:117-120 | `tuple(int(p) for p in parts)` holds each part's integer in order, or raises when some part is not an integer |
| UpdaterBackup.TupleLessIrreflexive | cmi-tools/FDMA2530-Modeling/Student-Shelf/fdma_shelf/utils/updater_backup.py:121 | Python's tuple `<` is irreflexive |
| UpdaterBackup.TupleLessAsymmetric | cmi-tools/FDMA2530-Modeling/Student-Shelf/fdma_shelf/utils/updater_backup.py:121 | Python's tuple `<` is asymmetric |
| UpdaterBackup.TupleLessTransitive | cmi-tools/FDMA2530-Modeling/Student-Shelf/fdma_shelf/utils/updater_backup.py:121 | Python's tuple `<` is transitive |
| UpdaterBackup.TupleLessTotal | cmi-tools/FDMA2530-Modeling/Student-Shelf/fdma_shelf/utils/updater_backup.py:121 | two different tuples are ordered one way or the other |
| UpdaterBackup.ExtensionIsGreater | cmi-tools/FDMA2530-Modeling/Student-Shelf/fdma_shelf/utils/updater_backup.py:315-322 | a proper extension of a tuple is greater, so "2.0.0.1" is newer than "2.0.0" |
| UpdaterBackup.IsNewerIrreflexive | cmi-tools/FDMA2530-Modeling/Student-Shelf/fdma_shelf/utils/updater_backup.py:114-124 | neither `_is_newer` variant finds a version newer than itself |
| UpdaterBackup.IsNewerAsymmetric | cmi-tools/FDMA2530-Modeling/Student-Shelf/fdma_shelf/utils/updater_backup.py:315-322 | neither variant is True in both directions |
| UpdaterBackup.VariantsAgreeWithoutV | cmi-tools/FDMA2530-Modeling/Student-Shelf/fdma_shelf/utils/updater_backup.py:114-124 | the HEAD variant and the other variant agree when neither version starts with 'v' |
| UpdaterBackup.UnitTestSamples | cmi-tools/FDMA2530-Modeling/Student-Shelf/fdma_shelf/utils/updater_backup.py:315-322 | both variants find 1.2.4 newer than 1.2.3, and neither finds 1.2.3 newer than 1.2.4 or than itself |
| UpdaterBackup.LeadingVHasNoTuple | cmi-tools/FDMA2530-Modeling/Student-Shelf/fdma_shelf/utils/updater_backup.py:315-322 | a text like "v2.0.0" has no integer tuple, so the other variant answers False |
| UpdaterBackup.VariantsDisagreeOnV | cmi-tools/FDMA2530-Modeling/Student-Shelf/fdma_shelf/utils/updater_backup.py:114-124 | only the HEAD variant finds "v2.0.0" newer than "1.0.0" |
| UpdaterBackup.Elements | cmi-tools/FDMA2530-Modeling/Student-Shelf/fdma_shelf/utils/updater_backup.py:266-268 | the loop visits entries only of a list or a tuple |
| UpdaterBackup.FindMatch | cmi-tools/FDMA2530-Modeling/Student-Shelf/fdma_shelf/utils/updater_backup.py:268-270 | the first entry whose version equals `current_version`, with every earlier entry a miss; None iff every entry is a miss; an error only when some entry's version cannot be read |
| UpdaterBackup.SortKeys | cmi-tools/FDMA2530-Modeling/Student-Shelf/fdma_shelf/utils/updater_backup.py:272-278 | the sort keys of all entries in order, or an error when some entry's key raises |
| UpdaterBackup.FirstMax | cmi-tools/FDMA2530-Modeling/Student-Shelf/fdma_shelf/utils/updater_backup.py:274-281 | the head of the stable descending sort: no key exceeds it, and every earlier key is smaller |
| UpdaterBackup.VersionAndUrl | cmi-tools/FDMA2530-Modeling/Student-Shelf/fdma_shelf/utils/updater_backup.py:270-282 | the entry's version and download URL, an error exactly when either key is missing |
| UpdaterBackup.ReleaseFrom | cmi-tools/FDMA2530-Modeling/Student-Shelf/fdma_shelf/utils/updater_backup.py:259-282 | no releases give an error |
| UpdaterBackup.LatestRelease | cmi-tools/FDMA2530-Modeling/Student-Shelf/fdma_shelf/utils/updater_backup.py:259-282 | `_get_latest_release`: an error for a failed fetch or a non-dict manifest; otherwise the choice among the listed releases, with `current_version` defaulting to None and `releases` to an empty list |
| UpdaterBackup.ReleaseFromMatch | cmi-tools/FDMA2530-Modeling/Student-Shelf/fdma_shelf/utils/updater_backup.py:268-270 | an entry matching `current_version` wins over every version ordering |
| UpdaterBackup.ReleaseFromGreatest | cmi-tools/FDMA2530-Modeling/Student-Shelf/fdma_shelf/utils/updater_backup.py:271-282 | without a match, the release returned has the greatest version tuple and is the first one that does |
| UpdaterBackup.ReleaseInfo | cmi-tools/FDMA2530-Modeling/Student-Shelf/fdma_shelf/utils/updater_backup.py:572-576 | the entry's version, URL and description, an error exactly when a key is missing |
| UpdaterBackup.LatestReleaseInfoChoice | cmi-tools/FDMA2530-Modeling/Student-Shelf/fdma_shelf/utils/updater_backup.py:564-583 | `_get_latest_release_info` reports the matching entry, else the first listed entry, else an error |
| UpdaterBackup.LocalVersion | cmi-tools/FDMA2530-Modeling/Student-Shelf/fdma_shelf/utils/updater_backup.py:284-306 | `_local_version`: the optionVar when set, else a truthy manifest `current_version`, else the package `__version__` |
| DateText.DaysInMonth | prof-tools/prof/core/tools/dev_prefs.py:167 | a month has 28 to 31 days |
| DateText.Ordinal | prof-tools/prof/core/tools/dev_prefs.py:179-180 | `toordinal`: day 1 is 0001-01-01 |
| DateText.Seconds | prof-tools/prof/core/tools/dev_prefs.py:179-180 | the seconds since 0001-01-01 that datetime subtraction measures |
| PyText.Pad | prof-tools/prof/core/tools/dev_prefs.py:167 | `%0<w>d`: a number written with exactly `w` zero-padded digits whose value is the number |
| PyText.PadOfDigits | prof-tools/prof/core/tools/dev_prefs.py:167 | every digit run is the padding of its own value to its own width |
| DateText.Format | prof-tools/prof/core/tools/dev_prefs.py:167 | `strftime("%Y-%m-%d %H:%M:%S")` is 19 characters long |
| DateText.FormatSlices | prof-tools/prof/core/tools/dev_prefs.py:167 | each field of the datetime sits zero-padded at its fixed position, with the separators between |
| DateText.Parse | prof-tools/prof/core/tools/dev_prefs.py:147-159 | `get_last_check_date`'s reading: only valid datetimes; what `fromisoformat` accepts wins, and every other text gets the `strptime` reading |
| DateText.FromIsoFormat | prof-tools/prof/core/tools/dev_prefs.py:152 | `datetime.fromisoformat`: a result only for a `YYYY-MM-DD[<sep>time]` text naming an existing datetime, its year and month read from the date part |
| DateText.IsoTimeFields | prof-tools/prof/core/tools/dev_prefs.py:152 | the time `HH[:MM[:SS[.fff[fff]]]]` yields three fields, beginning with those already read |
| DateText.IsoClock | prof-tools/prof/core/tools/dev_prefs.py:152 | a time `HH:MM:SS` reads as its three two-digit fields |
| DateText.Strptime | prof-tools/prof/core/tools/dev_prefs.py:156 | `strptime(s, "%Y-%m-%d %H:%M:%S")`: only valid datetimes |
| DateText.ShortField | prof-tools/prof/core/tools/dev_prefs.py:156 | `%m`-style fields: one or two digits within their bounds, followed by the separator, leaving less text |
| DateText.DayField | prof-tools/prof/core/tools/dev_prefs.py:156 | `%d`: a day from 1 to 31 |
| DateText.Clock | prof-tools/prof/core/tools/dev_prefs.py:156 | `%H:%M:%S`: an hour up to 23, a minute up to 59 and a second up to 61 |
| DateText.IsoShaped | prof-tools/prof/core/tools/dev_prefs.py:152-167 | on a text of the shape the program writes, `fromisoformat` gives its fields exactly when they name a valid datetime |
| DateText.StrptimeShaped | prof-tools/prof/core/tools/dev_prefs.py:156-167 | on such a text `strptime` gives the same answer |
| DateText.ParseShaped | prof-tools/prof/core/tools/dev_prefs.py:147-167 | on such a text the whole reading is its fields exactly when they name a valid datetime, and nothing otherwise |
| DateText.DateOnlySample | prof-tools/prof/core/tools/dev_prefs.py:152 | "2024-01-01" reads as midnight of that day |
| DateText.IsoTSample | prof-tools/prof/core/tools/dev_prefs.py:152 | "2024-01-01T10:00:00", with the `T` separator, reads as 10:00 of that day |
| DateText.IsoMinutesSample | prof-tools/prof/core/tools/dev_prefs.py:152 | "2024-01-01 10:00" reads with zero seconds |
| DateText.StrptimeShortDate | prof-tools/prof/core/tools/dev_prefs.py:156 | `strptime` reads a one-digit month and day |
| DateText.StrptimeSample | prof-tools/prof/core/tools/dev_prefs.py:147-159 | "2024-1-5 10:00:00" is refused by `fromisoformat` and read by `strptime` as 5 January 2024, 10:00 |
| DateText.InvalidDaySample | prof-tools/prof/core/tools/dev_prefs.py:147-159 | "2024-02-30 10:00:00" reads as no date |
| DateText.ParseFormat | prof-tools/prof/core/tools/dev_prefs.py:147-167 | the date written is read back as the same datetime |
| DateText.FormatParse | prof-tools/prof/core/tools/dev_prefs.py:147-167 | a text of the written shape that is read back is exactly the text its datetime formats to |
| DevPrefs.LoadPrefs | prof-tools/prof/core/tools/dev_prefs.py:68-92 | `_load_prefs`: the defaults for a missing or undecodable file; the defaults overridden key by key by a loaded object; the pair-by-pair update for an array; the defaults for a text; `update`'s TypeError exactly for a number, a boolean, null or a failing pair |
| DevPrefs.PairOf | prof-tools/prof/core/tools/dev_prefs.py:88 | `dict.update` reads an element as a pair when it has two items, skips the rest at one of another length (a caught ValueError) and raises a TypeError for a non-sequence |
| DevPrefs.KeyedPair | prof-tools/prof/core/tools/dev_prefs.py:88 | a two-item element is a pair exactly when its key is text; an unhashable key raises |
| DevPrefs.UpdateLastWins | prof-tools/prof/core/tools/dev_prefs.py:88 | updating with pairs stores, for the last key, the last value given |
| DevPrefs.UpdateWithPairs | prof-tools/prof/core/tools/dev_prefs.py:88 | updating with pairs succeeds and leaves exactly the old keys and the pairs' keys |
| DevPrefs.UpdateStopsAtWrongLength | prof-tools/prof/core/tools/dev_prefs.py:88-89 | an element of the wrong length ends the update, keeping the pairs before it |
| DevPrefs.StringKeepsDefaults | prof-tools/prof/core/tools/dev_prefs.py:87-90 | a file holding a JSON text leaves the defaults |
| DevPrefs.ArraySample | prof-tools/prof/core/tools/dev_prefs.py:87-90 | a JSON array of pairs updates the defaults up to its first element of the wrong length |
| DevPrefs.ScalarRaises | prof-tools/prof/core/tools/dev_prefs.py:87-90 | a file holding a number, a boolean or null makes `_load_prefs` raise |
| DevPrefs.LoadSaved | prof-tools/prof/core/tools/dev_prefs.py:68-101 | loading the file a save wrote gives back the saved preferences when they hold every default key |
| DevPrefs.Toggled | prof-tools/prof/core/tools/dev_prefs.py:112-127 | toggling sets dev mode to the negation of its truth value and changes no other key |
| DevPrefs.ToggleTwice | prof-tools/prof/core/tools/dev_prefs.py:112-127 | toggling twice restores the mode's truth value, and a third toggle equals the first |
| DevPrefs.LastCheckDate | prof-tools/prof/core/tools/dev_prefs.py:147-159 | `get_last_check_date`: a stored date is a valid datetime; it raises exactly for a truthy value that is not text |
| DevPrefs.IntervalMicros | prof-tools/prof/core/tools/dev_prefs.py:179 | `timedelta(days=d)` is `d` days rounded half to even to the microsecond and lies between `timedelta.min` and `timedelta.max`; a non-number raises TypeError and a value outside that range raises OverflowError |
| DevPrefs.IntervalRange | prof-tools/prof/core/tools/dev_prefs.py:179 | any number of days from -999999999 to 999999999 makes a timedelta, and from 1000000000 up or -1000000000 down raises OverflowError |
| DevPrefs.WholeDayInterval | prof-tools/prof/core/tools/dev_prefs.py:179 | a whole number of days makes a timedelta exactly when it lies in -999999999..999999999, and is then exactly that many days |
| DevPrefs.ShouldCheckForUpdates | prof-tools/prof/core/tools/dev_prefs.py:170-180 | False while auto-check is off; True with no recorded check; the error of reading the recorded date; otherwise whether the interval has elapsed since the last check, or the TypeError or OverflowError of building the interval |
| DevPrefs.NoCheckRightAfterRecording | prof-tools/prof/core/tools/dev_prefs.py:161-180 | right after a check is recorded, no check is due at the same moment for an interval of more than half a microsecond; an interval past `timedelta.max` raises OverflowError instead |
| DevPrefs.SubMicrosecondIntervalIsDue | prof-tools/prof/core/tools/dev_prefs.py:161-180 | an interval under half a microsecond rounds to zero, so with auto-check on a check is due right after one is recorded |
| DevPrefs.CheckDueAfterInterval | prof-tools/prof/core/tools/dev_prefs.py:161-180 | with auto-check on, a check recorded at `last` is due at `now` exactly when the interval has passed, and raises the interval's error when it cannot be built |
| DevPrefs.WholeDaysDue | prof-tools/prof/core/tools/dev_prefs.py:142-180 | with an interval of `d` whole days, a recorded check is due once `d` days have passed when `d` is in -999999999..999999999, and raises OverflowError otherwise |
| DevPrefs.IsTempInstallActive | prof-tools/prof/core/tools/dev_prefs.py:192-195 | `is_temp_install_active` raises exactly when the record is not a dict; with no record it is False |
| DevPrefs.RevertDecision | prof-tools/prof/core/tools/dev_prefs.py:235-255 | a revert happens exactly for a readable, enabled record with a truthy stable version; a missing or unreadable file means no revert; a non-dict document raises |
| DevPrefs.RevertAfterSet | prof-tools/prof/core/tools/dev_prefs.py:201-255 | a record written by `set_temp_install` is reverted at the next start exactly when its stable version is truthy |
| DevPrefs.ProfToolsPrefs.constructor | prof-tools/prof/core/tools/dev_prefs.py:40-45 | the object holds the loaded preferences and the two files as found |
| DevPrefs.ProfToolsPrefs.New | prof-tools/prof/core/tools/dev_prefs.py:40-45 | `ProfToolsPrefs()` fails exactly when `_load_prefs` does not give preferences; otherwise the new object holds `_load_prefs()` of the file as found |
| DevPrefs.ProfToolsPrefs.SavePrefs | prof-tools/prof/core/tools/dev_prefs.py:94-101 | the prefs file holds the preferences, and nothing else changes |
| DevPrefs.ProfToolsPrefs.SetDevModeEnabled | prof-tools/prof/core/tools/dev_prefs.py:107-110 | dev mode is stored as a bool and saved, and nothing else changes |
| DevPrefs.ProfToolsPrefs.ToggleDevMode | prof-tools/prof/core/tools/dev_prefs.py:112-127 | the new mode is the negation of the old one; it is stored and returned |
| DevPrefs.ProfToolsPrefs.SetAutoCheckEnabled | prof-tools/prof/core/tools/dev_prefs.py:133-136 | auto-check is stored as a bool and saved |
| DevPrefs.ProfToolsPrefs.SetCheckIntervalDays | prof-tools/prof/core/tools/dev_prefs.py:142-145 | `int(days)` is stored and saved; when `int()` raises nothing changes |
| PyText.ParseInt | prof-tools/prof/core/tools/dev_prefs.py:144 | `int(text)`: a result only when something is left after stripping; a stripped digit run reads as its value |
| PyText.GroupedDigits | prof-tools/prof/core/tools/dev_prefs.py:144 | digits with single underscores between them reduce to those digits, and a plain digit run to itself |
| PyText.ParseIntUnderscores | prof-tools/prof/core/tools/dev_prefs.py:144 | "1_000" reads as 1000 and "-2_5" as -25 |
| PyText.ParseIntMisplacedUnderscores | prof-tools/prof/core/tools/dev_prefs.py:144 | "1__0", "_1" and "1_" are refused |
| PyText.IntToStringRoundTrip | prof-tools/prof/core/tools/dev_prefs.py:144 | `int(str(i))` is `i` for every integer |
| DevPrefs.ProfToolsPrefs.SetLastCheckDate | prof-tools/prof/core/tools/dev_prefs.py:161-168 | the given date, or now, is stored as text and reads back as that date |
| DevPrefs.ProfToolsPrefs.SetIncludeTestVersions | prof-tools/prof/core/tools/dev_prefs.py:186-189 | the flag is stored as a bool and saved |
| DevPrefs.ProfToolsPrefs.SetTempInstall | prof-tools/prof/core/tools/dev_prefs.py:201-216 | the enabled record goes into the preferences and alone into the temp file; the install is then active |
| DevPrefs.ProfToolsPrefs.ClearTempInstall | prof-tools/prof/core/tools/dev_prefs.py:218-233 | the record is the cleared one, the install is inactive, and the temp file is removed |
| DevPrefs.ProfToolsPrefs.CheckAndRevertTempInstall | prof-tools/prof/core/tools/dev_prefs.py:235-255 | the result is `RevertDecision` of the temp file; on a revert the record is cleared and the file removed, otherwise nothing changes |
| RubricCommon.GenericComment | prof-tools/prof/tools/assignments/lessonRubric_template.py:174-184 | the fixed comment of the level, prefixed with "Empty or minimal file detected. " exactly for an empty scene |
| RubricCommon.Ceil | prof-tools/prof/tools/assignments/lessonRubric_template.py:201 | `math.ceil`: the least integer not below the value |
| RubricCommon.CeilTenth | prof-tools/prof/tools/assignments/lessonRubric_template.py:199-201 | the total rounded up to the tenth: a whole number of tenths, not below the sum and less than a tenth above it |
| RubricCommon.RoundHalfEven | prof-tools/prof/tools/assignments/lessonRubric_template.py:152 | Python's `round`: the nearest integer, a tie going to the even one |
| RubricCommon.Round2 | prof-tools/prof/tools/assignments/lessonRubric_template.py:152 | `round(x, 2)` is within half a hundredth of `x` |
| RubricCommon.Points | prof-tools/prof/tools/assignments/lessonRubric_template.py:148-152 | a criterion's points are within half a hundredth of its percentage of the point value |
| RubricCommon.ContentObjects | prof-tools/prof/tools/assignments/lessonRubric_template.py:93-106 | the scene paths that mention no default node name, and only those, in scene order |
| RubricCommon.IsEmptyFile | prof-tools/prof/tools/assignments/lessonRubric_template.py:83-116 | `_check_empty_file`: never empty when the scene cannot be queried; empty whenever the scene has at most five paths |
| RubricLegacy.FirstBand | prof-tools/prof/tools/assignments/lessonRubric_template.py:128-130 | the level of the first `SCORE_LEVELS` band holding the percentage, None iff no band holds it |
| RubricLegacy.LevelFor | prof-tools/prof/tools/assignments/lessonRubric_template.py:118-131 | each level is given exactly on its inclusive range (76-100, 46-75, 16-45, 6-15); everything else is No Marks |
| RubricLegacy.BandGaps | prof-tools/prof/tools/assignments/lessonRubric_template.py:37-43 | the bands leave gaps: 5.5, 15.5, 101 and -1 get No Marks |
| RubricLegacy.CriterionScore | prof-tools/prof/tools/assignments/lessonRubric_template.py:133-152 | 0.0 for an unknown criterion, otherwise its points |
| RubricLegacy.GenerateComments | prof-tools/prof/tools/assignments/lessonRubric_template.py:154-184 | "" for an unknown criterion, otherwise the generic comment of its level |
| RubricLegacy.SumWithoutOverrides | prof-tools/prof/tools/assignments/lessonRubric_template.py:193-198 | criteria without a manual override contribute exactly their points to the total |
| RubricLegacy.Clamp | prof-tools/prof/tools/assignments/lessonRubric_template.py:407 | `max(0, min(100, v))` lies in 0..100 and leaves values in range unchanged |
| RubricLegacy.Changed | prof-tools/prof/tools/assignments/lessonRubric_template.py:407-413 | after a change the percentage is clamped, the comments are those of its new level, and the other fields are kept |
| RubricLegacy.ChangeIgnoredAsWritten | prof-tools/prof/tools/assignments/lessonRubric_template.py:398-401 | as written, a shown criterion whose bare name is no widget key is never updated, though the corrected guard lets the change through (see Findings) |
| RubricLegacy.ModelingChangeDropped | prof-tools/prof/tools/assignments/lessonRubric_template.py:398-413 | a concrete case: with "Modeling" shown, its change is dropped as written and applied with the corrected guard |
| RubricLegacy.ProceedsExactlyForShown | prof-tools/prof/tools/assignments/lessonRubric_template.py:352-403 | with the corrected guard, a change goes through exactly for the shown criteria |
| RubricLegacy.LessonRubric.constructor | prof-tools/prof/tools/assignments/lessonRubric_template.py:47-63 | no criteria and no widgets; the empty-file flag is `_check_empty_file` of the scene |
| RubricLegacy.LessonRubric.AddCriterion | prof-tools/prof/tools/assignments/lessonRubric_template.py:65-81 | a new name goes last and a re-added name keeps its place; the entry starts at 85%, or 10% in an empty scene |
| RubricLegacy.LessonRubric.CalculateTotalScore | prof-tools/prof/tools/assignments/lessonRubric_template.py:186-201 | the contributions (the stored score for an override, the points otherwise) summed in order and rounded up to the tenth |
| RubricLegacy.LessonRubric.ShowRubricUi | prof-tools/prof/tools/assignments/lessonRubric_template.py:203-378 | the widget keys are "window", "total_score" and the percentage and points keys of each criterion |
| RubricLegacy.LessonRubric.OnPercentageChangeAsWritten | prof-tools/prof/tools/assignments/lessonRubric_template.py:398-416 | as written: the criterion changes only when its bare name is a widget key |
| RubricLegacy.LessonRubric.OnPercentageChange | prof-tools/prof/tools/assignments/lessonRubric_template.py:398-416 | with the corrected guard: a shown criterion takes the clamped value and its comments; nothing else changes |
| RubricAutoComments.LevelFor | prof-tools/prof/tools/auto_grader/assignments/lessonRubric_template.py:271-304 | the level of `int(p)`: Full Marks exactly for 100, High 85-99, Partial 70-84, Low 1-69, No Marks below 1 or above 100 |
| RubricAutoComments.ExactComment | prof-tools/prof/tools/auto_grader/assignments/lessonRubric_template.py:394-397 | the comment stored under the percentage itself, None iff no numeric key equals it |
| RubricAutoComments.ClosestComment | prof-tools/prof/tools/auto_grader/assignments/lessonRubric_template.py:399-413 | the closest-match loop ends with `Closest` |
| RubricAutoComments.Nearest | prof-tools/prof/tools/auto_grader/assignments/lessonRubric_template.py:399-413 | the numeric key nearest the percentage, the earliest on ties; None iff there is no numeric key |
| RubricAutoComments.ScanIsNearest | prof-tools/prof/tools/auto_grader/assignments/lessonRubric_template.py:399-413 | without a matching level-name key the loop ends on the nearest numeric key, when it beats the best so far |
| RubricAutoComments.ClosestIsNearest | prof-tools/prof/tools/auto_grader/assignments/lessonRubric_template.py:399-416 | without a matching level-name key, `best_match` is the comment of the nearest numeric key (the first on ties) |
| RubricAutoComments.ScanStopsAtLevelName | prof-tools/prof/tools/auto_grader/assignments/lessonRubric_template.py:409-413 | a key naming the percentage's level wins, whatever numeric keys come before it |
| RubricAutoComments.GenericPerformanceComment | prof-tools/prof/tools/auto_grader/assignments/lessonRubric_template.py:430-457 | the non-empty generic comment of the level, prefixed for an empty scene |
| RubricAutoComments.PerformanceComment | prof-tools/prof/tools/auto_grader/assignments/lessonRubric_template.py:371-428 | the generic comment without own comments; else the exact key, else a non-empty closest match; in an empty scene the comment always mentions "empty" |
| RubricAutoComments.AutoValidationIsGeneric | prof-tools/prof/tools/auto_grader/assignments/lessonRubric_template.py:503-614 | the "Auto-validation: ..." text written for a bare score counts as a generic validation comment |
| RubricAutoComments.StripComments | prof-tools/prof/tools/auto_grader/assignments/lessonRubric_template.py:459-501 | the stripped validation text; it raises exactly for a truthy non-text value; the result is its own strip |
| RubricAutoComments.EnhancedText | prof-tools/prof/tools/auto_grader/assignments/lessonRubric_template.py:459-501 | at 100% or for a generic validation text, the performance comment; after a manual override, "<performance> \| Details: <validation>"; otherwise the validation text |
| RubricAutoComments.EnhancedComments | prof-tools/prof/tools/auto_grader/assignments/lessonRubric_template.py:459-501 | `_create_enhanced_comments` raises exactly when stripping raises, and otherwise is `EnhancedText` of the performance comment |
| RubricAutoComments.GenerateComments | prof-tools/prof/tools/auto_grader/assignments/lessonRubric_template.py:333-369 | after a manual override the performance comment; otherwise the stripped existing comments when not blank, else the performance comment |
| RubricAuto.NormaliseArgs | prof-tools/prof/tools/auto_grader/assignments/lessonRubric_template.py:106-113 | None becomes no arguments, a list stays, and anything else becomes a one-element list |
| RubricAuto.NewCriterion | prof-tools/prof/tools/auto_grader/assignments/lessonRubric_template.py:115-128 | a new criterion starts at 85%, or 10% in an empty scene, with score 0, no comments and no override |
| RubricAuto.CriterionScore | prof-tools/prof/tools/auto_grader/assignments/lessonRubric_template.py:306-331 | 0.0 for an unknown criterion, otherwise its points |
| RubricAuto.SumIgnoresScores | prof-tools/prof/tools/auto_grader/assignments/lessonRubric_template.py:533-554 | only percentages and point values enter the total, not stored scores or overrides |
| RubricAuto.ScoreAndComments | prof-tools/prof/tools/auto_grader/assignments/lessonRubric_template.py:606-621 | the score and comments read from a tuple of two or more, a bare number (with "Auto-validation: <score>%") or a dict; any other type is skipped |
| RubricAuto.ReRunOne | prof-tools/prof/tools/auto_grader/assignments/lessonRubric_template.py:556-659 | overridden criteria, criteria without a callable function and raising calls are skipped; an update keeps every field but the percentage (in 0..100) and the comments |
| RubricAuto.ReRunComments | prof-tools/prof/tools/auto_grader/assignments/lessonRubric_template.py:633-640 | an updated criterion's comments are the validation text enhanced by the performance comment |
| RubricAuto.ReRun | prof-tools/prof/tools/auto_grader/assignments/lessonRubric_template.py:573-577 | an overridden criterion is left exactly as it was |
| RubricAuto.ReRunCount | prof-tools/prof/tools/auto_grader/assignments/lessonRubric_template.py:556-659 | the count of criteria updated is at most the number of criteria |
| RubricAuto.ReRunCountStep | prof-tools/prof/tools/auto_grader/assignments/lessonRubric_template.py:556-659 | each criterion visited adds one to the count exactly when it is updated |
| RubricAuto.ReRunAll | prof-tools/prof/tools/auto_grader/assignments/lessonRubric_template.py:573-659 | the loop keeps the set of criterion names |
| RubricAuto.ReRunAllStep | prof-tools/prof/tools/auto_grader/assignments/lessonRubric_template.py:573-659 | each criterion visited is updated from its value so far |
| RubricAuto.ReRunAllPointwise | prof-tools/prof/tools/auto_grader/assignments/lessonRubric_template.py:573-659 | after the loop each criterion is updated once, from its value before the loop |
| RubricAuto.ReRunAcceptsNumber | prof-tools/prof/tools/auto_grader/assignments/lessonRubric_template.py:611-640 | a number in 0..100 always updates a criterion that is not overridden, with "Auto-validation: <score>%" as its validation text, the score spelled as `str` spells it |
| RubricAuto.AutoCommentFraction | prof-tools/prof/tools/auto_grader/assignments/lessonRubric_template.py:614 | a score of 92.5 gives "Auto-validation: 92.5%" |
| RubricAuto.AutoCommentWholeFloat | prof-tools/prof/tools/auto_grader/assignments/lessonRubric_template.py:614 | a score of 85.0 gives "Auto-validation: 85.0%" |
| RubricAuto.AutoCommentInt | prof-tools/prof/tools/auto_grader/assignments/lessonRubric_template.py:614 | a score of 85 gives "Auto-validation: 85%" |
| PyValue.StrOfNumber | prof-tools/prof/tools/auto_grader/assignments/lessonRubric_template.py:614 | an int is spelled by its decimal digits and a float by `repr` of floats |
| PyValue.StrOfIntParses | prof-tools/prof/tools/auto_grader/assignments/lessonRubric_template.py:629-630 | `int(str(i))` is `i` |
| PyValue.StrOfFloatReads | prof-tools/prof/tools/auto_grader/assignments/lessonRubric_template.py:629-630 | the text of a float with at most 17 places, in the fixed-notation range, reads back as that float |
| PyValue.QuoteFor | prof-tools/prof/tools/auto_grader/assignments/lessonRubric_template.py:629-630 | `repr` quotes a text with double quotes exactly when it holds a single quote and no double quote |
| PyValue.StrRepr | prof-tools/prof/tools/auto_grader/assignments/lessonRubric_template.py:629-630 | the repr of a text begins and ends with its quote |
| PyValue.EscapeChar | prof-tools/prof/tools/auto_grader/assignments/lessonRubric_template.py:629-630 | a character is escaped (a backslash and up to three more characters) exactly when it is the quote, a backslash or a control character |
| PyValue.EscapeSample | prof-tools/prof/tools/auto_grader/assignments/lessonRubric_template.py:629-630 | ESC is written `\x1b` and a tab `\t` |
| PyValue.StrReprSample | prof-tools/prof/tools/auto_grader/assignments/lessonRubric_template.py:629-630 | the repr of `it's` is `"it's"` |
| PyValue.ListRepr | prof-tools/prof/tools/auto_grader/assignments/lessonRubric_template.py:629-630 | a list is written as the reprs of its items, comma-separated, between brackets |
| PyValue.TupleRepr | prof-tools/prof/tools/auto_grader/assignments/lessonRubric_template.py:629-630 | a tuple likewise between parentheses, with a trailing comma after a single item |
| PyValue.ReprSample | prof-tools/prof/tools/auto_grader/assignments/lessonRubric_template.py:629-630 | `str([1, "a", (2.5,)])` is "[1, 'a', (2.5,)]" |
| PyFloat.FloatRepr | prof-tools/prof/tools/auto_grader/assignments/lessonRubric_template.py:614 | `repr` of a float: "0.0" for zero, and always a point or an exponent |
| PyFloat.UnitsRoundTrip | prof-tools/prof/tools/auto_grader/assignments/lessonRubric_template.py:614 | the fixed-notation text of a count of 10^-17 units reads back as that count, and ends in ".0" or a non-zero digit |
| PyFloat.FloatReprUnits | prof-tools/prof/tools/auto_grader/assignments/lessonRubric_template.py:614 | in the fixed-notation range the text of a float reads back as its units, with no trailing zeros beyond ".0" |
| PyFloat.FloatReprRoundTrip | prof-tools/prof/tools/auto_grader/assignments/lessonRubric_template.py:614 | a float with at most 17 places in the fixed-notation range reads back exactly |
| PyFloat.FloatReprWhole | prof-tools/prof/tools/auto_grader/assignments/lessonRubric_template.py:614 | a whole float below 10^16 in size is its integer text followed by ".0" |
| PyFloat.FloatReprNegative | prof-tools/prof/tools/auto_grader/assignments/lessonRubric_template.py:614 | a negative float is a minus sign before the text of its size |
| PyFloat.FractionSample | prof-tools/prof/tools/auto_grader/assignments/lessonRubric_template.py:614 | 92.5 is written "92.5" |
| PyFloat.WholeSample | prof-tools/prof/tools/auto_grader/assignments/lessonRubric_template.py:614 | 85.0 is written "85.0" |
| PyFloat.SmallSample | prof-tools/prof/tools/auto_grader/assignments/lessonRubric_template.py:614 | 0.0001 is written "0.0001" |
| PyFloat.TinySample | prof-tools/prof/tools/auto_grader/assignments/lessonRubric_template.py:614 | 0.00001 is written "1e-05" |
| PyFloat.LargeSample | prof-tools/prof/tools/auto_grader/assignments/lessonRubric_template.py:614 | 1e16 is written "1e+16" |
| RubricAuto.ReRunRejectsOutOfRange | prof-tools/prof/tools/auto_grader/assignments/lessonRubric_template.py:624-626 | a score outside 0..100 is discarded |
| RubricAuto.Clamp | prof-tools/prof/tools/auto_grader/assignments/lessonRubric_template.py:1414 | `max(0, min(100, v))` lies in 0..100 and leaves values in range unchanged |
| RubricAuto.Unpacked | prof-tools/prof/tools/auto_grader/assignments/lessonRubric_template.py:1408-1411 | `score, comments = result` succeeds only on a list or tuple of exactly two |
| RubricAuto.RecalcOne | prof-tools/prof/tools/auto_grader/assignments/lessonRubric_template.py:1389-1429 | the override is always cleared; a criterion without a function is otherwise untouched; a recalculated one has its percentage in 0..100; a failure writes "Validation error: ..." |
| RubricAuto.RecalcAll | prof-tools/prof/tools/auto_grader/assignments/lessonRubric_template.py:1398-1427 | the loop keeps the set of criterion names |
| RubricAuto.RecalcAllPointwise | prof-tools/prof/tools/auto_grader/assignments/lessonRubric_template.py:1398-1427 | after the loop each criterion is recalculated once, from its value before the loop |
| RubricAuto.ManualUpdate | prof-tools/prof/tools/auto_grader/assignments/lessonRubric_template.py:1064-1087 | a manual change sets the percentage, its points as the score and the override flag, then the enhanced comments; when stripping raises the comments stay |
| RubricAuto.ManualChangeSurvivesReRun | prof-tools/prof/tools/auto_grader/assignments/lessonRubric_template.py:575-577 | a manual change survives `re_run_validations` and is undone by `_recalculate_all_criteria` (see also lines 1398-1400) |
| RubricAuto.ManualChangeKeepsDetails | prof-tools/prof/tools/auto_grader/assignments/lessonRubric_template.py:1064-1087 | after a manual change, a specific validation text is kept as the tail of the comments |
| RubricAuto.AddName | prof-tools/prof/tools/auto_grader/assignments/lessonRubric_template.py:115-128 | the names after adding one: the old names plus it, and nothing else |
| RubricAuto.BatchAddsAccepted | prof-tools/prof/tools/auto_grader/assignments/lessonRubric_template.py:164-213 | a batch adds exactly the names of its items that are dicts with a non-empty name and a point value |
| RubricAuto.LessonRubric.constructor | prof-tools/prof/tools/auto_grader/assignments/lessonRubric_template.py:63-85 | no criteria; the empty-file flag is `_check_empty_file` of the scene |
| RubricAuto.LessonRubric.AddCriterion | prof-tools/prof/tools/auto_grader/assignments/lessonRubric_template.py:87-128 | the criterion is stored as `NewCriterion`; a new name goes last and a re-added name keeps its place |
| RubricAuto.LessonRubric.AddCriteriaBatch | prof-tools/prof/tools/auto_grader/assignments/lessonRubric_template.py:164-213 | the accepted items are added in order, as `add_criterion` adds them |
| RubricAuto.LessonRubric.CalculateTotalScore | prof-tools/prof/tools/auto_grader/assignments/lessonRubric_template.py:533-554 | the computed points summed in order and rounded up to the tenth |
| RubricAuto.LessonRubric.ReRunValidations | prof-tools/prof/tools/auto_grader/assignments/lessonRubric_template.py:556-659 | every criterion is updated as `ReRunOne` says and the others are untouched; it returns the count of criteria updated |
| RubricAuto.LessonRubric.ReRunCriterion | prof-tools/prof/tools/auto_grader/assignments/lessonRubric_template.py:573-657 | one pass of the loop: the next criterion updated, and the count advanced exactly when it was |
| RubricAuto.LessonRubric.UpdatePercentageValue | prof-tools/prof/tools/auto_grader/assignments/lessonRubric_template.py:1064-1087 | the criterion becomes `ManualUpdate` of it; the flag says whether the comment update went through |
| RubricAuto.LessonRubric.RecalculateCriterion | prof-tools/prof/tools/auto_grader/assignments/lessonRubric_template.py:1398-1427 | one pass of the loop: the next criterion recalculated, and the count advanced exactly when it was |
| RubricAuto.LessonRubric.RecalculateAllCriteria | prof-tools/prof/tools/auto_grader/assignments/lessonRubric_template.py:1389-1429 | every criterion is replaced as `RecalcOne` says, no override remains, and it returns the count recalculated |
| FileNameGrammar.FirstExtension | prof-tools/prof/tools/auto_grader/assignments/fdma2530/u01_ss01_primitives.py:48-51 | the first Maya extension the name ends with, case-insensitively, with no earlier one matching; None iff none matches |
| FileNameGrammar.StripExtension | prof-tools/prof/tools/auto_grader/assignments/fdma2530/u01_ss01_primitives.py:47-51 | the name with the first matching extension removed, and only that one, or unchanged |
| FileNameGrammar.ParseIteration | prof-tools/prof/tools/auto_grader/assignments/fdma2530/u01_ss01_primitives.py:64 | the optional `_digits` or `.digits` iteration, covering exactly the rest of the text |
| FileNameGrammar.ParseVersion | prof-tools/prof/tools/auto_grader/assignments/fdma2530/u01_ss01_primitives.py:64 | a `V`-tagged digit run and the optional iteration covering the whole text |
| FileNameGrammar.ParseSoftskill | prof-tools/prof/tools/auto_grader/assignments/fdma2530/u01_ss01_primitives.py:64 | an `SS` group, an underscore and the version covering the whole text |
| FileNameGrammar.ParseUnit | prof-tools/prof/tools/auto_grader/assignments/fdma2530/u01_ss01_primitives.py:64 | a `U` group, an underscore and the rest covering the whole text |
| FileNameGrammar.ParseName | prof-tools/prof/tools/auto_grader/assignments/fdma2530/u01_ss01_primitives.py:64-66 | the groups found are well formed (2-3 letters, `U`, `SS`, `V` digit groups, an optional iteration) and render back to the whole text |
| FileNameGrammar.ParseRender | prof-tools/prof/tools/auto_grader/assignments/fdma2530/u01_ss01_primitives.py:64-66 | every well-formed set of groups is parsed back from its text, so the parser accepts exactly those texts |
| FileNameGrammar.MatchName | prof-tools/prof/tools/auto_grader/assignments/fdma2530/u01_ss01_primitives.py:66 | `re.match` with `$`: the groups of the text, or of the text without one trailing newline |
| FileNameGrammar.MatchRender | prof-tools/prof/tools/auto_grader/assignments/fdma2530/u01_ss01_primitives.py:66 | every well-formed text matches with its own groups |
| FileNameGrammar.RenderPassesStructure | prof-tools/prof/tools/auto_grader/assignments/fdma2530/u01_ss01_primitives.py:70-86 | a text the pattern accepts also passes the structural tests (an underscore, initials and an underscore, `_V` and a digit) |
| FileNameGrammar.MatchPassesStructure | prof-tools/prof/tools/auto_grader/assignments/fdma2530/u01_ss01_primitives.py:66-86 | the same for everything `re.match` accepts, a trailing newline included |
| FileNameGrammar.IterationDigits | prof-tools/prof/tools/auto_grader/assignments/fdma2530/u01_ss01_primitives.py:125 | `iter_underscore or iter_dot`: the iteration digits, None iff there is no iteration |
| FileNameGrammar.BelowOneIffZeros | prof-tools/prof/tools/auto_grader/assignments/fdma2530/u01_ss01_primitives.py:126-130 | an iteration is below 1 exactly when all its digits are zeros |
| FileNameGrammar.VersionAlwaysTagged | prof-tools/prof/tools/auto_grader/assignments/fdma2530/u01_ss01_primitives.py:118-119 | a matched version always starts with "V", so that check never fires |
| FileNameGrammar.ComponentIssues | prof-tools/prof/tools/auto_grader/assignments/fdma2530/u01_ss01_primitives.py:107-133 | at most three problems (unit, soft skill, iteration below 1), none iff the name conforms; a wrong unit is reported first |
| FileNameGrammar.PerfectComment | prof-tools/prof/tools/auto_grader/assignments/fdma2530/u01_ss01_primitives.py:146-150 | the perfect-name comment starts "Perfect file naming! Format: " and the four components |
| PrimitivesFileName.StructuralErrors | prof-tools/prof/tools/auto_grader/assignments/fdma2530/u01_ss01_primitives.py:68-86 | the failed structural checks, at most five; none iff all five pass |
| PrimitivesFileName.MalformedScore | prof-tools/prof/tools/auto_grader/assignments/fdma2530/u01_ss01_primitives.py:88-96 | 50 for three or more structural errors, 90 for exactly one, 70 otherwise |
| PrimitivesFileName.MalformedComment | prof-tools/prof/tools/auto_grader/assignments/fdma2530/u01_ss01_primitives.py:98-102 | the comment counts the structural errors and ends with the expected format |
| PrimitivesFileName.MatchedScore | prof-tools/prof/tools/auto_grader/assignments/fdma2530/u01_ss01_primitives.py:134-143 | 100 exactly with no component error, otherwise 90, 70 or 50 |
| PrimitivesFileName.MatchedComment | prof-tools/prof/tools/auto_grader/assignments/fdma2530/u01_ss01_primitives.py:145-156 | the perfect comment with no error; otherwise a comment that does not start "Perfect" and names the error |
| PrimitivesFileName.ScoreRange | prof-tools/prof/tools/auto_grader/assignments/fdma2530/u01_ss01_primitives.py:23-158 | every score is 0, 50, 70, 90 or 100, and 0 exactly for a blank name |
| PrimitivesFileName.PerfectExactly | prof-tools/prof/tools/auto_grader/assignments/fdma2530/u01_ss01_primitives.py:23-158 | full marks exactly for a non-blank name that, without its extension, matches with unit U01, soft skill SS01 and no iteration below 1; the comment then echoes the parts |
| PrimitivesFileName.MalformedNotMonotone | prof-tools/prof/tools/auto_grader/assignments/fdma2530/u01_ss01_primitives.py:88-96 | a rejected name passing all five structural checks scores 70, less than one failing exactly one of them (90) |
| DeductionFileName.Malformed | prof-tools/prof/tests/test_filename_validation.py:59-72 | a rejected name scores by the first structural check it fails: 10 exactly without an underscore, 70 exactly when all checks pass |
| DeductionFileName.Deduction | prof-tools/prof/tests/test_filename_validation.py:79-106 | points off a matching name: 40 each for unit and soft skill and 10 for the iteration, at most 90, none iff the name conforms |
| DeductionFileName.ScoreRange | prof-tools/prof/tests/test_filename_validation.py:14-121 | scores lie in 0..100, 0 exactly for a blank name, at least 10 for a match; `max(0, ...)` never applies |
| DeductionFileName.FeedbackTiers | prof-tools/prof/tests/test_filename_validation.py:108-119 | a match's comment is the perfect comment at 100, "Good ..." from 80, "needs attention" from 60, "major issues" below |
| DeductionFileName.PerfectExactly | prof-tools/prof/tests/test_filename_validation.py:14-121 | full marks exactly for a non-blank name whose cleaned text matches with unit U01, soft skill SS01 and no iteration below 1; the comment is then the perfect-name comment echoing the parts |
| DeductionFileName.AgreesOnFullMarks | prof-tools/prof/tests/test_filename_validation.py:14-121 | both validators give full marks to the same names, with the same comment |
| DeductionFileName.MatchedScore | prof-tools/prof/tests/test_filename_validation.py:75-121 | a plain matching name scores 100 minus its deductions |
| DeductionFileName.ExamplePerfect | prof-tools/prof/tests/test_filename_validation.py:129 | "AB_U01_SS01_V01" scores 100 |
| DeductionFileName.ExampleDotIteration | prof-tools/prof/tests/test_filename_validation.py:131 | "AB_U01_SS01_V01.0001" scores 100 |
| DeductionFileName.ExampleMayaAscii | prof-tools/prof/tests/test_filename_validation.py:135 | "AB_U01_SS01_V01.ma" scores 100 |
| DeductionFileName.ExampleWrongUnit | prof-tools/prof/tests/test_filename_validation.py:148 | "AB_U02_SS01_V01" scores 60 |
| DeductionFileName.ExampleDashes | prof-tools/prof/tests/test_filename_validation.py:153 | "AB-U01-SS01-V01" scores 10 |
| DeductionFileName.ExampleMissingVersionLetter | prof-tools/prof/tests/test_filename_validation.py:69-150 | "AB_U01_SS01_B01" scores 65, below the 70-90 its test row expects |
| ProfSetup.PathJoin | prof-tools/prof/core/setup.py:79-104 | `os.path.join(a, b)` on the platform's path rules starts with `a`, ends with `b` and adds at most one separator, exactly one after an ordinary directory |
| ProfSetup.DocumentsPath | prof-tools/prof/core/setup.py:79-104 | `~/Documents/maya` on Windows and macOS, `~/maya` elsewhere |
| ProfSetup.InstallationPath | prof-tools/prof/core/setup.py:106-114 | the `prof-tools` folder inside the Maya documents folder |
| ProfSetup.UserSetupPath | prof-tools/prof/core/setup.py:116-126 | `prefs/scripts/userSetup.mel` inside the Maya documents folder |
| ProfSetup.InstallAndUserSetupDiffer | prof-tools/prof/core/setup.py:106-126 | the installation folder and the userSetup file are never the same path |
| ProfSetup.Dirname | prof-tools/prof/core/setup.py:275 | `os.path.dirname` on the platform's path rules is a prefix of the path that keeps its drive |
| ProfSetup.LastSepEnd | prof-tools/prof/core/setup.py:275 | the position after the last separator: no separator follows it |
| ProfSetup.RStripSeps | prof-tools/prof/core/setup.py:275 | the path with its trailing separators stripped, and only those |
| ProfSetup.DirnameOfJoin | prof-tools/prof/core/setup.py:275 | on both platforms, the directory part of a name joined to a directory is that directory, drive letters included |
| ProfSetup.SourcePathIsRoot | prof-tools/prof/core/setup.py:265-275 | three `dirname`s of the joined `<root>/prof/core/setup.py` give the prof-tools root, with `\` or `/` separators on Windows and `/` elsewhere |
| ProfSetup.SourcePath | prof-tools/prof/core/setup.py:265-275 | `_get_source_path` is a prefix of the module path |
| ProfSetup.SourcePathOfParts | prof-tools/prof/core/setup.py:265-275 | the same for the path spelled with the platform's own separator |
| ProfSetup.WindowsSourceSample | prof-tools/prof/core/setup.py:265-275 | `C:\Users\a\prof-tools\prof\core\setup.py` gives `C:\Users\a\prof-tools` on Windows |
| ProfSetup.Terminated | prof-tools/prof/core/setup.py:313-314 | the existing text with a newline added when it is non-empty and lacks one |
| ProfSetup.Updated | prof-tools/prof/core/setup.py:294-318 | unless the entry already occurs, the marker comment and the entry are appended, each on its own line; the result keeps the old text as prefix and holds the entry |
| ProfSetup.UpdateIdempotent | prof-tools/prof/core/setup.py:294-318 | installing twice leaves the file as installing once does |
| ProfSetup.ReadLines | prof-tools/prof/core/setup.py:331 | `readlines()`: non-empty lines, each but the last ending in a newline |
| ProfSetup.ReadLinesConcat | prof-tools/prof/core/setup.py:331-353 | writing the lines back gives the text that was read |
| ProfSetup.CleanFrom | prof-tools/prof/core/setup.py:335-349 | the kept lines are at most the lines read, and none is removable |
| ProfSetup.Cleaned | prof-tools/prof/core/setup.py:320-355 | no line left holds the marker or the stripped entry |
| ProfSetup.CleanKeepsOrder | prof-tools/prof/core/setup.py:335-349 | the cleaner only removes lines, and keeps the others in order |
| ProfSetup.CleanNothingToRemove | prof-tools/prof/core/setup.py:335-349 | lines with nothing to remove pass through unchanged |
| ProfSetup.CleanIdempotent | prof-tools/prof/core/setup.py:320-355 | uninstalling twice removes nothing more than uninstalling once |
| ProfSetup.CleanAppend | prof-tools/prof/core/setup.py:335-349 | cleaning distributes over lines that hold no marker |
| ProfSetup.CleanLines | prof-tools/prof/core/setup.py:335-349 | the cleaning loop keeps exactly the lines `Cleaned` keeps |
| ProfSetup.CleanMarkerPair | prof-tools/prof/core/setup.py:338-344 | a marker line and the line after it are both dropped |
| ProfSetup.CleanAppendedLines | prof-tools/prof/core/setup.py:313-349 | the two lines the installer appends are exactly what the cleaner removes |
| ProfSetup.CleanKeepsPrefix | prof-tools/prof/core/setup.py:335-349 | lines with nothing removable survive the cleaning away of what follows them |
| ProfSetup.UninstallUndoesInstall | prof-tools/prof/core/setup.py:294-355 | uninstalling after installing gives back the file's lines, its last line now ended by a newline, when none was removable |
| ProfSetup.UninstallUndoesInstallEntry | prof-tools/prof/core/setup.py:294-355 | the same round trip for the prof-tools entry line itself (see also line 38) |
| ProfSetup.UserSetupFile.constructor | prof-tools/prof/core/setup.py:306-308 | the file as found: whether it exists, and its text |
| ProfSetup.UserSetupFile.Update | prof-tools/prof/core/setup.py:294-318 | the file is left alone when it holds the entry; otherwise it exists afterwards with the `Updated` text |
| ProfSetup.UserSetupFile.Clean | prof-tools/prof/core/setup.py:320-355 | an absent file stays absent; an existing one is rewritten with the `Cleaned` lines |
| GitHubUtilities.RawUrlFor | FDMA2530-Modeling/Student-Shelf/utilities/github_utilities.py:168-200 | the URL is the repository URL without its trailing slashes, `/raw/<branch>/<base>/`, then the path without its leading slashes |
| GitHubUtilities.BuildGithubRawUrl | FDMA2530-Modeling/Student-Shelf/utilities/github_utilities.py:168-200 | the URL starts with the fixed raw prefix of the shelf and ends with the file path, never with a slash right after the prefix |
| GitHubUtilities.RawUrlIgnoresLeadingSlash | FDMA2530-Modeling/Student-Shelf/utilities/github_utilities.py:188 | a leading slash on the path does not change the URL |
| GitHubUtilities.RawUrlInjective | FDMA2530-Modeling/Student-Shelf/utilities/github_utilities.py:168-200 | different relative paths (not starting with a slash) give different URLs |
| GitHubUtilities.BuildSubdirectoryPath | FDMA2530-Modeling/Student-Shelf/utilities/github_utilities.py:203-232 | None exactly for a key outside the table; otherwise `<directory>/<filename>` |
| GitHubUtilities.SubdirectoryTable | FDMA2530-Modeling/Student-Shelf/utilities/github_utilities.py:105-110 | the table has exactly the keys core, buttons, utilities and media, and no directory name holds a slash |
| GitHubUtilities.SubdirectoryPathSplits | FDMA2530-Modeling/Student-Shelf/utilities/github_utilities.py:222-232 | the first slash of a built path splits it back into the table's directory and the file name |
| GitHubUtilities.Normalize | FDMA2530-Modeling/Student-Shelf/utilities/github_utilities.py:481-486 | stripped, with CRLF and CR line endings made LF: no carriage return is left |
| GitHubUtilities.CheckForFileUpdates | FDMA2530-Modeling/Student-Shelf/utilities/github_utilities.py:442-515 | an error exactly when the download failed; updates exactly when both normalised texts differ; the sizes are the raw lengths, a missing current text counting 0 |
| GitHubUtilities.NormalizeIdempotent | FDMA2530-Modeling/Student-Shelf/utilities/github_utilities.py:481-486 | normalising twice is normalising once |
| GitHubUtilities.PaddingIsNoUpdate | FDMA2530-Modeling/Student-Shelf/utilities/github_utilities.py:481-490 | whitespace added at either end of the file is never reported as an update |
| GitHubUtilities.StripCrLf | FDMA2530-Modeling/Student-Shelf/utilities/github_utilities.py:481-486 | stripping commutes with rewriting line endings as CRLF |
| GitHubUtilities.ReplaceCrLfUndoesCrLf | FDMA2530-Modeling/Student-Shelf/utilities/github_utilities.py:485-486 | replacing CRLF by LF undoes writing LF as CRLF |
| GitHubUtilities.CrLfIsNoUpdate | FDMA2530-Modeling/Student-Shelf/utilities/github_utilities.py:479-490 | a file that only changed to Windows line endings is never reported as an update |
| GitHubUtilities.StripCr | FDMA2530-Modeling/Student-Shelf/utilities/github_utilities.py:481-486 | stripping commutes with rewriting line endings as CR |
| GitHubUtilities.CrIsNoUpdate | FDMA2530-Modeling/Student-Shelf/utilities/github_utilities.py:479-490 | a file that only changed to CR line endings is never reported as an update |
| GitHubUtilities.Classify | FDMA2530-Modeling/Student-Shelf/utilities/github_utilities.py:570-596 | the branch of the `if`/`elif` chain a header line takes: a version line exactly when a version pattern occurs in the lower-cased stripped line; the others only when their pattern or comment shape holds |
| GitHubUtilities.Candidate | FDMA2530-Modeling/Student-Shelf/utilities/github_utilities.py:573-596 | what a line offers a field: the stripped line, or for the description the cleaned comment text, which is non-empty and free of import, copyright and license |
| GitHubUtilities.HeaderOf | FDMA2530-Modeling/Student-Shelf/utilities/github_utilities.py:558 | at most the first thirty lines |
| GitHubUtilities.ScanHeader | FDMA2530-Modeling/Student-Shelf/utilities/github_utilities.py:518-611 | the loop computes the fold `ExtractVersionInfo` |
| GitHubUtilities.UnknownMatchesNothing | FDMA2530-Modeling/Student-Shelf/utilities/github_utilities.py:575-587 | the text Unknown matches none of the version, author or contact patterns |
| GitHubUtilities.FirstOffer | FDMA2530-Modeling/Student-Shelf/utilities/github_utilities.py:570-596 | the first value the lines offer a field is never Unknown |
| GitHubUtilities.FirstOfferIsFirst | FDMA2530-Modeling/Student-Shelf/utilities/github_utilities.py:570-596 | the value found is the offer of the first line that offers the field something other than Unknown, and there is no value exactly when no line offers one |
| GitHubUtilities.ScanLineField | FDMA2530-Modeling/Student-Shelf/utilities/github_utilities.py:570-596 | one line changes a field only while the field still reads Unknown, and then to what the line offers |
| GitHubUtilities.ScanFromField | FDMA2530-Modeling/Student-Shelf/utilities/github_utilities.py:570-596 | a field already set stays; an unset one takes the first offer of the lines |
| GitHubUtilities.ExtractFindsFirst | FDMA2530-Modeling/Student-Shelf/utilities/github_utilities.py:518-611 | after a download each field is its first offer among the header lines, or Unknown; the error is None |
| GitHubUtilities.OneFieldPerLine | FDMA2530-Modeling/Student-Shelf/utilities/github_utilities.py:575-596 | a line offers a value to at most one field |
| GitHubUtilities.OnlyHeaderCounts | FDMA2530-Modeling/Student-Shelf/utilities/github_utilities.py:558 | lines after the thirtieth never change the result |
| ShelfCommon.LoaderCommand | cmi-tools/FDMA2530-Modeling/Student-Shelf/fdma_shelf/shelf/builder.py:148-159 | the loader command is the fixed prefix, the URL and the fixed suffix (the other copy is FDMA2530-Modeling/Student-Shelf/fdma_shelf/shelf/builder.py, lines 143-153) |
| ShelfCommon.LoaderUrl | cmi-tools/FDMA2530-Modeling/Student-Shelf/fdma_shelf/shelf/builder.py:148-159 | a recovered URL is one whose loader command is exactly the given command (the other copy is FDMA2530-Modeling/Student-Shelf/fdma_shelf/shelf/builder.py, lines 143-153) |
| ShelfCommon.LoaderUrlRoundTrip | cmi-tools/FDMA2530-Modeling/Student-Shelf/fdma_shelf/shelf/builder.py:148-159 | the URL is recovered from the loader command built around it (the other copy is FDMA2530-Modeling/Student-Shelf/fdma_shelf/shelf/builder.py, lines 143-153) |
| ShelfCommon.FixedCommandsAreNotLoaders | cmi-tools/FDMA2530-Modeling/Student-Shelf/fdma_shelf/shelf/builder.py:145-161 | the updater and not-configured commands are not loader commands, and differ |
| ShelfCommon.LoaderNotUpdater | cmi-tools/FDMA2530-Modeling/Student-Shelf/fdma_shelf/shelf/builder.py:145-159 | no loader command is the updater command |
| ShelfCommon.EmitCount | cmi-tools/FDMA2530-Modeling/Student-Shelf/fdma_shelf/shelf/builder.py:94-118 | at most one control per item |
| ShelfCommon.Collect | cmi-tools/FDMA2530-Modeling/Student-Shelf/fdma_shelf/shelf/builder.py:94-118 | the loop finishes exactly when no item raises, and then has one control per item that made one (the other copy is FDMA2530-Modeling/Student-Shelf/fdma_shelf/shelf/builder.py, lines 94-116) |
| ShelfCommon.CollectConcat | cmi-tools/FDMA2530-Modeling/Student-Shelf/fdma_shelf/shelf/builder.py:94-118 | running over two lists of items is running over the first and, if nothing raised, then the second (the other copy is FDMA2530-Modeling/Student-Shelf/fdma_shelf/shelf/builder.py, lines 94-116) |
| ShelfCommon.SkipAnywhere | cmi-tools/FDMA2530-Modeling/Student-Shelf/fdma_shelf/shelf/builder.py:95-96 | an item that does nothing can be removed from anywhere in the list (the other copy is FDMA2530-Modeling/Student-Shelf/fdma_shelf/shelf/builder.py, lines 95-96) |
| ShelfCommon.ItemsOf | cmi-tools/FDMA2530-Modeling/Student-Shelf/fdma_shelf/shelf/builder.py:94 | a list is iterated item by item (the other copy is FDMA2530-Modeling/Student-Shelf/fdma_shelf/shelf/builder.py, line 94) |
| ShelfCommon.CellSize | cmi-tools/FDMA2530-Modeling/Student-Shelf/fdma_shelf/shelf/builder.py:72-74 | a missing cell size reads as 35; a shelf_info that is not a dict raises (the other copy is FDMA2530-Modeling/Student-Shelf/fdma_shelf/shelf/builder.py, lines 76-77) |
| CmiShelfBuilder.BuildButtonCommand | cmi-tools/FDMA2530-Modeling/Student-Shelf/fdma_shelf/shelf/builder.py:132-161 | a `command` entry wins; else any capitalisation of the label "update" gives the updater; else a truthy `script_url` gives the loader of that URL; else the not-configured print; a non-string label raises |
| CmiShelfBuilder.UpdateLabelAnyCase | cmi-tools/FDMA2530-Modeling/Student-Shelf/fdma_shelf/shelf/builder.py:144-146 | any capitalisation of "update" selects the updater when no command is given |
| CmiShelfBuilder.ItemStep | cmi-tools/FDMA2530-Modeling/Student-Shelf/fdma_shelf/shelf/builder.py:95-118 | a non-dict item raises, a disabled item is skipped, and a control is made only for the separator and button types |
| CmiShelfBuilder.Steps | cmi-tools/FDMA2530-Modeling/Student-Shelf/fdma_shelf/shelf/builder.py:94-118 | one step per configured item, in order |
| CmiShelfBuilder.CreateShelfControls | cmi-tools/FDMA2530-Modeling/Student-Shelf/fdma_shelf/shelf/builder.py:70-129 | the loop computes the fold `CreateShelf` |
| CmiShelfBuilder.BuildShelf | cmi-tools/FDMA2530-Modeling/Student-Shelf/fdma_shelf/shelf/builder.py:164-179 | a missing or empty configuration only warns; otherwise the shelf creation is deferred |
| CmiShelfBuilder.DisabledItemIgnored | cmi-tools/FDMA2530-Modeling/Student-Shelf/fdma_shelf/shelf/builder.py:95-96 | a disabled item can be added anywhere without changing the shelf |
| CmiShelfBuilder.OtherTypeIgnored | cmi-tools/FDMA2530-Modeling/Student-Shelf/fdma_shelf/shelf/builder.py:98-118 | an item of any other type is ignored the same way |
| CmiShelfBuilder.DefaultButtonSize | cmi-tools/FDMA2530-Modeling/Student-Shelf/fdma_shelf/shelf/builder.py:72-118 | without configured sizes a button is 35 by 35, with its label, the default icon and annotation and its command |
| CmiShelfBuilder.BuiltCountsControls | cmi-tools/FDMA2530-Modeling/Student-Shelf/fdma_shelf/shelf/builder.py:70-118 | a finished shelf has one control per item that made one, at the configured cell width |
| CmiShelfBuilder.MissingConfigBuildsNothing | cmi-tools/FDMA2530-Modeling/Student-Shelf/fdma_shelf/shelf/builder.py:174-176 | a configuration that could not be read, or is empty, never builds a shelf |
| StudentShelfBuilder.BuildButtonCommand | FDMA2530-Modeling/Student-Shelf/fdma_shelf/shelf/builder.py:129-155 | a `command` entry wins; else only the exact label "Update" gives the updater; else the loader of the `script_url` text, even when it is empty |
| StudentShelfBuilder.NeverNotConfigured | FDMA2530-Modeling/Student-Shelf/fdma_shelf/shelf/builder.py:143-155 | without a `command` entry a button never gets the not-configured print |
| StudentShelfBuilder.ItemStep | FDMA2530-Modeling/Student-Shelf/fdma_shelf/shelf/builder.py:95-116 | a non-dict item raises, a disabled item is skipped, an enabled item without a type raises, and a separator has no width |
| StudentShelfBuilder.Steps | FDMA2530-Modeling/Student-Shelf/fdma_shelf/shelf/builder.py:94-116 | one step per configured item, in order |
| StudentShelfBuilder.CreateShelfControls | FDMA2530-Modeling/Student-Shelf/fdma_shelf/shelf/builder.py:73-126 | the loop computes the fold `CreateShelf` |
| StudentShelfBuilder.BuildShelf | FDMA2530-Modeling/Student-Shelf/fdma_shelf/shelf/builder.py:157-168 | a missing or empty configuration only warns; otherwise the shelf creation is deferred |
| StudentShelfBuilder.DisabledItemIgnored | FDMA2530-Modeling/Student-Shelf/fdma_shelf/shelf/builder.py:95-96 | a disabled item can be added anywhere without changing the shelf |
| StudentShelfBuilder.MissingTypeStops | FDMA2530-Modeling/Student-Shelf/fdma_shelf/shelf/builder.py:98-106 | an enabled item without a type raises: earlier controls stay and nothing after it is made |
| StudentShelfBuilder.RequiredKeys | FDMA2530-Modeling/Student-Shelf/fdma_shelf/shelf/builder.py:75-94 | a configuration without `shelf_info` or `buttons` raises instead of building |
| StudentShelfBuilder.LowerCaseUpdateDiffers | FDMA2530-Modeling/Student-Shelf/fdma_shelf/shelf/builder.py:139-140 | a lower-case "update" label is the updater in the cmi-tools builder but a loader here (the other copy is cmi-tools/FDMA2530-Modeling/Student-Shelf/fdma_shelf/shelf/builder.py, lines 145-146) |
| StudentShelfBuilder.EmptyButtonDiffers | FDMA2530-Modeling/Student-Shelf/fdma_shelf/shelf/builder.py:143-153 | a button with nothing configured is the not-configured print there and a loader of "" here (the other copy is cmi-tools/FDMA2530-Modeling/Student-Shelf/fdma_shelf/shelf/builder.py, lines 148-161) |
| StudentShelfBuilder.MissingTypeDiffers | FDMA2530-Modeling/Student-Shelf/fdma_shelf/shelf/builder.py:98 | an enabled item without a type is skipped by the cmi-tools builder and raises here (the other copy is cmi-tools/FDMA2530-Modeling/Student-Shelf/fdma_shelf/shelf/builder.py, line 98) |
| ChecklistCommon.LastPartSuffix | cmi-tools/FDMA2530-Modeling/Student-Shelf/fdma_shelf/tools/checklist.py:3593-3595 | the last part of a split is a suffix of the text |
| ChecklistCommon.ShortName | cmi-tools/FDMA2530-Modeling/Student-Shelf/fdma_shelf/tools/checklist.py:3589-3596 | "" for ""; otherwise a suffix of the path that holds no '\|' (the other copy is FDMA2530-Modeling/Student-Shelf/cmi_modeling_checklist.py, lines 2019-2028) |
| ChecklistCommon.ShortNameOfPath | cmi-tools/FDMA2530-Modeling/Student-Shelf/fdma_shelf/tools/checklist.py:3589-3596 | the short name of a DAG path built from '\|'-free names is its last name |
| ChecklistCommon.ItemId | cmi-tools/FDMA2530-Modeling/Student-Shelf/fdma_shelf/tools/checklist.py:618 | same length as the row name, lower-cased, with no space, hyphen or capital left; every other character is the lower-cased original |
| ChecklistCommon.ItemIdIdempotent | cmi-tools/FDMA2530-Modeling/Student-Shelf/fdma_shelf/tools/checklist.py:618 | an item id is its own id |
| ChecklistCommon.ItemIdExample | cmi-tools/FDMA2530-Modeling/Student-Shelf/fdma_shelf/tools/checklist.py:618 | names that differ only in case, spaces and hyphens share their id |
| ChecklistCommon.MeshTriangles | cmi-tools/FDMA2530-Modeling/Student-Shelf/fdma_shelf/tools/checklist.py:1286-1297 | a mesh displayed smoothed counts its edges times four to the power of the smooth level; any other mesh counts its own triangles (the other copy is FDMA2530-Modeling/Student-Shelf/cmi_modeling_checklist.py, lines 661-669) |
| ChecklistCommon.MoreLevelsMoreTriangles | cmi-tools/FDMA2530-Modeling/Student-Shelf/fdma_shelf/tools/checklist.py:1288-1293 | one more smoothing level multiplies a smoothed mesh's estimate by four |
| ChecklistCommon.BandVerdict | cmi-tools/FDMA2530-Modeling/Student-Shelf/fdma_shelf/tools/checklist.py:1301-1348 | a warning exactly strictly between the two limits, a pass below the upper limit otherwise, an error (one issue) at or above it (the other copy is FDMA2530-Modeling/Student-Shelf/cmi_modeling_checklist.py, lines 670-680) |
| ChecklistCommon.NameVerdict | cmi-tools/FDMA2530-Modeling/Student-Shelf/fdma_shelf/tools/checklist.py:1822-1850 | an error exactly when some object is offending, with one issue each; a warning exactly when there are only possible offenders |
| ChecklistCommon.Occurrences | FDMA2530-Modeling/Student-Shelf/cmi_modeling_checklist.py:886-891 | a count no larger than the list, positive exactly when the element occurs |
| ChecklistCommon.SumOfConcat | cmi-tools/FDMA2530-Modeling/Student-Shelf/fdma_shelf/tools/checklist.py:1280-1299 | a running total over two lists of nodes is the sum of their totals |
| ChecklistCommon.SumOfOnes | FDMA2530-Modeling/Student-Shelf/cmi_modeling_checklist.py:1184-1192 | a total of one per node is the number of nodes |
| CmiChecklist.ResolutionPasses | cmi-tools/FDMA2530-Modeling/Student-Shelf/fdma_shelf/tools/checklist.py:705-731 | the comparison `is_resolution_valid` computes: the width or the height, as text, equals one of the two expected entries, 1280 and 720 for a custom setting with fewer than two |
| CmiChecklist.ResolutionCheck | cmi-tools/FDMA2530-Modeling/Student-Shelf/fdma_shelf/tools/checklist.py:705-817 | a custom setting with fewer than two entries is reported as unusable; otherwise a pass with no issue exactly when the width or the height matches an expected entry, and an error with one issue otherwise |
| CmiChecklist.ShortCustomIsOneIssue | cmi-tools/FDMA2530-Modeling/Student-Shelf/fdma_shelf/tools/checklist.py:803-817 | a custom setting with fewer than two entries is reported as unusable, one issue, whatever the width and height |
| CmiChecklist.IntToStringInjective | cmi-tools/FDMA2530-Modeling/Student-Shelf/fdma_shelf/tools/checklist.py:726-730 | comparing resolutions as their decimal text is comparing the integers |
| CmiChecklist.DefaultResolutionRule | cmi-tools/FDMA2530-Modeling/Student-Shelf/fdma_shelf/tools/checklist.py:726-730 | with the default setting the check passes exactly when one side is 1280 or 720 (see also line 78) |
| CmiChecklist.UntiledNodesCountOnce | cmi-tools/FDMA2530-Modeling/Student-Shelf/fdma_shelf/tools/checklist.py:866-888 | without UDIM tiling every file node counts one texture |
| CmiChecklist.CountTextures | cmi-tools/FDMA2530-Modeling/Student-Shelf/fdma_shelf/tools/checklist.py:866-888 | the loop adds each node's UDIM tiles when tiled, else one, and one when a query raises |
| CmiChecklist.FailedLookupCountsOne | cmi-tools/FDMA2530-Modeling/Student-Shelf/fdma_shelf/tools/checklist.py:887-888 | a node whose lookup raises counts as one texture wherever it is |
| CmiChecklist.TextureVerdict | cmi-tools/FDMA2530-Modeling/Student-Shelf/fdma_shelf/tools/checklist.py:898-934 | above the lower limit and up to the upper a warning, up to the lower a pass, above both an error with one issue |
| CmiChecklist.TextureCheck | cmi-tools/FDMA2530-Modeling/Student-Shelf/fdma_shelf/tools/checklist.py:852-934 | a scene without file nodes passes; otherwise the 40/50 band on the texture total (see also line 79) |
| CmiChecklist.CountTriangles | cmi-tools/FDMA2530-Modeling/Student-Shelf/fdma_shelf/tools/checklist.py:1278-1299 | the loop adds each readable mesh's triangle estimate |
| CmiChecklist.UnreadableMeshIgnored | cmi-tools/FDMA2530-Modeling/Student-Shelf/fdma_shelf/tools/checklist.py:1298-1299 | a mesh whose queries raise is left out of the total wherever it is |
| CmiChecklist.TriangleCheck | cmi-tools/FDMA2530-Modeling/Student-Shelf/fdma_shelf/tools/checklist.py:1247-1348 | a scene without meshes passes; otherwise an error exactly at or above 200000 and a warning exactly strictly between 180000 and 200000 (see also line 82) |
| CmiChecklist.AddOnce | cmi-tools/FDMA2530-Modeling/Student-Shelf/fdma_shelf/tools/checklist.py:1785-1789 | appending when absent: the members are the old ones and the new one, and no element is listed twice |
| CmiChecklist.ScanNamesMembers | cmi-tools/FDMA2530-Modeling/Student-Shelf/fdma_shelf/tools/checklist.py:1783-1789 | the loop over the default names adds an object to a list exactly when some default name puts it there |
| CmiChecklist.DefaultNameLists | cmi-tools/FDMA2530-Modeling/Student-Shelf/fdma_shelf/tools/checklist.py:1782-1789 | an object is offending exactly when a default name starts it, a possible offender exactly when one occurs in it elsewhere, and no object is listed twice (see also lines 113-122) |
| CmiChecklist.FindDefaultNames | cmi-tools/FDMA2530-Modeling/Student-Shelf/fdma_shelf/tools/checklist.py:1782-1789 | the nested loops compute the fold `ScanObjects` |
| CmiChecklist.DefaultNamesCheck | cmi-tools/FDMA2530-Modeling/Student-Shelf/fdma_shelf/tools/checklist.py:1755-1850 | a scene without objects passes; otherwise an error per offending object, a warning for possible offenders alone |
| CmiChecklist.FreshCubeIsError | cmi-tools/FDMA2530-Modeling/Student-Shelf/fdma_shelf/tools/checklist.py:1755-1850 | a scene holding pCube1 makes the check an error (see also lines 113-122) |
| CmiChecklist.AnimCurveInputs | cmi-tools/FDMA2530-Modeling/Student-Shelf/fdma_shelf/tools/checklist.py:2494-2495 | at most one count per input node |
| CmiChecklist.ScanTransforms | cmi-tools/FDMA2530-Modeling/Student-Shelf/fdma_shelf/tools/checklist.py:2467-2503 | the loops compute the fold `ScanVisibility` |
| CmiChecklist.VisibilityVerdict | cmi-tools/FDMA2530-Modeling/Student-Shelf/fdma_shelf/tools/checklist.py:2506-2523 | a single turntable entry with nothing else animated only warns; otherwise turntable entries join the animated ones, each an issue, and hidden objects alone warn |
| CmiChecklist.VisibilityCheck | cmi-tools/FDMA2530-Modeling/Student-Shelf/fdma_shelf/tools/checklist.py:2440-2523 | a scene without transforms passes; otherwise the verdict of the scan |
| CmiChecklist.VisibilityCounts | cmi-tools/FDMA2530-Modeling/Student-Shelf/fdma_shelf/tools/checklist.py:2467-2503 | one hidden entry per hidden transform and one animated or turntable entry per animation-curve input |
| CmiChecklist.TurntableException | cmi-tools/FDMA2530-Modeling/Student-Shelf/fdma_shelf/tools/checklist.py:2506-2523 | one keyed turntable is a warning without issues; two are two issues |
| CmiChecklist.CategorizeLights | cmi-tools/FDMA2530-Modeling/Student-Shelf/fdma_shelf/tools/checklist.py:3233-3263 | the loop computes the fold `ScanLights` |
| CmiChecklist.JudgeLights | cmi-tools/FDMA2530-Modeling/Student-Shelf/fdma_shelf/tools/checklist.py:3225-3308 | one issue each for a skydome count other than one, a key-light count other than one and more than two casters; one warning each for more than four lights and for any non-key caster |
| CmiChecklist.LightsCheck | cmi-tools/FDMA2530-Modeling/Student-Shelf/fdma_shelf/tools/checklist.py:3193-3308 | a scene without lights passes; otherwise the judgement of the scan (see also line 86) |
| CmiChecklist.LightCounts | cmi-tools/FDMA2530-Modeling/Student-Shelf/fdma_shelf/tools/checklist.py:3233-3263 | skydomes and key lights count even when the shadow query raises; a non-key caster is a caster that is neither key nor skydome |
| CmiChecklist.ThreePointSetupPasses | cmi-tools/FDMA2530-Modeling/Student-Shelf/fdma_shelf/tools/checklist.py:3193-3308 | a skydome and a key light that cast, with a fill and a rim that do not, pass |
| CmiChecklist.CastingFillWarns | cmi-tools/FDMA2530-Modeling/Student-Shelf/fdma_shelf/tools/checklist.py:3279-3291 | a fill that casts as well makes one issue (three casters) and one warning (a non-key caster) |
| CmiChecklist.ExportReport | cmi-tools/FDMA2530-Modeling/Student-Shelf/fdma_shelf/tools/checklist.py:3566-3580 | the text is the title line, a rule of sixty '=', then each non-empty report followed by a blank line |
| CmiChecklist.ReportBodyConcat | cmi-tools/FDMA2530-Modeling/Student-Shelf/fdma_shelf/tools/checklist.py:3575-3577 | the report of two lists of checks is the report of the first followed by that of the second |
| CmiChecklist.EmptyReportIgnored | cmi-tools/FDMA2530-Modeling/Student-Shelf/fdma_shelf/tools/checklist.py:3576 | a check that returned nothing leaves no trace in the report |
| CmiChecklist.ReportOfTwo | cmi-tools/FDMA2530-Modeling/Student-Shelf/fdma_shelf/tools/checklist.py:3575-3577 | two non-empty reports appear in order, each closed by a blank line |
| LegacyChecklist.TextureTotal | FDMA2530-Modeling/Student-Shelf/cmi_modeling_checklist.py:448-457 | a total exactly when every tiled node's UDIM lookup succeeds, and then the total the cmi-tools checklist computes |
| LegacyChecklist.CountTextures | FDMA2530-Modeling/Student-Shelf/cmi_modeling_checklist.py:448-457 | the loop computes `TextureTotal`, stopping where a lookup raises |
| LegacyChecklist.TextureVerdict | FDMA2530-Modeling/Student-Shelf/cmi_modeling_checklist.py:463-473 | above the lower limit and up to the upper a warning, otherwise up to the upper a pass, above the upper an error with one issue |
| LegacyChecklist.TextureRulesAgree | FDMA2530-Modeling/Student-Shelf/cmi_modeling_checklist.py:463-473 | with the lower limit below the upper both checklists judge a texture count alike |
| LegacyChecklist.TextureRulesDiffer | FDMA2530-Modeling/Student-Shelf/cmi_modeling_checklist.py:463-473 | with custom limits the wrong way round, a count between them fails here and passes in the cmi-tools checklist |
| LegacyChecklist.TextureCheck | FDMA2530-Modeling/Student-Shelf/cmi_modeling_checklist.py:425-475 | a scene without file nodes passes; otherwise the check is judged exactly when no lookup raises, by the 40/50 band (see also line 66) |
| LegacyChecklist.MissingFolders | FDMA2530-Modeling/Student-Shelf/cmi_modeling_checklist.py:522-524 | at most one count per expected folder |
| LegacyChecklist.PathEntries | FDMA2530-Modeling/Student-Shelf/cmi_modeling_checklist.py:519-528 | a node is listed once for an empty path, else once per expected folder its lower-cased path lacks |
| LegacyChecklist.FindIncorrectPaths | FDMA2530-Modeling/Student-Shelf/cmi_modeling_checklist.py:519-528 | the nested loops compute the fold `IncorrectNodes` |
| LegacyChecklist.IncorrectCount | FDMA2530-Modeling/Student-Shelf/cmi_modeling_checklist.py:519-528 | the list holds one entry per empty path and one per missing folder, each a file node's name |
| LegacyChecklist.ListedOncePerMissingFolder | FDMA2530-Modeling/Student-Shelf/cmi_modeling_checklist.py:522-524 | a node whose path lacks two expected folders is listed twice |
| LegacyChecklist.DefaultFolderListsOnce | FDMA2530-Modeling/Student-Shelf/cmi_modeling_checklist.py:519-528 | with the one default folder each node is listed at most once (see also line 67) |
| LegacyChecklist.FilePathsCheck | FDMA2530-Modeling/Student-Shelf/cmi_modeling_checklist.py:504-536 | any entry is an error, one issue per entry; the check never warns |
| LegacyChecklist.CountTriangles | FDMA2530-Modeling/Student-Shelf/cmi_modeling_checklist.py:649-669 | the loop adds each mesh's triangle estimate |
| LegacyChecklist.TriangleCheck | FDMA2530-Modeling/Student-Shelf/cmi_modeling_checklist.py:631-680 | a scene without meshes passes; an error exactly at or above 2000000 and a warning exactly strictly between 1800000 and 2000000 (see also line 69) |
| LegacyChecklist.MeshPolygons | FDMA2530-Modeling/Student-Shelf/cmi_modeling_checklist.py:744-749 | a smoothed mesh counts its faces times four per level, at least its faces; any other mesh counts its faces |
| LegacyChecklist.QuadMeshTwoTrianglesPerPolygon | FDMA2530-Modeling/Student-Shelf/cmi_modeling_checklist.py:661-749 | on a closed all-quad mesh the smoothed estimates agree: two triangles per polygon |
| LegacyChecklist.CountPolygons | FDMA2530-Modeling/Student-Shelf/cmi_modeling_checklist.py:740-749 | the loop adds each mesh's polygon estimate |
| LegacyChecklist.PolygonCheck | FDMA2530-Modeling/Student-Shelf/cmi_modeling_checklist.py:717-760 | a scene without meshes passes; an error exactly at or above 1000000 and a warning exactly strictly between 900000 and 1000000 (see also line 70) |
| LegacyChecklist.ScanNamesAppends | FDMA2530-Modeling/Student-Shelf/cmi_modeling_checklist.py:886-891 | the inner loop appends the object once per default name that starts it or occurs in it |
| LegacyChecklist.MatchesWitness | FDMA2530-Modeling/Student-Shelf/cmi_modeling_checklist.py:886-891 | a positive count of matches means some default name matches, and back |
| LegacyChecklist.FindDefaultNames | FDMA2530-Modeling/Student-Shelf/cmi_modeling_checklist.py:886-891 | the nested loops compute the fold `ScanObjects` |
| LegacyChecklist.DefaultNameCounts | FDMA2530-Modeling/Student-Shelf/cmi_modeling_checklist.py:886-913 | the list lengths, and so the issue count, add up the matching default names of every object |
| LegacyChecklist.SameObjectsListed | FDMA2530-Modeling/Student-Shelf/cmi_modeling_checklist.py:869-891 | both checklists list the same objects; only the cmi-tools one keeps each once |
| LegacyChecklist.DefaultNamesCheck | FDMA2530-Modeling/Student-Shelf/cmi_modeling_checklist.py:863-913 | a scene without objects passes; otherwise an error per offending entry, a warning for possible offenders alone |
| LegacyChecklist.DefaultNamesSameColour | FDMA2530-Modeling/Student-Shelf/cmi_modeling_checklist.py:905-913 | both checklists give a scene the same colour; only the issue count may differ |
| LegacyChecklist.GeometryChildren | FDMA2530-Modeling/Student-Shelf/cmi_modeling_checklist.py:1186-1187 | at most one count per child |
| LegacyChecklist.UnfrozenEntries | FDMA2530-Modeling/Student-Shelf/cmi_modeling_checklist.py:1184-1192 | a rotated transform with no rotation input is listed once per mesh or curve child |
| LegacyChecklist.FindUnfrozen | FDMA2530-Modeling/Student-Shelf/cmi_modeling_checklist.py:1184-1192 | the nested loops compute the fold `Unfrozen` |
| LegacyChecklist.UnfrozenCounts | FDMA2530-Modeling/Student-Shelf/cmi_modeling_checklist.py:1184-1192 | one entry per geometry child of each rotated, undriven transform |
| LegacyChecklist.FrozenCheck | FDMA2530-Modeling/Student-Shelf/cmi_modeling_checklist.py:1172-1242 | un-frozen transforms only ever warn, with one issue per entry |
| LegacyChecklist.TwoShapesTwoIssues | FDMA2530-Modeling/Student-Shelf/cmi_modeling_checklist.py:1184-1192 | a rotated transform with two mesh children counts two issues |
| LegacyChecklist.CategorizeLights | FDMA2530-Modeling/Student-Shelf/cmi_modeling_checklist.py:1753-1788 | the loop computes the fold `ScanLights`, None where a shadow query raised |
| LegacyChecklist.ScanLightsStopped | FDMA2530-Modeling/Student-Shelf/cmi_modeling_checklist.py:1753-1788 | once a query has raised, the scan stays raised |
| LegacyChecklist.LightCounts | FDMA2530-Modeling/Student-Shelf/cmi_modeling_checklist.py:1753-1788 | the scan finishes exactly when no non-skydome query raises; skydomes are counted but never casters; casters split exactly into key and non-key ones |
| LegacyChecklist.JudgeLights | FDMA2530-Modeling/Student-Shelf/cmi_modeling_checklist.py:1790-1844 | the first-match chain: no caster is an error; several casters are an error with several key casters and a warning otherwise; the check passes exactly with one caster, a skydome, a key caster and at most four lights |
| LegacyChecklist.LightsCheck | FDMA2530-Modeling/Student-Shelf/cmi_modeling_checklist.py:1711-1844 | without Arnold nothing is judged; a scene without lights passes; a raised query ends the check |
| LegacyChecklist.CastingFillDiffers | FDMA2530-Modeling/Student-Shelf/cmi_modeling_checklist.py:1750-1844 | a casting skydome, key and fill with a rim that does not cast is an error in the cmi-tools checklist and only a warning here (the other copy is cmi-tools/FDMA2530-Modeling/Student-Shelf/fdma_shelf/tools/checklist.py, lines 3233-3291) |
| LegacyChecklist.ThreePointSetupPasses | FDMA2530-Modeling/Student-Shelf/cmi_modeling_checklist.py:1790-1844 | both checklists pass the plain three-point setup with a skydome (the other copy is cmi-tools/FDMA2530-Modeling/Student-Shelf/fdma_shelf/tools/checklist.py, lines 3193-3308) |
| UpdaterBackup.FirstMaxIsFirstGreatest | cmi-tools/FDMA2530-Modeling/Student-Shelf/fdma_shelf/utils/updater_backup.py:274-281 | the head of the descending sort is the first release with the greatest version |
| UpdaterBackup.LeadingVRemoved | cmi-tools/FDMA2530-Modeling/Student-Shelf/fdma_shelf/utils/updater_backup.py:119 | stripping the leading "v" turns "v2.0.0" into a parsable version |
| ProfSetup.EntryLineShape | prof-tools/prof/core/setup.py:38 | the entry line is a single, non-empty line |
| ProfSetup.MarkerShape | prof-tools/prof/core/setup.py:315 | the marker comment is a single line holding the tag the cleaner looks for |
| ProfSetup.ReadAppendedLines | prof-tools/prof/core/setup.py:315-331 | the two appended lines read back as exactly two lines |
| RubricLegacy.PercentageKeyIsNoOtherKey | prof-tools/prof/tools/assignments/lessonRubric_template.py:218 | a criterion's percentage key is never the window key, the total-score key or any criterion's points key (see also lines 272, 352 and 378) |

## Left out

- Maya: every `cmds`, `mel` and `maya.utils` call, windows, dialogs, shelf and menu widgets, button colours, in-viewport messages and the checklist's patch and fix buttons. The scene is plain data (counts, names, transform, mesh and light records), and a rubric window is reduced to the key set of its `ui_elements`.
- Network and file system: downloads (including the retry loop of `download_file_content`), `urlopen`, ZIP extraction, `copytree`, `os.makedirs`, file removal, `find_manifest_file`'s directory walk, the preferences directory helpers `_get_prefs_dir` and `_ensure_prefs_dir`, and the notepad call after exporting the report. What these produce is a parameter: a document, a file's text, whether a file exists.
- The platform name, the home directory, the clock and the module's own `__file__` are parameters.
- Execution of downloaded code, and the validation functions a rubric criterion names. What a validation call returns (or that it raised) is the `run` parameter of the auto-grader rubric.
- Logging and the text of exception messages. An exception is an explicit outcome; the auto-grader rubric keeps only the "Validation error: " prefix.
- The download and install half of `updater_backup.py`, including `_fetch_manifest`'s cache file, `_persist_local_version` and `_finalize_update`. The update dialogs and the browser call of `check_for_updates` in `prof/core/updater.py` are also left out; its decision is returned instead.
- `get_tool_info` and `clear_version_cache` of both version modules: the first only packages values the model already computes, and the second only empties the cache.
- The module-level singleton wrappers of `dev_prefs.py` (`get_prefs`, `is_dev_mode_enabled`, `toggle_dev_mode`, `should_show_dev_features`): they only forward to the `ProfToolsPrefs` methods.
- The four-part "test version" ordering: only tests mention it, and the implemented grammar rejects four components.
- The camera aspect-ratio check and the checks other than resolution, textures, file paths, triangles, polygons, default names, frozen transforms, animated visibility and lights. None of the other checks belongs to the modelled core.
- Python floats are exact reals. `round(x, 2)` is round-half-even on exact decimal values, and the rounding up to the tenth is exact, so binary-float artefacts are not reproduced.
- `\d` in the regular expressions, `str.isdigit` and `str.lower()` are restricted to ASCII.
- The legacy checklist raises on a failing scene query and ends the check. That is modelled for the texture lookups and the light shadow queries only; its meshes, file paths, objects and transforms are taken to be readable.
- In the cmi-tools checklist a query that raises part-way through a transform's visibility inputs skips that whole transform (`Transform.readable`), although the entries appended before the raise would stay.
- The shadow attributes each checklist reads (`aiCastShadows` or `castShadows` in one, `aiSamples` or depth-map and ray-traced shadows in the other) are abstracted to the light's `castsShadows` answer.
- The branch of the cmi-tools lights check for exactly one caster when more than two are present cannot be taken; only its issue count is modelled, not its message.
- The render resolution values arrive as their `str()` text. A custom resolution setting that is not a list is not modelled.
- Custom checklist settings other than the resolution are not modelled; each check uses the thresholds of its checklist's item table.
- PyFloat.FloatRepr: a float is an exact real read to 17 decimal places (units of 10^-17, rounded down), not a binary double; the shortest-repr search over doubles is not modelled, so values with more places, or the text of non-finite floats, may differ from Python. Scientific notation is proved only on the samples `TinySample` and `LargeSample`.
- PyValue.Repr: a dict is spelled by the placeholder "{...}", because its repr follows insertion order, which a map does not keep. Non-ASCII characters that Python escapes as unprintable are written as they are.
- DevPrefs.ShouldCheckForUpdates: the clock `now` is a whole second, while `datetime.now()` also carries microseconds, so an interval that runs out within the current second is reported one second late; a NaN or infinite interval, on which `timedelta` raises ValueError or OverflowError, cannot be written because floats are exact reals.
- DevPrefs.LoadPrefs: a pair whose key is hashable but not text (a number, a boolean, null or a tuple) would give the preferences a non-text key, which the model's map cannot hold; the outcome is `BeyondModel`, and `ProfToolsPrefs.New` answers None for it.
- PyText.ParseInt: the 4300-digit limit of `int()` and non-ASCII digits are not modelled.
- DateText.Parse: `fromisoformat` is the one of Python 3.7 to 3.10; the wider format of Python 3.11 and later is not modelled. A text with a UTC offset, which Python turns into an aware datetime, reads as no date here, and fractional seconds are read but dropped. `strptime`'s `%d` and friends accept ASCII digits only.
- ProfSetup.SourcePath: `os.path.abspath` is not modelled; the module path is taken as already absolute. The path rules are `ntpath` exactly when the platform name starts with "win".
- ProfSetup.SourcePathIsRoot: a Windows root given as a `\\server\share` UNC path is not covered.
- ProfSetup.UserSetupFile: text-mode newline translation on Windows is not modelled; the file text is the `str` Python reads and writes.

## Findings

| source | as written | input that shows it | evidently intended | confidence | as-written member | corrected member |
|---|---|---|---|---|---|---|
| cmi-tools/FDMA2530-Modeling/Student-Shelf/fdma_shelf/utils/version_utils.py:411-433 | `read_manifest_from_file` is wrapped by `@handle_version_errors()` (lines 282-283), so it returns a version string (the fallback "2.0.1", since a manifest dict is never a valid version) instead of the manifest; `get_fdma2530_version` then calls `.get` on that string, which raises, and the fallback is returned | an empty cache and a manifest `{"current_version": "2.0.5", "tool_name": "FDMA2530-Modeling"}` give "2.0.1" | the manifest's valid `current_version` is returned and cached: "2.0.5" | not executed | CmiVersionUtils.Fdma2530VersionAsWritten, CmiVersionUtils.ManifestVersionLost | CmiVersionUtils.Fdma2530Version, CmiVersionUtils.ManifestVersionUsed |
| prof-tools/prof/tools/assignments/lessonRubric_template.py:398-401 | `_on_percentage_change` returns unless the bare criterion name is a key of `ui_elements`, whose keys are "window", "total_score", "<name>_percentage" and "<name>_points" | a rubric showing the criterion "Modeling": a change to its percentage field is dropped | the guard tests "<name>_percentage", the key the handler reads next, so every shown criterion is updated | not executed | RubricLegacy.LessonRubric.OnPercentageChangeAsWritten, RubricLegacy.ChangeIgnoredAsWritten, RubricLegacy.ModelingChangeDropped | RubricLegacy.LessonRubric.OnPercentageChange, RubricLegacy.ProceedsExactlyForShown |
