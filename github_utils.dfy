/**
 * The pure helpers of the student shelf's GitHub utilities: raw-content URL
 * building, the subdirectory table, the "has this file changed upstream?"
 * decision (content given as values, the download left out) and the header
 * scan that pulls version, author, contact and description lines out of the
 * first thirty lines of a script.
 */
module GitHubUtilities {
  import opened Wrappers
  import opened PyText

  // ---------------------------------------------------------------------------
  // URL construction
  // ---------------------------------------------------------------------------

  const RepositoryUrl: string := "https://github.com/Atsantiago/NMSU_Scripts"
  const RepositoryBranch: string := "master"
  const BaseDirectoryPath: string := "FDMA2530-Modeling/Student-Shelf"

  /** `"{repo}/raw/{branch}/{base}/{path}"` with the repository's trailing and the path's leading slashes removed. */
  function RawUrlFor(repo: string, branch: string, base: string, path: string): (r: string)
    ensures StartsWith(r, RStripChar(repo, '/') + "/raw/" + branch + "/" + base + "/")
    ensures r[|RStripChar(repo, '/') + "/raw/" + branch + "/" + base + "/"|..] == LStripChar(path, '/')
  {
    var prefix := RStripChar(repo, '/') + "/raw/" + branch + "/" + base + "/";
    assert (prefix + LStripChar(path, '/'))[..|prefix|] == prefix;
    prefix + LStripChar(path, '/')
  }

  /** The fixed part of every raw URL of the shelf. */
  function RawPrefix(): string {
    RepositoryUrl + "/raw/" + RepositoryBranch + "/" + BaseDirectoryPath + "/"
  }

  /** `build_github_raw_url(file_path)`. */
  function BuildGithubRawUrl(filePath: string): (r: string)
    ensures StartsWith(r, RawPrefix())
    ensures EndsWith(filePath, r[|RawPrefix()|..])
    ensures r[|RawPrefix()|..] == [] || r[|RawPrefix()|] != '/'
  {
    assert RStripChar(RepositoryUrl, '/') == RepositoryUrl;
    RawUrlFor(RepositoryUrl, RepositoryBranch, BaseDirectoryPath, filePath)
  }

  /** Leading slashes on the relative path never change the URL. */
  lemma RawUrlIgnoresLeadingSlash(filePath: string)
    ensures BuildGithubRawUrl("/" + filePath) == BuildGithubRawUrl(filePath)
  {
    assert ("/" + filePath)[1..] == filePath;
  }

  /** Distinct relative paths that do not start with '/' get distinct URLs. */
  lemma RawUrlInjective(p: string, q: string)
    requires p == [] || p[0] != '/'
    requires q == [] || q[0] != '/'
    requires BuildGithubRawUrl(p) == BuildGithubRawUrl(q)
    ensures p == q
  {
    var n := |RawPrefix()|;
    assert LStripChar(p, '/') == p;
    assert LStripChar(q, '/') == q;
    assert p == BuildGithubRawUrl(p)[n..];
  }

  // ---------------------------------------------------------------------------
  // Subdirectory table
  // ---------------------------------------------------------------------------

  const Subdirectories: map<string, string> := map[
    "core" := "core-scripts",
    "buttons" := "shelf-button-scripts",
    "utilities" := "utilities",
    "media" := "media"
  ]

  /** `build_subdirectory_path(key, filename)`: None for an unknown key. */
  function BuildSubdirectoryPath(key: string, filename: string): (r: Option<string>)
    ensures r.None? <==> key !in Subdirectories
    ensures r.Some? ==> StartsWith(r.value, Subdirectories[key] + "/") && EndsWith(r.value, filename)
  {
    if key !in Subdirectories then None
    else
      var path := Subdirectories[key] + "/" + filename;
      assert path[..|Subdirectories[key] + "/"|] == Subdirectories[key] + "/";
      assert path[|path| - |filename|..] == filename;
      Some(path)
  }

  /** The table has exactly the four documented keys, and no directory name holds a '/'. */
  lemma SubdirectoryTable()
    ensures Subdirectories.Keys == {"core", "buttons", "utilities", "media"}
    ensures forall k :: k in Subdirectories ==> '/' !in Subdirectories[k]
  {
  }

  /** The first '/' of a built path separates the table's directory from the file name. */
  lemma SubdirectoryPathSplits(key: string, filename: string)
    requires key in Subdirectories
    ensures var dir := Subdirectories[key];
            var path := BuildSubdirectoryPath(key, filename).value;
            IndexOf(path, '/') == Some(|dir|) && path[..|dir|] == dir && path[|dir| + 1..] == filename
  {
    SubdirectoryTable();
    var dir := Subdirectories[key];
    var path := dir + "/" + filename;
    assert path == dir + ['/'] + filename;
    IndexOfAfterPrefix(dir, '/', filename);
    assert path[..|dir|] == dir;
    assert path[|dir| + 1..] == filename;
  }

  // ---------------------------------------------------------------------------
  // Update check
  // ---------------------------------------------------------------------------

  /** The dictionary `check_for_file_updates` returns. */
  datatype UpdateReport = UpdateReport(updatesAvailable: bool, currentSize: nat, latestSize: nat, error: Option<string>)

  const DownloadFailed: string := "Failed to download latest version for comparison"

  /** `x.strip()` followed by replacing "\r\n" and then "\r" with "\n". */
  function Normalize(s: string): (r: string)
    ensures '\r' !in r
  {
    ReplaceChar(ReplaceCrLf(Strip(s)), '\r', '\n')
  }

  /** `current_content if current_content else ""`: None and "" both read as empty. */
  function CurrentText(current: Option<string>): string {
    if current.Some? then current.value else ""
  }

  /**
   * The decision of `check_for_file_updates`, with the downloaded latest
   * content (None when the download failed) given as a value.
   */
  function CheckForFileUpdates(current: Option<string>, latest: Option<string>): (r: UpdateReport)
    ensures r.error.None? <==> latest.Some?
    ensures r.updatesAvailable <==> latest.Some? && Normalize(CurrentText(current)) != Normalize(latest.value)
    ensures r.currentSize == |CurrentText(current)|
    ensures r.currentSize == 0 <==> current == None || current == Some("")
    ensures r.latestSize == if latest.Some? then |latest.value| else 0
  {
    var currentSize := |CurrentText(current)|;
    match latest
      case None => UpdateReport(false, currentSize, 0, Some(DownloadFailed))
      case Some(l) =>
        UpdateReport(Normalize(CurrentText(current)) != Normalize(l), currentSize, |l|, None)
  }

  lemma ReplaceCharAbsent(s: string, a: char, b: char)
    requires a !in s
    ensures ReplaceChar(s, a, b) == s
  {
  }

  lemma {:induction false} ReplaceCrLfFirst(s: string)
    requires s != [] && s[0] != '\r'
    ensures ReplaceCrLf(s) != [] && ReplaceCrLf(s)[0] == s[0]
  {
  }

  lemma {:induction false} ReplaceCrLfLast(s: string)
    requires s != [] && s[|s| - 1] != '\n'
    ensures ReplaceCrLf(s) != [] && ReplaceCrLf(s)[|ReplaceCrLf(s)| - 1] == s[|s| - 1]
    decreases |s|
  {
    if |s| >= 2 && s[0] == '\r' && s[1] == '\n' {
      assert |s| > 2;
      assert s[2..][|s[2..]| - 1] == s[|s| - 1];
      ReplaceCrLfLast(s[2..]);
    } else if |s| > 1 {
      assert s[1..][|s[1..]| - 1] == s[|s| - 1];
      ReplaceCrLfLast(s[1..]);
    }
  }

  /** Normalizing twice is normalizing once. */
  lemma NormalizeIdempotent(s: string)
    ensures Normalize(Normalize(s)) == Normalize(s)
  {
    var m := Strip(s);
    var n := Normalize(s);
    if m != [] {
      ReplaceCrLfFirst(m);
      ReplaceCrLfLast(m);
    }
    assert n == [] || (!IsSpace(n[0]) && !IsSpace(n[|n| - 1]));
    StripFixedPoint(n);
    ReplaceCharAbsent(n, '\r', '\n');
  }

  /** Whitespace added or removed at either end of the file is never an update. */
  lemma PaddingIsNoUpdate(current: string, a: string, b: string)
    requires AllSpace(a) && AllSpace(b)
    ensures !CheckForFileUpdates(Some(current), Some(a + current + b)).updatesAvailable
  {
    StripIgnoresPadding(a, current, b);
    assert CurrentText(Some(current)) == current;
  }

  /** The text with every "\n" written as "\r\n" (Windows line endings). */
  function CrLfEndings(s: string): (r: string)
    ensures |r| >= |s|
  {
    if s == [] then [] else (if s[0] == '\n' then "\r\n" else [s[0]]) + CrLfEndings(s[1..])
  }

  lemma {:induction false} CrLfConcat(a: string, b: string)
    ensures CrLfEndings(a + b) == CrLfEndings(a) + CrLfEndings(b)
  {
    if a == [] {
      assert a + b == b;
    } else {
      assert (a + b)[1..] == a[1..] + b;
      CrLfConcat(a[1..], b);
    }
  }

  lemma {:induction false} CrLfSpace(p: string)
    requires AllSpace(p)
    ensures AllSpace(CrLfEndings(p))
  {
    if p != [] {
      CrLfSpace(p[1..]);
    }
  }

  lemma CrLfKeepsEnds(m: string)
    requires m != [] && !IsSpace(m[0]) && !IsSpace(m[|m| - 1])
    ensures CrLfEndings(m) != [] && !IsSpace(CrLfEndings(m)[0]) && !IsSpace(CrLfEndings(m)[|CrLfEndings(m)| - 1])
  {
    var init, last := m[..|m| - 1], m[|m| - 1];
    assert m == init + [last];
    CrLfConcat(init, [last]);
    assert CrLfEndings([last]) == [last];
  }

  /** strip() commutes with rewriting line endings as "\r\n". */
  lemma StripCrLf(s: string)
    ensures Strip(CrLfEndings(s)) == CrLfEndings(Strip(s))
  {
    var m := Strip(s);
    var p, q := StripDecompose(s);
    var p', m', q' := CrLfEndings(p), CrLfEndings(m), CrLfEndings(q);
    assert CrLfEndings(s) == p' + m' + q' by {
      CrLfConcat(p + m, q);
      CrLfConcat(p, m);
    }
    assert AllSpace(p') && AllSpace(q') by {
      CrLfSpace(p);
      CrLfSpace(q);
    }
    assert m' == [] || (!IsSpace(m'[0]) && !IsSpace(m'[|m'| - 1])) by {
      if m != [] {
        CrLfKeepsEnds(m);
      }
    }
    StripPadded(p', m', q');
  }

  lemma {:induction false} ReplaceCrLfUndoesCrLf(z: string)
    requires '\r' !in z
    ensures ReplaceCrLf(CrLfEndings(z)) == z
  {
    if z != [] {
      var t := CrLfEndings(z[1..]);
      ReplaceCrLfUndoesCrLf(z[1..]);
      if z[0] == '\n' {
        assert CrLfEndings(z) == "\r\n" + t;
        assert ("\r\n" + t)[2..] == t;
      } else {
        assert CrLfEndings(z) == [z[0]] + t;
        assert ([z[0]] + t)[1..] == t;
      }
    }
  }

  /** A file whose only change is Windows line endings is never an update. */
  lemma CrLfIsNoUpdate(current: string)
    requires '\r' !in current
    ensures !CheckForFileUpdates(Some(current), Some(CrLfEndings(current))).updatesAvailable
  {
    NormalizeWithoutCr(current);
    NormalizeCrLf(current);
    assert CurrentText(Some(current)) == current;
  }

  /** Text without "\r", rewritten with Windows line endings, normalizes back to its stripped self. */
  lemma NormalizeCrLf(s: string)
    requires '\r' !in s
    ensures Normalize(CrLfEndings(s)) == Strip(s)
  {
    var m := Strip(s);
    StripKeepsOut(s, '\r');
    StripCrLf(s);
    ReplaceCrLfUndoesCrLf(m);
    ReplaceCharAbsent(m, '\r', '\n');
  }

  lemma {:induction false} ReplaceCrLfWithoutLf(s: string)
    requires '\n' !in s
    ensures ReplaceCrLf(s) == s
  {
    if s != [] {
      ReplaceCrLfWithoutLf(s[1..]);
    }
  }

  lemma ReplaceCharConcat(a: string, b: string, x: char, y: char)
    ensures ReplaceChar(a + b, x, y) == ReplaceChar(a, x, y) + ReplaceChar(b, x, y)
  {
  }

  lemma CrSpace(p: string)
    requires AllSpace(p)
    ensures AllSpace(ReplaceChar(p, '\n', '\r'))
  {
  }

  lemma CrKeepsEnds(m: string)
    requires m == [] || (!IsSpace(m[0]) && !IsSpace(m[|m| - 1]))
    ensures var c := ReplaceChar(m, '\n', '\r');
            c == [] || (!IsSpace(c[0]) && !IsSpace(c[|c| - 1]))
  {
  }

  /** strip() commutes with rewriting line endings as "\r" (old Mac line endings). */
  lemma StripCr(s: string)
    ensures Strip(ReplaceChar(s, '\n', '\r')) == ReplaceChar(Strip(s), '\n', '\r')
  {
    var m := Strip(s);
    var p, q := StripDecompose(s);
    ReplaceCharConcat(p + m, q, '\n', '\r');
    ReplaceCharConcat(p, m, '\n', '\r');
    CrSpace(p);
    CrSpace(q);
    CrKeepsEnds(m);
    StripPadded(ReplaceChar(p, '\n', '\r'), ReplaceChar(m, '\n', '\r'), ReplaceChar(q, '\n', '\r'));
  }

  /** Stripping keeps no character the text does not hold. */
  lemma StripKeepsOut(s: string, c: char)
    requires c !in s
    ensures c !in Strip(s)
  {
    var m := Strip(s);
    assert forall i :: 0 <= i < |m| ==> m[i] == s[StripStart(s) + i];
  }

  /** Turning every "\n" into "\r" leaves no "\n"; turning them back restores text that had no "\r". */
  lemma CrRoundTrip(m: string)
    requires '\r' !in m
    ensures '\n' !in ReplaceChar(m, '\n', '\r')
    ensures ReplaceChar(ReplaceChar(m, '\n', '\r'), '\r', '\n') == m
  {
  }

  /** Text without "\r" normalizes to its stripped self. */
  lemma NormalizeWithoutCr(s: string)
    requires '\r' !in s
    ensures Normalize(s) == Strip(s)
  {
    var m := Strip(s);
    StripKeepsOut(s, '\r');
    assert ReplaceCrLf(m) == m;
    ReplaceCharAbsent(m, '\r', '\n');
  }

  /** Text without "\r", rewritten with "\r" line endings, normalizes back to its stripped self. */
  lemma NormalizeCr(s: string)
    requires '\r' !in s
    ensures Normalize(ReplaceChar(s, '\n', '\r')) == Strip(s)
  {
    var m := Strip(s);
    var cr := ReplaceChar(m, '\n', '\r');
    StripCr(s);
    StripKeepsOut(s, '\r');
    CrRoundTrip(m);
    ReplaceCrLfWithoutLf(cr);
  }

  /** A file whose only change is "\r" line endings is never an update. */
  lemma CrIsNoUpdate(current: string)
    requires '\r' !in current
    ensures !CheckForFileUpdates(Some(current), Some(ReplaceChar(current, '\n', '\r'))).updatesAvailable
  {
    NormalizeWithoutCr(current);
    NormalizeCr(current);
    assert CurrentText(Some(current)) == current;
  }

  // ---------------------------------------------------------------------------
  // Header scan
  // ---------------------------------------------------------------------------

  const Unknown: string := "Unknown"
  const HeaderLines: nat := 30

  /** The dictionary `extract_version_info` returns. */
  datatype VersionInfo = VersionInfo(
    version: string, author: string, contact: string, description: string,
    filePath: string, error: Option<string>)

  /** The four fields the scan fills. */
  datatype Field = Version | Author | Contact | Description

  function Get(info: VersionInfo, f: Field): string {
    match f
      case Version => info.version
      case Author => info.author
      case Contact => info.contact
      case Description => info.description
  }

  predicate AnyIn(low: string, patterns: seq<string>) {
    exists k :: 0 <= k < |patterns| && Contains(low, patterns[k])
  }

  predicate IsVersionLine(low: string) { AnyIn(low, ["version:", "version ", "v1.", "v2.", "v3."]) }
  predicate IsAuthorLine(low: string) { AnyIn(low, ["created by", "author:", "by:"]) }
  predicate IsContactLine(low: string) { AnyIn(low, ["contact:", "email:", "@"]) }

  /** A comment or docstring line of more than ten characters. */
  predicate IsCommentLine(stripped: string) {
    (StartsWith(stripped, "#") || StartsWith(stripped, "\"\"\"")) && |stripped| > 10
  }

  /** The description text a comment line offers: its markers stripped, then whitespace. */
  function DescriptionText(stripped: string): string {
    Strip(LStripChar(LStripChar(stripped, '#'), '"'))
  }

  predicate AcceptableDescription(desc: string) {
    desc != "" && !AnyIn(Lower(desc), ["import", "copyright", "license"])
  }

  /** The description a comment line's text offers, when it is acceptable. */
  function DescriptionOffer(stripped: string): (r: Option<string>)
    ensures r.Some? ==> AcceptableDescription(r.value)
  {
    var desc := DescriptionText(stripped);
    if AcceptableDescription(desc) then Some(desc) else None
  }

  /**
   * Which branch of the `if`/`elif` chain a header line takes, with its
   * stripped text; a comment line also carries the description it offers.
   */
  datatype LineKind = VersionLine(text: string) | AuthorLine(text: string) | ContactLine(text: string)
                    | CommentLine(text: string, offer: Option<string>) | OtherLine

  function Classify(line: string): (r: LineKind)
    ensures r.VersionLine? <==> IsVersionLine(Lower(Strip(line)))
    ensures r.AuthorLine? ==> IsAuthorLine(Lower(Strip(line)))
    ensures r.ContactLine? ==> IsContactLine(Lower(Strip(line)))
    ensures r.CommentLine? ==> IsCommentLine(Strip(line))
    ensures !r.OtherLine? ==> r.text == Strip(line)
    ensures r.CommentLine? ==> r.offer == DescriptionOffer(Strip(line))
  {
    var stripped := Strip(line);
    var low := Lower(stripped);
    if IsVersionLine(low) then VersionLine(stripped)
    else if IsAuthorLine(low) then AuthorLine(stripped)
    else if IsContactLine(low) then ContactLine(stripped)
    else if IsCommentLine(stripped) then CommentLine(stripped, DescriptionOffer(stripped))
    else OtherLine
  }

  /** What a header line of the given kind offers to a field. */
  function KindOffer(f: Field, kind: LineKind): Option<string> {
    match kind
      case VersionLine(t) => if f == Version then Some(t) else None
      case AuthorLine(t) => if f == Author then Some(t) else None
      case ContactLine(t) => if f == Contact then Some(t) else None
      case CommentLine(_, offer) => if f == Description then offer else None
      case OtherLine => None
  }

  /** What one header line offers to a field. */
  function Candidate(f: Field, line: string): (r: Option<string>)
    ensures r.Some? && f != Version ==> !IsVersionLine(Lower(Strip(line)))
    ensures r.Some? && f != Description ==> r.value == Strip(line)
    ensures r.Some? && f == Description ==> IsCommentLine(Strip(line)) && AcceptableDescription(r.value)
  {
    KindOffer(f, Classify(line))
  }

  /** A line of the given kind in the header loop: each field is written only while it still reads "Unknown". */
  function ScanKind(info: VersionInfo, kind: LineKind): VersionInfo {
    match kind
      case VersionLine(t) => if info.version == Unknown then info.(version := t) else info
      case AuthorLine(t) => if info.author == Unknown then info.(author := t) else info
      case ContactLine(t) => if info.contact == Unknown then info.(contact := t) else info
      case CommentLine(_, offer) =>
        if info.description == Unknown then
          match offer
            case Some(desc) => info.(description := desc)
            case None => info
        else info
      case OtherLine => info
  }

  /** One iteration of the header loop. */
  function ScanLine(info: VersionInfo, line: string): VersionInfo {
    ScanKind(info, Classify(line))
  }

  /** A line of any kind changes a field exactly as its offer says, and leaves the path and the error. */
  lemma ScanKindField(info: VersionInfo, kind: LineKind, f: Field)
    ensures Get(ScanKind(info, kind), f) ==
              if Get(info, f) == Unknown && KindOffer(f, kind).Some? then KindOffer(f, kind).value else Get(info, f)
    ensures ScanKind(info, kind).filePath == info.filePath && ScanKind(info, kind).error == info.error
  {
    match kind
      case VersionLine(t) =>
      case AuthorLine(t) =>
      case ContactLine(t) =>
      case CommentLine(t, offer) =>
      case OtherLine =>
  }

  /** The loop over the remaining lines, as a fold. */
  function ScanFrom(info: VersionInfo, lines: seq<string>): VersionInfo
    decreases |lines|
  {
    if lines == [] then info else ScanFrom(ScanLine(info, lines[0]), lines[1..])
  }

  function Initial(filePath: string): VersionInfo {
    VersionInfo(Unknown, Unknown, Unknown, Unknown, filePath, None)
  }

  /** `content.split('\n')[:30]`. */
  function HeaderOf(content: string): (r: seq<string>)
    ensures |r| <= HeaderLines
  {
    var lines := Split(content, '\n');
    if |lines| <= HeaderLines then lines else lines[..HeaderLines]
  }

  /** The result of `extract_version_info`, the downloaded content (None on failure) given as a value. */
  function ExtractVersionInfo(filePath: string, content: Option<string>): VersionInfo {
    match content
      case None => VersionInfo(Unknown, Unknown, Unknown, Unknown, filePath, Some("Failed to download file"))
      case Some(c) => ScanFrom(Initial(filePath), HeaderOf(c))
  }

  /** `extract_version_info`, looping over the header lines. */
  method ScanHeader(filePath: string, content: Option<string>) returns (info: VersionInfo)
    ensures info == ExtractVersionInfo(filePath, content)
  {
    if content.None? {
      return VersionInfo(Unknown, Unknown, Unknown, Unknown, filePath, Some("Failed to download file"));
    }
    var lines := HeaderOf(content.value);
    info := Initial(filePath);
    var i := 0;
    while i < |lines|
      invariant 0 <= i <= |lines|
      invariant ScanFrom(info, lines[i..]) == ScanFrom(Initial(filePath), lines)
    {
      assert lines[i..][1..] == lines[i + 1..];
      info := ScanLine(info, lines[i]);
      i := i + 1;
    }
  }

  // ---------------------------------------------------------------------------
  // What the scan finds
  // ---------------------------------------------------------------------------

  /** "Unknown" itself matches none of the line patterns, so it is never a found value. */
  lemma UnknownMatchesNothing()
    ensures !IsVersionLine(Lower(Unknown)) && !IsAuthorLine(Lower(Unknown)) && !IsContactLine(Lower(Unknown))
  {
    var low := Lower(Unknown);
    assert low == "unknown";
    NoCharNoContains(low, "version:", ':');
    NoCharNoContains(low, "version ", ' ');
    NoCharNoContains(low, "v1.", '.');
    NoCharNoContains(low, "v2.", '.');
    NoCharNoContains(low, "v3.", '.');
    NoCharNoContains(low, "created by", ' ');
    NoCharNoContains(low, "author:", ':');
    NoCharNoContains(low, "by:", ':');
    NoCharNoContains(low, "contact:", ':');
    NoCharNoContains(low, "email:", ':');
    NoCharNoContains(low, "@", '@');
  }

  /** An offer of a value other than "Unknown". */
  predicate IsOffer(o: Option<string>) {
    o.Some? && o.value != Unknown
  }

  /** What each line offers the field. */
  function OffersOf(f: Field, lines: seq<string>): (r: seq<Option<string>>)
    ensures |r| == |lines|
    ensures forall k :: 0 <= k < |lines| ==> r[k] == Candidate(f, lines[k])
  {
    seq(|lines|, k requires 0 <= k < |lines| => Candidate(f, lines[k]))
  }

  /** The first offer in a list of offers. */
  function FirstIn(offers: seq<Option<string>>): (r: Option<string>)
    ensures r.Some? ==> IsOffer(r)
  {
    if offers == [] then None else if IsOffer(offers[0]) then offers[0] else FirstIn(offers[1..])
  }

  /** Entry `k` is an offer and no entry before it is. */
  predicate FirstAt(offers: seq<Option<string>>, k: int) {
    0 <= k < |offers| && IsOffer(offers[k]) && forall j :: 0 <= j < k ==> !IsOffer(offers[j])
  }

  /** The first offer found is the earliest one, and there is none exactly when no entry is an offer. */
  lemma {:induction false} FirstInIsFirst(offers: seq<Option<string>>)
    ensures FirstIn(offers).Some? ==> exists k :: FirstAt(offers, k) && offers[k] == FirstIn(offers)
    ensures FirstIn(offers).None? <==> forall j :: 0 <= j < |offers| ==> !IsOffer(offers[j])
    decreases |offers|
  {
    if offers != [] {
      if IsOffer(offers[0]) {
        assert FirstAt(offers, 0);
      } else {
        var rest := offers[1..];
        FirstInIsFirst(rest);
        assert forall j :: 1 <= j < |offers| ==> offers[j] == rest[j - 1];
        if FirstIn(rest).Some? {
          var k :| FirstAt(rest, k) && rest[k] == FirstIn(rest);
          assert FirstAt(offers, k + 1);
        }
      }
    }
  }

  /** The first value a field is offered by the lines, skipping offers of "Unknown" itself. */
  function FirstOffer(f: Field, lines: seq<string>): (r: Option<string>)
    ensures r.Some? ==> r.value != Unknown
    decreases |lines|
  {
    if lines == [] then None
    else
      var c := Candidate(f, lines[0]);
      if c.Some? && c.value != Unknown then c else FirstOffer(f, lines[1..])
  }

  /** The line-by-line search is the search over what the lines offer. */
  lemma {:induction false} FirstOfferIn(f: Field, lines: seq<string>)
    ensures FirstOffer(f, lines) == FirstIn(OffersOf(f, lines))
    decreases |lines|
  {
    if lines != [] {
      FirstOfferIn(f, lines[1..]);
      OffersOfTail(f, lines);
    }
  }

  /** Dropping the first line drops its offer. */
  lemma OffersOfTail(f: Field, lines: seq<string>)
    requires lines != []
    ensures OffersOf(f, lines)[1..] == OffersOf(f, lines[1..])
  {
    forall k | 0 <= k < |lines| - 1
      ensures OffersOf(f, lines)[1..][k] == OffersOf(f, lines[1..])[k]
    {
      assert lines[1..][k] == lines[k + 1];
    }
  }

  /** The value found is the offer of the first line that offers one, and there is none exactly when no line offers one. */
  lemma FirstOfferIsFirst(f: Field, lines: seq<string>)
    ensures FirstOffer(f, lines).Some? ==>
              exists k :: 0 <= k < |lines| && Candidate(f, lines[k]) == FirstOffer(f, lines)
                          && forall j :: 0 <= j < k ==> !IsOffer(Candidate(f, lines[j]))
    ensures FirstOffer(f, lines).None? <==> forall j :: 0 <= j < |lines| ==> !IsOffer(Candidate(f, lines[j]))
  {
    var offers := OffersOf(f, lines);
    FirstOfferIn(f, lines);
    FirstInIsFirst(offers);
    if FirstOffer(f, lines).Some? {
      var k :| FirstAt(offers, k) && offers[k] == FirstIn(offers);
      assert Candidate(f, lines[k]) == FirstOffer(f, lines);
    }
  }

  /** One line changes a field exactly as its offer says. */
  lemma ScanLineField(info: VersionInfo, line: string, f: Field)
    ensures Get(ScanLine(info, line), f) ==
              if Get(info, f) == Unknown && Candidate(f, line).Some? then Candidate(f, line).value else Get(info, f)
    ensures ScanLine(info, line).filePath == info.filePath && ScanLine(info, line).error == info.error
  {
    ScanKindField(info, Classify(line), f);
  }

  /**
   * Each field keeps its first find: a field that is already set stays, and an
   * unset one takes the first value the lines offer it.
   */
  lemma {:induction false} ScanFromField(info: VersionInfo, lines: seq<string>, f: Field)
    ensures Get(ScanFrom(info, lines), f) ==
              if Get(info, f) != Unknown then Get(info, f)
              else if FirstOffer(f, lines).Some? then FirstOffer(f, lines).value
              else Unknown
    ensures ScanFrom(info, lines).filePath == info.filePath && ScanFrom(info, lines).error == info.error
    decreases |lines|
  {
    if lines != [] {
      ScanLineField(info, lines[0], f);
      ScanFromField(ScanLine(info, lines[0]), lines[1..], f);
    }
  }

  /** Every field of a successful scan is its first offer among the header lines, or "Unknown". */
  lemma ExtractFindsFirst(filePath: string, content: string, f: Field)
    ensures var info := ExtractVersionInfo(filePath, Some(content));
            var first := FirstOffer(f, HeaderOf(content));
            Get(info, f) == (if first.Some? then first.value else Unknown)
            && info.filePath == filePath && info.error == None
  {
    ScanFromField(Initial(filePath), HeaderOf(content), f);
  }

  /** The `elif` chain: a line offers a value to at most one field. */
  lemma OneFieldPerLine(line: string, f: Field, g: Field)
    requires Candidate(f, line).Some? && Candidate(g, line).Some?
    ensures f == g
  {
  }

  /** Lines after the thirtieth are never looked at. */
  lemma OnlyHeaderCounts(filePath: string, header: seq<string>, more: seq<string>)
    requires |header| >= HeaderLines && |more| >= 1
    requires forall k :: 0 <= k < |header| ==> '\n' !in header[k]
    requires forall k :: 0 <= k < |more| ==> '\n' !in more[k]
    ensures ExtractVersionInfo(filePath, Some(Join(header + more, '\n')))
         == ExtractVersionInfo(filePath, Some(Join(header, '\n')))
  {
    var all := header + more;
    assert forall k :: 0 <= k < |all| ==> '\n' !in all[k] by {
      forall k | 0 <= k < |all|
        ensures '\n' !in all[k]
      {
        if k < |header| {
          assert all[k] == header[k];
        } else {
          assert all[k] == more[k - |header|];
        }
      }
    }
    SplitJoin(all, '\n');
    SplitJoin(header, '\n');
    assert all[..HeaderLines] == header[..HeaderLines];
  }
}
