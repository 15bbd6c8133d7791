/**
 * The installer's file-system bookkeeping: where Maya keeps its user
 * documents on each platform, where prof-tools is installed, and the
 * userSetup.mel entry that `install` adds and `uninstall` removes. The home
 * directory, the platform name and the module's own file path are
 * parameters; the file is a `UserSetupFile` object.
 */
module ProfSetup {
  import opened Wrappers
  import opened PyText

  const DocumentsFolder: string := "Documents"
  const MayaFolder: string := "maya"
  const PrefsFolder: string := "prefs"
  const ScriptsFolder: string := "scripts"
  const UserSetupFileName: string := "userSetup.mel"
  const InstallDirectory: string := "prof-tools"

  /** The line the installer adds to userSetup.mel to build the menu at start-up. */
  const EntryLine: string := "python(\"import prof.ui.builder" + " as _p; _p.build_menu()\");"
  /** The comment written above it, and the text that marks it when cleaning. */
  const MarkerTag: string := "Prof-Tools Auto-Generated Entry"
  const MarkerComment: string := "// " + MarkerTag

  // ---------------------------------------------------------------------------
  // Paths
  // ---------------------------------------------------------------------------

  predicate IsWindows(platform: string) { StartsWith(platform, "win") }
  predicate IsMac(platform: string) { StartsWith(platform, "darwin") }

  /** The separator `os.path` inserts: `ntpath` on Windows, `posixpath` elsewhere. */
  function SepOf(windows: bool): char { if windows then '\\' else '/' }

  /** A character `os.path` splits at: `/`, and on Windows `\` as well. */
  predicate IsPathSep(c: char, windows: bool) { c == '/' || (windows && c == '\\') }

  predicate NoSeps(s: string, windows: bool) { forall i :: 0 <= i < |s| ==> !IsPathSep(s[i], windows) }

  predicate AllSeps(s: string, windows: bool) { forall i :: 0 <= i < |s| ==> IsPathSep(s[i], windows) }

  /** The position of the first separator at or after `from`, if any (`str.find`). */
  function FindSep(p: string, from: nat, windows: bool): (r: Option<nat>)
    ensures r.Some? ==> from <= r.value < |p| && IsPathSep(p[r.value], windows)
    ensures r.None? ==> forall i :: from <= i < |p| ==> !IsPathSep(p[i], windows)
    decreases |p| - from
  {
    if from >= |p| then None
    else if IsPathSep(p[from], windows) then Some(from)
    else FindSep(p, from + 1, windows)
  }

  /**
   * The length of the drive `splitdrive` splits off: none on POSIX; on
   * Windows a `\\server\share` prefix or a drive letter and its colon.
   */
  function DriveLength(p: string, windows: bool): (r: nat)
    ensures r <= |p|
  {
    if !windows || |p| < 2 then 0
    else if IsPathSep(p[0], true) && IsPathSep(p[1], true) && !(|p| >= 3 && IsPathSep(p[2], true)) then
      match FindSep(p, 2, true)
        case None => 0
        case Some(i) => match FindSep(p, i + 1, true)
          case None => |p|
          case Some(j) => if j == i + 1 then 0 else j
    else if p[1] == ':' then 2
    else 0
  }

  /**
   * `os.path.join(a, b)` for a relative `b`: a separator goes between them
   * unless `a` is empty or already ends in one; on Windows none follows a bare
   * drive letter, and one always follows a bare `\\server\share`.
   */
  function PathJoin(a: string, b: string, windows: bool): (r: string)
    requires b != "" && !IsPathSep(b[0], windows)
    ensures StartsWith(r, a) && EndsWith(r, b)
    ensures |r| <= |a| + 1 + |b|
    ensures a != "" && !IsPathSep(a[|a| - 1], windows) && !(windows && EndsWith(a, ":")) ==> r == a + [SepOf(windows)] + b
  {
    var d := DriveLength(a, windows);
    if d == |a| then (if d > 0 && a[d - 1] != ':' then a + [SepOf(windows)] + b else a + b)
    else if IsPathSep(a[|a| - 1], windows) then a + b
    else a + [SepOf(windows)] + b
  }

  /** `get_maya_documents_path`: `~/Documents/maya` on Windows and macOS, `~/maya` elsewhere. */
  function DocumentsPath(platform: string, home: string): (r: string)
    ensures StartsWith(r, home) && EndsWith(r, MayaFolder)
    ensures IsWindows(platform) || IsMac(platform) ==>
      r == PathJoin(PathJoin(home, DocumentsFolder, IsWindows(platform)), MayaFolder, IsWindows(platform))
    ensures !IsWindows(platform) && !IsMac(platform) ==> r == PathJoin(home, MayaFolder, false)
  {
    var w := IsWindows(platform);
    if w || IsMac(platform) then
      var d := PathJoin(home, DocumentsFolder, w);
      var r := PathJoin(d, MayaFolder, w);
      PrefixTrans(r, d, home);
      r
    else PathJoin(home, MayaFolder, w)
  }

  /** `get_installation_path`: the prof-tools folder inside the Maya documents folder. */
  function InstallationPath(platform: string, home: string): (r: string)
    ensures StartsWith(r, DocumentsPath(platform, home)) && EndsWith(r, InstallDirectory)
  {
    PathJoin(DocumentsPath(platform, home), InstallDirectory, IsWindows(platform))
  }

  /** `get_usersetup_path`: `prefs/scripts/userSetup.mel` inside the Maya documents folder. */
  function UserSetupPath(platform: string, home: string): (r: string)
    ensures StartsWith(r, DocumentsPath(platform, home)) && EndsWith(r, UserSetupFileName)
  {
    var w := IsWindows(platform);
    var docs := DocumentsPath(platform, home);
    var prefs := PathJoin(docs, PrefsFolder, w);
    var scripts := PathJoin(prefs, ScriptsFolder, w);
    var r := PathJoin(scripts, UserSetupFileName, w);
    PrefixTrans(scripts, prefs, docs);
    PrefixTrans(r, scripts, docs);
    r
  }

  lemma PrefixTrans(a: string, b: string, c: string)
    requires StartsWith(a, b) && StartsWith(b, c)
    ensures StartsWith(a, c)
  {
    assert a[..|c|] == a[..|b|][..|c|];
  }

  /** The installation folder and the userSetup file are never the same path. */
  lemma InstallAndUserSetupDiffer(platform: string, home: string)
    ensures InstallationPath(platform, home) != UserSetupPath(platform, home)
  {
    var a := InstallationPath(platform, home);
    var b := UserSetupPath(platform, home);
    assert a[|a| - 1] == InstallDirectory[|InstallDirectory| - 1] == 's';
    assert b[|b| - 1] == UserSetupFileName[|UserSetupFileName| - 1] == 'l';
  }

  /** The length of `s` up to and including its last separator, 0 when it has none. */
  function LastSepEnd(s: string, windows: bool): (r: nat)
    ensures r <= |s| && (r > 0 ==> IsPathSep(s[r - 1], windows)) && NoSeps(s[r..], windows)
  {
    if s == [] || IsPathSep(s[|s| - 1], windows) then |s|
    else
      var r := LastSepEnd(s[..|s| - 1], windows);
      assert s[r..] == s[..|s| - 1][r..] + [s[|s| - 1]];
      r
  }

  /** `s` without its trailing separators (`rstrip` of the separators). */
  function RStripSeps(s: string, windows: bool): (r: string)
    ensures |r| <= |s| && r == s[..|r|] && AllSeps(s[|r|..], windows)
    ensures r == [] || !IsPathSep(r[|r| - 1], windows)
  {
    if |s| > 0 && IsPathSep(s[|s| - 1], windows) then
      var r := RStripSeps(s[..|s| - 1], windows);
      assert s[|r|..] == s[..|s| - 1][|r|..] + [s[|s| - 1]];
      r
    else s
  }

  /**
   * `os.path.dirname`: after the drive, everything up to the last separator,
   * with the trailing separators stripped unless it is separators only.
   */
  function Dirname(p: string, windows: bool): (r: string)
    ensures StartsWith(p, r)
    ensures StartsWith(r, p[..DriveLength(p, windows)])
  {
    var d := DriveLength(p, windows);
    var rest := p[d..];
    var head := rest[..LastSepEnd(rest, windows)];
    var dir := if head != "" && !AllSeps(head, windows) then RStripSeps(head, windows) else head;
    PrefixAfterDrive(p, d, dir);
    p[..d] + dir
  }

  lemma PrefixAfterDrive(p: string, d: nat, dir: string)
    requires d <= |p| && |dir| <= |p| - d && dir == p[d..][..|dir|]
    ensures StartsWith(p, p[..d] + dir) && StartsWith(p[..d] + dir, p[..d])
  {
    assert p[..d + |dir|] == p[..d] + dir;
  }

  /** A path `splitdrive` leaves without a drive, or one that starts with a drive letter. */
  predicate NotUnc(p: string, windows: bool) {
    !(windows && |p| >= 2 && IsPathSep(p[0], true) && IsPathSep(p[1], true))
  }

  /** The directory part of a joined path is the directory it was joined to. */
  lemma DirnameOfJoin(dir: string, name: string, windows: bool)
    requires dir != "" && !IsPathSep(dir[|dir| - 1], windows) && NotUnc(dir, windows)
    requires name != "" && NoSeps(name, windows)
    ensures Dirname(PathJoin(dir, name, windows), windows) == dir
    ensures var p := PathJoin(dir, name, windows); p != "" && p[|p| - 1] == name[|name| - 1] && NotUnc(p, windows)
  {
    JoinShape(dir, name, windows);
    if windows && |dir| == 2 && dir[1] == ':' {
      BareDriveJoin(dir, name);
    } else {
      var d := JoinDrive(dir, name, windows);
      JoinedDirname(dir, name, windows, d);
    }
  }

  /** What `PathJoin` builds from a directory and a plain name. */
  lemma JoinShape(dir: string, name: string, windows: bool)
    requires dir != "" && !IsPathSep(dir[|dir| - 1], windows) && NotUnc(dir, windows)
    requires name != "" && !IsPathSep(name[0], windows)
    ensures PathJoin(dir, name, windows)
         == if windows && |dir| == 2 && dir[1] == ':' then dir + name else dir + [SepOf(windows)] + name
    ensures var p := PathJoin(dir, name, windows);
      p != "" && p[|p| - 1] == name[|name| - 1] && NotUnc(p, windows)
  {
    var p := PathJoin(dir, name, windows);
    assert p[0] == dir[0] && (|dir| >= 2 ==> p[1] == dir[1]);
    if windows && |dir| >= 2 && dir[1] == ':' {
      assert DriveLength(dir, windows) == 2;
    } else {
      assert DriveLength(dir, windows) == 0 by {
        if windows && |dir| >= 2 { assert !IsPathSep(dir[0], true) || !IsPathSep(dir[1], true); }
      }
    }
  }

  /** A bare drive letter and a name: `C:name`, whose directory part is the drive. */
  lemma BareDriveJoin(dir: string, name: string)
    requires |dir| == 2 && dir[1] == ':' && NoSeps(name, true)
    ensures Dirname(dir + name, true) == dir
  {
    var p := dir + name;
    assert DriveLength(p, true) == 2 by {
      assert p[1] == ':';
      assert !IsPathSep(p[1], true);
    }
    assert p[2..] == name && p[..2] == dir;
    assert LastSepEnd(name, true) == 0;
  }

  /** The drive of `dir`, a separator and a name: that of `dir`, a drive letter or none. */
  lemma JoinDrive(dir: string, name: string, windows: bool) returns (d: nat)
    requires dir != "" && !IsPathSep(dir[|dir| - 1], windows) && NotUnc(dir, windows)
    requires !(windows && |dir| == 2 && dir[1] == ':')
    ensures d < |dir| && DriveLength(dir + [SepOf(windows)] + name, windows) == d
  {
    var p := dir + [SepOf(windows)] + name;
    if windows && |dir| >= 2 && dir[1] == ':' {
      d := 2;
      assert p[1] == ':' && p[0] == dir[0];
    } else {
      d := 0;
      assert windows && |dir| == 1 ==> p[1] == '\\' && !IsPathSep(p[0], true);
      assert windows && |dir| >= 2 ==> p[0] == dir[0] && p[1] == dir[1];
    }
  }

  /** `dir`, a separator and `name`, where the drive of both is the first `d` characters of `dir`. */
  lemma JoinedDirname(dir: string, name: string, windows: bool, d: nat)
    requires d < |dir| && !IsPathSep(dir[|dir| - 1], windows) && name != "" && NoSeps(name, windows)
    requires DriveLength(dir + [SepOf(windows)] + name, windows) == d
    ensures Dirname(dir + [SepOf(windows)] + name, windows) == dir
  {
    var p := dir + [SepOf(windows)] + name;
    var rest := p[d..];
    assert rest == dir[d..] + [SepOf(windows)] + name;
    HeadOfJoin(dir[d..], name, windows);
    assert p[..d] == dir[..d];
  }

  /** After the drive: the part up to the last separator, stripped, is the directory part. */
  lemma HeadOfJoin(dir: string, name: string, windows: bool)
    requires dir != "" && !IsPathSep(dir[|dir| - 1], windows) && NoSeps(name, windows)
    ensures var rest := dir + [SepOf(windows)] + name;
      var head := rest[..LastSepEnd(rest, windows)];
      head != "" && !AllSeps(head, windows) && RStripSeps(head, windows) == dir
  {
    var rest := dir + [SepOf(windows)] + name;
    var k := |dir| + 1;
    assert LastSepEnd(rest, windows) == k by {
      assert rest[k..] == name && IsPathSep(rest[k - 1], windows);
      LastSepEndAt(rest, k, windows);
    }
    var head := rest[..k];
    assert head == dir + [SepOf(windows)];
    assert head[k - 2] == dir[|dir| - 1];
    assert head[..k - 1] == dir;
  }

  /** When the separators end at `k`, `LastSepEnd` finds `k`. */
  lemma {:induction false} LastSepEndAt(s: string, k: nat, windows: bool)
    requires 0 < k <= |s| && IsPathSep(s[k - 1], windows) && NoSeps(s[k..], windows)
    ensures LastSepEnd(s, windows) == k
    decreases |s|
  {
    if k < |s| {
      assert s[..|s| - 1][k..] == s[k..|s| - 1];
      LastSepEndAt(s[..|s| - 1], k, windows);
    }
  }

  /**
   * `_get_source_path`: three directories up from this module's file, so the
   * prof-tools root for `<root>/prof/core/setup.py`.
   */
  function SourcePath(moduleFile: string, platform: string): (r: string)
    ensures StartsWith(moduleFile, r)
  {
    var w := IsWindows(platform);
    var a := Dirname(moduleFile, w);
    var b := Dirname(a, w);
    var r := Dirname(b, w);
    assert moduleFile[..|r|] == a[..|r|] == b[..|r|];
    r
  }

  /** Three `dirname`s of `<root>/prof/core/setup.py` give the root, with either platform's separators. */
  lemma SourcePathIsRoot(root: string, platform: string)
    requires root != "" && !IsPathSep(root[|root| - 1], IsWindows(platform)) && NotUnc(root, IsWindows(platform))
    ensures var w := IsWindows(platform);
      SourcePath(PathJoin(PathJoin(PathJoin(root, "prof", w), "core", w), "setup.py", w), platform) == root
  {
    var w := IsWindows(platform);
    var a := PathJoin(root, "prof", w);
    var b := PathJoin(a, "core", w);
    var p := PathJoin(b, "setup.py", w);
    LayoutNames(w);
    DirnameOfJoin(root, "prof", w);
    DirnameOfJoin(a, "core", w);
    DirnameOfJoin(b, "setup.py", w);
    ThreeUp(p, platform);
  }

  lemma ThreeUp(p: string, platform: string)
    ensures var w := IsWindows(platform); SourcePath(p, platform) == Dirname(Dirname(Dirname(p, w), w), w)
  {
  }

  /** The folder and file names of the package layout hold no separator. */
  lemma LayoutNames(w: bool)
    ensures NoSeps("prof", w) && NoSeps("core", w) && NoSeps("setup.py", w)
  {
  }

  /** The same, for the file path written out with the platform's separator. */
  lemma SourcePathOfParts(root: string, platform: string)
    requires root != "" && !IsPathSep(root[|root| - 1], IsWindows(platform)) && NotUnc(root, IsWindows(platform))
    requires !(IsWindows(platform) && EndsWith(root, ":"))
    ensures var s := [SepOf(IsWindows(platform))];
      SourcePath(root + s + "prof" + s + "core" + s + "setup.py", platform) == root
  {
    var w := IsWindows(platform);
    var s := [SepOf(w)];
    var a := PathJoin(root, "prof", w);
    assert a == root + s + "prof";
    assert a[|a| - 1] == 'f' && !EndsWith(a, ":");
    var b := PathJoin(a, "core", w);
    assert b == a + s + "core";
    assert b[|b| - 1] == 'e' && !EndsWith(b, ":");
    assert PathJoin(b, "setup.py", w) == b + s + "setup.py";
    SourcePathIsRoot(root, platform);
  }

  /** On Windows the drive stays and the backslashes are separators. */
  lemma WindowsSourceSample()
    ensures SourcePath("C:\\Users\\a\\prof-tools" + ['\\'] + "prof" + ['\\'] + "core" + ['\\'] + "setup.py", "win32")
         == "C:\\Users\\a\\prof-tools"
  {
    WindowsRoot();
    SourcePathOfParts("C:\\Users\\a\\prof-tools", "win32");
  }

  lemma WindowsRoot()
    ensures IsWindows("win32")
    ensures var root := "C:\\Users\\a\\prof-tools";
      root[|root| - 1] == 's' && root[1] == ':' && !EndsWith(root, ":")
  {
    assert "win32"[..3] == "win";
  }

  // ---------------------------------------------------------------------------
  // The text of userSetup.mel
  // ---------------------------------------------------------------------------

  /** The existing text with a final newline added when it is non-empty and lacks one. */
  function Terminated(text: string): (r: string)
    ensures StartsWith(r, text)
    ensures r == "" || r[|r| - 1] == '\n'
  {
    if text != "" && !EndsWith(text, "\n") then text + "\n" else text
  }

  /**
   * `_update_usersetup_mel` on the file's text: unless the entry already
   * occurs in it, the marker comment and the entry are appended, each on a
   * line of its own.
   */
  function Updated(existing: string, entry: string): (r: string)
    ensures Contains(existing, entry) ==> r == existing
    ensures !Contains(existing, entry) ==> r == Terminated(existing) + MarkerComment + "\n" + entry + "\n"
    ensures StartsWith(r, existing) && Contains(r, entry)
  {
    if Contains(existing, entry) then existing
    else
      var t := Terminated(existing);
      var r := t + MarkerComment + "\n" + entry + "\n";
      var at := |t| + |MarkerComment| + 1;
      assert r[at..at + |entry|] == entry;
      assert OccursAt(r, entry, at);
      assert r[..|existing|] == t[..|existing|];
      r
  }

  /** Installing twice leaves the file as installing once does. */
  lemma UpdateIdempotent(existing: string, entry: string)
    ensures Updated(Updated(existing, entry), entry) == Updated(existing, entry)
  {
  }

  /** The text joined back from its lines (`writelines`). */
  function Concat(lines: seq<string>): string {
    if lines == [] then "" else lines[0] + Concat(lines[1..])
  }

  lemma {:induction false} ConcatAppend(a: seq<string>, b: seq<string>)
    ensures Concat(a + b) == Concat(a) + Concat(b)
  {
    if a != [] {
      assert (a + b)[0] == a[0] && (a + b)[1..] == a[1..] + b;
      ConcatAppend(a[1..], b);
      assert Concat(a + b) == a[0] + (Concat(a[1..]) + Concat(b));
      assert Concat(a) == a[0] + Concat(a[1..]);
      assert a[0] + (Concat(a[1..]) + Concat(b)) == (a[0] + Concat(a[1..])) + Concat(b);
    } else {
      assert a + b == b;
    }
  }

  /**
   * `readlines()`: the text cut after every newline, each line keeping its
   * newline; only the last line may lack one.
   */
  function ReadLines(text: string): (r: seq<string>)
    ensures forall i :: 0 <= i < |r| ==> r[i] != ""
    ensures forall i :: 0 <= i < |r| - 1 ==> r[i][|r[i]| - 1] == '\n'
    decreases |text|
  {
    if text == "" then []
    else
      match IndexOf(text, '\n')
        case None => [text]
        case Some(k) => [text[..k + 1]] + ReadLines(text[k + 1..])
  }

  /** Writing the lines back gives the text that was read. */
  lemma {:induction false} ReadLinesConcat(text: string)
    ensures Concat(ReadLines(text)) == text
    decreases |text|
  {
    if text != "" {
      match IndexOf(text, '\n')
        case None =>
        case Some(k) =>
          ReadLinesConcat(text[k + 1..]);
          assert ([text[..k + 1]] + ReadLines(text[k + 1..]))[1..] == ReadLines(text[k + 1..]);
          assert text == text[..k + 1] + text[k + 1..];
    }
  }

  /** Text that ends a line reads as its own lines followed by those of what comes after. */
  lemma {:induction false} ReadLinesAppend(a: string, b: string)
    requires a == "" || a[|a| - 1] == '\n'
    ensures ReadLines(a + b) == ReadLines(a) + ReadLines(b)
    decreases |a|
  {
    if a != "" {
      var h, rest := FirstLine(a);
      ReadLinesStep(h, rest);
      LineAssoc(h, rest, b);
      ReadLinesStep(h, rest + b);
      ReadLinesAppend(rest, b);
      AppendAssoc([h + ['\n']], ReadLines(rest), ReadLines(b));
    } else {
      assert a + b == b;
    }
  }

  /** A text ending in a newline is its first line, that newline and the rest, which ends in one too. */
  lemma FirstLine(a: string) returns (h: string, rest: string)
    requires a != "" && a[|a| - 1] == '\n'
    ensures '\n' !in h && a == h + ['\n'] + rest && |rest| < |a|
    ensures rest == "" || rest[|rest| - 1] == '\n'
  {
    var k := IndexOf(a, '\n').value;
    h, rest := a[..k], a[k + 1..];
    assert a == h + ['\n'] + rest;
    assert rest != "" ==> rest[|rest| - 1] == a[|a| - 1];
  }

  lemma LineAssoc(h: string, rest: string, b: string)
    ensures (h + ['\n'] + rest) + b == h + ['\n'] + (rest + b)
  {
  }

  /** A line up to its newline is read first, and the rest after it. */
  lemma ReadLinesStep(h: string, rest: string)
    requires '\n' !in h
    ensures ReadLines(h + ['\n'] + rest) == [h + ['\n']] + ReadLines(rest)
  {
    var t := h + ['\n'] + rest;
    IndexOfAfterPrefix(h, '\n', rest);
    assert t[..|h| + 1] == h + ['\n'] && t[|h| + 1..] == rest;
  }

  /** A line without an inner newline, followed by one, reads as that single line. */
  lemma ReadOneLine(line: string)
    requires '\n' !in line
    ensures ReadLines(line + "\n") == [line + "\n"]
  {
    IndexOfAfterPrefix(line, '\n', "");
    assert line + "\n" == line + ['\n'] + "";
    assert (line + "\n")[|line| + 1..] == "";
  }

  // ---------------------------------------------------------------------------
  // _clean_usersetup_mel
  // ---------------------------------------------------------------------------

  /** A line the cleaner drops on sight: a marker, or one holding the stripped entry. */
  predicate Removable(line: string, entry: string) {
    Contains(line, MarkerTag) || Contains(Strip(line), Strip(entry))
  }

  /**
   * The lines kept by the cleaning loop, starting in state `skip`: the line
   * after a marker goes unread, a removable line goes, any other stays.
   */
  function CleanFrom(lines: seq<string>, entry: string, skip: bool): (r: seq<string>)
    ensures |r| <= |lines|
    ensures forall i :: 0 <= i < |r| ==> !Removable(r[i], entry)
  {
    if lines == [] then []
    else if skip then CleanFrom(lines[1..], entry, false)
    else if Contains(lines[0], MarkerTag) then CleanFrom(lines[1..], entry, true)
    else if Contains(Strip(lines[0]), Strip(entry)) then CleanFrom(lines[1..], entry, false)
    else [lines[0]] + CleanFrom(lines[1..], entry, false)
  }

  function Cleaned(lines: seq<string>, entry: string): (r: seq<string>)
    ensures forall i :: 0 <= i < |r| ==> !Removable(r[i], entry)
  {
    CleanFrom(lines, entry, false)
  }

  /** `a` is `b` with some elements left out and the rest in their order. */
  predicate Subsequence(a: seq<string>, b: seq<string>)
    decreases |b|
  {
    if a == [] then true
    else if b == [] then false
    else (a[0] == b[0] && Subsequence(a[1..], b[1..])) || Subsequence(a, b[1..])
  }

  /** The cleaner only removes lines; those it keeps stay in order. */
  lemma {:induction false} CleanKeepsOrder(lines: seq<string>, entry: string, skip: bool)
    ensures Subsequence(CleanFrom(lines, entry, skip), lines)
    decreases |lines|
  {
    if lines != [] {
      var rest := CleanFrom(lines[1..], entry, false);
      CleanKeepsOrder(lines[1..], entry, false);
      CleanKeepsOrder(lines[1..], entry, true);
      if !skip && !Contains(lines[0], MarkerTag) && !Contains(Strip(lines[0]), Strip(entry)) {
        assert CleanFrom(lines, entry, skip) == [lines[0]] + rest;
        assert ([lines[0]] + rest)[1..] == rest;
      }
    }
  }

  /** Lines with nothing to remove pass through unchanged. */
  lemma {:induction false} CleanNothingToRemove(lines: seq<string>, entry: string)
    requires forall i :: 0 <= i < |lines| ==> !Removable(lines[i], entry)
    ensures Cleaned(lines, entry) == lines
  {
    if lines != [] {
      CleanNothingToRemove(lines[1..], entry);
      assert lines == [lines[0]] + lines[1..];
    }
  }

  /** Uninstalling twice removes nothing more than uninstalling once. */
  lemma CleanIdempotent(lines: seq<string>, entry: string)
    ensures Cleaned(Cleaned(lines, entry), entry) == Cleaned(lines, entry)
  {
    CleanNothingToRemove(Cleaned(lines, entry), entry);
  }

  /** Cleaning distributes over lines that hold no marker. */
  lemma {:induction false} CleanAppend(a: seq<string>, b: seq<string>, entry: string)
    requires forall i :: 0 <= i < |a| ==> !Contains(a[i], MarkerTag)
    ensures Cleaned(a + b, entry) == Cleaned(a, entry) + Cleaned(b, entry)
  {
    if a != [] {
      var x, rest := a[0], a[1..];
      assert a == [x] + rest;
      assert a + b == [x] + (rest + b);
      CleanAppend(rest, b, entry);
      CleanedCons(x, rest, entry);
      CleanedCons(x, rest + b, entry);
      if !Contains(Strip(x), Strip(entry)) {
        AppendAssoc([x], Cleaned(rest, entry), Cleaned(b, entry));
      }
    } else {
      assert a + b == b;
    }
  }

  lemma AppendAssoc<T>(a: seq<T>, b: seq<T>, c: seq<T>)
    ensures a + (b + c) == (a + b) + c
  {
  }

  /** A first line without a marker is kept or dropped on its own. */
  lemma CleanedCons(x: string, rest: seq<string>, entry: string)
    requires !Contains(x, MarkerTag)
    ensures Cleaned([x] + rest, entry)
         == if Contains(Strip(x), Strip(entry)) then Cleaned(rest, entry) else [x] + Cleaned(rest, entry)
  {
    assert ([x] + rest)[0] == x && ([x] + rest)[1..] == rest;
  }

  /** The loop of `_clean_usersetup_mel` over the lines read from the file. */
  method CleanLines(lines: seq<string>, entry: string) returns (cleaned: seq<string>)
    ensures cleaned == Cleaned(lines, entry)
  {
    cleaned := [];
    var skipNext := false;
    var i := 0;
    while i < |lines|
      invariant 0 <= i <= |lines|
      invariant cleaned + CleanFrom(lines[i..], entry, skipNext) == Cleaned(lines, entry)
    {
      var line := lines[i];
      assert lines[i..][1..] == lines[i + 1..];
      if skipNext {
        skipNext := false;
      } else if Contains(line, MarkerTag) {
        skipNext := true;
      } else if Contains(Strip(line), Strip(entry)) {
      } else {
        cleaned := cleaned + [line];
      }
      i := i + 1;
    }
  }

  // ---------------------------------------------------------------------------
  // Install then uninstall
  // ---------------------------------------------------------------------------

  /** The entry line is a single line. */
  lemma EntryLineShape()
    ensures EntryLine != "" && '\n' !in EntryLine
  {
  }

  /** The marker comment is one line and holds the marker text. */
  lemma MarkerShape()
    ensures '\n' !in MarkerComment && Contains(MarkerComment, MarkerTag)
  {
    assert MarkerComment[3..] == MarkerTag;
    assert OccursAt(MarkerComment, MarkerTag, 3);
    forall i | 0 <= i < |MarkerComment| ensures MarkerComment[i] != '\n' {
      if i >= 3 {
        assert MarkerComment[i] == MarkerTag[i - 3];
      }
    }
  }

  /** A marker line and the line after it are both dropped. */
  lemma CleanMarkerPair(m: string, e: string, entry: string)
    requires Contains(m, MarkerTag)
    ensures Cleaned([m, e], entry) == []
  {
    assert [m, e][0] == m && [m, e][1..] == [e];
    assert CleanFrom([m, e], entry, false) == CleanFrom([e], entry, true);
    assert [e][1..] == [];
    assert CleanFrom([e], entry, true) == CleanFrom([], entry, false);
  }

  /** The two appended lines read back as two lines. */
  lemma ReadAppendedLines(marker: string, entry: string)
    requires '\n' !in marker && '\n' !in entry
    ensures ReadLines(marker + "\n" + entry + "\n") == [marker + "\n", entry + "\n"]
  {
    var m := marker + "\n";
    var e := entry + "\n";
    assert marker + "\n" + entry + "\n" == m + e;
    ReadTwoLines(marker, m, entry, e);
  }

  lemma ReadTwoLines(marker: string, m: string, entry: string, e: string)
    requires '\n' !in marker && '\n' !in entry && m == marker + "\n" && e == entry + "\n"
    ensures ReadLines(m + e) == [m, e]
  {
    ReadOneLine(marker);
    ReadOneLine(entry);
    ReadLinesAppend(m, e);
  }

  lemma ContainsExtended(s: string, t: string, p: string)
    requires Contains(s, p)
    ensures Contains(s + t, p)
  {
    assert (s + t)[0..|s|] == s;
    ContainsInSlice(s + t, 0, |s|, p);
  }

  /** The two lines the installer appends are exactly what the cleaner removes. */
  lemma CleanAppendedLines(marker: string, entry: string)
    requires '\n' !in marker && Contains(marker, MarkerTag) && '\n' !in entry
    ensures Cleaned(ReadLines(marker + "\n" + entry + "\n"), entry) == []
  {
    ReadAppendedLines(marker, entry);
    ContainsExtended(marker, "\n", MarkerTag);
    CleanMarkerPair(marker + "\n", entry + "\n", entry);
  }

  /** Lines that end the text and hold nothing removable survive whatever follows them being cleaned away. */
  lemma CleanKeepsPrefix(t: string, tail: string, entry: string)
    requires t == "" || t[|t| - 1] == '\n'
    requires forall i :: 0 <= i < |ReadLines(t)| ==> !Removable(ReadLines(t)[i], entry)
    requires Cleaned(ReadLines(tail), entry) == []
    ensures Cleaned(ReadLines(t + tail), entry) == ReadLines(t)
  {
    var a := ReadLines(t);
    ReadLinesAppend(t, tail);
    CleanAppend(a, ReadLines(tail), entry);
    CleanNothingToRemove(a, entry);
    assert a + [] == a;
  }

  /**
   * Uninstalling after installing gives back the lines the file had, its
   * last line now ended by a newline, when none of them was removable.
   */
  lemma UninstallUndoesInstall(existing: string, entry: string)
    requires '\n' !in entry && !Contains(existing, entry)
    requires forall i :: 0 <= i < |ReadLines(Terminated(existing))| ==>
               !Removable(ReadLines(Terminated(existing))[i], entry)
    ensures Cleaned(ReadLines(Updated(existing, entry)), entry) == ReadLines(Terminated(existing))
    ensures Concat(Cleaned(ReadLines(Updated(existing, entry)), entry)) == Terminated(existing)
  {
    var t := Terminated(existing);
    var tail := MarkerComment + "\n" + entry + "\n";
    UpdatedIsAppend(existing, entry);
    MarkerShape();
    CleanAppendedLines(MarkerComment, entry);
    CleanKeepsPrefix(t, tail, entry);
    ReadLinesConcat(t);
  }

  /** Installing into a file without the entry appends the marker and the entry after the terminated text. */
  lemma UpdatedIsAppend(existing: string, entry: string)
    requires !Contains(existing, entry)
    ensures Updated(existing, entry) == Terminated(existing) + (MarkerComment + "\n" + entry + "\n")
  {
  }

  /** The same for the prof-tools entry line itself. */
  lemma UninstallUndoesInstallEntry(existing: string)
    requires !Contains(existing, EntryLine)
    requires forall i :: 0 <= i < |ReadLines(Terminated(existing))| ==>
               !Removable(ReadLines(Terminated(existing))[i], EntryLine)
    ensures Concat(Cleaned(ReadLines(Updated(existing, EntryLine)), EntryLine)) == Terminated(existing)
  {
    EntryLineShape();
    UninstallUndoesInstall(existing, EntryLine);
  }

  // ---------------------------------------------------------------------------
  // The file
  // ---------------------------------------------------------------------------

  /** userSetup.mel: whether it exists and its text. */
  class UserSetupFile {
    var present: bool
    var text: string

    constructor(present: bool, text: string)
      ensures this.present == present && this.text == text
    {
      this.present := present;
      this.text := text;
    }

    /** The text `_update_usersetup_mel` reads: empty when the file is absent. */
    function Existing(): string
      reads this
    {
      if present then text else ""
    }

    /** `_update_usersetup_mel`: appends the entry when it is missing, creating the file if need be. */
    method Update(entry: string)
      modifies this
      ensures Contains(old(Existing()), entry) ==> present == old(present) && text == old(text)
      ensures !Contains(old(Existing()), entry) ==> present && text == Updated(old(Existing()), entry)
      ensures present ==> Contains(text, entry)
    {
      var existing := Existing();
      if !Contains(existing, entry) {
        text := Updated(existing, entry);
        present := true;
      }
    }

    /** `_clean_usersetup_mel`: rewrites an existing file without the prof-tools lines. */
    method Clean(entry: string)
      modifies this
      ensures !old(present) ==> !present && text == old(text)
      ensures old(present) ==> present && text == Concat(Cleaned(ReadLines(old(text)), entry))
    {
      if !present {
        return;
      }
      var lines := ReadLines(text);
      var cleaned := CleanLines(lines, entry);
      text := Concat(cleaned);
    }
  }
}
