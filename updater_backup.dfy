/**
 * The version logic of `fdma_shelf/utils/updater_backup.py`. The file holds
 * an unresolved merge: its HEAD side and its other side each define an
 * `_is_newer`, modelled separately as `IsNewerHead` and `IsNewerOther`.
 * Release selection works on the manifest as a value; fetching it (network
 * and cache file) is left to the caller, which passes `Err` when the fetch
 * raised.
 */
module UpdaterBackup {
  import opened Wrappers
  import opened PyText
  import opened PyValue

  // ---------------------------------------------------------------------------
  // integer tuples
  // ---------------------------------------------------------------------------

  /** `tuple(int(p) for p in parts)`; None when some `int()` raises. */
  function IntsOf(parts: seq<string>): (r: Option<seq<int>>)
    ensures r.Some? ==> |r.value| == |parts| && forall k :: 0 <= k < |parts| ==> ParseInt(parts[k]) == Some(r.value[k])
    ensures r.None? ==> exists k :: 0 <= k < |parts| && ParseInt(parts[k]).None?
  {
    if parts == [] then Some([])
    else match ParseInt(parts[0])
      case None => None
      case Some(x) =>
        match IntsOf(parts[1..])
          case None => None
          case Some(rest) => Some([x] + rest)
  }

  /** `tuple(int(p) for p in v.split("."))`. */
  function VersionTuple(s: string): Option<seq<int>> {
    IntsOf(Split(s, '.'))
  }

  /** Python's `<` on tuples of ints: lexicographic, a proper prefix being smaller. */
  predicate TupleLess(a: seq<int>, b: seq<int>)
    decreases |a|
  {
    if a == [] then b != []
    else if b == [] then false
    else a[0] < b[0] || (a[0] == b[0] && TupleLess(a[1..], b[1..]))
  }

  lemma {:induction false} TupleLessIrreflexive(a: seq<int>)
    ensures !TupleLess(a, a)
    decreases |a|
  {
    if a != [] { TupleLessIrreflexive(a[1..]); }
  }

  lemma {:induction false} TupleLessAsymmetric(a: seq<int>, b: seq<int>)
    ensures !(TupleLess(a, b) && TupleLess(b, a))
    decreases |a|
  {
    if a != [] && b != [] { TupleLessAsymmetric(a[1..], b[1..]); }
  }

  lemma {:induction false} TupleLessTransitive(a: seq<int>, b: seq<int>, c: seq<int>)
    requires TupleLess(a, b) && TupleLess(b, c)
    ensures TupleLess(a, c)
    decreases |a|
  {
    if a != [] && a[0] == b[0] && b[0] == c[0] {
      TupleLessTransitive(a[1..], b[1..], c[1..]);
    }
  }

  lemma {:induction false} TupleLessTotal(a: seq<int>, b: seq<int>)
    requires a != b
    ensures TupleLess(a, b) || TupleLess(b, a)
    decreases |a|
  {
    if a != [] && b != [] && a[0] == b[0] {
      assert a == [a[0]] + a[1..] && b == [b[0]] + b[1..];
      TupleLessTotal(a[1..], b[1..]);
    }
  }

  /** A proper extension is greater: (2, 0, 0, 1) > (2, 0, 0). */
  lemma {:induction false} ExtensionIsGreater(a: seq<int>, tail: seq<int>)
    requires tail != []
    ensures TupleLess(a, a + tail)
    decreases |a|
  {
    if a != [] {
      assert (a + tail)[1..] == a[1..] + tail;
      ExtensionIsGreater(a[1..], tail);
    }
  }

  // ---------------------------------------------------------------------------
  // the two _is_newer variants
  // ---------------------------------------------------------------------------

  /** The HEAD-side `_is_newer(remote, local)`: leading 'v's removed; False when anything raises. */
  predicate IsNewerHead(remote: Value, local: Value) {
    remote.PyStr? && local.PyStr?
    && var rv := VersionTuple(LStripChar(remote.s, 'v'));
    var lv := VersionTuple(LStripChar(local.s, 'v'));
    rv.Some? && lv.Some? && TupleLess(lv.value, rv.value)
  }

  /** The other side's `_is_newer(remote, local)`: no 'v' removal; False when anything raises. */
  predicate IsNewerOther(remote: Value, local: Value) {
    remote.PyStr? && local.PyStr?
    && var rv := VersionTuple(remote.s);
    var lv := VersionTuple(local.s);
    rv.Some? && lv.Some? && TupleLess(lv.value, rv.value)
  }

  lemma IsNewerIrreflexive(v: Value)
    ensures !IsNewerHead(v, v) && !IsNewerOther(v, v)
  {
    if v.PyStr? {
      var a := VersionTuple(LStripChar(v.s, 'v'));
      var b := VersionTuple(v.s);
      if a.Some? { TupleLessIrreflexive(a.value); }
      if b.Some? { TupleLessIrreflexive(b.value); }
    }
  }

  lemma IsNewerAsymmetric(a: Value, b: Value)
    ensures !(IsNewerHead(a, b) && IsNewerHead(b, a))
    ensures !(IsNewerOther(a, b) && IsNewerOther(b, a))
  {
    if a.PyStr? && b.PyStr? {
      var ha, hb := VersionTuple(LStripChar(a.s, 'v')), VersionTuple(LStripChar(b.s, 'v'));
      var oa, ob := VersionTuple(a.s), VersionTuple(b.s);
      if ha.Some? && hb.Some? { TupleLessAsymmetric(ha.value, hb.value); }
      if oa.Some? && ob.Some? { TupleLessAsymmetric(oa.value, ob.value); }
    }
  }

  /** Without a leading 'v' on either side the two variants agree. */
  lemma VariantsAgreeWithoutV(remote: string, local: string)
    requires remote == [] || remote[0] != 'v'
    requires local == [] || local[0] != 'v'
    ensures IsNewerHead(PyStr(remote), PyStr(local)) == IsNewerOther(PyStr(remote), PyStr(local))
  {
  }

  lemma SplitSample(a: char, b: char, c: char)
    requires a != '.' && b != '.' && c != '.'
    ensures Split([a, '.', b, '.', c], '.') == [[a], [b], [c]]
  {
    var s := [a, '.', b, '.', c];
    assert [c][1..] == [];
    assert IndexOf([c], '.') == None;
    assert Split([c], '.') == [[c]];
    var t := [b, '.', c];
    assert t[1..] == ['.', c];
    assert IndexOf(t, '.') == Some(1);
    assert t[..1] == [b] && t[2..] == [c];
    assert Split(t, '.') == [[b], [c]];
    assert s[1..] == ['.', b, '.', c];
    assert IndexOf(s, '.') == Some(1);
    assert s[..1] == [a] && s[2..] == t;
  }

  lemma DigitParses(c: char)
    requires '0' <= c <= '9'
    ensures ParseInt([c]) == Some(c as int - '0' as int)
  {
    StripFixedPoint([c]);
    assert [c][..0] == [];
    assert DigitsValue([c]) == DigitValue(c);
  }

  lemma IntsOfCons(p: string, rest: seq<string>, v: int, vs: seq<int>)
    requires ParseInt(p) == Some(v) && IntsOf(rest) == Some(vs)
    ensures IntsOf([p] + rest) == Some([v] + vs)
  {
    var parts := [p] + rest;
    assert parts != [] && parts[0] == p && parts[1..] == rest;
  }

  lemma IntsOfOne(c: char)
    requires '0' <= c <= '9'
    ensures IntsOf([[c]]) == Some([c as int - '0' as int])
  {
    DigitParses(c);
    var noParts: seq<string> := [];
    var noInts: seq<int> := [];
    assert IntsOf(noParts) == Some(noInts);
    IntsOfCons([c], noParts, c as int - '0' as int, noInts);
    assert [[c]] + noParts == [[c]];
    assert [c as int - '0' as int] + noInts == [c as int - '0' as int];
  }

  lemma IntsOfThree(a: char, b: char, c: char)
    requires '0' <= a <= '9' && '0' <= b <= '9' && '0' <= c <= '9'
    ensures IntsOf([[a], [b], [c]]) == Some([a as int - '0' as int, b as int - '0' as int, c as int - '0' as int])
  {
    var av, bv, cv := a as int - '0' as int, b as int - '0' as int, c as int - '0' as int;
    IntsOfOne(c);
    DigitParses(b);
    IntsOfCons([b], [[c]], bv, [cv]);
    assert [[b]] + [[c]] == [[b], [c]] && [bv] + [cv] == [bv, cv];
    DigitParses(a);
    IntsOfCons([a], [[b], [c]], av, [bv, cv]);
    assert [[a]] + [[b], [c]] == [[a], [b], [c]] && [av] + [bv, cv] == [av, bv, cv];
  }

  /** The tuple of a one-digit triple. */
  lemma TupleSample(a: char, b: char, c: char)
    requires '0' <= a <= '9' && '0' <= b <= '9' && '0' <= c <= '9'
    ensures VersionTuple([a, '.', b, '.', c]) == Some([a as int - '0' as int, b as int - '0' as int, c as int - '0' as int])
  {
    SplitSample(a, b, c);
    IntsOfThree(a, b, c);
  }

  /** The expectations of the updater's unit test, which hold for both variants. */
  lemma UnitTestSamples()
    ensures IsNewerOther(PyStr("1.2.4"), PyStr("1.2.3")) && IsNewerHead(PyStr("1.2.4"), PyStr("1.2.3"))
    ensures !IsNewerOther(PyStr("1.2.3"), PyStr("1.2.4")) && !IsNewerHead(PyStr("1.2.3"), PyStr("1.2.4"))
    ensures !IsNewerOther(PyStr("1.2.3"), PyStr("1.2.3")) && !IsNewerHead(PyStr("1.2.3"), PyStr("1.2.3"))
  {
    TupleSample('1', '2', '4');
    TupleSample('1', '2', '3');
    VariantsAgreeWithoutV("1.2.4", "1.2.3");
    VariantsAgreeWithoutV("1.2.3", "1.2.4");
    IsNewerIrreflexive(PyStr("1.2.3"));
  }

  /** A part that `int()` rejects makes the whole tuple raise. */
  lemma IntsOfHeadFails(parts: seq<string>)
    requires parts != [] && ParseInt(parts[0]).None?
    ensures IntsOf(parts).None?
  {
  }

  /** The first part of a split is the text before the first separator. */
  lemma SplitHead(s: string, c: char, k: nat)
    requires IndexOf(s, c) == Some(k)
    ensures Split(s, c)[0] == s[..k]
  {
  }

  /** A text like "v2.0.0" has no integer tuple: its first part starts with 'v'. */
  lemma LeadingVHasNoTuple(s: string)
    requires |s| >= 3 && s[0] == 'v' && IsAsciiDigit(s[1]) && s[2] == '.'
    ensures VersionTuple(s).None?
  {
    assert '.' in s;
    var k := IndexOf(s, '.').value;
    assert s[2] in s[..3];
    assert k == 2;
    SplitHead(s, '.', k);
    var head := s[..2];
    StripFixedPoint(head);
    assert !AllDigits(head);
    assert ParseInt(head).None?;
    IntsOfHeadFails(Split(s, '.'));
  }

  /** With its 'v' removed, "v2.0.0" is the tuple (2, 0, 0). */
  lemma LeadingVRemoved(s: string)
    requires s == "v2.0.0"
    ensures LStripChar(s, 'v') == "2.0.0"
    ensures VersionTuple(LStripChar(s, 'v')) == Some([2, 0, 0])
  {
    var t := s[1..];
    assert s[0] == 'v' && t == ['2', '.', '0', '.', '0'];
    assert LStripChar(s, 'v') == LStripChar(t, 'v');
    assert t[0] != 'v';
    assert LStripChar(t, 'v') == t;
    TupleSample('2', '0', '0');
  }

  /** The variants disagree on a leading 'v': only HEAD finds "v2.0.0" newer than "1.0.0". */
  lemma VariantsDisagreeOnV(remote: string, local: string)
    requires remote == "v2.0.0" && local == "1.0.0"
    ensures IsNewerHead(PyStr(remote), PyStr(local))
    ensures !IsNewerOther(PyStr(remote), PyStr(local))
  {
    LeadingVRemoved(remote);
    assert local == ['1', '.', '0', '.', '0'];
    assert LStripChar(local, 'v') == local;
    TupleSample('1', '0', '0');
    assert TupleLess([1, 0, 0], [2, 0, 0]);
    LeadingVHasNoTuple(remote);
  }

  // ---------------------------------------------------------------------------
  // release selection
  // ---------------------------------------------------------------------------

  /**
   * The entries a `for` loop over `releases` visits, for a list or a tuple.
   * Any other value makes both selection rules raise: a non-iterable at once,
   * a non-empty str or dict at its first (str) element, and an empty one
   * when no release is found.
   */
  function Elements(v: Value): (r: Option<seq<Value>>)
    ensures r.Some? <==> v.PyList? || v.PyTuple?
  {
    match v
      case PyList(items) => Some(items)
      case PyTuple(elems) => Some(elems)
      case _ => None
  }

  /**
   * The version an entry offers to the match test: `None` when reading it
   * raises (not a dict, or a missing key without a default).
   */
  function VersionField(e: Value, default: Option<Value>): Option<Value> {
    if !e.PyDict? then None
    else if "version" in e.entries then Some(e.entries["version"])
    else default
  }

  predicate IsMatch(e: Value, curr: Value, default: Option<Value>) {
    VersionField(e, default).Some? && PyEq(VersionField(e, default).value, curr)
  }

  predicate IsMiss(e: Value, curr: Value, default: Option<Value>) {
    VersionField(e, default).Some? && !PyEq(VersionField(e, default).value, curr)
  }

  /**
   * The loop looking for the entry whose version equals `curr`: the index of
   * the first match, None when every entry is a miss, Err when reading a
   * version raises before a match.
   */
  function FindMatch(items: seq<Value>, curr: Value, default: Option<Value>): (r: Result<Option<nat>>)
    ensures r.Ok? && r.value.Some? ==>
              (r.value.value < |items| && IsMatch(items[r.value.value], curr, default)
               && forall j :: 0 <= j < r.value.value ==> IsMiss(items[j], curr, default))
    ensures r.Ok? && r.value.None? <==> forall j :: 0 <= j < |items| ==> IsMiss(items[j], curr, default)
    ensures r.Err? ==> exists j :: 0 <= j < |items| && VersionField(items[j], default).None?
  {
    if items == [] then Ok(None)
    else match VersionField(items[0], default)
      case None => Err("entry without a readable version")
      case Some(v) =>
        if PyEq(v, curr) then Ok(Some(0))
        else match FindMatch(items[1..], curr, default)
          case Err(e) => Err(e)
          case Ok(None) => Ok(None)
          case Ok(Some(i)) => Ok(Some(i + 1))
  }

  /** The sort key of one entry: `_ver_tuple(e.get("version", "0.0.0"))`; None when it raises. */
  function SortKey(e: Value): Option<seq<int>> {
    if !e.PyDict? then None
    else match Get(e.entries, "version", PyStr("0.0.0"))
      case PyStr(s) => VersionTuple(s)
      case _ => None
  }

  /** Every option present, and their values; None when any one is missing. */
  function AllPresent<T>(opts: seq<Option<T>>): (r: Option<seq<T>>)
    ensures r.Some? ==> |r.value| == |opts| && forall k :: 0 <= k < |opts| ==> opts[k] == Some(r.value[k])
    ensures r.None? ==> exists k :: 0 <= k < |opts| && opts[k].None?
  {
    if opts == [] then Some([])
    else if opts[0].None? then None
    else
      match AllPresent(opts[1..])
        case None =>
          var m :| 0 <= m < |opts[1..]| && opts[1..][m].None?;
          assert opts[m + 1] == opts[1..][m];
          None
        case Some(rest) =>
          assert forall j :: 1 <= j < |opts| ==> opts[j] == opts[1..][j - 1];
          Some([opts[0].value] + rest)
  }

  /** The keys of all entries, computed before sorting; Err when any one raises. */
  function SortKeys(items: seq<Value>): (r: Result<seq<seq<int>>>)
    ensures r.Ok? ==> |r.value| == |items| && forall k :: 0 <= k < |items| ==> SortKey(items[k]) == Some(r.value[k])
    ensures r.Err? ==> exists k :: 0 <= k < |items| && SortKey(items[k]).None?
  {
    var opts := seq(|items|, k requires 0 <= k < |items| => SortKey(items[k]));
    match AllPresent(opts)
      case None => Err("ValueError")
      case Some(keys) => Ok(keys)
  }

  /**
   * The head of `sorted(..., reverse=True)`: since the sort is stable, the
   * first entry whose key no other key exceeds.
   */
  function FirstMax(keys: seq<seq<int>>): (i: nat)
    requires |keys| > 0
    ensures i < |keys|
    ensures forall j :: 0 <= j < |keys| ==> !TupleLess(keys[i], keys[j])
    ensures forall j :: 0 <= j < i ==> TupleLess(keys[j], keys[i])
  {
    if |keys| == 1 then
      TupleLessIrreflexive(keys[0]);
      0
    else
      var init := keys[..|keys| - 1];
      var j := FirstMax(init);
      var last := keys[|keys| - 1];
      if TupleLess(keys[j], last) then
        forall k | 0 <= k < |keys| ensures !TupleLess(last, keys[k]) && (k < |keys| - 1 ==> TupleLess(keys[k], last)) {
          if k < |keys| - 1 {
            assert keys[k] == init[k];
            if keys[k] != keys[j] {
              TupleLessTotal(keys[k], keys[j]);
              TupleLessTransitive(keys[k], keys[j], last);
            }
            TupleLessAsymmetric(keys[k], last);
          } else {
            TupleLessIrreflexive(last);
          }
        }
        |keys| - 1
      else
        assert forall k :: 0 <= k < |keys| - 1 ==> keys[k] == init[k];
        j
  }

  /** `entry["version"], entry["download_url"]`; Err on a missing key. */
  function VersionAndUrl(e: Value): (r: Result<(Value, Value)>)
    ensures r.Ok? <==> e.PyDict? && "version" in e.entries && "download_url" in e.entries
    ensures r.Ok? ==> r.value == (e.entries["version"], e.entries["download_url"])
  {
    if e.PyDict? && "version" in e.entries && "download_url" in e.entries
    then Ok((e.entries["version"], e.entries["download_url"]))
    else Err("KeyError")
  }

  /**
   * The loop and the sort of `_get_latest_release()` over the listed
   * entries: the entry whose version equals `curr`, else the first entry with
   * the greatest version tuple; Err when a step raises or there is no entry.
   */
  function ReleaseFrom(items: seq<Value>, curr: Value): (r: Result<(Value, Value)>)
    ensures |items| == 0 ==> r.Err?
  {
    match FindMatch(items, curr, Some(PyNone))
      case Err(e) => Err(e)
      case Ok(Some(i)) => VersionAndUrl(items[i])
      case Ok(None) =>
        match SortKeys(items)
          case Err(e) => Err(e)
          case Ok(keys) =>
            if |items| == 0 then Err("No releases available in manifest")
            else VersionAndUrl(items[FirstMax(keys)])
  }

  /**
   * `_get_latest_release()` on the fetched manifest: Err when the fetch
   * raised, the manifest is not a dict or its releases are not a list;
   * otherwise the choice among the releases, `current_version` defaulting to
   * None and `releases` to an empty list.
   */
  function LatestRelease(fetched: Result<Value>): (r: Result<(Value, Value)>)
    ensures fetched.Err? || !fetched.value.PyDict? ==> r.Err?
    ensures fetched.Ok? && fetched.value.PyDict? ==>
      var data := fetched.value.entries;
      var releases := Get(data, "releases", PyList([]));
      (if releases.PyList? || releases.PyTuple?
       then r == ReleaseFrom(Elements(releases).value, Get(data, "current_version", PyNone))
       else r.Err?)
  {
    if fetched.Err? || !fetched.value.PyDict? then Err("AttributeError")
    else
      var data := fetched.value.entries;
      match Elements(Get(data, "releases", PyList([])))
        case None => Err("releases is not a list")
        case Some(items) => ReleaseFrom(items, Get(data, "current_version", PyNone))
  }

  /** A matching entry wins over every version ordering. */
  lemma ReleaseFromMatch(items: seq<Value>, curr: Value, i: nat)
    requires i < |items| && IsMatch(items[i], curr, Some(PyNone))
    requires forall j :: 0 <= j < i ==> IsMiss(items[j], curr, Some(PyNone))
    ensures ReleaseFrom(items, curr) == VersionAndUrl(items[i])
  {
    FindMatchAt(items, curr, Some(PyNone), i);
  }

  lemma {:induction false} FindMatchAt(items: seq<Value>, curr: Value, default: Option<Value>, i: nat)
    requires i < |items| && IsMatch(items[i], curr, default)
    requires forall j :: 0 <= j < i ==> IsMiss(items[j], curr, default)
    ensures FindMatch(items, curr, default) == Ok(Some(i))
  {
    if i > 0 {
      FindMatchAt(items[1..], curr, default, i - 1);
    }
  }

  /** Entry `i` has a version tuple no other entry's exceeds, and every earlier entry's is smaller. */
  predicate FirstGreatest(items: seq<Value>, i: nat) {
    i < |items| && SortKey(items[i]).Some?
    && (forall j :: 0 <= j < |items| ==>
          SortKey(items[j]).Some? && !TupleLess(SortKey(items[i]).value, SortKey(items[j]).value))
    && (forall j :: 0 <= j < i ==> TupleLess(SortKey(items[j]).value, SortKey(items[i]).value))
  }

  lemma FirstMaxIsFirstGreatest(items: seq<Value>)
    requires SortKeys(items).Ok? && |items| > 0
    ensures FirstGreatest(items, FirstMax(SortKeys(items).value))
  {
    var keys := SortKeys(items).value;
    assert forall j :: 0 <= j < |items| ==> SortKey(items[j]) == Some(keys[j]);
  }

  /** Without a match, a returned entry's version tuple is the greatest, and no earlier entry's is as great. */
  lemma ReleaseFromGreatest(items: seq<Value>, curr: Value)
    requires forall j :: 0 <= j < |items| ==> IsMiss(items[j], curr, Some(PyNone))
    ensures ReleaseFrom(items, curr).Ok? ==>
      exists i: nat :: FirstGreatest(items, i) && ReleaseFrom(items, curr) == VersionAndUrl(items[i])
  {
    assert FindMatch(items, curr, Some(PyNone)) == Ok(None);
    if SortKeys(items).Ok? && |items| > 0 {
      var i := FirstMax(SortKeys(items).value);
      FirstMaxIsFirstGreatest(items);
      assert FirstGreatest(items, i) && ReleaseFrom(items, curr) == VersionAndUrl(items[i]);
    }
  }

  /** `latest["version"], latest["download_url"], latest["description"]`; Err on a missing key. */
  function ReleaseInfo(e: Value): (r: Result<(Value, Value, Value)>)
    ensures r.Ok? <==> e.PyDict? && "version" in e.entries && "download_url" in e.entries && "description" in e.entries
    ensures r.Ok? ==> r.value == (e.entries["version"], e.entries["download_url"], e.entries["description"])
  {
    if e.PyDict? && "version" in e.entries && "download_url" in e.entries && "description" in e.entries
    then Ok((e.entries["version"], e.entries["download_url"], e.entries["description"]))
    else Err("KeyError")
  }

  /**
   * `_get_latest_release_info()` on the fetched manifest: the entry whose
   * version equals `current_version`, else the first listed entry, else
   * ValueError; subscripting raises on any missing key.
   */
  function LatestReleaseInfo(fetched: Result<Value>): (r: Result<(Value, Value, Value)>)
  {
    if fetched.Err? || !fetched.value.PyDict? then Err("TypeError")
    else
      var m := fetched.value.entries;
      if "current_version" !in m || "releases" !in m then Err("KeyError")
      else match Elements(m["releases"])
        case None => Err("releases is not a list")
        case Some(items) =>
          match FindMatch(items, m["current_version"], None)
            case Err(e) => Err(e)
            case Ok(Some(i)) => ReleaseInfo(items[i])
            case Ok(None) =>
              if |items| > 0 then ReleaseInfo(items[0]) else Err("No releases found in manifest")
  }

  /** The matching entry is reported; without one, the first listed entry; with no entry, an error. */
  lemma LatestReleaseInfoChoice(m: map<string, Value>, items: seq<Value>)
    requires "current_version" in m && "releases" in m && m["releases"] == PyList(items)
    ensures var r := LatestReleaseInfo(Ok(PyDict(m)));
      var found := FindMatch(items, m["current_version"], None);
      (found.Err? ==> r.Err?)
      && (found.Ok? && found.value.Some? ==> r == ReleaseInfo(items[found.value.value]))
      && (found.Ok? && found.value.None? && |items| > 0 ==> r == ReleaseInfo(items[0]))
      && (|items| == 0 ==> r.Err?)
  {
  }

  /**
   * `_local_version()`: the persisted optionVar when set (`None` when unset
   * or unreadable), else a truthy manifest `current_version` (a failed fetch
   * or a non-dict manifest is skipped), else the package `__version__`.
   */
  function LocalVersion(optionVar: Option<Value>, fetched: Result<Value>, packageVersion: Value): (r: Value)
    ensures optionVar.Some? ==> r == optionVar.value
    ensures optionVar.None? && fetched.Ok? && fetched.value.PyDict?
      && Truthy(Get(fetched.value.entries, "current_version", PyNone))
      ==> r == fetched.value.entries["current_version"]
    ensures r == packageVersion || (optionVar.Some? && r == optionVar.value)
      || (fetched.Ok? && fetched.value.PyDict? && "current_version" in fetched.value.entries
          && r == fetched.value.entries["current_version"] && Truthy(r))
  {
    if optionVar.Some? then optionVar.value
    else if fetched.Ok? && fetched.value.PyDict? && Truthy(Get(fetched.value.entries, "current_version", PyNone))
    then fetched.value.entries["current_version"]
    else packageVersion
  }
}
