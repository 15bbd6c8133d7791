/**
 * `prof/core/tools/dev_prefs.py`: the `ProfToolsPrefs` object, a preferences
 * dict persisted to `prof_tools_prefs.json` plus a separately persisted
 * temporary-install record in `temp_install.json`. The two files are fields
 * holding what each file contains; the clock is a `now` parameter. The
 * read-only methods are functions of the preferences dict.
 */
module DevPrefs {
  import opened Wrappers
  import opened PyValue
  import opened DateText
  import RubricCommon

  /** What a JSON file holds: nothing, something `json.load` rejects, or a document. */
  datatype Stored = Missing | Unreadable | Json(doc: Value)

  /** The `temp_install` record with nothing installed. */
  const ClearedRecord: Value :=
    PyDict(map["enabled" := PyBool(false), "version" := PyNone, "stable_version" := PyNone, "install_date" := PyNone])

  /** The defaults of `_load_prefs`. */
  const Defaults: map<string, Value> :=
    map["dev_mode_enabled" := PyBool(false), "auto_check_enabled" := PyBool(false),
        "check_interval_days" := PyInt(7), "last_check_date" := PyNone,
        "include_test_versions" := PyBool(false), "temp_install" := ClearedRecord]

  /**
   * What `_load_prefs` ends with: the preferences, the TypeError that
   * `defaults.update` raises and nothing catches, or a document beyond the
   * model (a pair with a key that is not a string, or a two-key object used
   * as a pair, whose key order a map does not keep).
   */
  datatype LoadOutcome = Prefs(value: map<string, Value>) | UpdateRaises | BeyondModel

  /** One element of a sequence given to `dict.update`, as a key/value pair. */
  datatype PairOutcome = Pair(key: string, val: Value) | WrongLength | NotPair | OtherKey

  /**
   * How `dict.update` reads one element of a sequence: a two-item sequence is
   * a key and a value (a two-character string gives two one-character
   * strings); any other length raises ValueError; a scalar is not a
   * sequence and an unhashable key cannot be one, which raises TypeError.
   */
  function PairOf(e: Value): (r: PairOutcome)
    ensures r.Pair? ==> (e.PyStr? && |e.s| == 2) || (e.PyList? && |e.items| == 2) || (e.PyTuple? && |e.elems| == 2)
    ensures r.NotPair? <==> (e.PyNone? || e.PyBool? || e.PyInt? || e.PyFloat?
                             || (e.PyList? && |e.items| == 2 && (e.items[0].PyList? || e.items[0].PyDict?))
                             || (e.PyTuple? && |e.elems| == 2 && (e.elems[0].PyList? || e.elems[0].PyDict?)))
    ensures r.WrongLength? <==> ((e.PyStr? && |e.s| != 2) || (e.PyList? && |e.items| != 2)
                                 || (e.PyTuple? && |e.elems| != 2) || (e.PyDict? && |e.entries| != 2))
  {
    match e
      case PyStr(s) => if |s| == 2 then Pair([s[0]], PyStr([s[1]])) else WrongLength
      case PyList(items) => if |items| == 2 then KeyedPair(items[0], items[1]) else WrongLength
      case PyTuple(elems) => if |elems| == 2 then KeyedPair(elems[0], elems[1]) else WrongLength
      case PyDict(entries) => if |entries| == 2 then OtherKey else WrongLength
      case _ => NotPair
  }

  /** A key and a value: a string key is kept, an unhashable one raises, any other is beyond the model. */
  function KeyedPair(k: Value, v: Value): (r: PairOutcome)
    ensures r.Pair? <==> k.PyStr?
    ensures r.Pair? ==> r == Pair(k.s, v)
    ensures r.NotPair? <==> k.PyList? || k.PyDict?
    ensures !r.WrongLength?
  {
    if k.PyStr? then Pair(k.s, v)
    else if k.PyList? || k.PyDict? then NotPair
    else OtherKey
  }

  /**
   * `acc.update(items)`, one element at a time: each pair is stored as it is
   * read, so a ValueError, which `_load_prefs` catches, keeps the pairs read
   * before it; a TypeError escapes.
   */
  function UpdateWith(acc: map<string, Value>, items: seq<Value>): (r: LoadOutcome)
    ensures items == [] ==> r == Prefs(acc)
    decreases |items|
  {
    if items == [] then Prefs(acc)
    else match PairOf(items[0])
      case Pair(k, v) => UpdateWith(acc[k := v], items[1..])
      case WrongLength => Prefs(acc)
      case NotPair => UpdateRaises
      case OtherKey => BeyondModel
  }

  /**
   * `_load_prefs`: the defaults for a missing or undecodable file; the
   * defaults updated with the top-level keys of a loaded object; the defaults
   * updated pair by pair from a loaded array; the defaults for a loaded
   * string (its first character is a one-character string, a ValueError);
   * and the TypeError of `update` for a number, a boolean or null.
   */
  function LoadPrefs(file: Stored): (r: LoadOutcome)
    ensures file.Missing? || file.Unreadable? ==> r == Prefs(Defaults)
    ensures file.Json? && file.doc.PyDict? ==>
      r.Prefs?
      && (forall k :: k in r.value <==> k in Defaults || k in file.doc.entries)
      && (forall k :: k in file.doc.entries ==> r.value[k] == file.doc.entries[k])
      && (forall k :: k in Defaults && k !in file.doc.entries ==> r.value[k] == Defaults[k])
    ensures file.Json? && file.doc.PyList? ==> r == UpdateWith(Defaults, file.doc.items)
    ensures file.Json? && file.doc.PyStr? ==> r == Prefs(Defaults)
    ensures r == UpdateRaises <==>
      file.Json? && (file.doc.PyNone? || file.doc.PyBool? || file.doc.PyInt? || file.doc.PyFloat?
                     || (file.doc.PyList? && UpdateWith(Defaults, file.doc.items) == UpdateRaises)
                     || (file.doc.PyTuple? && UpdateWith(Defaults, file.doc.elems) == UpdateRaises))
  {
    match file
      case Missing => Prefs(Defaults)
      case Unreadable => Prefs(Defaults)
      case Json(doc) =>
        match doc
          case PyDict(entries) => Prefs(Defaults + entries)
          case PyList(items) => UpdateWith(Defaults, items)
          case PyTuple(elems) => UpdateWith(Defaults, elems)
          case PyStr(s) => UpdateWith(Defaults, seq(|s|, i requires 0 <= i < |s| => PyStr([s[i]])))
          case _ => UpdateRaises
  }

  /** Updating with string-keyed pairs stores the last pair over what the earlier ones left. */
  lemma {:induction false} UpdateLastWins(acc: map<string, Value>, items: seq<Value>)
    requires |items| >= 1 && forall i :: 0 <= i < |items| ==> PairOf(items[i]).Pair?
    ensures var last := PairOf(items[|items| - 1]);
      UpdateWith(acc, items[..|items| - 1]).Prefs?
      && UpdateWith(acc, items) == Prefs(UpdateWith(acc, items[..|items| - 1]).value[last.key := last.val])
    decreases |items|
  {
    var p := PairOf(items[0]);
    if |items| > 1 {
      UpdateLastWins(acc[p.key := p.val], items[1..]);
      assert items[1..][..|items[1..]| - 1] == items[..|items| - 1][1..];
    }
  }

  /** Updating with string-keyed pairs gives exactly the earlier keys and the pairs' keys. */
  lemma {:induction false} UpdateWithPairs(acc: map<string, Value>, items: seq<Value>)
    requires forall i :: 0 <= i < |items| ==> PairOf(items[i]).Pair?
    ensures UpdateWith(acc, items).Prefs?
    ensures forall k :: k in UpdateWith(acc, items).value <==> k in acc || exists i :: 0 <= i < |items| && PairOf(items[i]).key == k
    decreases |items|
  {
    if items != [] {
      var p := PairOf(items[0]);
      UpdateWithPairs(acc[p.key := p.val], items[1..]);
      forall k ensures k in UpdateWith(acc, items).value <==> k in acc || exists i :: 0 <= i < |items| && PairOf(items[i]).key == k {
        if exists i :: 0 <= i < |items[1..]| && PairOf(items[1..][i]).key == k {
          var i :| 0 <= i < |items[1..]| && PairOf(items[1..][i]).key == k;
          assert PairOf(items[i + 1]).key == k;
        }
        if exists i :: 0 <= i < |items| && PairOf(items[i]).key == k {
          var i :| 0 <= i < |items| && PairOf(items[i]).key == k;
          if i > 0 {
            assert PairOf(items[1..][i - 1]).key == k;
          }
        }
      }
    }
  }

  /** A ValueError part-way keeps exactly the pairs read before it. */
  lemma {:induction false} UpdateStopsAtWrongLength(acc: map<string, Value>, items: seq<Value>, j: nat)
    requires j < |items| && PairOf(items[j]).WrongLength?
    requires forall i :: 0 <= i < j ==> PairOf(items[i]).Pair?
    ensures UpdateWith(acc, items) == UpdateWith(acc, items[..j])
    decreases j
  {
    if j > 0 {
      var p := PairOf(items[0]);
      assert items[1..][..j - 1] == items[..j][1..];
      UpdateStopsAtWrongLength(acc[p.key := p.val], items[1..], j - 1);
    }
  }

  /** A loaded string never changes the defaults: its first character is not a pair. */
  lemma StringKeepsDefaults(s: string)
    ensures LoadPrefs(Json(PyStr(s))) == Prefs(Defaults)
  {
  }

  /** `[["dev_mode_enabled", true], "abc", ["auto_check_enabled", true]]` turns on dev mode only. */
  lemma ArraySample()
    ensures LoadPrefs(Json(PyList([PyList([PyStr("dev_mode_enabled"), PyBool(true)]), PyStr("abc"),
                                   PyList([PyStr("auto_check_enabled"), PyBool(true)])])))
            == Prefs(Defaults["dev_mode_enabled" := PyBool(true)])
  {
    var items := [PyList([PyStr("dev_mode_enabled"), PyBool(true)]), PyStr("abc"),
                  PyList([PyStr("auto_check_enabled"), PyBool(true)])];
    assert PairOf(items[0]) == Pair("dev_mode_enabled", PyBool(true));
    assert PairOf(items[1]) == WrongLength;
    UpdateStopsAtWrongLength(Defaults, items, 1);
    assert items[..1][1..] == [];
  }

  /** A number, a boolean or null at the top level makes `update` raise TypeError. */
  lemma ScalarRaises(doc: Value)
    requires doc.PyNone? || doc.PyBool? || doc.PyInt? || doc.PyFloat?
    ensures LoadPrefs(Json(doc)) == UpdateRaises
  {
  }

  /** Loading the file a save wrote gives back the saved preferences whenever they hold every default key. */
  lemma LoadSaved(prefs: map<string, Value>)
    requires Defaults.Keys <= prefs.Keys
    ensures LoadPrefs(Json(PyDict(prefs))) == Prefs(prefs)
  {
    assert Defaults + prefs == prefs;
  }

  function IsDevModeEnabled(prefs: map<string, Value>): Value {
    Get(prefs, "dev_mode_enabled", PyBool(false))
  }

  function IsAutoCheckEnabled(prefs: map<string, Value>): Value {
    Get(prefs, "auto_check_enabled", PyBool(false))
  }

  function CheckIntervalDays(prefs: map<string, Value>): Value {
    Get(prefs, "check_interval_days", PyInt(7))
  }

  function IncludesTestVersions(prefs: map<string, Value>): Value {
    Get(prefs, "include_test_versions", PyBool(false))
  }

  /** The preferences after `toggle_dev_mode`. */
  function Toggled(prefs: map<string, Value>): (r: map<string, Value>)
    ensures IsDevModeEnabled(r) == PyBool(!Truthy(IsDevModeEnabled(prefs)))
    ensures forall k :: k != "dev_mode_enabled" ==> (k in r <==> k in prefs) && (k in prefs ==> r[k] == prefs[k])
  {
    prefs["dev_mode_enabled" := PyBool(!Truthy(IsDevModeEnabled(prefs)))]
  }

  /** Toggling twice restores the mode, as a bool. */
  lemma ToggleTwice(prefs: map<string, Value>)
    ensures Truthy(IsDevModeEnabled(Toggled(Toggled(prefs)))) == Truthy(IsDevModeEnabled(prefs))
    ensures Toggled(Toggled(Toggled(prefs))) == Toggled(prefs)
  {
  }

  /**
   * `get_last_check_date`: None for a falsy stored value or text that is not
   * a stored date; Err for a truthy value that is not text, on which
   * `fromisoformat` raises TypeError.
   */
  function LastCheckDate(prefs: map<string, Value>): (r: Result<Option<DateTime>>)
    ensures r.Ok? && r.value.Some? ==> ValidDateTime(r.value.value)
    ensures r.Err? <==> Truthy(Get(prefs, "last_check_date", PyNone)) && !Get(prefs, "last_check_date", PyNone).PyStr?
  {
    var stored := Get(prefs, "last_check_date", PyNone);
    if !Truthy(stored) then Ok(None)
    else if !stored.PyStr? then Err("TypeError")
    else Ok(Parse(stored.s))
  }

  /** Microseconds in a day. */
  const DayMicros := 86_400_000_000

  /** `timedelta.max.days`; `timedelta.min` is minus this many whole days. */
  const MaxDeltaDays := 999_999_999

  /**
   * `timedelta(days=d)` in microseconds: `d` days rounded half to even to the
   * microsecond, a TypeError for a value that is not a number, and an
   * OverflowError below `timedelta.min` or above `timedelta.max`.
   */
  function IntervalMicros(days: Value): (r: Result<int>)
    ensures !IsNumber(days) ==> r == Err("TypeError")
    ensures IsNumber(days) && r.Err? ==> r == Err("OverflowError")
    ensures r.Ok? ==> -MaxDeltaDays * DayMicros <= r.value < (MaxDeltaDays + 1) * DayMicros
    ensures r.Ok? ==> NumOf(days) * DayMicros as real - 0.5 <= r.value as real <= NumOf(days) * DayMicros as real + 0.5
  {
    if !IsNumber(days) then Err("TypeError")
    else
      var micros := RubricCommon.RoundHalfEven(NumOf(days) * DayMicros as real);
      if -MaxDeltaDays * DayMicros <= micros < (MaxDeltaDays + 1) * DayMicros then Ok(micros)
      else Err("OverflowError")
  }

  /**
   * Any number of days from `-999999999` to `999999999`, whole or not, makes
   * a timedelta; from `1000000000` up or from `-1000000000` down it overflows.
   */
  lemma IntervalRange(days: Value)
    requires IsNumber(days)
    ensures -MaxDeltaDays as real <= NumOf(days) <= MaxDeltaDays as real ==> IntervalMicros(days).Ok?
    ensures NumOf(days) >= (MaxDeltaDays + 1) as real || NumOf(days) <= -(MaxDeltaDays + 1) as real ==>
      IntervalMicros(days) == Err("OverflowError")
  {
    var y := NumOf(days) * DayMicros as real;
    var micros := RubricCommon.RoundHalfEven(y);
    if -MaxDeltaDays as real <= NumOf(days) <= MaxDeltaDays as real {
      assert -MaxDeltaDays * DayMicros - 1 < micros <= MaxDeltaDays * DayMicros;
    }
    if NumOf(days) >= (MaxDeltaDays + 1) as real {
      assert micros >= (MaxDeltaDays + 1) * DayMicros;
    }
    if NumOf(days) <= -(MaxDeltaDays + 1) as real {
      assert micros < -MaxDeltaDays * DayMicros;
    }
  }

  /** A whole number of days is exact: `d` days from `-999999999` to `999999999`, an OverflowError otherwise. */
  lemma WholeDayInterval(d: int)
    ensures IntervalMicros(PyInt(d)).Ok? <==> -MaxDeltaDays <= d <= MaxDeltaDays
    ensures IntervalMicros(PyInt(d)).Ok? ==> IntervalMicros(PyInt(d)).value == d * DayMicros
    ensures IntervalMicros(PyInt(d)).Err? ==> IntervalMicros(PyInt(d)) == Err("OverflowError")
  {
    IntervalRange(PyInt(d));
    var y := NumOf(PyInt(d)) * DayMicros as real;
    assert y == (d * DayMicros) as real;
    assert RubricCommon.RoundHalfEven(y) == d * DayMicros;
  }

  /**
   * `should_check_for_updates` at time `now`: False while auto-check is off,
   * True when no check is recorded, else whether the interval has elapsed;
   * the errors of reading the date and of building the interval propagate.
   */
  function ShouldCheckForUpdates(prefs: map<string, Value>, now: DateTime): (r: Result<bool>)
    requires ValidDateTime(now)
    ensures !Truthy(IsAutoCheckEnabled(prefs)) ==> r == Ok(false)
    ensures Truthy(IsAutoCheckEnabled(prefs)) && LastCheckDate(prefs) == Ok(None) ==> r == Ok(true)
    ensures Truthy(IsAutoCheckEnabled(prefs)) && LastCheckDate(prefs).Err? ==> r == Err(LastCheckDate(prefs).error)
    ensures Truthy(IsAutoCheckEnabled(prefs)) && LastCheckDate(prefs).Ok? && LastCheckDate(prefs).value.Some?
              && IntervalMicros(CheckIntervalDays(prefs)).Ok? ==>
      r == Ok((Seconds(now) - Seconds(LastCheckDate(prefs).value.value)) * 1_000_000
              >= IntervalMicros(CheckIntervalDays(prefs)).value)
    ensures Truthy(IsAutoCheckEnabled(prefs)) && LastCheckDate(prefs).Ok? && LastCheckDate(prefs).value.Some?
              && IntervalMicros(CheckIntervalDays(prefs)).Err? ==>
      r == Err(IntervalMicros(CheckIntervalDays(prefs)).error)
  {
    if !Truthy(IsAutoCheckEnabled(prefs)) then Ok(false)
    else match LastCheckDate(prefs)
      case Err(e) => Err(e)
      case Ok(None) => Ok(true)
      case Ok(Some(last)) =>
        match IntervalMicros(CheckIntervalDays(prefs))
          case Err(e) => Err(e)
          case Ok(interval) => Ok((Seconds(now) - Seconds(last)) * 1_000_000 >= interval)
  }

  /**
   * Right after recording a check at `now`, no check is due at `now` for an
   * interval of more than half a microsecond; an interval past
   * `timedelta.max` raises instead.
   */
  lemma NoCheckRightAfterRecording(prefs: map<string, Value>, now: DateTime)
    requires ValidDateTime(now)
    requires IsNumber(CheckIntervalDays(prefs)) && NumOf(CheckIntervalDays(prefs)) * DayMicros as real > 0.5
    ensures IntervalMicros(CheckIntervalDays(prefs)).Ok? ==>
      ShouldCheckForUpdates(prefs["last_check_date" := PyStr(Format(now))], now) == Ok(false)
    ensures IntervalMicros(CheckIntervalDays(prefs)).Err? && Truthy(IsAutoCheckEnabled(prefs)) ==>
      ShouldCheckForUpdates(prefs["last_check_date" := PyStr(Format(now))], now) == Err("OverflowError")
  {
    RecordedCheck(prefs, now);
    if Truthy(IsAutoCheckEnabled(prefs)) {
      CheckDueAfterInterval(prefs, now, now);
    }
  }

  /** An interval below half a microsecond rounds to zero, so with auto-check on a check is due at once. */
  lemma SubMicrosecondIntervalIsDue(prefs: map<string, Value>, now: DateTime)
    requires ValidDateTime(now) && Truthy(IsAutoCheckEnabled(prefs))
    requires IsNumber(CheckIntervalDays(prefs))
    requires 0.0 <= NumOf(CheckIntervalDays(prefs)) * DayMicros as real < 0.5
    ensures ShouldCheckForUpdates(prefs["last_check_date" := PyStr(Format(now))], now) == Ok(true)
  {
    CheckDueAfterInterval(prefs, now, now);
    var micros := RubricCommon.RoundHalfEven(NumOf(CheckIntervalDays(prefs)) * DayMicros as real);
    assert micros == 0;
    assert IntervalMicros(CheckIntervalDays(prefs)) == Ok(0);
  }

  /**
   * With auto-check on, a check recorded at `last` is due at `now` exactly
   * when the interval has passed, and raises when the interval cannot be built.
   */
  lemma CheckDueAfterInterval(prefs: map<string, Value>, last: DateTime, now: DateTime)
    requires ValidDateTime(last) && ValidDateTime(now)
    requires Truthy(IsAutoCheckEnabled(prefs))
    ensures var after := prefs["last_check_date" := PyStr(Format(last))];
      var interval := IntervalMicros(CheckIntervalDays(prefs));
      ShouldCheckForUpdates(after, now)
        == if interval.Ok? then Ok((Seconds(now) - Seconds(last)) * 1_000_000 >= interval.value)
           else Err(interval.error)
  {
    RecordedCheck(prefs, last);
  }

  /** Recording a check at `last` makes `last` the last check date and leaves the other settings alone. */
  lemma RecordedCheck(prefs: map<string, Value>, last: DateTime)
    requires ValidDateTime(last)
    ensures var after := prefs["last_check_date" := PyStr(Format(last))];
      && LastCheckDate(after) == Ok(Some(last))
      && CheckIntervalDays(after) == CheckIntervalDays(prefs)
      && IsAutoCheckEnabled(after) == IsAutoCheckEnabled(prefs)
  {
    var text := Format(last);
    var after := prefs["last_check_date" := PyStr(text)];
    ParseFormat(last);
    assert Get(after, "last_check_date", PyNone) == PyStr(text);
    assert Truthy(PyStr(text)) by { assert |text| == 19; }
    assert LastCheckDate(after) == Ok(Parse(text));
    assert "check_interval_days" != "last_check_date" && "auto_check_enabled" != "last_check_date";
  }

  /**
   * For a whole number `d` of days: due once `d` days have passed when `d` is
   * within `timedelta`'s range, an OverflowError otherwise (as for
   * `set_check_interval_days(1000000000)`).
   */
  lemma WholeDaysDue(prefs: map<string, Value>, last: DateTime, now: DateTime, d: int)
    requires ValidDateTime(last) && ValidDateTime(now)
    requires Truthy(IsAutoCheckEnabled(prefs)) && CheckIntervalDays(prefs) == PyInt(d)
    ensures -MaxDeltaDays <= d <= MaxDeltaDays ==>
      ShouldCheckForUpdates(prefs["last_check_date" := PyStr(Format(last))], now)
        == Ok(Seconds(now) - Seconds(last) >= d * 86400)
    ensures !(-MaxDeltaDays <= d <= MaxDeltaDays) ==>
      ShouldCheckForUpdates(prefs["last_check_date" := PyStr(Format(last))], now) == Err("OverflowError")
  {
    CheckDueAfterInterval(prefs, last, now);
    WholeDayInterval(d);
  }

  /** The `temp_install` record `set_temp_install` writes. */
  function TempRecord(version: Value, stableVersion: Value, now: DateTime): Value
    requires ValidDateTime(now)
  {
    PyDict(map["enabled" := PyBool(true), "version" := version, "stable_version" := stableVersion,
               "install_date" := PyStr(Format(now))])
  }

  /** `get_temp_install_info`. */
  function TempInstallInfo(prefs: map<string, Value>): Value {
    Get(prefs, "temp_install", PyDict(map[]))
  }

  /** `is_temp_install_active`; Err when the record is not a dict and `.get` raises. */
  function IsTempInstallActive(prefs: map<string, Value>): (r: Result<Value>)
    ensures r.Ok? <==> TempInstallInfo(prefs).PyDict?
    ensures "temp_install" !in prefs ==> r == Ok(PyBool(false))
  {
    var info := TempInstallInfo(prefs);
    if info.PyDict? then Ok(Get(info.entries, "enabled", PyBool(false))) else Err("AttributeError")
  }

  /**
   * The decision of `check_and_revert_temp_install` on the temp file: True
   * (and the record is cleared) only for an enabled record with a truthy
   * stable version; Err for a document without `.get`.
   */
  function RevertDecision(temp: Stored): (r: Result<bool>)
    ensures temp.Missing? || temp.Unreadable? ==> r == Ok(false)
    ensures r == Ok(true) <==> (temp.Json? && temp.doc.PyDict?
                                && Truthy(Get(temp.doc.entries, "enabled", PyBool(false)))
                                && Truthy(Get(temp.doc.entries, "stable_version", PyNone)))
    ensures r.Err? <==> temp.Json? && !temp.doc.PyDict?
  {
    match temp
      case Missing => Ok(false)
      case Unreadable => Ok(false)
      case Json(doc) =>
        if !doc.PyDict? then Err("AttributeError")
        else Ok(Truthy(Get(doc.entries, "enabled", PyBool(false)))
                && Truthy(Get(doc.entries, "stable_version", PyNone)))
  }

  /** A record set up with a truthy stable version is reverted at the next start; one without is kept. */
  lemma RevertAfterSet(version: Value, stableVersion: Value, now: DateTime)
    requires ValidDateTime(now)
    ensures RevertDecision(Json(TempRecord(version, stableVersion, now))) == Ok(Truthy(stableVersion))
  {
  }

  class ProfToolsPrefs {
    var prefs: map<string, Value>
    /** What `prof_tools_prefs.json` holds. */
    var prefsFile: Stored
    /** What `temp_install.json` holds. */
    var tempFile: Stored

    /** The object `__init__` builds once `_load_prefs()` has given `loaded`. */
    constructor(loaded: map<string, Value>, prefsFile0: Stored, tempFile0: Stored)
      ensures prefs == loaded && prefsFile == prefsFile0 && tempFile == tempFile0
    {
      prefs := loaded;
      prefsFile := prefsFile0;
      tempFile := tempFile0;
    }

    /**
     * `ProfToolsPrefs()` over the two files as found: None where
     * `_load_prefs` raises (or the file is beyond the model), else the
     * object holding `_load_prefs()`.
     */
    static method New(prefsFile0: Stored, tempFile0: Stored) returns (r: Option<ProfToolsPrefs>)
      ensures r.Some? <==> LoadPrefs(prefsFile0).Prefs?
      ensures r.Some? ==> fresh(r.value) && r.value.prefs == LoadPrefs(prefsFile0).value
                          && r.value.prefsFile == prefsFile0 && r.value.tempFile == tempFile0
    {
      var loaded := LoadPrefs(prefsFile0);
      if !loaded.Prefs? {
        return None;
      }
      var p := new ProfToolsPrefs(loaded.value, prefsFile0, tempFile0);
      r := Some(p);
    }

    /** `_save_prefs`. */
    method SavePrefs()
      modifies this
      ensures prefs == old(prefs) && tempFile == old(tempFile)
      ensures prefsFile == Json(PyDict(prefs))
    {
      prefsFile := Json(PyDict(prefs));
    }

    method SetDevModeEnabled(enabled: Value)
      modifies this
      ensures prefs == old(prefs)["dev_mode_enabled" := PyBool(Truthy(enabled))]
      ensures prefsFile == Json(PyDict(prefs)) && tempFile == old(tempFile)
    {
      prefs := prefs["dev_mode_enabled" := PyBool(Truthy(enabled))];
      SavePrefs();
    }

    /** `toggle_dev_mode`: flips the mode and returns the new one. */
    method ToggleDevMode() returns (newState: bool)
      modifies this
      ensures newState == !Truthy(IsDevModeEnabled(old(prefs)))
      ensures prefs == Toggled(old(prefs)) && IsDevModeEnabled(prefs) == PyBool(newState)
      ensures prefsFile == Json(PyDict(prefs)) && tempFile == old(tempFile)
    {
      newState := !Truthy(IsDevModeEnabled(prefs));
      SetDevModeEnabled(PyBool(newState));
    }

    method SetAutoCheckEnabled(enabled: Value)
      modifies this
      ensures prefs == old(prefs)["auto_check_enabled" := PyBool(Truthy(enabled))]
      ensures prefsFile == Json(PyDict(prefs)) && tempFile == old(tempFile)
    {
      prefs := prefs["auto_check_enabled" := PyBool(Truthy(enabled))];
      SavePrefs();
    }

    /** `set_check_interval_days`: stores `int(days)`; when `int()` raises nothing changes. */
    method SetCheckIntervalDays(days: Value) returns (ok: bool)
      modifies this
      ensures ok <==> IntOf(days).Some?
      ensures ok ==> prefs == old(prefs)["check_interval_days" := PyInt(IntOf(days).value)]
                     && prefsFile == Json(PyDict(prefs)) && tempFile == old(tempFile)
      ensures !ok ==> prefs == old(prefs) && prefsFile == old(prefsFile) && tempFile == old(tempFile)
    {
      var n := IntOf(days);
      if n.None? {
        return false;
      }
      prefs := prefs["check_interval_days" := PyInt(n.value)];
      SavePrefs();
      ok := true;
    }

    /** `set_last_check_date(date)`, `date` defaulting to `now`. */
    method SetLastCheckDate(date: Option<DateTime>, now: DateTime)
      requires ValidDateTime(now) && (date.Some? ==> ValidDateTime(date.value))
      modifies this
      ensures var d := if date.Some? then date.value else now;
        prefs == old(prefs)["last_check_date" := PyStr(Format(d))] && LastCheckDate(prefs) == Ok(Some(d))
      ensures prefsFile == Json(PyDict(prefs)) && tempFile == old(tempFile)
    {
      var d := if date.Some? then date.value else now;
      prefs := prefs["last_check_date" := PyStr(Format(d))];
      ParseFormat(d);
      SavePrefs();
    }

    method SetIncludeTestVersions(including: Value)
      modifies this
      ensures prefs == old(prefs)["include_test_versions" := PyBool(Truthy(including))]
      ensures prefsFile == Json(PyDict(prefs)) && tempFile == old(tempFile)
    {
      prefs := prefs["include_test_versions" := PyBool(Truthy(including))];
      SavePrefs();
    }

    /** `set_temp_install`: the record goes to the prefs and, alone, to the temp file. */
    method SetTempInstall(version: Value, stableVersion: Value, now: DateTime)
      requires ValidDateTime(now)
      modifies this
      ensures prefs == old(prefs)["temp_install" := TempRecord(version, stableVersion, now)]
      ensures IsTempInstallActive(prefs) == Ok(PyBool(true))
      ensures prefsFile == Json(PyDict(prefs)) && tempFile == Json(TempRecord(version, stableVersion, now))
    {
      prefs := prefs["temp_install" := TempRecord(version, stableVersion, now)];
      SavePrefs();
      tempFile := Json(prefs["temp_install"]);
    }

    /** `clear_temp_install`: an inactive record, and no temp file. */
    method ClearTempInstall()
      modifies this
      ensures prefs == old(prefs)["temp_install" := ClearedRecord]
      ensures IsTempInstallActive(prefs) == Ok(PyBool(false))
      ensures prefsFile == Json(PyDict(prefs)) && tempFile == Missing
    {
      prefs := prefs["temp_install" := ClearedRecord];
      SavePrefs();
      tempFile := Missing;
    }

    /**
     * `check_and_revert_temp_install`: clears the record when the temp file
     * asks for a revert and reports whether it did; it installs nothing.
     */
    method CheckAndRevertTempInstall() returns (r: Result<bool>)
      modifies this
      ensures r == RevertDecision(old(tempFile))
      ensures r == Ok(true) ==> prefs == old(prefs)["temp_install" := ClearedRecord]
                                && prefsFile == Json(PyDict(prefs)) && tempFile == Missing
      ensures r != Ok(true) ==> prefs == old(prefs) && prefsFile == old(prefsFile) && tempFile == old(tempFile)
    {
      if tempFile.Missing? || tempFile.Unreadable? {
        return Ok(false);
      }
      var info := tempFile.doc;
      if !info.PyDict? {
        return Err("AttributeError");
      }
      if Truthy(Get(info.entries, "enabled", PyBool(false))) {
        var stableVersion := Get(info.entries, "stable_version", PyNone);
        if Truthy(stableVersion) {
          ClearTempInstall();
          return Ok(true);
        }
      }
      r := Ok(false);
    }
  }
}
