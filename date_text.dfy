/**
 * Naive `datetime` values as the preferences store them: the text written by
 * `strftime("%Y-%m-%d %H:%M:%S")`, read back by `fromisoformat`/`strptime`,
 * and the difference of two datetimes in seconds.
 */
module DateText {
  import opened Wrappers
  import opened PyText

  datatype DateTime = DateTime(year: int, month: int, day: int, hour: int, minute: int, second: int)

  predicate IsLeap(y: int) { y % 4 == 0 && (y % 100 != 0 || y % 400 == 0) }

  function DaysInMonth(y: int, m: int): (r: int)
    requires 1 <= m <= 12
    ensures 28 <= r <= 31
  {
    if m == 2 then (if IsLeap(y) then 29 else 28)
    else if m == 4 || m == 6 || m == 9 || m == 11 then 30
    else 31
  }

  /** The range `datetime` accepts for each field. */
  predicate ValidDateTime(d: DateTime) {
    1 <= d.year <= 9999 && 1 <= d.month <= 12 && 1 <= d.day <= DaysInMonth(d.year, d.month)
    && 0 <= d.hour < 24 && 0 <= d.minute < 60 && 0 <= d.second < 60
  }

  /** Days in the months of year `y` before month `m`. */
  function DaysBeforeMonth(y: int, m: int): (r: nat)
    requires 1 <= m <= 12
    ensures m > 1 ==> r == DaysBeforeMonth(y, m - 1) + DaysInMonth(y, m - 1)
  {
    if m == 1 then 0 else DaysBeforeMonth(y, m - 1) + DaysInMonth(y, m - 1)
  }

  /** `date.toordinal()`: 1 for 0001-01-01 in the proleptic Gregorian calendar. */
  function Ordinal(d: DateTime): (r: int)
    requires ValidDateTime(d)
    ensures r >= 1
  {
    var y := d.year - 1;
    365 * y + y / 4 - y / 100 + y / 400 + DaysBeforeMonth(d.year, d.month) + d.day
  }

  /** Seconds since 0001-01-01 00:00:00, the measure `datetime` subtraction uses. */
  function Seconds(d: DateTime): (r: int)
    requires ValidDateTime(d)
    ensures (r - d.second) % 60 == 0
  {
    var minutes := Ordinal(d) * 1440 + d.hour * 60 + d.minute;
    assert (minutes * 60) % 60 == 0;
    minutes * 60 + d.second
  }

  // ---------------------------------------------------------------------------
  // text
  // ---------------------------------------------------------------------------

  /** `strftime("%Y-%m-%d %H:%M:%S")` of a valid datetime. */
  function Format(d: DateTime): (r: string)
    requires ValidDateTime(d)
    ensures |r| == 19
  {
    Pad(d.year, 4) + "-" + Pad(d.month, 2) + "-" + Pad(d.day, 2) + " "
    + Pad(d.hour, 2) + ":" + Pad(d.minute, 2) + ":" + Pad(d.second, 2)
  }

  /** The positions of the separators in "YYYY-MM-DD HH:MM:SS". */
  predicate Shaped(s: string) {
    |s| == 19 && s[4] == '-' && s[7] == '-' && s[10] == ' ' && s[13] == ':' && s[16] == ':'
    && AllDigits(s[0..4]) && AllDigits(s[5..7]) && AllDigits(s[8..10])
    && AllDigits(s[11..13]) && AllDigits(s[14..16]) && AllDigits(s[17..19])
  }

  function Fields(s: string): DateTime
    requires Shaped(s)
  {
    DateTime(DigitsValue(s[0..4]), DigitsValue(s[5..7]), DigitsValue(s[8..10]),
             DigitsValue(s[11..13]), DigitsValue(s[14..16]), DigitsValue(s[17..19]))
  }

  /**
   * `get_last_check_date` reading a stored text: `fromisoformat`, and where
   * it raises, `strptime(s, "%Y-%m-%d %H:%M:%S")`; None where both raise.
   */
  function Parse(s: string): (r: Option<DateTime>)
    ensures r.Some? ==> ValidDateTime(r.value)
    ensures FromIsoFormat(s).Some? ==> r == FromIsoFormat(s)
    ensures FromIsoFormat(s).None? ==> r == Strptime(s)
  {
    match FromIsoFormat(s)
      case Some(d) => Some(d)
      case None => Strptime(s)
  }

  // ---------------------------------------------------------------------------
  // datetime.fromisoformat, as Python 3.7 to 3.10 read it
  // ---------------------------------------------------------------------------

  /** The text starts with "YYYY-MM-DD" in ASCII digits. */
  predicate IsoDate(s: string) {
    |s| >= 10 && s[4] == '-' && s[7] == '-' && AllDigits(s[0..4]) && AllDigits(s[5..7]) && AllDigits(s[8..10])
  }

  /**
   * `fromisoformat`: a date "YYYY-MM-DD", then optionally any one separator
   * character and a time; the fields must name an existing date and time.
   */
  function FromIsoFormat(s: string): (r: Option<DateTime>)
    ensures r.Some? ==> ValidDateTime(r.value) && IsoDate(s)
    ensures r.Some? ==> r.value.year == DigitsValue(s[0..4]) && r.value.month == DigitsValue(s[5..7])
                        && r.value.day == DigitsValue(s[8..10])
  {
    if !IsoDate(s) then None
    else
      var time := if |s| == 10 then Some([0, 0, 0]) else IsoTime(s[11..]);
      match time
        case None => None
        case Some(t) =>
          var d := DateTime(DigitsValue(s[0..4]), DigitsValue(s[5..7]), DigitsValue(s[8..10]), t[0], t[1], t[2]);
          if ValidDateTime(d) then Some(d) else None
  }

  /**
   * The time part: hour, minute and second, missing ones 0. A '+' or '-'
   * starts a UTC offset, which is not read here.
   */
  function IsoTime(t: string): (r: Option<seq<nat>>)
    ensures r.Some? ==> |r.value| == 3
  {
    if '+' in t || '-' in t then None else IsoTimeFields(t, [])
  }

  /**
   * `HH[:MM[:SS]]` after the fields `acc` already read: two digits, then the
   * end, a ':' and the next field, or a fraction of three or six digits after
   * a '.' (after the seconds, after a ':' as well), which is dropped.
   */
  function IsoTimeFields(t: string, acc: seq<nat>): (r: Option<seq<nat>>)
    requires |acc| < 3
    ensures r.Some? ==> |r.value| == 3 && r.value[..|acc|] == acc
    decreases |t|
  {
    if |t| < 2 || !AllDigits(t[..2]) then None
    else
      var v := acc + [DigitsValue(t[..2])];
      if |t| == 2 then Some(ZeroFill(v))
      else if t[2] == ':' && |v| < 3 then IsoTimeFields(t[3..], v)
      else if (t[2] == '.' || t[2] == ':') && IsoFraction(t[3..]) then Some(ZeroFill(v))
      else None
  }

  /** Fields read so far, the missing ones 0. */
  function ZeroFill(v: seq<nat>): (r: seq<nat>)
    requires 1 <= |v| <= 3
    ensures |r| == 3 && r[..|v|] == v
  {
    v + seq(3 - |v|, _ => 0)
  }

  /** ".fff" or ".ffffff" without the point. */
  predicate IsoFraction(f: string) { (|f| == 3 || |f| == 6) && AllDigits(f) }

  // ---------------------------------------------------------------------------
  // datetime.strptime(s, "%Y-%m-%d %H:%M:%S")
  // ---------------------------------------------------------------------------

  /** The number of ASCII digits `t` starts with. */
  function DigitRun(t: string): (r: nat)
    ensures r <= |t| && AllDigits(t[..r]) && (r < |t| ==> !IsAsciiDigit(t[r]))
  {
    if t == [] || !IsAsciiDigit(t[0]) then 0
    else
      var r := 1 + DigitRun(t[1..]);
      assert t[..r] == [t[0]] + t[1..][..r - 1];
      r
  }

  /** The number of whitespace characters `t` starts with. */
  function SpaceRun(t: string): (r: nat)
    ensures r <= |t| && (r < |t| ==> !IsSpace(t[r]))
  {
    if t == [] || !IsSpace(t[0]) then 0 else 1 + SpaceRun(t[1..])
  }

  /**
   * A field of one or two digits followed by `sep`, within [lo, hi]: the
   * regular expression of `%m`, `%H` or `%M` and the separator after it.
   * The field's value and the text after the separator.
   */
  function ShortField(t: string, lo: nat, hi: nat, sep: char): (r: Option<(nat, string)>)
    ensures r.Some? ==> lo <= r.value.0 <= hi && |r.value.1| < |t|
  {
    var k := DigitRun(t);
    if (k == 1 || k == 2) && k < |t| && t[k] == sep && lo <= DigitsValue(t[..k]) <= hi
    then Some((DigitsValue(t[..k]), t[k + 1..]))
    else None
  }

  /**
   * `%d` and the whitespace after it: a field of one or two digits from 1 to
   * 31, or a space and a digit from 1 to 9, then one or more whitespace
   * characters. The day and the text after the whitespace.
   */
  function DayField(t: string): (r: Option<(nat, string)>)
    ensures r.Some? ==> 1 <= r.value.0 <= 31
  {
    var spaced := |t| >= 2 && t[0] == ' ' && '1' <= t[1] <= '9';
    var k := if spaced then 2 else DigitRun(t);
    var day := if spaced then DigitValue(t[1]) else DigitsValue(t[..k]);
    var w := SpaceRun(t[k..]);
    if (spaced || k == 1 || k == 2) && 1 <= day <= 31 && w >= 1 then Some((day, t[k + w..])) else None
  }

  /** `%S` at the end of the text: one or two digits up to 61, and nothing after. */
  function Second(t: string): (r: Option<nat>)
    ensures r.Some? ==> r.value <= 61
  {
    if (|t| == 1 || |t| == 2) && AllDigits(t) && DigitsValue(t) <= 61 then Some(DigitsValue(t)) else None
  }

  /** `%H:%M:%S` to the end of the text: hour, minute and second. */
  function Clock(t: string): (r: Option<seq<nat>>)
    ensures r.Some? ==> |r.value| == 3 && r.value[0] <= 23 && r.value[1] <= 59 && r.value[2] <= 61
  {
    match ShortField(t, 0, 23, ':')
      case None => None
      case Some((hour, t1)) => match ShortField(t1, 0, 59, ':')
        case None => None
        case Some((minute, t2)) => match Second(t2)
          case None => None
          case Some(second) => Some([hour, minute, second])
  }

  /**
   * `strptime`: four digits and '-', the month, '-', the day, whitespace, the
   * hour, ':', the minute, ':', the second, and nothing else; the fields must
   * name an existing date and time.
   */
  function Strptime(s: string): (r: Option<DateTime>)
    ensures r.Some? ==> ValidDateTime(r.value)
  {
    if |s| < 5 || !AllDigits(s[..4]) || s[4] != '-' then None
    else match ShortField(s[5..], 1, 12, '-')
      case None => None
      case Some((month, t1)) => match DayField(t1)
        case None => None
        case Some((day, t2)) => match Clock(t2)
          case None => None
          case Some(c) =>
            var d := DateTime(DigitsValue(s[..4]), month, day, c[0], c[1], c[2]);
            if ValidDateTime(d) then Some(d) else None
  }

  lemma FormatSlices(d: DateTime)
    requires ValidDateTime(d)
    ensures var s := Format(d);
      s[0..4] == Pad(d.year, 4) && s[4] == '-' && s[5..7] == Pad(d.month, 2) && s[7] == '-'
      && s[8..10] == Pad(d.day, 2) && s[10] == ' ' && s[11..13] == Pad(d.hour, 2) && s[13] == ':'
      && s[14..16] == Pad(d.minute, 2) && s[16] == ':' && s[17..19] == Pad(d.second, 2)
  {
    FieldSlices(Pad(d.year, 4), Pad(d.month, 2), Pad(d.day, 2), Pad(d.hour, 2), Pad(d.minute, 2), Pad(d.second, 2));
  }

  /** Six fields laid out as "YYYY-MM-DD HH:MM:SS" each sit at their fixed position. */
  lemma FieldSlices(y: string, mo: string, da: string, h: string, mi: string, se: string)
    requires |y| == 4 && |mo| == 2 && |da| == 2 && |h| == 2 && |mi| == 2 && |se| == 2
    ensures var s := y + "-" + mo + "-" + da + " " + h + ":" + mi + ":" + se;
      s[0..4] == y && s[4] == '-' && s[5..7] == mo && s[7] == '-' && s[8..10] == da && s[10] == ' '
      && s[11..13] == h && s[13] == ':' && s[14..16] == mi && s[16] == ':' && s[17..19] == se
  {
  }

  /** A clock time "HH:MM:SS" is read as its three fields. */
  lemma IsoClock(t: string)
    requires |t| == 8 && t[2] == ':' && t[5] == ':'
    requires AllDigits(t[0..2]) && AllDigits(t[3..5]) && AllDigits(t[6..8])
    ensures IsoTime(t) == Some([DigitsValue(t[0..2]), DigitsValue(t[3..5]), DigitsValue(t[6..8])])
  {
    forall i | 0 <= i < 8 ensures t[i] != '+' && t[i] != '-' {
      if i < 2 { assert t[i] == t[0..2][i]; }
      else if 3 <= i < 5 { assert t[i] == t[3..5][i - 3]; }
      else if 6 <= i { assert t[i] == t[6..8][i - 6]; }
    }
    var a, b, c := DigitsValue(t[0..2]), DigitsValue(t[3..5]), DigitsValue(t[6..8]);
    var u := t[3..];
    assert t[..2] == t[0..2] && u[..2] == t[3..5] && u[2] == ':' && u[3..] == t[6..8];
    assert t[6..8][..2] == t[6..8];
    assert [a, b] + [c] == [a, b, c];
    assert IsoTimeFields(t[6..8], [a, b]) == Some(ZeroFill([a, b, c]));
    assert ZeroFill([a, b, c]) == [a, b, c];
    assert [a] + [DigitsValue(u[..2])] == [a, b];
    assert IsoTimeFields(u, [a]) == IsoTimeFields(t[6..8], [a, b]);
    assert [] + [DigitsValue(t[..2])] == [a];
    assert IsoTimeFields(t, []) == IsoTimeFields(u, [a]);
  }

  /** On the text `Format` writes, `fromisoformat` reads the six fields. */
  lemma IsoShaped(s: string)
    requires Shaped(s)
    ensures FromIsoFormat(s) == if ValidDateTime(Fields(s)) then Some(Fields(s)) else None
  {
    assert s[11..][0..2] == s[11..13] && s[11..][3..5] == s[14..16] && s[11..][6..8] == s[17..19];
    IsoClock(s[11..]);
  }

  /** A field of exactly two digits, ended by a character that is not one. */
  lemma TwoDigitRun(t: string)
    requires |t| >= 2 && AllDigits(t[..2]) && (|t| == 2 || !IsAsciiDigit(t[2]))
    ensures DigitRun(t) == 2
  {
    assert IsAsciiDigit(t[..2][0]) && IsAsciiDigit(t[..2][1]);
    assert DigitRun(t[2..]) == 0;
    assert t[1..][1..] == t[2..];
  }

  /** A two-digit field before its separator: read when within range. */
  lemma ShortFieldTwo(t: string, lo: nat, hi: nat, sep: char)
    requires |t| >= 3 && AllDigits(t[..2]) && t[2] == sep && !IsAsciiDigit(sep)
    ensures ShortField(t, lo, hi, sep)
         == if lo <= DigitsValue(t[..2]) <= hi then Some((DigitsValue(t[..2]), t[3..])) else None
  {
    TwoDigitRun(t);
  }

  /** A two-digit day followed by one whitespace character and a digit. */
  lemma DayFieldTwo(t: string)
    requires |t| >= 4 && AllDigits(t[..2]) && t[2] == ' ' && IsAsciiDigit(t[3])
    ensures DayField(t) == if 1 <= DigitsValue(t[..2]) <= 31 then Some((DigitsValue(t[..2]), t[3..])) else None
  {
    TwoDigitRun(t);
    assert t[2..][1..] == t[3..];
    assert SpaceRun(t[3..]) == 0;
    assert SpaceRun(t[2..]) == 1;
  }

  /** A clock "HH:MM:SS" is read by `%H:%M:%S` when each field is within range. */
  lemma ClockTwo(t: string)
    requires |t| == 8 && t[2] == ':' && t[5] == ':'
    requires AllDigits(t[0..2]) && AllDigits(t[3..5]) && AllDigits(t[6..8])
    ensures Clock(t) == if DigitsValue(t[0..2]) <= 23 && DigitsValue(t[3..5]) <= 59 && DigitsValue(t[6..8]) <= 61
                        then Some([DigitsValue(t[0..2]), DigitsValue(t[3..5]), DigitsValue(t[6..8])]) else None
  {
    assert t[..2] == t[0..2] && t[3..][..2] == t[3..5] && t[3..][3..] == t[6..8];
    ShortFieldTwo(t, 0, 23, ':');
    ShortFieldTwo(t[3..], 0, 59, ':');
  }

  /** On the text `Format` writes, `strptime` reads the six fields. */
  lemma StrptimeShaped(s: string)
    requires Shaped(s)
    ensures Strptime(s) == if ValidDateTime(Fields(s)) then Some(Fields(s)) else None
  {
    assert s[..4] == s[0..4];
    ShapedMonth(s);
    ShapedDay(s);
    ShapedClock(s);
  }

  lemma ShapedMonth(s: string)
    requires Shaped(s)
    ensures ShortField(s[5..], 1, 12, '-')
         == if 1 <= DigitsValue(s[5..7]) <= 12 then Some((DigitsValue(s[5..7]), s[8..])) else None
  {
    assert s[5..][..2] == s[5..7] && s[5..][3..] == s[8..];
    ShortFieldTwo(s[5..], 1, 12, '-');
  }

  lemma ShapedDay(s: string)
    requires Shaped(s)
    ensures DayField(s[8..])
         == if 1 <= DigitsValue(s[8..10]) <= 31 then Some((DigitsValue(s[8..10]), s[11..])) else None
  {
    assert s[8..][..2] == s[8..10] && s[8..][3..] == s[11..] && s[11..13][0] == s[11];
    DayFieldTwo(s[8..]);
  }

  lemma ShapedClock(s: string)
    requires Shaped(s)
    ensures Clock(s[11..])
         == if DigitsValue(s[11..13]) <= 23 && DigitsValue(s[14..16]) <= 59 && DigitsValue(s[17..19]) <= 61
            then Some([DigitsValue(s[11..13]), DigitsValue(s[14..16]), DigitsValue(s[17..19])]) else None
  {
    assert s[11..][0..2] == s[11..13] && s[11..][3..5] == s[14..16] && s[11..][6..8] == s[17..19];
    ClockTwo(s[11..]);
  }

  /** A text laid out as "YYYY-MM-DD HH:MM:SS" is read exactly when its fields name a valid datetime. */
  lemma ParseShaped(s: string)
    requires Shaped(s)
    ensures Parse(s) == if ValidDateTime(Fields(s)) then Some(Fields(s)) else None
  {
    IsoShaped(s);
    StrptimeShaped(s);
  }

  /** What is written is read back as the same datetime. */
  lemma ParseFormat(d: DateTime)
    requires ValidDateTime(d)
    ensures Parse(Format(d)) == Some(d)
  {
    FormatSlices(d);
    assert Shaped(Format(d));
    assert Fields(Format(d)) == d;
    ParseShaped(Format(d));
  }

  /** Two texts of the same shape agreeing on every field and separator are equal. */
  lemma SameFields(f: string, s: string)
    requires |f| == 19 && |s| == 19
    requires f[0..4] == s[0..4] && f[5..7] == s[5..7] && f[8..10] == s[8..10]
    requires f[11..13] == s[11..13] && f[14..16] == s[14..16] && f[17..19] == s[17..19]
    requires f[4] == s[4] && f[7] == s[7] && f[10] == s[10] && f[13] == s[13] && f[16] == s[16]
    ensures f == s
  {
    forall i | 0 <= i < 19 ensures f[i] == s[i] {
      if i < 4 { assert f[i] == f[0..4][i] && s[i] == s[0..4][i]; }
      else if 5 <= i < 7 { assert f[i] == f[5..7][i - 5] && s[i] == s[5..7][i - 5]; }
      else if 8 <= i < 10 { assert f[i] == f[8..10][i - 8] && s[i] == s[8..10][i - 8]; }
      else if 11 <= i < 13 { assert f[i] == f[11..13][i - 11] && s[i] == s[11..13][i - 11]; }
      else if 14 <= i < 16 { assert f[i] == f[14..16][i - 14] && s[i] == s[14..16][i - 14]; }
      else if 17 <= i { assert f[i] == f[17..19][i - 17] && s[i] == s[17..19][i - 17]; }
    }
  }

  /** A text in the written layout that is read back is exactly the text its datetime formats to. */
  lemma FormatParse(s: string)
    requires Shaped(s) && Parse(s).Some?
    ensures Format(Parse(s).value) == s
  {
    ParseShaped(s);
    var d := Parse(s).value;
    assert d == Fields(s);
    PadOfDigits(s[0..4]);
    PadOfDigits(s[5..7]);
    PadOfDigits(s[8..10]);
    PadOfDigits(s[11..13]);
    PadOfDigits(s[14..16]);
    PadOfDigits(s[17..19]);
    Reassemble(s);
  }

  /** A text with the separators in place is its six fields joined by them. */
  lemma Reassemble(s: string)
    requires |s| == 19 && s[4] == '-' && s[7] == '-' && s[10] == ' ' && s[13] == ':' && s[16] == ':'
    ensures s == s[0..4] + "-" + s[5..7] + "-" + s[8..10] + " " + s[11..13] + ":" + s[14..16] + ":" + s[17..19]
  {
    var t := s[0..4] + "-" + s[5..7] + "-" + s[8..10] + " " + s[11..13] + ":" + s[14..16] + ":" + s[17..19];
    FieldSlices(s[0..4], s[5..7], s[8..10], s[11..13], s[14..16], s[17..19]);
    SameFields(t, s);
  }

  /** "YYYY-MM-DD" followed by `rest`: the date fields sit at their positions. */
  lemma DateSlices(y: string, mo: string, da: string, rest: string)
    requires |y| == 4 && |mo| == 2 && |da| == 2 && AllDigits(y) && AllDigits(mo) && AllDigits(da)
    ensures var s := y + "-" + mo + "-" + da + rest;
      IsoDate(s) && s[0..4] == y && s[5..7] == mo && s[8..10] == da && s[10..] == rest
  {
    var s := y + "-" + mo + "-" + da + rest;
    assert s[0..4] == y && s[5..7] == mo && s[8..10] == da && s[10..] == rest;
  }

  /** `fromisoformat` of a date followed by a separator and a time that reads as `tm`. */
  lemma IsoWithTime(y: string, mo: string, da: string, sep: char, time: string, tm: seq<nat>)
    requires |y| == 4 && |mo| == 2 && |da| == 2 && AllDigits(y) && AllDigits(mo) && AllDigits(da)
    requires IsoTime(time) == Some(tm)
    requires ValidDateTime(DateTime(DigitsValue(y), DigitsValue(mo), DigitsValue(da), tm[0], tm[1], tm[2]))
    ensures FromIsoFormat(y + "-" + mo + "-" + da + [sep] + time)
         == Some(DateTime(DigitsValue(y), DigitsValue(mo), DigitsValue(da), tm[0], tm[1], tm[2]))
  {
    var s := y + "-" + mo + "-" + da + [sep] + time;
    DateSlices(y, mo, da, [sep] + time);
    assert s == y + "-" + mo + "-" + da + ([sep] + time);
    assert s[11..] == time;
    assert IsoDate(s) && |s| != 10 && IsoTime(s[11..]) == Some(tm);
  }

  /** Two digits, a ':' and two digits: hour and minute, the second 0. */
  lemma IsoHourMinute(h: string, m: string)
    requires |h| == 2 && |m| == 2 && AllDigits(h) && AllDigits(m)
    ensures IsoTime(h + ":" + m) == Some([DigitsValue(h), DigitsValue(m), 0])
  {
    var t := h + ":" + m;
    forall i | 0 <= i < 5 ensures t[i] != '+' && t[i] != '-' {
      if i < 2 { assert t[i] == h[i]; } else if i > 2 { assert t[i] == m[i - 3]; }
    }
    assert t[..2] == h && t[3..] == m && m[..2] == m;
    var a, b := DigitsValue(h), DigitsValue(m);
    assert ZeroFill([a, b]) == [a, b, 0];
    assert [a] + [b] == [a, b];
    assert IsoTimeFields(m, [a]) == Some(ZeroFill([a, b]));
    assert [] + [a] == [a];
    assert IsoTimeFields(t, []) == IsoTimeFields(m, [a]);
  }

  /** "HH:MM:SS" made of three two-digit fields reads as them. */
  lemma IsoHourMinuteSecond(h: string, m: string, sec: string)
    requires |h| == 2 && |m| == 2 && |sec| == 2 && AllDigits(h) && AllDigits(m) && AllDigits(sec)
    ensures IsoTime(h + ":" + m + ":" + sec) == Some([DigitsValue(h), DigitsValue(m), DigitsValue(sec)])
  {
    var t := h + ":" + m + ":" + sec;
    assert t[0..2] == h && t[3..5] == m && t[6..8] == sec;
    IsoClock(t);
  }

  /** The digits the samples use. */
  lemma SampleDigits()
    ensures AllDigits("2024") && DigitsValue("2024") == 2024
    ensures AllDigits("01") && DigitsValue("01") == 1 && AllDigits("00") && DigitsValue("00") == 0
    ensures AllDigits("10") && DigitsValue("10") == 10
  {
    assert "2024"[..3] == "202" && "202"[..2] == "20" && "20"[..1] == "2" && "2"[..0] == "";
    assert "01"[..1] == "0" && "00"[..1] == "0" && "10"[..1] == "1" && "0"[..0] == "" && "1"[..0] == "";
  }

  /** A date alone is midnight of that day. */
  lemma DateOnlySample()
    ensures Parse("2024" + "-" + "01" + "-" + "01") == Some(DateTime(2024, 1, 1, 0, 0, 0))
  {
    SampleDigits();
    DateSlices("2024", "01", "01", "");
    assert "2024" + "-" + "01" + "-" + "01" + "" == "2024" + "-" + "01" + "-" + "01";
  }

  /** Any separator may stand between the date and the time. */
  lemma IsoTSample()
    ensures Parse("2024" + "-" + "01" + "-" + "01" + "T" + ("10" + ":" + "00" + ":" + "00"))
         == Some(DateTime(2024, 1, 1, 10, 0, 0))
  {
    SampleDigits();
    IsoHourMinuteSecond("10", "00", "00");
    IsoWithTime("2024", "01", "01", 'T', "10" + ":" + "00" + ":" + "00", [10, 0, 0]);
  }

  /** Seconds may be left out. */
  lemma IsoMinutesSample()
    ensures Parse("2024" + "-" + "01" + "-" + "01" + " " + ("10" + ":" + "00")) == Some(DateTime(2024, 1, 1, 10, 0, 0))
  {
    SampleDigits();
    IsoHourMinute("10", "00");
    IsoWithTime("2024", "01", "01", ' ', "10" + ":" + "00", [10, 0, 0]);
  }

  /** `strptime` of a one-digit month and day, one space and a clock it reads as `c`. */
  lemma StrptimeShortDate(y: string, m: char, d: char, clock: string, c: seq<nat>)
    requires |y| == 4 && AllDigits(y) && IsAsciiDigit(m) && IsAsciiDigit(d) && d != '0'
    requires Clock(clock) == Some(c)
    requires ValidDateTime(DateTime(DigitsValue(y), DigitValue(m), DigitValue(d), c[0], c[1], c[2]))
    ensures Strptime(y + ("-" + ([m] + "-" + ([d] + " " + clock))))
         == Some(DateTime(DigitsValue(y), DigitValue(m), DigitValue(d), c[0], c[1], c[2]))
  {
    var t1 := [d] + " " + clock;
    var u := [m] + "-" + t1;
    ShortDay(d, clock);
    ShortMonth(m, t1);
    var s := y + ("-" + u);
    assert s[..4] == y && s[4..] == "-" + u;
    assert s[4] == ("-" + u)[0] == '-';
    assert s[5..] == ("-" + u)[1..] == u;
  }

  /** `%m-` on a single digit. */
  lemma ShortMonth(m: char, t1: string)
    requires IsAsciiDigit(m)
    ensures ShortField([m] + "-" + t1, 1, 12, '-') == if 1 <= DigitValue(m) <= 12 then Some((DigitValue(m), t1)) else None
  {
    OneDigitField([m] + "-" + t1, '-');
    assert ([m] + "-" + t1)[2..] == t1;
  }

  /** `%d` and one space on a single digit. */
  lemma ShortDay(d: char, clock: string)
    requires IsAsciiDigit(d) && d != '0' && (clock == [] || !IsSpace(clock[0]))
    ensures DayField([d] + " " + clock) == Some((DigitValue(d), clock))
  {
    var t1 := [d] + " " + clock;
    OneDigitField(t1, ' ');
    assert t1[1..] == " " + clock && t1[2..] == clock;
    assert SpaceRun(t1[1..]) == 1 by {
      assert IsSpace(t1[1..][0]);
      if clock != [] { assert t1[1..][1..] == clock; }
    }
  }

  /** A single digit followed by `sep`, which is not a digit. */
  lemma OneDigitField(t: string, sep: char)
    requires |t| >= 2 && IsAsciiDigit(t[0]) && t[1] == sep && !IsAsciiDigit(sep)
    ensures DigitRun(t) == 1 && AllDigits(t[..1]) && DigitsValue(t[..1]) == DigitValue(t[0])
  {
    assert DigitRun(t[1..]) == 0;
    assert t[..1][..0] == [];
  }

  /** Single-digit month and day are not ISO text, but `strptime` reads them. */
  lemma StrptimeSample()
    ensures Parse("2024" + ("-" + ("1" + "-" + ("5" + " " + ("10" + ":" + "00" + ":" + "00")))))
         == Some(DateTime(2024, 1, 5, 10, 0, 0))
  {
    var clock := "10" + ":" + "00" + ":" + "00";
    ShortDateNotIso("2024", '1', "5" + " " + clock);
    ShortDateClock(clock);
  }

  /** A one-digit month puts a digit where ISO text has its second '-'. */
  lemma ShortDateNotIso(y: string, m: char, v: string)
    requires |y| == 4 && |v| >= 1 && v[0] != '-'
    ensures FromIsoFormat(y + ("-" + ([m] + "-" + v))) == None
  {
    var u := [m] + "-" + v;
    var s := y + ("-" + u);
    assert s[4..] == "-" + u && s[4..][3] == u[2] == v[0];
  }

  lemma ShortDateClock(clock: string)
    requires clock == "10" + ":" + "00" + ":" + "00"
    ensures Strptime("2024" + ("-" + ("1" + "-" + ("5" + " " + clock)))) == Some(DateTime(2024, 1, 5, 10, 0, 0))
  {
    SampleDigits();
    assert clock[0..2] == "10" && clock[3..5] == "00" && clock[6..8] == "00";
    ClockTwo(clock);
    StrptimeShortDate("2024", '1', '5', clock, [10, 0, 0]);
  }

  /** A day the month does not have is refused by both readers. */
  lemma InvalidDaySample()
    ensures Parse("2024" + "-" + "02" + "-" + "30" + " " + "10" + ":" + "00" + ":" + "00") == None
  {
    SampleDigits();
    assert "02"[..1] == "0" && "30"[..1] == "3" && "3"[..0] == "";
    var s := "2024" + "-" + "02" + "-" + "30" + " " + "10" + ":" + "00" + ":" + "00";
    FieldSlices("2024", "02", "30", "10", "00", "00");
    assert Fields(s) == DateTime(2024, 2, 30, 10, 0, 0);
    ParseShaped(s);
  }
}
