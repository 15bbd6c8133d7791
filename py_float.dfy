/**
 * `repr` of a Python float, which is also its `str` and its f-string text:
 * the shortest decimal spelling of the value, in fixed notation for
 * magnitudes from 1e-4 up to 1e16 and in scientific notation beyond, with
 * ".0" after a whole number. Floats are exact reals here.
 */
module PyFloat {
  import opened Wrappers
  import opened PyText

  /** `n` zeros. */
  function Zeros(n: nat): (r: string)
    ensures |r| == n && AllDigits(r) && DigitsValue(r) == 0
  {
    if n == 0 then ""
    else
      var r := Zeros(n - 1) + "0";
      assert r[..|r| - 1] == Zeros(n - 1);
      r
  }

  /** Zeros appended to a digit run shift its value by as many places. */
  lemma {:induction false} DigitsValueZeros(s: string, n: nat)
    requires AllDigits(s)
    ensures AllDigits(s + Zeros(n))
    ensures DigitsValue(s + Zeros(n)) == Shift(DigitsValue(s), n)
  {
    if n > 0 {
      DigitsValueZeros(s, n - 1);
      var t := s + Zeros(n);
      assert t[..|t| - 1] == s + Zeros(n - 1) && t[|t| - 1] == '0';
      assert AllDigits(t) by {
        forall i | 0 <= i < |t| ensures IsAsciiDigit(t[i]) {
          if i >= |s| { assert t[i] == Zeros(n)[i - |s|]; }
        }
      }
    } else {
      assert s + Zeros(n) == s;
    }
  }

  lemma MulTen(a: int, b: int)
    ensures a * (10 * b) == (a * b) * 10
  {
  }

  lemma {:induction false} Pow10Add(a: nat, b: nat)
    ensures Pow10(a + b) == Pow10(a) * Pow10(b)
  {
    if b > 0 {
      Pow10Add(a, b - 1);
    }
  }

  lemma {:induction false} Pow10Monotonic(a: nat, b: nat)
    requires a <= b
    ensures Pow10(a) <= Pow10(b)
  {
    if a < b {
      Pow10Monotonic(a, b - 1);
    }
  }

  /** A spelling of `k` digits stands for a number in [10^(k-1), 10^k). */
  lemma {:induction false} NatToDigitsBounds(n: nat)
    ensures n < Pow10(|NatToDigits(n)|)
    ensures n > 0 ==> Pow10(|NatToDigits(n)| - 1) <= n
  {
    if n >= 10 {
      NatToDigitsBounds(n / 10);
    }
  }

  /** Multiplying by a power of ten appends zeros to the spelling. */
  lemma {:induction false} NatToDigitsShift(m: nat, e: nat)
    requires m > 0
    ensures NatToDigits(m * Pow10(e)) == NatToDigits(m) + Zeros(e)
  {
    if e > 0 {
      NatToDigitsShift(m, e - 1);
      var k := m * Pow10(e - 1);
      assert m * Pow10(e) == k * 10 by { MulTen(m, Pow10(e - 1)); }
      assert k >= 1;
      var n := k * 10;
      assert n / 10 == k && n % 10 == 0;
      assert NatToDigits(n) == NatToDigits(k) + "0";
      assert Zeros(e) == Zeros(e - 1) + "0";
    } else {
      assert NatToDigits(m) + Zeros(e) == NatToDigits(m);
    }
  }

  /** Places kept when writing a real: the text of a float never has more. */
  const FloatPlaces: nat := 17
  /** `10^FloatPlaces`, the units a real is counted in. */
  const FloatUnit: nat := 100000000000000000

  lemma FloatUnitIsPower()
    ensures Pow10(FloatPlaces) == FloatUnit
  {
    assert Pow10(4) == 10000;
    Pow10Add(4, 4);
    Pow10Add(8, 8);
    assert Pow10(16) == 10000000000000000;
  }

  /** `a * 10^k`, one factor of ten at a time. */
  function Shift(a: int, k: nat): int {
    if k == 0 then a else 10 * Shift(a, k - 1)
  }

  lemma {:induction false} ShiftIsMul(a: int, k: nat)
    ensures Shift(a, k) == a * Pow10(k)
  {
    if k > 0 {
      ShiftIsMul(a, k - 1);
      MulTen(a, Pow10(k - 1));
    }
  }

  /**
   * `n * 10^e` with the trailing zeros of `n` moved into the exponent: the
   * digits a float's text shows and the power of ten of its last digit.
   */
  function Unscale(n: nat, e: int): (r: (nat, int))
    requires n > 0
    ensures r.0 > 0 && r.0 % 10 != 0 && r.1 >= e
    decreases n
  {
    if n % 10 == 0 then Unscale(n / 10, e + 1) else (n, e)
  }

  /** Unscale keeps the value: `r.0 * 10^(r.1 - e) == n`. */
  lemma {:induction false} UnscaleValue(n: nat, e: int)
    requires n > 0
    ensures Shift(Unscale(n, e).0, Unscale(n, e).1 - e) == n
    decreases n
  {
    if n % 10 == 0 {
      UnscaleValue(n / 10, e + 1);
    }
  }

  /** The exponent of scientific notation: a sign and at least two digits. */
  function ExponentText(p: int): (r: string)
    ensures |r| >= 3 && r[0] in "+-"
  {
    (if p < 0 then "-" else "+") + (if -10 < p < 10 then "0" else "") + NatToDigits(if p < 0 then -p else p)
  }

  /**
   * `repr` of a non-negative float of `n` units of 10^-17: the digits of the
   * value, in fixed notation when the leading digit's power of ten lies in
   * [-4, 16) and in scientific notation otherwise, with ".0" after a whole
   * number.
   */
  function UnitsRepr(n: int): (r: string)
    ensures '.' in r || 'e' in r
    ensures |r| >= 1 && IsAsciiDigit(r[0])
  {
    if n <= 0 then assert "0.0"[1] == '.'; "0.0"
    else DigitsRepr(Unscale(n, -(FloatPlaces as int)).0, Unscale(n, -(FloatPlaces as int)).1)
  }

  /** The text of `m * 10^e`, for `m` not a multiple of ten. */
  function DigitsRepr(m: nat, e: int): (r: string)
    requires m > 0
    ensures '.' in r || 'e' in r
    ensures |r| >= 1 && IsAsciiDigit(r[0])
  {
    var d := NatToDigits(m);
    var p := e + |d| - 1;
    if p < -4 || p >= 16 then Scientific(d, p)
    else if e >= 0 then
      var r := d + Zeros(e) + ".0";
      assert r[|r| - 2] == '.' && r[0] == d[0];
      r
    else
      var split := SplitPlaces(m, -e);
      var r := FixedPoint(split.0, split.1, -e);
      assert r[|NatToDigits(split.0)|] == '.';
      r
  }

  /** Scientific notation: the leading digit, the others after a point, and the exponent. */
  function Scientific(d: string, p: int): (r: string)
    requires |d| >= 1
    ensures 'e' in r
    ensures r[0] == d[0]
  {
    var mantissa := if |d| == 1 then d else d[..1] + "." + d[1..];
    var r := mantissa + "e" + ExponentText(p);
    assert r[|mantissa|] == 'e' && r[0] == mantissa[0];
    r
  }

  /** The number of units of 10^-17 in `x`, rounded down. */
  function Scaled(x: real): int {
    (x * 100000000000000000.0).Floor
  }

  /** `divmod(m, 10 ** q)`, taken one digit at a time. */
  function SplitPlaces(m: nat, q: nat): (r: (nat, nat))
    ensures r.1 < Pow10(q)
    ensures q >= 1 ==> r.1 % 10 == m % 10
  {
    if q == 0 then (m, 0)
    else
      var r := SplitPlaces(m / 10, q - 1);
      (r.0, r.1 * 10 + m % 10)
  }

  /** SplitPlaces is `divmod`: the whole part times `10 ** q` plus the fraction is `m`. */
  lemma {:induction false} SplitPlacesValue(m: nat, q: nat)
    ensures SplitPlaces(m, q).0 * Pow10(q) + SplitPlaces(m, q).1 == m
  {
    if q > 0 {
      SplitPlacesValue(m / 10, q - 1);
      MulTen(SplitPlaces(m / 10, q - 1).0, Pow10(q - 1));
    }
  }

  /** `w + f * 10^-q` written with `q` places: the whole part, a point, the fraction zero-padded. */
  function FixedPoint(w: nat, f: nat, q: nat): (r: string)
    requires f < Pow10(q)
    ensures |r| >= 2 && IsAsciiDigit(r[0])
  {
    var whole := NatToDigits(w);
    var r := whole + "." + Pad(f, q);
    assert r[0] == whole[0];
    r
  }

  /** `repr(x)`, which is also `str(x)` and what an f-string shows, for a float. */
  function FloatRepr(x: real): (r: string)
    ensures x == 0.0 ==> r == "0.0"
    ensures '.' in r || 'e' in r
  {
    if x < 0.0 then "-" + UnitsRepr(Scaled(-x)) else UnitsRepr(Scaled(x))
  }

  // ---------------------------------------------------------------------------
  // What the text means
  // ---------------------------------------------------------------------------

  /**
   * What `float(s)` reads from a text `[-]digits.digits`, counted in units
   * of 10^-17: the partner of FloatRepr. Texts with more fraction digits
   * than that are not read.
   */
  function DecimalUnits(s: string): Option<int> {
    if |s| >= 1 && s[0] == '-' then
      match UnsignedDecimalUnits(s[1..])
      case None => None
      case Some(v) => Some(-v)
    else UnsignedDecimalUnits(s)
  }

  /** The same for a text `digits.digits`. */
  function UnsignedDecimalUnits(t: string): Option<int> {
    match IndexOf(t, '.')
    case None => None
    case Some(i) => PointUnits(t[..i], t[i + 1..])
  }

  /** The units of `whole.frac`, when both are digit runs and `frac` has at most 17 digits. */
  function PointUnits(whole: string, frac: string): Option<int> {
    if whole != [] && frac != [] && |frac| <= FloatPlaces && AllDigits(whole) && AllDigits(frac) then
      Some(DigitsValue(whole) * 100000000000000000 + FractionUnits(frac))
    else None
  }

  /** The units of the fraction digits `frac`. */
  function FractionUnits(frac: string): int
    requires |frac| <= FloatPlaces && AllDigits(frac)
  {
    Shift(DigitsValue(frac), FloatPlaces - |frac|)
  }

  /** A real with at most 17 decimal places, the precision the text keeps. */
  predicate Exact(x: real) {
    Scaled(x) as real == x * 100000000000000000.0
  }

  lemma MulMono(a: int, b: int, c: int)
    requires a <= b && c >= 0
    ensures a * c <= b * c
  {
  }

  lemma MulStrict(a: int, b: int, c: int)
    requires a < b && c > 0
    ensures a * c < b * c
  {
  }

  lemma MulAssoc(a: int, b: int, c: int)
    ensures (a * b) * c == a * (b * c)
  {
  }

  /** Powers of ten compare as their exponents do. */
  lemma Pow10Below(a: nat, b: nat)
    requires Pow10(a) < Pow10(b)
    ensures a < b
  {
    if b <= a {
      Pow10Monotonic(b, a);
    }
  }

  /** `m` of `k` digits shifted by `s` places lies between 10^(k-1+s) and 10^(k+s). */
  lemma ShiftedBounds(m: nat, s: nat)
    requires m > 0
    ensures Pow10(|NatToDigits(m)| - 1 + s) <= m * Pow10(s) < Pow10(|NatToDigits(m)| + s)
  {
    var k := |NatToDigits(m)|;
    NatToDigitsBounds(m);
    Pow10Add(k - 1, s);
    Pow10Add(k, s);
    MulMono(Pow10(k - 1), m, Pow10(s));
    MulStrict(m, Pow10(k), Pow10(s));
  }

  lemma Pow10Thirteen()
    ensures Pow10(13) == 10000000000000
  {
    assert Pow10(4) == 10000;
    Pow10Add(4, 4);
    Pow10Add(8, 4);
    assert Pow10(12) == 1000000000000;
  }

  /** A count of units from 10^13 up to 10^33, a real from 1e-4 up to 1e16, is written in fixed notation. */
  lemma FixedExponent(n: nat, m: nat, e: int)
    requires 10000000000000 <= n < 1000000000000000000000000000000000
    requires e >= -(FloatPlaces as int) && m > 0 && Shift(m, e + FloatPlaces) == n
    ensures -4 <= e + |NatToDigits(m)| - 1 < 16
  {
    var k := |NatToDigits(m)|;
    var s: nat := e + FloatPlaces;
    assert Pow10(k - 1 + s) <= n < Pow10(k + s) by {
      ShiftIsMul(m, s);
      ShiftedBounds(m, s);
    }
    assert 13 < k + s by {
      Pow10Thirteen();
      Pow10Below(13, k + s);
    }
    assert k - 1 + s < 33 by {
      FloatUnitIsPower();
      Pow10Add(16, FloatPlaces);
      assert Pow10(33) == 10 * Pow10(32);
      Pow10Below(k - 1 + s, 33);
    }
  }

  lemma UnsignedRead(r: string)
    requires |r| >= 1 && r[0] != '-'
    ensures DecimalUnits(r) == UnsignedDecimalUnits(r)
  {
  }

  lemma ReadAt(r: string, i: nat, whole: string, frac: string)
    requires IndexOf(r, '.') == Some(i) && r[..i] == whole && r[i + 1..] == frac
    ensures UnsignedDecimalUnits(r) == PointUnits(whole, frac)
  {
  }

  /** How DecimalUnits reads digits, a point and digits. */
  lemma ReadPoint(whole: string, frac: string)
    requires |whole| >= 1 && AllDigits(whole)
    ensures DecimalUnits(whole + "." + frac) == PointUnits(whole, frac)
  {
    var r := whole + "." + frac;
    assert '.' !in whole;
    IndexOfAfterPrefix(whole, '.', frac);
    assert r == whole + ['.'] + frac;
    assert r[..|whole|] == whole && r[|whole| + 1..] == frac;
    ReadAt(r, |whole|, whole, frac);
    UnsignedRead(r);
  }

  /** A zero fraction adds no units. */
  lemma PointZero(whole: string)
    requires |whole| >= 1 && AllDigits(whole)
    ensures PointUnits(whole, "0") == Some(DigitsValue(whole) * 100000000000000000)
  {
    assert DigitsValue("0") == 0;
    ShiftIsMul(0, FloatPlaces - 1);
    assert FractionUnits("0") == 0;
  }

  /** Digits, a point and one to 17 digits read as the whole digits' units plus the fraction's. */
  lemma PointDigits(whole: string, frac: string)
    requires |whole| >= 1 && AllDigits(whole) && 1 <= |frac| <= FloatPlaces && AllDigits(frac)
    ensures PointUnits(whole, frac) == Some(DigitsValue(whole) * 100000000000000000 + FractionUnits(frac))
  {
  }

  /** Shifting by `j` places and then by `k` shifts by `j + k`. */
  lemma {:induction false} ShiftShift(a: int, j: nat, k: nat)
    ensures Shift(Shift(a, j), k) == Shift(a, j + k)
  {
    if k > 0 {
      ShiftShift(a, j, k - 1);
    }
  }

  /** The digits of `m`, `e` zeros and ".0" stand for `m * 10^e` in units. */
  lemma WholeValue(m: nat, e: nat, n: int)
    requires m > 0 && Shift(m, e + FloatPlaces) == n
    ensures AllDigits(NatToDigits(m) + Zeros(e))
    ensures PointUnits(NatToDigits(m) + Zeros(e), "0") == Some(n)
  {
    var whole := NatToDigits(m) + Zeros(e);
    DigitsValueZeros(NatToDigits(m), e);
    NatToDigitsValue(m);
    PointZero(whole);
    ShiftIsMul(Shift(m, e), FloatPlaces);
    FloatUnitIsPower();
    ShiftShift(m, e, FloatPlaces);
  }

  /** The digits of `w`, a point and `f` padded to `q` places stand for `w + f * 10^-q` in units. */
  lemma FractionValue(w: nat, f: nat, q: nat, n: int)
    requires 1 <= q <= FloatPlaces && f < Pow10(q)
    requires w * 100000000000000000 + Shift(f, FloatPlaces - q) == n
    ensures PointUnits(NatToDigits(w), Pad(f, q)) == Some(n)
  {
    PointDigits(NatToDigits(w), Pad(f, q));
    NatToDigitsValue(w);
    assert FractionUnits(Pad(f, q)) == Shift(f, FloatPlaces - q);
  }

  /** `m` units of 10^-q, split at `q` places, counted in units of 10^-17. */
  lemma FractionSplit(m: nat, q: nat, n: nat)
    requires 1 <= q <= FloatPlaces && Shift(m, FloatPlaces - q) == n
    ensures SplitPlaces(m, q).0 * 100000000000000000 + Shift(SplitPlaces(m, q).1, FloatPlaces - q) == n
  {
    var (w, f) := SplitPlaces(m, q);
    ShiftIsMul(m, FloatPlaces - q);
    ShiftIsMul(f, FloatPlaces - q);
    SplitPlacesValue(m, q);
    Pow10Add(q, FloatPlaces - q);
    FloatUnitIsPower();
    Regroup(w, f, Pow10(q), Pow10(FloatPlaces - q), n);
  }

  lemma Regroup(w: int, f: int, u: int, rest: int, n: int)
    requires u * rest == 100000000000000000 && (w * u + f) * rest == n
    ensures w * 100000000000000000 + f * rest == n
  {
    MulAssoc(w, u, rest);
  }

  /**
   * The text of a count of units that is zero or from 10^13 up to 10^33 (a
   * real from 1e-4 up to 1e16) reads back as that count, and it is the
   * shortest such text: its last digit is not a zero unless it is the ".0"
   * of a whole number.
   */
  lemma UnitsRoundTrip(n: int)
    requires n == 0 || 10000000000000 <= n < 1000000000000000000000000000000000
    ensures DecimalUnits(UnitsRepr(n)) == Some(n)
    ensures EndsWith(UnitsRepr(n), ".0") || UnitsRepr(n)[|UnitsRepr(n)| - 1] != '0'
  {
    var whole, frac := UnitsShape(n);
    ReadPoint(whole, frac);
  }

  /**
   * The text of a count in fixed notation is a digit run, a point and a
   * fraction that stand for the count, and it ends in ".0" or a nonzero digit.
   */
  lemma UnitsShape(n: int) returns (whole: string, frac: string)
    requires n == 0 || 10000000000000 <= n < 1000000000000000000000000000000000
    ensures UnitsRepr(n) == whole + "." + frac
    ensures |whole| >= 1 && AllDigits(whole) && PointUnits(whole, frac) == Some(n)
    ensures EndsWith(UnitsRepr(n), ".0") || UnitsRepr(n)[|UnitsRepr(n)| - 1] != '0'
  {
    if n == 0 {
      whole, frac := "0", "0";
      PointZero("0");
      assert DigitsValue("0") == 0;
      assert UnitsRepr(n) == whole + "." + frac;
    } else {
      UnscaledFixed(n);
      UnscaleValue(n, -(FloatPlaces as int));
      var m, e := Unscale(n, -(FloatPlaces as int)).0, Unscale(n, -(FloatPlaces as int)).1;
      if e >= 0 {
        whole, frac := NatToDigits(m) + Zeros(e), "0";
        WholeValue(m, e, n);
        assert UnitsRepr(n) == whole + ".0";
        assert whole + ".0" == whole + "." + frac;
      } else {
        var q: nat := -e;
        var w, f := SplitPlaces(m, q).0, SplitPlaces(m, q).1;
        FractionSplit(m, q, n);
        FractionValue(w, f, q, n);
        whole, frac := NatToDigits(w), Pad(f, q);
        assert UnitsRepr(n) == FixedPoint(w, f, q);
        FixedPointLast(w, f, q);
      }
    }
  }

  /** Counts from 10^13 up to 10^33 are written in fixed notation. */
  lemma UnscaledFixed(n: int)
    requires 10000000000000 <= n < 1000000000000000000000000000000000
    ensures var (m, e) := Unscale(n, -(FloatPlaces as int)); -4 <= e + |NatToDigits(m)| - 1 < 16
  {
    var (m, e) := Unscale(n, -(FloatPlaces as int));
    UnscaleValue(n, -(FloatPlaces as int));
    FixedExponent(n, m, e);
  }

  /** The last digit of a fixed-point text is the last digit of its fraction. */
  lemma FixedPointLast(w: nat, f: nat, q: nat)
    requires 1 <= q && f < Pow10(q)
    ensures var r := FixedPoint(w, f, q); r[|r| - 1] == '0' + (f % 10) as char
  {
    var frac := Pad(f, q);
    assert frac[|frac| - 1] == '0' + (f % 10) as char;
  }

  lemma ExactNegate(x: real)
    requires Exact(x)
    ensures Exact(-x) && Scaled(-x) == -Scaled(x)
  {
    var k := Scaled(x);
    assert (-x * 100000000000000000.0) == (-k) as real;
  }

  /** A leading minus sign negates what the rest of the text reads as. */
  lemma NegatedText(u: string, v: int)
    requires |u| >= 1 && IsAsciiDigit(u[0]) && DecimalUnits(u) == Some(v)
    ensures DecimalUnits("-" + u) == Some(-v)
  {
    assert ("-" + u)[1..] == u;
  }

  /** A text that ends as `u` does, with one more character in front. */
  lemma LongerEnd(c: char, u: string)
    requires |u| >= 1
    ensures ([c] + u)[|u|] == u[|u| - 1]
    ensures EndsWith(u, ".0") ==> EndsWith([c] + u, ".0")
  {
    if EndsWith(u, ".0") {
      assert ([c] + u)[|u| - 1..] == u[|u| - 2..];
    }
  }

  /** The same for the text of a negative count, with its minus sign. */
  lemma NegativeUnitsRoundTrip(n: int)
    requires 10000000000000 <= n < 1000000000000000000000000000000000
    ensures DecimalUnits("-" + UnitsRepr(n)) == Some(-n)
    ensures EndsWith("-" + UnitsRepr(n), ".0") || ("-" + UnitsRepr(n))[|UnitsRepr(n)|] != '0'
  {
    var u := UnitsRepr(n);
    UnitsRoundTrip(n);
    NegatedText(u, n);
    LongerEnd('-', u);
    assert "-" + u == ['-'] + u;
  }

  /** A real from 1e-4 up to 1e16 counts from 10^13 up to 10^33 units. */
  lemma ScaledRange(x: real)
    requires 0.0001 <= x < 10000000000000000.0
    ensures 10000000000000 <= Scaled(x) < 1000000000000000000000000000000000
  {
  }

  /**
   * The text of a real from -1e16 to -1e-4, 0, or 1e-4 to 1e16 is its value
   * truncated to 17 places, and the shortest such text: its last digit is
   * not a zero unless it is the ".0" of a whole number.
   */
  lemma FloatReprUnits(x: real)
    requires x == 0.0 || (0.0001 <= x < 10000000000000000.0) || (-10000000000000000.0 < x <= -0.0001)
    ensures DecimalUnits(FloatRepr(x)) == Some(if x < 0.0 then -Scaled(-x) else Scaled(x))
    ensures EndsWith(FloatRepr(x), ".0") || FloatRepr(x)[|FloatRepr(x)| - 1] != '0'
  {
    if x < 0.0 {
      ScaledRange(-x);
      NegativeUnitsRoundTrip(Scaled(-x));
    } else if x == 0.0 {
      UnitsRoundTrip(0);
    } else {
      ScaledRange(x);
      UnitsRoundTrip(Scaled(x));
    }
  }

  /**
   * `float(repr(x)) == x` in fixed notation: the text of a real with at most
   * 17 places reads back as the same real.
   */
  lemma FloatReprRoundTrip(x: real)
    requires Exact(x)
    requires x == 0.0 || (0.0001 <= x < 10000000000000000.0) || (-10000000000000000.0 < x <= -0.0001)
    ensures DecimalUnits(FloatRepr(x)).Some?
    ensures DecimalUnits(FloatRepr(x)).value as real == x * 100000000000000000.0
  {
    FloatReprUnits(x);
    if x < 0.0 {
      ExactNegate(x);
    }
  }

  // ---------------------------------------------------------------------------
  // Whole numbers and samples
  // ---------------------------------------------------------------------------

  /** Trailing zeros moved into the exponent before Unscale starts are moved the same way. */
  lemma {:induction false} UnscaleShift(m: nat, k: nat, e: int)
    requires m > 0
    ensures Unscale(m * Pow10(k), e) == Unscale(m, e + k)
  {
    if k > 0 {
      var n := m * Pow10(k);
      MulTen(m, Pow10(k - 1));
      assert n == (m * Pow10(k - 1)) * 10;
      assert n % 10 == 0 && n / 10 == m * Pow10(k - 1);
      UnscaleShift(m, k - 1, e + 1);
    }
  }

  /** A positive whole number below 10^16 is written as its digits and ".0". */
  lemma UnitsOfWhole(k: nat)
    requires 1 <= k < 10000000000000000
    ensures UnitsRepr(k * 100000000000000000) == NatToDigits(k) + ".0"
  {
    UnscaleWhole(k);
    WholeDigits(k);
  }

  /** The digits Unscale keeps, followed by the zeros it moved into the exponent, spell the number. */
  lemma WholeDigits(k: nat)
    requires k >= 1
    ensures Unscale(k, 0).1 >= 0
    ensures NatToDigits(Unscale(k, 0).0) + Zeros(Unscale(k, 0).1) == NatToDigits(k)
  {
    var (m, e) := Unscale(k, 0);
    UnscaleValue(k, 0);
    ShiftIsMul(m, e);
    NatToDigitsShift(m, e);
  }

  /** The units of a whole number below 10^16 unscale as the number itself does, in fixed notation. */
  lemma UnscaleWhole(k: nat)
    requires 1 <= k < 10000000000000000
    ensures Unscale(k * 100000000000000000, -(FloatPlaces as int)) == Unscale(k, 0)
    ensures -4 <= Unscale(k, 0).1 + |NatToDigits(Unscale(k, 0).0)| - 1 < 16
  {
    var n := k * 100000000000000000;
    FloatUnitIsPower();
    UnscaleShift(k, FloatPlaces, -(FloatPlaces as int));
    UnscaleValue(n, -(FloatPlaces as int));
    FixedExponent(n, Unscale(k, 0).0, Unscale(k, 0).1);
  }

  /** A whole number counts a whole number of units. */
  lemma ScaledWhole(x: real, i: int)
    requires x == i as real
    ensures Scaled(x) == i * 100000000000000000
  {
  }

  /** The text of a negative real is a minus sign and the text of its size. */
  lemma FloatReprNegative(x: real)
    requires x < 0.0
    ensures FloatRepr(x) == "-" + UnitsRepr(Scaled(-x))
  {
  }

  lemma PositiveWhole(i: int)
    requires 1 <= i < 10000000000000000
    ensures FloatRepr(i as real) == IntToString(i) + ".0"
  {
    var x := i as real;
    ScaledWhole(x, i);
    assert FloatRepr(x) == UnitsRepr(i * 100000000000000000);
    UnitsOfWhole(i);
  }

  lemma NegativeWhole(i: int)
    requires -10000000000000000 < i <= -1
    ensures FloatRepr(i as real) == IntToString(i) + ".0"
  {
    ScaledWhole(-(i as real), -i);
    NegativeUnits(i as real, -i);
    assert IntToString(i) + ".0" == "-" + (NatToDigits(-i) + ".0");
  }

  lemma NegativeUnits(x: real, k: nat)
    requires x < 0.0 && Scaled(-x) == k * 100000000000000000 && 1 <= k < 10000000000000000
    ensures FloatRepr(x) == "-" + (NatToDigits(k) + ".0")
  {
    FloatReprNegative(x);
    UnitsOfWhole(k);
  }

  /** `str(float(i))` is `str(i)` followed by ".0" for a whole number below 10^16 in size. */
  lemma FloatReprWhole(i: int)
    requires -10000000000000000 < i < 10000000000000000
    ensures FloatRepr(i as real) == IntToString(i) + ".0"
  {
    if i > 0 {
      PositiveWhole(i);
    } else if i < 0 {
      NegativeWhole(i);
    } else {
      assert "0" + ".0" == "0.0";
    }
  }

  lemma Pow10Sixteen()
    ensures Pow10(16) == 10000000000000000
  {
    FloatUnitIsPower();
  }

  /** `str(85.0)` is "85.0": a whole float keeps its ".0". */
  lemma WholeSample()
    ensures FloatRepr(85.0) == "85.0"
  {
    Spell85();
    WholeText(85, "85");
  }

  lemma Spell85()
    ensures IntToString(85) == "85"
  {
    assert NatToDigits(8) == "8";
  }

  /** The float of a whole number spelled `t` is spelled `t` and ".0". */
  lemma WholeText(i: int, t: string)
    requires -10000000000000000 < i < 10000000000000000 && IntToString(i) == t
    ensures FloatRepr(i as real) == t + ".0"
  {
    FloatReprWhole(i);
  }

  /** `str(92.5)` is "92.5": a fraction keeps its own digits and no more. */
  lemma FractionSample()
    ensures FloatRepr(92.5) == "92.5"
  {
    assert Scaled(92.5) == 9250000000000000000;
    assert Unscale(9250000000000000000, -(FloatPlaces as int)) == (925, -1) by {
      Pow10Sixteen();
      UnscaleShift(925, 16, -(FloatPlaces as int));
    }
    assert DigitsRepr(925, -1) == "92.5" by {
      assert NatToDigits(925) == "925" && SplitPlaces(925, 1) == (92, 5);
      assert NatToDigits(92) == "92" && Pad(5, 1) == "5";
    }
  }

  /** `str(0.0001)` is "0.0001", the smallest power of ten still in fixed notation. */
  lemma SmallSample()
    ensures FloatRepr(0.0001) == "0.0001"
  {
    assert Scaled(0.0001) == 10000000000000;
    assert Unscale(10000000000000, -(FloatPlaces as int)) == (1, -4);
    SmallDigits();
  }

  lemma SmallDigits()
    ensures DigitsRepr(1, -4) == "0.0001"
  {
    assert |NatToDigits(1)| == 1;
    FixedDigits(1, -4);
    SmallSplit();
    SmallFixedPoint();
  }

  lemma SmallSplit()
    ensures SplitPlaces(1, 4) == (0, 1)
  {
    assert SplitPlaces(0, 3) == (0, 0);
  }

  lemma SmallFixedPoint()
    ensures FixedPoint(0, 1, 4) == "0.0001"
  {
    SmallFraction();
    FixedPointText(0, 1, 4);
    assert NatToDigits(0) == "0";
    assert "0" + "." + "0001" == "0.0001";
  }

  lemma SmallFraction()
    ensures Pad(1, 4) == "0001"
  {
    assert Pad(0, 1) == "0" && Pad(0, 2) == "00" && Pad(0, 3) == "000";
  }

  lemma FixedPointText(w: nat, f: nat, q: nat)
    requires f < Pow10(q)
    ensures FixedPoint(w, f, q) == NatToDigits(w) + "." + Pad(f, q)
  {
  }

  /** Digits whose leading power of ten lies in [-4, 16), with a fraction, are written in fixed notation. */
  lemma FixedDigits(m: nat, e: int)
    requires m > 0 && e < 0 && -4 <= e + |NatToDigits(m)| - 1 < 16
    ensures DigitsRepr(m, e) == FixedPoint(SplitPlaces(m, -e).0, SplitPlaces(m, -e).1, -e)
  {
  }

  /** `str(0.00001)` is "1e-05": below 1e-4 the text turns scientific. */
  lemma TinySample()
    ensures FloatRepr(0.00001) == "1e-05"
  {
    assert Scaled(0.00001) == 1000000000000;
    assert Unscale(1000000000000, -(FloatPlaces as int)) == (1, -5);
    assert DigitsRepr(1, -5) == "1e-05" by {
      assert NatToDigits(1) == "1" && NatToDigits(5) == "5";
    }
  }

  /** `str(1e16)` is "1e+16": from 1e16 up the text turns scientific. */
  lemma LargeSample()
    ensures FloatRepr(10000000000000000.0) == "1e+16"
  {
    assert Scaled(10000000000000000.0) == 1000000000000000000000000000000000;
    assert Unscale(1000000000000000000000000000000000, -(FloatPlaces as int)) == (1, 16) by {
      FloatUnitIsPower();
      Pow10Add(16, FloatPlaces);
      Pow10Sixteen();
      UnscaleShift(1, 33, -(FloatPlaces as int));
    }
    assert DigitsRepr(1, 16) == "1e+16" by {
      assert NatToDigits(1) == "1" && NatToDigits(16) == "16";
    }
  }
}
