/**
 * Dynamic values as the modelled Python code handles them: JSON documents
 * (manifests, preference files, shelf configurations) and the values that
 * validation functions return.
 */
module PyValue {
  import opened Wrappers
  import opened PyText
  import opened PyFloat

  datatype Value =
    | PyNone
    | PyBool(b: bool)
    | PyInt(i: int)
    | PyFloat(r: real)
    | PyStr(s: string)
    | PyList(items: seq<Value>)
    | PyTuple(elems: seq<Value>)
    | PyDict(entries: map<string, Value>)

  /** What a call did: returned a value or raised. */
  datatype Outcome = Returned(value: Value) | Raised

  /** Python truthiness: `bool(v)`. */
  predicate Truthy(v: Value) {
    match v
      case PyNone => false
      case PyBool(b) => b
      case PyInt(i) => i != 0
      case PyFloat(r) => r != 0.0
      case PyStr(s) => |s| > 0
      case PyList(items) => |items| > 0
      case PyTuple(elems) => |elems| > 0
      case PyDict(entries) => |entries| > 0
  }

  /** `isinstance(v, (int, float))`; `bool` is a subclass of `int` in Python. */
  predicate IsNumber(v: Value) { v.PyBool? || v.PyInt? || v.PyFloat? }

  /** The numeric value of a number. */
  function NumOf(v: Value): real
    requires IsNumber(v)
  {
    match v
      case PyBool(b) => if b then 1.0 else 0.0
      case PyInt(i) => i as real
      case PyFloat(r) => r
  }

  /** `int(x)` for a float: truncation toward zero. */
  function Trunc(x: real): (r: int)
    ensures x >= 0.0 ==> r as real <= x < r as real + 1.0
    ensures x < 0.0 ==> r as real - 1.0 < x <= r as real
  {
    if x >= 0.0 then x.Floor else -((-x).Floor)
  }

  /** `int(v)`: booleans as 0/1, floats truncated toward zero, text by `int()`; None where Python raises. */
  function IntOf(v: Value): (r: Option<int>)
    ensures v.PyInt? ==> r == Some(v.i)
    ensures v.PyStr? ==> r == ParseInt(v.s)
    ensures v.PyFloat? ==> r == Some(Trunc(v.r))
    ensures r.None? <==> !(IsNumber(v) || (v.PyStr? && ParseInt(v.s).Some?))
  {
    match v
      case PyBool(b) => Some(if b then 1 else 0)
      case PyInt(i) => Some(i)
      case PyFloat(x) => Some(Trunc(x))
      case PyStr(s) => ParseInt(s)
      case _ => None
  }

  /** `d.get(key, default)`. */
  function Get(d: map<string, Value>, key: string, default: Value): (r: Value)
    ensures key in d ==> r == d[key]
    ensures key !in d ==> r == default
  {
    if key in d then d[key] else default
  }

  /**
   * `a == b` between two values, with Python's cross-type numeric equality
   * (`1 == 1.0 == True`) at the top level.
   */
  predicate PyEq(a: Value, b: Value) {
    if IsNumber(a) && IsNumber(b) then NumOf(a) == NumOf(b) else a == b
  }

  /**
   * `str(v)`: a string is its own text; every other value is spelled as
   * `repr` spells it.
   */
  function StrOf(v: Value): string {
    match v
      case PyStr(s) => s
      case _ => Repr(v)
  }

  /**
   * `repr(v)`: None, booleans, ints and floats as Python spells them, a
   * string quoted and escaped, a list or tuple as the reprs of its items
   * between brackets or parentheses (a one-item tuple with a trailing comma).
   * A dict's repr depends on its insertion order, which a map does not keep,
   * so a dict is spelled by a fixed placeholder.
   */
  function Repr(v: Value): string {
    match v
      case PyNone => "None"
      case PyBool(b) => if b then "True" else "False"
      case PyInt(i) => IntToString(i)
      case PyFloat(r) => FloatRepr(r)
      case PyStr(s) => StrRepr(s)
      case PyList(items) => "[" + JoinText(seq(|items|, k requires 0 <= k < |items| => Repr(items[k])), ", ") + "]"
      case PyTuple(elems) =>
        "(" + JoinText(seq(|elems|, k requires 0 <= k < |elems| => Repr(elems[k])), ", ")
        + (if |elems| == 1 then "," else "") + ")"
      case PyDict(_) => "{...}"
  }

  /** The quote `repr` puts around `s`: a double quote when `s` holds a single quote and no double quote. */
  function QuoteFor(s: string): (r: char)
    ensures r == '"' <==> ('\'' in s && '"' !in s)
  {
    if '\'' in s && '"' !in s then '"' else '\''
  }

  /** `repr(s)` of a string: quoted, with the quote, backslashes and control characters escaped. */
  function StrRepr(s: string): (r: string)
    ensures |r| >= 2 && r[0] == QuoteFor(s) && r[|r| - 1] == QuoteFor(s)
  {
    var q := QuoteFor(s);
    [q] + EscapeText(s, q) + [q]
  }

  /** Each character of `s` as `repr` writes it inside quotes `q`. */
  function EscapeText(s: string, q: char): (r: string)
    ensures |r| >= |s|
  {
    if s == [] then "" else EscapeChar(s[0], q) + EscapeText(s[1..], q)
  }

  /** One character inside quotes `q`. */
  function EscapeChar(c: char, q: char): (r: string)
    ensures 1 <= |r| <= 4
    ensures |r| == 1 <==> !(c == q || c == '\\' || c < ' ' || c == 127 as char)
    ensures |r| == 1 ==> r == [c]
    ensures |r| > 1 ==> r[0] == '\\'
  {
    if c == q || c == '\\' then ['\\', c]
    else if c == '\t' then "\\t"
    else if c == '\n' then "\\n"
    else if c == '\r' then "\\r"
    else if c < ' ' || c == 127 as char then "\\x" + [HexDigit(c as int / 16), HexDigit(c as int % 16)]
    else [c]
  }

  /** A lower-case hexadecimal digit. */
  function HexDigit(d: int): char
    requires 0 <= d < 16
  {
    "0123456789abcdef"[d]
  }

  /** `int(str(n)) == n` for an int value. */
  lemma StrOfIntParses(i: int)
    ensures ParseInt(StrOf(PyInt(i))) == Some(i)
  {
    StrOfNumber(PyInt(i));
    IntToStringRoundTrip(i);
  }

  /** An int is written as its decimal digits and a float as its `repr`. */
  lemma StrOfNumber(v: Value)
    requires v.PyInt? || v.PyFloat?
    ensures v.PyInt? ==> StrOf(v) == IntToString(v.i)
    ensures v.PyFloat? ==> StrOf(v) == FloatRepr(v.r)
  {
  }

  /**
   * `float(str(x)) == x` for a float value of at most 17 places that is 0 or
   * from 1e-4 up to 1e16 in size.
   */
  lemma StrOfFloatReads(x: real)
    requires Exact(x)
    requires x == 0.0 || (0.0001 <= x < 10000000000000000.0) || (-10000000000000000.0 < x <= -0.0001)
    ensures DecimalUnits(StrOf(PyFloat(x))).Some?
    ensures DecimalUnits(StrOf(PyFloat(x))).value as real == x * 100000000000000000.0
  {
    StrOfNumber(PyFloat(x));
    FloatReprRoundTrip(x);
  }

  /** A list is written as the reprs of its items, separated by ", ", between brackets. */
  lemma ListRepr(items: seq<Value>, texts: seq<string>)
    requires |texts| == |items| && forall k :: 0 <= k < |items| ==> Repr(items[k]) == texts[k]
    ensures Repr(PyList(items)) == "[" + JoinText(texts, ", ") + "]"
  {
    assert seq(|items|, k requires 0 <= k < |items| => Repr(items[k])) == texts;
  }

  /** A tuple is written the same way between parentheses, with a comma after a lone item. */
  lemma TupleRepr(elems: seq<Value>, texts: seq<string>)
    requires |texts| == |elems| && forall k :: 0 <= k < |elems| ==> Repr(elems[k]) == texts[k]
    ensures Repr(PyTuple(elems)) == "(" + JoinText(texts, ", ") + (if |elems| == 1 then "," else "") + ")"
  {
    assert seq(|elems|, k requires 0 <= k < |elems| => Repr(elems[k])) == texts;
  }

  /** `str([1, 'a', (2.5,)])` is "[1, 'a', (2.5,)]". */
  lemma ReprSample()
    ensures StrOf(PyList([PyInt(1), PyStr("a"), PyTuple([PyFloat(2.5)])])) == "[1, 'a', (2.5,)]"
  {
    var list := PyList([PyInt(1), PyStr("a"), PyTuple([PyFloat(2.5)])]);
    assert Repr(list) == "[" + JoinText(["1", "'a'", "(2.5,)"], ", ") + "]" by {
      OneAndA();
      TupleSample();
      ListOfThree(PyInt(1), PyStr("a"), PyTuple([PyFloat(2.5)]));
    }
    JoinSample();
  }

  lemma ListOfThree(a: Value, b: Value, c: Value)
    ensures Repr(PyList([a, b, c])) == "[" + JoinText([Repr(a), Repr(b), Repr(c)], ", ") + "]"
  {
    ListRepr([a, b, c], [Repr(a), Repr(b), Repr(c)]);
  }

  lemma JoinSample()
    ensures JoinText(["1", "'a'", "(2.5,)"], ", ") == "1, 'a', (2.5,)"
  {
    assert JoinText(["(2.5,)"], ", ") == "(2.5,)";
    assert ["1", "'a'", "(2.5,)"][1..] == ["'a'", "(2.5,)"];
    assert ["'a'", "(2.5,)"][1..] == ["(2.5,)"];
  }

  lemma OneAndA()
    ensures Repr(PyInt(1)) == "1" && Repr(PyStr("a")) == "'a'"
  {
    assert EscapeText("a", '\'') == "a";
  }

  lemma TupleSample()
    ensures Repr(PyTuple([PyFloat(2.5)])) == "(2.5,)"
  {
    FloatTwoAndAHalf();
    TupleRepr([PyFloat(2.5)], ["2.5"]);
  }

  lemma FloatTwoAndAHalf()
    ensures Repr(PyFloat(2.5)) == "2.5"
  {
    assert Scaled(2.5) == 250000000000000000;
    assert Unscale(250000000000000000, -(FloatPlaces as int)) == (25, -1) by {
      Pow10Sixteen();
      UnscaleShift(25, 16, -(FloatPlaces as int));
    }
    assert DigitsRepr(25, -1) == "2.5" by {
      assert |NatToDigits(25)| == 2;
      FixedDigits(25, -1);
      assert SplitPlaces(25, 1) == (2, 5);
      FixedPointText(2, 5, 1);
      assert NatToDigits(2) == "2" && Pad(5, 1) == "5";
    }
  }

  /** A string holding a single quote and no double quote is put between double quotes. */
  lemma StrReprSample()
    ensures StrRepr("it's") == "\"it's\""
  {
    assert '\'' in "it's" && '"' !in "it's";
    assert EscapeText("s", '"') == "s";
    assert EscapeText("'s", '"') == "'s";
    assert EscapeText("t's", '"') == "t's";
    assert EscapeText("it's", '"') == "it's";
  }

  /** A control character is written as a hexadecimal escape, a tab as `\t`. */
  lemma EscapeSample()
    ensures EscapeChar(27 as char, '\'') == "\\x1b"
    ensures EscapeChar('\t', '\'') == "\\t"
  {
  }
}
