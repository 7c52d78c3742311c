/** The JSON values a request body carries, as Python sees them after decoding:
    truthiness, `str()` rendering, and `dict.get(key, default)`. */
module PyValues {

  /** A scalar JSON value. Floats, lists and nested objects in these positions
      are not modelled. */
  datatype Value = Null | Bool(b: bool) | Int(i: int) | Str(s: string)

  /** One key of a decoded dict: missing altogether, or present with a value
      (which may be `null`). `dict.get(k, default)` tells the two apart. */
  datatype Field = Absent | Present(v: Value)

  /** Python's `bool(v)`: false exactly for `None`, `False`, `0` and `""`. */
  predicate Truthy(v: Value)
    ensures !Truthy(v) <==> v in {Null, Bool(false), Int(0), Str("")}
  {
    match v
    case Null => false
    case Bool(b) => b
    case Int(i) => i != 0
    case Str(s) => s != ""
  }

  /** `d.get(k)` for a key of `d`: the value, and `None` for a missing key. */
  function GetValue(f: Field): (v: Value)
    ensures f.Absent? ==> v == Null
  {
    match f
    case Absent => Null
    case Present(v) => v
  }

  /** Python's `str(v)`, which is what an f-string interpolation produces. Only
      the empty string renders as empty text; a string renders as itself, `None`
      as `None`, and an integer as its digits, after a minus sign when negative. */
  function PyStr(v: Value): (r: string)
    ensures r == "" <==> v == Str("")
    ensures v.Str? ==> r == v.s
    ensures v == Null ==> r == "None"
    ensures v.Int? ==> (v.i < 0 <==> r[0] == '-')
    ensures v.Int? && v.i >= 0 ==> AllDigits(r) && DecimalValue(r) == v.i
    ensures v.Int? && v.i < 0 ==> AllDigits(r[1..]) && DecimalValue(r[1..]) == -v.i
  {
    match v
    case Null => "None"
    case Bool(b) => if b then "True" else "False"
    case Int(i) =>
      if i >= 0 then DecimalRoundTrip(i); IntToDecimal(i)
      else
        DecimalRoundTrip(-i);
        assert IntToDecimal(i)[1..] == NatToDecimal(-i);
        IntToDecimal(i)
    case Str(s) => s
  }

  /** `str(d.get(k, default))` with a string default: the default is used only
      when the key is missing, not when it is present with `null`. */
  function GetOr(f: Field, default: string): (r: string)
    ensures f.Absent? ==> r == default
    ensures f == Present(Null) ==> r == "None"
  {
    match f
    case Absent => default
    case Present(v) => PyStr(v)
  }

  predicate IsDigit(c: char)
  {
    '0' <= c <= '9'
  }

  predicate AllDigits(s: string)
  {
    forall k :: 0 <= k < |s| ==> IsDigit(s[k])
  }

  function DigitChar(d: nat): (c: char)
    requires d < 10
    ensures IsDigit(c)
  {
    (48 + d) as char
  }

  /** `str(n)` for a non-negative integer: its decimal digits, most significant first,
      without leading zeros. */
  function NatToDecimal(n: nat): (r: string)
    ensures |r| > 0 && AllDigits(r)
    ensures |r| > 1 ==> r[0] != '0'
  {
    if n < 10 then [DigitChar(n)]
    else NatToDecimal(n / 10) + [DigitChar(n % 10)]
  }

  /** `str(i)` for any integer: a minus sign before the digits of a negative one. */
  function IntToDecimal(i: int): (r: string)
    ensures i >= 0 ==> r == NatToDecimal(i)
    ensures i < 0 ==> r == "-" + NatToDecimal(-i)
  {
    if i < 0 then "-" + NatToDecimal(-i) else NatToDecimal(i)
  }

  /** The number a string of decimal digits denotes. */
  function DecimalValue(s: string): nat
    requires AllDigits(s)
  {
    if |s| == 0 then 0
    else DecimalValue(s[..|s| - 1]) * 10 + (s[|s| - 1] as int - 48)
  }

  /** Reading back the digits `str(n)` writes gives `n`. */
  lemma {:induction false} DecimalRoundTrip(n: nat)
    ensures DecimalValue(NatToDecimal(n)) == n
  {
    if n >= 10 {
      var r := NatToDecimal(n);
      assert r[..|r| - 1] == NatToDecimal(n / 10);
      DecimalRoundTrip(n / 10);
    }
  }

  /** `str()` is injective on integers. */
  lemma IntToDecimalInjective(i: int, j: int)
    requires IntToDecimal(i) == IntToDecimal(j)
    ensures i == j
  {
    if i >= 0 && j >= 0 {
      DecimalRoundTrip(i);
      DecimalRoundTrip(j);
    } else if i < 0 && j < 0 {
      var a, b := NatToDecimal(-i), NatToDecimal(-j);
      assert a == ("-" + a)[1..];
      assert b == ("-" + b)[1..];
      DecimalRoundTrip(-i);
      DecimalRoundTrip(-j);
    }
  }

  /** How many decimal digits `s` begins with. */
  function LeadingDigits(s: string): (k: nat)
    ensures k <= |s|
    ensures AllDigits(s[..k])
    ensures k < |s| ==> !IsDigit(s[k])
  {
    if |s| == 0 || !IsDigit(s[0]) then 0
    else
      var k := 1 + LeadingDigits(s[1..]);
      assert s[..k] == [s[0]] + s[1..][..k - 1];
      k
  }

  /** A run of digits followed by a text that does not begin with a digit is
      read off exactly. */
  lemma {:induction false} LeadingDigitsOfRun(d: string, rest: string)
    requires AllDigits(d)
    requires rest == [] || !IsDigit(rest[0])
    ensures LeadingDigits(d + rest) == |d|
  {
    if |d| > 0 {
      assert (d + rest)[1..] == d[1..] + rest;
      LeadingDigitsOfRun(d[1..], rest);
    }
  }
}
