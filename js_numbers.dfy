/**
  * JavaScript's conversions between strings and numbers, as the
  * application uses them: `parseFloat`, `Number(...)`, integer-to-string
  * rendering in template literals, `toFixed(1)`, and the rounding
  * operators `Math.round`, `Math.floor` and `%`. Arithmetic is exact
  * (real numbers); the rounding error of doubles is not modelled.
  */
module JsNumbers {
  import opened JsValues

  predicate IsDigit(c: char)
  {
    '0' <= c <= '9'
  }

  predicate AllDigits(s: string)
  {
    forall i :: 0 <= i < |s| ==> IsDigit(s[i])
  }

  function DigitValue(c: char): (d: nat)
    requires IsDigit(c)
    ensures d < 10
  {
    (c as int) - ('0' as int)
  }

  function DigitChar(d: nat): (c: char)
    requires d < 10
    ensures IsDigit(c) && DigitValue(c) == d
  {
    ('0' as int + d) as char
  }

  /** The length of the run of decimal digits at the start of `s`. */
  function LeadingDigitCount(s: string): (k: nat)
    ensures k <= |s| && AllDigits(s[..k])
    ensures k < |s| ==> !IsDigit(s[k])
  {
    if |s| > 0 && IsDigit(s[0]) then
      var k := 1 + LeadingDigitCount(s[1..]);
      assert forall i :: 1 <= i < k ==> s[..k][i] == s[1..][..k - 1][i - 1];
      k
    else 0
  }

  /** The natural number written by the digit string `ds`. */
  function DigitsValue(ds: string): nat
    requires AllDigits(ds)
  {
    if ds == [] then 0
    else 10 * DigitsValue(ds[..|ds| - 1]) + DigitValue(ds[|ds| - 1])
  }

  /** The value of the digits after a decimal point: "25" denotes 0.25. */
  function FractionValue(ds: string): (f: real)
    requires AllDigits(ds)
    ensures 0.0 <= f <= 1.0
  {
    if ds == [] then 0.0
    else (DigitValue(ds[0]) as real + FractionValue(ds[1..])) / 10.0
  }

  function Pow10(e: int): (p: real)
    ensures p > 0.0
    decreases if e < 0 then -e else e
  {
    if e == 0 then 1.0
    else if e > 0 then 10.0 * Pow10(e - 1)
    else Pow10(e + 1) / 10.0
  }

  /** A mantissa scaled by a power of ten. */
  function WithExponent(mantissa: real, e: int): (v: real)
    requires mantissa >= 0.0
    ensures v >= 0.0
  {
    mantissa * Pow10(e)
  }

  /** A numeric literal found at the start of a string: its value and the
      number of characters it occupies. */
  datatype Scan = Scan(value: real, length: nat)

  /** An ExponentPart (`e`, an optional sign, at least one digit) at the
      start of `s`: its exponent and length; (0, 0) when there is none. */
  function ScanExponent(s: string): (r: (int, nat))
    ensures r.1 <= |s|
    ensures r.1 == 0 ==> r.0 == 0
  {
    if |s| > 0 && (s[0] == 'e' || s[0] == 'E') then
      var signLength := if |s| > 1 && (s[1] == '+' || s[1] == '-') then 1 else 0;
      var rest := s[1 + signLength..];
      var d := LeadingDigitCount(rest);
      if d == 0 then (0, 0)
      else
        var magnitude: int := DigitsValue(rest[..d]);
        (if signLength == 1 && s[1] == '-' then -magnitude else magnitude, 1 + signLength + d)
    else (0, 0)
  }

  /** The longest StrUnsignedDecimalLiteral at the start of `t`
      (digits, an optional point with optional digits, at least one digit
      in all, an optional exponent). "Infinity" is not recognised. */
  function ScanUnsigned(t: string): (r: Option<Scan>)
    ensures r.Some? ==> 0 < r.value.length <= |t| && r.value.value >= 0.0
  {
    var k := LeadingDigitCount(t);
    var hasPoint := k < |t| && t[k] == '.';
    var f := if hasPoint then LeadingDigitCount(t[k + 1..]) else 0;
    if k == 0 && f == 0 then None
    else
      var mantissaLength := if hasPoint then k + 1 + f else k;
      var mantissa := DigitsValue(t[..k]) as real
        + (if hasPoint then FractionValue(t[k + 1..][..f]) else 0.0);
      var e := ScanExponent(t[mantissaLength..]);
      Some(Scan(WithExponent(mantissa, e.0), mantissaLength + e.1))
  }

  /** A StrDecimalLiteral (an unsigned literal with an optional sign) at the
      start of `t`. */
  function ScanDecimal(t: string): (r: Option<Scan>)
    ensures r.Some? ==> 0 < r.value.length <= |t|
  {
    if |t| > 0 && (t[0] == '-' || t[0] == '+') then
      match ScanUnsigned(t[1..])
      case None => None
      case Some(sc) =>
        Some(Scan(if t[0] == '-' then -sc.value else sc.value, sc.length + 1))
    else ScanUnsigned(t)
  }

  /** `parseFloat(s)` for a string: skip leading whitespace, then read the
      longest decimal literal; NaN when there is none. */
  function ParseFloatString(s: string): Number
  {
    match ScanDecimal(TrimStart(s))
    case None => NaN
    case Some(sc) => Finite(sc.value)
  }

  /** `parseFloat(v)`: a number is kept (its string form parses back to
      itself); strings are scanned; other primitives turn into strings that
      hold no literal ("null", "true", ...). Arrays and objects are taken
      to give NaN. */
  function ParseFloat(v: JsValue): Number
  {
    match v
    case Num(n) => n
    case Str(s) => ParseFloatString(s)
    case _ => NaN
  }

  /** `Number(s)` for a string: the whole trimmed string must be one decimal
      literal; the empty string is 0. */
  function StringToNumber(s: string): Number
  {
    var t := Trim(s);
    if t == [] then Finite(0.0)
    else
      match ScanDecimal(t)
      case Some(sc) => if sc.length == |t| then Finite(sc.value) else NaN
      case None => NaN
  }

  /** `Number(v)`. Arrays and objects are taken to give NaN. */
  function ToNumber(v: JsValue): Number
  {
    match v
    case Undefined => NaN
    case Null => Finite(0.0)
    case Bool(b) => Finite(if b then 1.0 else 0.0)
    case Num(n) => n
    case Str(s) => StringToNumber(s)
    case _ => NaN
  }

  /** `a * c` for a constant `c`; NaN is absorbing. */
  function Scale(a: Number, c: real): Number
  {
    if a.NaN? then NaN else Finite(a.r * c)
  }

  /** `a - b`. */
  function Minus(a: Number, b: Number): Number
  {
    if a.NaN? || b.NaN? then NaN else Finite(a.r - b.r)
  }

  /** `Math.floor(x)`. */
  function MathFloor(x: real): int
  {
    x.Floor
  }

  /** `Math.round(x)`: the nearest integer, halves rounded towards +infinity. */
  function MathRound(x: real): (n: int)
    ensures x - 0.5 < n as real <= x + 0.5
  {
    (x + 0.5).Floor
  }

  /** Truncation towards zero, as `%` uses it. */
  function Truncate(x: real): int
  {
    if x >= 0.0 then x.Floor else -((-x).Floor)
  }

  /** `x % d` on numbers: the remainder has the sign of the dividend. */
  function JsRemainder(x: real, d: real): real
    requires d != 0.0
  {
    x - d * Truncate(x / d) as real
  }

  /** The decimal digits of a natural number, without leading zeros. */
  function NatToDecimal(n: nat): (s: string)
    ensures |s| >= 1 && AllDigits(s)
  {
    if n < 10 then [DigitChar(n)]
    else NatToDecimal(n / 10) + [DigitChar(n % 10)]
  }

  /** `${n}` for an integral number below 10^21 in magnitude. */
  function IntToDecimal(n: int): string
  {
    if n < 0 then "-" + NatToDecimal(-n) else NatToDecimal(n)
  }

  /** `x.toFixed(1)` for |x| < 10^21: the multiple of one tenth nearest to
      |x| (ties go up), written with one decimal, behind a minus sign when
      x is negative (even when the rounded digits are all zero). */
  function ToFixed1(x: real): string
  {
    if x < 0.0 then "-" + ToFixed1NonNegative(-x) else ToFixed1NonNegative(x)
  }

  function ToFixed1NonNegative(x: real): string
    requires x >= 0.0
  {
    TenthsText(MathRound(10.0 * x))
  }

  /** A count of tenths written with one decimal: 455 is `45.5`. */
  function TenthsText(tenths: nat): string
  {
    NatToDecimal(tenths / 10) + "." + [DigitChar(tenths % 10)]
  }

  /** Reading the digits written for `n` gives back `n`. */
  lemma {:induction false} NatToDecimalValue(n: nat)
    ensures DigitsValue(NatToDecimal(n)) == n
  {
    var s := NatToDecimal(n);
    if n >= 10 {
      NatToDecimalValue(n / 10);
      assert s[..|s| - 1] == NatToDecimal(n / 10);
    }
  }

  /** The first character of a rendered natural number is a digit. */
  lemma NatToDecimalStartsWithDigit(n: nat)
    ensures IsDigit(NatToDecimal(n)[0])
  {
  }
}
