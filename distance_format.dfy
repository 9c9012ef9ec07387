/**
  * The unit conversion and display side of src/lib/utils.js: validating a
  * numeric input, rendering decimal feet as feet, inches and quarter
  * inches, rendering centimetres as metres and centimetres, and the
  * dispatch on the selected display unit. Distances are stored in feet;
  * one foot is exactly 30.48 cm.
  */
module DistanceFormat {
  import opened JsValues
  import opened JsNumbers

  /** The placeholder shown for a missing value: an em dash. */
  const NoValue: string := "\U{2014}"

  const CentimetresPerFoot: real := 30.48

  /** The arguments the formatters accept: a number, null or undefined. */
  type NumberOrNothing = v: JsValue | v.Undefined? || v.Null? || v.Num? witness Undefined

  /** parseNumericInput: null for "", null, undefined, or input that does not
      parse to a non-negative number; the parsed value otherwise. */
  function ParseNumericInput(value: JsValue): (r: Option<real>)
    ensures r.None? <==> (value == Str("") || value.Null? || value.Undefined?
                          || ParseFloat(value).NaN? || ParseFloat(value).r < 0.0)
    ensures r.Some? ==> r.value >= 0.0 && ParseFloat(value) == Finite(r.value)
  {
    if value == Str("") || value.Null? || value.Undefined? then None
    else
      var parsed := ParseFloat(value);
      if parsed.NaN? || parsed.r < 0.0 then None else Some(parsed.r)
  }

  // ---------------------------------------------------------------------
  // Imperial: feetToFraction
  // ---------------------------------------------------------------------

  /** The quantities feetToFraction derives, computed as the source does:
      total inches rounded to the nearest quarter, whole feet by floor,
      then whole inches by floor and the fractional rest. */
  datatype ImperialParts = ImperialParts(feet: int, wholeInches: int, fraction: real)

  function ImperialPartsOf(decimalFeet: real): ImperialParts
  {
    var totalInches := decimalFeet * 12.0;
    var roundedInches := MathRound(totalInches * 4.0) as real / 4.0;
    var feet := MathFloor(roundedInches / 12.0);
    var remainingInches := roundedInches - (feet * 12) as real;
    var wholeInches := MathFloor(remainingInches);
    var fraction := remainingInches - wholeInches as real;
    ImperialParts(feet, wholeInches, fraction)
  }

  function FractionString(fraction: real): string
  {
    if fraction == 0.25 then " 1/4"
    else if fraction == 0.5 then " 1/2"
    else if fraction == 0.75 then " 3/4"
    else ""
  }

  /** feetToFraction: null, undefined and NaN give the placeholder, and a
      finite value depends only on its quarter-inch count, shown by the
      integer rendering below. */
  function FeetToFraction(decimalFeet: NumberOrNothing): (s: string)
    ensures decimalFeet.Num? && decimalFeet.n.Finite? ==>
      s == ImperialText(QuarterInches(decimalFeet.n.r))
  {
    if !decimalFeet.Num? || decimalFeet.n.NaN? then NoValue
    else
      var r := decimalFeet.n.r;
      var p := ImperialPartsOf(r);
      ImperialPartsFromQuarterCount(r);
      RenderMatchesImperialText(QuarterInches(r), p.feet, p.wholeInches, FractionString(p.fraction));
      RenderImperial(p.feet, p.wholeInches, FractionString(p.fraction))
  }

  /** The text ends with the unit `m` of `m` and `cm`. */
  predicate EndsWithUnit(s: string)
  {
    |s| > 0 && s[|s| - 1] == 'm'
  }

  /** The five display shapes of feetToFraction, tried in order. */
  function RenderImperial(feet: int, wholeInches: int, fractionString: string): string
  {
    if feet == 0 && wholeInches == 0 && fractionString != "" then
      Trim(fractionString) + "\""
    else if feet == 0 then
      IntToDecimal(wholeInches) + fractionString + "\""
    else if wholeInches == 0 && fractionString == "" then
      IntToDecimal(feet) + "'"
    else if wholeInches == 0 && fractionString != "" then
      IntToDecimal(feet) + "'" + fractionString + "\""
    else
      IntToDecimal(feet) + "' " + IntToDecimal(wholeInches) + fractionString + "\""
  }

  /** The number of quarter inches a value of decimal feet rounds to:
      Math.round(decimalFeet * 12 * 4). */
  function QuarterInches(decimalFeet: real): int
  {
    MathRound(decimalFeet * 12.0 * 4.0)
  }

  /** The rounded count is the nearest one: the displayed length is within
      one eighth of an inch (1/96 ft) of the value. */
  lemma QuarterInchesNearest(decimalFeet: real)
    ensures var q := QuarterInches(decimalFeet);
      -1.0 / 96.0 < q as real / 48.0 - decimalFeet <= 1.0 / 96.0
  {
  }

  /** The parts computed with floors on real numbers are the Euclidean
      quotients and remainders of the quarter-inch count `q`: feet is
      floor(q/48), whole inches lie in 0..11, and the fraction is 0, 1/4,
      1/2 or 3/4 of an inch. */
  lemma ImperialPartsFromQuarterCount(decimalFeet: real)
    ensures var q := QuarterInches(decimalFeet);
      var p := ImperialPartsOf(decimalFeet);
      && p.feet == q / 48
      && p.wholeInches == (q % 48) / 4 && 0 <= p.wholeInches < 12
      && p.fraction == (q % 4) as real / 4.0
  {
    var q := QuarterInches(decimalFeet);
    assert MathRound(decimalFeet * 12.0 * 4.0) == q;
    FeetOfQuarterCount(q);
    RemainingInchesOfQuarterCount(q);
    WholeInchesFloor((q % 48) / 4, q % 4);
  }

  /** Math.floor(q / 4 / 12) is the Euclidean quotient of q by 48. */
  lemma FeetOfQuarterCount(q: int)
    ensures MathFloor(q as real / 4.0 / 12.0) == q / 48
  {
    var f, m := q / 48, q % 48;
    assert q as real / 4.0 / 12.0 == f as real + m as real / 48.0;
  }

  /** What is left after the whole feet: whole inches and quarters. */
  lemma RemainingInchesOfQuarterCount(q: int)
    ensures q as real / 4.0 - (q / 48 * 12) as real == ((q % 48) / 4) as real + (q % 4) as real / 4.0
  {
    QuarterCountDecomposition(q);
    InchesBeyondFeet(q, q / 48, (q % 48) / 4, q % 4);
  }

  /** q is 48 per foot, 4 per whole inch, and the quarters left over. */
  lemma QuarterCountDecomposition(q: int)
    ensures q == 48 * (q / 48) + 4 * ((q % 48) / 4) + q % 4
  {
    var f, m := q / 48, q % 48;
    var w, t := m / 4, m % 4;
    assert q == 4 * (12 * f + w) + t;
    QuartersLeftOver(q, 12 * f + w, t);
  }

  /** The remainder by 4 is the only one in 0..3. */
  lemma QuartersLeftOver(q: int, k: int, t: int)
    requires q == 4 * k + t && 0 <= t < 4
    ensures q % 4 == t
  {
  }

  /** The same decomposition in real arithmetic, in inches. */
  lemma InchesBeyondFeet(q: int, feet: int, inches: int, quarters: int)
    requires q == 48 * feet + 4 * inches + quarters
    ensures q as real / 4.0 - (feet * 12) as real == inches as real + quarters as real / 4.0
  {
  }

  /** Whole inches plus a fraction below one floor to the whole inches. */
  lemma WholeInchesFloor(w: int, t: int)
    requires 0 <= t < 4
    ensures MathFloor(w as real + t as real / 4.0) == w
  {
  }

  /** The text feetToFraction shows for a count of `q` quarter inches,
      stated directly on integers: whole quarters give `N'`, `I"` or
      `N' I"`; a fractional quarter adds ` 1/4`, ` 1/2` or ` 3/4`
      (alone when there are neither feet nor inches). */
  function ImperialText(q: int): string
  {
    PartsText(q / 48, (q % 48) / 4, q % 4)
  }

  /** The text for whole feet, whole inches and quarters of an inch. */
  function PartsText(feet: int, inches: int, quarters: int): string
  {
    var frac := QuarterText(quarters);
    if quarters == 0 then
      if feet == 0 then IntToDecimal(inches) + "\""
      else if inches == 0 then IntToDecimal(feet) + "'"
      else IntToDecimal(feet) + "' " + IntToDecimal(inches) + "\""
    else
      if feet == 0 && inches == 0 then frac + "\""
      else if feet == 0 then IntToDecimal(inches) + " " + frac + "\""
      else if inches == 0 then IntToDecimal(feet) + "' " + frac + "\""
      else IntToDecimal(feet) + "' " + IntToDecimal(inches) + " " + frac + "\""
  }

  /** The fraction of an inch, as text, for 1, 2 or 3 quarters. */
  function QuarterText(quarters: int): string
  {
    if quarters == 1 then "1/4" else if quarters == 2 then "1/2" else "3/4"
  }

  lemma FractionStringOfQuarters(quarters: int)
    requires 0 <= quarters < 4
    ensures FractionString(quarters as real / 4.0)
      == if quarters == 0 then "" else " " + QuarterText(quarters)
  {
  }

  lemma TrimFractionString(quarters: int)
    requires 0 < quarters < 4
    ensures Trim(" " + QuarterText(quarters)) == QuarterText(quarters)
  {
    var t := QuarterText(quarters);
    assert (" " + t)[1..] == t;
    assert TrimStart(" " + t) == t by {
      assert IsWhiteSpace((" " + t)[0]);
      assert !IsWhiteSpace(t[0]);
    }
    assert !IsWhiteSpace(t[2]);
  }

  lemma RenderMatchesImperialText(q: int, feet: int, wholeInches: int, fractionString: string)
    requires feet == q / 48 && wholeInches == (q % 48) / 4
    requires fractionString == FractionString((q % 4) as real / 4.0)
    ensures RenderImperial(feet, wholeInches, fractionString) == ImperialText(q)
  {
    RenderMatchesPartsText(feet, wholeInches, q % 4);
  }

  lemma RenderMatchesPartsText(feet: int, wholeInches: int, quarters: int)
    requires 0 <= quarters < 4
    ensures RenderImperial(feet, wholeInches, FractionString(quarters as real / 4.0))
      == PartsText(feet, wholeInches, quarters)
  {
    FractionStringOfQuarters(quarters);
    if quarters == 0 {
      RenderWhole(feet, wholeInches);
    } else {
      TrimFractionString(quarters);
      RenderWithFraction(feet, wholeInches, QuarterText(quarters));
    }
  }

  lemma RenderWhole(feet: int, wholeInches: int)
    ensures RenderImperial(feet, wholeInches, "") == PartsText(feet, wholeInches, 0)
  {
  }

  lemma RenderWithFraction(feet: int, wholeInches: int, frac: string)
    requires Trim(" " + frac) == frac
    ensures RenderImperial(feet, wholeInches, " " + frac)
      == if feet == 0 && wholeInches == 0 then frac + "\""
         else if feet == 0 then IntToDecimal(wholeInches) + " " + frac + "\""
         else if wholeInches == 0 then IntToDecimal(feet) + "' " + frac + "\""
         else IntToDecimal(feet) + "' " + IntToDecimal(wholeInches) + " " + frac + "\""
  {
    var a, b := IntToDecimal(feet), IntToDecimal(wholeInches);
    assert b + (" " + frac) + "\"" == b + " " + frac + "\"";
    assert a + "'" + (" " + frac) + "\"" == a + "' " + frac + "\"";
    assert a + "' " + b + (" " + frac) + "\"" == a + "' " + b + " " + frac + "\"";
  }

  /** Two values in the same quarter inch are displayed alike. */
  lemma SameQuarterSameText(a: real, b: real)
    requires QuarterInches(a) == QuarterInches(b)
    ensures FeetToFraction(Num(Finite(a))) == FeetToFraction(Num(Finite(b)))
  {
  }

  lemma NoSlashInDigits(s: string)
    requires AllDigits(s)
    ensures '/' !in s && '\'' !in s && '"' !in s && ' ' !in s
  {
  }

  lemma NoSlashInInteger(n: int)
    ensures '/' !in IntToDecimal(n)
  {
    NoSlashInDigits(if n < 0 then NatToDecimal(-n) else NatToDecimal(n));
  }

  /** A fraction of an inch is shown exactly when the rounded length is not
      a whole number of inches. */
  lemma ImperialTextShowsFraction(q: int)
    ensures '/' in ImperialText(q) <==> q % 4 != 0
  {
    var feet, inches := q / 48, (q % 48) / 4;
    NoSlashInInteger(feet);
    NoSlashInInteger(inches);
    var s := ImperialText(q);
    if q % 4 != 0 {
      var frac := QuarterText(q % 4);
      assert frac[1] == '/';
      var prefix := s[..|s| - 4];
      assert s == prefix + frac + "\"";
      assert s[|s| - 3] == '/';
    }
  }

  /** The output ends with the feet mark exactly when the length is a
      non-zero whole number of feet; otherwise it ends with the inch mark. */
  lemma ImperialTextEnding(q: int)
    ensures var s := ImperialText(q);
      |s| > 0 && (s[|s| - 1] == '\'' <==> q % 48 == 0 && q != 0)
      && (s[|s| - 1] != '\'' ==> s[|s| - 1] == '"')
  {
  }

  /** The display shapes on concrete lengths, one lemma each: a quarter
      inch alone, zero, whole feet, feet with half an inch, feet with
      inches and a half, and a negative length, where the floor gives
      negative feet but positive inches. */
  lemma QuarterInchShape(decimalFeet: real)
    requires decimalFeet == 1.0 / 48.0
    ensures FeetToFraction(Num(Finite(decimalFeet))) == "1/4\""
  {
    assert QuarterInches(decimalFeet) == 1 by {
      assert decimalFeet * 12.0 * 4.0 == 1.0;
    }
    ShapeOfQuarterCount(decimalFeet, 1);
    assert ImperialText(1) == PartsText(0, 0, 1);
  }

  lemma ZeroShape(decimalFeet: real)
    requires decimalFeet == 0.0
    ensures FeetToFraction(Num(Finite(decimalFeet))) == "0\""
  {
    assert QuarterInches(decimalFeet) == 0 by {
      assert decimalFeet * 12.0 * 4.0 == 0.0;
    }
    ShapeOfQuarterCount(decimalFeet, 0);
    assert ImperialText(0) == PartsText(0, 0, 0);
  }

  lemma WholeFeetShape(decimalFeet: real)
    requires decimalFeet == 8.0
    ensures FeetToFraction(Num(Finite(decimalFeet))) == "8'"
  {
    assert QuarterInches(decimalFeet) == 384 by {
      assert decimalFeet * 12.0 * 4.0 == 384.0;
    }
    ShapeOfQuarterCount(decimalFeet, 384);
    assert ImperialText(384) == PartsText(8, 0, 0);
  }

  lemma FeetAndFractionShape(decimalFeet: real)
    requires decimalFeet == 8.0 + 0.5 / 12.0
    ensures FeetToFraction(Num(Finite(decimalFeet))) == "8' 1/2\""
  {
    assert QuarterInches(decimalFeet) == 386 by {
      assert decimalFeet * 12.0 * 4.0 == 386.0;
    }
    ShapeOfQuarterCount(decimalFeet, 386);
    assert ImperialText(386) == PartsText(8, 0, 2);
  }

  lemma FeetInchesAndFractionShape(decimalFeet: real)
    requires decimalFeet == 8.0 + 5.5 / 12.0
    ensures FeetToFraction(Num(Finite(decimalFeet))) == "8' 5 1/2\""
  {
    assert QuarterInches(decimalFeet) == 406 by {
      assert decimalFeet * 12.0 * 4.0 == 406.0;
    }
    ShapeOfQuarterCount(decimalFeet, 406);
    FeetInchesAndFractionText(406);
  }

  lemma FeetInchesAndFractionText(q: int)
    requires q == 406
    ensures ImperialText(q) == "8' 5 1/2\""
  {
    assert q / 48 == 8 && (q % 48) / 4 == 5 && q % 4 == 2;
    assert IntToDecimal(8) == "8" && IntToDecimal(5) == "5";
  }

  lemma NegativeShape(decimalFeet: real)
    requires decimalFeet == -0.5
    ensures FeetToFraction(Num(Finite(decimalFeet))) == "-1' 6\""
  {
    assert QuarterInches(decimalFeet) == -24 by {
      assert decimalFeet * 12.0 * 4.0 == -24.0;
    }
    ShapeOfQuarterCount(decimalFeet, -24);
    assert ImperialText(-24) == PartsText(-1, 6, 0);
    assert IntToDecimal(-1) == "-1";
  }

  lemma ShapeOfQuarterCount(decimalFeet: real, q: int)
    requires QuarterInches(decimalFeet) == q
    ensures FeetToFraction(Num(Finite(decimalFeet))) == ImperialText(q)
  {
  }

  // ---------------------------------------------------------------------
  // Metric: cmToMetres
  // ---------------------------------------------------------------------

  /** The quantities cmToMetres derives: metres by floor, centimetres by the
      remainder operator (whose sign follows the dividend). */
  function MetresOf(cm: real): int
  {
    MathFloor(cm / 100.0)
  }

  function RemainingCmOf(cm: real): real
  {
    JsRemainder(cm, 100.0)
  }

  /** cmToMetres: the placeholder exactly when there is no number, and
      otherwise a length ending with the unit `m` or `cm`. */
  function CmToMetres(cm: NumberOrNothing): (s: string)
    ensures cm.Num? && cm.n.Finite? ==> EndsWithUnit(s)
  {
    if !cm.Num? || cm.n.NaN? then NoValue
    else
      var metres := MetresOf(cm.n.r);
      var remainingCm := RemainingCmOf(cm.n.r);
      if metres == 0 then ToFixed1(remainingCm) + "cm"
      else if remainingCm == 0.0 then IntToDecimal(metres) + "m"
      else IntToDecimal(metres) + "m " + ToFixed1(remainingCm) + "cm"
  }

  /** For a non-negative length the two parts add back up to it, and the
      centimetre part lies in [0, 100). */
  lemma MetricSplitNonNegative(cm: real)
    requires cm >= 0.0
    ensures MetresOf(cm) >= 0
    ensures MetresOf(cm) as real * 100.0 + RemainingCmOf(cm) == cm
    ensures 0.0 <= RemainingCmOf(cm) < 100.0
  {
    assert Truncate(cm / 100.0) == MetresOf(cm);
  }

  /** For a negative length that is not a whole number of metres, floor and
      the remainder operator round in opposite directions: the parts add up
      to one metre less than the length. */
  lemma MetricSplitNegative(cm: real)
    requires cm < 0.0 && RemainingCmOf(cm) != 0.0
    ensures MetresOf(cm) as real * 100.0 + RemainingCmOf(cm) == cm - 100.0
    ensures -100.0 < RemainingCmOf(cm) < 0.0
  {
    var x := cm / 100.0;
    var t := (-x).Floor;
    assert Truncate(x) == -t;
    assert x != (-t) as real;
    assert MathFloor(x) == -t - 1;
  }

  /** The three shapes of cmToMetres, one lemma each, and the effect of
      testing the unrounded remainder while showing it rounded: 199.99 cm
      is neither a whole number of metres nor shown as two metres. */
  lemma CentimetresOnlyShape(cm: real)
    requires cm == 45.5
    ensures CmToMetres(Num(Finite(cm))) == "45.5cm"
  {
    assert MetresOf(cm) == 0;
    assert RemainingCmOf(cm) == 45.5 by {
      assert Truncate(cm / 100.0) == 0;
    }
    ToFixed1Example(45.5, 455);
    assert NatToDecimal(45) == "45";
  }

  lemma WholeMetresShape(cm: real)
    requires cm == 300.0
    ensures CmToMetres(Num(Finite(cm))) == "3m"
  {
    assert MetresOf(cm) == 3;
    assert RemainingCmOf(cm) == 0.0 by {
      assert Truncate(cm / 100.0) == 3;
    }
  }

  lemma MetresAndCentimetresShape(cm: real)
    requires cm == 250.0
    ensures CmToMetres(Num(Finite(cm))) == "2m 50.0cm"
  {
    assert MetresOf(cm) == 2;
    assert RemainingCmOf(cm) == 50.0 by {
      assert Truncate(cm / 100.0) == 2;
    }
    ToFixed1Example(50.0, 500);
    assert NatToDecimal(50) == "50";
  }

  lemma AlmostTwoMetresShape(cm: real)
    requires cm == 199.99
    ensures CmToMetres(Num(Finite(cm))) == "1m 100.0cm"
  {
    assert MetresOf(cm) == 1;
    assert RemainingCmOf(cm) == 99.99 by {
      assert Truncate(cm / 100.0) == 1;
    }
    ToFixed1Example(99.99, 1000);
    assert NatToDecimal(100) == "100" by {
      assert NatToDecimal(10) == "10";
    }
  }

  /** toFixed(1) of a non-negative value whose tenths round to `tenths`. */
  lemma ToFixed1Example(x: real, tenths: nat)
    requires x >= 0.0 && tenths as real - 0.5 <= 10.0 * x < tenths as real + 0.5
    ensures ToFixed1(x) == TenthsText(tenths)
  {
    assert MathRound(10.0 * x) == tenths;
  }

  // ---------------------------------------------------------------------
  // formatDistance
  // ---------------------------------------------------------------------

  /** formatDistance shows a number: the value is given and parseFloat
      reads a number from it. */
  predicate HasNumber(value: JsValue)
  {
    !value.Null? && !value.Undefined? && value != Str("") && ParseFloat(value).Finite?
  }

  /** formatDistance: a value in feet (a number or a numeric string) shown
      in the selected unit; "imperial" selects feet and inches, every other
      unit string selects metres and centimetres. */
  function FormatDistance(value: JsValue, unit: string): (s: string)
    ensures value.Null? || value.Undefined? || value == Str("") || ParseFloat(value).NaN? ==> s == NoValue
    ensures HasNumber(value) && unit != "imperial" ==> EndsWithUnit(s)
  {
    if value.Null? || value.Undefined? || value == Str("") then NoValue
    else FormatParsed(ParseFloat(value), unit)
  }

  /** The rest of formatDistance once `parseFloat(value)` is known. */
  function FormatParsed(numValue: Number, unit: string): string
  {
    if numValue.NaN? then NoValue
    else if unit == "imperial" then FeetToFraction(Num(numValue))
    else CmToMetres(Num(Finite(numValue.r * CentimetresPerFoot)))
  }

  /** The dispatch of formatDistance: the placeholder for missing or
      non-numeric values, the quarter-inch rendering of the parsed feet in
      imperial, and the metric rendering of feet times 30.48 otherwise. */
  lemma FormatDistanceByUnit(value: JsValue, unit: string)
    ensures value == Str("") || ParseFloat(value).NaN? ==> FormatDistance(value, unit) == NoValue
    ensures value != Str("") && ParseFloat(value).Finite? && unit == "imperial" ==>
      FormatDistance(value, unit) == ImperialText(QuarterInches(ParseFloat(value).r))
    ensures value != Str("") && ParseFloat(value).Finite? && unit != "imperial" ==>
      FormatDistance(value, unit) == CmToMetres(Num(Finite(ParseFloat(value).r * CentimetresPerFoot)))
  {
    var n := ParseFloat(value);
    assert value != Str("") && n.Finite? ==> FormatDistance(value, unit) == FormatParsed(n, unit);
    if n.Finite? {
      FormatParsedByUnit(n.r, unit);
    }
  }

  lemma FormatParsedByUnit(x: real, unit: string)
    ensures unit == "imperial" ==> FormatParsed(Finite(x), unit) == ImperialText(QuarterInches(x))
    ensures unit != "imperial" ==> FormatParsed(Finite(x), unit) == CmToMetres(Num(Finite(x * CentimetresPerFoot)))
  {
    if unit == "imperial" {
      ImperialParsed(x);
    } else {
      MetricParsed(Finite(x), unit, x * CentimetresPerFoot);
    }
  }

  lemma MetricParsed(n: Number, unit: string, cm: real)
    requires n.Finite? && unit != "imperial" && cm == n.r * CentimetresPerFoot
    ensures FormatParsed(n, unit) == CmToMetres(Num(Finite(cm)))
  {
  }

  lemma ImperialParsed(x: real)
    ensures FormatParsed(Finite(x), "imperial") == ImperialText(QuarterInches(x))
  {
  }
}
