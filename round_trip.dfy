/**
  * Reading back what the formatters display. feetToFraction writes a
  * length as feet and inches rounded to the nearest quarter inch; when the
  * quarter count is a whole number of inches the text is one the imperial
  * parser accepts, and when it is not, the text holds a fraction that the
  * parser rejects.
  *
  * With the apostrophe after the feet required, every whole-inch display
  * reads back as the displayed length. As written, the apostrophe is
  * optional, and the displays `10"` and `11"` are split into one foot and
  * a single inch digit.
  */
module DistanceRoundTrip {
  import opened JsValues
  import opened JsNumbers
  import opened DistanceFormat
  import opened DistanceParse

  /** Decimal digits followed by a mark that is not whitespace are their
      own trim. */
  lemma DigitsThenMarkTrimmed(n: nat, marks: string)
    requires marks != [] && !IsWhiteSpace(marks[|marks| - 1])
    ensures Trim(NatToDecimal(n) + marks) == NatToDecimal(n) + marks
  {
    var s := NatToDecimal(n) + marks;
    NatToDecimalStartsWithDigit(n);
    assert s[0] == NatToDecimal(n)[0];
    assert s[|s| - 1] == marks[|marks| - 1];
    TrimUnchanged(s);
  }

  /** The display of a whole, non-negative number of inches: inches alone
      below one foot, feet alone on a whole number of feet, both otherwise. */
  lemma ImperialTextWhole(q: int)
    requires q >= 0 && q % 4 == 0
    ensures var feet, inches := q / 48, (q % 48) / 4;
      ImperialText(q) ==
        if feet == 0 then NatToDecimal(inches) + "\""
        else if inches == 0 then NatToDecimal(feet) + "'"
        else NatToDecimal(feet) + "' " + NatToDecimal(inches) + "\""
  {
  }

  /** `I"` for a number of inches below 12: read back as I/12 ft, except
      that the parser as written splits two-digit inch counts. */
  lemma ParseInchesText(inches: nat, apostropheRequired: bool)
    requires inches < 12 && (apostropheRequired || inches < 10)
    ensures ParseImperialWith(NatToDecimal(inches) + "\"", apostropheRequired)
      == Some(inches as real / 12.0)
  {
    var n := NatToDecimal(inches);
    var s := n + "\"";
    DigitsThenMarkTrimmed(inches, "\"");
    assert MatchTwoGroups(s, InchesAfterFeet(apostropheRequired)).None? by {
      if apostropheRequired {
        assert '\'' !in s by {
          NoSlashInDigits(n);
          if '\'' in s {
            SlashInConcatMark(n, "\"", '\'');
          }
        }
        NoSplitWithoutApostrophe(s);
      } else {
        assert n == [DigitChar(inches)];
        NoSplitOfOneDigit(DigitChar(inches), false);
      }
    }
    assert s[..|s| - 1] == n;
    NatToDecimalIsNumeral(inches);
    ParseImperialOfInchMark(s, apostropheRequired);
  }

  /** A character found in a concatenation is in one of its parts. */
  lemma SlashInConcatMark(a: string, b: string, c: char)
    requires c in a + b
    ensures c in a || c in b
  {
    var i :| 0 <= i < |a + b| && (a + b)[i] == c;
    if i < |a| {
      assert a[i] == c;
    } else {
      assert b[i - |a|] == c;
    }
  }

  /** The displays `10"` and `11"` are read by the parser as written as
      one foot plus the last digit in inches. */
  lemma ParseTwoDigitInchesText(inches: nat)
    requires 10 <= inches < 12
    ensures ParseImperial(NatToDecimal(inches) + "\"")
      == Some(1.0 + (inches - 10) as real / 12.0)
  {
    var s := NatToDecimal(inches) + "\"";
    DigitsThenMarkTrimmed(inches, "\"");
    assert NatToDecimal(inches) == NatToDecimal(1) + [DigitChar(inches - 10)];
    assert s == ['1', DigitChar(inches - 10), '"'];
    SplitOfTwoDigits('1', DigitChar(inches - 10));
    assert DigitValue('1') == 1;
    ParseImperialOfSplit(s, false, 1.0, (inches - 10) as real);
  }

  /** `N'` for a number of feet: read back as N ft. */
  lemma ParseFeetText(feet: nat, apostropheRequired: bool)
    ensures ParseImperialWith(NatToDecimal(feet) + "'", apostropheRequired) == Some(feet as real)
  {
    var n := NatToDecimal(feet);
    var s := n + "'";
    DigitsThenMarkTrimmed(feet, "'");
    NoSplitWithoutInchMark(s, apostropheRequired);
    assert s[..|s| - 1] == n;
    NatToDecimalIsNumeral(feet);
    ParseImperialOfFeetMark(s, apostropheRequired);
  }

  /** `N' I"` is its own trim. */
  lemma FeetInchesTextTrimmed(feet: nat, inches: nat)
    ensures var s := NatToDecimal(feet) + "' " + NatToDecimal(inches) + "\"";
      Trim(s) == s
  {
    var n, m := NatToDecimal(feet), NatToDecimal(inches);
    assert n + "' " + m + "\"" == n + ("' " + m + "\"");
    DigitsThenMarkTrimmed(feet, "' " + m + "\"");
  }

  /** `N' I"` splits after the feet. */
  lemma FeetInchesTextSplits(feet: nat, inches: nat, apostropheRequired: bool)
    ensures var s := NatToDecimal(feet) + "' " + NatToDecimal(inches) + "\"";
      MatchTwoGroups(s, InchesAfterFeet(apostropheRequired)) == Some((feet as real, inches as real))
  {
    NatToDecimalIsNumeral(feet);
    NatToDecimalIsNumeral(inches);
    SplitOfFeetAndInches(NatToDecimal(feet), NatToDecimal(inches), apostropheRequired);
  }

  /** `N' I"`: read back as N + I/12 ft. */
  lemma ParseFeetInchesText(feet: nat, inches: nat, apostropheRequired: bool)
    ensures ParseImperialWith(NatToDecimal(feet) + "' " + NatToDecimal(inches) + "\"", apostropheRequired)
      == Some(feet as real + inches as real / 12.0)
  {
    FeetInchesTextTrimmed(feet, inches);
    FeetInchesTextSplits(feet, inches, apostropheRequired);
    ParseImperialOfSplit(NatToDecimal(feet) + "' " + NatToDecimal(inches) + "\"", apostropheRequired,
      feet as real, inches as real);
  }

  /** Below one foot the display is inches alone. The part lemmas state
      their equalities between `Some` values, which the solver matches as
      terms instead of solving them as arithmetic. */
  lemma InchesParts(q: int) returns (inches: nat)
    requires 0 <= q < 48 && q % 4 == 0
    ensures Some(inches) == Some(q / 4) && inches < 12
    ensures (q == 40 || q == 44) <==> inches >= 10
    ensures ImperialText(q) == NatToDecimal(inches) + "\""
    ensures Some(inches as real / 12.0) == Some(q as real / 48.0)
  {
    InchesArithmetic(q);
    inches := q / 4;
    ImperialTextWhole(q);
  }

  /** On a whole number of feet the display is feet alone. */
  lemma FeetParts(q: int) returns (feet: nat)
    requires q > 0 && q % 48 == 0
    ensures ImperialText(q) == NatToDecimal(feet) + "'"
    ensures Some(feet as real) == Some(q as real / 48.0)
  {
    FeetArithmetic(q);
    feet := q / 48;
    ImperialTextWhole(q);
  }

  /** Otherwise the display is feet and inches. */
  lemma FeetInchesParts(q: int) returns (feet: nat, inches: nat)
    requires q >= 48 && q % 4 == 0 && q % 48 != 0
    ensures ImperialText(q) == NatToDecimal(feet) + "' " + NatToDecimal(inches) + "\""
    ensures Some(feet as real + inches as real / 12.0) == Some(q as real / 48.0)
  {
    FeetInchesArithmetic(q);
    feet, inches := q / 48, (q % 48) / 4;
    ImperialTextWhole(q);
  }

  /** Quarter counts below one foot, as whole inches. */
  lemma InchesArithmetic(q: int)
    requires 0 <= q < 48 && q % 4 == 0
    ensures q / 48 == 0 && (q % 48) / 4 == q / 4 && 0 <= q / 4 < 12
    ensures (q == 40 || q == 44) <==> q / 4 >= 10
    ensures Some((q / 4) as real / 12.0) == Some(q as real / 48.0)
  {
  }

  /** Quarter counts of whole feet. */
  lemma FeetArithmetic(q: int)
    requires q > 0 && q % 48 == 0
    ensures q / 48 != 0 && (q % 48) / 4 == 0
    ensures Some((q / 48) as real) == Some(q as real / 48.0)
  {
    assert q == 48 * (q / 48);
  }

  /** Quarter counts over a foot that are not whole feet. */
  lemma FeetInchesArithmetic(q: int)
    requires q >= 48 && q % 4 == 0 && q % 48 != 0
    ensures q / 48 != 0 && (q % 48) / 4 != 0 && 0 <= (q % 48) / 4
    ensures Some((q / 48) as real + ((q % 48) / 4) as real / 12.0) == Some(q as real / 48.0)
  {
    assert q == 48 * (q / 48) + 4 * ((q % 48) / 4);
  }

  /** An inches-only display reads back as the displayed length, except
      `10"` and `11"` when the apostrophe is optional. */
  lemma InchesDisplayRead(q: int, apostropheRequired: bool)
    requires 0 <= q < 48 && q % 4 == 0 && (apostropheRequired || (q != 40 && q != 44))
    ensures ParseImperialWith(ImperialText(q), apostropheRequired) == Some(q as real / 48.0)
  {
    var inches := InchesParts(q);
    ParseInchesText(inches, apostropheRequired);
  }

  /** A feet-only display reads back as the displayed length. */
  lemma FeetDisplayRead(q: int, apostropheRequired: bool)
    requires q > 0 && q % 48 == 0
    ensures ParseImperialWith(ImperialText(q), apostropheRequired) == Some(q as real / 48.0)
  {
    var feet := FeetParts(q);
    ParseFeetText(feet, apostropheRequired);
  }

  /** A feet-and-inches display reads back as the displayed length. */
  lemma FeetInchesDisplayRead(q: int, apostropheRequired: bool)
    requires q >= 48 && q % 4 == 0 && q % 48 != 0
    ensures ParseImperialWith(ImperialText(q), apostropheRequired) == Some(q as real / 48.0)
  {
    var feet, inches := FeetInchesParts(q);
    ParseFeetInchesText(feet, inches, apostropheRequired);
  }

  /** A whole-inch display other than `10"` and `11"` reads back as the
      displayed length, whether or not the apostrophe is required. */
  lemma WholeInchesRead(q: int, apostropheRequired: bool)
    requires q >= 0 && q % 4 == 0 && (apostropheRequired || (q != 40 && q != 44))
    ensures ParseImperialWith(ImperialText(q), apostropheRequired) == Some(q as real / 48.0)
  {
    if q < 48 {
      InchesDisplayRead(q, apostropheRequired);
    } else if q % 48 == 0 {
      FeetDisplayRead(q, apostropheRequired);
    } else {
      FeetInchesDisplayRead(q, apostropheRequired);
    }
  }

  /** With the apostrophe required, every whole-inch display of a
      non-negative length reads back as the displayed length: q quarter
      inches are q/48 ft. */
  lemma ImperialRoundTrip(q: int)
    requires q >= 0 && q % 4 == 0
    ensures ParseImperialStrict(ImperialText(q)) == Some(q as real / 48.0)
  {
    WholeInchesRead(q, true);
  }

  /** The parser as written reads every whole-inch display back except
      `10"` and `11"` (40 and 44 quarter inches), which it reads as one foot
      and one foot one inch. */
  lemma ImperialRoundTripAsWritten(q: int)
    requires q >= 0 && q % 4 == 0
    ensures ParseImperial(ImperialText(q))
      == if q == 40 || q == 44 then Some(1.0 + (q / 4 - 10) as real / 12.0)
         else Some(q as real / 48.0)
  {
    if q == 40 || q == 44 {
      TwoDigitInchesDisplayRead(q);
    } else {
      WholeInchesRead(q, false);
    }
  }

  /** `10"` and `11"`, as the parser as written reads them. */
  lemma TwoDigitInchesDisplayRead(q: int)
    requires q == 40 || q == 44
    ensures ParseImperial(ImperialText(q)) == Some(1.0 + (q / 4 - 10) as real / 12.0)
  {
    var inches := InchesParts(q);
    TwoDigitValue(q, inches);
    ParseTwoDigitInchesText(inches);
  }

  /** The length the parser as written gives `10"` and `11"`, in quarter counts. */
  lemma TwoDigitValue(q: int, inches: nat)
    requires (q == 40 || q == 44) && inches == q / 4
    ensures 10 <= inches < 12
    ensures Some(1.0 + (inches - 10) as real / 12.0) == Some(1.0 + (q / 4 - 10) as real / 12.0)
  {
  }

  /** The display `10"` (ten inches) is read back as a whole foot: the
      parser as written does not invert feetToFraction. */
  lemma TenInchesMisread(tenInches: real)
    requires tenInches == 10.0 / 12.0
    ensures FeetToFraction(Num(Finite(tenInches))) == "10\""
    ensures ParseImperial(FeetToFraction(Num(Finite(tenInches)))) == Some(1.0)
    ensures ParseImperialStrict(FeetToFraction(Num(Finite(tenInches)))) == Some(tenInches)
  {
    TenInchesDisplay(tenInches);
    ParseImperialSplitsTenInches();
    ParseImperialStrictTenInches();
  }

  /** Ten inches are 40 quarter inches, displayed `10"`. */
  lemma TenInchesDisplay(tenInches: real)
    requires tenInches == 10.0 / 12.0
    ensures FeetToFraction(Num(Finite(tenInches))) == "10\""
  {
    var q := QuarterInches(tenInches);
    assert q == 40;
    TenInchesText(q);
  }

  /** 40 quarter inches are displayed `10"`. */
  lemma TenInchesText(q: int)
    requires q == 40
    ensures ImperialText(q) == "10\""
  {
    ImperialTextWhole(q);
    assert NatToDecimal(10) == "10";
  }

  /** feetToFraction followed by the corrected parser gives back a length
      within one eighth of an inch of the original, whenever the display
      is a whole number of inches. */
  lemma FeetToFractionRoundTrip(decimalFeet: real)
    requires QuarterInches(decimalFeet) >= 0 && QuarterInches(decimalFeet) % 4 == 0
    ensures var r := ParseImperialStrict(FeetToFraction(Num(Finite(decimalFeet))));
      r.Some? && -1.0 / 96.0 <= r.value - decimalFeet <= 1.0 / 96.0
  {
    ImperialRoundTrip(QuarterInches(decimalFeet));
    QuarterInchesNearest(decimalFeet);
  }

  /** A display with a fraction of an inch is rejected by the parser,
      whether or not the apostrophe is required. */
  lemma FractionalDisplayRejected(decimalFeet: real, apostropheRequired: bool)
    requires QuarterInches(decimalFeet) % 4 != 0
    ensures ParseImperialWith(FeetToFraction(Num(Finite(decimalFeet))), apostropheRequired).None?
  {
    ImperialTextShowsFraction(QuarterInches(decimalFeet));
    ParseImperialRejectsForeign(FeetToFraction(Num(Finite(decimalFeet))), apostropheRequired, '/');
  }

  /** A negative quarter count makes negative feet, shown behind a minus
      sign that neither form of the parser accepts. */
  lemma NegativeImperialDisplayRejected(decimalFeet: real, apostropheRequired: bool)
    requires QuarterInches(decimalFeet) < 0
    ensures ParseImperialWith(FeetToFraction(Num(Finite(decimalFeet))), apostropheRequired).None?
  {
    var q := QuarterInches(decimalFeet);
    var s := ImperialText(q);
    assert q / 48 < 0;
    assert s[0] == '-';
    ParseImperialRejectsForeign(s, apostropheRequired, '-');
  }

  // ---------------------------------------------------------------------
  // Metric
  // ---------------------------------------------------------------------

  /** The tenths toFixed(1) keeps lie within half a tenth of the value. */
  lemma TenthsNear(x: real)
    requires x >= 0.0
    ensures MathRound(10.0 * x) >= 0
    ensures -0.05 < MathRound(10.0 * x) as real / 10.0 - x <= 0.05
  {
  }

  /** A numeral followed by a unit ending in a letter is its own trim. */
  lemma NumeralFirstTrimmed(n: string, unit: string)
    requires IsNumeral(n) && |unit| > 0 && !IsWhiteSpace(unit[|unit| - 1])
    ensures Trim(n + unit) == n + unit
  {
    NumeralEnds(n);
    var s := n + unit;
    assert s[0] == n[0] && s[|s| - 1] == unit[|unit| - 1];
    TrimUnchanged(s);
  }

  /** A numeral followed by `cm` reads back as that many centimetres. */
  lemma NumeralCentimetresRead(n: string)
    requires IsNumeral(n)
    ensures ParseMetric(n + "cm") == Some(NumeralValue(n) / CentimetresPerFoot)
  {
    NumeralFirstTrimmed(n, "cm");
    ParseMetricOfCentimetres(n + "cm", n, "cm");
  }

  /** `Nm` reads back as N metres. */
  lemma MetresDisplayRead(metres: nat)
    ensures ParseMetric(NatToDecimal(metres) + "m") == Some(metres as real * 100.0 / CentimetresPerFoot)
  {
    NatToDecimalIsNumeral(metres);
    NumeralMetresRead(NatToDecimal(metres), metres as real);
  }

  lemma NumeralMetresRead(n: string, metres: real)
    requires IsNumeral(n) && NumeralValue(n) == metres
    ensures ParseMetric(n + "m") == Some(metres * 100.0 / CentimetresPerFoot)
  {
    var s := n + "m";
    NumeralFirstTrimmed(n, "m");
    NumeralEnds(n);
    assert s[..|s| - 1] == n;
    ParseMetricOfMetres(s);
  }

  /** `Nm Xcm`, for numerals N and X, reads back as N metres and X
      centimetres. */
  lemma NumeralsMetresAndCentimetresRead(n: string, m: string, shown: real)
    requires IsNumeral(n) && IsNumeral(m) && shown == NumeralValue(n) * 100.0 + NumeralValue(m)
    ensures ParseMetric(n + "m " + m + "cm") == Some(shown / CentimetresPerFoot)
  {
    var s := n + "m " + m + "cm";
    assert s == n + (['m', ' '] + m + "cm");
    NumeralFirstTrimmed(n, ['m', ' '] + m + "cm");
    assert s == n + ['m', ' '] + m + "cm";
    ParseMetricOfMetresAndCentimetres(s, n, 'm', m, "cm");
    SameFeet(NumeralValue(n) * 100.0 + NumeralValue(m), shown);
  }

  /** Equal lengths in centimetres are equal lengths in feet. */
  lemma SameFeet(a: real, b: real)
    requires a == b
    ensures Some(a / CentimetresPerFoot) == Some(b / CentimetresPerFoot)
  {
  }

  /** A display read back as `shown` centimetres, within 0.05 cm of the
      length, gives the length back to within 0.05 cm. */
  lemma ReadWithin(display: string, shown: real, cm: real)
    requires ParseMetric(display) == Some(shown / CentimetresPerFoot)
    requires -0.05 <= shown - cm <= 0.05
    ensures var r := ParseMetric(display);
      r.Some? && -0.05 <= r.value * CentimetresPerFoot - cm <= 0.05
  {
  }

  /** The tenths shown stand for a value within 0.05 cm of the
      remainder. */
  lemma ShownWithin(shown: real, tenths: int, remainingCm: real)
    requires shown == tenths as real / 10.0
    requires -0.05 < tenths as real / 10.0 - remainingCm <= 0.05
    ensures -0.05 <= shown - remainingCm <= 0.05
  {
  }

  /** cmToMetres followed by parseMetric gives back a non-negative length
      to within the 0.05 cm that toFixed(1) may round away; a whole number
      of metres comes back exactly. */
  lemma CmToMetresRoundTrip(cm: real)
    requires cm >= 0.0
    ensures var r := ParseMetric(CmToMetres(Num(Finite(cm))));
      r.Some? && -0.05 <= r.value * CentimetresPerFoot - cm <= 0.05
  {
    MetricSplitNonNegative(cm);
    var metres, remainingCm := MetresOf(cm), RemainingCmOf(cm);
    var tenths := MathRound(10.0 * remainingCm);
    TenthsNear(remainingCm);
    var display := CmToMetres(Num(Finite(cm)));
    var m := TenthsText(tenths);
    TenthsIsNumeral(tenths);
    ShownWithin(NumeralValue(m), tenths, remainingCm);
    if metres == 0 {
      CentimetresOnlyRoundTrip(display, m, cm);
    } else if remainingCm == 0.0 {
      WholeMetresRoundTrip(display, metres, cm);
    } else {
      NatToDecimalIsNumeral(metres);
      MetresAndCentimetresRoundTrip(display, NatToDecimal(metres), m, remainingCm, cm);
    }
  }

  lemma CentimetresOnlyRoundTrip(display: string, m: string, cm: real)
    requires IsNumeral(m) && display == m + "cm"
    requires -0.05 <= NumeralValue(m) - cm <= 0.05
    ensures var r := ParseMetric(display);
      r.Some? && -0.05 <= r.value * CentimetresPerFoot - cm <= 0.05
  {
    NumeralCentimetresRead(m);
    ReadWithin(display, NumeralValue(m), cm);
  }

  lemma WholeMetresRoundTrip(display: string, metres: nat, cm: real)
    requires display == NatToDecimal(metres) + "m"
    requires metres as real * 100.0 == cm
    ensures var r := ParseMetric(display);
      r.Some? && -0.05 <= r.value * CentimetresPerFoot - cm <= 0.05
  {
    MetresDisplayRead(metres);
    ReadWithin(display, metres as real * 100.0, cm);
  }

  lemma MetresAndCentimetresRoundTrip(display: string, n: string, m: string, remainingCm: real, cm: real)
    requires IsNumeral(n) && IsNumeral(m) && display == n + "m " + m + "cm"
    requires NumeralValue(n) * 100.0 + remainingCm == cm
    requires -0.05 <= NumeralValue(m) - remainingCm <= 0.05
    ensures var r := ParseMetric(display);
      r.Some? && -0.05 <= r.value * CentimetresPerFoot - cm <= 0.05
  {
    var shown := NumeralValue(n) * 100.0 + NumeralValue(m);
    NumeralsMetresAndCentimetresRead(n, m, shown);
    ReadWithin(display, shown, cm);
  }

  /** formatDistance in metric units followed by parseMetric gives back a
      non-negative length in feet to within 0.05 cm. */
  lemma MetricRoundTrip(v: real, unit: string)
    requires v >= 0.0 && unit != "imperial"
    ensures var r := ParseMetric(FormatDistance(Num(Finite(v)), unit));
      r.Some? && -0.05 <= (r.value - v) * CentimetresPerFoot <= 0.05
  {
    var cm := v * CentimetresPerFoot;
    var display := FormatDistance(Num(Finite(v)), unit);
    MetricDisplayOf(v, unit);
    NonNegativeCentimetres(v);
    CmToMetresRoundTrip(cm);
    InFeet(display, v);
  }

  /** In metric units formatDistance shows the length times 30.48. */
  lemma MetricDisplayOf(v: real, unit: string)
    requires unit != "imperial"
    ensures FormatDistance(Num(Finite(v)), unit) == CmToMetres(Num(Finite(v * CentimetresPerFoot)))
  {
    FormatDistanceByUnit(Num(Finite(v)), unit);
  }

  lemma NonNegativeCentimetres(v: real)
    requires v >= 0.0
    ensures v * CentimetresPerFoot >= 0.0
  {
  }

  lemma NegativeCentimetres(v: real)
    requires v < 0.0
    ensures v * CentimetresPerFoot < 0.0
  {
  }

  /** A reading within 0.05 cm of a length in centimetres is, in feet,
      within 0.05 cm of the length in feet. */
  lemma InFeet(display: string, v: real)
    requires var r := ParseMetric(display);
      r.Some? && -0.05 <= r.value * CentimetresPerFoot - v * CentimetresPerFoot <= 0.05
    ensures var r := ParseMetric(display);
      r.Some? && -0.05 <= (r.value - v) * CentimetresPerFoot <= 0.05
  {
    var x := ParseMetric(display).value;
    assert (x - v) * CentimetresPerFoot == x * CentimetresPerFoot - v * CentimetresPerFoot;
  }

  /** A negative length is shown behind a minus sign, which parseMetric
      does not accept. */
  lemma NegativeMetricDisplayRejected(v: real, unit: string)
    requires v < 0.0 && unit != "imperial"
    ensures ParseMetric(FormatDistance(Num(Finite(v)), unit)).None?
  {
    MetricDisplayOf(v, unit);
    NegativeCentimetres(v);
    NegativeCmToMetres(v * CentimetresPerFoot);
    ParseMetricRejectsForeign(FormatDistance(Num(Finite(v)), unit), '-');
  }

  /** cmToMetres writes a negative length with negative metres, behind a
      minus sign. */
  lemma NegativeCmToMetres(cm: real)
    requires cm < 0.0
    ensures var s := CmToMetres(Num(Finite(cm))); |s| > 0 && s[0] == '-'
  {
    assert MetresOf(cm) < 0;
  }
}
