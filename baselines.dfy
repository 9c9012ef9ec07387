/**
  * The baseline formula engine of src/pages/SpeakerBaselines.jsx: from the
  * room dimensions typed into the page (kept as the raw input strings) and
  * a calculation type, the "Use as Baseline" handler builds a record of
  * labelled speaker distances, hands it to the baseline store and returns
  * to the home page.
  *
  * Each distance is a fixed ratio of one dimension, rendered by
  * feetToFraction; the formula strings show the raw input text.
  */
module SpeakerBaselines {
  import opened JsValues
  import opened JsNumbers
  import opened DistanceFormat

  /** The four calculation types, as the tabs pass them. */
  const CardasGoldenRatio: string := "cardas-golden-ratio"
  const PlanarEdge: string := "planar-edge"
  const RuleOfThirds: string := "rule-of-thirds"
  const EquilateralTriangle: string := "equilateral-triangle"

  /** `Math.sqrt(3)`: the double nearest to the square root of three. */
  const MathSqrt3: real := 1.7320508075688772

  /** One labelled distance of a baseline. */
  datatype Entry = Entry(labelText: string, value: string, formula: string)

  /** The record handed to the baseline store. `methodName` is None when the
      calculation type has no entry in the table of method names (the
      property read gives `undefined`). */
  datatype BaselineData = BaselineData(
    calculationType: JsValue,
    methodName: Option<string>,
    speakerType: string,
    values: seq<Entry>)

  /** The page's form state: the four dimensions as typed and the speaker
      type radio selection. */
  datatype RoomInputs = RoomInputs(
    roomLength: string,
    roomWidth: string,
    roomHeight: string,
    sidewallDistance: string,
    speakerType: string)

  /** The table of method names, by its own keys; names inherited from
      `Object.prototype` are not modelled. */
  function MethodName(calculationType: JsValue): (name: Option<string>)
    ensures name.Some? <==>
      calculationType in {Str(CardasGoldenRatio), Str(PlanarEdge), Str(RuleOfThirds), Str(EquilateralTriangle)}
  {
    if calculationType == Str(CardasGoldenRatio) then Some("Cardas Golden Ratio")
    else if calculationType == Str(PlanarEdge) then Some("Planar Edge Method")
    else if calculationType == Str(RuleOfThirds) then Some("Rule of 1/3's")
    else if calculationType == Str(EquilateralTriangle) then Some("Nearfield Listening")
    else None
  }

  /** `feetToFraction(parseFloat(dimension) * factor)`. */
  function RatioDisplay(dimension: string, factor: real): string
  {
    FeetToFraction(Num(Scale(ParseFloatString(dimension), factor)))
  }

  /** The formula text `<name> × <shown> (<dimension> × <factor>)`. */
  function RatioFormula(name: string, shown: string, dimension: string, factor: string): string
  {
    name + " \U{D7} " + shown + " (" + dimension + " \U{D7} " + factor + ")"
  }

  /** Whether the handler finds the dimensions the calculation type needs
      (a dimension is present when its input string is not empty). */
  predicate HasRequiredInputs(calculationType: JsValue, inputs: RoomInputs)
  {
    || (calculationType == Str(CardasGoldenRatio)
        && ((inputs.speakerType == "conventional" && inputs.roomWidth != "")
            || (inputs.speakerType == "planar" && inputs.roomHeight != "")))
    || (calculationType in {Str(PlanarEdge), Str(RuleOfThirds)} && inputs.roomLength != "")
    || (calculationType == Str(EquilateralTriangle)
        && inputs.roomWidth != "" && inputs.sidewallDistance != "")
  }

  /** The labels of a list of entries. */
  function Labels(values: seq<Entry>): (labels: seq<string>)
    ensures |labels| == |values|
    ensures forall i :: 0 <= i < |values| ==> labels[i] == values[i].labelText
  {
    if values == [] then [] else [values[0].labelText] + Labels(values[1..])
  }

  /** The value strings of a list of entries. */
  function Displays(values: seq<Entry>): (displays: seq<string>)
    ensures |displays| == |values|
    ensures forall i :: 0 <= i < |values| ==> displays[i] == values[i].value
  {
    if values == [] then [] else [values[0].value] + Displays(values[1..])
  }

  /** The record handleUseAsBaseline builds for a calculation type, before
      it is saved. The type's own entries are present exactly when the
      dimensions it needs are; the method name comes from the table. */
  function BuildBaseline(calculationType: JsValue, inputs: RoomInputs): (b: BaselineData)
    ensures b.calculationType == calculationType && b.speakerType == inputs.speakerType
    ensures b.methodName == MethodName(calculationType)
    ensures b.values == [] <==> !HasRequiredInputs(calculationType, inputs)
  {
    var values :=
      if calculationType == Str(CardasGoldenRatio) then CardasValues(inputs)
      else if calculationType == Str(PlanarEdge) && inputs.roomLength != "" then PlanarEdgeValues(inputs.roomLength)
      else if calculationType == Str(RuleOfThirds) && inputs.roomLength != "" then RuleOfThirdsValues(inputs.roomLength)
      else if calculationType == Str(EquilateralTriangle) && inputs.roomWidth != "" && inputs.sidewallDistance != "" then
        EquilateralValues(inputs.roomWidth, inputs.sidewallDistance)
      else [];
    BaselineData(calculationType, MethodName(calculationType), inputs.speakerType, values)
  }

  /** The Cardas golden ratio entries: by room width for conventional
      speakers, by ceiling height for planar ones, none without the
      dimension. */
  function CardasValues(inputs: RoomInputs): (values: seq<Entry>)
    ensures values == [] <==>
      !((inputs.speakerType == "conventional" && inputs.roomWidth != "")
        || (inputs.speakerType == "planar" && inputs.roomHeight != ""))
  {
    var width, height := inputs.roomWidth, inputs.roomHeight;
    if inputs.speakerType == "conventional" && width != "" then
      [ Entry("Front Wall", RatioDisplay(width, 0.447), RatioFormula("Room Width", "0.447", width, "0.447")),
        Entry("Side Wall", RatioDisplay(width, 0.276), RatioFormula("Room Width", "0.276", width, "0.276")) ]
    else if inputs.speakerType == "planar" && height != "" then
      [ Entry("Front Wall", RatioDisplay(height, 0.618), RatioFormula("Ceiling Height", "0.618", height, "0.618")) ]
    else []
  }

  function PlanarEdgeValues(length: string): seq<Entry>
  {
    [ Entry("Front Wall", RatioDisplay(length, 0.4), RatioFormula("Room Length", "0.4", length, "0.4")),
      Entry("Side Wall", "6\"", "Fixed value"),
      Entry("Listening Position", RatioDisplay(length, 0.8), RatioFormula("Room Length", "0.8", length, "0.8")) ]
  }

  function RuleOfThirdsValues(length: string): seq<Entry>
  {
    [ Entry("Front Wall", RatioDisplay(length, 0.3333), RatioFormula("Room Length", "33.33%", length, "0.3333")),
      Entry("Listening Position", RatioDisplay(length, 0.66), RatioFormula("Room Length", "66%", length, "0.66")) ]
  }

  /** The nearfield entries; the listening position is
      `feetToFraction((separation * Math.sqrt(3)) / 2)`. */
  function EquilateralValues(width: string, sidewall: string): seq<Entry>
  {
    var separation := Minus(ParseFloatString(width), Scale(ParseFloatString(sidewall), 2.0));
    [ Entry("Side Wall", FeetToFraction(Num(ParseFloatString(sidewall))), "Input value (" + sidewall + ")"),
      Entry("Listening Position", FeetToFraction(Num(Scale(Scale(separation, MathSqrt3), 0.5))),
            "(Speaker Separation \U{D7} \U{221A}3) / 2") ]
  }

  /** A distance that is a number is shown as its quarter-inch rendering. */
  lemma DistanceText(distance: Number, x: real)
    requires distance == Finite(x)
    ensures FeetToFraction(Num(distance)) == ImperialText(QuarterInches(x))
  {
  }

  /** A ratio of a dimension that is a number is shown as the quarter-inch
      rendering of that number. */
  lemma RatioDisplayText(dimension: string, factor: real, y: real)
    requires Scale(ParseFloatString(dimension), factor) == Finite(y)
    ensures RatioDisplay(dimension, factor) == ImperialText(QuarterInches(y))
  {
    var d := Scale(ParseFloatString(dimension), factor);
    assert RatioDisplay(dimension, factor) == FeetToFraction(Num(d));
    DistanceText(d, y);
  }

  /** An empty input parses to NaN, so a dimension that parses to a
      number was entered. */
  lemma EnteredWhenParsed(dimension: string)
    requires ParseFloatString(dimension).Finite?
    ensures dimension != ""
  {
  }

  /** The labels and the displays of two entries. */
  lemma TwoEntries(values: seq<Entry>, a: Entry, b: Entry)
    requires values == [a, b]
    ensures Labels(values) == [a.labelText, b.labelText] && Displays(values) == [a.value, b.value]
  {
  }

  /** The entries of the Cardas golden ratio for conventional speakers. */
  lemma CardasConventionalEntries(inputs: RoomInputs)
    requires inputs.speakerType == "conventional" && inputs.roomWidth != ""
    ensures var values := BuildBaseline(Str(CardasGoldenRatio), inputs).values;
      && Labels(values) == ["Front Wall", "Side Wall"]
      && Displays(values) == [RatioDisplay(inputs.roomWidth, 0.447), RatioDisplay(inputs.roomWidth, 0.276)]
  {
    var values := CardasValues(inputs);
    assert BuildBaseline(Str(CardasGoldenRatio), inputs).values == values;
    TwoEntries(values, values[0], values[1]);
  }

  /** Cardas golden ratio for conventional speakers: the front wall at
      0.447 and the side wall at 0.276 of the room width, each shown to
      the nearest quarter inch. */
  lemma CardasConventionalDistances(inputs: RoomInputs, width: real, front: real, side: real)
    requires inputs.speakerType == "conventional" && ParseFloatString(inputs.roomWidth) == Finite(width)
    requires front == width * 0.447 && side == width * 0.276
    ensures var values := BuildBaseline(Str(CardasGoldenRatio), inputs).values;
      && Labels(values) == ["Front Wall", "Side Wall"]
      && Displays(values) == [ImperialText(QuarterInches(front)), ImperialText(QuarterInches(side))]
  {
    EnteredWhenParsed(inputs.roomWidth);
    CardasConventionalEntries(inputs);
    RatioDisplayText(inputs.roomWidth, 0.447, front);
    RatioDisplayText(inputs.roomWidth, 0.276, side);
  }

  /** The entry of the Cardas golden ratio for planar speakers. */
  lemma CardasPlanarEntries(inputs: RoomInputs)
    requires inputs.speakerType == "planar" && inputs.roomHeight != ""
    ensures var values := BuildBaseline(Str(CardasGoldenRatio), inputs).values;
      && Labels(values) == ["Front Wall"]
      && Displays(values) == [RatioDisplay(inputs.roomHeight, 0.618)]
  {
    var values := CardasValues(inputs);
    assert BuildBaseline(Str(CardasGoldenRatio), inputs).values == values;
    assert Labels(values) == [values[0].labelText] + Labels([]);
    assert Displays(values) == [values[0].value] + Displays([]);
  }

  /** Cardas golden ratio for planar speakers: the front wall alone, at
      0.618 of the ceiling height. */
  lemma CardasPlanarDistances(inputs: RoomInputs, height: real, front: real)
    requires inputs.speakerType == "planar" && ParseFloatString(inputs.roomHeight) == Finite(height)
    requires front == height * 0.618
    ensures var values := BuildBaseline(Str(CardasGoldenRatio), inputs).values;
      && Labels(values) == ["Front Wall"]
      && Displays(values) == [ImperialText(QuarterInches(front))]
  {
    EnteredWhenParsed(inputs.roomHeight);
    CardasPlanarEntries(inputs);
    RatioDisplayText(inputs.roomHeight, 0.618, front);
  }

  /** The entries of the planar edge method. */
  lemma PlanarEdgeEntries(inputs: RoomInputs)
    requires inputs.roomLength != ""
    ensures var values := BuildBaseline(Str(PlanarEdge), inputs).values;
      && Labels(values) == ["Front Wall", "Side Wall", "Listening Position"]
      && Displays(values) == [RatioDisplay(inputs.roomLength, 0.4), "6\"", RatioDisplay(inputs.roomLength, 0.8)]
  {
    var values := PlanarEdgeValues(inputs.roomLength);
    assert BuildBaseline(Str(PlanarEdge), inputs).values == values;
    assert values == [values[0]] + [values[1], values[2]];
    TwoEntries(values[1..], values[1], values[2]);
  }

  /** Planar edge: the front wall at 0.4 of the room length, a fixed six
      inches from the side wall, the listening position at 0.8. */
  lemma PlanarEdgeDistances(inputs: RoomInputs, length: real, front: real, listening: real)
    requires ParseFloatString(inputs.roomLength) == Finite(length)
    requires front == length * 0.4 && listening == length * 0.8
    ensures var values := BuildBaseline(Str(PlanarEdge), inputs).values;
      && Labels(values) == ["Front Wall", "Side Wall", "Listening Position"]
      && Displays(values) == [ImperialText(QuarterInches(front)), "6\"", ImperialText(QuarterInches(listening))]
  {
    EnteredWhenParsed(inputs.roomLength);
    PlanarEdgeEntries(inputs);
    RatioDisplayText(inputs.roomLength, 0.4, front);
    RatioDisplayText(inputs.roomLength, 0.8, listening);
  }

  /** The entries of the rule of thirds. */
  lemma RuleOfThirdsEntries(inputs: RoomInputs)
    requires inputs.roomLength != ""
    ensures var values := BuildBaseline(Str(RuleOfThirds), inputs).values;
      && Labels(values) == ["Front Wall", "Listening Position"]
      && Displays(values) == [RatioDisplay(inputs.roomLength, 0.3333), RatioDisplay(inputs.roomLength, 0.66)]
  {
    var values := RuleOfThirdsValues(inputs.roomLength);
    assert BuildBaseline(Str(RuleOfThirds), inputs).values == values;
    TwoEntries(values, values[0], values[1]);
  }

  /** Rule of thirds: the front wall at 0.3333 and the listening position
      at 0.66 of the room length. */
  lemma RuleOfThirdsDistances(inputs: RoomInputs, length: real, front: real, listening: real)
    requires ParseFloatString(inputs.roomLength) == Finite(length)
    requires front == length * 0.3333 && listening == length * 0.66
    ensures var values := BuildBaseline(Str(RuleOfThirds), inputs).values;
      && Labels(values) == ["Front Wall", "Listening Position"]
      && Displays(values) == [ImperialText(QuarterInches(front)), ImperialText(QuarterInches(listening))]
  {
    EnteredWhenParsed(inputs.roomLength);
    RuleOfThirdsEntries(inputs);
    RatioDisplayText(inputs.roomLength, 0.3333, front);
    RatioDisplayText(inputs.roomLength, 0.66, listening);
  }

  /** The entries of the nearfield triangle. */
  lemma EquilateralEntries(inputs: RoomInputs)
    requires inputs.roomWidth != "" && inputs.sidewallDistance != ""
    ensures var values := BuildBaseline(Str(EquilateralTriangle), inputs).values;
      var separation := Minus(ParseFloatString(inputs.roomWidth), Scale(ParseFloatString(inputs.sidewallDistance), 2.0));
      && Labels(values) == ["Side Wall", "Listening Position"]
      && Displays(values) == [FeetToFraction(Num(ParseFloatString(inputs.sidewallDistance))),
                              FeetToFraction(Num(Scale(Scale(separation, MathSqrt3), 0.5)))]
  {
    var values := EquilateralValues(inputs.roomWidth, inputs.sidewallDistance);
    assert BuildBaseline(Str(EquilateralTriangle), inputs).values == values;
    TwoEntries(values, values[0], values[1]);
  }

  /** The listening distance of the nearfield triangle is the height of
      the equilateral triangle over the speaker separation. */
  lemma ListeningDistance(inputs: RoomInputs, width: real, sidewall: real, listening: real)
    requires ParseFloatString(inputs.roomWidth) == Finite(width)
    requires ParseFloatString(inputs.sidewallDistance) == Finite(sidewall)
    requires listening == (width - 2.0 * sidewall) * MathSqrt3 / 2.0
    ensures var separation := Minus(ParseFloatString(inputs.roomWidth), Scale(ParseFloatString(inputs.sidewallDistance), 2.0));
      Scale(Scale(separation, MathSqrt3), 0.5) == Finite(listening)
  {
  }

  /** Nearfield listening: the side wall distance as entered, and the
      listening position at the height of the equilateral triangle over the
      speaker separation, width minus twice the side wall distance. */
  lemma EquilateralDistances(inputs: RoomInputs, width: real, sidewall: real, listening: real)
    requires ParseFloatString(inputs.roomWidth) == Finite(width)
    requires ParseFloatString(inputs.sidewallDistance) == Finite(sidewall)
    requires listening == (width - 2.0 * sidewall) * MathSqrt3 / 2.0
    ensures var values := BuildBaseline(Str(EquilateralTriangle), inputs).values;
      && Labels(values) == ["Side Wall", "Listening Position"]
      && Displays(values) == [ImperialText(QuarterInches(sidewall)), ImperialText(QuarterInches(listening))]
  {
    EnteredWhenParsed(inputs.roomWidth);
    EnteredWhenParsed(inputs.sidewallDistance);
    EquilateralEntries(inputs);
    DistanceText(ParseFloatString(inputs.sidewallDistance), sidewall);
    var separation := Minus(ParseFloatString(inputs.roomWidth), Scale(ParseFloatString(inputs.sidewallDistance), 2.0));
    ListeningDistance(inputs, width, sidewall, listening);
    DistanceText(Scale(Scale(separation, MathSqrt3), 0.5), listening);
  }

  /** Nothing guards the nearfield triangle against a side wall distance
      of more than half the width: the listening position is then shown as
      a negative length. */
  lemma EquilateralNegativeSeparation(inputs: RoomInputs, width: real, sidewall: real)
    requires ParseFloatString(inputs.roomWidth) == Finite(width)
    requires ParseFloatString(inputs.sidewallDistance) == Finite(sidewall)
    requires width - 2.0 * sidewall <= -1.0 / 48.0
    ensures var listening := BuildBaseline(Str(EquilateralTriangle), inputs).values[1].value;
      |listening| > 0 && listening[0] == '-'
  {
    var x := (width - 2.0 * sidewall) * MathSqrt3 / 2.0;
    EquilateralDistances(inputs, width, sidewall, x);
    assert QuarterInches(x) < 0;
    NegativeImperialText(QuarterInches(x));
  }

  /** A negative quarter count is displayed with a leading minus sign. */
  lemma NegativeImperialText(q: int)
    requires q < 0
    ensures var s := ImperialText(q); |s| > 0 && s[0] == '-'
  {
    var feet := q / 48;
    assert feet < 0;
    assert IntToDecimal(feet)[0] == '-';
  }

  /** A display of feetToFraction: the placeholder, or a length ending with
      the feet or the inch mark. */
  predicate IsImperialDisplay(s: string)
  {
    s == NoValue || (|s| > 0 && (s[|s| - 1] == '\'' || s[|s| - 1] == '"'))
  }

  lemma FeetToFractionIsImperial(v: NumberOrNothing)
    ensures IsImperialDisplay(FeetToFraction(v))
  {
    if v.Num? && v.n.Finite? {
      ImperialTextEnding(QuarterInches(v.n.r));
    }
  }

  lemma RatioDisplayIsImperial(dimension: string, factor: real)
    ensures IsImperialDisplay(RatioDisplay(dimension, factor))
  {
    FeetToFractionIsImperial(Num(Scale(ParseFloatString(dimension), factor)));
  }

  /** Every distance in a baseline is shown in feet and inches, whatever
      display unit the user has selected. */
  lemma BaselineValuesAreImperial(calculationType: JsValue, inputs: RoomInputs)
    ensures forall e :: e in BuildBaseline(calculationType, inputs).values ==> IsImperialDisplay(e.value)
  {
    var values := BuildBaseline(calculationType, inputs).values;
    var length, width, height := inputs.roomLength, inputs.roomWidth, inputs.roomHeight;
    if values == [] {
    } else if calculationType == Str(CardasGoldenRatio) {
      assert values == CardasValues(inputs);
      RatioDisplayIsImperial(width, 0.447);
      RatioDisplayIsImperial(width, 0.276);
      RatioDisplayIsImperial(height, 0.618);
    } else if calculationType == Str(PlanarEdge) {
      assert values == PlanarEdgeValues(length);
      RatioDisplayIsImperial(length, 0.4);
      RatioDisplayIsImperial(length, 0.8);
    } else if calculationType == Str(RuleOfThirds) {
      assert values == RuleOfThirdsValues(length);
      RatioDisplayIsImperial(length, 0.3333);
      RatioDisplayIsImperial(length, 0.66);
    } else {
      var s := inputs.sidewallDistance;
      assert values == EquilateralValues(width, s);
      var separation := Minus(ParseFloatString(width), Scale(ParseFloatString(s), 2.0));
      FeetToFractionIsImperial(Num(ParseFloatString(s)));
      FeetToFractionIsImperial(Num(Scale(Scale(separation, MathSqrt3), 0.5)));
    }
  }

  /** `t` occurs in `s` as a contiguous piece. */
  ghost predicate ShowsText(s: string, t: string)
  {
    exists i :: OccursAt(s, t, i)
  }

  predicate OccursAt(s: string, t: string, i: int)
  {
    0 <= i <= |s| - |t| && s[i..i + |t|] == t
  }

  lemma ShowsMiddle(a: string, t: string, b: string)
    ensures ShowsText(a + t + b, t)
  {
    var s := a + t + b;
    assert OccursAt(s, t, |a|);
  }

  /** The formula of a ratio shows the dimension as it was typed, in
      parentheses before the multiplication sign. */
  lemma RatioFormulaShowsDimension(name: string, shown: string, dimension: string, factor: string)
    ensures ShowsText(RatioFormula(name, shown, dimension, factor), "(" + dimension + " \U{D7} ")
  {
    var a := name + " \U{D7} " + shown + " ";
    var t := "(" + dimension + " \U{D7} ";
    assert RatioFormula(name, shown, dimension, factor) == a + t + (factor + ")");
    ShowsMiddle(a, t, factor + ")");
  }

  /** Whether a formula shows one of the typed dimensions. */
  ghost predicate ShowsInput(formula: string, inputs: RoomInputs)
  {
    || ShowsText(formula, "(" + inputs.roomWidth + " \U{D7} ")
    || ShowsText(formula, "(" + inputs.roomHeight + " \U{D7} ")
    || ShowsText(formula, "(" + inputs.roomLength + " \U{D7} ")
    || ShowsText(formula, "(" + inputs.sidewallDistance + ")")
  }

  /** Whether a formula is one of the two fixed formulas or shows a typed
      dimension. */
  ghost predicate FixedOrShowsInput(formula: string, inputs: RoomInputs)
  {
    formula == "Fixed value" || formula == "(Speaker Separation \U{D7} \U{221A}3) / 2"
    || ShowsInput(formula, inputs)
  }

  /** Every formula of a baseline embeds the raw text of the dimension it
      was computed from, apart from the two fixed formulas: the planar
      edge side wall and the nearfield listening position. */
  lemma BaselineFormulasShowInputs(calculationType: JsValue, inputs: RoomInputs)
    ensures forall e :: e in BuildBaseline(calculationType, inputs).values ==> FixedOrShowsInput(e.formula, inputs)
  {
    var values := BuildBaseline(calculationType, inputs).values;
    if values == [] {
    } else if calculationType == Str(CardasGoldenRatio) {
      CardasFormulas(inputs);
    } else if calculationType == Str(PlanarEdge) {
      PlanarEdgeFormulas(inputs);
    } else if calculationType == Str(RuleOfThirds) {
      RuleOfThirdsFormulas(inputs);
    } else {
      EquilateralFormulas(inputs);
    }
  }

  lemma CardasFormulas(inputs: RoomInputs)
    ensures forall e :: e in CardasValues(inputs) ==> FixedOrShowsInput(e.formula, inputs)
  {
    var width, height := inputs.roomWidth, inputs.roomHeight;
    RatioFormulaShowsDimension("Room Width", "0.447", width, "0.447");
    RatioFormulaShowsDimension("Room Width", "0.276", width, "0.276");
    RatioFormulaShowsDimension("Ceiling Height", "0.618", height, "0.618");
  }

  lemma PlanarEdgeFormulas(inputs: RoomInputs)
    ensures forall e :: e in PlanarEdgeValues(inputs.roomLength) ==> FixedOrShowsInput(e.formula, inputs)
  {
    var length := inputs.roomLength;
    RatioFormulaShowsDimension("Room Length", "0.4", length, "0.4");
    RatioFormulaShowsDimension("Room Length", "0.8", length, "0.8");
  }

  lemma RuleOfThirdsFormulas(inputs: RoomInputs)
    ensures forall e :: e in RuleOfThirdsValues(inputs.roomLength) ==> FixedOrShowsInput(e.formula, inputs)
  {
    var length := inputs.roomLength;
    RatioFormulaShowsDimension("Room Length", "33.33%", length, "0.3333");
    RatioFormulaShowsDimension("Room Length", "66%", length, "0.66");
  }

  lemma EquilateralFormulas(inputs: RoomInputs)
    ensures forall e :: e in EquilateralValues(inputs.roomWidth, inputs.sidewallDistance) ==>
      FixedOrShowsInput(e.formula, inputs)
  {
    var s := inputs.sidewallDistance;
    ShowsMiddle("Input value ", "(" + s + ")", "");
    assert "Input value (" + s + ")" == "Input value " + ("(" + s + ")") + "";
  }

  /** The first tab shows its "Use as Baseline" button when the dimension
      its speaker type needs has been entered. */
  predicate CardasButtonShown(inputs: RoomInputs)
  {
    (inputs.speakerType == "conventional" && inputs.roomWidth != "")
    || (inputs.speakerType == "planar" && inputs.roomHeight != "")
  }

  /** The page: its form state, the baselines handed to the store, and the
      route it shows. */
  class BaselinePage {
    var inputs: RoomInputs
    var saved: seq<BaselineData>
    var location: string

    constructor(inputs: RoomInputs, location: string)
      ensures this.inputs == inputs && saved == [] && this.location == location
    {
      this.inputs := inputs;
      saved := [];
      this.location := location;
    }

    /** handleUseAsBaseline: the calculation type defaults to the Cardas
        golden ratio only when the argument is undefined; the record is
        saved once, whether or not it has entries, and the page returns to
        the home route. */
    method HandleUseAsBaseline(argument: JsValue)
      modifies this
      ensures inputs == old(inputs)
      ensures saved == old(saved)
        + [BuildBaseline(if argument.Undefined? then Str(CardasGoldenRatio) else argument, inputs)]
      ensures location == "/"
    {
      var calculationType := if argument.Undefined? then Str(CardasGoldenRatio) else argument;
      var baselineData := BuildBaseline(calculationType, inputs);
      saved := saved + [baselineData];
      location := "/";
    }

    /** The first tab's button as written: the click handler is passed
        directly, so the click event becomes the calculation type. The
        record saved has no method name and no entries, even though the
        button is shown only when the dimensions are there. */
    method ClickCardasButton(event: JsValue)
      requires event.Obj?
      modifies this
      ensures |saved| == |old(saved)| + 1 && saved[..|old(saved)|] == old(saved)
      ensures saved[|old(saved)|].methodName.None? && saved[|old(saved)|].values == []
      ensures location == "/"
    {
      HandleUseAsBaseline(event);
    }

    /** The first tab's button as intended: called without an argument,
        the handler takes the default type and saves the Cardas entries
        shown on the tab. */
    method ClickCardasButtonIntended()
      requires CardasButtonShown(inputs)
      modifies this
      ensures |saved| == |old(saved)| + 1 && saved[..|old(saved)|] == old(saved)
      ensures saved[|old(saved)|] == BuildBaseline(Str(CardasGoldenRatio), inputs)
      ensures saved[|old(saved)|].methodName == Some("Cardas Golden Ratio")
      ensures saved[|old(saved)|].values != []
      ensures location == "/"
    {
      HandleUseAsBaseline(Undefined);
    }
  }
}
