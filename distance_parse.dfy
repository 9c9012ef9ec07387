/**
  * The text parsers of src/lib/utils.js: parseImperial and parseMetric.
  * Each trims its input and tries anchored regular expressions in a fixed
  * order, returning a length in feet from the first pattern that matches.
  *
  * Every pattern is built from the numeral `\d+(?:\.\d+)?`. The
  * single-group patterns match in at most one way. In the two-group
  * patterns the second group and the separators are fixed once the first
  * group is: backtracking tries the candidates for the first group
  * (numeral prefixes of the input) from the longest to the shortest, so
  * the match found is the one with the longest first group for which the
  * rest of the pattern matches.
  */
module DistanceParse {
  import opened JsValues
  import opened JsNumbers
  import opened DistanceFormat

  // ---------------------------------------------------------------------
  // The numeral \d+(?:\.\d+)?
  // ---------------------------------------------------------------------

  /** `s` matches `\d+(?:\.\d+)?` exactly: digits, then optionally a point
      followed by at least one digit. */
  predicate IsNumeral(s: string)
  {
    var k := LeadingDigitCount(s);
    k > 0 && (k == |s| || (s[k] == '.' && k + 1 < |s| && AllDigits(s[k + 1..])))
  }

  /** The value of a numeral. */
  function NumeralValue(s: string): (v: real)
    requires IsNumeral(s)
    ensures v >= 0.0
  {
    var k := LeadingDigitCount(s);
    DigitsValue(s[..k]) as real + (if k < |s| then FractionValue(s[k + 1..]) else 0.0)
  }

  /** A string of digits is read entirely by LeadingDigitCount. */
  lemma LeadingDigitCountOfDigits(s: string)
    requires AllDigits(s)
    ensures LeadingDigitCount(s) == |s|
  {
  }

  /** The group values the source passes to parseFloat are the numeral
      values: parseFloat of a numeral reads all of it. */
  lemma ParseFloatOfNumeral(s: string)
    requires IsNumeral(s)
    ensures ParseFloatString(s) == Finite(NumeralValue(s))
  {
    var k := LeadingDigitCount(s);
    assert !IsWhiteSpace(s[0]);
    assert TrimStart(s) == s;
    assert ScanDecimal(s) == ScanUnsigned(s);
    if k < |s| {
      LeadingDigitCountOfDigits(s[k + 1..]);
      assert s[k + 1..][..|s| - k - 1] == s[k + 1..];
    }
    assert s[|s|..] == [];
  }

  /** A numeral consists of digits and points. */
  lemma NumeralChars(s: string)
    requires IsNumeral(s)
    ensures forall i :: 0 <= i < |s| ==> IsDigit(s[i]) || s[i] == '.'
  {
    var k := LeadingDigitCount(s);
    forall i | 0 <= i < |s| ensures IsDigit(s[i]) || s[i] == '.' {
      if i < k {
        assert s[..k][i] == s[i];
      } else if i > k {
        assert s[k + 1..][i - k - 1] == s[i];
      }
    }
  }

  /** A numeral begins and ends with a digit. */
  lemma NumeralEnds(s: string)
    requires IsNumeral(s)
    ensures IsDigit(s[0]) && IsDigit(s[|s| - 1])
  {
    var k := LeadingDigitCount(s);
    assert s[..k][0] == s[0];
    if k < |s| {
      assert s[k + 1..][|s| - k - 2] == s[|s| - 1];
    } else {
      assert s[..k][k - 1] == s[|s| - 1];
    }
  }

  /** The decimal rendering of a natural number is a numeral denoting it. */
  lemma NatToDecimalIsNumeral(n: nat)
    ensures IsNumeral(NatToDecimal(n))
    ensures NumeralValue(NatToDecimal(n)) == n as real
  {
    var s := NatToDecimal(n);
    LeadingDigitCountOfDigits(s);
    assert s[..|s|] == s;
    NatToDecimalValue(n);
  }

  /** The digits before a non-digit are read entirely by LeadingDigitCount. */
  lemma {:induction false} LeadingDigitCountBefore(a: string, rest: string)
    requires AllDigits(a) && |rest| > 0 && !IsDigit(rest[0])
    ensures LeadingDigitCount(a + rest) == |a|
  {
    if a != [] {
      assert (a + rest)[1..] == a[1..] + rest;
      LeadingDigitCountBefore(a[1..], rest);
    }
  }

  /** What toFixed(1) writes for a non-negative value, a whole part and
      one digit of tenths, is a numeral denoting that many tenths. */
  lemma TenthsIsNumeral(tenths: nat)
    ensures IsNumeral(TenthsText(tenths))
    ensures NumeralValue(TenthsText(tenths)) == tenths as real / 10.0
  {
    var a := NatToDecimal(tenths / 10);
    var d := DigitChar(tenths % 10);
    var s := a + "." + [d];
    assert s == a + ['.', d];
    LeadingDigitCountBefore(a, ['.', d]);
    assert s[|a| + 1..] == [d];
    assert s[..|a|] == a;
    NatToDecimalValue(tenths / 10);
    assert FractionValue([d]) == (tenths % 10) as real / 10.0 by {
      assert [d][1..] == [];
    }
  }

  // ---------------------------------------------------------------------
  // Pattern matching
  // ---------------------------------------------------------------------

  /** The part of a two-group pattern that follows its first group:
      `'?\s*(N)"` for feet and inches (with the apostrophe optional as in
      the source, or required), and `\s*m\s*(N)\s*cm` (case-insensitive)
      for metres and centimetres. */
  datatype Tail = InchesAfterFeet(apostropheRequired: bool) | CentimetresAfterMetres

  predicate IsLetterM(c: char)
  {
    c == 'm' || c == 'M'
  }

  predicate EndsWithCm(s: string)
  {
    |s| >= 2 && (s[|s| - 2] == 'c' || s[|s| - 2] == 'C') && IsLetterM(s[|s| - 1])
  }

  /** Matches the tail `t` against all of `r`, returning the value of the
      second group. */
  function MatchTail(t: Tail, r: string): (g: Option<real>)
    ensures g.Some? ==> g.value >= 0.0
    ensures g.Some? && t.InchesAfterFeet? ==> |r| > 0 && r[|r| - 1] == '"'
    ensures g.Some? && t.InchesAfterFeet? && t.apostropheRequired ==> r[0] == '\''
  {
    match t
    case InchesAfterFeet(required) =>
      var hasMark := |r| > 0 && r[0] == '\'';
      if required && !hasMark then None
      else
        var rest := if hasMark then r[1..] else r;
        TrimStartIsSuffix(rest);
        MatchBeforeMark(TrimStart(rest), '"')
    case CentimetresAfterMetres =>
      var u := TrimStart(r);
      if |u| > 0 && IsLetterM(u[0]) then MatchBeforeCentimetres(TrimStart(u[1..]))
      else None
  }

  /** The first group can end at position `j` of `s`. */
  predicate SplitsAt(s: string, j: nat, t: Tail)
  {
    0 < j <= |s| && IsNumeral(s[..j]) && MatchTail(t, s[j..]).Some?
  }

  /** The largest position j in 1..k satisfying `ok`, or 0 when there is
      none: trying positions from k downwards. */
  function LargestSatisfying(ok: nat -> bool, k: nat): (j: nat)
    ensures j <= k
    ensures j == 0 || ok(j)
    ensures forall i :: j < i <= k ==> !ok(i)
  {
    if k == 0 then 0
    else if ok(k) then k
    else LargestSatisfying(ok, k - 1)
  }

  /** The split backtracking settles on: the largest position at which
      the first group can end, or 0 when there is none. */
  function LongestSplit(s: string, t: Tail): (j: nat)
    ensures j <= |s|
    ensures j == 0 || SplitsAt(s, j, t)
    ensures forall i :: j < i <= |s| ==> !SplitsAt(s, i, t)
  {
    var ok := (i: nat) => SplitsAt(s, i, t);
    var j := LargestSatisfying(ok, |s|);
    assert forall i :: j < i <= |s| ==> !SplitsAt(s, i, t) by {
      forall i | j < i <= |s| ensures !SplitsAt(s, i, t) {
        assert !ok(i);
      }
    }
    j
  }

  /** A split that no longer split can beat is the one chosen. */
  lemma LongestSplitIs(s: string, t: Tail, j: nat)
    requires SplitsAt(s, j, t)
    requires forall i :: j < i <= |s| ==> !SplitsAt(s, i, t)
    ensures LongestSplit(s, t) == j
  {
  }

  /** `s.match(/^(N)<tail>$/)`: the values of both groups. */
  function MatchTwoGroups(s: string, t: Tail): (m: Option<(real, real)>)
    ensures m.Some? ==> m.value.0 >= 0.0 && m.value.1 >= 0.0
  {
    var j := LongestSplit(s, t);
    if j == 0 then None else Some((NumeralValue(s[..j]), MatchTail(t, s[j..]).value))
  }

  /** The two-group pattern fails exactly when the first group can end
      nowhere. */
  lemma MatchTwoGroupsFails(s: string, t: Tail)
    ensures MatchTwoGroups(s, t).None? <==> forall j :: 0 < j <= |s| ==> !SplitsAt(s, j, t)
  {
  }

  /** `s.match(/^(N)<mark>$/)`, for the feet mark `'` and the inch mark `"`. */
  function MatchBeforeMark(s: string, mark: char): (g: Option<real>)
    ensures g.Some? <==> |s| > 0 && s[|s| - 1] == mark && IsNumeral(s[..|s| - 1])
    ensures g.Some? ==> g.value >= 0.0
  {
    if |s| > 0 && s[|s| - 1] == mark && IsNumeral(s[..|s| - 1]) then
      Some(NumeralValue(s[..|s| - 1]))
    else None
  }

  /** `s.match(/^(N)\s*m$/i)`. */
  function MatchBeforeMetres(s: string): (g: Option<real>)
    ensures g.Some? <==> |s| > 0 && IsLetterM(s[|s| - 1]) && IsNumeral(TrimEnd(s[..|s| - 1]))
    ensures g.Some? ==> g.value >= 0.0
  {
    if |s| > 0 && IsLetterM(s[|s| - 1]) && IsNumeral(TrimEnd(s[..|s| - 1])) then
      Some(NumeralValue(TrimEnd(s[..|s| - 1])))
    else None
  }

  /** `s.match(/^(N)\s*cm$/i)`. */
  function MatchBeforeCentimetres(s: string): (g: Option<real>)
    ensures g.Some? <==> EndsWithCm(s) && IsNumeral(TrimEnd(s[..|s| - 2]))
    ensures g.Some? ==> g.value >= 0.0
  {
    if EndsWithCm(s) && IsNumeral(TrimEnd(s[..|s| - 2])) then
      Some(NumeralValue(TrimEnd(s[..|s| - 2])))
    else None
  }

  /** `s.match(/^(N)$/)`. */
  function MatchPlain(s: string): (g: Option<real>)
    ensures g.Some? <==> IsNumeral(s)
    ensures g.Some? ==> g.value >= 0.0
  {
    if IsNumeral(s) then Some(NumeralValue(s)) else None
  }

  // ---------------------------------------------------------------------
  // parseImperial and parseMetric
  // ---------------------------------------------------------------------

  /** The imperial parser with the apostrophe of the feet-and-inches
      pattern optional (as written) or required. Patterns, in order:
      feet and inches, feet alone (`8'`), inches alone (`10"`), a plain
      number taken as inches. */
  function ParseImperialWith(input: string, apostropheRequired: bool): (r: Option<real>)
    ensures Trim(input) == "" ==> r.None?
    ensures r.Some? ==> r.value >= 0.0
  {
    var str := Trim(input);
    if str == "" then None
    else
      match MatchTwoGroups(str, InchesAfterFeet(apostropheRequired))
      case Some(groups) => Some(groups.0 + groups.1 / 12.0)
      case None =>
        match MatchBeforeMark(str, '\'')
        case Some(feet) => Some(feet)
        case None =>
          match MatchBeforeMark(str, '"')
          case Some(inches) => Some(inches / 12.0)
          case None =>
            match MatchPlain(str)
            case Some(inches) => Some(inches / 12.0)
            case None => None
  }

  /** parseImperial as written: the apostrophe after the feet is optional. */
  function ParseImperial(input: string): (r: Option<real>)
    ensures Trim(input) == "" ==> r.None?
    ensures r.Some? ==> r.value >= 0.0
  {
    ParseImperialWith(input, false)
  }

  /** parseImperial with the apostrophe after the feet required, so that
      a number of inches alone is never split into feet and inches. */
  function ParseImperialStrict(input: string): (r: Option<real>)
    ensures Trim(input) == "" ==> r.None?
    ensures r.Some? ==> r.value >= 0.0
  {
    ParseImperialWith(input, true)
  }

  /** parseMetric. Patterns, in order: metres and centimetres, metres
      alone, centimetres alone, a plain number taken as centimetres; the
      unit letters match in either case. The result is in feet. */
  function ParseMetric(input: string): (r: Option<real>)
    ensures Trim(input) == "" ==> r.None?
    ensures r.Some? ==> r.value >= 0.0
  {
    var str := Trim(input);
    if str == "" then None
    else
      match MatchTwoGroups(str, CentimetresAfterMetres)
      case Some(groups) => Some((groups.0 * 100.0 + groups.1) / CentimetresPerFoot)
      case None =>
        match MatchBeforeMetres(str)
        case Some(metres) => Some(metres * 100.0 / CentimetresPerFoot)
        case None =>
          match MatchBeforeCentimetres(str)
          case Some(cm) => Some(cm / CentimetresPerFoot)
          case None =>
            match MatchPlain(str)
            case Some(cm) => Some(cm / CentimetresPerFoot)
            case None => None
  }

  // ---------------------------------------------------------------------
  // How the feet-and-inches pattern splits particular shapes of input
  // ---------------------------------------------------------------------

  /** With the apostrophe required, input without one never matches the
      feet-and-inches pattern. */
  lemma NoSplitWithoutApostrophe(s: string)
    requires '\'' !in s
    ensures MatchTwoGroups(s, InchesAfterFeet(true)).None?
  {
    forall j | 0 < j <= |s| ensures !SplitsAt(s, j, InchesAfterFeet(true)) {
      if j < |s| {
        assert s[j..][0] == s[j];
      }
    }
    MatchTwoGroupsFails(s, InchesAfterFeet(true));
  }

  /** Input that does not end with the inch mark never matches the
      feet-and-inches pattern. */
  lemma NoSplitWithoutInchMark(s: string, apostropheRequired: bool)
    requires |s| > 0 && s[|s| - 1] != '"'
    ensures MatchTwoGroups(s, InchesAfterFeet(apostropheRequired)).None?
  {
    forall j | 0 < j <= |s| ensures !SplitsAt(s, j, InchesAfterFeet(apostropheRequired)) {
      if j < |s| {
        assert s[j..][|s| - j - 1] == s[|s| - 1];
      }
    }
    MatchTwoGroupsFails(s, InchesAfterFeet(apostropheRequired));
  }

  /** The inch mark alone is not the rest of a feet-and-inches match: its
      second group would be empty. */
  lemma InchMarkAloneIsNoTail(apostropheRequired: bool)
    ensures MatchTail(InchesAfterFeet(apostropheRequired), "\"").None?
  {
    assert TrimStart("\"") == "\"";
    assert "\""[..0] == [];
  }

  /** A single digit followed by the inch mark does not match the
      feet-and-inches pattern. */
  lemma NoSplitOfOneDigit(c: char, apostropheRequired: bool)
    requires IsDigit(c)
    ensures MatchTwoGroups([c, '"'], InchesAfterFeet(apostropheRequired)).None?
  {
    var s := [c, '"'];
    var t := InchesAfterFeet(apostropheRequired);
    forall j | 0 < j <= |s| ensures !SplitsAt(s, j, t) {
      if j == 1 {
        assert s[1..] == "\"";
        InchMarkAloneIsNoTail(apostropheRequired);
      } else {
        NotNumeralWithMark(s, 1);
      }
    }
    MatchTwoGroupsFails(s, t);
  }

  /** A string holding a character other than a digit or a point is not a
      numeral. */
  lemma NotNumeralWithMark(s: string, i: nat)
    requires i < |s| && !IsDigit(s[i]) && s[i] != '.'
    ensures !IsNumeral(s) && s[..|s|] == s
  {
    if IsNumeral(s) {
      NumeralChars(s);
    }
  }

  /** A single digit is a numeral denoting its value. */
  lemma DigitNumeral(c: char)
    requires IsDigit(c)
    ensures IsNumeral([c]) && NumeralValue([c]) == DigitValue(c) as real
  {
    assert LeadingDigitCount([c]) == 1;
    assert [c][..1] == [c] && [c][..0] == [];
    assert DigitsValue([c]) == 10 * DigitsValue([]) + DigitValue(c);
  }

  /** A numeral followed by the inch mark is the rest of a
      feet-and-inches match when the apostrophe is optional. */
  lemma InchesTail(m: string)
    requires IsNumeral(m)
    ensures MatchTail(InchesAfterFeet(false), m + "\"") == Some(NumeralValue(m))
  {
    var inches := m + "\"";
    NumeralEnds(m);
    assert inches[0] == m[0];
    assert TrimStart(inches) == inches;
    assert inches[..|m|] == m;
    assert MatchBeforeMark(inches, '"') == Some(NumeralValue(m));
  }

  /** An apostrophe, a space, a numeral and the inch mark are the rest of
      a feet-and-inches match. */
  lemma ApostropheInchesTail(m: string, apostropheRequired: bool)
    requires IsNumeral(m)
    ensures MatchTail(InchesAfterFeet(apostropheRequired), "' " + m + "\"") == Some(NumeralValue(m))
  {
    var inches := m + "\"";
    var r := "' " + m + "\"";
    assert r[1..] == " " + inches;
    NumeralEnds(m);
    assert inches[0] == m[0];
    assert TrimStart(inches) == inches;
    assert TrimStart(" " + inches) == inches by {
      assert (" " + inches)[1..] == inches;
    }
    assert inches[..|m|] == m;
  }

  /** Two digits followed by the inch mark match the feet-and-inches
      pattern as written, split between the digits: the first digit is read
      as feet and the second as inches. */
  lemma SplitOfTwoDigits(c1: char, c2: char)
    requires IsDigit(c1) && IsDigit(c2)
    ensures MatchTwoGroups([c1, c2, '"'], InchesAfterFeet(false))
      == Some((DigitValue(c1) as real, DigitValue(c2) as real))
  {
    var s := [c1, c2, '"'];
    var t := InchesAfterFeet(false);
    assert SplitsAt(s, 1, t)
      && NumeralValue(s[..1]) == DigitValue(c1) as real
      && MatchTail(t, s[1..]) == Some(DigitValue(c2) as real) by {
      DigitNumeral(c1);
      DigitNumeral(c2);
      assert s[..1] == [c1] && s[1..] == [c2] + "\"";
      InchesTail([c2]);
    }
    assert !SplitsAt(s, 2, t) by {
      assert s[2..] == "\"";
      InchMarkAloneIsNoTail(false);
    }
    assert !SplitsAt(s, 3, t) by {
      NotNumeralWithMark(s, 2);
    }
    LongestSplitIs(s, t, 1);
  }

  /** `N' I"`: feet, an apostrophe, a space and inches split after the
      feet, with or without the apostrophe required. */
  lemma SplitOfFeetAndInches(n: string, m: string, apostropheRequired: bool)
    requires IsNumeral(n) && IsNumeral(m)
    ensures MatchTwoGroups(n + "' " + m + "\"", InchesAfterFeet(apostropheRequired))
      == Some((NumeralValue(n), NumeralValue(m)))
  {
    var s := n + "' " + m + "\"";
    var t := InchesAfterFeet(apostropheRequired);
    assert s[..|n|] == n && s[|n|..] == "' " + m + "\"";
    ApostropheInchesTail(m, apostropheRequired);
    forall i | |n| < i <= |s| ensures !SplitsAt(s, i, t) {
      assert s[..i][|n|] == '\'';
      NotNumeralWithMark(s[..i], |n|);
    }
    LongestSplitIs(s, t, |n|);
  }

  // ---------------------------------------------------------------------
  // How the metric patterns treat particular shapes of input
  // ---------------------------------------------------------------------

  /** The rest of a metres-and-centimetres match ends with `cm`. */
  lemma CentimetresTailEndsWithCm(r: string)
    requires MatchTail(CentimetresAfterMetres, r).Some?
    ensures EndsWithCm(r)
  {
    var u := TrimStart(r);
    assert |u| > 0 && MatchBeforeCentimetres(TrimStart(u[1..])).Some?;
    EndsWithCmAfterTrimStart(u[1..]);
    EndsWithCmAfterDrop(u);
    EndsWithCmAfterTrimStart(r);
  }

  /** trimStart keeps the last characters when what is left ends with `cm`. */
  lemma EndsWithCmAfterTrimStart(s: string)
    requires EndsWithCm(TrimStart(s))
    ensures EndsWithCm(s)
  {
    var w := TrimStart(s);
    TrimStartIsSuffix(s);
    assert s[|s| - 1] == w[|w| - 1] && s[|s| - 2] == w[|w| - 2];
  }

  /** Dropping the first character keeps the last ones. */
  lemma EndsWithCmAfterDrop(u: string)
    requires |u| > 0 && EndsWithCm(u[1..])
    ensures EndsWithCm(u)
  {
    assert u[|u| - 1] == u[1..][|u| - 2] && u[|u| - 2] == u[1..][|u| - 3];
  }

  /** Input that does not end with `cm` never matches the
      metres-and-centimetres pattern. */
  lemma NoMetricSplitWithoutCm(s: string)
    requires !EndsWithCm(s)
    ensures MatchTwoGroups(s, CentimetresAfterMetres).None?
  {
    forall j | 0 < j <= |s| ensures !SplitsAt(s, j, CentimetresAfterMetres) {
      NoMetricSplitAt(s, j);
    }
    MatchTwoGroupsFails(s, CentimetresAfterMetres);
  }

  /** The rest after any split point ends as the whole input does. */
  lemma NoMetricSplitAt(s: string, j: int)
    requires !EndsWithCm(s) && 0 < j <= |s|
    ensures MatchTail(CentimetresAfterMetres, s[j..]).None?
  {
    SuffixEndsAsWhole(s, j);
    if MatchTail(CentimetresAfterMetres, s[j..]).Some? {
      CentimetresTailEndsWithCm(s[j..]);
    }
  }

  /** A non-empty suffix ending in `cm` means the whole text does. */
  lemma SuffixEndsAsWhole(s: string, j: int)
    requires 0 <= j <= |s|
    ensures !EndsWithCm(s) ==> !EndsWithCm(s[j..])
  {
    var r := s[j..];
    if |r| >= 2 {
      assert r[|r| - 1] == s[|s| - 1] && r[|r| - 2] == s[|s| - 2];
    }
  }

  /** `m`, a space, a numeral and a spelling of `cm` are the rest of a
      metres-and-centimetres match. */
  lemma CentimetresTail(letter: char, m: string, unit: string)
    requires IsLetterM(letter) && IsNumeral(m) && |unit| == 2 && EndsWithCm(unit)
    ensures MatchTail(CentimetresAfterMetres, [letter, ' '] + m + unit) == Some(NumeralValue(m))
  {
    var r := [letter, ' '] + m + unit;
    NumeralEnds(m);
    LetterSpaceTrims(letter, m + unit);
    assert r == [letter, ' '] + (m + unit);
    NumeralBeforeCm(m, unit);
  }

  /** Trimming around the `m` and the space before the centimetres. */
  lemma LetterSpaceTrims(letter: char, w: string)
    requires IsLetterM(letter) && w != [] && IsDigit(w[0])
    ensures TrimStart([letter, ' '] + w) == [letter, ' '] + w
    ensures TrimStart(([letter, ' '] + w)[1..]) == w
  {
    var r := [letter, ' '] + w;
    assert r[1..] == [' '] + w;
    assert TrimStart(w) == w;
    assert ([' '] + w)[1..] == w;
  }

  /** A numeral followed by a spelling of `cm` matches the centimetres pattern. */
  lemma NumeralBeforeCm(m: string, unit: string)
    requires IsNumeral(m) && |unit| == 2 && EndsWithCm(unit)
    ensures MatchBeforeCentimetres(m + unit) == Some(NumeralValue(m))
  {
    var w := m + unit;
    NumeralEnds(m);
    assert w[..|w| - 2] == m;
    assert TrimEnd(m) == m;
  }

  /** `Am Bcm` splits after the metres. */
  lemma SplitOfMetresAndCentimetres(n: string, letter: char, m: string, unit: string)
    requires IsNumeral(n) && IsLetterM(letter) && IsNumeral(m) && |unit| == 2 && EndsWithCm(unit)
    ensures MatchTwoGroups(n + [letter, ' '] + m + unit, CentimetresAfterMetres)
      == Some((NumeralValue(n), NumeralValue(m)))
  {
    var s := n + [letter, ' '] + m + unit;
    var t := CentimetresAfterMetres;
    assert s[..|n|] == n && s[|n|..] == [letter, ' '] + m + unit;
    CentimetresTail(letter, m, unit);
    forall i | |n| < i <= |s| ensures !SplitsAt(s, i, t) {
      assert s[..i][|n|] == letter;
      NotNumeralWithMark(s[..i], |n|);
    }
    LongestSplitIs(s, t, |n|);
  }

  /** A numeral followed by a spelling of `cm` does not match the
      metres-and-centimetres pattern: no `m` follows the first group. */
  lemma NoMetricSplitOfCentimetres(n: string, unit: string)
    requires IsNumeral(n) && |unit| == 2 && EndsWithCm(unit)
    ensures MatchTwoGroups(n + unit, CentimetresAfterMetres).None?
  {
    var s := n + unit;
    var t := CentimetresAfterMetres;
    NumeralChars(n);
    forall j | 0 < j <= |s| ensures !SplitsAt(s, j, t) {
      if j < |n| {
        assert s[j..][0] == n[j];
        assert TrimStart(s[j..]) == s[j..];
      } else if j == |n| {
        assert s[j..] == unit;
        assert TrimStart(unit) == unit;
      } else {
        assert s[..j][|n|] == unit[0];
        NotNumeralWithMark(s[..j], |n|);
      }
    }
    MatchTwoGroupsFails(s, t);
  }

  /** `Am Bcm` (with the unit letters in either case) is A metres and B
      centimetres, converted to feet. */
  lemma ParseMetricOfMetresAndCentimetres(input: string, n: string, letter: char, m: string, unit: string)
    requires IsNumeral(n) && IsLetterM(letter) && IsNumeral(m) && |unit| == 2 && EndsWithCm(unit)
    requires Trim(input) == n + [letter, ' '] + m + unit
    ensures ParseMetric(input) == Some((NumeralValue(n) * 100.0 + NumeralValue(m)) / CentimetresPerFoot)
  {
    SplitOfMetresAndCentimetres(n, letter, m, unit);
  }

  /** A numeral followed by `m` (after optional blanks) is metres. */
  lemma ParseMetricOfMetres(input: string)
    requires MatchBeforeMetres(Trim(input)).Some?
    ensures ParseMetric(input) == Some(MatchBeforeMetres(Trim(input)).value * 100.0 / CentimetresPerFoot)
  {
    var s := Trim(input);
    var n := TrimEnd(s[..|s| - 1]);
    NumeralEnds(n);
    assert !EndsWithCm(s) by {
      if |n| < |s| - 1 {
        TrimEndDropsWhiteSpace(s[..|s| - 1]);
        assert IsWhiteSpace(s[..|s| - 1][|s| - 2]);
      } else {
        assert s[..|s| - 1][|s| - 2] == n[|n| - 1];
      }
    }
    NoMetricSplitWithoutCm(s);
  }

  /** A numeral followed by `cm` is centimetres. */
  lemma ParseMetricOfCentimetres(input: string, n: string, unit: string)
    requires IsNumeral(n) && |unit| == 2 && EndsWithCm(unit)
    requires Trim(input) == n + unit
    ensures ParseMetric(input) == Some(NumeralValue(n) / CentimetresPerFoot)
  {
    NoMetricSplitOfCentimetres(n, unit);
    NoMetresBeforeCm(n, unit);
    NumeralBeforeCm(n, unit);
  }

  /** A numeral followed by `cm` does not match the metres pattern. */
  lemma NoMetresBeforeCm(n: string, unit: string)
    requires IsNumeral(n) && |unit| == 2 && EndsWithCm(unit)
    ensures MatchBeforeMetres(n + unit).None?
  {
    var s := n + unit;
    assert s[..|s| - 1] == n + [unit[0]];
    assert TrimEnd(s[..|s| - 1]) == s[..|s| - 1];
    NotNumeralWithMark(s[..|s| - 1], |n|);
  }

  /** A plain number is taken as centimetres. */
  lemma ParseMetricOfNumeral(input: string)
    requires IsNumeral(Trim(input))
    ensures ParseMetric(input) == Some(NumeralValue(Trim(input)) / CentimetresPerFoot)
  {
    var s := Trim(input);
    NumeralEnds(s);
    NoMetricSplitWithoutCm(s);
  }

  // ---------------------------------------------------------------------
  // Examples
  // ---------------------------------------------------------------------

  /** Inches alone: `5"` is five twelfths of a foot. */
  lemma ParseImperialInches()
    ensures ParseImperial("5\"") == Some(5.0 / 12.0)
  {
    var s := "5\"";
    assert Trim(s) == s by { TrimUnchanged(s); }
    NoSplitOfOneDigit('5', false);
    assert s == ['5', '"'];
    assert s[..1] == ['5'];
    DigitNumeral('5');
  }

  /** Feet and inches: `8' 10"` is 8 10/12 feet. */
  lemma ParseImperialFeetAndInches()
    ensures ParseImperial("8' 10\"") == Some(8.0 + 10.0 / 12.0)
  {
    var s := "8' 10\"";
    assert Trim(s) == s by { TrimUnchanged(s); }
    NatToDecimalIsNumeral(8);
    NatToDecimalIsNumeral(10);
    assert s == NatToDecimal(8) + "' " + NatToDecimal(10) + "\"";
    SplitOfFeetAndInches(NatToDecimal(8), NatToDecimal(10), false);
  }

  /** Ten inches are read as one foot and no inches: the feet-and-inches
      pattern, tried first with its apostrophe optional, splits `10` into
      `1` and `0`. */
  lemma ParseImperialSplitsTenInches()
    ensures ParseImperial("10\"") == Some(1.0)
  {
    var s := "10\"";
    assert Trim(s) == s by { TrimUnchanged(s); }
    assert s == ['1', '0', '"'];
    assert MatchTwoGroups(s, InchesAfterFeet(false)) == Some((1.0, 0.0)) by {
      SplitOfTwoDigits('1', '0');
      assert DigitValue('1') == 1 && DigitValue('0') == 0;
    }
  }

  /** The required apostrophe reads `10"` as ten inches. */
  lemma ParseImperialStrictTenInches()
    ensures ParseImperialStrict("10\"") == Some(10.0 / 12.0)
  {
    var s := "10\"";
    assert Trim(s) == s by { TrimUnchanged(s); }
    NoSplitWithoutApostrophe(s);
    NatToDecimalIsNumeral(10);
    assert s[..2] == NatToDecimal(10);
  }

  /** Feet alone: `8'` is eight feet. */
  lemma ParseImperialFeet()
    ensures ParseImperial("8'") == Some(8.0)
  {
    var s := "8'";
    assert Trim(s) == s by { TrimUnchanged(s); }
    NoSplitWithoutInchMark(s, false);
    assert s[..1] == ['8'];
    DigitNumeral('8');
  }

  /** When the feet-and-inches pattern matches, its two groups make the
      result. */
  lemma ParseImperialOfSplit(input: string, apostropheRequired: bool, feet: real, inches: real)
    requires MatchTwoGroups(Trim(input), InchesAfterFeet(apostropheRequired)) == Some((feet, inches))
    ensures ParseImperialWith(input, apostropheRequired) == Some(feet + inches / 12.0)
  {
    MatchTwoGroupsFails(Trim(input), InchesAfterFeet(apostropheRequired));
  }

  /** A number followed by an apostrophe, with no feet-and-inches split,
      is a number of feet. */
  lemma ParseImperialOfFeetMark(input: string, apostropheRequired: bool)
    requires var s := Trim(input);
      |s| > 0 && s[|s| - 1] == '\'' && IsNumeral(s[..|s| - 1])
      && MatchTwoGroups(s, InchesAfterFeet(apostropheRequired)).None?
    ensures var s := Trim(input);
      ParseImperialWith(input, apostropheRequired) == Some(NumeralValue(s[..|s| - 1]))
  {
  }

  /** A number followed by an inch mark, with no feet-and-inches split, is
      a number of inches. */
  lemma ParseImperialOfInchMark(input: string, apostropheRequired: bool)
    requires var s := Trim(input);
      |s| > 0 && s[|s| - 1] == '"' && IsNumeral(s[..|s| - 1])
      && MatchTwoGroups(s, InchesAfterFeet(apostropheRequired)).None?
    ensures var s := Trim(input);
      ParseImperialWith(input, apostropheRequired) == Some(NumeralValue(s[..|s| - 1]) / 12.0)
  {
  }

  /** A plain number is taken as inches, whether or not the apostrophe
      is required. */
  lemma ParseImperialOfNumeral(input: string, apostropheRequired: bool)
    requires IsNumeral(Trim(input))
    ensures ParseImperialWith(input, apostropheRequired) == Some(NumeralValue(Trim(input)) / 12.0)
  {
    var s := Trim(input);
    NumeralEnds(s);
    assert MatchTwoGroups(s, InchesAfterFeet(apostropheRequired)).None? by {
      NoSplitWithoutInchMark(s, apostropheRequired);
    }
    assert MatchBeforeMark(s, '\'').None?;
    assert MatchBeforeMark(s, '"').None?;
    assert MatchPlain(s) == Some(NumeralValue(s));
  }

  /** Surrounding blanks are ignored: ` 10 ` is ten inches. */
  lemma ParseImperialPlainNumber(input: string)
    requires input == " 10 "
    ensures ParseImperial(input) == Some(10.0 / 12.0)
  {
    var s := "10";
    assert Trim(input) == s by {
      assert input[1..] == "10 ";
      assert TrimStart("10 ") == "10 ";
      assert TrimStart(input) == "10 ";
      assert "10 "[..2] == s;
      assert TrimEnd(s) == s;
      assert TrimEnd("10 ") == s;
    }
    assert IsNumeral(s) && NumeralValue(s) == 10.0 by {
      NatToDecimalIsNumeral(10);
      assert NatToDecimal(10) == NatToDecimal(1) + [DigitChar(0)] == s;
    }
    ParseImperialOfNumeral(input, false);
  }

  /** Text that is no length is rejected, and so is blank input. */
  lemma ParseImperialRejects()
    ensures ParseImperial("abc") == None
    ensures ParseImperial("  ") == None
  {
    var s := "abc";
    assert Trim(s) == s by { TrimUnchanged(s); }
    NoSplitWithoutInchMark(s, false);
    NotNumeralWithMark(s, 0);
    NotNumeralWithMark(s[..2], 0);
    assert Trim("  ") == [] by {
      assert "  "[1..] == " ";
      assert " "[1..] == "";
    }
  }

  /** `1m 30cm` is 130 cm, and the unit letters may be capitals. */
  lemma ParseMetricMetresAndCentimetres(input: string)
    requires input == "1m 30cm" || input == "1M 30CM"
    ensures ParseMetric(input) == Some(130.0 / CentimetresPerFoot)
  {
    OneMetreThirty();
    assert Trim(input) == input by { TrimUnchanged(input); }
    if input == "1m 30cm" {
      assert input == "1" + ['m', ' '] + "30" + "cm";
      ParseMetricOfMetresAndCentimetres(input, "1", 'm', "30", "cm");
    } else {
      assert input == "1" + ['M', ' '] + "30" + "CM";
      ParseMetricOfMetresAndCentimetres(input, "1", 'M', "30", "CM");
    }
  }

  /** `1` and `30` are numerals, together 130 cm. */
  lemma OneMetreThirty()
    ensures IsNumeral("1") && IsNumeral("30")
    ensures Some((NumeralValue("1") * 100.0 + NumeralValue("30")) / CentimetresPerFoot)
      == Some(130.0 / CentimetresPerFoot)
  {
    assert IsNumeral("1") && NumeralValue("1") == 1.0 by {
      DigitNumeral('1');
    }
    assert IsNumeral("30") && NumeralValue("30") == 30.0 by {
      NatToDecimalIsNumeral(30);
      assert NatToDecimal(30) == "30";
    }
  }

  /** `2 m` is two metres. */
  lemma ParseMetricMetres(input: string)
    requires input == "2 m"
    ensures ParseMetric(input) == Some(200.0 / CentimetresPerFoot)
  {
    assert Trim(input) == input by { TrimUnchanged(input); }
    assert input[..2] == "2 ";
    assert TrimEnd("2 ") == "2" by {
      assert "2 "[..1] == "2";
    }
    DigitNumeral('2');
    ParseMetricOfMetres(input);
  }

  /** `30cm` and a plain `30` are both 30 cm. */
  lemma ParseMetricCentimetres()
    ensures ParseMetric("30cm") == Some(30.0 / CentimetresPerFoot)
    ensures ParseMetric("30") == Some(30.0 / CentimetresPerFoot)
  {
    NatToDecimalIsNumeral(30);
    assert NatToDecimal(30) == "30";
    var s1 := "30cm";
    assert Trim(s1) == s1 by { TrimUnchanged(s1); }
    assert s1 == "30" + "cm";
    ParseMetricOfCentimetres(s1, "30", "cm");
    var s2 := "30";
    assert Trim(s2) == s2 by { TrimUnchanged(s2); }
    ParseMetricOfNumeral(s2);
  }

  // ---------------------------------------------------------------------
  // Characters no pattern accepts
  // ---------------------------------------------------------------------

  /** A character that is neither part of a numeral nor whitespace. */
  predicate OutsideNumeral(c: char)
  {
    !IsDigit(c) && c != '.' && !IsWhiteSpace(c)
  }

  /** A character none of the imperial patterns holds: besides numerals
      and whitespace they hold only the marks `'` and `"`. */
  predicate ForeignToImperial(c: char)
  {
    OutsideNumeral(c) && c != '\'' && c != '"'
  }

  /** A character none of the metric patterns holds: besides numerals and
      whitespace they hold only the letters of `m` and `cm`, in either
      case. */
  predicate ForeignToMetric(c: char)
  {
    OutsideNumeral(c) && !IsLetterM(c) && c != 'c' && c != 'C'
  }

  /** A character that is not whitespace survives trimStart. */
  lemma SurvivesTrimStart(s: string, c: char)
    requires c in s && !IsWhiteSpace(c)
    ensures c in TrimStart(s)
  {
    var i :| 0 <= i < |s| && s[i] == c;
    var t := TrimStart(s);
    TrimStartDropsWhiteSpace(s);
    TrimStartIsSuffix(s);
    assert t[i - (|s| - |t|)] == c;
  }

  lemma SurvivesTrimEnd(s: string, c: char)
    requires c in s && !IsWhiteSpace(c)
    ensures c in TrimEnd(s)
  {
    var i :| 0 <= i < |s| && s[i] == c;
    TrimEndDropsWhiteSpace(s);
    assert TrimEnd(s)[i] == c;
  }

  lemma SurvivesTrim(s: string, c: char)
    requires c in s && !IsWhiteSpace(c)
    ensures c in Trim(s)
  {
    SurvivesTrimStart(s, c);
    SurvivesTrimEnd(TrimStart(s), c);
  }

  lemma NotInNumeral(s: string, c: char)
    requires IsNumeral(s) && OutsideNumeral(c)
    ensures c !in s
  {
    NumeralChars(s);
  }

  /** A character of two concatenated parts lies in the first or the
      second. */
  lemma InConcat(a: string, b: string, c: char)
    requires c in a + b
    ensures c in a || c in b
  {
    var i :| 0 <= i < |a + b| && (a + b)[i] == c;
    if i < |a| {
      assert a[i] == c;
    } else {
      assert b[i - |a|] == c;
    }
  }

  /** A first character other than `c`, followed by text without `c`. */
  lemma NotAfterFirst(r: string, c: char)
    requires |r| > 0 && r[0] != c && c !in r[1..]
    ensures c !in r
  {
    assert r == [r[0]] + r[1..];
    if c in r {
      InConcat([r[0]], r[1..], c);
    }
  }

  /** A character that is not whitespace would survive trimStart. */
  lemma NotBeforeTrimStart(s: string, c: char)
    requires c !in TrimStart(s) && !IsWhiteSpace(c)
    ensures c !in s
  {
    if c in s {
      SurvivesTrimStart(s, c);
    }
  }

  /** Text matched by the rest of the feet-and-inches pattern holds no
      foreign character. */
  lemma NotInInchesTail(apostropheRequired: bool, r: string, c: char)
    requires MatchTail(InchesAfterFeet(apostropheRequired), r).Some? && ForeignToImperial(c)
    ensures c !in r
  {
    var hasMark := |r| > 0 && r[0] == '\'';
    var r0 := if hasMark then r[1..] else r;
    assert MatchBeforeMark(TrimStart(r0), '"').Some?;
    NotInMarkMatch(TrimStart(r0), '"', c);
    NotBeforeTrimStart(r0, c);
    if hasMark {
      NotAfterFirst(r, c);
    }
  }

  /** Text matched by a numeral-and-mark pattern holds nothing but the
      numeral and the mark. */
  lemma NotInMarkMatch(u: string, mark: char, c: char)
    requires MatchBeforeMark(u, mark).Some? && OutsideNumeral(c) && c != mark
    ensures c !in u
  {
    assert TrimEnd(u[..|u| - 1]) == u[..|u| - 1] by { NumeralEnds(u[..|u| - 1]); }
    NotBeforeMark(u, c);
  }

  /** Text matched by the rest of the metres-and-centimetres pattern holds
      no foreign character. */
  lemma NotInCentimetresTail(r: string, c: char)
    requires MatchTail(CentimetresAfterMetres, r).Some? && ForeignToMetric(c)
    ensures c !in r
  {
    var u := TrimStart(r);
    assert |u| > 0 && IsLetterM(u[0]);
    var w := TrimStart(u[1..]);
    assert c !in w by {
      assert MatchBeforeCentimetres(w).Some?;
      NotBeforeCm(w, c);
    }
    NotBeforeTrimStart(u[1..], c);
    NotAfterFirst(u, c);
    NotBeforeTrimStart(r, c);
  }

  /** Text matched by a two-group pattern holds no character foreign to
      its parser. */
  lemma NotInTwoGroups(s: string, t: Tail, c: char)
    requires MatchTwoGroups(s, t).Some?
    requires if t.InchesAfterFeet? then ForeignToImperial(c) else ForeignToMetric(c)
    ensures c !in s
  {
    var j := LongestSplit(s, t);
    if c in s {
      assert s == s[..j] + s[j..];
      InConcat(s[..j], s[j..], c);
      NotInNumeral(s[..j], c);
      if t.InchesAfterFeet? {
        NotInInchesTail(t.apostropheRequired, s[j..], c);
      } else {
        NotInCentimetresTail(s[j..], c);
      }
    }
  }

  /** Text made of a numeral, blanks and a final mark other than `c`
      holds no `c`. */
  lemma NotBeforeMark(s: string, c: char)
    requires |s| > 0 && s[|s| - 1] != c && IsNumeral(TrimEnd(s[..|s| - 1])) && OutsideNumeral(c)
    ensures c !in s
  {
    var n := s[..|s| - 1];
    if c in s {
      var i :| 0 <= i < |s| && s[i] == c;
      assert n[i] == c;
      SurvivesTrimEnd(n, c);
      NotInNumeral(TrimEnd(n), c);
    }
  }

  /** Text made of a numeral, blanks and `cm` holds no foreign character. */
  lemma NotBeforeCm(s: string, c: char)
    requires EndsWithCm(s) && IsNumeral(TrimEnd(s[..|s| - 2])) && ForeignToMetric(c)
    ensures c !in s
  {
    var n := s[..|s| - 2];
    if c in s {
      var i :| 0 <= i < |s| && s[i] == c;
      assert n[i] == c;
      SurvivesTrimEnd(n, c);
      NotInNumeral(TrimEnd(n), c);
    }
  }

  /** Input holding any character other than a digit, a point,
      whitespace, `'` or `"` is not an imperial length, whether or not the
      apostrophe is required: a slash of the fractional inches
      feetToFraction writes (`5 1/2"`), a minus sign, a letter. */
  lemma ParseImperialRejectsForeign(input: string, apostropheRequired: bool, c: char)
    requires c in input && ForeignToImperial(c)
    ensures ParseImperialWith(input, apostropheRequired).None?
  {
    SurvivesTrim(input, c);
    ImperialPatternsRejectForeign(Trim(input), apostropheRequired, c);
  }

  /** None of the four imperial patterns matches text with a foreign
      character. */
  lemma ImperialPatternsRejectForeign(s: string, apostropheRequired: bool, c: char)
    requires c in s && ForeignToImperial(c)
    ensures MatchTwoGroups(s, InchesAfterFeet(apostropheRequired)).None?
    ensures MatchBeforeMark(s, '\'').None? && MatchBeforeMark(s, '"').None? && MatchPlain(s).None?
  {
    if MatchTwoGroups(s, InchesAfterFeet(apostropheRequired)).Some? {
      NotInTwoGroups(s, InchesAfterFeet(apostropheRequired), c);
    }
    if MatchBeforeMark(s, '\'').Some? {
      NotInMarkMatch(s, '\'', c);
    }
    if MatchBeforeMark(s, '"').Some? {
      NotInMarkMatch(s, '"', c);
    }
    if MatchPlain(s).Some? {
      NotInNumeral(s, c);
    }
  }

  /** Input holding any character other than a digit, a point,
      whitespace or the letters c and m (in either case) is not a metric
      length: a minus sign, a slash, another unit. */
  lemma ParseMetricRejectsForeign(input: string, c: char)
    requires c in input && ForeignToMetric(c)
    ensures ParseMetric(input).None?
  {
    SurvivesTrim(input, c);
    MetricPatternsRejectForeign(Trim(input), c);
  }

  /** None of the four metric patterns matches text with a foreign
      character. */
  lemma MetricPatternsRejectForeign(s: string, c: char)
    requires c in s && ForeignToMetric(c)
    ensures MatchTwoGroups(s, CentimetresAfterMetres).None? && MatchBeforeMetres(s).None?
    ensures MatchBeforeCentimetres(s).None? && MatchPlain(s).None?
  {
    if MatchTwoGroups(s, CentimetresAfterMetres).Some? {
      NotInTwoGroups(s, CentimetresAfterMetres, c);
    }
    if MatchBeforeMetres(s).Some? {
      NotBeforeMark(s, c);
    }
    if MatchBeforeCentimetres(s).Some? {
      NotBeforeCm(s, c);
    }
    if MatchPlain(s).Some? {
      NotInNumeral(s, c);
    }
  }
}
