# Speaker placement log: a verified model of its core

This project models, in Dafny, the logic behind a small web application. The
application records loudspeaker placements (distances from the front wall,
the side wall and the listening position) and the listener's ratings. It
computes placement "baselines" from room dimensions and shows distances in
feet-and-inches or metres-and-centimetres.

The model covers the following parts of the application:

- **Distance conversion and formatting** (`src/lib/utils.js`).
  - `parseNumericInput` checks a typed number.
  - `feetToFraction` rounds a length in decimal feet to the nearest quarter inch and writes it as `8' 5 1/2"`.
  - `cmToMetres` writes centimetres as `2m 15.9cm`.
  - `parseImperial` and `parseMetric` read such texts back with regular expressions.
  - `formatDistance` picks the unit.
  - Modules: `DistanceFormat` and `DistanceParse`. The round trip between display and parser is in `DistanceRoundTrip`.
  - JavaScript's own semantics are modelled in `JsValues` and `JsNumbers`:
    - `parseFloat` and `Number` on strings;
    - `Math.floor` and `Math.round`;
    - the truncating `%`;
    - `toFixed(1)`;
    - `String.prototype.trim`;
    - template-literal rendering of integers.
- **The baseline formula engine** (`handleUseAsBaseline` in `src/pages/SpeakerBaselines.jsx`), in module `SpeakerBaselines`.
  - Five calculation types map to lists of labelled distances.
  - The page is a class whose state is the typed dimensions and the list of baselines handed to the store.
- **The local record store** (`src/lib/storage.js`), in module `Storage`.
  - It is a class that holds the one storage key's content: absent, or a sequence of records.
  - It offers `getAll`, `save`, `update`, `delete` and `clear`.
- **The sidebar's helpers** (`src/components/Sidebar.jsx`), in module `Sidebar`: rating coercion, the score, the two lists and the favourite toggle.
- **Authentication error messages** (`src/lib/constants.js`), in module `AuthErrors`.
- **The active and previous baselines** (`src/hooks/useBaseline.js`), in module `ActiveBaseline`.
- **The one-time upload of local data** (`migrateLocalStorageData` in `src/contexts/AuthContext.jsx`), in module `Migration`.
  - It is modelled as a class over the local keys and the insert calls issued.
- **The validation steps of the login and password-reset forms** (`LoginPage.jsx`, `PasswordResetPage.jsx`), in modules `LoginPage` and `PasswordReset`.
  - Each form is a class over its React state.

### Modelling choices

- **JavaScript numbers** are `NaN` or a finite real. The model carries no rounding to doubles; decimal literals such as `0.447` are exact.
- **Records** (plain JSON objects) are maps from keys to JavaScript values. An absent key reads as `undefined`.
- **Regular expressions** are modelled pattern by pattern.
  - The only backtracking that matters is in the two-group patterns, where the first group may be shortened. JavaScript tries the longest first, so the model takes the longest split that lets the rest match.
- **Clock-dependent values** (`Date.now()` and the ISO timestamp) are parameters of `Save`.
- **Whether an insert throws** is a parameter of `Migrate`.

### Where the code and its specification differ (the code is followed)

- **Entry shape.** Entries carry a label, a display value and a formula. They do not carry a raw value in feet.
- **Unknown calculation types.** A calculation type the table does not list, such as the click event the first tab passes, is not an error: it gives an undefined method name and no entries.
- **Round trip.** A displayed distance is not always read back within a quarter inch.
  - Displays with a fraction of an inch are rejected by `parseImperial` (`DistanceRoundTrip.FractionalDisplayRejected`).
  - Whole-inch displays are read back exactly, except `10"` and `11"` (see Findings).
  - Metric displays of non-negative values are read back by `parseMetric` within 0.05 cm, the rounding of `toFixed(1)` (`DistanceRoundTrip.MetricRoundTrip`).
  - Displays of negative values, in either unit, start with `-` and are rejected by both parsers.
- **Imperial and metric parsers.** Both are string parsers for one unit each, not a two-field major/minor parser.
- **Negative centimetres.** For a negative length in centimetres, `Math.floor` and the truncating `%` round in opposite directions. `cmToMetres` then shows parts that add up to one metre less than the length (`DistanceFormat.MetricSplitNegative`).

## Model

| member | source | states |
|---|---|---|
| DistanceFormat.ParseNumericInput | src/lib/utils.js:12-21 | The result is null exactly for `""`, null, undefined, a NaN parse or a negative parse; otherwise it is the parsed number, which is non-negative |
| DistanceFormat.FeetToFraction | src/lib/utils.js:23-67 | null, undefined and NaN give the em dash; any finite value is shown as the integer rendering of its quarter-inch count round(x·48) |
| DistanceFormat.QuarterInchesNearest | src/lib/utils.js:27-28 | The rounded quarter-inch count is within one eighth of an inch (1/96 ft) of the value |
| DistanceFormat.SameQuarterSameText | src/lib/utils.js:27-28 | Two values that round to the same quarter inch are displayed identically |
| DistanceFormat.ImperialPartsFromQuarterCount | src/lib/utils.js:30-43 | feet is floor(q/48), whole inches are in 0..11 and the fraction is 0, 1/4, 1/2 or 3/4 of an inch, so every non-zero fraction gets a fraction string |
| DistanceFormat.ImperialTextShowsFraction | src/lib/utils.js:36-66 | A `/` appears in the output exactly when the rounded length is not a whole number of inches |
| DistanceFormat.ImperialTextEnding | src/lib/utils.js:45-66 | The output ends with the feet mark exactly when the length is a non-zero whole number of feet, and otherwise with the inch mark |
| DistanceFormat.QuarterInchShape | src/lib/utils.js:45-48 | 1/48 ft is shown as `1/4"` |
| DistanceFormat.ZeroShape | src/lib/utils.js:50-53 | 0 ft is shown as `0"` |
| DistanceFormat.WholeFeetShape | src/lib/utils.js:55-58 | 8 ft is shown as `8'` |
| DistanceFormat.FeetAndFractionShape | src/lib/utils.js:60-63 | 8 ft and half an inch is shown as `8' 1/2"` |
| DistanceFormat.FeetInchesAndFractionShape | src/lib/utils.js:65-66 | 8 ft 5.5 in is shown as `8' 5 1/2"` |
| DistanceFormat.NegativeShape | src/lib/utils.js:30-34 | -0.5 ft is shown as `-1' 6"`: the floor gives negative feet with positive inches |
| DistanceFormat.CmToMetres | src/lib/utils.js:74-94 | Any finite length is shown ending with the unit `m` of `m` or `cm`; the exact texts are those of the shape lemmas below |
| DistanceFormat.MetricSplitNonNegative | src/lib/utils.js:79-80 | For a non-negative length, metres·100 plus the remaining centimetres gives back the length, and the remainder lies in [0, 100) |
| DistanceFormat.MetricSplitNegative | src/lib/utils.js:79-80 | For a negative length that is not a whole number of metres, the parts add up to one metre less than the length, and the remainder lies in (-100, 0) |
| DistanceFormat.CentimetresOnlyShape | src/lib/utils.js:82-85 | With zero metres, 45.5 cm is shown as `45.5cm` |
| DistanceFormat.WholeMetresShape | src/lib/utils.js:87-90 | A zero remainder, as for 300 cm, shows metres only: `3m` |
| DistanceFormat.MetresAndCentimetresShape | src/lib/utils.js:92-93 | 250 cm is shown as `2m 50.0cm` |
| DistanceFormat.AlmostTwoMetresShape | src/lib/utils.js:79-93 | The zero test sees the unrounded remainder, so 199.99 cm is shown as `1m 100.0cm` |
| DistanceFormat.FormatDistance | src/lib/utils.js:187-202 | null, undefined, `""` and a value parseFloat cannot read give the em dash; a readable value in any unit other than "imperial" is shown ending with `m` |
| DistanceFormat.FormatDistanceByUnit | src/lib/utils.js:187-202 | Empty, missing and non-numeric values give the em dash; "imperial" gives the quarter-inch rendering of the parsed feet; any other unit gives the metric rendering of feet·30.48 |
| DistanceFormat.FormatParsedByUnit | src/lib/utils.js:192-201 | Once the value is parsed, the unit string alone selects the imperial or the metric rendering |
| DistanceParse.LongestSplit | src/lib/utils.js:110 | The first group of a two-group pattern is the longest prefix for which the rest matches; no longer one does |
| DistanceParse.MatchTwoGroupsFails | src/lib/utils.js:110 | A two-group pattern fails exactly when no split point lets the rest match |
| DistanceParse.MatchBeforeMark | src/lib/utils.js:118 | The one-mark patterns match exactly a decimal numeral followed by the mark |
| DistanceParse.MatchBeforeMetres | src/lib/utils.js:158 | The metres pattern matches exactly a numeral, optional white space and `m` or `M` |
| DistanceParse.MatchBeforeCentimetres | src/lib/utils.js:165 | The centimetres pattern matches exactly a numeral, optional white space and `cm` in any case |
| DistanceParse.MatchPlain | src/lib/utils.js:130 | The plain pattern matches exactly a decimal numeral |
| DistanceParse.ParseImperialWith | src/lib/utils.js:101-136 | The parser with the feet mark of the first pattern optional or required: blank input gives null and every accepted value is non-negative |
| DistanceParse.ParseImperial | src/lib/utils.js:101-136 | The parser as written (feet mark optional): blank input gives null; every accepted value is non-negative |
| DistanceParse.ParseImperialStrict | src/lib/utils.js:101-136 | The corrected parser (feet mark required in the first pattern): blank input gives null; every accepted value is non-negative |
| DistanceParse.ParseMetric | src/lib/utils.js:143-179 | Blank input gives null; every accepted value is non-negative |
| DistanceParse.ParseImperialOfSplit | src/lib/utils.js:110-115 | When the feet-and-inches pattern matches, the result is feet plus inches/12 |
| DistanceParse.ParseImperialOfFeetMark | src/lib/utils.js:118-121 | Failing that, a numeral followed by `'` is read as feet |
| DistanceParse.ParseImperialOfInchMark | src/lib/utils.js:124-127 | Failing both, a numeral followed by `"` is read as inches, divided by 12 |
| DistanceParse.ParseImperialOfNumeral | src/lib/utils.js:130-133 | A plain numeral is read as inches, divided by 12 |
| DistanceParse.ParseImperialInches | src/lib/utils.js:124-127 | `5"` reads as 5/12 ft |
| DistanceParse.ParseImperialFeetAndInches | src/lib/utils.js:110-115 | `8' 10"` reads as 8 + 10/12 ft |
| DistanceParse.ParseImperialFeet | src/lib/utils.js:118-121 | `8'` reads as 8 ft |
| DistanceParse.ParseImperialPlainNumber | src/lib/utils.js:130-133 | ` 10 ` is trimmed and reads as 10/12 ft |
| DistanceParse.ParseImperialRejects | src/lib/utils.js:102-135 | `abc`, which matches no pattern, and blank text give null |
| DistanceParse.ParseImperialSplitsTenInches | src/lib/utils.js:110-115 | `10"` reads as 1 ft: the optional `'` lets the first group take `1` and the second `0` |
| DistanceParse.NoSplitWithoutApostrophe | src/lib/utils.js:110 | With the apostrophe required, no text without `'` matches the feet-and-inches pattern |
| DistanceParse.ParseImperialStrictTenInches | src/lib/utils.js:110-127 | With the apostrophe required, `10"` reads as 10/12 ft |
| DistanceParse.SplitOfTwoDigits | src/lib/utils.js:110 | Any two digits before `"` are split between feet and inches by the pattern as written |
| DistanceParse.SplitOfFeetAndInches | src/lib/utils.js:110 | `N' M"` splits into the numerals N and M |
| DistanceParse.ImperialPatternsRejectForeign | src/lib/utils.js:110-130 | None of the four imperial patterns matches a text containing a character other than a digit, `.`, white space, `'` or `"` |
| DistanceParse.ParseImperialRejectsForeign | src/lib/utils.js:101-136 | Any input containing a character other than a digit, `.`, white space, `'` or `"` gives null, with the feet mark optional or required |
| DistanceParse.ParseMetricOfMetresAndCentimetres | src/lib/utils.js:149-155 | `Am Bcm` (any case, optional spaces) reads as (100A + B)/30.48 ft |
| DistanceParse.ParseMetricOfMetres | src/lib/utils.js:158-162 | `Am` reads as 100A/30.48 ft |
| DistanceParse.ParseMetricOfCentimetres | src/lib/utils.js:165-169 | `Bcm` reads as B/30.48 ft |
| DistanceParse.ParseMetricOfNumeral | src/lib/utils.js:172-176 | A plain numeral is centimetres: B/30.48 ft |
| DistanceParse.SplitOfMetresAndCentimetres | src/lib/utils.js:149 | `Am Bcm` splits into the numerals A and B |
| DistanceParse.NoMetricSplitOfCentimetres | src/lib/utils.js:149 | `Bcm` alone does not match the two-group metric pattern |
| DistanceParse.ParseMetricMetresAndCentimetres | src/lib/utils.js:149-155 | `1m 30cm` and `1M 30CM` both read as 130/30.48 ft |
| DistanceParse.ParseMetricMetres | src/lib/utils.js:158-162 | `2 m` reads as 200/30.48 ft |
| DistanceParse.ParseMetricCentimetres | src/lib/utils.js:165-176 | `30cm` and `30` both read as 30/30.48 ft |
| DistanceParse.MetricPatternsRejectForeign | src/lib/utils.js:149-172 | None of the four metric patterns matches a text containing a character other than a digit, `.`, white space, `m`, `M`, `c` or `C` |
| DistanceParse.ParseMetricRejectsForeign | src/lib/utils.js:143-179 | Any input containing a character other than a digit, `.`, white space, `m`, `M`, `c` or `C` gives null |
| DistanceParse.TenthsIsNumeral | src/lib/utils.js:84 | A `toFixed(1)` text of a non-negative value is a decimal numeral the patterns accept, whose value is the count of tenths divided by 10 |
| DistanceRoundTrip.ParseInchesText | src/lib/utils.js:124-127 | A one-digit inch display, or any inch display with the apostrophe required, reads back as inches/12 |
| DistanceRoundTrip.ParseFeetText | src/lib/utils.js:118-121 | A feet display `N'` reads back as N |
| DistanceRoundTrip.ParseFeetInchesText | src/lib/utils.js:110-115 | A display `N' M"` reads back as N + M/12 |
| DistanceRoundTrip.ParseTwoDigitInchesText | src/lib/utils.js:110-115 | The pattern as written reads `10"` and `11"` as 1 ft plus 0 or 1 inch |
| DistanceRoundTrip.WholeInchesRead | src/lib/utils.js:45-66 | Every whole-inch display of a non-negative length reads back exactly, except `10"` and `11"` under the pattern as written |
| DistanceRoundTrip.ImperialRoundTrip | src/lib/utils.js:23-136 | With the apostrophe required, parsing the display of any non-negative whole number of inches gives back exactly that length |
| DistanceRoundTrip.ImperialRoundTripAsWritten | src/lib/utils.js:101-136 | As written, the round trip is exact except for 10 and 11 inches, which come back as 1 ft and 1 ft 1 in |
| DistanceRoundTrip.TenInchesMisread | src/lib/utils.js:110-115 | 10/12 ft is displayed as `10"`, which the parser as written reads as 1 ft and the corrected parser as 10/12 ft |
| DistanceRoundTrip.FeetToFractionRoundTrip | src/lib/utils.js:23-136 | For a value rounding to whole inches, the corrected parser reads its display back within 1/96 ft |
| DistanceRoundTrip.FractionalDisplayRejected | src/lib/utils.js:101-136 | A display with a fraction of an inch is never read back: the parser gives null |
| DistanceRoundTrip.NegativeImperialDisplayRejected | src/lib/utils.js:30-136 | The display of a length that rounds below zero starts with `-` and is never read back |
| DistanceRoundTrip.NumeralCentimetresRead | src/lib/utils.js:165-169 | A numeral followed by `cm` reads back as its value over 30.48 |
| DistanceRoundTrip.MetresDisplayRead | src/lib/utils.js:87-162 | A whole-metres display `Nm` reads back as 100N/30.48 ft |
| DistanceRoundTrip.NumeralsMetresAndCentimetresRead | src/lib/utils.js:149-155 | A display `Am Bcm` reads back as (100A + B)/30.48 ft |
| DistanceRoundTrip.CmToMetresRoundTrip | src/lib/utils.js:74-179 | For any non-negative length in centimetres, parseMetric reads its display back within 0.05 cm, the rounding of `toFixed(1)` |
| DistanceRoundTrip.MetricRoundTrip | src/lib/utils.js:143-202 | For any non-negative value in feet and any unit other than "imperial", parseMetric reads the display back within 0.05 cm of the value |
| DistanceRoundTrip.NegativeMetricDisplayRejected | src/lib/utils.js:74-179 | The metric display of a negative value starts with `-` and parseMetric gives null for it |
| SpeakerBaselines.MethodName | src/pages/SpeakerBaselines.jsx:24-33 | A method name exists exactly for the four calculation types of the table; every other value modelled, including the click event the first tab passes, finds none |
| SpeakerBaselines.BuildBaseline | src/pages/SpeakerBaselines.jsx:23-128 | The record keeps the calculation and speaker types, takes its method name from the table, and has entries exactly when the type's required dimensions are entered |
| SpeakerBaselines.CardasValues | src/pages/SpeakerBaselines.jsx:38-67 | Cardas has entries exactly for a conventional speaker with a width or a planar speaker with a height |
| SpeakerBaselines.CardasConventionalEntries | src/pages/SpeakerBaselines.jsx:39-54 | Conventional Cardas gives exactly [Front Wall W·0.447, Side Wall W·0.276], in that order |
| SpeakerBaselines.CardasConventionalDistances | src/pages/SpeakerBaselines.jsx:39-54 | For a numeric width, those are the quarter-inch displays of W·0.447 and W·0.276 |
| SpeakerBaselines.CardasPlanarEntries | src/pages/SpeakerBaselines.jsx:55-66 | Planar Cardas gives exactly [Front Wall H·0.618] |
| SpeakerBaselines.CardasPlanarDistances | src/pages/SpeakerBaselines.jsx:55-66 | For a numeric height, that is the display of H·0.618 |
| SpeakerBaselines.PlanarEdgeEntries | src/pages/SpeakerBaselines.jsx:68-88 | Planar edge gives Front Wall L·0.4, the fixed Side Wall `6"` and Listening Position L·0.8 |
| SpeakerBaselines.PlanarEdgeDistances | src/pages/SpeakerBaselines.jsx:68-88 | For a numeric length, those are the displays of L·0.4, `6"` and L·0.8 |
| SpeakerBaselines.RuleOfThirdsEntries | src/pages/SpeakerBaselines.jsx:89-104 | Rule of thirds gives Front Wall L·0.3333 and Listening Position L·0.66 |
| SpeakerBaselines.RuleOfThirdsDistances | src/pages/SpeakerBaselines.jsx:89-104 | For a numeric length, those are the displays of L·0.3333 and L·0.66 |
| SpeakerBaselines.EquilateralEntries | src/pages/SpeakerBaselines.jsx:105-127 | Nearfield gives Side Wall Sw and Listening Position (W − 2·Sw)·√3/2 |
| SpeakerBaselines.ListeningDistance | src/pages/SpeakerBaselines.jsx:110-114 | The listening distance computed in steps is (W − 2·Sw)·√3/2 |
| SpeakerBaselines.EquilateralDistances | src/pages/SpeakerBaselines.jsx:105-127 | For numeric inputs, the entries are the displays of Sw and (W − 2·Sw)·√3/2 |
| SpeakerBaselines.EquilateralNegativeSeparation | src/pages/SpeakerBaselines.jsx:110-114 | There is no guard: when 2·Sw exceeds W by a quarter inch or more, the listening distance is shown as a negative length |
| SpeakerBaselines.BaselineValuesAreImperial | src/pages/SpeakerBaselines.jsx:40-119 | Every entry value is a feet-and-inches display, whatever display unit is selected |
| SpeakerBaselines.RatioFormulaShowsDimension | src/pages/SpeakerBaselines.jsx:47 | A ratio formula shows the dimension exactly as typed |
| SpeakerBaselines.BaselineFormulasShowInputs | src/pages/SpeakerBaselines.jsx:43-127 | Every formula shows a typed dimension, except the two fixed formulas |
| SpeakerBaselines.BaselinePage.constructor | src/pages/SpeakerBaselines.jsx:17-21 | The page starts with the given inputs and nothing saved |
| SpeakerBaselines.BaselinePage.HandleUseAsBaseline | src/pages/SpeakerBaselines.jsx:23-132 | Exactly one record is saved per call, even with no entries; a missing argument defaults to Cardas; the page navigates home |
| SpeakerBaselines.BaselinePage.ClickCardasButton | src/pages/SpeakerBaselines.jsx:279-285 | The first tab's button passes its click event as the calculation type, so the saved record has no method name and no entries |
| SpeakerBaselines.BaselinePage.ClickCardasButtonIntended | src/pages/SpeakerBaselines.jsx:279-285 | Called with the Cardas type, the button saves the Cardas Golden Ratio record with its entries |
| Storage.Stamped | src/lib/storage.js:11-16 | The new record has the caller's fields, the given id and timestamp, and `isFavorite` false even when the caller supplied it |
| Storage.Merged | src/lib/storage.js:26 | A merge has the keys of both; update keys win and other keys keep their values |
| Storage.FindIndex | src/lib/storage.js:24 | The index is that of the first record with the id, or -1 when none has it |
| Storage.Updated | src/lib/storage.js:22-29 | Only the first matching record is merged; the length and every other record are unchanged; an unknown id changes nothing |
| Storage.Without | src/lib/storage.js:34 | The filtered list is never longer than the list |
| Storage.WithoutCounts | src/lib/storage.js:34 | Each record with the id occurs zero times afterwards, and every other record as often as before |
| Storage.WithoutMembers | src/lib/storage.js:34 | The filtered list holds exactly the records whose id differs |
| Storage.WithoutIsSubsequence | src/lib/storage.js:34 | Deleting keeps the relative order of the rest |
| Storage.WithoutAppend | src/lib/storage.js:34 | Deleting from a concatenation is deleting from each part |
| Storage.WithoutIdempotent | src/lib/storage.js:32-37 | Deleting the same id twice removes nothing more |
| Storage.WithoutAbsentId | src/lib/storage.js:32-37 | Deleting an id no record has keeps the list |
| Storage.MeasurementStore.constructor | src/lib/storage.js:1-3 | The storage key starts absent |
| Storage.MeasurementStore.GetAll | src/lib/storage.js:4-7 | An absent key reads as an empty list; otherwise the stored list is returned |
| Storage.MeasurementStore.Save | src/lib/storage.js:9-20 | Exactly one record, the stamped one, is appended at the end and returned; earlier records are unchanged |
| Storage.MeasurementStore.Update | src/lib/storage.js:22-30 | The merged list is returned; it is written only when the id is found |
| Storage.MeasurementStore.Delete | src/lib/storage.js:32-37 | Every record with the id is removed and the result is written and returned |
| Storage.MeasurementStore.Clear | src/lib/storage.js:39-41 | The key is removed, so the contents are empty |
| Sidebar.ToRatingNumber | src/components/Sidebar.jsx:15-21 | A non-NaN number is returned unchanged; anything whose conversion is NaN gives 0 |
| Sidebar.RatingIsNumberOrZero | src/components/Sidebar.jsx:15-21 | The rating is `Number(value)` when that is not NaN, and 0 otherwise |
| Sidebar.RatingOfNonNumbers | src/components/Sidebar.jsx:19-20 | undefined, null and false give 0; true gives 1 |
| Sidebar.CalculateScore | src/components/Sidebar.jsx:26-33 | The score is the sum of the four ratings, each counting as its numeric value when `Number` reads one and as 0 otherwise |
| Sidebar.ScoreOfNumericRatings | src/components/Sidebar.jsx:26-33 | With numeric ratings, the score is bass + treble + vocals + soundstage |
| Sidebar.ScoreWithoutRatings | src/components/Sidebar.jsx:26-33 | A record without ratings scores 0 |
| Sidebar.ScoreIgnoresOtherFields | src/components/Sidebar.jsx:26-33 | No field other than the four ratings changes the score |
| Sidebar.ReverseAppend | src/components/Sidebar.jsx:205-212 | Reversing a concatenation reverses and swaps the parts |
| Sidebar.AllStoredList | src/components/Sidebar.jsx:205-212 | The "All Stored Values" list is the storage order reversed, with the same count |
| Sidebar.FavouritesMembers | src/components/Sidebar.jsx:191-201 | The favourites list holds exactly the stored records with a truthy `isFavorite` |
| Sidebar.FavouritesOfAllList | src/components/Sidebar.jsx:191-212 | The favourites list is the favourites of the all-list, in the same newest-first order |
| Sidebar.FavouritesSubsequenceOfAll | src/components/Sidebar.jsx:191-212 | The favourites list is a subsequence of the all-list |
| Sidebar.FavouritesShownWhenAny | src/components/Sidebar.jsx:191 | The favourites section is shown exactly when some record is a favourite |
| Sidebar.ToggleRequest | src/components/Sidebar.jsx:117-121 | The toggle sends the record's id and a single update that flips `isFavorite` |
| Sidebar.ToggleFlipsOneRecord | src/components/Sidebar.jsx:117-121 | Applied by the store to the first record with its id, the toggle flips that one record's flag and changes no other record or field |
| Sidebar.ToggleWithEarlierDuplicate | src/components/Sidebar.jsx:117-121 | When an earlier record has the same id, that earlier record is flipped, to the opposite of the clicked record's flag, and the clicked one is unchanged; with a NaN id nothing changes |
| AuthErrors.FirstMatch | src/lib/constants.js:25-29 | The index is that of the first table key included in the message, or -1 when none is |
| AuthErrors.GetErrorMessage | src/lib/constants.js:19-33 | A falsy error gives 'An error occurred' |
| AuthErrors.FirstEntryWins | src/lib/constants.js:25-29 | The friendly text of the first included key, in declaration order, is returned |
| AuthErrors.NoKeyMatches | src/lib/constants.js:32 | With no key included, the result is 'An error occurred. Please try again.' |
| AuthErrors.NeverEchoesMessage | src/lib/constants.js:19-33 | The result is always a table value or one of the two fixed texts, never the raw message |
| AuthErrors.MessageBeforeToString | src/lib/constants.js:22 | A non-empty `message` is used, and `toString()` is then irrelevant |
| AuthErrors.UnknownUserLikeBadPassword | src/lib/constants.js:10-11 | 'Invalid login credentials' and 'User not found' both give 'Invalid email or password' |
| AuthErrors.KeyInsideLongerMessage | src/lib/constants.js:12 | A key inside a longer message, as in 'AuthApiError: Email not confirmed', is found |
| AuthErrors.ThirdKeyWins | src/lib/constants.js:25-29 | A message containing the third key and neither earlier one gives the third text |
| AuthErrors.MessageOf | src/lib/constants.js:22 | The message is `error.message` or the `toString()` text, and it is truthy exactly when one of the two is |
| AuthErrors.Includes | src/lib/constants.js:26 | The empty key is included in every message, and an included key is never longer than the message |
| AuthErrors.IncludesAt | src/lib/constants.js:26 | `includes` holds exactly when the key occurs at some index |
| ActiveBaseline.AllBaselines | src/hooks/useBaseline.js:11 | No data loaded gives the empty list; otherwise the loaded list |
| ActiveBaseline.Baseline | src/hooks/useBaseline.js:17 | The active baseline is null exactly for an empty list, and otherwise the first element |
| ActiveBaseline.PreviousBaselines | src/hooks/useBaseline.js:20 | The previous baselines are every element but the first, in order; empty when there is at most one |
| ActiveBaseline.ActiveThenPrevious | src/hooks/useBaseline.js:17-20 | For a non-empty list, the active baseline followed by the previous ones is the whole list |
| ActiveBaseline.NothingLoaded | src/hooks/useBaseline.js:11-20 | Before data loads there is no active baseline and no previous ones |
| Migration.MeasurementRow | src/contexts/AuthContext.jsx:56-66 | A row has exactly the nine columns, with `user_id` and the camelCase fields renamed to snake_case |
| Migration.MeasurementRows | src/contexts/AuthContext.jsx:56-66 | Each local measurement maps to exactly one row, in order |
| Migration.MeasurementRowsAppend | src/contexts/AuthContext.jsx:56-66 | Mapping a concatenation maps each part |
| Migration.MeasurementRowDropsLocalFields | src/contexts/AuthContext.jsx:56-66 | `id`, `createdAt`, `name` and `baselineMethodName` are not uploaded |
| Migration.MeasurementRowKeepsRatings | src/contexts/AuthContext.jsx:60-63 | The four ratings are uploaded unchanged |
| Migration.OrDefault | src/contexts/AuthContext.jsx:74 | `value \|\| fallback` is the value when truthy and the fallback otherwise, so it is always truthy |
| Migration.BaselineRow | src/contexts/AuthContext.jsx:73-79 | The baseline row has exactly its five columns, with method name and values copied |
| Migration.BaselineRowDefaults | src/contexts/AuthContext.jsx:74-76 | A missing calculation type becomes 'unknown' and a missing speaker type 'conventional' |
| Migration.Migrator.Migrate | src/contexts/AuthContext.jsx:40-87 | With the flag set nothing is read or sent. Otherwise there is at most one measurements insert (none for an empty list) and at most one baseline insert (none for null). The flag is set only when no insert throws, so after a call in which no insert threw, a later call does nothing; after a throw the flag stays unset and a later call uploads again |
| LoginPage.SubmitError | src/components/LoginPage.jsx:27-35 | Validation passes exactly for an email with `@` and a password of at least 8 UTF-16 units; a failure gives one of the two texts |
| LoginPage.EmailCheckedFirst | src/components/LoginPage.jsx:27-35 | When the email is invalid, only the email error is shown, whatever the password |
| LoginPage.StricterThanFieldMinimum | src/components/LoginPage.jsx:32-35 | A 6- or 7-character password, which the field's minimum of 6 allows, is refused |
| LoginPage.AstralCharactersCountTwice | src/components/LoginPage.jsx:32 | `length` counts UTF-16 units: four characters outside the basic plane pass the 8 minimum |
| LoginPage.LoginForm.constructor | src/components/LoginPage.jsx:11-16 | The form starts in login mode with empty fields, no error or message and not loading |
| LoginPage.LoginForm.HandleSubmit | src/components/LoginPage.jsx:21-49 | Error and message are cleared first. On a validation failure the error is set, loading is unchanged and no request is issued. Otherwise loading is set and one sign-in or sign-up request follows |
| LoginPage.LoginForm.ToggleMode | src/components/LoginPage.jsx:148-152 | The mode flips and error and message are cleared |
| PasswordReset.UpdateError | src/components/PasswordResetPage.jsx:51-59 | Validation passes exactly for equal passwords of at least 6 UTF-16 units |
| PasswordReset.MismatchCheckedFirst | src/components/PasswordResetPage.jsx:51-54 | A mismatch is reported whatever the length |
| PasswordReset.MinimumsDisagree | src/components/PasswordResetPage.jsx:56-59 | A 6- or 7-character password is accepted here but refused at login |
| PasswordReset.SameTextAsServiceError | src/components/PasswordResetPage.jsx:57 | The length error is the same text the service's own length error maps to |
| PasswordReset.ResetForm.constructor | src/components/PasswordResetPage.jsx:10-15 | The form starts with empty fields and not loading |
| PasswordReset.ResetForm.HandleUpdatePassword | src/components/PasswordResetPage.jsx:46-64 | Error and message are cleared first. On a validation failure the error is set, loading is unchanged and no update is sent. Otherwise loading is set and the new password is sent once |

## Left out

- IEEE doubles are not modelled. Numbers are exact reals or NaN, so rounding errors in products such as `x * 0.447` or `cm / 100` are absent. Infinities are absent too, and `parseFloat("Infinity")` and hexadecimal forms are read as NaN.
- `Math.sqrt(3)` is the decimal constant 1.7320508075688772.
- `toFixed(1)` and integer interpolation are modelled for magnitudes below 10^21, where JavaScript writes no exponent.
- JSON serialisation and `JSON.parse` are not modelled: storage holds the record values themselves. A corrupt stored string, which makes `JSON.parse` throw, is not modelled.
- `Date.now()` and `new Date().toISOString()` are parameters of `Storage.MeasurementStore.Save`.
- The Supabase client, the auth calls and the database inserts are not modelled. Sign-in, sign-up, password update and inserts are recorded as requests in the class state. Whether an insert throws is a parameter.
- The code after the `await` in `handleSubmit` and `handleUpdatePassword` is left out: navigation, success messages, the `setTimeout` mode switch, and resetting `loading`. It depends on the service's answer.
- `navigate` is modelled only as the page's location.
- `baselineStorage` and `devError` are imported by `useBaseline.js` and `supabase.js` but are not present in `storage.js` or `utils.js`; they are not part of this model. Neither are the save mutations of `useBaseline.js` and the query-cache plumbing around them.
- `cn`, `getBaseUrl`, the unused `imperialPattern` of `parseImperial` and all JSX rendering are not part of this model.
- AuthErrors.GetErrorMessage: requires that the message used (`error.message`, or else `error.toString()`) be a string. A truthy non-string `message` is not modelled: an array is searched element by element by `Array.prototype.includes`, and most other values, which have no `includes`, make the call throw. The `toString()` text is a parameter.
- Migration.Migrator.Migrate: calls are modelled as running one after the other. The source awaits between reading the migration flag and setting it, so two overlapping calls (the double mount effect of React's StrictMode, or a sign-in while the mount effect is still running) can both read the unset flag and both upload the local data; the model does not capture that interleaving.
- Migration.Migrator.Migrate: an insert that fails by returning an `error`, rather than throwing, counts as not thrown. The source ignores the returned `error` of both inserts (unlike sign-up and sign-in, which rethrow it), so the insert is recorded as issued and the flag is set, as in the source, although the data never reached the service.
- JsNumbers.ParseFloat and JsNumbers.ToNumber: arrays and objects give NaN, whereas JavaScript first converts them with `toString` (`parseFloat([5])` is 5 and `Number([])` is 0).
- Sidebar.ToggleFlipsOneRecord: requires the clicked record to be the first with its id. Two records saved in the same millisecond share a `Date.now()` id; that case is stated separately by Sidebar.ToggleWithEarlierDuplicate.
- SpeakerBaselines.MethodName: the lookup `methodNames[calculationType]` on a plain object also finds names inherited from `Object.prototype` (`"toString"`, `"constructor"`, `"valueOf"`, `"hasOwnProperty"` give a function, `"__proto__"` the prototype object); the model gives no method name for them. The page never passes such a string: its buttons pass the three other type literals or, on the first tab, the click event.
- `parseImperial` and `parseMetric` are modelled on strings only. A falsy non-string argument (null, undefined, 0, false) gives null at the first test, before `trim` is reached; a truthy non-string without a `trim` method makes the call throw. Neither case is modelled.

## Findings

| source | as written | input that shows it | evidently intended | confidence | as-written member | corrected member |
|---|---|---|---|---|---|---|
| src/lib/utils.js:110 | The feet mark is optional in the feet-and-inches pattern, so backtracking splits a two-digit inch value between the two groups | `10"` (the display of 10/12 ft) parses as 1 ft; `11"` parses as 1 ft 1 in | The feet mark is required, so `10"` reaches the inches-only pattern and reads as 10/12 ft | high; not executed | DistanceRoundTrip.TenInchesMisread | DistanceRoundTrip.ImperialRoundTrip |
| src/pages/SpeakerBaselines.jsx:282 | `onClick={handleUseAsBaseline}` passes the click event as `calculationType`, so the default parameter never applies | Clicking "Use as Baseline" on the Cardas tab saves a baseline with an undefined method name and no entries | Call the handler with no argument (or with the Cardas type), saving the Cardas Golden Ratio entries | high; not executed | SpeakerBaselines.BaselinePage.ClickCardasButton | SpeakerBaselines.BaselinePage.ClickCardasButtonIntended |
