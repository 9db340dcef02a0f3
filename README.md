# Unit converter popup, modelled in Dafny

`popup.js` is the script behind a small browser popup. It converts weights,
distances, lengths and temperatures between US and metric units. The user
checks a US or EU radio button, picks a source unit and a target unit in two
selects, types a value and presses Convert.

This project models the script's logic:

- the static tables: `allowedConversions`, `conversions`, `unitNamesUS`,
  `unitNamesEU` and their spread `unitNames` (`units.dfy`);
- the two input recognisers, `isValidNumber` and `convertFeetToInches`
  (`recognisers.dfy`). They are written as functions that follow the
  regular expressions' greedy matching. Lemmas show that each function
  accepts exactly the language of its pattern;
- the formatter `convertInchesToFeet` (`formatter.dfy`);
- the decision logic of the Convert button's click handler (`controller.dfy`),
  as a function that returns an error category or a success record;
- the page as a state machine (`popup.dfy`). Class `Popup.Page` holds the
  radio state, both selects (options and value) and the result area.
  `populateSelect`, `updateUnitsByMode`, `updateToUnitOptions`, the user's
  selections and the click are methods that update those fields in place.

`text.dfy` holds shared text helpers: digits, `parseInt` on digit strings,
integer-to-string, and `String.prototype.trim`. `wrappers.dfy` holds `Option`
and `Result`.

Units are an enumeration. The values of the selects stay strings, so an
unrecognised source value or an empty select can still be expressed.
`UnitOf` reads a string as a unit.

The script keys `conversions` by the string `from + "_to_" + to`. The model
keys it by the pair `(from, to)`. Every key in the script contains `_to_`
exactly once, so both keyings name the same entries.

`Page.Valid()` is the invariant of the reachable page:

- the source select holds the group of the checked mode, with one of its units selected;
- the target select holds exactly the permitted targets of that unit, with one of them selected.

The constructor and `UpdateUnitsByMode` establish this invariant. `SetMode`,
`SelectFrom`, `SelectTo` and `Click` keep it. `PopulateFromSelect` and
`UpdateToUnitOptions` are the two steps of `UpdateUnitsByMode`. Each restores
its half of the invariant: filling the source select with the checked group
makes the source half hold, and refreshing the targets of a valid source makes
the whole invariant hold. From any valid state, the "unsupported pair"
message can never appear.

## Model

| member | source | states |
|---|---|---|
| Units.AllowedConversions | popup.js:10-27 | the table of permitted targets, in declaration order; `AllowedCoversEveryUnit` and `AllowedFor` state its content |
| Units.Conversions | popup.js:29-47 | the twelve formulas keyed by unit pairs; `ConversionsReverse`, `ConversionsWellDefined` and `FeetHasNoDirectConversion` state their content |
| Units.UnitNamesUS | popup.js:49-55 | the five US labels in declaration order; `GroupsDisjoint`, `GroupUnitsAreKeys` and `UnitNamesLabelGroups` state their content |
| Units.UnitNamesEU | popup.js:57-64 | the six EU labels in declaration order, described by the same lemmas |
| Units.UnitNames | popup.js:66-69 | the labels of all units; `UnitNamesIsSpread` shows it is the spread of the two groups |
| Units.Apply | popup.js:30-46 | the scaling formulas keep zero at zero and the temperature formulas take 32 °F to 0 °C and back; `ReverseUndoes` relates each formula to its reverse |
| Units.UnitOf | popup.js:10-27 | a select value is read as a unit only when it is that unit's identifier |
| Units.UnitOfName | popup.js:10-27 | every unit is recovered from its identifier, so the eleven identifiers are distinct |
| Units.AllowedFor | popup.js:97-101 | the targets list exists exactly for values that are keys, and is then exactly `allowedConversions[u]`; it is non-empty, and every target resolves to a formula once `feet` is read as `inches` |
| Units.AllowedCoversEveryUnit | popup.js:10-27 | every unit is a key of `allowedConversions` with a non-empty list |
| Units.OfferedPairsResolve | popup.js:10-47 | every offered pair, after `feet`→`inches` on both sides, has a formula in `conversions` |
| Units.FeetHasNoDirectConversion | popup.js:29-47 | no formula mentions `feet`, so the substitution is needed |
| Units.ConversionsWellDefined | popup.js:29-47 | no formula divides by zero |
| Units.ConversionsReverse | popup.js:29-47 | every formula has its reverse pair registered with the inverse formula and a non-zero constant |
| Units.ReverseUndoes | popup.js:29-47 | over the reals, the reverse formula undoes the forward one |
| Units.ConversionsInvert | popup.js:29-47 | converting a to b and back gives the original value (idealised over reals) |
| Units.KilogramsAndGramsDisagree | popup.js:30-33 | the lbs→kg and lbs→grams constants are not consistent: 1000 × kg ≠ grams for any non-zero weight |
| Units.Spread | popup.js:66-69 | object spread keeps the keys of the base object and adds those of the entries |
| Units.SpreadOverrides | popup.js:66-69 | in a spread, a key no entry names keeps its base value, and an entry that no later entry overrides gives its key its value |
| Units.SpreadUS | popup.js:49-55 | spreading `unitNamesUS` gives the five US labels |
| Units.UnitNamesIsSpread | popup.js:66-69 | `unitNames` equals `{...unitNamesUS, ...unitNamesEU}` |
| Units.Actual | popup.js:148-168 | the lookup unit is never `feet`: it is the unit itself, or `inches` for `feet` |
| Units.GroupsDisjoint | popup.js:49-64 | no unit is in both display groups |
| Units.GroupUnitsAreKeys | popup.js:49-64 | every unit in a display group is a key of `allowedConversions` |
| Units.UnitNamesLabelGroups | popup.js:66-69 | `unitNames` gives each group unit the label its group lists |
| Units.UnitNamesCoverEveryUnit | popup.js:66-69 | every unit, so every offered target, has a label |
| Text.DigitValue | popup.js:123-124 | a digit's value is below ten |
| Text.DigitChar | popup.js:132 | the digit character of a value below ten reads back as that value |
| Text.Pow10 | popup.js:123-124 | helper of `DigitsValue` and `NumeralValue`: powers of ten are positive |
| Text.DigitsValue | popup.js:123-124 | `parseInt` of n digits is below 10^n |
| Text.LeadingDigits | popup.js:120 | the greedy `\d*` stops exactly at the first non-digit |
| Text.LeadingDigitsUnique | popup.js:120 | any cut with only digits before it and a non-digit (or the end) at it is the greedy one |
| Text.NatToString | popup.js:132 | integer text is non-empty digits, has no leading zero, and parses back to the number |
| Text.IntToString | popup.js:132 | the text starts with a minus sign exactly for negative integers; the rest is digits without a leading zero whose value is the magnitude |
| Text.CanonicalDigits | popup.js:132 | a digit string without a leading zero is the text of its value |
| Text.LeadingNonZeroAtLeastTen | popup.js:132 | helper of `CanonicalDigits`: a canonical digit string of two or more digits is at least ten |
| Text.TrimStart | popup.js:139 | removes exactly the leading whitespace |
| Text.TrimEnd | popup.js:139 | removes exactly the trailing whitespace |
| Text.Trim | popup.js:139 | the result is a slice of the input with no whitespace at either edge, and only whitespace was removed |
| Text.TrimEmptyIffBlank | popup.js:139-141 | trimming leaves nothing exactly when the input is all whitespace |
| Text.TrimUnchanged | popup.js:139 | text without edge whitespace is left as it is |
| Text.TrimIdempotent | popup.js:139 | trimming twice is trimming once |
| Recognisers.IsValidNumber | popup.js:115-117 | an accepted string ends in a digit; `IsValidNumberMatchesPattern` and `IsValidNumberCharacterised` give its exact language |
| Recognisers.IsValidNumberMatchesPattern | popup.js:115-117 | `isValidNumber` accepts exactly the strings that split as `\d*`, optional `.`, `\d+` |
| Recognisers.IsValidNumberCharacterised | popup.js:115-117 | accepted exactly when non-empty, made of digits and dots, with at most one dot, and ending in a digit |
| Recognisers.IsValidNumberAccepts | popup.js:115-117 | `.5`, `05` and `12.75` are accepted |
| Recognisers.IsValidNumberRejects | popup.js:115-117 | the empty string, `5.`, `-1`, `1e3`, `1.2.3` and `.` are rejected |
| Recognisers.NumeralValue | popup.js:160 | the value read is non-negative and its integer part is the integer digits |
| Recognisers.FractionBelowOne | popup.js:160 | helper of `NumeralValue`: the fraction digits add less than one |
| Recognisers.ConvertFeetToInches | popup.js:119-127 | an accepted string starts with a digit, and the whole feet of the total are the value of all its leading digits, so inches never carry; `ParseExactly` and `FeetPatternAccepted` give its exact results and language |
| Recognisers.InchesGroup | popup.js:120 | the inches group is always below twelve |
| Recognisers.RenderedIsTrimmed | popup.js:139 | a feet text in the accepted shape survives trimming |
| Recognisers.InchesText | popup.js:120 | inches 0..11 are written as one digit, or as `1` followed by `0` or `1` |
| Recognisers.InchesGroupRendered | popup.js:120 | the inches group reads back written inches followed by the quote tail |
| Recognisers.ParseRendered | popup.js:119-127 | every text `F`, `F'`, `F'I`, with or without a closing `"`, parses to `F*12+I` |
| Recognisers.ParseAfterApostrophe | popup.js:119-127 | with an apostrophe, all the feet digits come before it and the inches group reads what follows |
| Recognisers.InchesGroupParsed | popup.js:120 | whatever the inches group accepts is written inches followed by the quote tail |
| Recognisers.ParsedWithApostrophe | popup.js:119-127 | an accepted text with an apostrophe is a well-formed text with the parsed total |
| Recognisers.ParsedIsRendered | popup.js:119-127 | everything the parser accepts is a well-formed text with the parsed total |
| Recognisers.ParseExactly | popup.js:119-127 | `convertFeetToInches(s)` is `v` exactly when `s` is a well-formed text whose total is `v`, and null for every other string |
| Recognisers.InchesGroupAccepts | popup.js:120 | every inches alternative followed by the quote tail is accepted |
| Recognisers.FeetPatternSound | popup.js:120-121 | every accepted string matches `^(\d+)'?(\d\|1[0-1])?"?$` |
| Recognisers.FeetPatternComplete | popup.js:120-121 | every way of matching the pattern is accepted |
| Recognisers.FeetPatternAccepted | popup.js:120-121 | the parser accepts exactly the pattern's language |
| Recognisers.FeetInchesQuoteParsed | popup.js:119-127 | `5'11"` is 71 |
| Recognisers.FeetInchesParsed | popup.js:119-127 | `5'11` is 71 |
| Recognisers.FeetOnlyParsed | popup.js:119-127 | `5` and `5'` are 60 |
| Recognisers.DigitsWithoutApostropheAreFeet | popup.js:119-127 | `511` is 511 feet, 6132 inches |
| Recognisers.ZeroHeightParsed | popup.js:119-127 | `0'0` parses to 0 |
| Recognisers.TwelveInchesRejected | popup.js:120-121 | `5'12` is null |
| Recognisers.PaddedInchesRejected | popup.js:120-121 | `5'09` is null |
| Recognisers.NonNumericFeetRejected | popup.js:120-121 | `abc`, the empty string, `-5` and `5.5` are null |
| Formatter.JsRound | popup.js:131 | `Math.round` is the integer within half of its argument (halves up) |
| Formatter.Trunc | popup.js:131 | the quotient behind `%` truncates toward zero |
| Formatter.FeetPart | popup.js:130 | the feet are the largest whole number of 12-inch units not above the total |
| Formatter.InchesPart | popup.js:131 | the inches lie in 0..12 for a non-negative total and in -12..0 otherwise |
| Formatter.ConvertInchesToFeet | popup.js:129-133 | the text ends in a double quote; `FormatWholeInches`, `FormatThenParse` and `ParseThenFormat` relate it to the parser |
| Formatter.WholeInchesParts | popup.js:130-131 | for whole inches, the parts are the quotient and remainder by twelve |
| Formatter.FormatWholeInches | popup.js:129-133 | whole inches are written as the well-formed text `F'I"` with that total |
| Formatter.FormatThenParse | popup.js:119-133 | parsing the formatted whole inches gives them back |
| Formatter.ParseThenFormat | popup.js:119-133 | formatting the total of a canonical `F'I"` gives back that text |
| Formatter.InchesTwelveNotCarried | popup.js:129-133 | a remainder of 11.5 inches or more rounds to `12`, and no foot is carried |
| Formatter.ConvertInchesToFeetExamples | popup.js:129-133 | 71 is `5'11"` and 60 is `5'0"` |
| Formatter.HundredInchesExample | popup.js:129-133 | 100 is `8'4"` |
| Formatter.TwelveInchesShownExample | popup.js:129-133 | 23.5 is `1'12"` |
| Controller.ActualName | popup.js:148-168 | on a unit's identifier, the substitution is `Actual`; a non-unit stays a non-unit |
| Controller.Truthy | popup.js:150 | `!value` on the parse result; `FeetInputRead` and `ZeroFeetRejected` prove a zero total is rejected like `null` |
| Controller.Label | popup.js:179-180 | the label of a unit is the text its display group lists for it |
| Controller.Show | popup.js:179-180 | feet-and-inches text exactly when the target is `feet`, ending in a double quote; otherwise the converted amount to two decimals |
| Controller.Convert | popup.js:136-181 | a success echoes the non-empty trimmed input and names two recognised units; an unsupported pair is only reported for a non-empty input; the lemmas below state each outcome |
| Controller.ConversionFor | popup.js:170-171 | a formula exists exactly when both values name units and the pair is registered; it is that entry and is defined everywhere |
| Controller.ReadValue | popup.js:148-162 | a read failure is the feet-format error from `feet` and the number error otherwise |
| Controller.EmptyInputExactlyWhenBlank | popup.js:139-144 | the empty-input message appears exactly when the input is all whitespace, whatever the units |
| Controller.FeetInputRead | popup.js:139-153 | from feet, an input that trims to a well-formed text is rejected exactly when its total is zero (the truthiness test), and otherwise read as its total, the value any conversion starts from |
| Controller.FeetInputRejected | popup.js:148-153 | from feet, any non-empty text outside the pattern is rejected as badly formatted |
| Controller.NumberInputRead | popup.js:155-162 | from any other unit, the number error appears exactly when `isValidNumber` fails, and otherwise the input is read as its decimal value, which a success converts |
| Controller.UnsupportedExactlyWhenUnregistered | popup.js:170-176 | the unsupported-pair message appears exactly when the input is accepted and no formula exists after the substitution |
| Controller.ConversionForNames | popup.js:170-171 | on identifiers, the lookup is the table entry of the two units |
| Controller.ActualNameOfName | popup.js:148-168 | on identifiers, the string substitution is `Actual` |
| Controller.OfferedPairsNeverUnsupported | popup.js:164-176 | no pair the table offers ever yields the unsupported-pair message |
| Controller.ConvertedApplies | popup.js:170-180 | a success applies the registered formula to the value read, echoes the trimmed input, and labels two recognised units |
| Controller.ConvertedShown | popup.js:179-180 | a success is shown as feet and inches exactly when the target is `feet`, and as two decimals otherwise |
| Controller.LettersAsFeetRejected | popup.js:148-153 | `abc` from feet is a feet-format error |
| Controller.ZeroFeetRejected | popup.js:139-153 | `0'0` from feet, with or without surrounding whitespace, is a feet-format error |
| Controller.SignedNumberRejected | popup.js:156-159 | `-1` from lbs is a number error |
| Popup.Group | popup.js:81-85 | the group of a mode is non-empty and every unit in it is a key of `allowedConversions` |
| Popup.ChoicesOf | popup.js:71-79 | one option per entry, in order, with the entry's key as value and its label as text |
| Popup.TargetChoices | popup.js:103-108 | one option per target, in order, with the unit as value and its `unitNames` label as text |
| Popup.TargetsFor | popup.js:97-108 | a recognised source gets exactly its permitted targets as options; anything else gets none |
| Popup.DefaultTarget | popup.js:110-112 | a recognised source selects its first permitted target; otherwise the empty select's value `""` |
| Popup.DefaultSelections | popup.js:81-112 | the US group starts at lbs→kg and the EU group at kg→lbs |
| Popup.GroupValueIsValid | popup.js:97-112 | every unit of a group is recognised and leads to a non-empty target list headed by its default |
| Popup.Page.constructor | popup.js:189-190 | after `DOMContentLoaded` the page is valid, nothing is shown, and lbs→kg (US) or kg→lbs (EU) is selected |
| Popup.Page.PopulateFromSelect | popup.js:71-79 | the source options become exactly the entries' options, dropping earlier ones; the value becomes the first option's; filling it with the checked group makes the source half of the invariant hold; nothing else changes |
| Popup.Page.UpdateToUnitOptions | popup.js:92-113 | the target options and value depend only on the source value; an unrecognised non-empty source shows the message; an empty source throws; from a valid source the whole invariant holds; nothing else changes |
| Popup.Page.UpdateUnitsByMode | popup.js:81-89 | the source select gets the checked group and its first unit is selected with its default target; the page is valid |
| Popup.Page.SetMode | popup.js:184-185 | switching the radio repopulates both selects; the page stays valid |
| Popup.Page.SelectFrom | popup.js:186 | picking a different source refreshes the targets to its permitted list and default; the page stays valid |
| Popup.Page.SelectTo | popup.js:138 | picking a target changes only the target value; the page stays valid |
| Popup.Page.Click | popup.js:136-181 | the result area shows the handler's outcome on the current selections; a valid page stays valid and never shows the unsupported-pair message |
| Popup.Page.ValidPairIsOffered | popup.js:164-176 | in a valid page, the selected pair is one the table offers |

## Left out

- The DOM and the event wiring (`getElementById`, `createElement`, `innerHTML`, `appendChild`, `addEventListener`) are not modelled. The selects and the result area are plain fields of `Popup.Page`, and each listener is the method that runs it.
- `Popup.Page.constructor` takes the initial radio state as a parameter. The HTML page that sets it is not part of this model.
- A radio or select `change` event fires only when the choice actually changes. `SetMode` and `SelectFrom` do nothing when the same choice is made again.
- `Units.Apply`: the formulas use exact real arithmetic, not IEEE-754 doubles. Rounding of the results is not modelled.
- `Recognisers.NumeralValue`: `parseFloat` is modelled as the exact decimal value of the text, not the nearest double.
- `Controller.Show`: `converted.toFixed(2)` is recorded as `TwoDecimals(amount)`. The two-decimal string itself is not produced.
- `Text.IntToString`: the feet and inches in `convertInchesToFeet` are written as plain integers. JavaScript writes magnitudes of 10^21 or more in exponent notation; that case is not modelled.
- `Text.DigitsValue`: `parseInt` is computed over unbounded integers, so precision loss on very long digit strings is not modelled.
- `Controller.Label` is defined on units only. The script evaluates `unitNames[name]` only after a formula was found, and that happens only when both names are units. What the template would print for other names, `undefined` or an inherited `Object.prototype` member, is never reached and is not modelled.
- The message texts are modelled as categories: the `Controller.Error` cases and `Popup.CannotConvertFrom`. The Russian wording is not modelled. The success line is the `Converted` record, not its text.
- `Object.entries` is taken to list a group's entries in declaration order. This holds for objects whose keys are not array indices.
- `Popup.Page.UpdateToUnitOptions` reports the `TypeError` thrown for an empty source value as its `threw` result. What the browser does with an uncaught exception is not modelled.

Deliberate modelling choices:

- `Text.Trim` strips the whole ECMAScript whitespace and line-terminator set, not only ASCII whitespace.
- Keying `conversions` by a pair of units instead of a string is explained above.
