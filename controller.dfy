/**
 * The decision logic of the Convert button's click handler: trim the input,
 * read it as feet-and-inches or as a plain number, read `feet` as `inches`
 * on both sides, look the pair up, and show the result or an error.
 */
module Controller {
  import opened Wrappers
  import opened Text
  import opened Units
  import opened Recognisers
  import opened Formatter

  /** The messages the handler can show instead of a result. */
  datatype Error = EmptyInput | InvalidFeetFormat | InvalidNumber | UnsupportedPair

  /** The converted amount as shown: feet-and-inches text, or the number `toFixed(2)` writes. */
  datatype Shown = FeetAndInches(text: string) | TwoDecimals(amount: real)

  /**
   * What the handler writes into the result area: an error, or the line
   * `<input> <source label> = <shown amount> <target label>` together with the
   * value read from the input and the converted value.
   */
  datatype Outcome =
    | Failed(error: Error)
    | Converted(input: string, fromLabel: string, value: real, converted: real, shown: Shown, toLabel: string)

  /** JavaScript truthiness of `convertFeetToInches`'s result: `null` and `0` are both falsy. */
  predicate Truthy(v: Option<nat>) {
    v.Some? && v.value != 0
  }

  /** `unit === 'feet' ? 'inches' : unit` on a select value. */
  function ActualName(name: string): (r: string)
    ensures UnitOf(name).Some? ==> UnitOf(r) == Some(Actual(UnitOf(name).value))
    ensures UnitOf(name).None? ==> UnitOf(r).None?
  {
    if name == "feet" then "inches" else name
  }

  /**
   * `unitNames[name]` inside the result's template literal. The result is
   * only written for a pair that has a formula, so both names are units and
   * the lookup always finds a label.
   */
  function Label(u: Unit): (r: string)
    ensures forall e :: e in UnitNamesUS + UnitNamesEU && e.0 == u ==> r == e.1
  {
    UnitNamesCoverEveryUnit(u);
    UnitNames[u]
  }

  /**
   * `conversions[`${from}_to_${to}`]`: the formula registered for the units
   * two select values name, or `None` when either names no unit or the pair
   * has no formula.
   */
  function ConversionFor(from: string, to: string): (r: Option<Formula>)
    ensures r.Some? <==> UnitOf(from).Some? && UnitOf(to).Some? && (UnitOf(from).value, UnitOf(to).value) in Conversions
    ensures r.Some? ==> r.value == Conversions[(UnitOf(from).value, UnitOf(to).value)] && WellDefined(r.value)
  {
    match (UnitOf(from), UnitOf(to))
    case (Some(a), Some(b)) =>
      if (a, b) in Conversions then
        ConversionsWellDefined((a, b));
        Some(Conversions[(a, b)])
      else None
    case _ => None
  }

  /**
   * The value the handler reads from the trimmed, non-empty input: from feet,
   * the parsed total in inches, rejected when `null` or `0`; from any other
   * unit, the decimal value, rejected when `isValidNumber` fails.
   */
  function ReadValue(fromUnit: string, valueStr: string): (r: Result<real, Error>)
    ensures r.Err? ==> r.error == (if fromUnit == "feet" then InvalidFeetFormat else InvalidNumber)
  {
    if fromUnit == "feet" then
      var inches := ConvertFeetToInches(valueStr);
      if !Truthy(inches) then Err(InvalidFeetFormat) else Ok(inches.value as real)
    else if !IsValidNumber(valueStr) then Err(InvalidNumber)
    else Ok(NumeralValue(valueStr))
  }

  /** How the converted amount is shown: feet and inches for a feet target, two decimals otherwise. */
  function Show(toUnit: string, converted: real): (r: Shown)
    ensures r.FeetAndInches? <==> toUnit == "feet"
    ensures r.FeetAndInches? ==> |r.text| >= 4 && r.text[|r.text| - 1] == '"'
    ensures r.TwoDecimals? ==> r.amount == converted
  {
    if toUnit == "feet" then FeetAndInches(ConvertInchesToFeet(converted)) else TwoDecimals(converted)
  }

  /**
   * The click handler on the values of the two selects and the raw text of
   * the input field. Errors are checked in the handler's order and each
   * stops before anything is converted.
   */
  function Convert(fromUnit: string, toUnit: string, raw: string): (r: Outcome)
    ensures r.Converted? ==> r.input == Trim(raw) && r.input != []
    ensures r.Converted? ==> UnitOf(fromUnit).Some? && UnitOf(toUnit).Some?
    ensures r.Failed? && r.error == UnsupportedPair ==> Trim(raw) != []
  {
    var valueStr := Trim(raw);
    if valueStr == [] then Failed(EmptyInput)
    else
      match ReadValue(fromUnit, valueStr)
      case Err(e) => Failed(e)
      case Ok(value) =>
        match ConversionFor(ActualName(fromUnit), ActualName(toUnit))
        case None => Failed(UnsupportedPair)
        case Some(f) =>
          var converted := Apply(f, value);
          var from, to := UnitOf(fromUnit).value, UnitOf(toUnit).value;
          Converted(valueStr, Label(from), value, converted, Show(toUnit, converted), Label(to))
  }

  /** The input counts as empty exactly when it is nothing but whitespace, whatever the units. */
  lemma EmptyInputExactlyWhenBlank(fromUnit: string, toUnit: string, raw: string)
    ensures Convert(fromUnit, toUnit, raw) == Failed(EmptyInput) <==>
      forall i :: 0 <= i < |raw| ==> IsJsWhitespace(raw[i])
  {
    TrimEmptyIffBlank(raw);
  }

  /**
   * From feet, an input that trims to a text of the accepted shape is read
   * as its total in inches, unless that total is zero: `0`, `0'0` and the like are rejected as badly
   * formatted, because the handler tests the parse result for truthiness.
   */
  lemma FeetInputRead(toUnit: string, t: FeetText, raw: string)
    requires WellFormed(t) && Trim(raw) == Render(t)
    ensures var r := Convert("feet", toUnit, raw);
      (TotalInches(t) == 0 <==> r == Failed(InvalidFeetFormat))
      && (r.Converted? ==> r.value == TotalInches(t) as real)
  {
    ParseRendered(t);
  }

  /** From feet, every text outside the accepted shape is rejected as badly formatted. */
  lemma FeetInputRejected(toUnit: string, raw: string)
    requires Trim(raw) != [] && !MatchesFeetPattern(Trim(raw))
    ensures Convert("feet", toUnit, raw) == Failed(InvalidFeetFormat)
  {
    FeetPatternAccepted(Trim(raw));
  }

  /**
   * From any other unit, the trimmed input is rejected as a number exactly
   * when `isValidNumber` fails on it, and otherwise read as its decimal value.
   */
  lemma NumberInputRead(fromUnit: string, toUnit: string, raw: string)
    requires fromUnit != "feet" && Trim(raw) != []
    ensures var r := Convert(fromUnit, toUnit, raw);
      (r == Failed(InvalidNumber) <==> !IsValidNumber(Trim(raw)))
      && (r.Converted? ==> IsValidNumber(Trim(raw)) && r.value == NumeralValue(Trim(raw)))
  {
  }

  /**
   * The pair is reported unsupported exactly when the input was accepted and
   * no formula is registered for the units after reading `feet` as `inches`.
   */
  lemma UnsupportedExactlyWhenUnregistered(fromUnit: string, toUnit: string, raw: string)
    ensures Convert(fromUnit, toUnit, raw) == Failed(UnsupportedPair) <==>
      Trim(raw) != []
      && (if fromUnit == "feet" then Truthy(ConvertFeetToInches(Trim(raw))) else IsValidNumber(Trim(raw)))
      && ConversionFor(ActualName(fromUnit), ActualName(toUnit)).None?
  {
  }

  /** On unit identifiers, the lookup is the table entry of the two units. */
  lemma ConversionForNames(a: Unit, b: Unit)
    ensures ConversionFor(Name(a), Name(b)) == if (a, b) in Conversions then Some(Conversions[(a, b)]) else None
  {
    UnitOfName(a);
    UnitOfName(b);
  }

  /** On unit identifiers, reading `feet` as `inches` is `Actual`. */
  lemma ActualNameOfName(u: Unit)
    ensures ActualName(Name(u)) == Name(Actual(u))
  {
    UnitOfName(u);
  }

  /**
   * Every pair the table of permitted targets offers converts any accepted
   * input: the handler never reports an unsupported pair for it.
   */
  lemma OfferedPairsNeverUnsupported(u: Unit, t: Unit, raw: string)
    requires t in AllowedConversions[u]
    ensures Convert(Name(u), Name(t), raw) != Failed(UnsupportedPair)
  {
    OfferedPairsResolve(u, t);
    ActualNameOfName(u);
    ActualNameOfName(t);
    ConversionForNames(Actual(u), Actual(t));
  }

  /**
   * A conversion applies the registered formula of the pair, after reading
   * `feet` as `inches`, to the value read from the input; echoes the trimmed
   * input; and, both units being recognised, labels them with their
   * `unitNames` entries rather than `undefined`.
   */
  lemma ConvertedApplies(fromUnit: string, toUnit: string, raw: string)
    requires Convert(fromUnit, toUnit, raw).Converted?
    ensures var r := Convert(fromUnit, toUnit, raw);
      UnitOf(fromUnit).Some? && UnitOf(toUnit).Some?
      && var k := (Actual(UnitOf(fromUnit).value), Actual(UnitOf(toUnit).value));
      k in Conversions && WellDefined(Conversions[k])
      && r.converted == Apply(Conversions[k], r.value)
      && r.input == Trim(raw)
      && r.fromLabel == Label(UnitOf(fromUnit).value) && r.toLabel == Label(UnitOf(toUnit).value)
  {
    var f := ConversionFor(ActualName(fromUnit), ActualName(toUnit));
    assert f.Some?;
  }

  /** A conversion shows feet and inches exactly when the target is feet, and two decimals otherwise. */
  lemma ConvertedShown(fromUnit: string, toUnit: string, raw: string)
    requires Convert(fromUnit, toUnit, raw).Converted?
    ensures var r := Convert(fromUnit, toUnit, raw);
      (r.shown.FeetAndInches? <==> toUnit == "feet")
      && (r.shown.FeetAndInches? ==> r.shown.text == ConvertInchesToFeet(r.converted))
      && (r.shown.TwoDecimals? ==> r.shown.amount == r.converted)
  {
  }

  /** Worked rejection: letters typed as feet. */
  lemma LettersAsFeetRejected(raw: string)
    requires Trim(raw) == "abc"
    ensures Convert("feet", "cm", raw) == Failed(InvalidFeetFormat)
  {
    NonNumericFeetRejected();
  }

  /** Worked rejection: zero feet and zero inches, padded or not, is read as a failed parse. */
  lemma ZeroFeetRejected(raw: string)
    requires Trim(raw) == "0'0"
    ensures Convert("feet", "cm", raw) == Failed(InvalidFeetFormat)
  {
    var t := FeetText("0", true, Some(0), false);
    assert Render(t) == "0'0" by { InchesText(0); }
    FeetInputRead("cm", t, raw);
  }

  /** Worked rejection: a sign is not part of the number pattern. */
  lemma SignedNumberRejected(raw: string)
    requires Trim(raw) == "-1"
    ensures Convert("lbs", "kg", raw) == Failed(InvalidNumber)
  {
    LeadingDigitsUnique("-1", 0);
  }
}
