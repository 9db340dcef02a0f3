/**
 * `convertInchesToFeet`: renders a number of inches as `<feet>'<inches>"`,
 * with feet `Math.floor(total / 12)` and inches `Math.round(total % 12)`,
 * idealised over the reals.
 */
module Formatter {
  import opened Wrappers
  import opened Text
  import opened Recognisers

  /** `Math.round(x)`: the nearest integer, halves rounded up. */
  function JsRound(x: real): (r: int)
    ensures x - 0.5 < r as real <= x + 0.5
  {
    (x + 0.5).Floor
  }

  /** Truncation toward zero, the quotient JavaScript's `%` is based on. */
  function Trunc(x: real): (r: int)
    ensures 0.0 <= x ==> r as real <= x < r as real + 1.0
    ensures x < 0.0 ==> r as real - 1.0 < x <= r as real
  {
    if x >= 0.0 then x.Floor else -((-x).Floor)
  }

  /** `Math.floor(total / 12)`: the whole feet, the largest multiple of twelve inches not above `total`. */
  function FeetPart(total: real): (f: int)
    ensures f as real * 12.0 <= total < f as real * 12.0 + 12.0
  {
    (total / 12.0).Floor
  }

  /**
   * `Math.round(total % 12)`: the remainder keeps the sign of `total`, and
   * rounding it can reach twelve, which is not carried into the feet.
   */
  function InchesPart(total: real): (i: int)
    ensures total >= 0.0 ==> 0 <= i <= 12
    ensures total < 0.0 ==> -12 <= i <= 0
  {
    JsRound(total - 12.0 * Trunc(total / 12.0) as real)
  }

  /** `convertInchesToFeet(total)`. */
  function ConvertInchesToFeet(total: real): (r: string)
    ensures |r| >= 4 && r[|r| - 1] == '"'
  {
    IntToString(FeetPart(total)) + "'" + IntToString(InchesPart(total)) + "\""
  }

  /** For a whole number of inches the parts are exactly the quotient and the remainder by twelve. */
  lemma WholeInchesParts(n: nat)
    ensures FeetPart(n as real) == n / 12
    ensures InchesPart(n as real) == n % 12
  {
    var q, r := n / 12, n % 12;
    assert n as real == 12.0 * q as real + r as real;
    assert (n as real / 12.0) == q as real + r as real / 12.0;
    assert Trunc(n as real / 12.0) == q;
  }

  /**
   * A whole number of inches is rendered as feet, apostrophe, inches `0`..`11`
   * and a double quote: the well-formed text of that total.
   */
  lemma FormatWholeInches(n: nat)
    ensures var t := FeetText(NatToString(n / 12), true, Some(n % 12), true);
      WellFormed(t) && TotalInches(t) == n && ConvertInchesToFeet(n as real) == Render(t)
  {
    WholeInchesParts(n);
    var f, i := NatToString(n / 12), NatToString(n % 12);
    var t := FeetText(f, true, Some(n % 12), true);
    assert ConvertInchesToFeet(n as real) == f + "'" + i + "\"";
    assert AfterFeet(t) == "'" + (i + "\"");
    assert f + "'" + i + "\"" == f + ("'" + (i + "\""));
  }

  /** Parsing the rendering of a whole number of inches gives that number back. */
  lemma FormatThenParse(n: nat)
    ensures ConvertFeetToInches(ConvertInchesToFeet(n as real)) == Some(n)
  {
    FormatWholeInches(n);
    ParseRendered(FeetText(NatToString(n / 12), true, Some(n % 12), true));
  }

  /**
   * Formatting the total of a fully written text `F'I"` (feet without
   * leading zeros, inches `0`..`11`) gives back that text.
   */
  lemma ParseThenFormat(t: FeetText)
    requires WellFormed(t) && t.apostrophe && t.inches.Some? && t.quote
    requires |t.feet| > 1 ==> t.feet[0] != '0'
    ensures ConvertInchesToFeet(TotalInches(t) as real) == Render(t)
  {
    var n := TotalInches(t);
    FormatWholeInches(n);
    assert n / 12 == DigitsValue(t.feet) && n % 12 == t.inches.value;
    CanonicalDigits(t.feet);
  }

  /**
   * When the remainder is 11.5 inches or more it rounds to twelve, and the
   * text shows `12` inches without carrying a foot.
   */
  lemma InchesTwelveNotCarried(total: real)
    requires total >= 0.0
    requires total - 12.0 * FeetPart(total) as real >= 11.5
    ensures InchesPart(total) == 12
    ensures ConvertInchesToFeet(total) == IntToString(FeetPart(total)) + "'12\""
  {
    assert Trunc(total / 12.0) == FeetPart(total);
    assert NatToString(12) == "12";
  }

  /** Worked cases: 71 and 60 inches. */
  lemma ConvertInchesToFeetExamples()
    ensures ConvertInchesToFeet(71.0) == "5'11\""
    ensures ConvertInchesToFeet(60.0) == "5'0\""
  {
    WholeInchesParts(71);
    WholeInchesParts(60);
    assert NatToString(11) == "11";
  }

  /** Worked case: 100 inches are 8 feet 4 inches. */
  lemma HundredInchesExample()
    ensures ConvertInchesToFeet(100.0) == "8'4\""
  {
    WholeInchesParts(100);
  }

  /** Worked case: 23.5 inches is one foot and a remainder that rounds to twelve. */
  lemma TwelveInchesShownExample()
    ensures ConvertInchesToFeet(23.5) == "1'12\""
  {
    assert FeetPart(23.5) == 1;
    InchesTwelveNotCarried(23.5);
  }
}
