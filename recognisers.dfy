/**
 * The two input recognisers of the popup: `isValidNumber`, the test
 * `/^\d*\.?\d+$/`, and `convertFeetToInches`, the match
 * `/^(\d+)'?(\d|1[0-1])?"?$/` read as total inches.
 */
module Recognisers {
  import opened Wrappers
  import opened Text

  /**
   * `/^\d*\.?\d+$/.test(s)`. The greedy `\d*` takes every leading digit; what
   * follows must be a dot and at least one more digit, or nothing at all, in
   * which case `\d*` gives its last digit back to `\d+`.
   */
  predicate IsValidNumber(s: string)
    ensures IsValidNumber(s) ==> |s| > 0 && IsDigit(s[|s| - 1])
  {
    var n := LeadingDigits(s);
    if n == |s| then n > 0
    else s[n] == '.' && n + 1 < |s| && AllDigits(s[n + 1..])
  }

  /** `s` splits as `s[..i]` (digits), `s[i..j]` (empty or one dot) and `s[j..]` (one digit or more). */
  ghost predicate NumberSplit(s: string, i: nat, j: nat) {
    i <= j < |s| && AllDigits(s[..i]) && (j == i || (j == i + 1 && s[i] == '.')) && AllDigits(s[j..])
  }

  /** The language of `^\d*\.?\d+$`: every way the three parts can divide `s`. */
  ghost predicate MatchesNumberPattern(s: string) {
    exists i: nat, j: nat :: NumberSplit(s, i, j)
  }

  /** The recogniser accepts exactly the strings the pattern matches. */
  lemma IsValidNumberMatchesPattern(s: string)
    ensures IsValidNumber(s) <==> MatchesNumberPattern(s)
  {
    var n := LeadingDigits(s);
    if IsValidNumber(s) {
      if n == |s| {
        assert NumberSplit(s, n - 1, n - 1);
      } else {
        assert NumberSplit(s, n, n + 1);
      }
    }
    if MatchesNumberPattern(s) {
      var i: nat, j: nat :| NumberSplit(s, i, j);
      assert forall k :: i <= k < n ==> IsDigit(s[k]) by {
        forall k | i <= k < n ensures IsDigit(s[k]) {
          assert s[..n][k] == s[k];
        }
      }
      if j == i {
        assert forall k :: 0 <= k < |s| ==> IsDigit(s[k]) by {
          forall k | 0 <= k < |s| ensures IsDigit(s[k]) {
            if k < i { assert s[..i][k] == s[k]; } else { assert s[j..][k - j] == s[k]; }
          }
        }
        assert n == |s|;
      } else {
        assert n == i;
      }
    }
  }

  /**
   * What the pattern admits, character by character: a non-empty string of
   * digits and dots with at most one dot, ending in a digit.
   */
  lemma IsValidNumberCharacterised(s: string)
    ensures IsValidNumber(s) <==>
      (|s| > 0 && IsDigit(s[|s| - 1])
       && (forall k :: 0 <= k < |s| ==> IsDigit(s[k]) || s[k] == '.')
       && (forall k, m :: 0 <= k < m < |s| && s[k] == '.' ==> s[m] != '.'))
  {
    var n := LeadingDigits(s);
    if IsValidNumber(s) && n < |s| {
      forall k | 0 <= k < |s| ensures IsDigit(s[k]) || s[k] == '.' {
        if k < n { assert s[..n][k] == s[k]; }
        else if k > n { assert s[n + 1..][k - n - 1] == s[k]; }
      }
      forall k, m | 0 <= k < m < |s| && s[k] == '.' ensures s[m] != '.' {
        assert s[n + 1..][m - n - 1] == s[m];
      }
      assert s[n + 1..][|s| - n - 2] == s[|s| - 1];
    }
    if IsValidNumber(s) && n == |s| {
      assert s[..n][|s| - 1] == s[|s| - 1];
      forall k | 0 <= k < |s| ensures IsDigit(s[k]) {
        assert s[..n][k] == s[k];
      }
    }
  }

  /** Worked cases: a bare fraction, a leading zero and a decimal pass. */
  lemma IsValidNumberAccepts()
    ensures IsValidNumber(".5") && IsValidNumber("05") && IsValidNumber("12.75")
  {
    LeadingDigitsUnique(".5", 0);
    LeadingDigitsUnique("12.75", 2);
    assert "12.75"[3..] == "75";
  }

  /** Worked cases: empty, a trailing dot, a sign, an exponent, two dots and a lone dot do not pass. */
  lemma IsValidNumberRejects()
    ensures !IsValidNumber("") && !IsValidNumber("5.") && !IsValidNumber("-1") && !IsValidNumber("1e3")
    ensures !IsValidNumber("1.2.3") && !IsValidNumber(".")
  {
    LeadingDigitsUnique("5.", 1);
    LeadingDigitsUnique("-1", 0);
    LeadingDigitsUnique("1e3", 1);
    LeadingDigitsUnique("1.2.3", 1);
    assert "1.2.3"[2..][1] == '.';
    LeadingDigitsUnique(".", 0);
  }

  /**
   * `parseFloat(s)` of a string `isValidNumber` accepts, idealised as the exact
   * decimal value: the integer digits plus the fraction digits over a power of ten.
   */
  function NumeralValue(s: string): (v: real)
    requires IsValidNumber(s)
    ensures v >= 0.0
    ensures v.Floor == DigitsValue(s[..LeadingDigits(s)])
  {
    var n := LeadingDigits(s);
    if n == |s| then
      assert s[..n] == s;
      DigitsValue(s) as real
    else
      var whole := DigitsValue(s[..n]);
      var fraction := DigitsValue(s[n + 1..]);
      var scale := Pow10(|s| - n - 1);
      FractionBelowOne(fraction, scale);
      whole as real + fraction as real / scale as real
  }

  /** A fraction `f / d` with `f < d` adds less than one to a whole number. */
  lemma FractionBelowOne(f: nat, d: nat)
    requires f < d
    ensures 0.0 <= f as real / d as real < 1.0
  {
    assert f as real < d as real;
  }

  /** The `"?$` tail: nothing, or one double quote. */
  predicate QuoteTail(t: string) {
    t == [] || t == ['"']
  }

  /**
   * What follows the apostrophe: `(\d|1[0-1])?"?$`, alternatives tried in the
   * order the regular expression tries them; the inches, or `None` if the
   * rest of the pattern cannot match.
   */
  function InchesGroup(t: string): (r: Option<nat>)
    ensures r.Some? ==> r.value < 12
  {
    if |t| >= 1 && IsDigit(t[0]) && QuoteTail(t[1..]) then Some(DigitValue(t[0]))
    else if |t| >= 2 && t[0] == '1' && (t[1] == '0' || t[1] == '1') && QuoteTail(t[2..]) then Some(10 + DigitValue(t[1]))
    else if QuoteTail(t) then Some(0)
    else None
  }

  /**
   * `convertFeetToInches(s)`: `feet * 12 + inches` for a match of
   * `/^(\d+)'?(\d|1[0-1])?"?$/`, `None` (the script's `null`) otherwise. The
   * greedy `\d+` takes every leading digit; the remaining text is either an
   * apostrophe followed by the inches group, or only the optional quote.
   * Giving digits back to `\d+` never yields a match, so every digit before
   * the apostrophe (or all of them, without one) counts as feet.
   */
  function ConvertFeetToInches(s: string): (r: Option<nat>)
    ensures r.Some? ==> |s| > 0 && IsDigit(s[0]) && r.value / 12 == DigitsValue(s[..LeadingDigits(s)])
  {
    var n := LeadingDigits(s);
    if n == 0 then None
    else
      var feet := DigitsValue(s[..n]);
      if n < |s| && s[n] == '\'' then
        match InchesGroup(s[n + 1..])
        case None => None
        case Some(inches) => Some(feet * 12 + inches)
      else if QuoteTail(s[n..]) then Some(feet * 12)
      else None
  }

  /**
   * A text in the shape the parser accepts: feet digits, an optional
   * apostrophe, inches written as `0`..`11` (only after the apostrophe), and
   * an optional closing double quote.
   */
  datatype FeetText = FeetText(feet: string, apostrophe: bool, inches: Option<nat>, quote: bool)

  ghost predicate WellFormed(t: FeetText) {
    |t.feet| > 0 && AllDigits(t.feet) && (t.inches.Some? ==> t.apostrophe && t.inches.value < 12)
  }

  /** The text of a `FeetText`: the feet digits followed by the rest of the pattern. */
  function Render(t: FeetText): string {
    t.feet + AfterFeet(t)
  }

  /** What follows the feet digits: the apostrophe, the inches and the quote, each if present. */
  function AfterFeet(t: FeetText): string {
    (if t.apostrophe then "'" else "") + (InchesDigits(t) + (if t.quote then "\"" else ""))
  }

  function InchesDigits(t: FeetText): string {
    if t.inches.Some? then NatToString(t.inches.value) else ""
  }

  ghost function TotalInches(t: FeetText): nat
    requires WellFormed(t)
  {
    DigitsValue(t.feet) * 12 + (if t.inches.Some? then t.inches.value else 0)
  }

  /** A rendered text starts with a digit and ends with a digit, an apostrophe or a quote, so trimming keeps it. */
  lemma RenderedIsTrimmed(t: FeetText)
    requires WellFormed(t)
    ensures Trim(Render(t)) == Render(t)
  {
    var s := Render(t);
    assert s[0] == t.feet[0];
    var last := s[|s| - 1];
    assert IsDigit(last) || last == '\'' || last == '"' by {
      if t.quote {
      } else if t.inches.Some? {
        var d := NatToString(t.inches.value);
        assert last == d[|d| - 1];
      } else if !t.apostrophe {
        assert last == t.feet[|t.feet| - 1];
      }
    }
    TrimUnchanged(s);
  }

  /** The inches text `0`..`11` is one digit, or `1` followed by `0` or `1`. */
  lemma InchesText(i: nat)
    requires i < 12
    ensures i < 10 ==> NatToString(i) == [DigitChar(i)]
    ensures i >= 10 ==> NatToString(i) == ['1', DigitChar(i - 10)]
  {
  }

  /** The inches group reads back the text of `0`..`11` followed by the quote tail. */
  lemma InchesGroupRendered(i: nat, q: string)
    requires i < 12 && QuoteTail(q)
    ensures InchesGroup(NatToString(i) + q) == Some(i)
  {
    InchesText(i);
    var rest := NatToString(i) + q;
    if i >= 10 {
      assert rest[1..] == [DigitChar(i - 10)] + q;
      assert rest[2..] == q;
    } else {
      assert rest[1..] == q;
    }
  }

  /** Every well-formed text parses to its total number of inches. */
  lemma ParseRendered(t: FeetText)
    requires WellFormed(t)
    ensures ConvertFeetToInches(Render(t)) == Some(TotalInches(t))
  {
    var s := Render(t);
    var n := |t.feet|;
    assert s[..n] == t.feet && s[n..] == AfterFeet(t);
    if t.apostrophe {
      ParseAfterApostrophe(t);
    } else {
      LeadingDigitsUnique(s, n);
    }
  }

  /** The apostrophe case of `ParseRendered`: the inches group reads what follows it. */
  lemma ParseAfterApostrophe(t: FeetText)
    requires WellFormed(t) && t.apostrophe
    ensures var s, n := Render(t), |t.feet|;
      LeadingDigits(s) == n && n < |s| && s[n] == '\''
      && InchesGroup(s[n + 1..]) == Some(if t.inches.Some? then t.inches.value else 0)
  {
    var s := Render(t);
    var n := |t.feet|;
    var tail := AfterFeet(t);
    var q := if t.quote then "\"" else "";
    var rest := InchesDigits(t) + q;
    assert s[..n] == t.feet && s[n..] == tail;
    assert tail == "'" + rest;
    assert tail[1..] == rest;
    assert s[n + 1..] == s[n..][1..];
    LeadingDigitsUnique(s, n);
    if t.inches.Some? {
      InchesGroupRendered(t.inches.value, q);
    } else {
      assert rest == q;
    }
  }

  /** What the inches group accepts is the text of its inches (if any) followed by the quote tail. */
  lemma InchesGroupParsed(rest: string) returns (inches: Option<nat>, quote: bool)
    requires InchesGroup(rest).Some?
    ensures inches.Some? ==> inches.value < 12
    ensures (if inches.Some? then NatToString(inches.value) else "") + (if quote then "\"" else "") == rest
    ensures InchesGroup(rest).value == if inches.Some? then inches.value else 0
  {
    var i := InchesGroup(rest).value;
    if |rest| >= 1 && IsDigit(rest[0]) && QuoteTail(rest[1..]) {
      inches, quote := Some(i), rest[1..] != [];
      InchesText(i);
      assert rest == [rest[0]] + rest[1..];
    } else if |rest| >= 2 && rest[0] == '1' && (rest[1] == '0' || rest[1] == '1') && QuoteTail(rest[2..]) {
      inches, quote := Some(i), rest[2..] != [];
      InchesText(i);
      assert rest == rest[..2] + rest[2..];
    } else {
      inches, quote := None, rest != [];
    }
  }

  /** An accepted text with an apostrophe is the rendering of a well-formed text with that total. */
  lemma ParsedWithApostrophe(s: string, n: nat) returns (t: FeetText)
    requires n == LeadingDigits(s) && 0 < n < |s| && s[n] == '\''
    requires ConvertFeetToInches(s).Some?
    ensures WellFormed(t) && Render(t) == s && TotalInches(t) == ConvertFeetToInches(s).value
  {
    var feet := s[..n];
    var rest := s[n + 1..];
    assert s[n..] == "'" + rest;
    assert s == feet + s[n..];
    var inches, quote := InchesGroupParsed(rest);
    t := FeetText(feet, true, inches, quote);
    assert AfterFeet(t) == "'" + rest;
  }

  /** Whatever the parser accepts is the rendering of a well-formed text, and its value is that text's total. */
  lemma ParsedIsRendered(s: string)
    requires ConvertFeetToInches(s).Some?
    ensures exists t :: WellFormed(t) && Render(t) == s && TotalInches(t) == ConvertFeetToInches(s).value
  {
    var n := LeadingDigits(s);
    if n < |s| && s[n] == '\'' {
      var t := ParsedWithApostrophe(s, n);
    } else {
      var t := FeetText(s[..n], false, None, s[n..] != []);
      assert s == s[..n] + s[n..];
      assert WellFormed(t) && Render(t) == s && TotalInches(t) == ConvertFeetToInches(s).value;
    }
  }

  /**
   * The parser's exact contract: it yields `v` precisely for the renderings
   * of well-formed texts whose total is `v`, and `None` for everything else.
   */
  lemma ParseExactly(s: string, v: nat)
    ensures ConvertFeetToInches(s) == Some(v) <==>
      exists t :: WellFormed(t) && Render(t) == s && TotalInches(t) == v
  {
    if ConvertFeetToInches(s) == Some(v) {
      ParsedIsRendered(s);
    }
    if exists t :: WellFormed(t) && Render(t) == s && TotalInches(t) == v {
      var t :| WellFormed(t) && Render(t) == s && TotalInches(t) == v;
      ParseRendered(t);
    }
  }

  /** What `(\d|1[0-1])?` can match: nothing, one digit, `10` or `11`. */
  ghost predicate InchesAlternative(g: string) {
    g == [] || (|g| == 1 && IsDigit(g[0])) || (|g| == 2 && g[0] == '1' && (g[1] == '0' || g[1] == '1'))
  }

  /**
   * `s` splits as `s[..a]` for `(\d+)`, `s[a..b]` for `'?`, `s[b..c]` for
   * `(\d|1[0-1])?` and `s[c..]` for `"?`.
   */
  ghost predicate FeetSplit(s: string, a: nat, b: nat, c: nat) {
    0 < a <= b <= c <= |s| && AllDigits(s[..a]) && (b == a || (b == a + 1 && s[a] == '\''))
    && InchesAlternative(s[b..c]) && QuoteTail(s[c..])
  }

  /** The language of `^(\d+)'?(\d|1[0-1])?"?$`: every way the four parts can divide `s`. */
  ghost predicate MatchesFeetPattern(s: string) {
    exists a: nat, b: nat, c: nat :: FeetSplit(s, a, b, c)
  }

  /** An inches alternative followed by the quote tail is always accepted after the apostrophe. */
  lemma InchesGroupAccepts(g: string, q: string)
    requires InchesAlternative(g) && QuoteTail(q)
    ensures InchesGroup(g + q).Some?
  {
    var t := g + q;
    if |g| == 1 {
      assert t[1..] == q;
    } else if |g| == 2 {
      assert t[2..] == q;
    } else {
      assert t == q;
    }
  }

  /** Every string the parser accepts matches the regular expression. */
  lemma FeetPatternSound(s: string)
    requires ConvertFeetToInches(s).Some?
    ensures MatchesFeetPattern(s)
  {
    var n := LeadingDigits(s);
    if n < |s| && s[n] == '\'' {
      var rest := s[n + 1..];
      if |rest| >= 1 && IsDigit(rest[0]) && QuoteTail(rest[1..]) {
        assert s[n + 1..n + 2] == [rest[0]] && s[n + 2..] == rest[1..];
        assert FeetSplit(s, n, n + 1, n + 2);
      } else if |rest| >= 2 && rest[0] == '1' && (rest[1] == '0' || rest[1] == '1') && QuoteTail(rest[2..]) {
        assert s[n + 1..n + 3] == rest[..2] && s[n + 3..] == rest[2..];
        assert FeetSplit(s, n, n + 1, n + 3);
      } else {
        assert FeetSplit(s, n, n + 1, n + 1);
      }
    } else {
      assert FeetSplit(s, n, n, n);
    }
  }

  /** Every way of matching the regular expression is accepted by the parser. */
  lemma FeetPatternComplete(s: string, a: nat, b: nat, c: nat)
    requires FeetSplit(s, a, b, c)
    ensures ConvertFeetToInches(s).Some?
  {
    var g, q := s[b..c], s[c..];
    if b == a + 1 {
      LeadingDigitsUnique(s, a);
      assert s[a + 1..] == g + q;
      InchesGroupAccepts(g, q);
    } else if g == [] {
      assert s[a..] == q;
      LeadingDigitsUnique(s, a);
    } else {
      assert s[..c] == s[..a] + g;
      assert AllDigits(s[..c]);
      LeadingDigitsUnique(s, c);
    }
  }

  /** The parser accepts exactly the strings the regular expression matches. */
  lemma FeetPatternAccepted(s: string)
    ensures ConvertFeetToInches(s).Some? <==> MatchesFeetPattern(s)
  {
    if ConvertFeetToInches(s).Some? {
      FeetPatternSound(s);
    }
    if MatchesFeetPattern(s) {
      var a: nat, b: nat, c: nat :| FeetSplit(s, a, b, c);
      FeetPatternComplete(s, a, b, c);
    }
  }

  /** Worked case: feet, inches and the closing quote. */
  lemma FeetInchesQuoteParsed()
    ensures ConvertFeetToInches("5'11\"") == Some(71)
  {
    var t := FeetText("5", true, Some(11), true);
    assert Render(t) == "5'11\"" by { InchesText(11); }
    ParseRendered(t);
  }

  /** Worked case: the closing quote may be left out. */
  lemma FeetInchesParsed()
    ensures ConvertFeetToInches("5'11") == Some(71)
  {
    var t := FeetText("5", true, Some(11), false);
    assert Render(t) == "5'11" by { InchesText(11); }
    ParseRendered(t);
  }

  /** Worked case: feet alone, with or without the apostrophe. */
  lemma FeetOnlyParsed()
    ensures ConvertFeetToInches("5") == Some(60)
    ensures ConvertFeetToInches("5'") == Some(60)
  {
    var t := FeetText("5", false, None, false);
    assert Render(t) == "5";
    ParseRendered(t);
    t := FeetText("5", true, None, false);
    assert Render(t) == "5'";
    ParseRendered(t);
  }

  /** Worked case: without an apostrophe every digit counts as feet, so `511` is 511 feet. */
  lemma DigitsWithoutApostropheAreFeet()
    ensures ConvertFeetToInches("511") == Some(6132)
  {
    assert "511"[..2] == "51" && "51"[..1] == "5";
    var t := FeetText("511", false, None, false);
    assert Render(t) == "511";
    ParseRendered(t);
  }

  /** Worked case: zero feet and zero inches parse to zero. */
  lemma ZeroHeightParsed()
    ensures ConvertFeetToInches("0'0") == Some(0)
  {
    var t := FeetText("0", true, Some(0), false);
    assert Render(t) == "0'0" by { InchesText(0); }
    ParseRendered(t);
  }

  /** Worked case: twelve inches do not match `(\d|1[0-1])`. */
  lemma TwelveInchesRejected()
    ensures ConvertFeetToInches("5'12") == None
  {
    LeadingDigitsUnique("5'12", 1);
    assert "5'12"[2..] == "12";
  }

  /** Worked case: a padded inch `09` is two digits that are not `10` or `11`. */
  lemma PaddedInchesRejected()
    ensures ConvertFeetToInches("5'09") == None
  {
    LeadingDigitsUnique("5'09", 1);
    assert "5'09"[2..] == "09";
  }

  /** Worked cases: letters, nothing, a sign and a decimal point are not feet. */
  lemma NonNumericFeetRejected()
    ensures ConvertFeetToInches("abc") == None
    ensures ConvertFeetToInches("") == None
    ensures ConvertFeetToInches("-5") == None
    ensures ConvertFeetToInches("5.5") == None
  {
    LeadingDigitsUnique("abc", 0);
    LeadingDigitsUnique("-5", 0);
    LeadingDigitsUnique("5.5", 1);
  }
}
