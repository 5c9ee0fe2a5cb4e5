// What the terms of a duration are worth, independently of how the parser
// computes it.
module DurationUnits {
  import opened Wrappers
  import N = Numerals
  import opened Durations

  // ---- Numerals ----

  predicate AllDigits(s: string) { forall i :: 0 <= i < |s| ==> N.IsDigit(s[i]) }

  lemma {:induction false} DigitsAll(s: string, i: nat, n: nat)
    requires i <= n <= |s|
    ensures Digits(s, i, n) <==> forall k :: i <= k < n ==> N.IsDigit(s[k])
    decreases n
  {
    if i < n { DigitsAll(s, i, n - 1); }
  }

  lemma {:induction false} WholePrefix(s: string, t: string, n: nat)
    requires n <= |s| && n <= |t| && s[..n] == t[..n]
    ensures Whole(s, n) == Whole(t, n)
  {
    if n > 0 {
      assert s[..n - 1] == s[..n][..n - 1] && t[..n - 1] == t[..n][..n - 1];
      assert s[n - 1] == s[..n][n - 1] && t[n - 1] == t[..n][n - 1];
      WholePrefix(s, t, n - 1);
    }
  }

  // A run of digits has the value of the integer that it is the text of.
  lemma {:induction false} WholeParsed(s: string)
    requires s != "" && AllDigits(s)
    ensures N.ParseDigits(s).Some? && Whole(s, |s|) == N.ParseDigits(s).value as real
  {
    var init := s[..|s| - 1];
    if init != "" {
      WholeParsed(init);
      WholePrefix(s, init, |init|);
    }
  }

  function Pow10(n: nat): real {
    if n == 0 then 1.0 else 10.0 * Pow10(n - 1)
  }

  function Scaled(x: real, n: nat): real { x * Pow10(n) }

  lemma ScaledStep(x: real, n: nat)
    ensures Scaled(x / 10.0, n + 1) == Scaled(x, n)
  {
    assert x / 10.0 * (10.0 * Pow10(n)) == x * Pow10(n);
  }

  // The digits before and after position i, scaled by the number of those after
  // it, are the integer of all of them.
  lemma {:induction false} PointMoves(s: string, i: nat)
    requires i <= |s|
    ensures Scaled(Whole(s, i) + Fraction(s, i), |s| - i) == Whole(s, |s|)
    decreases |s| - i
  {
    if i < |s| {
      PointMoves(s, i + 1);
      ScaledStep(Whole(s, i + 1) + Fraction(s, i + 1), |s| - i - 1);
      assert Whole(s, i) + Fraction(s, i) == (Whole(s, i + 1) + Fraction(s, i + 1)) / 10.0;
    }
  }

  lemma {:induction false} FractionSuffix(s: string, i: nat, t: string, j: nat)
    requires i <= |s| && j <= |t| && s[i..] == t[j..]
    ensures Fraction(s, i) == Fraction(t, j)
    decreases |s| - i
  {
    assert |s[i..]| == |s| - i && |t[j..]| == |t| - j;
    if i < |s| {
      assert s[i] == s[i..][0] && t[j] == t[j..][0];
      assert s[i + 1..] == s[i..][1..] && t[j + 1..] == t[j..][1..];
      FractionSuffix(s, i + 1, t, j + 1);
    }
  }

  lemma {:induction false} NoPoint(s: string, i: nat, n: nat)
    requires i <= n <= |s| && (forall k :: i <= k < n ==> s[k] != '.') && (n < |s| ==> s[n] == '.')
    ensures PointAt(s, i) == n
    decreases n - i
  {
    if i < n { NoPoint(s, i + 1, n); }
  }

  function Pointed(whole: string, fraction: string): string { whole + ['.'] + fraction }

  // A whole numeral is the integer of its digits.
  lemma WholeNumeral(s: string)
    requires s != "" && AllDigits(s)
    ensures ParseNumber(s).Some? && N.ParseDigits(s).Some?
    ensures ParseNumber(s).value == N.ParseDigits(s).value as real
  {
    NoPoint(s, 0, |s|);
    DigitsAll(s, 0, |s|);
    WholeParsed(s);
  }

  lemma PointedIs(whole: string, fraction: string)
    requires AllDigits(whole) && AllDigits(fraction)
    ensures var text, k := Pointed(whole, fraction), |whole|;
      PointAt(text, 0) == k && Digits(text, 0, k) && Digits(text, k + 1, |text|)
  {
    var text, k := Pointed(whole, fraction), |whole|;
    forall i | 0 <= i < k ensures text[i] == whole[i] && text[i] != '.' {
    }
    forall i | k + 1 <= i < |text| ensures text[i] == fraction[i - k - 1] {
    }
    NoPoint(text, 0, k);
    DigitsAll(text, 0, k);
    DigitsAll(text, k + 1, |text|);
  }

  lemma PointedParses(whole: string, fraction: string)
    requires AllDigits(whole) && AllDigits(fraction) && whole + fraction != ""
    ensures var text, k := Pointed(whole, fraction), |whole|;
      ParseNumber(text) == Some(Whole(text, k) + Fraction(text, k + 1))
  {
    PointedIs(whole, fraction);
    hide Digits, PointAt, Whole, Fraction, AllDigits;
  }

  lemma PointedParts(whole: string, fraction: string)
    requires AllDigits(whole) && AllDigits(fraction)
    ensures var text, digits, k := Pointed(whole, fraction), whole + fraction, |whole|;
      && AllDigits(digits) && |text| == |digits| + 1 && |digits| - k == |fraction|
      && text[..k] == digits[..k] && text[k + 1..] == digits[k..]
  {
  }

  // A decimal fraction of k digits, scaled by 10^k, is the integer of its
  // digits without the point.
  lemma PointedNumeral(whole: string, fraction: string)
    requires AllDigits(whole) && AllDigits(fraction) && whole + fraction != ""
    ensures ParseNumber(Pointed(whole, fraction)).Some? && N.ParseDigits(whole + fraction).Some?
    ensures Scaled(ParseNumber(Pointed(whole, fraction)).value, |fraction|) ==
      N.ParseDigits(whole + fraction).value as real
  {
    hide *;
    var text, digits, k := Pointed(whole, fraction), whole + fraction, |whole|;
    PointedParses(whole, fraction);
    PointedParts(whole, fraction);
    WholePrefix(text, digits, k);
    FractionSuffix(text, k + 1, digits, k);
    PointMoves(digits, k);
    WholeParsed(digits);
  }

  // Nothing else is a numeral: at most one point, and at least one digit.
  lemma NumeralParts(text: string) returns (whole: string, fraction: string)
    requires ParseNumber(text).Some?
    ensures AllDigits(whole) && AllDigits(fraction) && whole + fraction != ""
    ensures text == Pointed(whole, fraction) || (fraction == "" && text == whole)
  {
    var k := PointAt(text, 0);
    PointThere(text, 0);
    DigitsAll(text, 0, k);
    whole := text[..k];
    if k == |text| {
      fraction := "";
    } else {
      DigitsAll(text, k + 1, |text|);
      fraction := text[k + 1..];
      assert text == Pointed(whole, fraction);
    }
  }

  lemma {:induction false} PointThere(s: string, i: nat)
    requires i <= |s|
    ensures PointAt(s, i) < |s| ==> s[PointAt(s, i)] == '.'
    decreases |s| - i
  {
    if i < |s| && s[i] != '.' { PointThere(s, i + 1); }
  }

  predicate IsNumeralText(text: string, whole: string, fraction: string) {
    && AllDigits(whole) && AllDigits(fraction) && whole + fraction != ""
    && (text == Pointed(whole, fraction) || (fraction == "" && text == whole))
  }

  lemma NumeralGrammar(text: string)
    ensures ParseNumber(text).Some? <==> exists whole, fraction :: IsNumeralText(text, whole, fraction)
  {
    if ParseNumber(text).Some? {
      var whole, fraction := NumeralParts(text);
      assert IsNumeralText(text, whole, fraction);
    }
    if whole, fraction :| IsNumeralText(text, whole, fraction) {
      if text == Pointed(whole, fraction) { PointedNumeral(whole, fraction); } else { WholeNumeral(whole); }
    }
  }

  // ---- Units ----

  // The unit texts, and nothing else.
  lemma UnitTexts(text: string)
    ensures ParseUnit(text).Some? <==>
      || (|text| == 1 && (text[0] == 's' || text[0] == 'm' || text[0] == 'h'))
      || (|text| == 2 && text[1] == 's' &&
        (text[0] == 'n' || text[0] == 'u' || text[0] == '\U{00b5}' || text[0] == '\U{03bc}' || text[0] == 'm'))
  {
  }

  // The duration of a printed number of one unit.
  function Printed(n: nat, unit: string): Option<real> { Duration(N.Str(n) + unit) }

  lemma PrintedParses(n: nat, unit: string)
    requires |unit| > 0 && ParseUnit(unit).Some?
    ensures Printed(n, unit) == Some(Amount(n as real, ParseUnit(unit).value))
  {
    var s := N.Str(n);
    forall i | 0 <= i < |s| ensures N.IsDigit(s[i]) { N.DigitsAreDigits(n, i); }
    N.ParseDigitsOfDigits(n);
    WholeNumeral(s);
    UnitLetters(s, unit);
    FirstTerm(s, unit, "");
    NoTerms("");
    assert s + unit + "" == s + unit;
    DurationOfDigits(s, unit);
  }

  lemma DurationOfDigits(s: string, unit: string)
    requires s != "" && N.IsDigit(s[0]) && |unit| > 0 && !N.IsDigit(unit[0])
    requires ParseTerms(s + unit, 0).Some?
    ensures Duration(s + unit) == ParseTerms(s + unit, 0)
  {
    hide ParseTerms;
    var text := s + unit;
    assert text[0] == s[0] && |text| >= 2;
  }

  // A second is a thousand milliseconds, a minute is sixty seconds, and so on.
  lemma UnitValues(n: nat)
    ensures Printed(n, ['s']) == Some(n as real)
    ensures Printed(n, ['m']) == Some(60.0 * n as real)
    ensures Printed(n, ['h']) == Some(3600.0 * n as real)
    ensures Printed(n, ['m', 's']).Some? && 1000.0 * Printed(n, ['m', 's']).value == n as real
    ensures Printed(n, ['u', 's']).Some? && 1000000.0 * Printed(n, ['u', 's']).value == n as real
    ensures Printed(n, ['\U{00b5}', 's']) == Printed(n, ['\U{03bc}', 's']) == Printed(n, ['u', 's'])
    ensures Printed(n, ['n', 's']).Some? && 1000000000.0 * Printed(n, ['n', 's']).value == n as real
  {
    hide Printed;
    PrintedParses(n, ['s']);
    PrintedParses(n, ['m']);
    PrintedParses(n, ['h']);
    PrintedParses(n, ['m', 's']);
    PrintedParses(n, ['u', 's']);
    PrintedParses(n, ['\U{00b5}', 's']);
    PrintedParses(n, ['\U{03bc}', 's']);
    PrintedParses(n, ['n', 's']);
  }

  // An hour is sixty minutes, a minute sixty seconds, a second a thousand
  // milliseconds, and so on down.
  lemma UnitRatios(n: nat)
    ensures Printed(n, ['h']) == Printed(60 * n, ['m'])
    ensures Printed(n, ['m']) == Printed(60 * n, ['s'])
    ensures Printed(n, ['s']) == Printed(1000 * n, ['m', 's'])
    ensures Printed(n, ['m', 's']) == Printed(1000 * n, ['u', 's'])
    ensures Printed(n, ['u', 's']) == Printed(1000 * n, ['n', 's'])
  {
    hide Printed;
    UnitValues(n);
    UnitValues(60 * n);
    UnitValues(1000 * n);
  }

  // A minus sign negates, and a plus sign changes nothing.
  lemma SignedValues(n: nat, unit: string)
    requires |unit| > 0 && ParseUnit(unit).Some?
    ensures Printed(n, unit).Some?
    ensures Duration(['-'] + (N.Str(n) + unit)) == Some(-Printed(n, unit).value)
    ensures Duration(['+'] + (N.Str(n) + unit)) == Printed(n, unit)
  {
    var body := N.Str(n) + unit;
    N.DigitsAreDigits(n, 0);
    PrintedParses(n, unit);
    assert body[0] == N.Str(n)[0] && |body| >= 2;
    SignedDuration(NoSign, body);
    SignedDuration(Plus, body);
    SignedDuration(Minus, body);
  }
}
