// `parse_duration` of executor.py against the grammar of Go durations, in exact
// arithmetic and seconds.
module Durations {
  import opened Wrappers
  import Numerals

  predicate IsNumeral(c: char) { Numerals.IsDigit(c) || c == '.' }

  // Letters, with the two signs for micro.
  predicate IsLetter(c: char) {
    'a' <= c <= 'z' || 'A' <= c <= 'Z' || c == '\U{00b5}' || c == '\U{03bc}'
  }

  // The characters from i to n are digits.
  predicate Digits(s: string, i: nat, n: nat)
    requires i <= n <= |s|
    decreases n
  {
    n == i || (Numerals.IsDigit(s[n - 1]) && Digits(s, i, n - 1))
  }

  predicate AllNumeral(s: string) { forall i :: 0 <= i < |s| ==> IsNumeral(s[i]) }

  predicate AllLetters(s: string) { forall i :: 0 <= i < |s| ==> IsLetter(s[i]) }

  datatype Unit = Nanosecond | Microsecond | Millisecond | Second | Minute | Hour

  function UnitOf(c: char): Option<Unit> {
    if c == 's' then Some(Second) else if c == 'm' then Some(Minute) else if c == 'h' then Some(Hour) else None
  }

  function SecondPrefix(c: char): Option<Unit> {
    if c == 'n' then Some(Nanosecond)
    else if c == 'u' || c == '\U{00b5}' || c == '\U{03bc}' then Some(Microsecond)
    else if c == 'm' then Some(Millisecond)
    else None
  }

  // The keys of `_DURATION_UNIT_FACTORS`: s, m, h, ns, us with three spellings,
  // and ms.
  function ParseUnit(text: string): Option<Unit> {
    if |text| == 1 then UnitOf(text[0])
    else if |text| == 2 && text[1] == 's' then SecondPrefix(text[0])
    else None
  }

  // The factors of `_DURATION_UNIT_FACTORS`.
  function Amount(number: real, unit: Unit): real {
    match unit
    case Nanosecond => number * 0.000000001
    case Microsecond => number * 0.000001
    case Millisecond => number * 0.001
    case Second => number
    case Minute => number * 60.0
    case Hour => number * 3600.0
  }

  // The value of the first n digits, and of the digits from i on as a decimal
  // fraction.
  function Whole(digits: string, n: nat): real
    requires n <= |digits|
  {
    if n == 0 then 0.0 else 10.0 * Whole(digits, n - 1) + Numerals.DigitValue(digits[n - 1]) as real
  }

  function Fraction(digits: string, i: nat): real
    requires i <= |digits|
    decreases |digits| - i
  {
    if i == |digits| then 0.0 else (Numerals.DigitValue(digits[i]) as real + Fraction(digits, i + 1)) / 10.0
  }

  // ---- The parser, as functions ----

  // The end of the run of digits and points, or of letters, that starts at i.
  function NumeralEnd(s: string, i: nat): (n: nat)
    requires i <= |s|
    ensures i <= n <= |s|
    decreases |s| - i
  {
    if i < |s| && IsNumeral(s[i]) then NumeralEnd(s, i + 1) else i
  }

  function LetterEnd(s: string, i: nat): (n: nat)
    requires i <= |s|
    ensures i <= n <= |s|
    decreases |s| - i
  {
    if i < |s| && IsLetter(s[i]) then LetterEnd(s, i + 1) else i
  }

  function PointAt(s: string, i: nat): (n: nat)
    requires i <= |s|
    ensures i <= n <= |s|
    decreases |s| - i
  {
    if i < |s| && s[i] != '.' then PointAt(s, i + 1) else i
  }

  // `float(text)` on a run of digits and points: at most one point and at least
  // one digit.
  function ParseNumber(text: string): Option<real> {
    var k := PointAt(text, 0);
    if k == |text| then
      if k > 0 && Digits(text, 0, k) then Some(Whole(text, k)) else None
    else
      if |text| > 1 && Digits(text, 0, k) && Digits(text, k + 1, |text|)
      then Some(Whole(text, k) + Fraction(text, k + 1)) else None
  }

  // The value of a run of digits and points with the letters after it.
  function TermValue(numeral: string, unit: string): Option<real> {
    match (ParseNumber(numeral), ParseUnit(unit))
    case (Some(number), Some(u)) => Some(Amount(number, u))
    case _ => None
  }

  function Add(x: Option<real>, y: Option<real>): Option<real> {
    if x.Some? && y.Some? then Some(x.value + y.value) else None
  }

  // The sum of the terms of a body without sign, from i on.
  function ParseTerms(body: string, i: nat): Option<real>
    requires i <= |body|
    decreases |body| - i
  {
    if i == |body| then Some(0.0)
    else
      var n := NumeralEnd(body, i);
      var l := LetterEnd(body, n);
      if n == i then None else Add(TermValue(body[i..n], body[n..l]), ParseTerms(body, l))
  }

  predicate IsZero(s: string) { |s| == 1 && s[0] == '0' }

  // None stands for AutoEventError.
  function Duration(interval: string): Option<real> {
    var signed := |interval| > 0 && (interval[0] == '+' || interval[0] == '-');
    var negative := signed && interval[0] == '-';
    var body := if signed then interval[1..] else interval;
    if IsZero(interval) || (negative && IsZero(body)) then Some(0.0)
    else if |body| == 0 then None
    else
      match ParseTerms(body, 0)
      case None => None
      case Some(total) => Some(if negative then -total else total)
  }

  // ---- The two nested loops ----

  lemma AddAdd(x: real, y: real, rest: Option<real>)
    ensures Add(Some(x), Add(Some(y), rest)) == Add(Some(x + y), rest)
  {
  }

  method ParseBody(body: string) returns (total: Option<real>)
    ensures total == ParseTerms(body, 0)
  {
    hide TermValue, ParseTerms;
    var sum, index := 0.0, 0;
    while index < |body|
      invariant 0 <= index <= |body|
      invariant ParseTerms(body, 0) == Add(Some(sum), ParseTerms(body, index))
    {
      var start := index;
      TermsStep(body, start);
      while index < |body| && IsNumeral(body[index])
        invariant start <= index <= |body|
        invariant NumeralEnd(body, start) == NumeralEnd(body, index)
      {
        index := index + 1;
      }
      if start == index { return None; }
      var unitStart := index;
      while index < |body| && IsLetter(body[index])
        invariant unitStart <= index <= |body|
        invariant LetterEnd(body, unitStart) == LetterEnd(body, index)
      {
        index := index + 1;
      }
      var value := TermValue(body[start..unitStart], body[unitStart..index]);
      if value.None? { return None; }
      AddAdd(sum, value.value, ParseTerms(body, index));
      sum := sum + value.value;
    }
    TermsStep(body, index);
    return Some(sum);
  }

  method ParseDuration(interval: string) returns (seconds: Option<real>)
    ensures seconds == Duration(interval)
  {
    if IsZero(interval) { return Some(0.0); }
    var negative, body := false, interval;
    if |body| > 0 && body[0] == '+' {
      body := body[1..];
    } else if |body| > 0 && body[0] == '-' {
      negative := true;
      body := body[1..];
      if IsZero(body) { return Some(0.0); }
    }
    if |body| == 0 { return None; }
    var total := ParseBody(body);
    if total.None? { return None; }
    return Some(if negative then -total.value else total.value);
  }

  // ---- The grammar ----

  // A body is a list of numerals, each followed by its unit.
  predicate WellFormed(numerals: seq<string>, units: seq<string>, j: nat)
    requires j <= |numerals| == |units|
    decreases |numerals| - j
  {
    j < |numerals| ==>
      && AllNumeral(numerals[j]) && |numerals[j]| > 0
      && TermValue(numerals[j], units[j]).Some?
      && WellFormed(numerals, units, j + 1)
  }

  function Text(numerals: seq<string>, units: seq<string>, j: nat): string
    requires j <= |numerals| == |units|
    decreases |numerals| - j
  {
    if j == |numerals| then [] else numerals[j] + units[j] + Text(numerals, units, j + 1)
  }

  function Total(numerals: seq<string>, units: seq<string>, j: nat): real
    requires j <= |numerals| == |units| && WellFormed(numerals, units, j)
    decreases |numerals| - j
  {
    if j == |numerals| then 0.0 else TermValue(numerals[j], units[j]).value + Total(numerals, units, j + 1)
  }

  // ---- The parser accepts exactly the grammar ----

  lemma {:induction false} RunOfNumeral(s: string, i: nat, n: nat)
    requires i <= n <= |s| && AllNumeral(s[i..n]) && (n < |s| ==> !IsNumeral(s[n]))
    ensures NumeralEnd(s, i) == n
    decreases n - i
  {
    if i < n {
      assert s[i] == s[i..n][0];
      assert s[i + 1..n] == s[i..n][1..];
      RunOfNumeral(s, i + 1, n);
    }
  }

  lemma {:induction false} RunOfLetters(s: string, i: nat, n: nat)
    requires i <= n <= |s| && AllLetters(s[i..n]) && (n < |s| ==> !IsLetter(s[n]))
    ensures LetterEnd(s, i) == n
    decreases n - i
  {
    if i < n {
      assert s[i] == s[i..n][0];
      assert s[i + 1..n] == s[i..n][1..];
      RunOfLetters(s, i + 1, n);
    }
  }

  lemma {:induction false} RunIsNumeral(s: string, i: nat)
    requires i <= |s|
    ensures AllNumeral(s[i..NumeralEnd(s, i)])
    decreases |s| - i
  {
    if i < |s| && IsNumeral(s[i]) {
      RunIsNumeral(s, i + 1);
      var n := NumeralEnd(s, i);
      assert s[i..n] == [s[i]] + s[i + 1..n];
    }
  }

  lemma UnitLetters(numeral: string, unit: string)
    requires TermValue(numeral, unit).Some?
    ensures |unit| > 0 && AllLetters(unit)
  {
  }

  lemma NoTerms(s: string)
    requires |s| == 0
    ensures ParseTerms(s, 0) == Some(0.0)
  {
  }

  lemma OneStep(s: string, i: nat, n: nat, l: nat, numeral: string, unit: string)
    requires i < n <= l <= |s| && NumeralEnd(s, i) == n && LetterEnd(s, n) == l
    requires s[i..n] == numeral && s[n..l] == unit
    ensures ParseTerms(s, i) == Add(TermValue(numeral, unit), ParseTerms(s, l))
  {
  }

  // The parser does not look back: a prefix only shifts positions.
  lemma {:induction false} ShiftNumeral(p: string, r: string, i: nat)
    requires i <= |r|
    ensures NumeralEnd(p + r, |p| + i) == |p| + NumeralEnd(r, i)
    decreases |r| - i
  {
    if i < |r| && IsNumeral(r[i]) { ShiftNumeral(p, r, i + 1); }
  }

  lemma {:induction false} ShiftLetters(p: string, r: string, i: nat)
    requires i <= |r|
    ensures LetterEnd(p + r, |p| + i) == |p| + LetterEnd(r, i)
    decreases |r| - i
  {
    if i < |r| && IsLetter(r[i]) { ShiftLetters(p, r, i + 1); }
  }

  lemma ShiftSlice(p: string, r: string, i: nat, n: nat)
    requires i <= n <= |r|
    ensures (p + r)[|p| + i..|p| + n] == r[i..n]
  {
  }

  lemma TermsStep(body: string, i: nat)
    requires i <= |body|
    ensures ParseTerms(body, i) ==
      if i == |body| then Some(0.0)
      else
        var n := NumeralEnd(body, i);
        var l := LetterEnd(body, n);
        if n == i then None else Add(TermValue(body[i..n], body[n..l]), ParseTerms(body, l))
  {
  }

  lemma {:induction false} ShiftTerms(p: string, r: string, i: nat)
    requires i <= |r|
    ensures ParseTerms(p + r, |p| + i) == ParseTerms(r, i)
    decreases |r| - i
  {
    hide TermValue, NumeralEnd, LetterEnd, ParseTerms;
    TermsStep(r, i);
    TermsStep(p + r, |p| + i);
    if i < |r| {
      var n := NumeralEnd(r, i);
      var l := LetterEnd(r, n);
      ShiftNumeral(p, r, i);
      ShiftLetters(p, r, n);
      ShiftSlice(p, r, i, n);
      ShiftSlice(p, r, n, l);
      if n > i { ShiftTerms(p, r, l); }
    }
  }

  // One numeral and its unit at the front of a text.
  lemma FirstTerm(numeral: string, unit: string, rest: string)
    requires AllNumeral(numeral) && |numeral| > 0 && AllLetters(unit) && |unit| > 0
    requires |rest| > 0 ==> IsNumeral(rest[0])
    ensures ParseTerms(numeral + unit + rest, 0) == Add(TermValue(numeral, unit), ParseTerms(rest, 0))
  {
    hide TermValue;
    var s, n := numeral + unit + rest, |numeral|;
    var l := n + |unit|;
    assert s[0..n] == numeral && s[n..l] == unit;
    RunOfNumeral(s, 0, n);
    RunOfLetters(s, n, l);
    OneStep(s, 0, n, l, numeral, unit);
    ShiftTerms(numeral + unit, rest, 0);
  }

  // The same, found in a text that starts with a numeral.
  lemma SplitFirst(s: string) returns (numeral: string, unit: string, rest: string)
    requires |s| > 0 && NumeralEnd(s, 0) > 0
    ensures s == numeral + unit + rest && AllNumeral(numeral) && |numeral| > 0
    ensures ParseTerms(s, 0) == Add(TermValue(numeral, unit), ParseTerms(rest, 0))
  {
    hide TermValue, ParseTerms, NumeralEnd, LetterEnd, AllNumeral;
    var n := NumeralEnd(s, 0);
    var l := LetterEnd(s, n);
    numeral, unit, rest := s[0..n], s[n..l], s[l..];
    RunIsNumeral(s, 0);
    TermsStep(s, 0);
    assert s[..l] + rest == s && s[..l] == numeral + unit;
    ShiftTerms(s[..l], rest, 0);
  }

  lemma TextStarts(numerals: seq<string>, units: seq<string>, j: nat)
    requires j <= |numerals| == |units| && WellFormed(numerals, units, j)
    ensures j < |numerals| ==> |Text(numerals, units, j)| > 0
    ensures |Text(numerals, units, j)| > 0 ==> IsNumeral(Text(numerals, units, j)[0])
  {
  }

  // The text of a body parses to its sum.
  lemma {:induction false} GrammarAccepted(numerals: seq<string>, units: seq<string>, j: nat)
    requires j <= |numerals| == |units| && WellFormed(numerals, units, j)
    ensures ParseTerms(Text(numerals, units, j), 0) == Some(Total(numerals, units, j))
    decreases |numerals| - j
  {
    hide ParseTerms, TermValue;
    if j == |numerals| {
      NoTerms(Text(numerals, units, j));
    } else {
      TextStarts(numerals, units, j + 1);
      UnitLetters(numerals[j], units[j]);
      FirstTerm(numerals[j], units[j], Text(numerals, units, j + 1));
      GrammarAccepted(numerals, units, j + 1);
    }
  }

  lemma ConsAt(first: string, rest: seq<string>, j: nat)
    requires j < |rest|
    ensures ([first] + rest)[j + 1] == rest[j]
  {
  }

  lemma {:induction false} Shifted(numeral: string, unit: string, numerals: seq<string>, units: seq<string>, j: nat)
    requires j <= |numerals| == |units| && WellFormed(numerals, units, j)
    ensures WellFormed([numeral] + numerals, [unit] + units, j + 1)
    ensures Text([numeral] + numerals, [unit] + units, j + 1) == Text(numerals, units, j)
    ensures Total([numeral] + numerals, [unit] + units, j + 1) == Total(numerals, units, j)
    decreases |numerals| - j
  {
    hide TermValue;
    if j < |numerals| {
      ConsAt(numeral, numerals, j);
      ConsAt(unit, units, j);
      Shifted(numeral, unit, numerals, units, j + 1);
    }
  }

  // Whatever parses is the text of a body with that sum.
  lemma {:induction false} AcceptedIsGrammar(s: string) returns (numerals: seq<string>, units: seq<string>)
    requires ParseTerms(s, 0).Some?
    ensures |numerals| == |units| && WellFormed(numerals, units, 0)
    ensures Text(numerals, units, 0) == s && ParseTerms(s, 0) == Some(Total(numerals, units, 0))
    decreases |s|
  {
    hide TermValue, NumeralEnd;
    if |s| == 0 {
      numerals, units := [], [];
    } else {
      var numeral, unit, rest := SplitFirst(s);
      var ns, us := AcceptedIsGrammar(rest);
      Shifted(numeral, unit, ns, us, 0);
      numerals, units := [numeral] + ns, [unit] + us;
    }
  }

  // ---- Whole durations ----

  datatype Sign = NoSign | Plus | Minus

  function Signed(sign: Sign, body: string): string {
    match sign case NoSign => body case Plus => ['+'] + body case Minus => ['-'] + body
  }

  // An optional sign and one or more terms, with the signed sum.
  predicate Denotes(sign: Sign, numerals: seq<string>, units: seq<string>, interval: string, seconds: real) {
    && 0 < |numerals| == |units| && WellFormed(numerals, units, 0)
    && interval == Signed(sign, Text(numerals, units, 0))
    && seconds == if sign.Minus? then -Total(numerals, units, 0) else Total(numerals, units, 0)
  }

  predicate IsZeroText(interval: string) {
    IsZero(interval) || (|interval| == 2 && interval[0] == '-' && interval[1] == '0')
  }

  lemma ZeroIsNoTerm(s: string)
    requires IsZero(s)
    ensures ParseTerms(s, 0) == None
  {
  }

  lemma DenotedParses(sign: Sign, numerals: seq<string>, units: seq<string>, interval: string, seconds: real)
    requires Denotes(sign, numerals, units, interval, seconds)
    ensures Duration(interval) == Some(seconds)
  {
    var body := Text(numerals, units, 0);
    TextStarts(numerals, units, 0);
    GrammarAccepted(numerals, units, 0);
    if IsZero(body) { ZeroIsNoTerm(body); }
    SignedDuration(sign, body);
  }

  lemma SignedDuration(sign: Sign, body: string)
    requires |body| > 0 && IsNumeral(body[0]) && !IsZero(body)
    ensures Duration(Signed(sign, body)) ==
      match ParseTerms(body, 0)
      case None => None
      case Some(total) => Some(if sign.Minus? then -total else total)
  {
    hide ParseTerms;
    if !sign.NoSign? { assert Signed(sign, body)[1..] == body; }
  }

  lemma ParsesDenoted(interval: string, seconds: real)
    returns (sign: Sign, numerals: seq<string>, units: seq<string>)
    requires Duration(interval) == Some(seconds) && !IsZeroText(interval)
    ensures Denotes(sign, numerals, units, interval, seconds)
  {
    sign := if interval[0] == '+' then Plus else if interval[0] == '-' then Minus else NoSign;
    var body := if sign.NoSign? then interval else interval[1..];
    numerals, units := AcceptedIsGrammar(body);
    assert interval == Signed(sign, body);
  }

  // The accepted language and its meaning: "0", "-0", or signed terms.
  lemma DurationGrammar(interval: string, seconds: real)
    ensures Duration(interval) == Some(seconds) <==>
      || (IsZeroText(interval) && seconds == 0.0)
      || exists sign, numerals, units :: Denotes(sign, numerals, units, interval, seconds)
  {
    if Duration(interval) == Some(seconds) && !IsZeroText(interval) {
      var sign, numerals, units := ParsesDenoted(interval, seconds);
    }
    if sign, numerals, units :| Denotes(sign, numerals, units, interval, seconds) {
      DenotedParses(sign, numerals, units, interval, seconds);
    }
    if IsZeroText(interval) && !IsZero(interval) { assert interval[1..][0] == '0'; }
  }

  lemma {:induction false} ConcatTerms(numerals: seq<string>, units: seq<string>, j: nat, y: string)
    requires j <= |numerals| == |units| && WellFormed(numerals, units, j)
    requires |y| > 0 ==> IsNumeral(y[0])
    ensures ParseTerms(Text(numerals, units, j) + y, 0) == Add(Some(Total(numerals, units, j)), ParseTerms(y, 0))
    decreases |numerals| - j
  {
    hide ParseTerms, TermValue;
    var text := Text(numerals, units, j);
    if j == |numerals| {
      assert text + y == y;
    } else {
      var rest := Text(numerals, units, j + 1);
      TextStarts(numerals, units, j + 1);
      UnitLetters(numerals[j], units[j]);
      FirstTerm(numerals[j], units[j], rest + y);
      ConcatTerms(numerals, units, j + 1, y);
      assert text + y == numerals[j] + units[j] + (rest + y);
    }
  }

  // Bodies without sign add up under concatenation.
  lemma DurationAdditive(x: string, y: string)
    requires ParseTerms(x, 0).Some? && ParseTerms(y, 0).Some?
    ensures ParseTerms(x + y, 0) == Add(ParseTerms(x, 0), ParseTerms(y, 0))
  {
    var numerals, units := AcceptedIsGrammar(x);
    ConcatTerms(numerals, units, 0, y);
  }
}
