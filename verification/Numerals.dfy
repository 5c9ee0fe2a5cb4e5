// Decimal text of integers: Python's `str(n)` and `int(text, 10)`, and the text
// of integer lists. Only ASCII digits and whitespace are modelled.
module Numerals {
  import opened Wrappers

  const WHITESPACE: set<char> :=
    {' ', '\t', '\n', '\r', '\U{000b}', '\U{000c}', '\U{001c}', '\U{001d}', '\U{001e}', '\U{001f}'}

  predicate IsDigit(c: char) { '0' <= c <= '9' }

  function DigitValue(c: char): int { c as int - '0' as int }

  function DigitChar(d: int): (c: char)
    requires 0 <= d < 10
    ensures IsDigit(c) && DigitValue(c) == d
  {
    ('0' as int + d) as char
  }

  function Digits(n: nat): (s: string)
    ensures s != ""
  {
    if n < 10 then [DigitChar(n)] else Digits(n / 10) + [DigitChar(n % 10)]
  }

  // `str(n)`
  function Str(n: int): string {
    if n < 0 then "-" + Digits(-n) else Digits(n)
  }

  // `s.strip(cut)`
  function TrimLeft(s: string, cut: set<char>): string {
    if s != "" && s[0] in cut then TrimLeft(s[1..], cut) else s
  }

  function TrimRight(s: string, cut: set<char>): string {
    if s != "" && s[|s| - 1] in cut then TrimRight(s[..|s| - 1], cut) else s
  }

  function Trim(s: string, cut: set<char>): string {
    TrimRight(TrimLeft(s, cut), cut)
  }

  // Digits with single underscores between them.
  function ParseDigits(s: string): (r: Option<nat>) {
    if s == "" || !IsDigit(s[|s| - 1]) then None
    else
      var init, d := s[..|s| - 1], DigitValue(s[|s| - 1]);
      if init == "" then Some(d)
      else
        var more := if init[|init| - 1] == '_' then init[..|init| - 1] else init;
        match ParseDigits(more)
        case None => None
        case Some(n) => Some(10 * n + d)
  }

  function ParseSigned(s: string): Option<int> {
    if s == "" then None
    else if s[0] == '-' then
      match ParseDigits(s[1..]) case None => None case Some(n) => Some(0 - n)
    else if s[0] == '+' then ParseDigits(s[1..])
    else ParseDigits(s)
  }

  // `int(s, 10)`; None is the ValueError.
  function ParseInt(s: string): Option<int> {
    ParseSigned(Trim(s, WHITESPACE))
  }

  lemma {:induction false} DigitsAreDigits(n: nat, i: nat)
    requires i < |Digits(n)|
    ensures IsDigit(Digits(n)[i])
  {
    if n >= 10 && i < |Digits(n / 10)| { DigitsAreDigits(n / 10, i); }
  }

  lemma {:induction false} ParseDigitsOfDigits(n: nat)
    ensures ParseDigits(Digits(n)) == Some(n)
  {
    var s := Digits(n);
    if n >= 10 {
      ParseDigitsOfDigits(n / 10);
      assert s[..|s| - 1] == Digits(n / 10);
      DigitsAreDigits(n / 10, |Digits(n / 10)| - 1);
    }
  }

  lemma TrimNothing(s: string, cut: set<char>)
    requires s != "" && s[0] !in cut && s[|s| - 1] !in cut
    ensures Trim(s, cut) == s
  {
  }

  lemma StrEnds(n: int)
    ensures Str(n) != ""
    ensures Str(n)[0] == '-' || IsDigit(Str(n)[0])
    ensures IsDigit(Str(n)[|Str(n)| - 1])
  {
    var m := if n < 0 then -n else n;
    DigitsAreDigits(m, 0);
    DigitsAreDigits(m, |Digits(m)| - 1);
  }

  // Parsing undoes printing.
  lemma ParseIntOfStr(n: int)
    ensures ParseInt(Str(n)) == Some(n)
  {
    StrEnds(n);
    DigitIsNotSpace(Str(n)[0]);
    DigitIsNotSpace(Str(n)[|Str(n)| - 1]);
    TrimNothing(Str(n), WHITESPACE);
    ParseSignedOfStr(n);
  }

  lemma DigitIsNotSpace(c: char)
    requires c == '-' || IsDigit(c)
    ensures c !in WHITESPACE
  {
  }

  lemma ParseSignedOfStr(n: int)
    ensures ParseSigned(Str(n)) == Some(n)
  {
    if n < 0 {
      ParseDigitsOfDigits(-n);
      assert Str(n)[1..] == Digits(-n);
    } else {
      ParseDigitsOfDigits(n);
      DigitsAreDigits(n, 0);
    }
  }

  lemma StrInjective(n: int, m: int)
    requires Str(n) == Str(m)
    ensures n == m
  {
    ParseIntOfStr(n);
    ParseIntOfStr(m);
  }

  // ---- Lists ----

  // `s.split(",")`
  function Split(s: string): (fields: seq<string>)
    ensures fields != []
  {
    if s == "" then [""]
    else
      var rest := Split(s[1..]);
      if s[0] == ',' then [""] + rest else [[s[0]] + rest[0]] + rest[1..]
  }

  predicate OneField(s: string) {
    forall i :: 0 <= i < |s| ==> s[i] != ','
  }

  function Commas(s: string): nat {
    if s == "" then 0 else (if s[0] == ',' then 1 else 0) + Commas(s[1..])
  }

  // The text of a list between its brackets.
  function ListBody(xs: seq<nat>): string {
    if xs == [] then "" else if |xs| == 1 then Digits(xs[0]) else Digits(xs[0]) + ", " + ListBody(xs[1..])
  }

  // `str([a, b, c])`
  function ListText(xs: seq<nat>): string {
    "[" + ListBody(xs) + "]"
  }

  lemma {:induction false} SplitCount(s: string)
    ensures |Split(s)| == Commas(s) + 1
  {
    if s != "" { SplitCount(s[1..]); }
  }

  lemma {:induction false} SplitLast(field: string)
    requires OneField(field)
    ensures Split(field) == [field]
  {
    if field != "" {
      SplitLast(field[1..]);
      assert [field[0]] + field[1..] == field;
    }
  }

  lemma {:induction false} SplitFirst(field: string, rest: string)
    requires OneField(field)
    ensures Split(field + "," + rest) == [field] + Split(rest)
  {
    var s := field + "," + rest;
    if field == "" {
      assert s[1..] == rest;
    } else {
      SplitFirst(field[1..], rest);
      assert s[1..] == field[1..] + "," + rest;
      assert [field[0]] + field[1..] == field;
    }
  }

  lemma {:induction false} ListBodyEnds(xs: seq<nat>)
    requires xs != []
    ensures ListBody(xs) != "" && IsDigit(ListBody(xs)[0]) && IsDigit(ListBody(xs)[|ListBody(xs)| - 1])
  {
    DigitsAreDigits(xs[0], 0);
    DigitsAreDigits(xs[0], |Digits(xs[0])| - 1);
    if |xs| > 1 { ListBodyEnds(xs[1..]); }
  }

  lemma BracketsTrimmed(xs: seq<nat>)
    requires xs != []
    ensures Trim(ListText(xs), {'[', ']'}) == ListBody(xs)
  {
    var body, cut := ListBody(xs), {'[', ']'};
    ListBodyEnds(xs);
    var s := ListText(xs);
    assert s[1..] == body + "]";
    assert TrimLeft(s, cut) == TrimLeft(body + "]", cut) == body + "]";
    assert (body + "]")[..|body|] == body;
    assert TrimRight(body + "]", cut) == TrimRight(body, cut) == body;
  }

  // The fields of a printed list: the first as it stands, the others after a
  // space.
  function ListFields(pre: string, xs: seq<nat>): (fields: seq<string>)
    ensures |fields| == |xs|
    decreases |xs|
  {
    if xs == [] then [] else [pre + Digits(xs[0])] + ListFields(" ", xs[1..])
  }

  lemma {:induction false} ListFieldAt(pre: string, xs: seq<nat>, i: nat)
    requires i < |xs|
    ensures ListFields(pre, xs)[i] == (if i == 0 then pre else " ") + Digits(xs[i])
    decreases i
  {
    if i > 0 { ListFieldAt(" ", xs[1..], i - 1); }
  }

  lemma {:induction false} SplitList(pre: string, xs: seq<nat>)
    requires xs != [] && (pre == "" || pre == " ")
    ensures Split(pre + ListBody(xs)) == ListFields(pre, xs)
    decreases |xs|
  {
    var head := pre + Digits(xs[0]);
    NoComma(pre, xs[0]);
    if |xs| == 1 {
      SplitLast(head);
      assert pre + ListBody(xs) == head;
    } else {
      var tail := " " + ListBody(xs[1..]);
      SplitList(" ", xs[1..]);
      SplitFirst(head, tail);
      assert pre + ListBody(xs) == head + "," + tail;
    }
  }

  lemma NoComma(pre: string, n: nat)
    requires pre == "" || pre == " "
    ensures OneField(pre + Digits(n))
  {
    var head := pre + Digits(n);
    forall i | 0 <= i < |head| ensures head[i] != ',' {
      if i >= |pre| { DigitsAreDigits(n, i - |pre|); }
    }
  }

  lemma FieldTrimmed(pre: string, n: nat)
    requires pre == "" || pre == " "
    ensures Trim(pre + Digits(n), {' '}) == Digits(n)
  {
    StrEnds(n);
    TrimNothing(Digits(n), {' '});
    if pre == " " {
      assert (pre + Digits(n))[1..] == Digits(n);
      assert TrimLeft(pre + Digits(n), {' '}) == TrimLeft(Digits(n), {' '});
    } else {
      assert pre + Digits(n) == Digits(n);
    }
  }

  // ---- What is printed and what is parsed ----

  // Decimal: one digit each for the numbers below ten, and one more digit for
  // every multiple of ten.
  lemma StrGrows(n: nat, d: nat)
    requires d < 10
    ensures Str(d) == [DigitChar(d)]
    ensures n > 0 ==> Str(10 * n + d) == Str(n) + [DigitChar(d)]
    ensures n > 0 ==> Str(0 - n) == "-" + Str(n)
  {
    assert (10 * n + d) / 10 == n && (10 * n + d) % 10 == d;
  }

  // Digits, with single underscores between them.
  predicate Grouped(s: string) {
    && s != "" && IsDigit(s[0]) && IsDigit(s[|s| - 1])
    && (forall i :: 0 <= i < |s| ==> IsDigit(s[i]) || s[i] == '_')
    && (forall i :: 0 <= i < |s| - 1 ==> !(s[i] == '_' && s[i + 1] == '_'))
  }

  lemma {:induction false} ParseDigitsIff(s: string)
    ensures ParseDigits(s).Some? <==> Grouped(s)
  {
    if s != "" && IsDigit(s[|s| - 1]) {
      var init := s[..|s| - 1];
      if init != "" {
        var more := if init[|init| - 1] == '_' then init[..|init| - 1] else init;
        ParseDigitsIff(more);
        GroupedStep(s, more);
      }
    }
  }

  lemma GroupedStep(s: string, more: string)
    requires |s| > 1 && IsDigit(s[|s| - 1])
    requires more == if s[|s| - 2] == '_' then s[..|s| - 2] else s[..|s| - 1]
    ensures Grouped(s) <==> Grouped(more)
  {
    var n := |more|;
    if Grouped(more) {
      forall i | 0 <= i < |s| ensures IsDigit(s[i]) || s[i] == '_' {
        if i < n { assert s[i] == more[i]; }
      }
      forall i | 0 <= i < |s| - 1 ensures !(s[i] == '_' && s[i + 1] == '_') {
        if i < n - 1 { assert s[i] == more[i] && s[i + 1] == more[i + 1]; }
        else if i < n { assert s[i] == more[n - 1]; }
      }
      assert s[0] == more[0];
    }
    if Grouped(s) && n > 0 {
      assert more[n - 1] == s[n - 1] && more[0] == s[0];
      forall i | 0 <= i < n ensures IsDigit(more[i]) || more[i] == '_' { assert more[i] == s[i]; }
      forall i | 0 <= i < n - 1 ensures !(more[i] == '_' && more[i + 1] == '_') {
        assert more[i] == s[i] && more[i + 1] == s[i + 1];
      }
    }
  }

  // The value is that of the digits one by one, in base ten; an underscore
  // before a digit changes nothing.
  lemma ParseDigitsStep(s: string, c: char)
    requires s != "" && s[|s| - 1] != '_' && IsDigit(c)
    ensures ParseDigits([c]) == Some(DigitValue(c))
    ensures ParseDigits(s).Some? ==> ParseDigits(s + [c]) == Some(10 * ParseDigits(s).value + DigitValue(c))
    ensures ParseDigits(s + ['_'] + [c]) == ParseDigits(s + [c])
  {
    hide *;
    ParseDigitsAppend("", c);
    ParseDigitsAppend(s, c);
    ParseDigitsAppend(s + ['_'], c);
    assert (s + ['_'])[..|s|] == s && [] + [c] == [c];
  }

  lemma ParseDigitsAppend(init: string, c: char)
    requires IsDigit(c)
    ensures init == "" ==> ParseDigits(init + [c]) == Some(DigitValue(c))
    ensures init != "" ==>
      var more := if init[|init| - 1] == '_' then init[..|init| - 1] else init;
      match ParseDigits(more)
      case None => ParseDigits(init + [c]) == None
      case Some(n) => ParseDigits(init + [c]) == Some(10 * n + DigitValue(c))
  {
    hide *;
    var s := init + [c];
    assert s[|s| - 1] == c && s[..|s| - 1] == init;
    ParseDigitsLast(s, init, c);
  }

  lemma ParseDigitsLast(s: string, init: string, c: char)
    requires s != "" && s[|s| - 1] == c && s[..|s| - 1] == init && IsDigit(c)
    ensures init == "" ==> ParseDigits(s) == Some(DigitValue(c))
    ensures init != "" ==>
      var more := if init[|init| - 1] == '_' then init[..|init| - 1] else init;
      match ParseDigits(more)
      case None => ParseDigits(s) == None
      case Some(n) => ParseDigits(s) == Some(10 * n + DigitValue(c))
  {
    hide IsDigit, DigitValue;
  }

  // One sign is allowed in front.
  lemma ParseSignedIs(s: string)
    ensures ParseSigned(['+'] + s) == ParseDigits(s)
    ensures ParseSigned(['-'] + s).Some? <==> ParseDigits(s).Some?
    ensures ParseDigits(s).Some? ==> ParseSigned(['-'] + s) == Some(0 - ParseDigits(s).value)
    ensures s != "" && s[0] != '+' && s[0] != '-' ==> ParseSigned(s) == ParseDigits(s)
  {
    hide ParseDigits;
    assert (['+'] + s)[1..] == s && (['-'] + s)[1..] == s;
  }

  // What is trimmed is in the cut set, and what is left does not begin or end
  // with a character of it.
  lemma {:induction false} TrimIs(s: string, cut: set<char>) returns (pre: string, post: string)
    ensures s == pre + Trim(s, cut) + post
    ensures (forall c :: c in pre ==> c in cut) && (forall c :: c in post ==> c in cut)
    ensures Trim(s, cut) != "" ==> Trim(s, cut)[0] !in cut && Trim(s, cut)[|Trim(s, cut)| - 1] !in cut
  {
    var left := TrimLeft(s, cut);
    pre := TrimLeftIs(s, cut);
    post := TrimRightIs(left, cut);
    assert s == pre + (Trim(s, cut) + post) == pre + Trim(s, cut) + post;
    if Trim(s, cut) != "" { assert left[0] == Trim(s, cut)[0]; }
  }

  lemma {:induction false} TrimLeftIs(s: string, cut: set<char>) returns (pre: string)
    ensures s == pre + TrimLeft(s, cut) && forall c :: c in pre ==> c in cut
    ensures TrimLeft(s, cut) != "" ==> TrimLeft(s, cut)[0] !in cut
  {
    pre := "";
    if s != "" && s[0] in cut {
      pre := TrimLeftIs(s[1..], cut);
      pre := [s[0]] + pre;
    }
  }

  lemma {:induction false} TrimRightIs(s: string, cut: set<char>) returns (post: string)
    ensures s == TrimRight(s, cut) + post && forall c :: c in post ==> c in cut
    ensures TrimRight(s, cut) != "" ==> TrimRight(s, cut)[|TrimRight(s, cut)| - 1] !in cut
  {
    post := "";
    if s != "" && s[|s| - 1] in cut {
      post := TrimRightIs(s[..|s| - 1], cut);
      post := post + [s[|s| - 1]];
    }
  }

  // The fields of a split, joined by commas again, are the text, and none has a
  // comma in it.
  function Join(fields: seq<string>): string
    requires fields != []
  {
    if |fields| == 1 then fields[0] else fields[0] + [','] + Join(fields[1..])
  }

  lemma {:induction false} SplitJoins(s: string)
    ensures Join(Split(s)) == s
    ensures forall i :: 0 <= i < |Split(s)| ==> OneField(Split(s)[i])
  {
    if s != "" {
      var rest := Split(s[1..]);
      SplitJoins(s[1..]);
      if s[0] == ',' {
        assert Split(s) == [""] + rest && Split(s)[1..] == rest;
        assert "" + [','] + Join(rest) == s;
      } else {
        var fields := Split(s);
        assert fields == [[s[0]] + rest[0]] + rest[1..] && fields[1..] == rest[1..];
        JoinPrefix(s[0], rest);
        forall i | 0 <= i < |fields| ensures OneField(fields[i]) {
          if i > 0 { assert fields[i] == rest[i]; }
        }
      }
    }
  }

  lemma JoinPrefix(c: char, rest: seq<string>)
    requires rest != []
    ensures Join([[c] + rest[0]] + rest[1..]) == [c] + Join(rest)
  {
    var fields := [[c] + rest[0]] + rest[1..];
    assert fields[0] == [c] + rest[0] && fields[1..] == rest[1..];
    if |rest| > 1 {
      assert [c] + rest[0] + [','] + Join(rest[1..]) == [c] + (rest[0] + [','] + Join(rest[1..]));
    }
  }
}
