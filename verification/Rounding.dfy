// Rounding to the nearest double, one binade at a time, and what it lets through
// the range checks.
module Rounding {
  import opened Bits
  import opened IntTypes
  import opened Transform
  import opened TransformLaws

  const TWO_52: real := 4503599627370496.0

  predicate Binade(low: real, x: real) { low <= Abs(x) <= 2.0 * low }

  function Steps(n: int, ulp: real): real { RealProduct(n as real, ulp) }

  ghost predicate Multiple(x: real, ulp: real) { exists n: int :: x == Steps(n, ulp) }

  predicate Close(x: real, y: real, ulp: real) { 2.0 * Abs(y - x) <= ulp }

  function Ulp(low: real): real { low / TWO_52 }

  // Rounding to nearest, for `low` a power of two: the doubles from there to
  // its double are the multiples of low / 2^52, and a result is rounded to one
  // of the closest.
  ghost predicate Nearest(a: Arithmetic, low: real) {
    forall x :: Binade(low, x) ==> Multiple(Round(a, x), Ulp(low)) && Close(x, Round(a, x), Ulp(low))
  }

  // The law can be met, in neighbouring binades at once.
  function ToMultiple(x: real, ulp: real): real
    requires ulp > 0.0
  {
    Steps((x / ulp + 0.5).Floor, ulp)
  }

  function Doubles(low: real): Arithmetic
    requires low > 0.0
  {
    var coarse := 2.0 * Ulp(low);
    Arithmetic(x => if Abs(x) < 2.0 * low then ToMultiple(x, Ulp(low)) else ToMultiple(x, coarse),
      TWO_53 as real, (b, x) => Failed, (x, b) => Failed)
  }

  lemma ToMultipleNearest(x: real, ulp: real)
    requires ulp > 0.0
    ensures Multiple(ToMultiple(x, ulp), ulp) && Close(x, ToMultiple(x, ulp), ulp)
  {
    var n := (x / ulp + 0.5).Floor;
    var d := n as real - x / ulp;
    assert Abs(d) <= 0.5;
    assert x / ulp * ulp == x;
    Distribute(n as real, x / ulp, ulp);
    AbsProduct(d, ulp);
    Halved(Abs(d), ulp);
    assert ToMultiple(x, ulp) == Steps(n, ulp);
  }

  lemma Halved(d: real, ulp: real)
    requires d <= 0.5 && ulp > 0.0
    ensures 2.0 * RealProduct(d, ulp) <= ulp
  {
  }

  // The one multiple strictly within half a step is what is rounded to.
  lemma NearestIs(a: Arithmetic, low: real, x: real, n: int)
    requires Nearest(a, low) && low > 0.0 && Binade(low, x)
    requires 2.0 * Abs(Steps(n, Ulp(low)) - x) < Ulp(low)
    ensures Round(a, x) == Steps(n, Ulp(low))
  {
    var u := Ulp(low);
    var k: int :| Round(a, x) == Steps(k, u);
    assert Close(x, Round(a, x), u);
    Distribute(k as real, n as real, u);
    AbsProduct((k - n) as real, u);
    if k != n { AtLeastStep(Abs((k - n) as real), u); }
  }

  lemma AtLeastStep(d: real, u: real)
    requires d >= 1.0 && u > 0.0
    ensures RealProduct(d, u) >= u
  {
  }

  lemma DoublesAreNearest(low: real)
    requires low > 0.0
    ensures Nearest(Doubles(low), low) && Nearest(Doubles(low), 2.0 * low)
  {
    var a := Doubles(low);
    forall x | Binade(low, x)
      ensures Multiple(Round(a, x), Ulp(low)) && Close(x, Round(a, x), Ulp(low))
    {
      ToMultipleNearest(x, Ulp(low));
      if Abs(x) == 2.0 * low { EndOfBinade(x, low); }
    }
    forall x | Binade(2.0 * low, x)
      ensures Multiple(Round(a, x), Ulp(2.0 * low)) && Close(x, Round(a, x), Ulp(2.0 * low))
    {
      ToMultipleNearest(x, 2.0 * Ulp(low));
    }
  }

  // The end of a binade is a multiple of the steps on both sides.
  lemma EndOfBinade(x: real, low: real)
    requires low > 0.0 && Abs(x) == 2.0 * low
    ensures ToMultiple(x, 2.0 * Ulp(low)) == x && Multiple(x, Ulp(low))
  {
    var u := Ulp(low);
    assert low == TWO_52 * u;
    var n := if x > 0.0 then 4503599627370496 else -4503599627370496;
    EndSteps(x, u);
    QuotientIs(x, n, 2.0 * u);
    assert Steps(2 * n, u) == x;
  }

  lemma EndSteps(x: real, u: real)
    requires Abs(x) == 2.0 * TWO_52 * u && u > 0.0
    ensures var n := if x > 0.0 then 4503599627370496 else -4503599627370496;
      Steps(n, 2.0 * u) == x && Steps(2 * n, u) == x
  {
  }

  lemma QuotientIs(x: real, n: int, d: real)
    requires d > 0.0 && Steps(n, d) == x
    ensures x / d == n as real
  {
  }

  // ---- A wrap-around below 64 bits ----

  // The double nearest to -1.6.
  const SCALE: real := -3602879701896397.0 / 2251799813685248.0

  lemma QuotientRoundsUp(a: Arithmetic)
    requires Nearest(a, 64.0)
    ensures ToFloat(a, -128) == -128.0 && Round(a, RealQuotient(-128.0, SCALE)) == 80.0
  {
    var q := RealQuotient(-128.0, SCALE);
    assert q == 288230376151711744.0 / 3602879701896397.0;
    NearestIs(a, 64.0, q, 5629499534213120);
    NearestIs(a, 64.0, -128.0, -9007199254740992);
  }

  // Writing the least signed byte with that scale passes the range check,
  // because the quotient, just below 80, is rounded to it, and the integer
  // quotient wraps around.
  lemma LeastValueWraps(a: Arithmetic)
    requires Nearest(a, 64.0)
    ensures Trunc(SCALE) == -1
    ensures TransformScale(a, INT8.Min(), SCALE, false, INT8) == Number(INT8.Min())
  {
    assert Pow2(7) == 128 && INT8.Min() == -128 && INT8.Max() == 127;
    QuotientRoundsUp(a);
    TruncOfInt(80);
    NegatedMinimum(INT8);
  }

  // ---- A wrap-around with 64 bits ----

  lemma Pow2Of63()
    ensures Pow2(63) == 0x8000_0000_0000_0000
  {
    Pow2Of32();
    assert Pow2(40) == 0x100_0000_0000;
    assert Pow2(48) == 0x1_0000_0000_0000;
    assert Pow2(56) == 0x100_0000_0000_0000;
  }

  // Adding one to the largest signed 64-bit value gives the least: both floats
  // are 2^63, which the range check admits.
  lemma LargestValueWraps(a: Arithmetic)
    requires Nearest(a, 4611686018427387904.0) && Nearest(a, 9223372036854775808.0)
    ensures TransformOffset(a, INT64.Max(), 1.0, true, INT64) == Number(INT64.Min())
  {
    Pow2Of63();
    var big := 9223372036854775808.0;
    NearestIs(a, 4611686018427387904.0, big - 1.0, 9007199254740992);
    NearestIs(a, big, big + 1.0, 4503599627370496);
    TruncOfInt(0x8000_0000_0000_0000);
    WrapsToMin(INT64);
  }

  lemma WrapsToMin(t: IntType)
    requires t.signed
    ensures Truncate(t.Max() + 1, t) == t.Min()
  {
    NegatedMinimum(t);
  }
}
