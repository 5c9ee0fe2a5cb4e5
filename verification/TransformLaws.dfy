// What the transformations promise: no silent wrap-around, writing undone by
// reading, and reading then writing as a projection.
module TransformLaws {
  import opened Bits
  import opened IntTypes
  import opened Models
  import opened Transform

  const TWO_53: int := 0x20_0000_0000_0000
  const TWO_50: real := 1125899906842624.0

  function Abs(x: real): real { if x >= 0.0 then x else -x }

  // Neither too small nor too large for the accuracy bound of a float.
  predicate Normal(a: Arithmetic, x: real) {
    Abs(x) <= a.limit && 1.0 <= RealProduct(Abs(x), a.limit)
  }

  // The facts about IEEE double rounding that the laws rest on: integers up to
  // 2^53 are exact, rounding is monotone, ...
  ghost predicate Faithful(a: Arithmetic) {
    && (forall n: int :: -TWO_53 <= n <= TWO_53 ==> ToFloat(a, n) == n as real)
    && (forall x, y :: x <= y ==> Round(a, x) <= Round(a, y))
  }

  // ... and, for division, the relative error is below 2^-50.
  ghost predicate Accurate(a: Arithmetic) {
    && TWO_53 as real <= a.limit
    && (forall x :: Normal(a, x) ==> Abs(Round(a, x) - x) * TWO_50 <= Abs(x))
  }

  // A resource without a base and with an integral, invertible linear part.
  predicate Linear(a: Arithmetic, p: ResourceProperties) {
    && (p.base.Some? ==> p.base.value == 0.0)
    && (p.offset.Some? ==> Integral(p.offset.value))
    && (p.scale.Some? ==> Integral(p.scale.value) && p.scale.value != 0.0 && Abs(p.scale.value) <= a.limit)
  }

  function OffsetOf(p: ResourceProperties): int {
    if p.offset.Some? then Trunc(p.offset.value) else 0
  }

  function ScaleOf(p: ResourceProperties): int {
    if p.scale.Some? then Trunc(p.scale.value) else 1
  }

  // ---- The range check decides, and the closing truncation changes nothing ----

  lemma TruncOfInt(n: int)
    ensures Trunc(n as real) == n && Integral(n as real)
  {
  }

  lemma Pow2Of32()
    ensures Pow2(32) == 0x1_0000_0000
  {
    assert Pow2(8) == 0x100;
    assert Pow2(16) == 0x1_0000;
    assert Pow2(24) == 0x100_0000;
  }

  lemma SmallBounds(t: IntType)
    requires t.Small()
    ensures FloatMax(t) == t.Max()
    ensures -0x1_0000_0000 <= t.Min() <= 0 <= t.Max() <= 0x1_0000_0000
    ensures t.Min() == 0 || t.Min() == 0 - t.Max() - 1
  {
    Pow2Monotone(t.width, 32);
    Pow2Monotone(t.width - 1, 32);
    Pow2Of32();
  }

  lemma RoundAbove(a: Arithmetic, m: int, x: real)
    requires Faithful(a) && -TWO_53 <= m <= TWO_53 && m as real <= x
    ensures m as real <= Round(a, x)
  {
    assert ToFloat(a, m) <= Round(a, x);
  }

  lemma RoundBelow(a: Arithmetic, m: int, x: real)
    requires Faithful(a) && -TWO_53 <= m <= TWO_53 && x <= m as real
    ensures Round(a, x) <= m as real
  {
    assert Round(a, x) <= ToFloat(a, m);
  }

  lemma SmallExact(a: Arithmetic, v: int, t: IntType)
    requires Faithful(a) && t.Small() && t.Contains(v)
    ensures ToFloat(a, v) == v as real
  {
    SmallBounds(t);
  }

  // An integer between zero and a real whose rounding is in range is in range.
  lemma BetweenInRange(a: Arithmetic, n: int, x: real, t: IntType)
    requires Faithful(a) && t.Small()
    requires t.Min() as real <= Round(a, x) <= t.Max() as real
    requires 0 < n ==> n as real <= x
    requires n < 0 ==> x <= n as real
    ensures t.Contains(n)
  {
    SmallBounds(t);
    if n > t.Max() { RoundAbove(a, t.Max() + 1, x); }
    if n < t.Min() { RoundBelow(a, t.Min() - 1, x); }
  }

  // ---- Scale ----

  lemma ProductOfReals(x: int, y: int)
    ensures Product(x, y) as real == RealProduct(x as real, y as real)
  {
  }

  // The product with the truncated scale lies between zero and the product.
  lemma TruncatedProduct(v: int, s: real)
    ensures var n, x := Product(v, Trunc(s)), RealProduct(v as real, s);
      (0 < n ==> n as real <= x) && (n < 0 ==> x <= n as real)
  {
  }

  // A passed check that puts the integer result in range makes the closing
  // truncation the identity.
  lemma CheckedExact(f: real, n: int, t: IntType)
    requires InFloatRange(f, t) ==> t.Contains(n)
    ensures Checked(f, n, t) == if InFloatRange(f, t) then Number(n) else Overflow
  {
    if t.Contains(n) { TruncateIdentity(n, t); }
  }

  // Reading: the range check on the float product decides, and a passed check
  // gives the exact product with the truncated scale, whatever the scale.
  lemma ReadScaleExact(a: Arithmetic, v: int, s: real, t: IntType)
    requires Faithful(a) && t.Small() && t.Contains(v)
    ensures TransformScale(a, v, s, true, t) ==
      if InFloatRange(Round(a, RealProduct(v as real, s)), t) then Number(Product(v, Trunc(s))) else Overflow
  {
    SmallExact(a, v, t);
    var x, n := RealProduct(v as real, s), Product(v, Trunc(s));
    if InFloatRange(Round(a, x), t) {
      TruncatedProduct(v, s);
      BetweenInRange(a, n, x, t);
    }
    CheckedExact(Round(a, x), n, t);
  }

  // A successful reading is the real product exactly for integral scales, and
  // for a zero.
  lemma ReadScaleIsProduct(a: Arithmetic, v: int, s: real, t: IntType)
    requires Faithful(a) && t.Small() && t.Contains(v)
    ensures var r := TransformScale(a, v, s, true, t);
      r.Number? ==> (r.n as real == RealProduct(v as real, s) <==> v == 0 || Integral(s))
  {
    ReadScaleExact(a, v, s, t);
    ProductOfReals(v, Trunc(s));
    if v != 0 { SameProduct(v as real, s, Trunc(s) as real); }
  }

  lemma SameProduct(x: real, y: real, z: real)
    requires x != 0.0
    ensures RealProduct(x, y) == RealProduct(x, z) <==> y == z
  {
    if y != z { assert x * (y - z) != 0.0; }
  }

  // A scale below one in magnitude reads everything as zero, or overflows.
  lemma FractionReadsZero(a: Arithmetic, v: int, s: real, t: IntType)
    requires Faithful(a) && t.Small() && t.Contains(v) && Abs(s) < 1.0
    ensures TransformScale(a, v, s, true, t) ==
      if InFloatRange(Round(a, RealProduct(v as real, s)), t) then Number(0) else Overflow
  {
    ReadScaleExact(a, v, s, t);
    assert Trunc(s) == 0;
  }

  // ---- Every type: when a passed check gives the exact integer ----

  lemma CheckedIff(f: real, n: int, t: IntType)
    ensures Checked(f, n, t).Number? <==> InFloatRange(f, t)
    ensures Checked(f, n, t).Number? ==> (Checked(f, n, t) == Number(n) <==> t.Contains(n))
  {
    TruncateBits(n, t);
    if t.Contains(n) { TruncateIdentity(n, t); }
  }

  // The 64-bit types included: a scale or offset step that passes its check
  // wraps around exactly when the integer result lies outside the type.
  lemma ScaleExactIff(a: Arithmetic, v: int, s: real, read: bool, t: IntType)
    requires TransformScale(a, v, s, read, t).Number?
    ensures read || Trunc(s) != 0
    ensures var n := if read then Product(v, Trunc(s)) else TruncDiv(v, Trunc(s));
      TransformScale(a, v, s, read, t) == Number(n) <==> t.Contains(n)
  {
    if read {
      CheckedIff(Round(a, RealProduct(ToFloat(a, v), s)), Product(v, Trunc(s)), t);
    } else {
      CheckedIff(Round(a, RealQuotient(ToFloat(a, v), s)), TruncDiv(v, Trunc(s)), t);
    }
  }

  lemma OffsetExactIff(a: Arithmetic, v: int, o: real, read: bool, t: IntType)
    requires TransformOffset(a, v, o, read, t).Number?
    ensures var n := if read then v + Trunc(o) else v - Trunc(o);
      TransformOffset(a, v, o, read, t) == Number(n) <==> t.Contains(n)
  {
    CheckedIff(Round(a, if read then ToFloat(a, v) + o else ToFloat(a, v) - o),
      if read then v + Trunc(o) else v - Trunc(o), t);
  }

  // For an exact result the check is the range of the integer.
  lemma CheckedInteger(a: Arithmetic, n: int, t: IntType)
    requires Faithful(a) && t.Small()
    ensures Checked(Round(a, n as real), n, t) == if t.Contains(n) then Number(n) else Overflow
  {
    SmallBounds(t);
    TruncOfInt(n);
    if t.Contains(n) { SmallExact(a, n, t); }
    else if InFloatRange(Round(a, n as real), t) { BetweenInRange(a, n, n as real, t); }
    CheckedExact(Round(a, n as real), n, t);
  }

  // With an integral scale the check is exactly the range of the product.
  lemma ReadScaleIntegral(a: Arithmetic, v: int, s: real, t: IntType)
    requires Faithful(a) && t.Small() && t.Contains(v) && Integral(s)
    ensures TransformScale(a, v, s, true, t) ==
      if t.Contains(Product(v, Trunc(s))) then Number(Product(v, Trunc(s))) else Overflow
  {
    SmallExact(a, v, t);
    ProductOfReals(v, Trunc(s));
    CheckedInteger(a, Product(v, Trunc(s)), t);
  }

  // ---- Offset ----

  lemma TruncTowardZero(x: real)
    ensures 0.0 <= Trunc(x) as real <= x || x <= Trunc(x) as real <= 0.0
  {
  }

  // An offset step adds or subtracts the truncated offset, and never wraps
  // around, whatever the offset.
  lemma ReadOffsetExact(a: Arithmetic, v: int, o: real, t: IntType)
    requires Faithful(a) && t.Small() && t.Contains(v)
    ensures TransformOffset(a, v, o, true, t) ==
      if InFloatRange(Round(a, v as real + o), t) then Number(v + Trunc(o)) else Overflow
  {
    SmallExact(a, v, t);
    TruncTowardZero(o);
    CheckedSum(a, v, v + Trunc(o), v as real + o, t);
  }

  lemma WriteOffsetExact(a: Arithmetic, v: int, o: real, t: IntType)
    requires Faithful(a) && t.Small() && t.Contains(v)
    ensures TransformOffset(a, v, o, false, t) ==
      if InFloatRange(Round(a, v as real - o), t) then Number(v - Trunc(o)) else Overflow
  {
    SmallExact(a, v, t);
    TruncTowardZero(o);
    CheckedSum(a, v, v - Trunc(o), v as real - o, t);
  }

  lemma CheckedSum(a: Arithmetic, v: int, n: int, x: real, t: IntType)
    requires Faithful(a) && t.Small() && t.Contains(v)
    requires v as real <= n as real <= x || x <= n as real <= v as real
    ensures Checked(Round(a, x), n, t) == if InFloatRange(Round(a, x), t) then Number(n) else Overflow
  {
    if InFloatRange(Round(a, x), t) { SumInRange(a, v, n, x, t); }
    CheckedExact(Round(a, x), n, t);
  }

  lemma SumInRange(a: Arithmetic, v: int, n: int, x: real, t: IntType)
    requires Faithful(a) && t.Small() && t.Contains(v)
    requires t.Min() as real <= Round(a, x) <= FloatMax(t) as real
    requires v as real <= n as real <= x || x <= n as real <= v as real
    ensures t.Contains(n)
  {
    SmallBounds(t);
    if n > t.Max() { RoundAbove(a, t.Max() + 1, x); }
    if n < t.Min() { RoundBelow(a, t.Min() - 1, x); }
  }

  lemma OffsetIntegral(a: Arithmetic, v: int, o: real, read: bool, t: IntType)
    requires Faithful(a) && t.Small() && t.Contains(v) && Integral(o)
    ensures TransformOffset(a, v, o, read, t) ==
      var n := if read then v + Trunc(o) else v - Trunc(o);
      if t.Contains(n) then Number(n) else Overflow
  {
    SmallExact(a, v, t);
    var n := if read then v + Trunc(o) else v - Trunc(o);
    assert n as real == if read then v as real + o else v as real - o;
    CheckedInteger(a, n, t);
  }

  // ---- Division ----

  lemma NaturalProduct(m: nat, d: nat)
    ensures m * d >= 0 && (m > 0 && d > 0 ==> m * d > 0)
  {
  }

  lemma TruncDivExact(q: int, k: int)
    requires k != 0
    ensures TruncDiv(q * k, k) == q
  {
    var m, d := if q >= 0 then q else -q, if k >= 0 then k else -k;
    NaturalProduct(m, d);
    MultipleQuotient(m, d);
    Signs(q, k);
  }

  lemma Signs(q: int, k: int)
    ensures q * k == if (q >= 0) == (k >= 0) then (if q >= 0 then q else -q) * (if k >= 0 then k else -k)
      else -((if q >= 0 then q else -q) * (if k >= 0 then k else -k))
  {
  }

  lemma MultipleQuotient(m: nat, d: nat)
    requires d > 0
    ensures m * d / d == m
  {
    var q, r := m * d / d, m * d % d;
    assert (m - q) * d == r;
    if m > q { ProductAtLeast(m - q, d); }
    if m < q { ProductAtLeast(q - m, d); }
  }

  lemma ProductAtLeast(x: int, d: int)
    requires x >= 1 && d >= 0
    ensures x * d >= d
  {
  }

  lemma AbsProduct(x: real, y: real)
    ensures Abs(RealProduct(x, y)) == RealProduct(Abs(x), Abs(y))
  {
  }

  lemma Distribute(x: real, y: real, z: real)
    ensures RealProduct(x - y, z) == RealProduct(x, z) - RealProduct(y, z)
  {
  }

  lemma Rescale(e: real, s: real)
    ensures RealProduct(e * TWO_50, s) == RealProduct(e, s) * TWO_50
  {
  }

  lemma MonotoneProduct(x: real, y: real, z: real)
    requires x <= y && 0.0 <= z
    ensures RealProduct(x, z) <= RealProduct(y, z)
    ensures RealProduct(z, x) <= RealProduct(z, y)
  {
  }

  // Multiplying a relative error bound by the divisor.
  lemma ErrorTimesDivisor(f: real, x: real, s: real)
    requires Abs(f - x) * TWO_50 <= Abs(x)
    ensures Abs(RealProduct(f, s) - RealProduct(x, s)) * TWO_50 <= Abs(RealProduct(x, s))
  {
    var e := Abs(f - x);
    MonotoneProduct(e * TWO_50, Abs(x), Abs(s));
    Rescale(e, Abs(s));
    Distribute(f, x, s);
    AbsProduct(f - x, s);
    AbsProduct(x, s);
  }

  lemma QuotientTimesDivisor(v: real, s: real)
    requires s != 0.0
    ensures RealProduct(RealQuotient(v, s), s) == v
  {
  }

  lemma TimesOne(x: real)
    ensures RealProduct(x, 1.0) == x
  {
  }

  lemma QuotientNormal(a: Arithmetic, x: real, s: real)
    requires 1.0 <= Abs(s) <= a.limit && 1.0 <= Abs(RealProduct(x, s)) <= a.limit
    ensures Normal(a, x)
  {
    AbsProduct(x, s);
    MonotoneProduct(1.0, Abs(s), Abs(x));
    TimesOne(Abs(x));
    MonotoneProduct(Abs(s), a.limit, Abs(x));
  }

  // A float quotient of integers that is an integer is the exact quotient.
  lemma IntegralQuotient(a: Arithmetic, v: int, k: int, x: real)
    requires Accurate(a) && k != 0 && Abs(k as real) <= a.limit
    requires -0x2_0000_0000 <= v <= 0x2_0000_0000 && v != 0
    requires RealProduct(x, k as real) == v as real
    requires Integral(Round(a, x))
    ensures v == Product(Trunc(Round(a, x)), k)
  {
    var f := Trunc(Round(a, x));
    QuotientNormal(a, x, k as real);
    ErrorTimesDivisor(f as real, x, k as real);
    ProductOfReals(f, k);
    CloseIntegers(Product(f, k), v);
  }

  lemma CloseIntegers(n: int, v: int)
    requires -0x2_0000_0000 <= v <= 0x2_0000_0000
    requires Abs(n as real - v as real) * TWO_50 <= Abs(v as real)
    ensures n == v
  {
    assert Abs(v as real) < TWO_50;
    assert Abs(n as real - v as real) == Abs((n - v) as real);
  }

  lemma DividesProduct(v: int, q: int, k: int)
    requires k != 0 && v == Product(q, k)
    ensures Divides(k, v) && TruncDiv(v, k) == q
  {
    TruncDivExact(q, k);
    MultipleRemainder(q, k);
  }

  lemma MultipleRemainder(q: int, k: int)
    requires k != 0
    ensures (q * k) % k == 0
  {
    var q', r := q * k / k, q * k % k;
    var d := if k > 0 then k else -k;
    var n := if k > 0 then q - q' else q' - q;
    assert n * d == r;
    if n >= 1 { ProductAtLeast(n, d); }
    if n <= -1 { ProductAtLeast(-n, d); }
  }

  lemma DividesQuotient(k: int, v: int)
    requires k != 0 && Divides(k, v)
    ensures v == Product(TruncDiv(v, k), k)
  {
    var q := v / k;
    assert v == Product(q, k);
    DividesProduct(v, q, k);
  }

  lemma QuotientOfMultiple(q: int, k: int)
    requires k != 0
    ensures RealQuotient(Product(q, k) as real, k as real) == q as real
  {
  }

  // Writing with an integral scale succeeds exactly when the scale divides the
  // value and the quotient fits, and then gives the quotient.
  lemma WriteScaleIntegral(a: Arithmetic, v: int, s: real, t: IntType)
    requires Faithful(a) && Accurate(a) && t.Small() && t.Contains(v)
    requires Integral(s) && s != 0.0 && Abs(s) <= a.limit
    ensures Trunc(s) != 0
    ensures TransformScale(a, v, s, false, t) ==
      var q := TruncDiv(v, Trunc(s));
      if Divides(Trunc(s), v) && t.Contains(q) then Number(q) else Overflow
  {
    var k, x := Trunc(s), RealQuotient(v as real, s);
    var q := TruncDiv(v, k);
    SmallExact(a, v, t);
    if Divides(k, v) {
      DividesQuotient(k, v);
      QuotientOfMultiple(q, k);
      CheckedInteger(a, q, t);
    } else {
      InexactQuotientOverflows(a, v, k, x, q, t) by { QuotientTimesDivisor(v as real, s); }
    }
  }

  lemma InexactQuotientOverflows(a: Arithmetic, v: int, k: int, x: real, n: int, t: IntType)
    requires Accurate(a) && t.Small() && t.Contains(v)
    requires k != 0 && Abs(k as real) <= a.limit && !Divides(k, v)
    requires RealProduct(x, k as real) == v as real
    ensures Checked(Round(a, x), n, t) == Overflow
  {
    SmallBounds(t);
    InexactQuotient(a, v, k, x);
  }

  lemma InexactQuotient(a: Arithmetic, v: int, k: int, x: real)
    requires Accurate(a) && k != 0 && Abs(k as real) <= a.limit && !Divides(k, v)
    requires -0x2_0000_0000 <= v <= 0x2_0000_0000
    requires RealProduct(x, k as real) == v as real
    ensures !Integral(Round(a, x))
  {
    if v == 0 {
      DividesProduct(0, 0, k);
    } else if Integral(Round(a, x)) {
      IntegralQuotient(a, v, k, x);
      DividesProduct(v, Trunc(Round(a, x)), k);
    }
  }

  lemma TruncDivBounds(v: int, k: int)
    requires k != 0
    ensures var n := TruncDiv(v, k);
      && -(if v >= 0 then v else -v) <= n <= (if v >= 0 then v else -v)
      && (n > 0 ==> (v > 0) == (k > 0))
      && (n < 0 ==> (v > 0) == (k < 0))
      && (v != 0 && (n == v || n == -v) ==> k == 1 || k == -1)
  {
    var m, d := if v >= 0 then v else -v, if k >= 0 then k else -k;
    QuotientBounds(m, d);
  }

  lemma QuotientBounds(m: nat, d: nat)
    requires d > 0
    ensures 0 <= m / d <= m
    ensures m > 0 && m / d == m ==> d == 1
  {
    var q := m / d;
    assert q * d <= m;
    if q > 0 { ProductAtLeast(d, q); }
    if d >= 2 { MultiplyAtLeastTwo(q, d); }
  }

  lemma MultiplyAtLeastTwo(q: nat, d: nat)
    requires d >= 2
    ensures q * d >= 2 * q
  {
  }

  // A float quotient that is not negative has operands of one sign.
  lemma NonNegativeQuotient(a: Arithmetic, v: int, s: real, t: IntType)
    requires Accurate(a) && t.Small() && t.Contains(v)
    requires 1.0 <= Abs(s) <= a.limit && v != 0
    requires Round(a, RealQuotient(v as real, s)) >= 0.0
    ensures (v > 0) == (s > 0.0)
  {
    var x := RealQuotient(v as real, s);
    SmallBounds(t);
    QuotientTimesDivisor(v as real, s);
    QuotientNormal(a, x, s);
    RoundKeepsSign(a, x);
    SignOfQuotient(v as real, s);
  }

  lemma RoundKeepsSign(a: Arithmetic, x: real)
    requires Accurate(a) && Normal(a, x) && Round(a, x) >= 0.0
    ensures x >= 0.0
  {
    var e := Abs(Round(a, x) - x);
    assert e * TWO_50 <= Abs(x);
    assert e <= e * TWO_50;
  }

  lemma SignOfQuotient(v: real, s: real)
    requires s != 0.0 && v != 0.0 && RealQuotient(v, s) >= 0.0
    ensures (v > 0.0) == (s > 0.0)
  {
  }

  // Writing with any scale of magnitude one or more: a passed check gives the
  // truncated quotient, with the one exception of negating the least value of a
  // signed type, which wraps around to itself.
  lemma WriteScaleWraps(a: Arithmetic, v: int, s: real, t: IntType)
    requires Accurate(a) && t.Small() && t.Contains(v)
    requires ToFloat(a, v) == v as real && Trunc(s) != 0 && Abs(s) <= a.limit
    requires InFloatRange(Round(a, RealQuotient(v as real, s)), t)
    ensures TransformScale(a, v, s, false, t) ==
      Number(if t.signed && v == t.Min() && Trunc(s) == -1 then v else TruncDiv(v, Trunc(s)))
  {
    var k := Trunc(s);
    var n := TruncDiv(v, k);
    TruncDivBounds(v, k);
    if t.signed && v == t.Min() && k == -1 {
      NegatedMinimum(t);
    } else {
      if !t.signed && v != 0 { NonNegativeQuotient(a, v, s, t); }
      assert t.Contains(n);
      TruncateIdentity(n, t);
    }
  }

  lemma NegatedMinimum(t: IntType)
    requires t.signed
    ensures TruncDiv(t.Min(), -1) == -t.Min()
    ensures Truncate(-t.Min(), t) == t.Min()
  {
    SameLowMinusPow2(-t.Min(), t.width);
    TruncateBits(-t.Min(), t);
  }

  // ---- What the single steps compute ----

  // A write is rejected exactly above the truncated maximum or below the
  // truncated minimum.
  lemma RejectedIff(a: Arithmetic, v: int, p: ResourceProperties, t: IntType)
    ensures WriteValue(a, v, p, t) == Rejected <==>
      (p.maximum.Some? && v > Trunc(p.maximum.value)) || (p.minimum.Some? && v < Trunc(p.minimum.value))
  {
    hide OffsetStage, ScaleStage, BaseStage, MaskStage, ShiftStage;
    StagesNeverReject(a, p, t);
  }

  lemma StagesNeverReject(a: Arithmetic, p: ResourceProperties, t: IntType)
    ensures forall v, read :: OffsetStage(a, v, p, read, t) != Rejected
    ensures forall v, read :: ScaleStage(a, v, p, read, t) != Rejected
    ensures forall v, read :: BaseStage(a, v, p, read, t) != Rejected
  {
  }

  // Truncation goes towards zero by less than one.
  lemma TruncIs(x: real)
    ensures Abs(x - Trunc(x) as real) < 1.0
    ensures x >= 0.0 ==> 0.0 <= Trunc(x) as real <= x
    ensures x <= 0.0 ==> x <= Trunc(x) as real <= 0.0
  {
  }

  // The remainder of the division is smaller than the divisor, and has the sign
  // of the dividend.
  lemma TruncDivIs(v: int, k: int)
    requires k != 0
    ensures var r := v - TruncDiv(v, k) * k;
      && -(if k > 0 then k else -k) < r < (if k > 0 then k else -k)
      && (v >= 0 ==> r >= 0) && (v <= 0 ==> r <= 0)
  {
    var m, d := if v >= 0 then v else -v, if k >= 0 then k else -k;
    var q := m / d;
    assert m == d * q + m % d;
    DividendSigns(q, d);
  }

  lemma DividendSigns(q: int, d: int)
    ensures (-q) * (-d) == q * d && (-q) * d == -(q * d) && q * (-d) == -(q * d)
  {
  }

  // A base gives the power, or the logarithm, when it is an integer of the type,
  // and an overflow otherwise; up to 32 bits.
  lemma BaseIs(a: Arithmetic, v: int, base: real, read: bool, t: IntType)
    requires t.Small()
    ensures var f := a.round(v as real);
      var result := if read then a.power(base, f) else a.logarithm(f, base);
      var r := TransformBase(a, v, base, read, t);
      && (result.Failed? <==> r == Raised)
      && (result.NotFinite? ==> r == Overflow)
      && (forall n :: r == Number(n) <==> result == Finite(n as real) && t.Contains(n))
  {
    var result := if read then Power(a, base, ToFloat(a, v)) else Logarithm(a, ToFloat(a, v), base);
    if result.Finite? {
      CheckedFloat(result.f, t);
      var r := TransformBase(a, v, base, read, t);
      forall n ensures r == Number(n) <==> result == Finite(n as real) && t.Contains(n) {
        TruncOfInt(n);
      }
    }
  }

  // The float range is that of the type up to 32 bits, and one value wider
  // beyond.
  lemma WideRange(n: int, t: IntType)
    ensures t.width <= 32 ==> (InFloatRange(n as real, t) <==> t.Contains(n))
    ensures t.width > 32 ==> (InFloatRange(n as real, t) <==> t.Contains(n) || n == t.Max() + 1)
  {
    TruncOfInt(n);
  }

  lemma CheckedFloat(f: real, t: IntType)
    requires t.Small()
    ensures var n := Trunc(f);
      Checked(f, n, t) == if f == n as real && t.Contains(n) then Number(n) else Overflow
  {
    if t.Contains(Trunc(f)) { TruncateIdentity(Trunc(f), t); }
  }

  // A failing transformation leaves the value as it was, and what is no integer
  // is left alone.
  lemma EffectsKeep(a: Arithmetic, valueType: ValueType, value: Value, p: ResourceProperties)
    ensures ReadEffect(a, valueType, value, p).1.Some? ==> ReadEffect(a, valueType, value, p).0 == value
    ensures WriteEffect(a, valueType, value, p).1.Some? ==> WriteEffect(a, valueType, value, p).0 == value
    ensures !valueType.Integer? || !value.Int? ==>
      ReadEffect(a, valueType, value, p).0 == value && WriteEffect(a, valueType, value, p).0 == value
    ensures !valueType.Integer? || !value.Int? ==>
      ReadEffect(a, valueType, value, p).1.None? && WriteEffect(a, valueType, value, p).1.None?
  {
    hide ReadValue, WriteValue;
  }
}
