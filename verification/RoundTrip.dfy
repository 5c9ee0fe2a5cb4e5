// The read transformation against the write transformation.
module RoundTrip {
  import opened Bits
  import opened IntTypes
  import opened Models
  import opened Transform
  import opened TransformLaws

  // The mask bits that apply; an unset or zero mask applies none.
  function MaskOf(p: ResourceProperties, t: IntType): (m: nat)
    ensures m < Pow2(t.width)
  {
    if p.mask.Some? && p.mask.value != 0 then And(p.mask.value, Pow2(t.width) - 1) else Pow2(t.width) - 1
  }

  function ShiftOf(p: ResourceProperties): int {
    if p.shift.Some? then p.shift.value else 0
  }

  function Masked(v: int, m: nat, t: IntType): int {
    Interpret(And(v, m), t)
  }

  // The bit fields of a resource: what a device value reads as before scaling,
  // and what a descaled value is written as.
  function Decode(v: int, p: ResourceProperties, t: IntType): int {
    TransformShift(Masked(v, MaskOf(p, t), t), ShiftOf(p), t)
  }

  function Encode(q: int, p: ResourceProperties, t: IntType): int {
    Masked(TransformShift(q, -ShiftOf(p), t), MaskOf(p, t), t)
  }

  lemma MaskedBits(v: int, m: nat, t: IntType)
    requires m < Pow2(t.width)
    ensures t.Contains(Masked(v, m, t))
    ensures SameLow(Masked(v, m, t), And(v, m), t.width)
  {
    InterpretPattern(And(v, m), t);
  }

  lemma ShiftInRange(v: int, shift: int, t: IntType)
    ensures t.Contains(TransformShift(v, shift, t))
  {
    if shift > 0 { TruncateBits(ShiftRight(v, shift), t); } else { TruncateBits(ShiftLeft(v, -shift), t); }
  }

  // Skipping the stages with default properties makes no difference.
  lemma MaskStageIs(v: int, p: ResourceProperties, t: IntType)
    requires t.Contains(v)
    ensures MaskStage(v, p, t) == Masked(v, MaskOf(p, t), t)
  {
    if p.mask.Some? && p.mask.value != 0 {
      assert MaskStage(v, p, t) == TransformMask(v, p.mask.value, t);
    } else {
      assert Masked(v, MaskOf(p, t), t) == Truncate(v, t);
      TruncateIdentity(v, t);
    }
  }

  lemma ShiftStageIs(v: int, p: ResourceProperties, read: bool, t: IntType)
    requires t.Contains(v)
    ensures ShiftStage(v, p, read, t) == TransformShift(v, if read then ShiftOf(p) else -ShiftOf(p), t)
  {
    TruncateIdentity(v, t);
  }

  lemma MaskedIdempotent(v: int, m: nat, t: IntType)
    requires m < Pow2(t.width)
    ensures Masked(Masked(v, m, t), m, t) == Masked(v, m, t)
  {
    MaskedBits(v, m, t);
    AndSameLow(Masked(v, m, t), And(v, m), m, t.width);
    AndIdempotent(v, m);
  }

  // ---- Bit fields ----

  // What a descaled value must satisfy for its bits to come back from the
  // device. A left shift on write must not overflow the type, and no bit it
  // leaves set may be masked away. A right shift on write must drop only zeros,
  // and the mask must keep the bits that the reading shifts back.
  predicate Survives(q: int, p: ResourceProperties, t: IntType) {
    var shift, m, w := ShiftOf(p), MaskOf(p, t), t.width;
    if shift >= 0 then
      t.Contains(ShiftLeft(q, shift)) && SameLow(And(ShiftLeft(q, shift), m), ShiftLeft(q, shift), w)
    else
      var z := ShiftRight(q, -shift);
      ClearLow(q, -shift) == q && (-shift < w ==> SameLow(And(z, m), z, w + shift))
  }

  // The low bits of x shifted left by k, against those of q.
  lemma {:induction false} ShiftBack(x: int, q: int, k: nat, w: nat)
    ensures SameLow(ShiftLeft(x, k), q, w) <==>
      if k <= w then SameLow(q, 0, k) && SameLow(x, ShiftRight(q, k), w - k) else SameLow(q, 0, w)
    decreases k
  {
    hide ShiftLeft, ShiftRight, SameLow;
    ShiftStep(x, k);
    ShiftStep(q, k);
    SameLowStep(ShiftLeft(x, k), q, w);
    SameLowStep(q, 0, k);
    SameLowStep(q, 0, w);
    if k > 0 && w > 0 { ShiftBack(x, q / 2, k - 1, w - 1); }
  }

  lemma {:induction false} ClearLowFixed(q: int, k: nat)
    ensures ClearLow(q, k) == q <==> SameLow(q, 0, k)
    decreases k
  {
    if k > 0 { ClearLowFixed(q / 2, k - 1); }
  }

  // Shifting right cannot leave the range, so the closing truncation is inert.
  lemma ShiftRightExact(v: int, n: nat, t: IntType)
    requires t.Contains(v)
    ensures TransformShift(v, n, t) == ShiftRight(v, n)
  {
    if n == 0 {
      TruncateIdentity(v, t);
    } else {
      ShiftRightBetween(v, t.Min(), t.Max(), n);
      TruncateIdentity(ShiftRight(v, n), t);
    }
  }

  // A masked left shift has the bits of the masked exact product.
  lemma MaskedShiftBits(q: int, n: nat, m: nat, t: IntType)
    requires m < Pow2(t.width)
    ensures SameLow(Masked(Truncate(ShiftLeft(q, n), t), m, t), And(ShiftLeft(q, n), m), t.width)
  {
    var x := Truncate(ShiftLeft(q, n), t);
    TruncateBits(ShiftLeft(q, n), t);
    AndSameLow(x, ShiftLeft(q, n), m, t.width);
    MaskedBits(x, m, t);
  }

  lemma MaskedShiftLowZero(q: int, n: nat, m: nat, t: IntType)
    requires m < Pow2(t.width)
    ensures ClearLow(Masked(Truncate(ShiftLeft(q, n), t), m, t), n) == Masked(Truncate(ShiftLeft(q, n), t), m, t)
  {
    var w, product := t.width, ShiftLeft(q, n);
    var y := Masked(Truncate(product, t), m, t);
    MaskedShiftBits(q, n, m, t);
    ShiftLeftLowZero(q, n);
    AndLowZero(product, m, n);
    if n <= w {
      SameLowFewer(y, And(product, m), w, n);
      SameLowTransitive(y, And(product, m), 0, n);
      ClearLowOfLowZero(y, n);
    } else {
      SameLowFewer(And(product, m), 0, n, w);
      SameLowTransitive(y, And(product, m), 0, w);
      MaskedBits(Truncate(product, t), m, t);
      SameBitsInRange(y, 0, t);
      ClearLowZero(n);
    }
  }

  lemma SurvivesLeft(q: int, p: ResourceProperties, t: IntType)
    requires t.Contains(q) && ShiftOf(p) >= 0
    ensures Decode(Encode(q, p, t), p, t) == q <==> Survives(q, p, t)
  {
    var n, m, w := ShiftOf(p), MaskOf(p, t), t.width;
    var product := ShiftLeft(q, n);
    var x := Truncate(product, t);
    var y := Masked(x, m, t);
    MaskedIdempotent(x, m, t);
    MaskedBits(x, m, t);
    ShiftRightExact(y, n, t);
    assert Decode(Encode(q, p, t), p, t) == ShiftRight(y, n);
    MaskedShiftBits(q, n, m, t);
    if Survives(q, p, t) {
      SameLowTransitive(y, And(product, m), product, w);
      SameBitsInRange(y, product, t);
      ShiftLeftThenRight(q, n);
    }
    if ShiftRight(y, n) == q {
      MaskedShiftLowZero(q, n, m, t);
      assert y == product;
      SameLowSymmetric(y, And(product, m), w);
    }
  }

  lemma SurvivesRight(q: int, p: ResourceProperties, t: IntType)
    requires t.Contains(q) && ShiftOf(p) < 0
    ensures Decode(Encode(q, p, t), p, t) == q <==> Survives(q, p, t)
  {
    var k, m, w := -ShiftOf(p), MaskOf(p, t), t.width;
    var z := ShiftRight(q, k);
    var y := Masked(z, m, t);
    ShiftRightExact(q, k, t);
    MaskedIdempotent(z, m, t);
    assert Decode(Encode(q, p, t), p, t) == Truncate(ShiftLeft(y, k), t);
    RepresentsIff(ShiftLeft(y, k), q, t);
    ShiftBack(y, q, k, w);
    ClearLowFixed(q, k);
    if k <= w {
      MaskedBits(z, m, t);
      SameLowFewer(y, And(z, m), w, w - k);
      SameLowAgree(y, And(z, m), z, w - k);
    } else {
      LowZeroBeyondWidth(q, k, t);
    }
  }

  lemma RepresentsIff(x: int, q: int, t: IntType)
    requires t.Contains(q)
    ensures Truncate(x, t) == q <==> SameLow(x, q, t.width)
  {
    TruncateBits(x, t);
    if SameLow(x, q, t.width) { SameLowSymmetric(x, q, t.width); }
    if Truncate(x, t) == q { SameLowSymmetric(q, x, t.width); }
  }

  lemma SameLowAgree(x: int, y: int, z: int, n: nat)
    requires SameLow(x, y, n)
    ensures SameLow(x, z, n) <==> SameLow(y, z, n)
  {
    SameLowSymmetric(x, y, n);
    if SameLow(x, z, n) { SameLowTransitive(y, x, z, n); }
    if SameLow(y, z, n) { SameLowTransitive(x, y, z, n); }
  }

  // Beyond the width, having only zeros among the low bits is being zero.
  lemma LowZeroBeyondWidth(q: int, k: nat, t: IntType)
    requires t.Contains(q) && k >= t.width
    ensures SameLow(q, 0, k) <==> SameLow(q, 0, t.width)
  {
    if SameLow(q, 0, k) { SameLowFewer(q, 0, k, t.width); }
    if SameLow(q, 0, t.width) {
      SameBitsInRange(q, 0, t);
      SameLowReflexive(0, k);
    }
  }

  // ---- The whole pipelines ----

  // A resource the laws speak about: a type of at most 32 bits and an integral,
  // invertible linear part.
  ghost predicate Exact(a: Arithmetic, p: ResourceProperties, t: IntType) {
    Faithful(a) && Accurate(a) && t.Small() && Linear(a, p)
  }

  lemma OffsetStageIs(a: Arithmetic, v: int, p: ResourceProperties, read: bool, t: IntType)
    requires Exact(a, p, t) && t.Contains(v)
    ensures OffsetStage(a, v, p, read, t) ==
      var n := if read then v + OffsetOf(p) else v - OffsetOf(p);
      if t.Contains(n) then Number(n) else Overflow
  {
    if p.offset.Some? && p.offset.value != 0.0 { OffsetIntegral(a, v, p.offset.value, read, t); }
  }

  lemma ReadScaleStageIs(a: Arithmetic, v: int, p: ResourceProperties, t: IntType)
    requires Exact(a, p, t) && t.Contains(v)
    ensures ScaleStage(a, v, p, true, t) ==
      var n := Product(v, ScaleOf(p)); if t.Contains(n) then Number(n) else Overflow
  {
    if p.scale.Some? && p.scale.value != 1.0 { ReadScaleIntegral(a, v, p.scale.value, t); }
  }

  lemma ScaleNonzero(a: Arithmetic, p: ResourceProperties)
    requires Linear(a, p)
    ensures ScaleOf(p) != 0
  {
  }

  lemma WriteScaleStageIs(a: Arithmetic, v: int, p: ResourceProperties, t: IntType)
    requires Exact(a, p, t) && t.Contains(v)
    ensures ScaleOf(p) != 0
    ensures ScaleStage(a, v, p, false, t) ==
      var q := TruncDiv(v, ScaleOf(p)); if Divides(ScaleOf(p), v) && t.Contains(q) then Number(q) else Overflow
  {
    ScaleNonzero(a, p);
    if p.scale.Some? && p.scale.value != 1.0 {
      WriteScaleIntegral(a, v, p.scale.value, t);
    } else {
      DividesProduct(v, v, 1);
    }
  }

  // The integer semantics of such a resource. Reading multiplies and adds
  // without wrapping, or overflows.
  function ReadExact(v: int, p: ResourceProperties, t: IntType): Outcome {
    Linearly(Decode(v, p, t), p, t)
  }

  function Linearly(raw: int, p: ResourceProperties, t: IntType): Outcome {
    var scaled := Product(raw, ScaleOf(p));
    if t.Contains(scaled) && t.Contains(scaled + OffsetOf(p)) then Number(scaled + OffsetOf(p)) else Overflow
  }

  // A write within the limits is accepted when the offset leaves a value of the
  // type that the scale divides, with a quotient of the type.
  predicate Accepts(x: int, p: ResourceProperties, t: IntType)
    requires ScaleOf(p) != 0
  {
    var d := x - OffsetOf(p);
    t.Contains(d) && Divides(ScaleOf(p), d) && t.Contains(TruncDiv(d, ScaleOf(p)))
  }

  function Quotient(x: int, p: ResourceProperties): int
    requires ScaleOf(p) != 0
  {
    TruncDiv(x - OffsetOf(p), ScaleOf(p))
  }

  function WriteExact(x: int, p: ResourceProperties, t: IntType): Outcome
    requires ScaleOf(p) != 0
  {
    if !WithinLimits(x, p) then Rejected
    else if Accepts(x, p, t) then Number(Encode(Quotient(x, p), p, t))
    else Overflow
  }

  // The float pipelines compute the integer semantics.
  lemma ReadOutcome(a: Arithmetic, v: int, p: ResourceProperties, t: IntType)
    requires Exact(a, p, t) && t.Contains(v)
    ensures ReadValue(a, v, p, t) == ReadExact(v, p, t)
  {
    var masked := Masked(v, MaskOf(p, t), t);
    MaskStageIs(v, p, t);
    MaskedBits(v, MaskOf(p, t), t);
    ShiftStageIs(masked, p, true, t);
    var raw := Decode(v, p, t);
    ShiftInRange(masked, ShiftOf(p), t);
    ReadScaleStageIs(a, raw, p, t);
    var scaled := Product(raw, ScaleOf(p));
    if t.Contains(scaled) { OffsetStageIs(a, scaled, p, true, t); }
  }

  lemma WriteOutcome(a: Arithmetic, x: int, p: ResourceProperties, t: IntType)
    requires Exact(a, p, t) && t.Contains(x)
    ensures ScaleOf(p) != 0
    ensures WriteValue(a, x, p, t) == WriteExact(x, p, t)
  {
    hide MaskStage, ShiftStage, OffsetStage, ScaleStage, Encode, Faithful, Accurate, TruncDiv, Divides;
    ScaleNonzero(a, p);
    if WithinLimits(x, p) {
      OffsetStageIs(a, x, p, false, t);
      var d := x - OffsetOf(p);
      if t.Contains(d) {
        WriteScaleStageIs(a, d, p, t);
        if Accepts(x, p, t) {
          FieldStagesAre(Quotient(x, p), p, t);
          assert BaseStage(a, Quotient(x, p), p, false, t) == Number(Quotient(x, p));
        }
      }
    }
  }

  lemma FieldStagesAre(q: int, p: ResourceProperties, t: IntType)
    requires t.Contains(q)
    ensures MaskStage(ShiftStage(q, p, false, t), p, t) == Encode(q, p, t)
  {
    ShiftStageIs(q, p, false, t);
    ShiftInRange(q, -ShiftOf(p), t);
    MaskStageIs(TransformShift(q, -ShiftOf(p), t), p, t);
  }

  // The linear part of a reading gives x back exactly from the quotient.
  lemma LinearPart(x: int, o: int, k: int, raw: int, t: IntType)
    requires k != 0 && Divides(k, x - o) && t.Contains(x) && t.Contains(x - o)
    ensures (t.Contains(Product(raw, k)) && Product(raw, k) + o == x) <==> raw == TruncDiv(x - o, k)
  {
    var q := TruncDiv(x - o, k);
    DividesQuotient(k, x - o);
    if raw != q { ProductInjective(raw, q, k); }
  }

  lemma SurvivesIff(q: int, p: ResourceProperties, t: IntType)
    requires t.Contains(q)
    ensures t.Contains(Encode(q, p, t))
    ensures Decode(Encode(q, p, t), p, t) == q <==> Survives(q, p, t)
  {
    MaskedBits(TransformShift(q, -ShiftOf(p), t), MaskOf(p, t), t);
    if ShiftOf(p) >= 0 { SurvivesLeft(q, p, t); } else { SurvivesRight(q, p, t); }
  }

  lemma WriteThenReadExact(x: int, p: ResourceProperties, t: IntType)
    requires ScaleOf(p) != 0 && t.Contains(x) && WriteExact(x, p, t).Number?
    ensures t.Contains(WriteExact(x, p, t).n)
    ensures ReadExact(WriteExact(x, p, t).n, p, t) == Number(x) <==> Survives(Quotient(x, p), p, t)
  {
    var q := Quotient(x, p);
    SurvivesIff(q, p, t);
    LinearPart(x, OffsetOf(p), ScaleOf(p), Decode(Encode(q, p, t), p, t), t);
  }

  // Reading undoes writing exactly when the descaled value survives its bit
  // field.
  lemma WriteThenRead(a: Arithmetic, x: int, p: ResourceProperties, t: IntType)
    requires Exact(a, p, t) && t.Contains(x) && WriteValue(a, x, p, t).Number?
    ensures ScaleOf(p) != 0
    ensures ReadValue(a, WriteValue(a, x, p, t).n, p, t) == Number(x) <==> Survives(Quotient(x, p), p, t)
  {
    WriteOutcome(a, x, p, t);
    WriteThenReadExact(x, p, t);
    ReadOutcome(a, WriteExact(x, p, t).n, p, t);
  }

  lemma ProductInjective(x: int, y: int, k: int)
    requires k != 0 && x != y
    ensures Product(x, k) != Product(y, k)
  {
  }

  // The device value that reading and writing back settle on.
  function Settled(v: int, p: ResourceProperties, t: IntType): int
    requires ShiftOf(p) >= 0
  {
    Truncate(ClearLow(Masked(v, MaskOf(p, t), t), ShiftOf(p)), t)
  }

  // A reading is accepted back: its linear part gives the raw value again.
  lemma AcceptsReading(raw: int, p: ResourceProperties, t: IntType)
    requires ScaleOf(p) != 0 && t.Contains(raw) && t.Contains(Product(raw, ScaleOf(p)))
    ensures var x := Product(raw, ScaleOf(p)) + OffsetOf(p);
      Accepts(x, p, t) && Quotient(x, p) == raw
  {
    DividesProduct(Product(raw, ScaleOf(p)), raw, ScaleOf(p));
  }

  lemma EncodeDecode(v: int, p: ResourceProperties, t: IntType)
    requires t.Contains(v) && ShiftOf(p) >= 0
    ensures t.Contains(Decode(v, p, t))
    ensures Encode(Decode(v, p, t), p, t) == Settled(v, p, t)
  {
    var m, n := MaskOf(p, t), ShiftOf(p);
    MaskedBits(v, m, t);
    ShiftInRange(Masked(v, m, t), n, t);
    ShiftRightExact(Masked(v, m, t), n, t);
    MaskKeepsCleared(v, n, m, t);
  }

  // Writing a reading back never fails, and leaves the device value masked,
  // with the bits that the shift drops cleared.
  lemma ReadThenWrite(a: Arithmetic, v: int, p: ResourceProperties, t: IntType)
    requires Exact(a, p, t) && t.Contains(v) && ShiftOf(p) >= 0
    requires ReadValue(a, v, p, t).Number? && WithinLimits(ReadValue(a, v, p, t).n, p)
    ensures WriteValue(a, ReadValue(a, v, p, t).n, p, t) == Number(Settled(v, p, t))
  {
    ReadOutcome(a, v, p, t);
    ScaleNonzero(a, p);
    ReadThenWriteExact(v, p, t);
    WriteOutcome(a, ReadExact(v, p, t).n, p, t);
  }

  lemma ReadThenWriteExact(v: int, p: ResourceProperties, t: IntType)
    requires ScaleOf(p) != 0 && t.Contains(v) && ShiftOf(p) >= 0
    requires ReadExact(v, p, t).Number? && WithinLimits(ReadExact(v, p, t).n, p)
    ensures WriteExact(ReadExact(v, p, t).n, p, t) == Number(Settled(v, p, t))
  {
    EncodeDecode(v, p, t);
    AcceptsReading(Decode(v, p, t), p, t);
  }

  // Clearing low bits of a masked value brings no bit back under the mask.
  lemma MaskKeepsCleared(v: int, n: nat, m: nat, t: IntType)
    requires m < Pow2(t.width)
    ensures var c := ClearLow(Masked(v, m, t), n);
      Masked(Truncate(c, t), m, t) == Truncate(c, t)
  {
    var w, y, u := t.width, Masked(v, m, t), And(v, m);
    var c := ClearLow(y, n);
    MaskedBits(v, m, t);
    ClearLowSameLow(y, u, n, w);
    TruncateBits(c, t);
    SameLowTransitive(Truncate(c, t), c, ClearLow(u, n), w);
    AndSameLow(Truncate(c, t), ClearLow(u, n), m, w);
    AndClearLow(u, m, n);
    AndIdempotent(v, m);
    MaskedBits(Truncate(c, t), m, t);
    SameLowSymmetric(Truncate(c, t), ClearLow(u, n), w);
    SameLowTransitive(Masked(Truncate(c, t), m, t), ClearLow(u, n), Truncate(c, t), w);
    SameBitsInRange(Masked(Truncate(c, t), m, t), Truncate(c, t), t);
  }

  // With the shift inside the type nothing is truncated, and settling twice is
  // settling once.
  lemma SettledExact(v: int, p: ResourceProperties, t: IntType)
    requires t.Contains(v) && 0 <= ShiftOf(p) < t.width
    ensures Settled(v, p, t) == ClearLow(Masked(v, MaskOf(p, t), t), ShiftOf(p))
  {
    var y := Masked(v, MaskOf(p, t), t);
    MaskedBits(v, MaskOf(p, t), t);
    ClearLowBetween(y, ShiftOf(p), t.width - 1);
    TruncateIdentity(ClearLow(y, ShiftOf(p)), t);
  }

  lemma SettledIdempotent(v: int, p: ResourceProperties, t: IntType)
    requires t.Contains(v) && ShiftOf(p) >= 0
    ensures t.Contains(Settled(v, p, t)) && Settled(Settled(v, p, t), p, t) == Settled(v, p, t)
  {
    var m, n, w := MaskOf(p, t), ShiftOf(p), t.width;
    var y := Masked(v, m, t);
    var c := ClearLow(y, n);
    TruncateBits(c, t);
    MaskKeepsCleared(v, n, m, t);
    // Clearing again: the truncation of a cleared number has the bits of one.
    ClearLowSameLow(Truncate(c, t), c, n, w);
    ClearLowIdempotent(y, n);
    SameLowSymmetric(Truncate(c, t), c, w);
    SameLowTransitive(ClearLow(Truncate(c, t), n), c, Truncate(c, t), w);
    RepresentsIff(ClearLow(Truncate(c, t), n), Truncate(c, t), t);
  }

  // A shift of the whole width or more leaves only the sign of the masked
  // value to read, and nothing to write.
  lemma ShiftedOut(v: int, p: ResourceProperties, t: IntType)
    requires t.Contains(v) && ShiftOf(p) >= t.width
    ensures Settled(v, p, t) == 0
    ensures Decode(v, p, t) == if Masked(v, MaskOf(p, t), t) >= 0 then 0 else -1
  {
    var n, w, y := ShiftOf(p), t.width, Masked(v, MaskOf(p, t), t);
    MaskedBits(v, MaskOf(p, t), t);
    Pow2Monotone(w, n);
    Pow2Monotone(t.width - 1, n);
    ShiftRightSign(y, n);
    ShiftRightExact(y, n, t);
    var c := ShiftLeft(ShiftRight(y, n), n);
    ShiftLeftLowZero(ShiftRight(y, n), n);
    SameLowFewer(c, 0, n, w);
    SameLowSymmetric(c, 0, w);
    TruncateBits(c, t);
    SameLowTransitive(Truncate(c, t), c, 0, w);
    SameBitsInRange(Truncate(c, t), 0, t);
  }

  lemma ZeroDecodes(p: ResourceProperties, t: IntType)
    requires ShiftOf(p) >= 0
    ensures t.Contains(0) && Masked(0, MaskOf(p, t), t) == 0 && Decode(0, p, t) == 0
  {
    var m := MaskOf(p, t);
    AndZero(m);
    MaskedBits(0, m, t);
    SameBitsInRange(Masked(0, m, t), 0, t);
    ShiftRightExact(0, ShiftOf(p), t);
    ShiftRightBetween(0, 0, 0, ShiftOf(p));
  }

  lemma {:induction false} AndZero(m: nat)
    ensures And(0, m) == 0
  {
    if m > 0 { AndZero(m / 2); }
  }

  // The sign bit is read through the shift, or there is none to lose.
  predicate SignKept(v: int, p: ResourceProperties, t: IntType) {
    ShiftOf(p) < t.width || Masked(v, MaskOf(p, t), t) >= 0
  }

  lemma DecodeSettled(v: int, p: ResourceProperties, t: IntType)
    requires t.Contains(v) && ShiftOf(p) >= 0
    ensures t.Contains(Settled(v, p, t))
    ensures Decode(Settled(v, p, t), p, t) == if SignKept(v, p, t) then Decode(v, p, t) else 0
    ensures !SignKept(v, p, t) ==> Decode(v, p, t) == -1 && Settled(v, p, t) == 0
  {
    SettledIdempotent(v, p, t);
    if ShiftOf(p) < t.width {
      DecodeSettledInside(v, p, t);
    } else {
      ShiftedOut(v, p, t);
      ZeroDecodes(p, t);
    }
  }

  lemma DecodeSettledInside(v: int, p: ResourceProperties, t: IntType)
    requires t.Contains(v) && 0 <= ShiftOf(p) < t.width
    ensures Decode(Settled(v, p, t), p, t) == Decode(v, p, t)
  {
    var m, n := MaskOf(p, t), ShiftOf(p);
    var y := Masked(v, m, t);
    SettledIdempotent(v, p, t);
    SettledExact(v, p, t);
    MaskKeepsCleared(v, n, m, t);
    MaskedBits(v, m, t);
    ShiftRightExact(y, n, t);
    ShiftRightExact(ClearLow(y, n), n, t);
    ShiftLeftThenRight(ShiftRight(y, n), n);
  }

  // The settled value reads the same as the original exactly when no sign bit
  // is lost: for every shift, when the original can be read at all.
  lemma SettledReadsSame(a: Arithmetic, v: int, p: ResourceProperties, t: IntType)
    requires Exact(a, p, t) && t.Contains(v) && ShiftOf(p) >= 0
    ensures t.Contains(Settled(v, p, t))
    ensures SignKept(v, p, t) ==> ReadValue(a, Settled(v, p, t), p, t) == ReadValue(a, v, p, t)
    ensures ReadValue(a, v, p, t).Number? ==>
      (ReadValue(a, Settled(v, p, t), p, t) == ReadValue(a, v, p, t) <==> SignKept(v, p, t))
  {
    DecodeSettled(v, p, t);
    ReadOutcome(a, v, p, t);
    ReadOutcome(a, Settled(v, p, t), p, t);
    if !SignKept(v, p, t) {
      ScaleNonzero(a, p);
      ProductInjective(-1, 0, ScaleOf(p));
    }
  }

  // When the sign is lost, the settled value is zero and reads as the offset,
  // which has to fit the type and the limits to be written back.
  predicate WritesBackAgain(v: int, p: ResourceProperties, t: IntType) {
    SignKept(v, p, t) || (t.Contains(OffsetOf(p)) && WithinLimits(OffsetOf(p), p))
  }

  // Reading and writing back twice is doing it once, exactly when the settled
  // value can still be read and written back: always when no sign is lost.
  lemma WriteBackTwice(a: Arithmetic, v: int, p: ResourceProperties, t: IntType)
    requires Exact(a, p, t) && t.Contains(v) && ShiftOf(p) >= 0
    requires ReadValue(a, v, p, t).Number? && WithinLimits(ReadValue(a, v, p, t).n, p)
    ensures var u := Settled(v, p, t);
      var again := ReadValue(a, u, p, t);
      && WriteValue(a, ReadValue(a, v, p, t).n, p, t) == Number(u)
      && (again == ReadValue(a, v, p, t) <==> SignKept(v, p, t))
      && (again.Number? && WriteValue(a, again.n, p, t) == Number(u) <==> WritesBackAgain(v, p, t))
  {
    var u := Settled(v, p, t);
    ReadThenWrite(a, v, p, t);
    SettledReadsSame(a, v, p, t);
    if !SignKept(v, p, t) {
      DecodeSettled(v, p, t);
      ReadOutcome(a, u, p, t);
      NothingScaled(ScaleOf(p));
    }
    var again := ReadValue(a, u, p, t);
    if again.Number? {
      SettledIdempotent(v, p, t);
      if WithinLimits(again.n, p) {
        ReadThenWrite(a, u, p, t);
      } else {
        Refused(a, again.n, p, t);
      }
    }
  }

  lemma NothingScaled(k: int)
    ensures Product(0, k) == 0
  {
  }

  lemma Refused(a: Arithmetic, x: int, p: ResourceProperties, t: IntType)
    requires !WithinLimits(x, p)
    ensures WriteValue(a, x, p, t) == Rejected
  {
  }
}
