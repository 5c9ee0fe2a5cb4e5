// Exact arithmetic as an instance of the rounding laws, and inputs on which the
// transformations do not do what their callers may expect.
module TransformExamples {
  import opened Wrappers
  import opened IntTypes
  import opened Models
  import opened Transform
  import opened TransformLaws
  import opened RoundTrip

  // Arithmetic without rounding; the transcendental functions play no part.
  const EXACT := Arithmetic(x => x, TWO_53 as real, (b, x) => Failed, (x, b) => Failed)

  // The rounding laws are consistent: exact arithmetic satisfies them.
  lemma ExactSatisfiesLaws()
    ensures Faithful(EXACT) && Accurate(EXACT)
  {
  }

  // A resource of signed bytes with a shift, a scale and an offset.
  function Shifted(shift: int, scale: Option<real>, offset: Option<real>): ResourceProperties {
    ResourceProperties(Integer(INT8), ReadWrite, "", None, None, None, Some(shift), None, scale, offset, "")
  }

  lemma FullMask(v: int, p: ResourceProperties, t: IntType)
    requires t.Contains(v) && p.mask == None
    ensures Masked(v, MaskOf(p, t), t) == v
  {
    TruncateIdentity(v, t);
  }

  // Any negative value behind such a shift, by the integer semantics.
  lemma LostSign(v: int, p: ResourceProperties, t: IntType)
    requires t.Small() && t.Contains(v) && v < 0 && ShiftOf(p) >= t.width && p.mask == None && Linear(EXACT, p)
    ensures ReadValue(EXACT, v, p, t) == Linearly(-1, p, t)
    ensures ReadValue(EXACT, 0, p, t) == Linearly(0, p, t)
    ensures Linearly(-1, p, t).Number? && WithinLimits(Linearly(-1, p, t).n, p) ==>
      WriteValue(EXACT, Linearly(-1, p, t).n, p, t) == Number(0)
  {
    hide ReadValue, WriteValue, Faithful, Accurate, Linear, Masked;
    ExactSatisfiesLaws();
    FullMask(v, p, t);
    DecodeSettled(v, p, t);
    ReadOutcome(EXACT, v, p, t);
    ZeroDecodes(p, t);
    ReadOutcome(EXACT, 0, p, t);
    if Linearly(-1, p, t).Number? && WithinLimits(Linearly(-1, p, t).n, p) { ReadThenWrite(EXACT, v, p, t); }
  }

  // A right shift by the whole width reads -1 as -1, which is written back as 0,
  // which reads as 0.
  lemma LostSignReadsZero()
    ensures var p := Shifted(8, None, None);
      && ReadValue(EXACT, -1, p, INT8) == Number(-1)
      && WriteValue(EXACT, -1, p, INT8) == Number(0)
      && ReadValue(EXACT, 0, p, INT8) == Number(0)
  {
    hide ReadValue, WriteValue;
    ByteBounds();
    LostSign(-1, Shifted(8, None, None), INT8);
  }

  // With a scale of 100 and an offset of 200, -1 reads as 100, which is written
  // back as 0, which cannot be read any more.
  lemma LostSignOverflows()
    ensures var p := Shifted(8, Some(100.0), Some(200.0));
      && ReadValue(EXACT, -1, p, INT8) == Number(100)
      && WriteValue(EXACT, 100, p, INT8) == Number(0)
      && ReadValue(EXACT, 0, p, INT8) == Overflow
  {
    hide ReadValue, WriteValue;
    ByteBounds();
    LostSign(-1, Shifted(8, Some(100.0), Some(200.0)), INT8);
  }

  lemma ByteBounds()
    ensures INT8.Min() == -128 && INT8.Max() == 127
  {
  }
}
