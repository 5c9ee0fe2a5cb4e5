// Fixed-width integer types and the two's-complement truncation with which the
// transformations emulate Go's conversions. The eight value types are instances;
// the laws hold for every width.
module IntTypes {
  import opened Bits

  type Positive = n: nat | n > 0 witness 1

  datatype IntType = IntType(signed: bool, width: Positive) {

    // The types narrow enough for float64 to hold every value exactly.
    predicate Small() {
      width <= 32
    }

    function Min(): int {
      if signed then 0 - Pow2(width - 1) else 0
    }

    function Max(): int {
      if signed then Pow2(width - 1) - 1 else Pow2(width) - 1
    }

    predicate Contains(x: int) {
      Min() <= x <= Max()
    }
  }

  const UINT8 := IntType(false, 8)
  const UINT16 := IntType(false, 16)
  const UINT32 := IntType(false, 32)
  const UINT64 := IntType(false, 64)
  const INT8 := IntType(true, 8)
  const INT16 := IntType(true, 16)
  const INT32 := IntType(true, 32)
  const INT64 := IntType(true, 64)

  // `_to_signed`
  function ToSigned(x: int, bits: nat): int
    requires bits > 0
  {
    if And(x, Pow2(bits - 1)) != 0 then x - Pow2(bits) else x
  }

  // The sign interpretation of an already masked bit pattern.
  function Interpret(pattern: int, t: IntType): int {
    if t.signed then ToSigned(pattern, t.width) else pattern
  }

  // `_truncate_int`
  function Truncate(x: int, t: IntType): int {
    Interpret(And(x, Pow2(t.width) - 1), t)
  }

  lemma ToSignedBits(x: int, bits: nat)
    requires bits > 0 && 0 <= x < Pow2(bits)
    ensures 0 - Pow2(bits - 1) <= ToSigned(x, bits) < Pow2(bits - 1)
    ensures SameLow(ToSigned(x, bits), x, bits)
  {
    AndTopBit(x, bits - 1);
    SameLowReflexive(x, bits);
    SameLowMinusPow2(x, bits);
  }

  // Interpreting a pattern of the type's width gives the value of the type
  // that has the pattern's bits.
  lemma InterpretPattern(p: int, t: IntType)
    requires 0 <= p < Pow2(t.width)
    ensures t.Contains(Interpret(p, t))
    ensures SameLow(Interpret(p, t), p, t.width)
  {
    if t.signed { ToSignedBits(p, t.width); } else { SameLowReflexive(p, t.width); }
  }

  // Two values of a type with the same bits are equal.
  lemma SameBitsInRange(x: int, y: int, t: IntType)
    requires t.Contains(x) && t.Contains(y) && SameLow(x, y, t.width)
    ensures x == y
  {
    SameLowNear(x, y, t.width);
  }

  // Truncation is the one value of the type with the low bits of x.
  lemma TruncateBits(x: int, t: IntType)
    ensures t.Contains(Truncate(x, t)) && SameLow(Truncate(x, t), x, t.width)
    ensures forall r :: t.Contains(r) && SameLow(r, x, t.width) ==> r == Truncate(x, t)
  {
    var w := t.width;
    AndOnes(x, w);
    InterpretPattern(And(x, Pow2(w) - 1), t);
    SameLowTransitive(Truncate(x, t), And(x, Pow2(w) - 1), x, w);
    forall r | t.Contains(r) && SameLow(r, x, w) ensures r == Truncate(x, t) {
      SameLowTransitive(r, x, Truncate(x, t), w) by { SameLowSymmetric(Truncate(x, t), x, w); }
      SameBitsInRange(r, Truncate(x, t), t);
    }
  }

  // The same, in arithmetic: the unique representative of x modulo 2^width.
  lemma TruncateIsRepresentative(x: int, t: IntType, r: int)
    ensures r == Truncate(x, t) <==> t.Contains(r) && exists k :: r - x == k * Pow2(t.width)
  {
    TruncateBits(x, t);
    if r == Truncate(x, t) {
      var k := SameLowMultiple(r, x, t.width);
    }
    if k :| t.Contains(r) && r - x == k * Pow2(t.width) {
      MultipleSameLow(r, x, t.width, k);
    }
  }

  lemma TruncateIdentity(x: int, t: IntType)
    requires t.Contains(x)
    ensures Truncate(x, t) == x
  {
    SameLowReflexive(x, t.width);
    TruncateBits(x, t);
  }
}
