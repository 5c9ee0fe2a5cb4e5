// transformresult.py, transformparam.py and transformvaluechecker.py for the
// integer value types.
module Transform {
  import opened Wrappers
  import opened Bits
  import opened IntTypes
  import opened Models

  // What the float library gives back: a finite float, an infinity or NaN, or a
  // Python exception.
  datatype FloatResult = Finite(f: real) | NotFinite | Failed

  // Double-precision arithmetic: `round` rounds an exact result to a float,
  // `power(b, x)` is `math.pow(b, x)` and `logarithm(x, b)` is
  // `math.log(x) / math.log(b)`. `limit` is the largest finite float.
  datatype Arithmetic = Arithmetic(
    round: real -> real,
    limit: real,
    power: (real, real) -> FloatResult,
    logarithm: (real, real) -> FloatResult)

  function Round(a: Arithmetic, x: real): real { a.round(x) }

  function Power(a: Arithmetic, base: real, x: real): FloatResult { a.power(base, x) }

  function Logarithm(a: Arithmetic, x: real, base: real): FloatResult { a.logarithm(x, base) }

  // Overflow is `OverflowTransformerError`, Rejected is `WriteParameterError`
  // and Raised is any exception outside the `TransformerError` family, such as
  // `ZeroDivisionError`.
  datatype Outcome = Number(n: int) | Overflow | Rejected | Raised {
    predicate IsFailure() { !Number? }
    function PropagateFailure(): Outcome requires IsFailure() { this }
    function Extract(): int requires !IsFailure() { n }
  }

  // `int(x)` and `math.trunc(x)`
  function Trunc(x: real): int {
    if x >= 0.0 then x.Floor else -((-x).Floor)
  }

  predicate Integral(x: real) {
    Trunc(x) as real == x
  }

  // `_trunc_div`
  function TruncDiv(a: int, b: int): int
    requires b != 0
  {
    var q := (if a >= 0 then a else -a) / (if b >= 0 then b else -b);
    if (a >= 0) == (b >= 0) then q else -q
  }

  // The upper bounds of the 64-bit types are rounded up to a power of two.
  function FloatMax(t: IntType): int {
    if t.Small() then t.Max() else t.Max() + 1
  }

  // `check_transformed_value_in_range`
  predicate InFloatRange(f: real, t: IntType) {
    t.Min() as real <= f <= FloatMax(t) as real && Integral(f)
  }

  function ToFloat(a: Arithmetic, v: int): real {
    Round(a, v as real)
  }

  function TransformMask(v: int, mask: int, t: IntType): int {
    Interpret(And(v, And(mask, Pow2(t.width) - 1)), t)
  }

  function TransformShift(v: int, shift: int, t: IntType): int {
    if shift > 0 then Truncate(ShiftRight(v, shift), t) else Truncate(ShiftLeft(v, -shift), t)
  }

  // Products under a name of their own, so that proofs treat them as one term.
  function Product(x: int, y: int): int { x * y }

  function RealProduct(x: real, y: real): real { x * y }

  function RealQuotient(x: real, y: real): real
    requires y != 0.0
  {
    x / y
  }

  predicate Divides(k: int, v: int)
    requires k != 0
  {
    v % k == 0
  }

  // `_check_in_range` on the float result, then the truncated integer result.
  function Checked(f: real, n: int, t: IntType): Outcome {
    if InFloatRange(f, t) then Number(Truncate(n, t)) else Overflow
  }

  function TransformBase(a: Arithmetic, v: int, base: real, read: bool, t: IntType): Outcome {
    match if read then Power(a, base, ToFloat(a, v)) else Logarithm(a, ToFloat(a, v), base)
    case Failed => Raised
    case NotFinite => Overflow
    case Finite(f) => Checked(f, Trunc(f), t)
  }

  // A scale below one in magnitude truncates to zero: reading then gives zero,
  // and writing overflows even when the check passes.
  function TransformScale(a: Arithmetic, v: int, scale: real, read: bool, t: IntType): Outcome {
    var k := Trunc(scale);
    if read then Checked(Round(a, RealProduct(ToFloat(a, v), scale)), Product(v, k), t)
    else if scale == 0.0 then Raised
    else if k == 0 then Overflow
    else Checked(Round(a, RealQuotient(ToFloat(a, v), scale)), TruncDiv(v, k), t)
  }

  function TransformOffset(a: Arithmetic, v: int, offset: real, read: bool, t: IntType): Outcome {
    var o := Trunc(offset);
    if read then Checked(Round(a, ToFloat(a, v) + offset), v + o, t)
    else Checked(Round(a, ToFloat(a, v) - offset), v - o, t)
  }

  // The stages: a missing property and one with the default value are skipped.
  function MaskStage(v: int, p: ResourceProperties, t: IntType): int {
    if p.mask.Some? && p.mask.value != 0 then TransformMask(v, p.mask.value, t) else v
  }

  function ShiftStage(v: int, p: ResourceProperties, read: bool, t: IntType): int {
    if p.shift.Some? && p.shift.value != 0
    then TransformShift(v, if read then p.shift.value else -p.shift.value, t) else v
  }

  function BaseStage(a: Arithmetic, v: int, p: ResourceProperties, read: bool, t: IntType): Outcome {
    if p.base.Some? && p.base.value != 0.0 then TransformBase(a, v, p.base.value, read, t) else Number(v)
  }

  function ScaleStage(a: Arithmetic, v: int, p: ResourceProperties, read: bool, t: IntType): Outcome {
    if p.scale.Some? && p.scale.value != 1.0 then TransformScale(a, v, p.scale.value, read, t) else Number(v)
  }

  function OffsetStage(a: Arithmetic, v: int, p: ResourceProperties, read: bool, t: IntType): Outcome {
    if p.offset.Some? && p.offset.value != 0.0 then TransformOffset(a, v, p.offset.value, read, t) else Number(v)
  }

  // `validate_write_maximum` and `validate_write_minimum`
  predicate WithinLimits(v: int, p: ResourceProperties) {
    (p.maximum.Some? ==> v <= Trunc(p.maximum.value)) && (p.minimum.Some? ==> v >= Trunc(p.minimum.value))
  }

  // Mask, Shift, Base, Scale, Offset
  function ReadValue(a: Arithmetic, v: int, p: ResourceProperties, t: IntType): Outcome {
    var raw := ShiftStage(MaskStage(v, p, t), p, true, t);
    var based :- BaseStage(a, raw, p, true, t);
    var scaled :- ScaleStage(a, based, p, true, t);
    OffsetStage(a, scaled, p, true, t)
  }

  // Limits, Offset, Scale, Base, Shift, Mask
  function WriteValue(a: Arithmetic, v: int, p: ResourceProperties, t: IntType): Outcome {
    if !WithinLimits(v, p) then Rejected
    else
      var shifted :- OffsetStage(a, v, p, false, t);
      var scaled :- ScaleStage(a, shifted, p, false, t);
      var based :- BaseStage(a, scaled, p, false, t);
      Number(MaskStage(ShiftStage(based, p, false, t), p, t))
  }

  // A value handed to a ProtocolDriver or returned by one.
  class CommandValue {
    const deviceResourceName: string
    const valueType: ValueType
    var value: Value

    constructor (name: string, valueType: ValueType, value: Value)
      ensures deviceResourceName == name && this.valueType == valueType && this.value == value
    {
      deviceResourceName, this.valueType, this.value := name, valueType, value;
    }
  }

  // None and the values of other types are left untouched.
  predicate Transformable(valueType: ValueType, value: Value) {
    valueType.Integer? && value.Int?
  }

  // The value a transformation leaves in the CommandValue and the exception it
  // raises: a failing transformation leaves the value as it was.
  function Effect(value: Value, outcome: Outcome): (Value, Option<Outcome>) {
    if outcome.Number? then (Int(outcome.n), None) else (value, Some(outcome))
  }

  function ReadEffect(a: Arithmetic, valueType: ValueType, value: Value, p: ResourceProperties):
    (Value, Option<Outcome>)
  {
    if Transformable(valueType, value)
    then Effect(value, ReadValue(a, value.n, p, valueType.t)) else (value, None)
  }

  function WriteEffect(a: Arithmetic, valueType: ValueType, value: Value, p: ResourceProperties):
    (Value, Option<Outcome>)
  {
    if Transformable(valueType, value)
    then Effect(value, WriteValue(a, value.n, p, valueType.t)) else (value, None)
  }

  method TransformReadResult(a: Arithmetic, cv: CommandValue, p: ResourceProperties)
    returns (raised: Option<Outcome>)
    modifies cv
    ensures (cv.value, raised) == ReadEffect(a, cv.valueType, old(cv.value), p)
  {
    if !Transformable(cv.valueType, cv.value) { return None; }
    var value, t := cv.value.n, cv.valueType.t;
    var newValue, outcome := value, Number(value);
    newValue := MaskStage(newValue, p, t);
    newValue := ShiftStage(newValue, p, true, t);
    outcome := BaseStage(a, newValue, p, true, t);
    if !outcome.Number? { return Some(outcome); }
    newValue := outcome.n;
    outcome := ScaleStage(a, newValue, p, true, t);
    if !outcome.Number? { return Some(outcome); }
    newValue := outcome.n;
    outcome := OffsetStage(a, newValue, p, true, t);
    if !outcome.Number? { return Some(outcome); }
    newValue := outcome.n;
    if value != newValue {
      cv.value := Int(newValue);
    }
    return None;
  }

  method TransformWriteParameter(a: Arithmetic, cv: CommandValue, p: ResourceProperties)
    returns (raised: Option<Outcome>)
    modifies cv
    ensures (cv.value, raised) == WriteEffect(a, cv.valueType, old(cv.value), p)
  {
    if !Transformable(cv.valueType, cv.value) { return None; }
    var value, t := cv.value.n, cv.valueType.t;
    var newValue, outcome := value, Number(value);
    if p.maximum.Some? && value > Trunc(p.maximum.value) { return Some(Rejected); }
    if p.minimum.Some? && value < Trunc(p.minimum.value) { return Some(Rejected); }
    outcome := OffsetStage(a, newValue, p, false, t);
    if !outcome.Number? { return Some(outcome); }
    newValue := outcome.n;
    outcome := ScaleStage(a, newValue, p, false, t);
    if !outcome.Number? { return Some(outcome); }
    newValue := outcome.n;
    outcome := BaseStage(a, newValue, p, false, t);
    if !outcome.Number? { return Some(outcome); }
    newValue := outcome.n;
    newValue := ShiftStage(newValue, p, false, t);
    newValue := MaskStage(newValue, p, t);
    if value != newValue {
      cv.value := Int(newValue);
    }
    return None;
  }
}
