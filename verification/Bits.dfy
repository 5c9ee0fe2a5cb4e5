// Python's bit operations on unbounded integers, read as infinite
// two's-complement bit strings. Everything here recurses on the low bit, so the
// laws are proved by halving and no proof multiplies two variables.
module Bits {

  function Pow2(n: nat): (p: int)
    ensures p >= 1
  {
    if n == 0 then 1 else 2 * Pow2(n - 1)
  }

  // `x & m` for a mask that is not negative.
  function And(x: int, m: nat): (r: nat)
    ensures r <= m
    decreases m, x
  {
    if m == 0 then 0
    else 2 * And(x / 2, m / 2) + (if x % 2 == 1 && m % 2 == 1 then 1 else 0)
  }

  lemma AndStep(x: int, m: nat)
    ensures m == 0 ==> And(x, m) == 0
    ensures m > 0 ==> And(x, m) / 2 == And(x / 2, m / 2)
    ensures m > 0 ==> And(x, m) % 2 == if x % 2 == 1 && m % 2 == 1 then 1 else 0
  {
  }

  lemma {:induction false} Pow2Monotone(k: nat, n: nat)
    requires k <= n
    ensures Pow2(k) <= Pow2(n)
  {
    if k < n { Pow2Monotone(k, n - 1); }
  }

  // `x << n`
  function ShiftLeft(x: int, n: nat): int {
    if n == 0 then x else 2 * ShiftLeft(x, n - 1)
  }

  // `x >> n`
  function ShiftRight(x: int, n: nat): int
    decreases n, x
  {
    if n == 0 then x else ShiftRight(x / 2, n - 1)
  }

  lemma ShiftStep(x: int, n: nat)
    ensures ShiftLeft(x, n) == if n == 0 then x else 2 * ShiftLeft(x, n - 1)
    ensures ShiftRight(x, n) == if n == 0 then x else ShiftRight(x / 2, n - 1)
  {
  }

  // x with its low n bits cleared.
  function ClearLow(x: int, n: nat): int {
    ShiftLeft(ShiftRight(x, n), n)
  }

  // x and y have the same low n bits.
  predicate SameLow(x: int, y: int, n: nat)
    decreases n, x, y
  {
    n == 0 || (x % 2 == y % 2 && SameLow(x / 2, y / 2, n - 1))
  }

  lemma SameLowStep(x: int, y: int, n: nat)
    ensures SameLow(x, y, n) <==> n == 0 || (x % 2 == y % 2 && SameLow(x / 2, y / 2, n - 1))
  {
  }

  lemma {:induction false} SameLowReflexive(x: int, n: nat)
    ensures SameLow(x, x, n)
    decreases n
  {
    if n > 0 { SameLowReflexive(x / 2, n - 1); }
  }

  lemma {:induction false} SameLowTransitive(x: int, y: int, z: int, n: nat)
    requires SameLow(x, y, n) && SameLow(y, z, n)
    ensures SameLow(x, z, n) && SameLow(z, x, n)
    decreases n
  {
    if n > 0 { SameLowTransitive(x / 2, y / 2, z / 2, n - 1); }
  }

  lemma SameLowSymmetric(x: int, y: int, n: nat)
    requires SameLow(x, y, n)
    ensures SameLow(y, x, n)
  {
    SameLowReflexive(y, n);
    SameLowTransitive(x, y, y, n);
  }

  lemma {:induction false} SameLowFewer(x: int, y: int, n: nat, k: nat)
    requires SameLow(x, y, n) && k <= n
    ensures SameLow(x, y, k)
    decreases k
  {
    if k > 0 { SameLowFewer(x / 2, y / 2, n - 1, k - 1); }
  }

  // Less than 2^n apart, the low n bits decide.
  lemma {:induction false} SameLowNear(x: int, y: int, n: nat)
    requires SameLow(x, y, n) && -Pow2(n) < x - y < Pow2(n)
    ensures x == y
    decreases n
  {
    if n > 0 { SameLowNear(x / 2, y / 2, n - 1); }
  }

  lemma {:induction false} SameLowMinusPow2(x: int, n: nat)
    ensures SameLow(x - Pow2(n), x, n)
    decreases n
  {
    if n > 0 {
      assert (x - Pow2(n)) / 2 == x / 2 - Pow2(n - 1);
      SameLowMinusPow2(x / 2, n - 1);
    }
  }

  // `And` looks at no bit at or above the mask's length.
  lemma {:induction false} AndSameLow(x: int, y: int, m: nat, n: nat)
    requires SameLow(x, y, n) && m < Pow2(n)
    ensures And(x, m) == And(y, m)
    decreases n
  {
    if m != 0 { AndSameLow(x / 2, y / 2, m / 2, n - 1); }
  }

  lemma {:induction false} AndIdempotent(x: int, m: nat)
    ensures And(And(x, m), m) == And(x, m)
    decreases m
  {
    if m != 0 { AndIdempotent(x / 2, m / 2); }
  }

  // A mask of n ones keeps exactly the low n bits.
  lemma {:induction false} AndOnes(x: int, n: nat)
    ensures SameLow(And(x, Pow2(n) - 1), x, n)
    decreases n
  {
    if n > 0 {
      assert (Pow2(n) - 1) / 2 == Pow2(n - 1) - 1;
      AndOnes(x / 2, n - 1);
    }
  }

  // A one-bit mask tests the top bit of a number of n+1 bits.
  lemma {:induction false} AndTopBit(x: int, n: nat)
    requires 0 <= x < Pow2(n + 1)
    ensures And(x, Pow2(n)) == if x >= Pow2(n) then Pow2(n) else 0
    decreases n
  {
    if n > 0 { AndTopBit(x / 2, n - 1); }
    else { assert Pow2(1) == 2; }
  }

  lemma {:induction false} ShiftLeftThenRight(x: int, n: nat)
    ensures ShiftRight(ShiftLeft(x, n), n) == x
  {
    if n > 0 { ShiftLeftThenRight(x, n - 1); }
  }

  lemma {:induction false} ShiftRightBetween(x: int, low: int, high: int, n: nat)
    requires low <= x <= high && low <= 0 <= high
    ensures low <= ShiftRight(x, n) <= high
    decreases n
  {
    if n > 0 { ShiftRightBetween(x / 2, low, high, n - 1); }
  }

  // A number of n bits and a sign is shifted out but for its sign.
  lemma {:induction false} ShiftRightSign(x: int, n: nat)
    requires -Pow2(n) <= x < Pow2(n)
    ensures ShiftRight(x, n) == if x >= 0 then 0 else -1
    decreases n
  {
    if n > 0 { ShiftRightSign(x / 2, n - 1); }
  }

  lemma {:induction false} ShiftLeftZero(n: nat)
    ensures ShiftLeft(0, n) == 0
  {
    if n > 0 { ShiftLeftZero(n - 1); }
  }

  lemma {:induction false} ShiftLeftLowZero(x: int, n: nat)
    ensures SameLow(ShiftLeft(x, n), 0, n)
  {
    if n > 0 { ShiftLeftLowZero(x, n - 1); }
  }

  lemma {:induction false} AndLowZero(x: int, m: nat, n: nat)
    requires SameLow(x, 0, n)
    ensures SameLow(And(x, m), 0, n)
    decreases n
  {
    hide And, SameLow;
    AndStep(x, m);
    SameLowStep(x, 0, n);
    SameLowStep(And(x, m), 0, n);
    if m == 0 { SameLowReflexive(0, n); }
    else if n > 0 { AndLowZero(x / 2, m / 2, n - 1); }
  }

  // Clearing low bits that are already zero changes nothing.
  lemma {:induction false} ClearLowOfLowZero(x: int, n: nat)
    requires SameLow(x, 0, n)
    ensures ClearLow(x, n) == x
    decreases n
  {
    if n > 0 { ClearLowOfLowZero(x / 2, n - 1); }
  }

  // Clearing the low n bits works on the half with n - 1.
  lemma Doubled(x: int, n: nat)
    requires n > 0
    ensures ClearLow(x, n) == 2 * ClearLow(x / 2, n - 1)
  {
  }

  lemma ClearNone(x: int)
    ensures ClearLow(x, 0) == x
  {
  }

  lemma {:induction false} ClearLowSameLow(x: int, y: int, n: nat, b: nat)
    requires SameLow(x, y, b)
    ensures SameLow(ClearLow(x, n), ClearLow(y, n), b)
    decreases n
  {
    hide ClearLow, SameLow;
    SameLowStep(x, y, b);
    SameLowStep(ClearLow(x, n), ClearLow(y, n), b);
    if n == 0 {
      ClearNone(x);
      ClearNone(y);
    } else if b > 0 {
      ClearLowSameLow(x / 2, y / 2, n - 1, b - 1);
      Doubled(x, n);
      Doubled(y, n);
    }
  }

  // Clearing fewer than b+1 low bits does not cross below -2^b.
  lemma {:induction false} ClearLowBetween(x: int, n: nat, b: nat)
    requires n <= b
    ensures ClearLow(x, n) <= x
    ensures x >= 0 ==> ClearLow(x, n) >= 0
    ensures x >= -Pow2(b) ==> ClearLow(x, n) >= -Pow2(b)
    decreases n
  {
    if n > 0 { ClearLowBetween(x / 2, n - 1, b - 1); }
  }

  lemma {:induction false} ClearLowIdempotent(x: int, n: nat)
    ensures ClearLow(ClearLow(x, n), n) == ClearLow(x, n)
  {
    ShiftLeftThenRight(ShiftRight(x, n), n);
  }

  lemma {:induction false} ClearLowZero(n: nat)
    ensures ClearLow(0, n) == 0
  {
    if n > 0 { ClearLowZero(n - 1); }
  }

  // Masking commutes with clearing low bits.
  lemma {:induction false} AndClearLow(x: int, m: nat, n: nat)
    ensures And(ClearLow(x, n), m) == ClearLow(And(x, m), n)
    decreases n
  {
    if m == 0 { ClearLowZero(n); }
    else if n > 0 { AndClearLow(x / 2, m / 2, n - 1); }
  }

  // What the recursive definitions mean in arithmetic.
  lemma {:induction false} ShiftLeftIsProduct(x: int, n: nat)
    ensures ShiftLeft(x, n) == x * Pow2(n)
  {
    if n > 0 {
      ShiftLeftIsProduct(x, n - 1);
      assert 2 * (x * Pow2(n - 1)) == x * Pow2(n);
    }
  }

  lemma {:induction false} SameLowMultiple(x: int, y: int, n: nat) returns (k: int)
    requires SameLow(x, y, n)
    ensures x - y == k * Pow2(n)
    decreases n
  {
    if n == 0 {
      k := x - y;
    } else {
      k := SameLowMultiple(x / 2, y / 2, n - 1);
      assert x - y == 2 * (x / 2 - y / 2);
      assert 2 * (k * Pow2(n - 1)) == k * Pow2(n);
    }
  }

  lemma {:induction false} MultipleSameLow(x: int, y: int, n: nat, k: int)
    requires x - y == k * Pow2(n)
    ensures SameLow(x, y, n)
    decreases n
  {
    if n > 0 {
      var half := k * Pow2(n - 1);
      assert k * Pow2(n) == 2 * half;
      assert x / 2 - y / 2 == half;
      MultipleSameLow(x / 2, y / 2, n - 1, k);
    }
  }

  // ---- Bit by bit ----

  predicate Bit(x: int, k: nat)
    decreases k, x
  {
    if k == 0 then x % 2 == 1 else Bit(x / 2, k - 1)
  }

  lemma {:induction false} BitOfZero(k: nat)
    ensures !Bit(0, k)
  {
    if k > 0 { BitOfZero(k - 1); }
  }

  // A mask keeps a bit exactly when it has it too.
  lemma {:induction false} AndBit(x: int, m: nat, k: nat)
    ensures Bit(And(x, m), k) <==> Bit(x, k) && Bit(m, k)
    decreases k
  {
    AndStep(x, m);
    if m == 0 { BitOfZero(k); }
    else if k > 0 { AndBit(x / 2, m / 2, k - 1); }
  }

  // A right shift moves every bit down.
  lemma {:induction false} ShiftRightBit(x: int, n: nat, k: nat)
    ensures Bit(ShiftRight(x, n), k) <==> Bit(x, n + k)
    decreases n
  {
    if n > 0 { ShiftRightBit(x / 2, n - 1, k); }
  }

  // A right shift is the division by the power of two, rounded down.
  lemma {:induction false} ShiftRightIsQuotient(x: int, n: nat)
    ensures 0 <= x - ShiftLeft(ShiftRight(x, n), n) < Pow2(n)
    decreases n
  {
    if n > 0 { ShiftRightIsQuotient(x / 2, n - 1); }
  }
}
