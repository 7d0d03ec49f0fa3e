/** Go's 64-bit signed integers (`int64`, and `int` on a 64-bit platform):
    `+` and `-` wrap around in two's complement. Stock and coupon counters are
    updated with these operations. */
module GoInt {

  const MinInt64: int := -0x8000_0000_0000_0000
  const MaxInt64: int := 0x7fff_ffff_ffff_ffff
  const Modulus: int := 0x1_0000_0000_0000_0000

  type Int64 = x: int | MinInt64 <= x <= MaxInt64

  /** The int64 that a mathematical integer wraps around to: the one that
      differs from it by a whole number of 2^64 steps. */
  function Wrap(x: int): Int64
    decreases if x < MinInt64 then MinInt64 - x else if MaxInt64 < x then x - MaxInt64 else 0
  {
    if x < MinInt64 then Wrap(x + Modulus)
    else if MaxInt64 < x then Wrap(x - Modulus)
    else x
  }

  /** `a + b` on int64. */
  function Add(a: Int64, b: Int64): Int64 {
    Wrap(a + b)
  }

  /** `a - b` on int64. */
  function Sub(a: Int64, b: Int64): Int64 {
    Wrap(a - b)
  }

  /** Wrapping changes an integer by a whole number of 2^64 steps. */
  lemma {:induction false} WrapIsCongruent(x: int)
    ensures (x - Wrap(x)) % Modulus == 0
    decreases if x < MinInt64 then MinInt64 - x else if MaxInt64 < x then x - MaxInt64 else 0
  {
    if x < MinInt64 {
      WrapIsCongruent(x + Modulus);
      assert x - Wrap(x) == (x + Modulus - Wrap(x + Modulus)) - Modulus;
    } else if MaxInt64 < x {
      WrapIsCongruent(x - Modulus);
      assert x - Wrap(x) == (x - Modulus - Wrap(x - Modulus)) + Modulus;
    }
  }

  /** Adding 2^64 does not change the wrapped value. */
  lemma WrapStep(x: int)
    ensures Wrap(x + Modulus) == Wrap(x)
  {
  }

  /** Wrapping an intermediate result does not change the final wrapped value. */
  lemma {:induction false} WrapShift(x: int, y: int)
    ensures Wrap(Wrap(x) + y) == Wrap(x + y)
    decreases if x < MinInt64 then MinInt64 - x else if MaxInt64 < x then x - MaxInt64 else 0
  {
    if x < MinInt64 {
      WrapShift(x + Modulus, y);
      WrapStep(x + y);
    } else if MaxInt64 < x {
      WrapShift(x - Modulus, y);
      WrapStep(x - Modulus + y);
    }
  }

  /** Rolling back what was reserved restores the counter, overflow or not. */
  lemma {:induction false} SubThenAdd(a: Int64, b: Int64)
    ensures Add(Sub(a, b), b) == a
  {
    WrapShift(a - b, b);
  }

  /** Incrementing then decrementing restores the counter, overflow or not. */
  lemma {:induction false} AddThenSub(a: Int64, b: Int64)
    ensures Sub(Add(a, b), b) == a
  {
    WrapShift(a + b, -(b as int));
  }

  /** Adding one amount and subtracting another can be done in either order. */
  lemma {:induction false} SubAddCommute(a: Int64, q: Int64, b: Int64)
    ensures Sub(Add(a, q), b) == Add(Sub(a, b), q)
  {
    SubOfAdd(a, q, b);
    AddOfSub(a, b, q);
  }

  /** An addition followed by a subtraction wraps once, at the end. */
  lemma {:induction false} SubOfAdd(a: Int64, q: Int64, b: Int64)
    ensures Sub(Add(a, q), b) == Wrap(a as int + q as int - b as int)
  {
    WrapShift(a as int + q as int, -(b as int));
  }

  /** A subtraction followed by an addition wraps once, at the end. */
  lemma {:induction false} AddOfSub(a: Int64, b: Int64, q: Int64)
    ensures Add(Sub(a, b), q) == Wrap(a as int + q as int - b as int)
  {
    WrapShift(a as int - b as int, q as int);
    assert a as int - b as int + q as int == a as int + q as int - b as int;
  }

  /** The wrap-around is reachable: subtracting a large negative amount from a
      non-negative counter can give a negative counter. */
  lemma SubCanWrapNegative()
    ensures Sub(1, -MaxInt64) == MinInt64
  {
    assert Wrap(MinInt64) == MinInt64;
  }
}
