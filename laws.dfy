/**
  Laws relating the constant-time primitives to one another, and the
  concrete operand pairs of the library's own test tables.
 */
module ConstantTimeLaws {
  import opened GoIntegers
  import opened Bits
  import opened ConstantTime

  /** Equality does not depend on the order of its operands. */
  lemma EqSymmetric(x: Uint32, y: Uint32)
    ensures ConstantTimeEqUint32(x, y) == ConstantTimeEqUint32(y, x)
  {
    ConstantTimeEqIsEquality(x, y);
    ConstantTimeEqIsEquality(y, x);
  }

  /** x < y and y < x never hold together. */
  lemma LessThanAsymmetric(x: Uint32, y: Uint32)
    ensures ConstantTimeLessThanUint32(x, y) & ConstantTimeLessThanUint32(y, x) == 0
  {
    ConstantTimeLessThanIsLess(x, y);
    ConstantTimeLessThanIsLess(y, x);
  }

  /** At least one of x <= y and y <= x holds. */
  lemma LessOrEqTotal(x: Uint32, y: Uint32)
    ensures ConstantTimeLessOrEqUint32(x, y) | ConstantTimeLessOrEqUint32(y, x) == 1
  {
    ConstantTimeLessOrEqIsLessOrEq(x, y);
    ConstantTimeLessOrEqIsLessOrEq(y, x);
  }

  /** Select picks the right operand at the extremes and when both operands are equal. */
  lemma SelectExtremes(x: Uint32)
    ensures ConstantTimeSelectUint32(1, 0, 0xFFFF_FFFF) == 0
    ensures ConstantTimeSelectUint32(0, 0, 0xFFFF_FFFF) == 0xFFFF_FFFF
    ensures ConstantTimeSelectUint32(1, 0xFFFF_FFFF, 0) == 0xFFFF_FFFF
    ensures ConstantTimeSelectUint32(0, 0xFFFF_FFFF, 0) == 0
    ensures ConstantTimeSelectUint32(1, x, x) == x && ConstantTimeSelectUint32(0, x, x) == x
  {
    ConstantTimeSelectChooses(1, x, x);
    ConstantTimeSelectChooses(0, x, x);
  }

  /**
    The rows of the less-than test table. The row written `2^32` is Go's
    exclusive-or of 2 and 32, that is 34.
   */
  lemma LessThanTable()
    ensures ConstantTimeLessThanUint32(0, 1) == 1
    ensures ConstantTimeLessThanUint32(2, 2) == 0
    ensures ConstantTimeLessThanUint32(1 << 31, 1 << 31) == 0
    ensures ConstantTimeLessThanUint32(17, 1 << 31) == 1
    ensures (2 as Uint32) ^ 32 == 34 && ConstantTimeLessThanUint32(2 ^ 32, 0) == 0
  {
  }

  /** The rows of the less-or-equal test table. */
  lemma LessOrEqTable()
    ensures ConstantTimeLessOrEqUint32(0, 1) == 1
    ensures ConstantTimeLessOrEqUint32(2, 2) == 1
    ensures ConstantTimeLessOrEqUint32(1 << 31, 1 << 31) == 1
    ensures ConstantTimeLessOrEqUint32(17, 1 << 31) == 1
    ensures ConstantTimeLessOrEqUint32(2 ^ 32, 0) == 0
  {
  }

  /** The rows of the equality test table. */
  lemma EqTable()
    ensures ConstantTimeEqUint32(0, 1) == 0
    ensures ConstantTimeEqUint32(2, 2) == 1
    ensures ConstantTimeEqUint32(1 << 31, 1 << 31) == 1
    ensures ConstantTimeEqUint32(17, 1 << 31) == 0
    ensures ConstantTimeEqUint32(2 ^ 32, 0) == 0
  {
  }
}
