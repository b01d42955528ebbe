/**
  The constant-time primitives on `uint32` operands. Comparison results use
  the boolean-as-integer convention: exactly 1 for true and 0 for false.

  The functions below compute the results with masks, shifts and the sign
  bit of a widened difference, mirroring the Go expressions; the lemmas
  after them state what each result means. Nothing here models execution
  time: the model states functional correctness only.
 */
module ConstantTime {
  import opened GoIntegers
  import opened Bits

  /** `^(v-1)&x | (v-1)&y`: v - 1 is all zeros when v is 1 and all ones when v is 0. */
  function ConstantTimeSelectUint32(v: Uint32, x: Uint32, y: Uint32): Uint32
    requires v == 0 || v == 1
  {
    (!(v - 1) & x) | ((v - 1) & y)
  }

  /** The sign bit of the widened difference x - y. */
  function ConstantTimeLessThanUint32(x: Uint32, y: Uint32): Uint32 {
    var diff := x as Int64 - y as Int64;
    ToUint32(ShiftRightArith(diff, 63) & 1)
  }

  /** The sign bit of the widened difference x - y, minus one. */
  function ConstantTimeLessOrEqUint32(x: Uint32, y: Uint32): Uint32 {
    var diff := x as Int64 - y as Int64;
    ToUint32(ShiftRightArith(diff - 1, 63) & 1)
  }

  /** The sign bit of (diff - 1) ^ diff, which is set only when diff is zero. */
  function ConstantTimeEqUint32(x: Uint32, y: Uint32): Uint32 {
    var diff := x as Int64 - y as Int64;
    ToUint32(ShiftRightArith((diff - 1) ^ diff, 63) & 1)
  }

  /**
    Equality by folding: z starts as the complement of x ^ y, which is all
    ones exactly when x == y, and five shift-and-AND steps leave the
    conjunction of all 32 bits of it in bit 0.
   */
  method ConstantTimeEqUint32Alternate(x: Uint32, y: Uint32) returns (r: Uint32)
    ensures r == FromBool(AllBitsSet(!(x ^ y)))
    ensures r == FromBool(x == y)
    ensures r == ConstantTimeEqUint32(x, y)
  {
    var z := !(x ^ y);
    ghost var z0 := z;
    z := z & (z >> 16);
    z := z & (z >> 8);
    z := z & (z >> 4);
    z := z & (z >> 2);
    z := z & (z >> 1);
    r := z & 1;
    assert r == FromBool(z0 == 0xFFFF_FFFF);
    AllBitsSetIffOnes(z0);
    ConstantTimeEqIsEquality(x, y);
  }

  /** Select returns x for selector 1 and y for selector 0. */
  lemma ConstantTimeSelectChooses(v: Uint32, x: Uint32, y: Uint32)
    requires v == 0 || v == 1
    ensures ConstantTimeSelectUint32(v, x, y) == if v == 1 then x else y
  {
    if v == 1 {
      assert v - 1 == 0;
    } else {
      assert v - 1 == 0xFFFF_FFFF;
    }
  }

  /** The less-than result is 1 exactly when x < y (unsigned), and 0 otherwise. */
  lemma ConstantTimeLessThanIsLess(x: Uint32, y: Uint32)
    ensures ConstantTimeLessThanUint32(x, y) == FromBool(x < y)
  {
    var diff := x as Int64 - y as Int64;
    WidenedDifferenceSign(x, y);
    SignSpread(diff);
  }

  /** The less-or-equal result is 1 exactly when x <= y (unsigned), and 0 otherwise. */
  lemma ConstantTimeLessOrEqIsLessOrEq(x: Uint32, y: Uint32)
    ensures ConstantTimeLessOrEqUint32(x, y) == FromBool(x <= y)
  {
    var diff := x as Int64 - y as Int64;
    WidenedDifferenceMinusOneSign(x, y);
    SignSpread(diff - 1);
  }

  /** The equality result is 1 exactly when x == y, and 0 otherwise. */
  lemma ConstantTimeEqIsEquality(x: Uint32, y: Uint32)
    ensures ConstantTimeEqUint32(x, y) == FromBool(x == y)
  {
    var diff := x as Int64 - y as Int64;
    WidenedDifferenceRange(x, y);
    PredecessorXorSign(diff);
    WidenedDifferenceZero(x, y);
    SignSpread((diff - 1) ^ diff);
    assert ConstantTimeEqUint32(x, y) == ToUint32(if x == y then 1 else 0);
  }
}
