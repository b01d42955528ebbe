/**
  Go's fixed-width integers as bit-vectors.

  A Go `uint32` is a `bv32`. A Go `int64` is represented by its 64-bit
  two's-complement bit pattern, a `bv64`: Go's conversion `int64(x)` of a
  `uint32` is zero extension (`x as Int64`), Go's signed subtraction wraps
  around exactly as `bv64` subtraction does, and a value is negative
  exactly when bit 63 is set.

  The facts about the widened difference are split into small lemmas
  (sign, low half, high half) because the solver handles each of them
  quickly but not their combination in one step.
 */
module GoIntegers {

  type Uint32 = bv32

  /** The two's-complement bit pattern of a Go `int64`. */
  type Int64 = bv64

  const AllOnes64: Int64 := 0xFFFF_FFFF_FFFF_FFFF

  /** A Go `int64` is negative exactly when its sign bit (bit 63) is set. */
  predicate IsNegative(d: Int64) {
    d >> 63 == 1
  }

  /** Go's conversion `uint32(d)` of an `int64`: only the low 32 bits are kept. */
  function ToUint32(d: Int64): Uint32 {
    (d & 0xFFFF_FFFF) as Uint32
  }

  /**
    Go's `d >> k` on a signed operand: an arithmetic shift, so the vacated
    high bits are copies of the sign bit.
   */
  function ShiftRightArith(d: Int64, k: bv8): (r: Int64)
    requires k < 64
    ensures IsNegative(r) == IsNegative(d)
  {
    if IsNegative(d) then !((!d) >> k) else d >> k
  }

  /** Narrowing a widened `uint32` gives it back, and the widened value is not negative. */
  lemma ToUint32OfWidened(x: Uint32)
    ensures ToUint32(x as Int64) == x
    ensures !IsNegative(x as Int64)
  {
  }

  /**
    Shifting a signed value right by 63 spreads its sign bit over the whole
    word, so masking the result with 1 leaves exactly the sign bit.
   */
  lemma SignSpread(d: Int64)
    ensures ShiftRightArith(d, 63) == if IsNegative(d) then AllOnes64 else 0
    ensures ShiftRightArith(d, 63) & 1 == if IsNegative(d) then 1 else 0
  {
  }

  /** The widened difference x - y is negative exactly when x < y. */
  lemma WidenedDifferenceSign(x: Uint32, y: Uint32)
    ensures IsNegative(x as Int64 - y as Int64) <==> x < y
  {
    if x < y {
      assert IsNegative(x as Int64 - y as Int64);
    } else {
      assert !IsNegative(x as Int64 - y as Int64);
    }
  }

  /** The widened difference minus one is negative exactly when x <= y. */
  lemma WidenedDifferenceMinusOneSign(x: Uint32, y: Uint32)
    ensures IsNegative(x as Int64 - y as Int64 - 1) <==> x <= y
  {
    if x <= y {
      assert IsNegative(x as Int64 - y as Int64 - 1);
    } else {
      assert !IsNegative(x as Int64 - y as Int64 - 1);
    }
  }

  /** The low 32 bits of the widened difference are the wrapped 32-bit difference. */
  lemma WidenedDifferenceLow(x: Uint32, y: Uint32)
    ensures (x as Int64 - y as Int64) & 0xFFFF_FFFF == (x - y) as Int64
  {
  }

  /**
    The widened difference never overflows an `int64`: it lies between
    -(2^32-1) and 2^32-1, so its high 32 bits are all zeros or all ones.
   */
  lemma WidenedDifferenceRange(x: Uint32, y: Uint32)
    ensures var diff := x as Int64 - y as Int64;
      && (diff <= 0xFFFF_FFFF || diff >= 0xFFFF_FFFF_0000_0001)
      && (diff >> 32 == 0 || diff >> 32 == 0xFFFF_FFFF)
  {
  }

  /** A value whose high half is all zeros or all ones has the sign bit spread over that half. */
  lemma HighHalfIsSign(d: Int64)
    requires d >> 32 == 0 || d >> 32 == 0xFFFF_FFFF
    ensures d >> 32 == if IsNegative(d) then 0xFFFF_FFFF else 0
  {
  }

  /** The widened difference is zero exactly when the operands are equal. */
  lemma WidenedDifferenceZero(x: Uint32, y: Uint32)
    ensures x as Int64 - y as Int64 == 0 <==> x == y
  {
  }

  /**
    For a value whose high half is all zeros or all ones (so not the most
    negative `int64`), d - 1 and d differ in sign exactly when d is zero.
   */
  lemma PredecessorXorSign(d: Int64)
    requires d >> 32 == 0 || d >> 32 == 0xFFFF_FFFF
    ensures IsNegative((d - 1) ^ d) <==> d == 0
  {
  }

  /**
    The widened difference is the exact difference in two's complement: the
    wrapped 32-bit difference in the low half, and in the high half the
    borrow of x < y spread over 32 bits.
   */
  lemma WidenedDifferenceExact(x: Uint32, y: Uint32)
    ensures x as Int64 - y as Int64
      == (if x < y then 0xFFFF_FFFF_0000_0000 else 0) | (x - y) as Int64
  {
    var diff := x as Int64 - y as Int64;
    WidenedDifferenceSign(x, y);
    WidenedDifferenceLow(x, y);
    WidenedDifferenceRange(x, y);
    HighHalfIsSign(diff);
    assert diff == ((diff >> 32) << 32) | (diff & 0xFFFF_FFFF);
  }

  /**
    Without the widening the sign-bit trick fails: the wrapped 32-bit
    difference 0 - 0x8000_0001 has its sign bit clear although 0 < 0x8000_0001,
    while the widened difference is negative.
   */
  lemma NarrowDifferenceLosesSign()
    ensures var x: Uint32, y: Uint32 := 0, 0x8000_0001;
      x < y && (x - y) >> 31 == 0 && IsNegative(x as Int64 - y as Int64)
  {
  }
}
