/**
  Boolean-as-integer values and bit conjunctions over `uint32` words.
 */
module Bits {
  import opened GoIntegers

  /** The library's boolean-as-integer convention: 1 for true, 0 for false. */
  function FromBool(b: bool): (r: Uint32)
    ensures r == 0 || r == 1
    ensures r != 0 <==> b
  {
    if b then 1 else 0
  }

  /** Bits 0 to k-1 of z are all set: the conjunction of the k lowest bits. */
  predicate LowBitsSet(z: Uint32, k: bv8)
    requires k <= 32
    decreases k
  {
    k == 0 || ((z >> (k - 1)) & 1 == 1 && LowBitsSet(z, k - 1))
  }

  /** Every one of the 32 bits of z is set. */
  predicate AllBitsSet(z: Uint32) {
    LowBitsSet(z, 32)
  }

  /** The mask of the k lowest bits. */
  function LowMask(k: bv8): (m: Uint32)
    requires k <= 32
  {
    (1 << k) - 1
  }

  /** Boolean-as-integer values combine with the bitwise operators. */
  lemma FromBoolLogic(a: bool, b: bool)
    ensures FromBool(a) & FromBool(b) == FromBool(a && b)
    ensures FromBool(a) | FromBool(b) == FromBool(a || b)
    ensures FromBool(a) ^ 1 == FromBool(!a)
  {
  }

  lemma LowMaskStep(z: Uint32, k: bv8)
    requires 0 < k <= 32
    ensures ((z >> (k - 1)) & 1 == 1 && z & LowMask(k - 1) == LowMask(k - 1))
      <==> z & LowMask(k) == LowMask(k)
  {
  }

  /** The conjunction of the k lowest bits holds exactly when z covers the k-bit mask. */
  lemma {:induction false} LowBitsSetMask(z: Uint32, k: bv8)
    requires k <= 32
    ensures LowBitsSet(z, k) <==> z & LowMask(k) == LowMask(k)
    decreases k
  {
    if k > 0 {
      LowBitsSetMask(z, k - 1);
      LowMaskStep(z, k);
    }
  }

  /** All 32 bits are set exactly when z is the all-ones word. */
  lemma AllBitsSetIffOnes(z: Uint32)
    ensures AllBitsSet(z) <==> z == 0xFFFF_FFFF
  {
    LowBitsSetMask(z, 32);
  }
}
