/** Java `double`s as their IEEE 754 binary64 bit patterns (`bv64`), with the two
    things the core needs from them: `Double.doubleToLongBits`, which collapses
    every NaN to one canonical pattern, and the numeric value of a finite double. */
module Ieee754 {

  const EXPONENT_MASK: bv64 := 0x7FF0_0000_0000_0000
  const MANTISSA_MASK: bv64 := 0x000F_FFFF_FFFF_FFFF
  const SIGN_BIT: bv64 := 0x8000_0000_0000_0000

  /** The pattern `doubleToLongBits` gives for every NaN. */
  const CANONICAL_NAN: bv64 := 0x7FF8_0000_0000_0000

  predicate IsNaN(b: bv64) {
    b & EXPONENT_MASK == EXPONENT_MASK && b & MANTISSA_MASK != 0
  }

  /** Neither infinite nor NaN: the exponent field is not all ones. */
  predicate IsFinite(b: bv64) {
    b & EXPONENT_MASK != EXPONENT_MASK
  }

  /** `Double.doubleToLongBits` applied to the double whose raw bits are `b`. */
  function DoubleToLongBits(b: bv64): bv64 {
    if IsNaN(b) then CANONICAL_NAN else b
  }

  /** Two doubles have the same `doubleToLongBits` exactly when they have the same
      bits or are both NaN. */
  lemma SameLongBits(a: bv64, b: bv64)
    ensures DoubleToLongBits(a) == DoubleToLongBits(b) <==> a == b || (IsNaN(a) && IsNaN(b))
  {
    assert IsNaN(CANONICAL_NAN);
  }

  /** `doubleToLongBits` maps onto the non-NaN patterns plus the canonical NaN, and
      applying it twice changes nothing. */
  lemma LongBitsCanonical(b: bv64)
    ensures DoubleToLongBits(DoubleToLongBits(b)) == DoubleToLongBits(b)
    ensures IsNaN(DoubleToLongBits(b)) ==> DoubleToLongBits(b) == CANONICAL_NAN
  {
    assert IsNaN(CANONICAL_NAN);
  }

  function Pow2(k: nat): (p: nat)
    ensures p >= 1
  {
    if k == 0 then 1 else 2 * Pow2(k - 1)
  }

  /** 2 raised to an integer power, as a real. */
  function TwoTo(k: int): (r: real)
    ensures r > 0.0
  {
    if k >= 0 then Pow2(k) as real else 1.0 / Pow2(-k) as real
  }

  /** The exponent of `Double.MIN_NORMAL`. */
  const MIN_EXPONENT: int := -1022

  /** `Double.MIN_NORMAL`, the smallest positive normal double: 2^-1022. */
  const MIN_NORMAL: real := TwoTo(MIN_EXPONENT)

  /** 2^52, the weight of the implicit leading bit of a normal double. */
  const IMPLICIT_BIT: nat := 0x10_0000_0000_0000

  /** The real number a finite double stands for: the sign, times the mantissa
      (with the implicit leading bit for a normal double), times 2 to the unbiased
      exponent, which for subnormals is that of the smallest normal exponent field. */
  function DoubleValue(b: bv64): real
    requires IsFinite(b)
  {
    var sign := if b & SIGN_BIT == 0 then 1.0 else -1.0;
    var e := ((b & EXPONENT_MASK) >> 52) as int;
    var m := (b & MANTISSA_MASK) as int;
    var significand := if e == 0 then m else IMPLICIT_BIT + m;
    var exponent := (if e == 0 then 1 else e) - 1075;
    sign * significand as real * TwoTo(exponent)
  }

  /** Positive and negative zero are the same number, yet `doubleToLongBits` tells
      them apart. */
  lemma SignedZeros()
    ensures DoubleValue(0) == DoubleValue(SIGN_BIT) == 0.0
    ensures DoubleToLongBits(0) != DoubleToLongBits(SIGN_BIT)
  {
  }
}
