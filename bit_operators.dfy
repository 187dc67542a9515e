/**
 * The bit-manipulation exercises: mul8, make_odd, is_negative, set_bit and
 * swap, each built from one of the ANSWER_* mask expressions.
 *
 * A C `int` or `unsigned int` is a 32-bit word (`bv32`) read in two's
 * complement where it is signed; an `unsigned short` is a `bv16`. Dafny's
 * bit-vector arithmetic is arithmetic modulo 2^width, which is what the C
 * operations compute on these words.
 */
module BitOperators {

  /** sizeof(int) on the platforms the exercises target. */
  const IntBytes: bv32 := 4

  /** Bit i (0 = least significant) of a 32-bit word. */
  predicate Bit(x: bv32, i: bv32)
    requires i < 32
  {
    (x >> i) & 1 == 1
  }

  /**
   * x and y agree on every bit except possibly bit n: they are equal once
   * bit n is masked off.
   */
  predicate AgreeExcept(x: bv32, y: bv32, n: bv32)
    requires n < 32
  {
    x & !(1 << n) == y & !(1 << n)
  }

  /** A word stands for a negative `int` exactly when its unsigned value exceeds INT_MAX. */
  predicate IsNegativeInt(x: bv32) {
    x > 0x7FFF_FFFF
  }

  /** The low and high byte of an `unsigned short`. */
  function LowByte(x: bv16): bv8 {
    (x & 0xFF) as bv8
  }

  function HighByte(x: bv16): bv8 {
    (x >> 8) as bv8
  }

  // ---------------------------------------------------------------------
  // The masks of the ANSWER_* macros
  // ---------------------------------------------------------------------

  /** `0x1 << n`: the word whose only set bit is bit n. */
  function BitMask(n: bv32): (m: bv32)
    requires n < 32
    ensures forall i: bv32 :: i < 32 ==> (Bit(m, i) <==> i == n)
  {
    1 << n
  }

  /** `~(0x1 << n)`: the word whose only clear bit is bit n. */
  function ClearMask(n: bv32): (m: bv32)
    requires n < 32
    ensures forall i: bv32 :: i < 32 ==> (Bit(m, i) <==> i != n)
  {
    !(1 << n)
  }

  /**
   * `0x1 << ((sizeof(num) << 3) - 1)`: the size of an int in bits is its
   * size in bytes shifted left by 3, and the mask has only that size's top
   * bit, the sign bit, set.
   */
  function SignMask(): (m: bv32)
    ensures (IntBytes << 3) - 1 == 31
    ensures forall i: bv32 :: i < 32 ==> (Bit(m, i) <==> i == 31)
  {
    1 << ((IntBytes << 3) - 1)
  }

  /** Or-ing in the mask of bit n sets that bit; and-ing with its complement clears it. */
  lemma MaskedBit(x: bv32, n: bv32)
    requires n < 32
    ensures Bit(x | (1 << n), n)
    ensures !Bit(x & !(1 << n), n)
  {
  }

  /** ANSWER_4_1, `num | (0x1 << n)`: sets bit n and no other bit changes. */
  function SetOne(num: bv32, n: bv32): (r: bv32)
    requires n < 32
    ensures Bit(r, n) && AgreeExcept(r, num, n)
  {
    MaskedBit(num, n);
    num | (1 << n)
  }

  /** ANSWER_4_2, `num & ~(0x1 << n)`: clears bit n and no other bit changes. */
  function ClearOne(num: bv32, n: bv32): (r: bv32)
    requires n < 32
    ensures !Bit(r, n) && AgreeExcept(r, num, n)
  {
    MaskedBit(num, n);
    num & !(1 << n)
  }

  // ---------------------------------------------------------------------
  // The exercises
  // ---------------------------------------------------------------------

  /** mul8: ANSWER_1, `num << 3`, is the product num * 8 wrapped to 32 bits. */
  function Mul8(num: bv32): (r: bv32)
    ensures r == num * 8
  {
    num << 3
  }

  /** make_odd: ANSWER_2, `num | 0x1`, sets the LSB and leaves bits 1..31 alone. */
  function MakeOdd(num: bv32): (r: bv32)
    ensures Bit(r, 0) && AgreeExcept(r, num, 0)
  {
    num | 0x1
  }

  /** is_negative: 1 when the sign bit (ANSWER_3) is set, else 0. */
  function IsNegative(num: bv32): (r: int)
    ensures r == 0 || r == 1
    ensures r == 1 <==> Bit(num, 31)
    ensures r == 1 <==> IsNegativeInt(num)
  {
    if num & SignMask() != 0 then 1 else 0
  }

  /** set_bit: bit n of the result is 1 when b is non-zero and 0 otherwise. */
  function SetBit(num: bv32, n: bv32, b: bv32): (r: bv32)
    requires n < 32
    ensures Bit(r, n) <==> b != 0
    ensures AgreeExcept(r, num, n)
  {
    if b != 0 then SetOne(num, n) else ClearOne(num, n)
  }

  /**
   * swap: `a` is num (ANSWER_5_1) and `b` is `num >> 8` (ANSWER_5_2); the
   * expression `(a << 8) | b` is evaluated as a promoted `int` and truncated
   * to an `unsigned short` on return.
   */
  function Swap(num: bv16): (r: bv16)
    ensures LowByte(r) == HighByte(num)
    ensures HighByte(r) == LowByte(num)
  {
    var a: bv16 := num;
    var b: bv16 := num >> 8;
    var promoted: bv32 := (a as bv32 << 8) | b as bv32;
    (promoted & 0xFFFF) as bv16
  }

  // ---------------------------------------------------------------------
  // Properties
  // ---------------------------------------------------------------------

  /** Agreeing outside bit n means every other bit is the same. */
  lemma AgreeExceptBits(x: bv32, y: bv32, n: bv32)
    requires n < 32 && AgreeExcept(x, y, n)
    ensures forall i: bv32 :: i < 32 && i != n ==> Bit(x, i) == Bit(y, i)
  {
  }

  /** Setting bit n to the state it already has returns num itself. */
  lemma SetBitKeepsSettledBit(num: bv32, n: bv32, b: bv32)
    requires n < 32
    requires Bit(num, n) <==> b != 0
    ensures SetBit(num, n, b) == num
  {
  }

  /** An odd word is left unchanged by make_odd, so make_odd is idempotent. */
  lemma MakeOddIdempotent(num: bv32)
    ensures Bit(num, 0) ==> MakeOdd(num) == num
    ensures MakeOdd(MakeOdd(num)) == MakeOdd(num)
  {
  }

  /** Swapping the bytes twice gives back the original word. */
  lemma SwapInvolution(num: bv16)
    ensures Swap(Swap(num)) == num
  {
  }

  /**
   * ANSWER_5_2 moves the old high byte to the low byte, and the shifted
   * ANSWER_5_1, truncated to 16 bits, moves the old low byte to the high byte.
   */
  lemma SwapHalves(num: bv16)
    ensures num >> 8 == HighByte(num) as bv16
    ensures ((num as bv32 << 8) & 0xFFFF) as bv16 == (LowByte(num) as bv16) << 8
  {
  }

  /** Shifting left by n multiplies by 2^n modulo 2^32; for n = 3 that is 8. */
  lemma ShiftLeftMultiplies(x: bv32, n: bv32)
    requires n < 32
    ensures x << n == x * BitMask(n)
    ensures x << 3 == x * 8
  {
  }

  /** Shifting an unsigned word right by n divides it by 2^n, shown for the shifts used here. */
  lemma ShiftRightDivides(x: bv32, y: bv16)
    ensures x >> 3 == x / 8
    ensures y >> 8 == y / 256
  {
  }

  /** The values of the driver's mul8 calls. */
  lemma DriverMul8()
    ensures Mul8(0) == 0 && Mul8(1) == 8 && Mul8(3) == 24 && Mul8(8) == 64
    ensures Mul8(-1) == -8 && Mul8(-2) == -16 && Mul8(-32) == -256
  {
  }

  /** The values of the driver's make_odd calls. */
  lemma DriverMakeOdd()
    ensures MakeOdd(0) == 1 && MakeOdd(1) == 1 && MakeOdd(5) == 5
    ensures MakeOdd(32) == 33 && MakeOdd(128) == 129 && MakeOdd(256) == 257
    ensures MakeOdd(0x7) == 0x7 && MakeOdd(0x8) == 0x9
    ensures MakeOdd(0xFFFF_FFFE) == 0xFFFF_FFFF && MakeOdd(0xFFFF_FFFF) == 0xFFFF_FFFF
  {
  }

  /** The values of the driver's is_negative calls. */
  lemma DriverIsNegative()
    ensures IsNegative(0) == 0 && IsNegative(1) == 0 && IsNegative(2) == 0
    ensures IsNegative(-1) == 1 && IsNegative(-3) == 1
    ensures IsNegative(0x7FFF_FFFF) == 0 && IsNegative(0x8000_0000) == 1 && IsNegative(0xFFFF_FFFF) == 1
  {
  }

  /** The values of the driver's set_bit calls. */
  lemma DriverSetBit()
    ensures SetBit(0, 0, 1) == 0x1 && SetBit(0, 1, 1) == 0x2 && SetBit(0, 2, 1) == 0x4
    ensures SetBit(0, 3, 1) == 0x8 && SetBit(0, 30, 1) == 0x4000_0000 && SetBit(0, 31, 1) == 0x8000_0000
    ensures SetBit(0xFFFF_FFFF, 0, 0) == 0xFFFF_FFFE && SetBit(0xFFFF_FFFF, 1, 0) == 0xFFFF_FFFD
    ensures SetBit(0xFFFF_FFFF, 30, 0) == 0xBFFF_FFFF && SetBit(0xFFFF_FFFF, 31, 0) == 0x7FFF_FFFF
    ensures SetBit(0, 0, 0) == 0 && SetBit(0, 3, 0) == 0 && SetBit(0, 8, 0) == 0 && SetBit(0, 31, 0) == 0
    ensures SetBit(0xFFFF_FFFF, 0, 1) == 0xFFFF_FFFF && SetBit(0xFFFF_FFFF, 6, 1) == 0xFFFF_FFFF
    ensures SetBit(0xFFFF_FFFF, 9, 1) == 0xFFFF_FFFF && SetBit(0xFFFF_FFFF, 31, 1) == 0xFFFF_FFFF
  {
  }

  /** The values of the driver's swap calls. */
  lemma DriverSwap()
    ensures Swap(0) == 0 && Swap(1) == 256 && Swap(7) == 0x700 && Swap(8) == 0x800 && Swap(256) == 1
    ensures Swap(0xFFFE) == 0xFEFF && Swap(0xFFFF) == 0xFFFF
  {
  }
}
