/** C integer ranges and conversions shared by the models of the C sources. */
module CTypes {

  datatype Option<+T> = None | Some(value: T)

  /** INT_MIN and INT_MAX for a 32-bit `int`. */
  const IntMin: int := -0x8000_0000
  const IntMax: int := 0x7FFF_FFFF

  /** LLONG_MIN and LLONG_MAX for a 64-bit `long long`. */
  const LLongMin: int := -0x8000_0000_0000_0000
  const LLongMax: int := 0x7FFF_FFFF_FFFF_FFFF

  predicate InInt32(v: int) {
    IntMin <= v <= IntMax
  }

  /**
   * The conversion `(int)v` of a wider integer to a 32-bit `int`, as gcc
   * performs it: the value congruent to v modulo 2^32 in [INT_MIN, INT_MAX].
   */
  function Wrap32(v: int): (r: int)
    ensures InInt32(r)
    ensures (v - r) % 0x1_0000_0000 == 0
    ensures r == v <==> InInt32(v)
  {
    var m := v % 0x1_0000_0000;
    if m <= IntMax then m else m - 0x1_0000_0000
  }

  /** Saturation of an out-of-range conversion result to [LLONG_MIN, LLONG_MAX]. */
  function ClampLongLong(v: int): (r: int)
    ensures LLongMin <= r <= LLongMax
    ensures LLongMin <= v <= LLongMax ==> r == v
    ensures v > LLongMax ==> r == LLongMax
    ensures v < LLongMin ==> r == LLongMin
  {
    if v > LLongMax then LLongMax else if v < LLongMin then LLongMin else v
  }
}
