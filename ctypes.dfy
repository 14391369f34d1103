/**
 * The fixed-width unsigned integers of the C source (`guint`, `guint64`,
 * `GstClockTime`) and the wrap-around of their arithmetic, written out.
 */
module CTypes {

  const U32_MODULUS: nat := 0x1_0000_0000
  const U64_MODULUS: nat := 0x1_0000_0000_0000_0000

  type u32 = x: int | 0 <= x < U32_MODULUS
  type u64 = x: int | 0 <= x < U64_MODULUS

  const U32_MAX: u32 := 0xFFFF_FFFF
  const U64_MAX: u64 := 0xFFFF_FFFF_FFFF_FFFF

  /** GStreamer's "no time" sentinel, GST_CLOCK_TIME_NONE: all 64 bits set. */
  const CLOCK_TIME_NONE: u64 := U64_MAX

  datatype Option<+T> = None | Some(value: T)

  /** C's `a - b` on two 32-bit unsigned operands. */
  function SubU32(a: u32, b: u32): (r: u32)
    ensures (r + b) % U32_MODULUS == a
    ensures b <= a ==> r == a - b
    ensures a < b ==> r >= U32_MODULUS - b
  {
    if b <= a then a - b else a - b + U32_MODULUS
  }

  /** C's `a++` on a 32-bit unsigned counter. */
  function IncU32(a: u32): (r: u32)
    ensures r == (a + 1) % U32_MODULUS
    ensures a < U32_MAX ==> r == a + 1
    ensures a == U32_MAX ==> r == 0
  {
    if a == U32_MAX then 0 else a + 1
  }

  /** C's `a - b` on two 64-bit unsigned operands. */
  function SubU64(a: u64, b: u64): (r: u64)
    ensures (r + b) % U64_MODULUS == a
    ensures b <= a ==> r == a - b
    ensures a < b ==> r >= U64_MODULUS - b
  {
    if b <= a then a - b else a - b + U64_MODULUS
  }

  /** A 32-bit counter that holds the low bits of an unbounded count still does after both are incremented. */
  lemma IncLowBits(c: u32, total: nat)
    requires c == total % U32_MODULUS
    ensures IncU32(c) == (total + 1) % U32_MODULUS
  {
  }

  /** Decrementing an incremented counter gives the counter back, across the wrap too. */
  lemma IncThenSubU32(a: u32)
    ensures SubU32(IncU32(a), 1) == a
  {
  }
}
