/**
 Fixed-width integers of the benchmark client and the C++ conversions between
 them. Dafny integers are unbounded, so every wrap-around the client relies on
 is written out here.
 */
module Ints {

  const TWO_31: int := 0x8000_0000
  const TWO_32: int := 0x1_0000_0000
  const TWO_63: int := 0x8000_0000_0000_0000
  const TWO_64: int := 0x1_0000_0000_0000_0000

  type int32 = x: int | -0x8000_0000 <= x < 0x8000_0000
  type int64 = x: int | -0x8000_0000_0000_0000 <= x < 0x8000_0000_0000_0000
  type uint64 = x: int | 0 <= x < 0x1_0000_0000_0000_0000

  /** `static_cast<int64_t>(u)`: the same 64-bit pattern read as two's complement. */
  function SignedOf(u: uint64): (r: int64)
    ensures (r - u) % TWO_64 == 0
    ensures r == u <==> u < TWO_63
  {
    if u < TWO_63 then u else u - TWO_64
  }

  /** An `int` operand converted to `uint64_t`, as in a mixed signed/unsigned comparison. */
  function UnsignedOf(x: int32): (r: uint64)
    ensures (r - x) % TWO_64 == 0
  {
    if x >= 0 then x else x + TWO_64
  }

  /** A `uint64_t` passed where an `int` is expected: reduced modulo 2^32. */
  function Narrow(u: uint64): (r: int32)
    ensures (r - u) % TWO_32 == 0
  {
    var t := u % TWO_32;
    if t < TWO_31 then t else t - TWO_32
  }

  /** `uint64_t` addition, which wraps modulo 2^64. */
  function AddU64(a: uint64, b: uint64): (r: uint64)
    ensures (r - (a + b)) % TWO_64 == 0
  {
    (a + b) % TWO_64
  }

  /** Reducing the left operand first does not change a sum modulo 2^64. */
  lemma ModAddLeft(x: int, y: int)
    ensures (x % TWO_64 + y) % TWO_64 == (x + y) % TWO_64
  {
  }

  /** Values below 2^31 pass through the narrowing and back unchanged. */
  lemma SmallFlagKeepsValue(u: uint64)
    requires u < TWO_31
    ensures UnsignedOf(Narrow(u)) == u
  {
  }

  /** A flag of exactly 2^32 narrows to zero. */
  lemma HugeFlagBecomesZero()
    ensures UnsignedOf(Narrow(TWO_32)) == 0
  {
  }
}
