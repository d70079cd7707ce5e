/**
 Fixed-width integers of Go on a 64-bit platform, written out over Dafny's
 unbounded `int`: the range of `int`/`int64` and `uint`/`uint64`, the
 conversion `uint(x)` of a signed value, and `+=` on a `uint`.
 */
module GoInts {

  const Two64: int := 0x1_0000_0000_0000_0000
  const MaxUint64: int := 0xFFFF_FFFF_FFFF_FFFF
  const MaxInt64: int := 0x7FFF_FFFF_FFFF_FFFF
  const MinInt64: int := -0x8000_0000_0000_0000

  /** Go's `uint` on a 64-bit platform */
  type Uint64 = x: int | 0 <= x < 0x1_0000_0000_0000_0000

  /** Go's `uint(x)` for a 64-bit signed `x`: the same bits read as unsigned,
      so a negative value wraps around modulo 2^64. */
  function ToUint64(x: int): (u: Uint64)
    requires MinInt64 <= x <= MaxInt64
    ensures 0 <= x ==> u == x
    ensures x < 0 ==> u == x + Two64
  {
    x % Two64
  }

  /** Go's `a + b` on two `uint` values: the carry out of bit 63 is lost. */
  function AddUint64(a: Uint64, b: Uint64): (s: Uint64)
    ensures a + b <= MaxUint64 ==> s == a + b
    ensures MaxUint64 < a + b ==> s == a + b - Two64
    ensures s < a <==> MaxUint64 < a + b
  {
    (a + b) % Two64
  }
}
