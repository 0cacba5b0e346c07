/**
 The fixed-width Java integers the ball step touches: the `int` surface
 size halved by integer division when the ball is centred, and the `long`
 sensor timestamps whose difference is taken before it becomes a float.
 Dafny integers are unbounded, so both widths are written out here.
 */
module JavaNum {

  const INT_MIN: int := -0x8000_0000
  const INT_MAX: int := 0x7fff_ffff
  const LONG_MIN: int := -0x8000_0000_0000_0000
  const LONG_MAX: int := 0x7fff_ffff_ffff_ffff
  const LONG_MODULUS: int := 0x1_0000_0000_0000_0000

  /** A Java `int`. */
  type Int32 = n: int | INT_MIN <= n <= INT_MAX

  /** A Java `long`. */
  type Int64 = n: int | LONG_MIN <= n <= LONG_MAX

  /** Reduces an unbounded integer to the `long` that Java arithmetic leaves
      behind: the unique representative of `n` modulo 2^64 in the signed range. */
  function WrapLong(n: int): (r: Int64)
    ensures (n - r) % LONG_MODULUS == 0
    ensures LONG_MIN <= n <= LONG_MAX ==> r == n
  {
    var m := (n - LONG_MIN) % LONG_MODULUS;
    assert n - (m + LONG_MIN) == ((n - LONG_MIN) / LONG_MODULUS) * LONG_MODULUS;
    m + LONG_MIN
  }

  /** Java `a - b` on two `long`s, which wraps around instead of overflowing. */
  function LongSub(a: Int64, b: Int64): (r: Int64)
    ensures (a - b - r) % LONG_MODULUS == 0
    ensures LONG_MIN <= a - b <= LONG_MAX ==> r == a - b
    ensures 0 <= a && 0 <= b ==> r == a - b
  {
    WrapLong(a - b)
  }

  /** Java `n / 2` on an `int`: the quotient is truncated toward zero, so an
      odd positive size rounds down and an odd negative one rounds up. */
  function HalfInt(n: Int32): (r: Int32)
    ensures n >= 0 ==> 0 <= n - 2 * r <= 1
    ensures n < 0 ==> -1 <= n - 2 * r <= 0
  {
    if n >= 0 then n / 2 else -((-(n as int)) / 2)
  }
}
