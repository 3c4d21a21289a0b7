/** Java's fixed-width integers and the two operations on them that the
    disconnect handler performs: `long - long` (which wraps around) and
    `long / 1000` (which truncates toward zero, unlike Dafny's `/`). */
module JavaArith {

  const LONG_MIN: int := -0x8000_0000_0000_0000
  const LONG_MAX: int := 0x7FFF_FFFF_FFFF_FFFF
  const INT_MIN: int := -0x8000_0000
  const INT_MAX: int := 0x7FFF_FFFF

  /** Width of a Java `long`, as a modulus. */
  const LONG_MODULUS: int := 0x1_0000_0000_0000_0000

  /** A Java `long` (milliseconds from `System.currentTimeMillis()`). */
  type Long = x: int | LONG_MIN <= x <= LONG_MAX

  /** A Java `int` (the time limit, as Brigadier's `IntegerArgumentType.integer()` parses it). */
  type Int = x: int | INT_MIN <= x <= INT_MAX

  /** `a - b` on two Java longs: the true difference, reduced into the
      64-bit two's-complement range. */
  function LongSub(a: Long, b: Long): (r: Long)
    ensures LONG_MIN <= a - b <= LONG_MAX ==> r == a - b
    ensures (a - b - r) % LONG_MODULUS == 0
  {
    var d := a - b;
    if d > LONG_MAX then d - LONG_MODULUS
    else if d < LONG_MIN then d + LONG_MODULUS
    else d
  }

  /** `a / 1000` on a Java long: the quotient rounded toward zero, so that
      the remainder takes the sign of `a`. */
  function LongDivThousand(a: Long): (q: Long)
    ensures 0 <= a ==> 1000 * q <= a < 1000 * q + 1000
    ensures a < 0 ==> 1000 * q - 1000 < a <= 1000 * q
  {
    var n: int := a;
    if n >= 0 then n / 1000 else -((-n) / 1000)
  }
}
