// Kotlin `Int` arithmetic: 32-bit two's complement with wrap-around.
module Int32 {
  const TWO_32: int := 0x1_0000_0000
  const MIN: int := -0x8000_0000
  const MAX: int := 0x7fff_ffff

  predicate InRange(x: int) { MIN <= x <= MAX }

  /** The 32-bit value an unbounded result wraps to. */
  function Wrap(x: int): (r: int)
    ensures InRange(r)
    ensures (x - r) % TWO_32 == 0
    ensures InRange(x) ==> r == x
  {
    var m := x % TWO_32;
    if m > MAX then m - TWO_32 else m
  }

  /** `31 * h + x` in Kotlin `Int` arithmetic. */
  function MulAdd31(h: int, x: int): (r: int)
    ensures InRange(r)
    ensures (31 * h + x - r) % TWO_32 == 0
  {
    Wrap(31 * h + x)
  }
}
