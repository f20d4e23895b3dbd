/** Go's `int` on a 64-bit platform: the type of the repetition limit, whose
    arithmetic wraps around instead of growing. */
module Ints {

  const MaxInt: int := 0x7fff_ffff_ffff_ffff
  const MinInt: int := -0x8000_0000_0000_0000

  /** The number of distinct values of a 64-bit integer. */
  const Modulus: int := 0x1_0000_0000_0000_0000

  type GoInt = x: int | MinInt <= x <= MaxInt

  /** Go's `a + b` on `int`: the one 64-bit value congruent to the exact sum. */
  function AddInt(a: GoInt, b: GoInt): (r: GoInt)
    ensures (r - (a + b)) % Modulus == 0
    ensures MinInt <= a + b <= MaxInt ==> r == a + b
  {
    var s := a + b;
    if s > MaxInt then s - Modulus else if s < MinInt then s + Modulus else s
  }
}
