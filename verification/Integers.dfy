/** Machine integers written out over unbounded ones. */
module Integers {

  const TWO_31 := 0x8000_0000
  const TWO_63 := 0x8000_0000_0000_0000
  const TWO_64 := 0x1_0000_0000_0000_0000

  /** Two's complement: a number cut to n bits and read as signed, for half = 2^(n-1). */
  function Signed(v: int, half: int): (r: int)
    requires half > 0
    ensures -half <= r < half
  {
    (v + half) % (2 * half) - half
  }
}
