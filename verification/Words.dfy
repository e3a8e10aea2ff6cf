/** Machine words: the limits of fixed-width integers, and arithmetic that wraps at 64 bits. */
module Words {

  const TWO_TO_32 := 0x1_0000_0000
  const TWO_TO_63 := 0x8000_0000_0000_0000
  const TWO_TO_64 := 0x1_0000_0000_0000_0000

  /** An unsigned 64-bit integer. */
  type Word = x: nat | x < TWO_TO_64

  function Add64(a: Word, b: Word): Word {
    if a + b < TWO_TO_64 then a + b else a + b - TWO_TO_64
  }

  /** Subtraction, which wraps when b is the larger. */
  function Sub64(a: nat, b: nat): (r: nat)
    ensures a < TWO_TO_64 ==> r < TWO_TO_64
    ensures a < b < a + TWO_TO_64 ==> r == a + TWO_TO_64 - b
    ensures r == a - b <==> b <= a
    ensures r >= a - b
  {
    if a >= b then a - b else (a - b) % TWO_TO_64
  }
}
