/** Unsigned 64-bit numbers. */
module Words {

  const WORD: nat := 0x1_0000_0000_0000_0000

  type Word = n: nat | n < WORD
}
