/** The machine limits that several modules share. */
module Numbers {
  /** The greatest 64-bit word. */
  const SIZE_MAX: nat := 0xFFFF_FFFF_FFFF_FFFF
  /** How many 64-bit words there are. */
  const WORDS: nat := 0x1_0000_0000_0000_0000
  /** The greatest integer that a JavaScript number holds exactly with all below it. */
  const MAX_SAFE_INTEGER: int := 0x1F_FFFF_FFFF_FFFF

  lemma Monotone(m: nat, a: nat, b: nat)
    requires a <= b
    ensures m * a <= m * b
  {
  }
}
