/**
  Claim handles: a 48-bit claim sequence above a 16-bit slot field that holds
  the slot index plus one.
*/
module Handles {
  import opened Bits
  import opened Numbers

  const INDEX_BITS: nat := 16
  const SEQUENCE_BITS: nat := 48
  const INDEX_MASK: nat := 0xFFFF
  const SEQUENCE_MASK: nat := 0xFFFF_FFFF_FFFF

  /** The sequence field a claim uses after the counter read `counter`. */
  function SequenceField(counter: nat): nat {
    And((counter + 1) % WORDS, SEQUENCE_MASK)
  }

  function HandleOf(sequence: nat, index: nat): nat {
    Or(Shl(sequence, INDEX_BITS), index + 1)
  }

  /** The slot field of a handle; zero names no slot. */
  function IndexField(handle: nat): nat {
    And(handle, INDEX_MASK)
  }

  lemma Double(k: nat, p: nat)
    requires Pow2(k) == p
    ensures Pow2(2 * k) == p * p
  {
    Pow2Adds(k, k);
  }

  lemma Masks()
    ensures Pow2(INDEX_BITS) == INDEX_MASK + 1
    ensures Pow2(SEQUENCE_BITS) == SEQUENCE_MASK + 1
    ensures Pow2(INDEX_BITS + SEQUENCE_BITS) == WORDS
  {
    Double(1, 2);
    Double(2, 4);
    Double(4, 16);
    Double(8, 256);
    Double(16, 0x1_0000);
    Double(32, 0x1_0000_0000);
    Pow2Adds(16, 32);
  }

  /** Two fields packed side by side: the low one can be masked out again. */
  lemma PackedFields(high: nat, low: nat, k: nat, width: nat)
    requires 0 < low < Pow2(k) && high < Pow2(width)
    ensures 0 < Or(Shl(high, k), low) < Pow2(k + width)
    ensures And(Or(Shl(high, k), low), Pow2(k) - 1) == low
  {
    PackIsSum(high, low, k);
    var h := Or(Shl(high, k), low);
    MaskIsMod(h, k);
    RemainderUnique(h, Pow2(k), high, low);
    Pow2Adds(k, width);
    Monotone(Pow2(k), high + 1, Pow2(width));
  }

  lemma SequenceFieldFits(counter: nat)
    ensures SequenceField(counter) < Pow2(SEQUENCE_BITS)
  {
    Masks();
    MaskIsMod((counter + 1) % WORDS, SEQUENCE_BITS);
  }

  /**
    For every ring the shim creates, a handle is nonzero, fits a word and
    decodes to the slot it was made for, whatever the sequence field is.
  */
  lemma HandleDecodes(counter: nat, index: nat)
    requires index < 0xFFFF
    ensures var h := HandleOf(SequenceField(counter), index);
            0 < h < WORDS && IndexField(h) == index + 1
  {
    Masks();
    SequenceFieldFits(counter);
    PackedFields(SequenceField(counter), index + 1, INDEX_BITS, SEQUENCE_BITS);
  }

  /** Two handles for different slots differ, even when their sequence fields collide. */
  lemma LiveHandlesDiffer(counter: nat, counter': nat, index: nat, index': nat)
    requires index < 0xFFFF && index' < 0xFFFF && index != index'
    ensures HandleOf(SequenceField(counter), index) != HandleOf(SequenceField(counter'), index')
  {
    HandleDecodes(counter, index);
    HandleDecodes(counter', index');
  }
}
