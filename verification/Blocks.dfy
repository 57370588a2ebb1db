/** Disk blocks as the bytes the kernel moves around, with the 32-bit
    little-endian words that log headers and indirect blocks are made of. */
module Blocks {

  const BSIZE := 512
  const WORDS_PER_BLOCK := 128
  const UINT_LIMIT := 0x1_0000_0000

  /** The most blocks that one file system operation may write. */
  const MAXOPBLOCKS := 10

  type Byte = x: int | 0 <= x < 256
  type Block = s: seq<Byte> | |s| == 512 witness seq(512, _ => 0)

  const ZERO_BLOCK: Block := seq(512, _ => 0)

  predicate IsZero(b: Block) { forall i :: 0 <= i < 512 ==> b[i] == 0 }

  /** Four bytes as a little-endian number. */
  function FromBytes(b0: Byte, b1: Byte, b2: Byte, b3: Byte): (w: nat)
    ensures w < UINT_LIMIT
  {
    b0 as int + 0x100 * b1 as int + 0x1_0000 * b2 as int + 0x100_0000 * b3 as int
  }

  /** The i-th `uint` of a block, as `((uint*)bp->data)[i]` reads it. */
  function Word(b: Block, i: nat): (w: nat)
    requires i < WORDS_PER_BLOCK
    ensures w < UINT_LIMIT
  {
    FromBytes(b[4 * i], b[4 * i + 1], b[4 * i + 2], b[4 * i + 3])
  }

  /** Stores a `uint` in the i-th word of a block. */
  function SetWord(b: Block, i: nat, w: nat): Block
    requires i < WORDS_PER_BLOCK && w < UINT_LIMIT
  {
    b[4 * i := w % 0x100]
     [4 * i + 1 := w / 0x100 % 0x100]
     [4 * i + 2 := w / 0x1_0000 % 0x100]
     [4 * i + 3 := w / 0x100_0000]
  }

  lemma SplitsIntoBytes(w: nat)
    requires w < UINT_LIMIT
    ensures FromBytes(w % 0x100, w / 0x100 % 0x100, w / 0x1_0000 % 0x100, w / 0x100_0000) == w
  {
    assert w / 0x100 / 0x100 == w / 0x1_0000;
    assert w / 0x1_0000 / 0x100 == w / 0x100_0000;
  }

  /** Word stores behave like an array of words: they read back, and leave the others alone. */
  lemma SetWordReadsBack(b: Block, i: nat, w: nat)
    requires i < WORDS_PER_BLOCK && w < UINT_LIMIT
    ensures Word(SetWord(b, i, w), i) == w
    ensures forall j: nat :: j < WORDS_PER_BLOCK && j != i ==> Word(SetWord(b, i, w), j) == Word(b, j)
  {
    SplitsIntoBytes(w);
  }
}
