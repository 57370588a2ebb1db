/** Inodes and the blocks they map: which block holds which byte of a file. */
module Inodes {
  import opened Blocks
  import opened Ownership

  const NDIRECT := 12
  const NINDIRECT := 128
  const MAXFILE := 140
  const MAX_BYTES := 71680     // MAXFILE * BSIZE

  type Addrs = s: seq<nat> | |s| == 13 witness seq(13, _ => 0)

  datatype Dinode = Dinode(typ: int, nlink: int, size: nat, addrs: Addrs)

  // ---------- Indirect blocks ----------

  function WordsTo(b: Block, k: nat): (r: seq<nat>)
    requires k <= WORDS_PER_BLOCK
    ensures |r| == k
  {
    if k == 0 then [] else WordsTo(b, k - 1) + [Word(b, k - 1)]
  }

  /** The block numbers an indirect block lists. */
  function Words(b: Block): (r: seq<nat>)
    ensures |r| == 128
  {
    WordsTo(b, 128)
  }

  lemma {:induction false} WordsToAt(b: Block, k: nat, i: nat)
    requires i < k <= WORDS_PER_BLOCK
    ensures WordsTo(b, k)[i] == Word(b, i)
  {
    if i < k - 1 { WordsToAt(b, k - 1, i); }
  }

  lemma WordsAt(b: Block, i: nat)
    requires i < NINDIRECT
    ensures Words(b)[i] == Word(b, i)
  {
    WordsToAt(b, 128, i);
  }

  lemma WordsSet(b: Block, i: nat, w: nat)
    requires i < NINDIRECT && w < UINT_LIMIT
    ensures Words(SetWord(b, i, w)) == Words(b)[i := w]
  {
    SetWordReadsBack(b, i, w);
    forall j: nat | j < NINDIRECT ensures Words(SetWord(b, i, w))[j] == Words(b)[i := w][j] {
      WordsAt(SetWord(b, i, w), j);
      WordsAt(b, j);
    }
  }

  function Zeros(n: nat): (r: seq<nat>)
    ensures |r| == n && forall i :: 0 <= i < n ==> r[i] == 0
  {
    seq(n, _ => 0)
  }

  lemma ZeroWord(b: Block, i: nat)
    requires IsZero(b) && i < NINDIRECT
    ensures Words(b)[i] == 0
  {
    WordsAt(b, i);
  }

  lemma AllZero(r: seq<nat>, n: nat)
    requires |r| == n && forall i: nat :: i < n ==> r[i] == 0
    ensures r == Zeros(n)
  {
  }

  lemma WordsZero(b: Block)
    requires IsZero(b)
    ensures Words(b) == Zeros(128)
  {
    var r := Words(b);
    forall i: nat | i < NINDIRECT ensures r[i] == 0 { ZeroWord(b, i); }
    AllZero(r, 128);
  }

  // ---------- Rows ----------

  /** The entries of an inode's indirect block, all zero if it has none. */
  function Entries(d: Dinode, blocks: seq<Block>): (r: seq<nat>)
    ensures |r| == 128
  {
    if 0 < d.addrs[12] < |blocks| then Words(blocks[d.addrs[12]]) else Zeros(128)
  }

  function RowOf(d: Dinode, blocks: seq<Block>): Row { d.addrs + Entries(d, blocks) }

  lemma EntryIs(d: Dinode, blocks: seq<Block>, j: nat)
    requires 0 < d.addrs[12] < |blocks| && j < NINDIRECT
    ensures RowOf(d, blocks)[13 + j] == Word(blocks[d.addrs[12]], j)
  {
    WordsAt(blocks[d.addrs[12]], j);
  }

  /** The slot that maps block number bn of a file. */
  function SlotOf(bn: nat): nat { if bn < NDIRECT then bn else bn + 1 }

  ghost predicate RowsMatch(rows: seq<Row>, ds: seq<Dinode>, blocks: seq<Block>) {
    |rows| == |ds| && forall i :: 0 <= i < |rows| ==> rows[i] == RowOf(ds[i], blocks)
  }

  /** A block nobody uses as an indirect block can change without any row changing. */
  lemma RowFrame(d: Dinode, blocks: seq<Block>, x: nat, c: Block)
    requires x < |blocks| && (d.addrs[12] == 0 || d.addrs[12] != x)
    ensures RowOf(d, blocks[x := c]) == RowOf(d, blocks)
  {
  }

  lemma RowsFrame(rows: seq<Row>, ds: seq<Dinode>, blocks: seq<Block>, x: nat, c: Block)
    requires RowsMatch(rows, ds, blocks) && x < |blocks|
    requires forall i :: 0 <= i < |rows| ==> rows[i][12] == 0 || rows[i][12] != x
    ensures RowsMatch(rows, ds, blocks[x := c])
  {
    forall i | 0 <= i < |rows| ensures rows[i] == RowOf(ds[i], blocks[x := c]) {
      assert rows[i][12] == ds[i].addrs[12];
      RowFrame(ds[i], blocks, x, c);
    }
  }

  /** Filling a direct slot, or the slot of a zeroed indirect block. */
  lemma RowSetAddr(d: Dinode, blocks: seq<Block>, k: nat, b: nat)
    requires k < 13 && (k == 12 ==> d.addrs[12] == 0 && 0 < b < |blocks| && Words(blocks[b]) == Zeros(128))
    ensures RowOf(d.(addrs := d.addrs[k := b]), blocks) == RowOf(d, blocks)[k := b]
  {
  }

  /** Filling an entry of the indirect block. */
  lemma RowSetEntry(d: Dinode, blocks: seq<Block>, j: nat, b: nat)
    requires 0 < d.addrs[12] < |blocks| && j < NINDIRECT && b < UINT_LIMIT
    ensures RowOf(d, blocks[d.addrs[12] := SetWord(blocks[d.addrs[12]], j, b)]) == RowOf(d, blocks)[13 + j := b]
  {
    WordsSet(blocks[d.addrs[12]], j, b);
  }

  /** Blocks below the size are mapped and no others, so the file has no holes and no spare blocks. */
  ghost predicate NoHoles(row: Row, size: nat) {
    && size <= MAX_BYTES
    && (forall bn: nat {:trigger row[SlotOf(bn)]} :: bn < MAXFILE ==> (row[SlotOf(bn)] != 0 <==> bn * BSIZE < size))
    && (row[12] != 0 <==> NDIRECT * BSIZE < size)
  }
}
