/** What a write costs: the blocks it must allocate, and the blocks it passes to log_write. */
module Space {
  import opened Blocks
  import opened Ownership
  import opened Inodes

  const BPB := 4096

  function One(c: bool): nat { if c then 1 else 0 }

  // ---------- Free blocks ----------

  ghost function Free(bitmap: seq<bool>): set<nat> { set b: nat | b < |bitmap| && !bitmap[b] }

  lemma FreeTakes(bitmap: seq<bool>, b: nat)
    requires b < |bitmap| && !bitmap[b]
    ensures |Free(bitmap)| == |Free(bitmap[b := true])| + 1
  {
    assert Free(bitmap[b := true]) == Free(bitmap) - {b};
  }

  lemma NoneFree(bitmap: seq<bool>)
    requires forall b :: 0 <= b < |bitmap| ==> bitmap[b]
    ensures |Free(bitmap)| == 0
  {
    assert Free(bitmap) == {};
  }

  // ---------- Blocks to allocate ----------

  /** The blocks lo .. hi that bytes off .. off + n touch. */
  function Lo(off: nat): nat { off / BSIZE }

  function Hi(off: nat, n: nat): nat { if n == 0 then off / BSIZE else (off + n - 1) / BSIZE + 1 }

  /** How many of blocks lo .. hi of a file are not mapped. */
  function Fresh(row: Row, lo: nat, hi: nat): nat
    requires hi <= MAXFILE
  {
    if hi <= lo then 0 else Fresh(row, lo, hi - 1) + One(row[SlotOf(hi - 1)] == 0)
  }

  lemma {:induction false} FreshFirst(row: Row, lo: nat, hi: nat)
    requires lo < hi <= MAXFILE
    ensures Fresh(row, lo, hi) == One(row[SlotOf(lo)] == 0) + Fresh(row, lo + 1, hi)
  {
    if lo + 1 < hi { FreshFirst(row, lo, hi - 1); }
  }

  lemma {:induction false} FreshAtMost(row: Row, lo: nat, hi: nat)
    requires lo <= hi <= MAXFILE
    ensures Fresh(row, lo, hi) <= hi - lo
  {
    if lo < hi { FreshAtMost(row, lo, hi - 1); }
  }

  lemma {:induction false} FreshFrame(row: Row, row': Row, lo: nat, hi: nat)
    requires hi <= MAXFILE &&
             forall bn: nat {:trigger row'[SlotOf(bn)]} :: lo <= bn < hi ==> row'[SlotOf(bn)] == row[SlotOf(bn)]
    ensures Fresh(row', lo, hi) == Fresh(row, lo, hi)
  {
    if lo < hi {
      FreshFrame(row, row', lo, hi - 1);
      assert row'[SlotOf(hi - 1)] == row[SlotOf(hi - 1)];
    }
  }

  /** The blocks that writing blocks lo .. hi must allocate: the missing ones, and the indirect block if
      some block lies past the direct ones and there is none yet. */
  function Need(row: Row, lo: nat, hi: nat): nat
    requires hi <= MAXFILE
  {
    Fresh(row, lo, hi) + One(lo < hi && hi > NDIRECT && row[12] == 0)
  }

  /** The part of this that falls on block bn alone. */
  function Cost(row: Row, bn: nat): nat
    requires bn < MAXFILE
  {
    One(row[SlotOf(bn)] == 0) + One(bn >= NDIRECT && row[12] == 0)
  }

  /** Mapping block bn of the row leaves the rest of the bill to pay. */
  lemma NeedStep(row: Row, row': Row, bn: nat, hi: nat)
    requires bn < hi <= MAXFILE
    requires forall b: nat {:trigger row'[SlotOf(b)]} :: bn < b < hi ==> row'[SlotOf(b)] == row[SlotOf(b)]
    requires if bn >= NDIRECT then row'[12] != 0 else row'[12] == row[12]
    ensures Need(row, bn, hi) == Cost(row, bn) + Need(row', bn + 1, hi)
  {
    FreshFirst(row, bn, hi);
    FreshFrame(row, row', bn + 1, hi);
  }

  /** The number of blocks that n bytes fill, the last one perhaps in part. */
  function BlocksFor(n: nat): nat { (n + 511) / BSIZE }

  function Above(a: nat, b: nat): nat { if a > b then a - b else 0 }

  lemma {:induction false} FreshWithoutHoles(row: Row, size: nat, lo: nat, hi: nat)
    requires NoHoles(row, size) && lo <= BlocksFor(size) && hi <= MAXFILE
    ensures Fresh(row, lo, hi) == Above(hi, BlocksFor(size))
  {
    if lo < hi {
      assert row[SlotOf(hi - 1)] != 0 <==> (hi - 1) * BSIZE < size;
      FreshWithoutHoles(row, size, lo, hi - 1);
    }
  }

  /** Without holes the bill is: a block for each one past the old end of the file, and the indirect block
      if the write is the first to reach past the direct ones. */
  lemma NeedWithoutHoles(row: Row, size: nat, off: nat, n: nat)
    requires NoHoles(row, size) && off <= size && off + n <= MAX_BYTES
    ensures Hi(off, n) <= MAXFILE
    ensures Need(row, Lo(off), Hi(off, n)) ==
            Above(BlocksFor(off + n), BlocksFor(size)) + One(n > 0 && size <= NDIRECT * BSIZE < off + n)
  {
    FreshWithoutHoles(row, size, Lo(off), Hi(off, n));
  }

  function Max(a: nat, b: nat): nat { if a < b then b else a }

  /** The blocks that a file of n bytes without holes takes, the indirect block among them. */
  function BlocksOf(n: nat): nat { BlocksFor(n) + One(n > NDIRECT * BSIZE) }

  lemma BlocksOfGrows(n: nat, m: nat)
    requires n <= m
    ensures BlocksOf(n) <= BlocksOf(m)
  {
  }

  /** So a write allocates what the file takes more afterwards than before. */
  lemma NeedIsGrowth(row: Row, size: nat, off: nat, n: nat)
    requires NoHoles(row, size) && off <= size && off + n <= MAX_BYTES
    ensures Hi(off, n) <= MAXFILE
    ensures BlocksOf(size) + Need(row, Lo(off), Hi(off, n)) == BlocksOf(Max(size, off + n))
  {
    NeedWithoutHoles(row, size, off, n);
  }

  // ---------- Blocks to log ----------

  /** The blocks that writing block bn logs: the block itself and, if it is new, the bitmap block with its
      bit and the indirect block that lists it. */
  function LogAt(before: Row, row: Row, bn: nat, bmapstart: nat): set<nat>
    requires bn < MAXFILE
  {
    var b := row[SlotOf(bn)];
    if before[SlotOf(bn)] != 0 then {b}
    else if bn < NDIRECT then {b, b / BPB + bmapstart}
    else {b, b / BPB + bmapstart, row[12]}
  }

  /** A new indirect block is logged with its bitmap block. */
  function LogIndirect(before: Row, row: Row, bmapstart: nat): set<nat> {
    if before[12] == 0 != row[12] then {row[12], row[12] / BPB + bmapstart} else {}
  }

  function LogBlocks(before: Row, row: Row, lo: nat, hi: nat, bmapstart: nat): set<nat>
    requires hi <= MAXFILE
  {
    if hi <= lo then {} else LogBlocks(before, row, lo, hi - 1, bmapstart) + LogAt(before, row, hi - 1, bmapstart)
  }

  /** All that a write of blocks lo .. hi logs, the inode aside, by the block map before and after. */
  function WriteLog(before: Row, row: Row, lo: nat, hi: nat, bmapstart: nat): set<nat>
    requires hi <= MAXFILE
  {
    LogBlocks(before, row, lo, hi, bmapstart) + LogIndirect(before, row, bmapstart)
  }

  ghost predicate SameAt(row: Row, row': Row, bn: nat) {
    bn < MAXFILE && row'[SlotOf(bn)] == row[SlotOf(bn)] && (bn >= NDIRECT ==> row'[12] == row[12])
  }

  lemma {:induction false} LogFrame(before: Row, row: Row, row': Row, lo: nat, hi: nat, bmapstart: nat)
    requires hi <= MAXFILE && forall bn: nat :: lo <= bn < hi ==> SameAt(row, row', bn)
    ensures LogBlocks(before, row', lo, hi, bmapstart) == LogBlocks(before, row, lo, hi, bmapstart)
  {
    if lo < hi {
      LogFrame(before, row, row', lo, hi - 1, bmapstart);
      assert SameAt(row, row', hi - 1);
    }
  }

  lemma CountUnion(a: set<nat>, b: set<nat>)
    ensures |a + b| <= |a| + |b|
  {
  }

  lemma CountWithin(a: set<nat>, b: set<nat>)
    requires a <= b
    ensures |a| <= |b|
  {
    assert b == a + (b - a);
  }

  lemma {:induction false} LogCover(before: Row, row: Row, lo: nat, hi: nat, bmapstart: nat)
      returns (data: set<nat>, maps: set<nat>)
    requires lo <= hi <= MAXFILE
    ensures LogBlocks(before, row, lo, hi, bmapstart) <= data + maps + {row[12]}
    ensures |data| <= hi - lo && |maps| <= Fresh(before, lo, hi)
  {
    data, maps := {}, {};
    if lo < hi {
      data, maps := LogCover(before, row, lo, hi - 1, bmapstart);
      var b := row[SlotOf(hi - 1)];
      CountUnion(data, {b});
      data := data + {b};
      if before[SlotOf(hi - 1)] == 0 {
        CountUnion(maps, {b / BPB + bmapstart});
        maps := maps + {b / BPB + bmapstart};
      }
    }
  }

  /** A write logs at most its blocks, a bitmap block for each new one, and two for the indirect block. */
  lemma LogBound(before: Row, row: Row, lo: nat, hi: nat, bmapstart: nat)
    requires lo <= hi <= MAXFILE
    ensures |WriteLog(before, row, lo, hi, bmapstart)| <= hi - lo + Fresh(before, lo, hi) + 2
  {
    var data, maps := LogCover(before, row, lo, hi, bmapstart);
    var extra := {row[12], row[12] / BPB + bmapstart};
    CountUnion(data, maps);
    CountUnion(data + maps, extra);
    CountWithin(WriteLog(before, row, lo, hi, bmapstart), data + maps + extra);
  }

  /** A chunk of filewrite, at most three blocks' worth of bytes, logs at most nine blocks besides the
      inode. It may touch four blocks, but then it starts inside the first, which without holes is mapped. */
  lemma ChunkLogBound(before: Row, row: Row, size: nat, off: nat, n: nat, bmapstart: nat)
    requires NoHoles(before, size) && off <= size && off + n <= MAX_BYTES && n <= 3 * BSIZE
    ensures Hi(off, n) <= MAXFILE && |WriteLog(before, row, Lo(off), Hi(off, n), bmapstart)| <= 9
  {
    var lo, hi := Lo(off), Hi(off, n);
    LogBound(before, row, lo, hi, bmapstart);
    FreshAtMost(before, lo, hi);
    if hi == lo + 4 {
      assert before[SlotOf(lo)] != 0 <==> lo * BSIZE < size;
      FreshFirst(before, lo, hi);
      FreshAtMost(before, lo + 1, hi);
    }
  }
}
