/** The transaction of sys_unlink when it removes the last link to an inode that nobody uses: iput then frees
    the inode's blocks in the same transaction, so its size depends on how many bitmap blocks they touch. */
module UnlinkLog {
  import opened Blocks
  import opened Ownership
  import opened Inodes
  import opened Space
  import opened Maps
  import opened Fs

  const DIRENT := 16     // sizeof(struct dirent)
  const T_DIR := 1

  // ---------- What is logged ----------

  /** The block of the directory that holds the entry at off. */
  function EntryBlock(row: Row, off: nat): nat
    requires off < MAX_BYTES
  {
    row[SlotOf(Lo(off))]
  }

  /** The blocks of the transaction: the entry's, the parent's inode if a directory goes, the inode itself, and
      the bitmap blocks of all it held. */
  function UnlinkBlocks(entry: nat, parent: nat, iblock: nat, dir: bool, row: Row, bmapstart: nat): set<nat> {
    {entry} + (if dir then {parent} else {}) + {iblock} + MapsOf(row, bmapstart)
  }

  /** Clearing an entry of a directory allocates nothing and logs one block. */
  lemma EntryLog(before: Row, row: Row, size: nat, off: nat, bmapstart: nat)
    requires NoHoles(before, size) && NoHoles(row, size) && Extends(before, row)
    requires off % DIRENT == 0 && off + DIRENT <= size
    ensures Hi(off, DIRENT) <= MAXFILE && Need(before, Lo(off), Hi(off, DIRENT)) == 0
    ensures WriteLog(before, row, Lo(off), Hi(off, DIRENT), bmapstart) == {EntryBlock(before, off)}
  {
    var bn := Lo(off);
    assert Hi(off, DIRENT) == bn + 1;
    MappedBelowSize(before, size, bn);
    assert LogBlocks(before, row, bn, bn, bmapstart) == {};
    assert Fresh(before, bn, bn) == 0;
    assert row[SlotOf(bn)] == before[SlotOf(bn)];
  }

  lemma SameRowsAnyMeta(rows: seq<Row>, ds: seq<Dinode>, blocks: seq<Block>, i: nat, typ: int, nlink: int)
    requires RowsMatch(rows, ds, blocks) && i < |ds|
    ensures RowsMatch(rows, ds[i := ds[i].(typ := typ, nlink := nlink)], blocks)
  {
  }

  /** A change of the type or link count, and iupdate. */
  method SetMeta(fs: FileSystem, ip: Inode, typ: int, nlink: int)
    requires fs.Settled(ip)
    modifies fs`dinodes, fs`txn, ip`d
    ensures fs.Settled(ip) && ip.d == old(ip.d).(typ := typ, nlink := nlink)
    ensures fs.dinodes == old(fs.dinodes)[ip.inum := ip.d] && fs.txn == old(fs.txn) + [fs.Iblock(ip.inum)]
  {
    SameRowsAnyMeta(fs.rows, fs.dinodes[ip.inum := ip.d], fs.blocks, ip.inum, typ, nlink);
    ghost var d := ip.d.(typ := typ, nlink := nlink);
    assert fs.dinodes[ip.inum := ip.d][ip.inum := d] == fs.dinodes[ip.inum := d];
    ip.d := ip.d.(typ := typ, nlink := nlink);
    fs.Iupdate(ip);
  }

  /** What keeps one inode settled while another changes. */
  lemma StaysSettled(fs: FileSystem, dp: Inode, ip: Inode)
    requires fs.Settled(dp) && ip.inum < |fs.dinodes| && fs.dinodes[ip.inum] == ip.d && |fs.rows| == |fs.dinodes|
    requires NoHoles(fs.rows[ip.inum], ip.d.size)
    ensures fs.Settled(ip)
  {
    assert fs.dinodes[ip.inum := ip.d] == fs.dinodes == fs.dinodes[dp.inum := dp.d];
  }

  /** writei of an empty entry over the one at off. */
  method ClearEntry(fs: FileSystem, dp: Inode, ip: Inode, off: nat)
    requires fs.Settled(dp) && fs.Settled(ip) && dp != ip && dp.inum != ip.inum
    requires off % DIRENT == 0 && off + DIRENT <= dp.d.size && fs.txn == []
    modifies fs, dp
    ensures fs.Settled(dp) && fs.Settled(ip) && fs.rows[ip.inum] == old(fs.rows[ip.inum])
    ensures Logged(fs.txn) == {EntryBlock(old(fs.rows[dp.inum]), off)}
  {
    var zero: seq<Byte> := seq(DIRENT, _ => 0);
    ghost var row, size := fs.rows[dp.inum], dp.d.size;
    EntryLog(row, row, size, off, fs.bmapstart);
    var ok, r := fs.Writei(dp, zero, off);
    EntryLog(row, fs.rows[dp.inum], size, off, fs.bmapstart);
    StaysSettled(fs, dp, ip);
  }

  /** The link counts of the parent, if a directory goes, and of the inode. */
  method DropLinks(fs: FileSystem, dp: Inode, ip: Inode)
    requires fs.Settled(dp) && fs.Settled(ip) && dp != ip && dp.inum != ip.inum
    modifies fs`dinodes, fs`txn, dp`d, ip`d
    ensures fs.Settled(dp) && fs.Settled(ip) && ip.d.typ == old(ip.d.typ)
    ensures Logged(fs.txn) == Logged(old(fs.txn)) + (if ip.d.typ == T_DIR then {fs.Iblock(dp.inum)} else {})
                              + {fs.Iblock(ip.inum)}
  {
    if ip.d.typ == T_DIR {
      SetMeta(fs, dp, dp.d.typ, dp.d.nlink - 1);
      LoggedNext(old(fs.txn), fs.Iblock(dp.inum));
      StaysSettled(fs, dp, ip);
    }
    LoggedNext(fs.txn, fs.Iblock(ip.inum));
    SetMeta(fs, ip, ip.d.typ, ip.d.nlink - 1);
    StaysSettled(fs, ip, dp);
  }

  /** iput's part for an inode without links and other references. */
  method FreeInode(fs: FileSystem, dp: Inode, ip: Inode)
    requires fs.Settled(dp) && fs.Settled(ip) && dp != ip && dp.inum != ip.inum
    modifies fs, ip`d
    ensures fs.Settled(dp) && fs.Settled(ip) && ip.d.typ == 0 && ip.d.size == 0
    ensures Logged(fs.txn) == Logged(old(fs.txn)) + MapsOf(old(fs.rows[ip.inum]), fs.bmapstart) + {fs.Iblock(ip.inum)}
    ensures RepeatsLast(fs.txn)
  {
    fs.Itrunc(ip);
    ghost var txn := fs.txn;
    LoggedNext(txn, fs.Iblock(ip.inum));
    SetMeta(fs, ip, 0, ip.d.nlink);
    assert fs.Iblock(ip.inum) in Logged(txn) && fs.txn[..|fs.txn| - 1] == txn;
    StaysSettled(fs, ip, dp);
  }

  /** sys_unlink from the clearing of the entry on, for the last link to an inode without other references. */
  method Unlink(fs: FileSystem, dp: Inode, ip: Inode, off: nat)
    requires fs.Settled(dp) && fs.Settled(ip) && dp != ip && dp.inum != ip.inum
    requires off % DIRENT == 0 && off + DIRENT <= dp.d.size && ip.d.nlink == 1
    modifies fs, dp, ip
    ensures fs.Settled(dp) && fs.Settled(ip) && ip.d.typ == 0 && ip.d.size == 0
    ensures Logged(fs.txn) == UnlinkBlocks(EntryBlock(old(fs.rows[dp.inum]), off), fs.Iblock(dp.inum),
                                           fs.Iblock(ip.inum), old(ip.d.typ) == T_DIR, old(fs.rows[ip.inum]),
                                           fs.bmapstart)
    ensures RepeatsLast(fs.txn)
  {
    fs.txn := [];
    ClearEntry(fs, dp, ip, off);
    DropLinks(fs, dp, ip);
    FreeInode(fs, dp, ip);
  }

  /** The last call of log_write is for a block that has been logged before. */
  ghost predicate RepeatsLast(txn: seq<nat>) { txn != [] && txn[|txn| - 1] in txn[..|txn| - 1] }

  /** So no call comes when MAXOPBLOCKS blocks are logged exactly if there are fewer of them in all. */
  lemma WithinIff(txn: seq<nat>)
    requires RepeatsLast(txn)
    ensures Within(txn) <==> |Logged(txn)| < MAXOPBLOCKS
  {
    var k := |txn| - 1;
    assert txn == txn[..k] + [txn[k]];
    assert Logged(txn[..k]) == Logged(txn);
    if |Logged(txn)| < MAXOPBLOCKS {
      forall j: nat | j < |txn| ensures |Logged(txn[..j])| < MAXOPBLOCKS { CountWithin(Logged(txn[..j]), Logged(txn)); }
    } else {
      assert k < |txn| && |Logged(txn[..k])| >= MAXOPBLOCKS;
    }
  }

  // ---------- How large it gets ----------

  /** An unlink on some disk: inode i goes, of isize bytes, and with it the entry at off of directory d. */
  datatype Case = Case(rows: seq<Row>, bitmap: seq<bool>, nmeta: nat, inodestart: nat, bmapstart: nat,
                       d: nat, i: nat, dsize: nat, isize: nat, off: nat)

  /** The disk has at most n blocks' worth of bits in its bitmap; inodes, bitmap and data follow each other. */
  ghost predicate Possible(c: Case, n: nat) {
    && OwnedOnce(c.rows, c.bitmap, c.nmeta) && |c.bitmap| <= n * BPB
    && c.d < |c.rows| && c.i < |c.rows| && c.d != c.i && (|c.rows| - 1) / IPB + c.inodestart < c.bmapstart
    && (|c.bitmap| - 1) / BPB + c.bmapstart < c.nmeta
    && NoHoles(c.rows[c.d], c.dsize) && NoHoles(c.rows[c.i], c.isize)
    && c.off % DIRENT == 0 && c.off + DIRENT <= c.dsize
  }

  function CaseBlocks(c: Case, dir: bool): set<nat>
    requires c.d < |c.rows| && c.i < |c.rows| && c.off < MAX_BYTES
  {
    UnlinkBlocks(EntryBlock(c.rows[c.d], c.off), c.d / IPB + c.inodestart, c.i / IPB + c.inodestart, dir, c.rows[c.i],
                 c.bmapstart)
  }

  /** Every transaction of this kind on such disks has at most `limit` blocks. */
  ghost predicate Bounded(n: nat, dir: bool, limit: nat) {
    forall c :: Possible(c, n) ==> |CaseBlocks(c, dir)| <= limit
  }

  /** The blocks besides those of the bitmap. */
  function Others(dir: bool): nat { if dir then 3 else 2 }

  function Interval(lo: nat, n: nat): (r: set<nat>)
    ensures forall m :: m in r <==> lo <= m < lo + n
  {
    if n == 0 then {} else Interval(lo, n - 1) + {lo + n - 1}
  }

  lemma {:induction false} IntervalCount(lo: nat, n: nat)
    ensures |Interval(lo, n)| == n
  {
    if n > 0 { IntervalCount(lo, n - 1); }
  }

  lemma MapsBound(c: Case, n: nat)
    requires Possible(c, n)
    ensures |MapsOf(c.rows[c.i], c.bmapstart)| <= n
  {
    var maps := MapsOf(c.rows[c.i], c.bmapstart);
    forall m | m in maps ensures m in Interval(c.bmapstart, n) {
      MapsIs(c.rows[c.i], 0, SLOTS, c.bmapstart, m);
      var k :| 0 <= k < SLOTS && c.rows[c.i][k] != 0 && m == c.rows[c.i][k] / BPB + c.bmapstart;
      assert c.rows[c.i][k] < |c.bitmap|;
    }
    IntervalCount(c.bmapstart, n);
    CountWithin(maps, Interval(c.bmapstart, n));
  }

  lemma CaseBound(c: Case, n: nat, dir: bool)
    requires Possible(c, n)
    ensures |CaseBlocks(c, dir)| <= Others(dir) + n
  {
    MapsBound(c, n);
    ThreeMore(EntryBlock(c.rows[c.d], c.off), c.d / IPB + c.inodestart, c.i / IPB + c.inodestart, dir,
              MapsOf(c.rows[c.i], c.bmapstart));
  }

  lemma ThreeMore(entry: nat, parent: nat, iblock: nat, dir: bool, maps: set<nat>)
    ensures |{entry} + (if dir then {parent} else {}) + {iblock} + maps| <= Others(dir) + |maps|
  {
    var two := {entry} + if dir then {parent} else {};
    CountUnion({entry}, if dir then {parent} else {});
    CountUnion(two, {iblock});
    CountUnion(two + {iblock}, maps);
  }

  // ---------- An inode that touches w bitmap blocks ----------

  /* Inode 9 holds the last block of each of w groups of 4096, directory 1 the block before the first of these. */

  const NMETA := 4090

  function SlotBlock(w: nat, r: nat, k: nat): nat {
    if r == 1 && k == 0 then 4094 else if r == 9 && k < w then 4096 * k + 4095 else 0
  }

  function RowAt(w: nat, r: nat): (row: Row)
    ensures forall k :: 0 <= k < SLOTS ==> row[k] == SlotBlock(w, r, k)
  {
    seq(141, k requires 0 <= k < 141 => SlotBlock(w, r, k))
  }

  function Rows(w: nat): (rows: seq<Row>)
    ensures |rows| == 10 && forall r :: 0 <= r < 10 ==> rows[r] == RowAt(w, r)
  {
    seq(10, r requires 0 <= r < 10 => RowAt(w, r))
  }

  predicate Used(w: nat, b: nat) { b < NMETA || b == 4094 || (b % 4096 == 4095 && b < 4096 * w) }

  function Bits(w: nat): (bits: seq<bool>)
    ensures |bits| == 4096 * w && forall b :: 0 <= b < |bits| ==> bits[b] == Used(w, b)
  {
    seq(4096 * w, b requires 0 <= b < 4096 * w => Used(w, b))
  }

  function OwnerOf(b: nat): Place { if b == 4094 then Place(1, 0) else Place(9, b / 4096) }

  function Worst(w: nat): Case {
    Case(Rows(w), Bits(w), NMETA, 32, if w < NMETA then NMETA - 1 - w else 0, 1, 9, BSIZE, w * BSIZE, 0)
  }

  lemma WorstIsOwned(w: nat)
    requires 1 <= w <= 12
    ensures OwnedOnce(Rows(w), Bits(w), NMETA)
  {
    var rows, bits := Rows(w), Bits(w);
    var owner := map b: nat | b < 4096 * w :: OwnerOf(b);
    forall r, k | 0 <= r < |rows| && 0 <= k < SLOTS && rows[r][k] != 0
      ensures NMETA <= rows[r][k] < |bits| && bits[rows[r][k]]
      ensures rows[r][k] in owner && owner[rows[r][k]] == Place(r, k)
    {
      assert rows[r][k] == SlotBlock(w, r, k);
    }
    forall b | NMETA <= b < |bits| && bits[b] ensures HeldBy(rows, owner, b) {
      assert Used(w, b) && rows[owner[b].row] == RowAt(w, owner[b].row);
    }
    assert OwnedBy(rows, owner, bits, NMETA);
  }

  lemma WorstHasNoHoles(w: nat)
    requires 1 <= w <= 12
    ensures NoHoles(Rows(w)[1], BSIZE) && NoHoles(Rows(w)[9], w * BSIZE)
  {
    forall bn: nat | bn < MAXFILE ensures Rows(w)[1][SlotOf(bn)] != 0 <==> bn * BSIZE < BSIZE {
      assert Rows(w)[1][SlotOf(bn)] == SlotBlock(w, 1, SlotOf(bn));
    }
    forall bn: nat | bn < MAXFILE ensures Rows(w)[9][SlotOf(bn)] != 0 <==> bn * BSIZE < w * BSIZE {
      assert Rows(w)[9][SlotOf(bn)] == SlotBlock(w, 9, SlotOf(bn));
    }
    assert Rows(w)[1][12] == SlotBlock(w, 1, 12) && Rows(w)[9][12] == SlotBlock(w, 9, 12);
  }

  lemma WorstIsPossible(w: nat, n: nat)
    requires 1 <= w <= 12 && w <= n
    ensures Possible(Worst(w), n)
  {
    WorstIsOwned(w);
    WorstHasNoHoles(w);
    assert (4096 * w - 1) / BPB == w - 1;
  }

  lemma WorstMaps(w: nat)
    requires 1 <= w <= 12
    ensures MapsOf(Worst(w).rows[9], Worst(w).bmapstart) == Interval(Worst(w).bmapstart, w)
  {
    var row, start := Worst(w).rows[9], Worst(w).bmapstart;
    forall m ensures m in MapsOf(row, start) <==> m in Interval(start, w) {
      if m in Interval(start, w) {
        var k := m - start;
        assert row[k] == SlotBlock(w, 9, k) && row[k] / BPB == k;
      }
      if m >= 0 { MapsIs(row, 0, SLOTS, start, m); }
    }
  }

  lemma WorstCount(w: nat, dir: bool)
    requires 1 <= w <= 12
    ensures |CaseBlocks(Worst(w), dir)| == Others(dir) + w
  {
    var c, start := Worst(w), NMETA - 1 - w;
    WorstMaps(w);
    IntervalCount(start, w);
    assert c.rows[1][0] == SlotBlock(w, 1, 0) == 4094;
    assert EntryBlock(c.rows[1], 0) == 4094;
    JoinCount(if dir then {4094} + {32} + {33} else {4094} + {} + {33}, Interval(start, w));
    HeadCount(dir);
  }

  lemma JoinCount(a: set<nat>, b: set<nat>)
    requires a !! b
    ensures |a + b| == |a| + |b|
  {
  }

  lemma HeadCount(dir: bool)
    ensures |if dir then {4094} + {32} + {33} else {4094} + {} + {33}| == Others(dir)
  {
    if dir {
      assert {4094} + {32} + {33} == {4094, 32, 33};
    } else {
      assert {4094} + {} + {33} == {4094, 33};
    }
  }

  /** Exactly the disks with few enough bitmap blocks keep an unlink within a limit. */
  lemma BoundedIff(n: nat, dir: bool, limit: nat)
    requires 3 <= limit <= MAXOPBLOCKS
    ensures Bounded(n, dir, limit) <==> n + Others(dir) <= limit
  {
    if n + Others(dir) <= limit {
      forall c | Possible(c, n) ensures |CaseBlocks(c, dir)| <= limit { CaseBound(c, n, dir); }
    } else {
      var w := limit + 1 - Others(dir);
      WorstIsPossible(w, n);
      WorstCount(w, dir);
      assert |CaseBlocks(Worst(w), dir)| > limit;
    }
  }

  /** An unlink of a directory stays within its reservation on every disk with up to seven bitmap blocks and not
      beyond, that of a file with up to eight. With one fewer it never repeats a call at the limit either. */
  lemma UnlinkFitsIff(n: nat)
    ensures Bounded(n, true, MAXOPBLOCKS) <==> n <= 7
    ensures Bounded(n, false, MAXOPBLOCKS) <==> n <= 8
    ensures Bounded(n, true, MAXOPBLOCKS - 1) <==> n <= 6
    ensures Bounded(n, false, MAXOPBLOCKS - 1) <==> n <= 7
  {
    BoundedIff(n, true, MAXOPBLOCKS);
    BoundedIff(n, false, MAXOPBLOCKS);
    BoundedIff(n, true, MAXOPBLOCKS - 1);
    BoundedIff(n, false, MAXOPBLOCKS - 1);
  }
}
