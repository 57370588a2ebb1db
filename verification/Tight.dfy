/** The bound of MAXOPBLOCKS blocks a transaction is tight: how many blocks the dearest chunk of filewrite
    logs, and a disk on which it logs all ten. */
module Tight {
  import opened Blocks
  import opened Ownership
  import opened Inodes
  import opened Space
  import opened Maps
  import opened Fs
  import File

  // ---------- The dearest chunk ----------

  /** A chunk that starts inside the last block of a file without indirect block, and brings three new
      blocks and the indirect block. */
  predicate Dear(size: nat, off: nat, n: nat) {
    && off % BSIZE != 0 && off <= size <= (Lo(off) + 1) * BSIZE && Lo(off) < NDIRECT && off + n <= MAX_BYTES
    && Hi(off, n) == Lo(off) + 4 > NDIRECT
  }

  function Map(b: nat, bmapstart: nat): nat { b / BPB + bmapstart }

  /** The bitmap blocks of the four new blocks. */
  function NewMaps(row: Row, lo: nat, bmapstart: nat): set<nat>
    requires lo + 3 < MAXFILE
  {
    {Map(row[SlotOf(lo + 1)], bmapstart), Map(row[SlotOf(lo + 2)], bmapstart), Map(row[SlotOf(lo + 3)], bmapstart),
        Map(row[12], bmapstart)}
  }

  /** The blocks themselves, with the one that was there. */
  function FiveBlocks(row: Row, lo: nat): set<nat>
    requires lo + 3 < MAXFILE
  {
    {row[SlotOf(lo)], row[SlotOf(lo + 1)], row[SlotOf(lo + 2)], row[SlotOf(lo + 3)], row[12]}
  }

  lemma FourLogs(before: Row, row: Row, lo: nat, bmapstart: nat)
    requires lo + 4 <= MAXFILE
    ensures LogBlocks(before, row, lo, lo + 4, bmapstart)
         == LogAt(before, row, lo, bmapstart) + LogAt(before, row, lo + 1, bmapstart)
            + LogAt(before, row, lo + 2, bmapstart) + LogAt(before, row, lo + 3, bmapstart)
  {
    assert LogBlocks(before, row, lo, lo + 1, bmapstart) == LogAt(before, row, lo, bmapstart);
    assert LogBlocks(before, row, lo, lo + 2, bmapstart) ==
           LogAt(before, row, lo, bmapstart) + LogAt(before, row, lo + 1, bmapstart);
  }

  lemma DearLog(before: Row, row: Row, size: nat, off: nat, n: nat, bmapstart: nat)
    requires NoHoles(before, size) && NoHoles(row, off + n) && Dear(size, off, n)
    ensures Hi(off, n) <= MAXFILE
    ensures WriteLog(before, row, Lo(off), Hi(off, n), bmapstart) ==
            FiveBlocks(row, Lo(off)) + NewMaps(row, Lo(off), bmapstart)
  {
    var lo := Lo(off);
    assert before[SlotOf(lo)] != 0 && before[SlotOf(lo + 1)] == before[SlotOf(lo + 2)] == before[SlotOf(lo + 3)] == 0;
    FourLogs(before, row, lo, bmapstart);
    FourUnion(before, row, lo, bmapstart);
  }

  lemma FourUnion(before: Row, row: Row, lo: nat, bmapstart: nat)
    requires lo < NDIRECT < lo + 4 && before[SlotOf(lo)] != 0 == before[12] && row[12] != 0
    requires before[SlotOf(lo + 1)] == before[SlotOf(lo + 2)] == before[SlotOf(lo + 3)] == 0
    ensures LogAt(before, row, lo, bmapstart) + LogAt(before, row, lo + 1, bmapstart) +
            LogAt(before, row, lo + 2, bmapstart)
            + LogAt(before, row, lo + 3, bmapstart) + LogIndirect(before, row, bmapstart)
         == FiveBlocks(row, lo) + NewMaps(row, lo, bmapstart)
  {
  }

  lemma FiveDistinct(rows: seq<Row>, bitmap: seq<bool>, nmeta: nat, i: nat, off: nat, n: nat)
    requires OwnedOnce(rows, bitmap, nmeta) && i < |rows| && NoHoles(rows[i], off + n)
    requires Lo(off) < NDIRECT && Hi(off, n) == Lo(off) + 4 > NDIRECT && off + n <= MAX_BYTES
    ensures |FiveBlocks(rows[i], Lo(off))| == 5 &&
            forall b :: b in FiveBlocks(rows[i], Lo(off)) ==> nmeta <= b < |bitmap|
  {
    var lo, row := Lo(off), rows[i];
    assert row[SlotOf(lo)] != 0 && row[SlotOf(lo + 1)] != 0 && row[SlotOf(lo + 2)] != 0 && row[SlotOf(lo + 3)] != 0;
  }

  /** On a disk whose inode blocks, bitmap blocks and data blocks follow each other, such a chunk logs six
      blocks and the bitmap blocks of the four new ones; so it logs ten exactly when those are four. */
  lemma DearCount(rows: seq<Row>, bitmap: seq<bool>, nmeta: nat, i: nat, before: Row, size: nat, off: nat, n: nat,
          bmapstart: nat, iblock: nat)
    requires OwnedOnce(rows, bitmap, nmeta) && i < |rows| && NoHoles(before, size) && NoHoles(rows[i], off + n) &&
             Dear(size, off, n)
    requires iblock < bmapstart && Map(|bitmap| - 1, bmapstart) < nmeta
    ensures Hi(off, n) <= MAXFILE
    ensures |WriteLog(before, rows[i], Lo(off), Hi(off, n), bmapstart) + {iblock}| ==
            6 + |NewMaps(rows[i], Lo(off), bmapstart)|
  {
    DearLog(before, rows[i], size, off, n, bmapstart);
    FiveDistinct(rows, bitmap, nmeta, i, off, n);
    var five, maps := FiveBlocks(rows[i], Lo(off)), NewMaps(rows[i], Lo(off), bmapstart);
    forall m | m in maps ensures bmapstart <= m < nmeta {
    }
    assert five !! maps && iblock !in five + maps;
    assert |five + maps| == |five| + |maps|;
  }

  // ---------- A disk on which it costs ten ----------

  /* Four groups of 4096 blocks, one bitmap block each, with only the last block of each group free. The
     data area begins with three blocks of the root directory, inode 1, and the twelve blocks of the file,
     inode 2. Each group after the first belongs to thirty inodes, which take its blocks in order, 141 each.
     All other inodes are free. */

  const NBLOCKS := 16384
  const NMETA := 4080
  const NINODES := 32336
  const INODESTART := 32
  const BMAPSTART := 4075

  const FILE := 2        // the inode of the file
  const SIZE := 6144     // its size, twelve blocks
  const OFF := 5633      // inside the last of them

  /** The areas follow each other as mkfs lays them out: a boot block, the superblock, 30 blocks of log, the
      inodes, the bitmap. */
  lemma LaidOut()
    ensures INODESTART == 2 + 30 && BMAPSTART == INODESTART + NINODES / IPB + 1
    ensures NMETA == BMAPSTART + NBLOCKS / BPB + 1
  {
  }

  predicate Used(b: nat) { b % 4096 != 4095 }

  /** The block in slot k of inode r. */
  function SlotBlock(r: nat, k: nat): nat
    requires r < NINODES && k < SLOTS
  {
    if r == 1 then (if k < 3 then NMETA + k else 0)
    else if r == FILE then (if k < 12 then NMETA + 3 + k else 0)
    else if 3 <= r < 93 && 141 * ((r - 3) % 30) + k < 4095 then 4096 * ((r - 3) / 30 + 1) + 141 * ((r - 3) % 30) + k
    else 0
  }

  function OwnerOf(b: nat): Place
    requires NMETA <= b < NBLOCKS
  {
    if b < NMETA + 3 then Place(1, b - NMETA)
    else if b < 4096 then Place(FILE, b - NMETA - 3)
    else Place(30 * (b / 4096 - 1) + b % 4096 / 141 + 3, b % 4096 % 141)
  }

  lemma SlotHasOwner(r: nat, k: nat)
    requires r < NINODES && k < SLOTS && SlotBlock(r, k) != 0
    ensures NMETA <= SlotBlock(r, k) < NBLOCKS && Used(SlotBlock(r, k)) && OwnerOf(SlotBlock(r, k)) == Place(r, k)
  {
    if r > FILE {
      var g, q := (r - 3) / 30, (r - 3) % 30;
      var b := 4096 * (g + 1) + (141 * q + k);
      assert b / 4096 == g + 1 && b % 4096 == 141 * q + k;
      assert (141 * q + k) / 141 == q && (141 * q + k) % 141 == k;
    }
  }

  lemma OwnerHolds(b: nat)
    requires NMETA <= b < NBLOCKS && Used(b)
    ensures OwnerOf(b).row < NINODES && OwnerOf(b).slot < SLOTS && SlotBlock(OwnerOf(b).row, OwnerOf(b).slot) == b
  {
    if b >= 4096 {
      var g, o := b / 4096, b % 4096;
      var q := o / 141;
      assert q < 30 && 1 <= g < 4;
      assert (30 * (g - 1) + q) / 30 == g - 1 && (30 * (g - 1) + q) % 30 == q;
    }
  }

  ghost function Rows(): (r: seq<Row>)
    ensures |r| == NINODES
  {
    seq(NINODES, r requires 0 <= r < NINODES => seq(141, k requires 0 <= k < 141 => SlotBlock(r, k)))
  }

  function Bits(): (r: seq<bool>)
    ensures |r| == NBLOCKS
  {
    seq(NBLOCKS, b requires 0 <= b < NBLOCKS => Used(b))
  }

  lemma RowsAt(r: nat, k: nat)
    requires r < NINODES && k < SLOTS
    ensures Rows()[r][k] == SlotBlock(r, k)
  {
  }

  lemma DiskIsOwned()
    ensures OwnedOnce(Rows(), Bits(), NMETA)
  {
    var rows, bits := Rows(), Bits();
    var owner := map b: nat | NMETA <= b < NBLOCKS :: OwnerOf(b);
    forall i, k | 0 <= i < |rows| && 0 <= k < SLOTS && rows[i][k] != 0
      ensures NMETA <= rows[i][k] < |bits| && bits[rows[i][k]] && rows[i][k] in owner &&
              owner[rows[i][k]] == Place(i, k)
    {
      RowsAt(i, k);
      SlotHasOwner(i, k);
    }
    forall b | NMETA <= b < |bits| && bits[b] ensures HeldBy(rows, owner, b) {
      OwnerHolds(b);
      RowsAt(owner[b].row, owner[b].slot);
    }
    assert OwnedBy(rows, owner, bits, NMETA);
  }

  /** A block that lists 128 consecutive block numbers. */
  function Listing(first: nat): Block
    requires first + 128 <= UINT_LIMIT
  {
    seq(512, i requires 0 <= i < 512 => ByteAt(first + i / 4, i % 4))
  }

  function ByteAt(w: nat, i: nat): Byte
    requires w < UINT_LIMIT && i < 4
  {
    if i == 0 then w % 0x100
    else if i == 1 then w / 0x100 % 0x100
    else if i == 2 then w / 0x1_0000 % 0x100
    else w / 0x100_0000
  }

  lemma ListingWord(first: nat, j: nat)
    requires first + 128 <= UINT_LIMIT && j < 128
    ensures Word(Listing(first), j) == first + j
  {
    SplitsIntoBytes(first + j);
    assert 4 * j / 4 == (4 * j + 1) / 4 == (4 * j + 2) / 4 == (4 * j + 3) / 4 == j;
  }

  /** Every block lists the blocks after it, so an inode's indirect block lists the rest of its row. */
  function Contents(): (r: seq<Block>)
    ensures |r| == NBLOCKS
  {
    seq(NBLOCKS, b requires 0 <= b < NBLOCKS => Listing(b + 1))
  }

  /** Every inode of a group but the last is as large as a file can be; that one has six blocks. */
  function SizeOf(r: nat): nat {
    if r == 1 then 3 * BSIZE
    else if r == FILE then SIZE
    else if 3 <= r < 93 then (if (r - 3) % 30 < 29 then MAX_BYTES else 6 * BSIZE)
    else 0
  }

  function InodeAt(r: nat): Dinode
    requires r < NINODES
  {
    var typ := if r == 1 then 1 else if SizeOf(r) > 0 then 2 else 0;
    Dinode(typ, One(typ != 0), SizeOf(r), seq(13, k requires 0 <= k < 13 => SlotBlock(r, k)))
  }

  function Dinodes(): (r: seq<Dinode>)
    ensures |r| == NINODES
  {
    seq(NINODES, r requires 0 <= r < NINODES => InodeAt(r))
  }

  /** An inode with an indirect block has blocks in all of its slots, one after the other. */
  lemma RowRuns(r: nat, k: nat)
    requires r < NINODES && 12 <= k < SLOTS
    ensures SlotBlock(r, k) == if SlotBlock(r, 12) == 0 then 0 else SlotBlock(r, 12) + (k - 12)
  {
    if r > FILE {
      var q := (r - 3) % 30;
      assert 0 <= q < 30;
    }
  }

  lemma WordListed(a: nat, j: nat)
    requires a < NBLOCKS && j < NINDIRECT
    ensures Words(Contents()[a])[j] == a + 1 + j
  {
    ListingWord(a + 1, j);
    WordsAt(Contents()[a], j);
  }

  lemma EntryListed(r: nat, j: nat)
    requires r < NINODES && j < NINDIRECT
    ensures Entries(InodeAt(r), Contents())[j] == SlotBlock(r, 13 + j)
  {
    var a := SlotBlock(r, 12);
    RowRuns(r, 13 + j);
    assert InodeAt(r).addrs[12] == a;
    if a != 0 {
      SlotHasOwner(r, 12);
      WordListed(a, j);
    }
  }

  lemma RowListed(r: nat)
    requires r < NINODES
    ensures Rows()[r] == RowOf(InodeAt(r), Contents())
  {
    forall k | 0 <= k < SLOTS ensures Rows()[r][k] == RowOf(InodeAt(r), Contents())[k] {
      RowsAt(r, k);
      if k >= 13 { EntryListed(r, k - 13); }
    }
  }

  lemma RowsListed()
    ensures RowsMatch(Rows(), Dinodes(), Contents())
  {
    forall r | 0 <= r < NINODES ensures Rows()[r] == RowOf(Dinodes()[r], Contents()) {
      RowListed(r);
    }
  }

  lemma SlotUsedIff(r: nat, bn: nat)
    requires r < NINODES && bn < MAXFILE
    ensures SlotBlock(r, SlotOf(bn)) != 0 <==> bn * BSIZE < SizeOf(r)
  {
    if r > FILE {
      var q := (r - 3) % 30;
      assert q < 29 ==> 141 * q + SlotOf(bn) < 4095;
      assert q == 29 ==> (141 * q + SlotOf(bn) < 4095 <==> SlotOf(bn) < 6);
    }
  }

  lemma IndirectUsedIff(r: nat)
    requires r < NINODES
    ensures SlotBlock(r, 12) != 0 <==> NDIRECT * BSIZE < SizeOf(r)
  {
    if r > FILE {
      var q := (r - 3) % 30;
      assert q < 29 ==> 141 * q + 12 < 4095;
    }
  }

  /** No file on the disk has holes or spare blocks. */
  lemma NoFileHasHoles(r: nat)
    requires r < NINODES
    ensures NoHoles(Rows()[r], SizeOf(r))
  {
    forall bn: nat | bn < MAXFILE ensures Rows()[r][SlotOf(bn)] != 0 <==> bn * BSIZE < SizeOf(r) {
      RowsAt(r, SlotOf(bn));
      SlotUsedIff(r, bn);
    }
    RowsAt(r, 12);
    IndirectUsedIff(r);
  }

  lemma FourFree()
    ensures |Free(Bits())| >= 4
  {
    CountWithin({4095, 8191, 12287, 16383}, Free(Bits()));
  }

  /** A block that a write has newly mapped was free before. */
  lemma NewWasFree(s: Snap, t: Snap, nmeta: nat, i: nat, k: nat)
    requires OwnedOnce(s.rows, s.bitmap, nmeta) && OwnedOnce(t.rows, t.bitmap, nmeta) && |s.bitmap| == |t.bitmap|
    requires i < |s.rows| && OthersSame(s, t, i) && Extends(s.rows[i], t.rows[i]) && k < SLOTS &&
             s.rows[i][k] == 0 != t.rows[i][k]
    ensures t.rows[i][k] < |s.bitmap| && !s.bitmap[t.rows[i][k]]
  {
    var b := t.rows[i][k];
    var owner: map<nat, Place> :| OwnedBy(s.rows, owner, s.bitmap, nmeta);
    if s.bitmap[b] {
      assert HeldBy(s.rows, owner, b);
      SameSlot(t.rows, t.bitmap, nmeta, i, k, owner[b].row, owner[b].slot);
      assert false;
    }
  }

  /** Free blocks of this disk lie in different groups. */
  lemma FreeApart(b: nat, c: nat)
    requires b < NBLOCKS && c < NBLOCKS && !Bits()[b] && !Bits()[c] && b != c
    ensures Map(b, BMAPSTART) != Map(c, BMAPSTART)
  {
    assert b == 4096 * (b / 4096) + 4095 && c == 4096 * (c / 4096) + 4095;
  }

  /** The write has to take them from all four. */
  lemma FourMaps(s: Snap, t: Snap)
    requires s.rows == Rows() && s.bitmap == Bits() && OwnedOnce(t.rows, t.bitmap, NMETA) && |t.bitmap| == NBLOCKS
    requires OthersSame(s, t, FILE) && Extends(s.rows[FILE], t.rows[FILE])
    requires NoHoles(t.rows[FILE], OFF + File.MAX_CHUNK)
    ensures |NewMaps(t.rows[FILE], Lo(OFF), BMAPSTART)| == 4
  {
    DiskIsOwned();
    var row := t.rows[FILE];
    assert SlotOf(12) == 13 && SlotOf(13) == 14 && SlotOf(14) == 15;
    assert row[SlotOf(12)] != 0 && row[SlotOf(13)] != 0 && row[SlotOf(14)] != 0 && row[12] != 0;
    forall k | 12 <= k < 16 ensures row[k] < NBLOCKS && !Bits()[row[k]] {
      RowsAt(FILE, k);
      NewWasFree(s, t, NMETA, FILE, k);
    }
    forall k, l | 12 <= k < l < 16 ensures Map(row[k], BMAPSTART) != Map(row[l], BMAPSTART) {
      FreeApart(row[k], row[l]);
    }
  }

  /** The disk with the file's inode locked. */
  method Mount() returns (fs: FileSystem, ip: Inode)
    ensures fresh(fs) && fresh(ip) && fs.Settled(ip) && ip.inum == FILE && ip.d.size == SIZE && fs.txn == []
    ensures fs.nmeta == NMETA && fs.bmapstart == BMAPSTART && fs.inodestart == INODESTART
    ensures fs.rows == Rows() && fs.bitmap == Bits() && |fs.dinodes| == NINODES
    ensures forall r :: 0 <= r < NINODES ==> NoHoles(fs.rows[r], fs.dinodes[r].size)
  {
    DiskIsOwned();
    RowsListed();
    NoFileHasHoles(FILE);
    fs := new FileSystem(NMETA, BMAPSTART, INODESTART, Bits(), Contents(), Dinodes(), Rows());
    ip := new Inode(FILE, InodeAt(FILE));
    assert fs.dinodes[FILE := ip.d] == fs.dinodes;
    forall r | 0 <= r < NINODES ensures NoHoles(fs.rows[r], fs.dinodes[r].size) { NoFileHasHoles(r); }
  }

  lemma EnoughFree()
    ensures Hi(OFF, File.MAX_CHUNK) <= MAXFILE
    ensures |Free(Bits())| >= Need(Rows()[FILE], Lo(OFF), Hi(OFF, File.MAX_CHUNK))
  {
    FourFree();
    NoFileHasHoles(FILE);
    NeedWithoutHoles(Rows()[FILE], SIZE, OFF, File.MAX_CHUNK);
  }

  lemma TenCounted(s: Snap, t: Snap, src: seq<Byte>, iblock: nat)
    requires s.rows == Rows() && s.bitmap == Bits() && |s.blocks| == NBLOCKS && s.d.size == SIZE &&
             |src| == File.MAX_CHUNK
    requires WriteEffect(s, t, FILE, OFF, src) && OwnedOnce(t.rows, t.bitmap, NMETA) && NoHoles(t.rows[FILE], t.d.size)
    requires |t.blocks| == |t.bitmap| && iblock < BMAPSTART
    ensures Hi(OFF, |src|) <= MAXFILE
    ensures |WriteLog(s.rows[FILE], t.rows[FILE], Lo(OFF), Hi(OFF, |src|), BMAPSTART) + {iblock}| == MAXOPBLOCKS
  {
    assert KeepsFile(s, t, 1, -1);
    NoFileHasHoles(FILE);
    FourMaps(s, t);
    DearCount(t.rows, t.bitmap, NMETA, FILE, s.rows[FILE], SIZE, OFF, |src|, BMAPSTART, iblock);
  }

  /** One chunk of filewrite on this disk: writei succeeds, and its transaction has ten blocks. */
  method TenLogged() returns (r: int, logged: set<nat>)
    ensures r == File.MAX_CHUNK && |logged| == MAXOPBLOCKS
  {
    EnoughFree();
    var fs, ip := Mount();
    ghost var s := fs.Now(ip);
    var src: seq<Byte> := seq(File.MAX_CHUNK, _ => 0);
    var ok;
    ok, r := fs.Writei(ip, src, OFF);
    TenCounted(s, fs.Now(ip), src, fs.Iblock(FILE));
    logged := Logged(fs.txn);
    ghost var data := WriteLog(s.rows[FILE], fs.rows[FILE], Lo(OFF), Hi(OFF, |src|), BMAPSTART);
    LogsInAll([], fs.txn, data, true, fs.Iblock(FILE));
  }
}
