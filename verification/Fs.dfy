/** fs.c: block allocation, the inode block map, truncation, and byte-level reads and writes. */
module Fs {
  import opened Blocks
  import opened Ownership
  import opened Inodes
  import opened Space
  import opened Maps

  const IPB := 8

  // ---------- What the steps do to rows ----------

  lemma FreshNotIndirect(rows: seq<Row>, bitmap: seq<bool>, nmeta: nat, b: nat)
    requires OwnedOnce(rows, bitmap, nmeta) && b < |bitmap| && !bitmap[b]
    ensures b >= nmeta && forall i :: 0 <= i < |rows| ==> rows[i][12] != b
  {
  }

  lemma DataNotIndirect(rows: seq<Row>, bitmap: seq<bool>, nmeta: nat, i: nat, k: nat)
    requires OwnedOnce(rows, bitmap, nmeta) && i < |rows| && k < SLOTS && k != 12 && rows[i][k] != 0
    ensures forall j :: 0 <= j < |rows| ==> rows[j][12] == 0 || rows[j][12] != rows[i][k]
  {
  }

  /** balloc into ip->addrs[k]. */
  lemma AllocAddrKeeps(rows: seq<Row>, ds: seq<Dinode>, blocks: seq<Block>, bitmap: seq<bool>, nmeta: nat, i: nat,
          k: nat, b: nat)
    requires OwnedOnce(rows, bitmap, nmeta) && RowsMatch(rows, ds, blocks) && |blocks| == |bitmap|
    requires i < |rows| && k < 13 && rows[i][k] == 0 && b < |bitmap| && !bitmap[b]
    ensures OwnedOnce(Put(rows, i, k, b), bitmap[b := true], nmeta)
    ensures RowsMatch(Put(rows, i, k, b), ds[i := ds[i].(addrs := ds[i].addrs[k := b])], blocks[b := ZERO_BLOCK])
  {
    AllocKeeps(rows, bitmap, nmeta, i, k, b);
    FreshNotIndirect(rows, bitmap, nmeta, b);
    RowsFrame(rows, ds, blocks, b, ZERO_BLOCK);
    WordsZero(ZERO_BLOCK);
    assert ds[i].addrs[k] == rows[i][k];
    RowSetAddr(ds[i], blocks[b := ZERO_BLOCK], k, b);
  }

  /** balloc into entry j of the indirect block. */
  lemma AllocEntryKeeps(rows: seq<Row>, ds: seq<Dinode>, blocks: seq<Block>, bitmap: seq<bool>, nmeta: nat, i: nat,
          j: nat, b: nat)
    requires OwnedOnce(rows, bitmap, nmeta) && RowsMatch(rows, ds, blocks) && |blocks| == |bitmap| <= UINT_LIMIT
    requires i < |rows| && j < NINDIRECT && rows[i][12] != 0 && rows[i][13 + j] == 0 && b < |bitmap| && !bitmap[b]
    ensures rows[i][12] < |blocks| && rows[i][12] != b
    ensures OwnedOnce(Put(rows, i, 13 + j, b), bitmap[b := true], nmeta)
    ensures RowsMatch(Put(rows, i, 13 + j, b), ds,
                      blocks[b := ZERO_BLOCK][rows[i][12] := SetWord(blocks[rows[i][12]], j, b)])
  {
    var ind := rows[i][12];
    assert ind == ds[i].addrs[12];
    AllocKeeps(rows, bitmap, nmeta, i, 13 + j, b);
    FreshNotIndirect(rows, bitmap, nmeta, b);
    RowsFrame(rows, ds, blocks, b, ZERO_BLOCK);
    var bl := blocks[b := ZERO_BLOCK];
    RowSetEntry(ds[i], bl, j, b);
    var r := Put(rows, i, 13 + j, b);
    forall m | 0 <= m < |rows| ensures r[m] == RowOf(ds[m], bl[ind := SetWord(blocks[ind], j, b)]) {
      if m != i {
        assert rows[m][12] == ds[m].addrs[12];
        RowFrame(ds[m], bl, ind, SetWord(blocks[ind], j, b));
      }
    }
  }

  /** An inode in memory, read from disk by ilock. */
  class Inode {
    const inum: nat
    var d: Dinode

    constructor (inum: nat, d: Dinode)
      ensures this.inum == inum && this.d == d
    {
      this.inum := inum;
      this.d := d;
    }
  }

  class FileSystem {
    const nmeta: nat             // blocks before the data area
    const bmapstart: nat
    const inodestart: nat
    var bitmap: seq<bool>        // the free bitmap, one bit a block
    var blocks: seq<Block>       // block contents
    var dinodes: seq<Dinode>     // the inodes on disk
    var txn: seq<nat>            // block numbers passed to log_write in this transaction, call by call
    ghost var rows: seq<Row>     // the block map of every inode, counting ip as it is in memory

    /** The file system on a given disk. */
    constructor (nmeta: nat, bmapstart: nat, inodestart: nat, bitmap: seq<bool>, blocks: seq<Block>,
        dinodes: seq<Dinode>, ghost rows: seq<Row>)
      ensures this.nmeta == nmeta && this.bmapstart == bmapstart && this.inodestart == inodestart
      ensures this.bitmap == bitmap && this.blocks == blocks && this.dinodes == dinodes && this.rows == rows &&
              txn == []
    {
      this.nmeta, this.bmapstart, this.inodestart := nmeta, bmapstart, inodestart;
      this.bitmap, this.blocks, this.dinodes, this.rows := bitmap, blocks, dinodes, rows;
      txn := [];
    }

    function Bblock(b: nat): nat { b / BPB + bmapstart }

    function Iblock(i: nat): nat { i / IPB + inodestart }

    ghost predicate Consistent(ip: Inode)
      reads this, ip
    {
      && |blocks| == |bitmap| <= UINT_LIMIT
      && ip.inum < |dinodes| && RowsMatch(rows, dinodes[ip.inum := ip.d], blocks)
      && OwnedOnce(rows, bitmap, nmeta)
    }

    /** balloc: the first block whose bit is clear, marked and zeroed; None is "out of blocks". */
    method Balloc() returns (ok: bool, b: nat)
      requires |blocks| == |bitmap|
      modifies `bitmap, `blocks, `txn
      ensures !ok ==>
              (forall c :: 0 <= c < |bitmap| ==> bitmap[c]) && bitmap == old(bitmap) && blocks == old(blocks) &&
              txn == old(txn)
      ensures ok ==> b < |old(bitmap)| && !old(bitmap)[b] && forall c :: 0 <= c < b ==> old(bitmap)[c]
      ensures ok ==>
              bitmap == old(bitmap)[b := true] && blocks == old(blocks)[b := ZERO_BLOCK] &&
              txn == old(txn) + [Bblock(b), b]
    {
      b := 0;
      while b < |bitmap|
        invariant forall c :: 0 <= c < b && c < |bitmap| ==> bitmap[c]
        invariant bitmap == old(bitmap) && blocks == old(blocks) && txn == old(txn)
      {
        var bi := 0;
        while bi < BPB && b + bi < |bitmap|
          invariant 0 <= bi && forall c :: 0 <= c < b + bi && c < |bitmap| ==> bitmap[c]
          invariant bitmap == old(bitmap) && blocks == old(blocks) && txn == old(txn)
        {
          if !bitmap[b + bi] {
            b := b + bi;
            bitmap := bitmap[b := true];
            txn := txn + [Bblock(b)];
            blocks := blocks[b := ZERO_BLOCK];
            txn := txn + [b];
            return true, b;
          }
          bi := bi + 1;
        }
        b := b + BPB;
      }
      return false, 0;
    }

    /** bfree: panics (ok false) exactly when the bit is already clear. */
    method Bfree(b: nat) returns (ok: bool)
      requires b < |bitmap|
      modifies `bitmap, `txn
      ensures ok <==> old(bitmap)[b]
      ensures bitmap == if ok then old(bitmap)[b := false] else old(bitmap)
      ensures txn == if ok then old(txn) + [Bblock(b)] else old(txn)
    {
      if !bitmap[b] {
        return false;
      }
      bitmap := bitmap[b := false];
      txn := txn + [Bblock(b)];
      return true;
    }

    /** iupdate: the in-memory inode is copied to its place on disk. */
    method Iupdate(ip: Inode)
      requires Consistent(ip)
      modifies `dinodes, `txn
      ensures Consistent(ip) && dinodes == old(dinodes)[ip.inum := ip.d] && txn == old(txn) + [Iblock(ip.inum)]
    {
      assert dinodes[ip.inum := ip.d][ip.inum := ip.d] == dinodes[ip.inum := ip.d];
      dinodes := dinodes[ip.inum := ip.d];
      txn := txn + [Iblock(ip.inum)];
    }

    /** ip->addrs[k] = balloc(ip->dev). */
    method AllocAddr(ip: Inode, k: nat) returns (ok: bool, b: nat)
      requires Consistent(ip) && k < 13 && rows[ip.inum][k] == 0
      modifies `bitmap, `blocks, `txn, `rows, ip`d
      ensures !ok ==> |Free(old(bitmap))| == 0
      ensures ok ==> b < |old(bitmap)| && !old(bitmap)[b]
      ensures ok ==>
              Consistent(ip) && rows == Put(old(rows), ip.inum, k, b) &&
              ip.d == old(ip.d).(addrs := old(ip.d).addrs[k := b])
      ensures ok ==>
              bitmap == old(bitmap)[b := true] && blocks == old(blocks)[b := ZERO_BLOCK] &&
              txn == old(txn) + [Bblock(b), b]
    {
      ok, b := Balloc();
      if ok {
        AllocAddrKeeps(rows, dinodes[ip.inum := ip.d], old(blocks), old(bitmap), nmeta, ip.inum, k, b);
        ip.d := ip.d.(addrs := ip.d.addrs[k := b]);
        rows := Put(rows, ip.inum, k, b);
        assert dinodes[ip.inum := old(ip.d)][ip.inum := ip.d] == dinodes[ip.inum := ip.d];
      } else {
        NoneFree(bitmap);
      }
    }

    /** a[j] = balloc(ip->dev) in the indirect block, logged. */
    method AllocEntry(ip: Inode, j: nat) returns (ok: bool, b: nat)
      requires Consistent(ip) && j < NINDIRECT && rows[ip.inum][12] != 0 && rows[ip.inum][13 + j] == 0
      modifies `bitmap, `blocks, `txn, `rows
      ensures !ok ==> |Free(old(bitmap))| == 0
      ensures ok ==> b < |old(bitmap)| && !old(bitmap)[b] && old(rows)[ip.inum][12] < |old(blocks)|
      ensures ok ==> Consistent(ip) && rows == Put(old(rows), ip.inum, 13 + j, b)
      ensures ok ==> bitmap == old(bitmap)[b := true] && txn == old(txn) + [Bblock(b), b, old(rows)[ip.inum][12]]
      ensures ok ==> |blocks| == |old(blocks)| && blocks[b] == ZERO_BLOCK
      ensures ok ==>
              forall x :: 0 <= x < |blocks| && x != b && x != old(rows)[ip.inum][12] ==> blocks[x] == old(blocks)[x]
    {
      ghost var ind := rows[ip.inum][12];
      assert ind == dinodes[ip.inum := ip.d][ip.inum].addrs[12];
      ok, b := Balloc();
      if ok {
        AllocEntryKeeps(rows, dinodes[ip.inum := ip.d], old(blocks), old(bitmap), nmeta, ip.inum, j, b);
        var addr := ip.d.addrs[12];
        blocks := blocks[addr := SetWord(blocks[addr], j, b)];
        txn := txn + [addr];
        rows := Put(rows, ip.inum, 13 + j, b);
      } else {
        NoneFree(bitmap);
      }
    }

    /** bmap below NDIRECT. */
    method BmapDirect(ip: Inode, bn: nat) returns (ok: bool, addr: nat)
      requires Consistent(ip) && bn < NDIRECT
      modifies `bitmap, `blocks, `txn, `rows, ip`d
      ensures ok ==> Consistent(ip) && BmapEffect(old(Now(ip)), Now(ip), ip.inum, bn, addr, bmapstart)
      ensures !ok ==> old(rows[ip.inum][bn]) == 0 && |Free(old(bitmap))| == 0
    {
      assert rows[ip.inum] == RowOf(dinodes[ip.inum := ip.d][ip.inum], blocks);
      addr := ip.d.addrs[bn];
      ok := true;
      if addr == 0 {
        ok, addr := AllocAddr(ip, bn);
      }
    }

    /** bmap's load of the indirect block, allocating it if there is none. */
    method LoadIndirect(ip: Inode) returns (ok: bool)
      requires Consistent(ip)
      modifies `bitmap, `blocks, `txn, `rows, ip`d
      ensures ok ==> Consistent(ip) && IndirectEffect(old(Now(ip)), Now(ip), ip.inum, bmapstart)
      ensures !ok ==> old(rows[ip.inum][12]) == 0 && |Free(old(bitmap))| == 0
    {
      assert rows[ip.inum] == RowOf(dinodes[ip.inum := ip.d][ip.inum], blocks);
      ok := true;
      if ip.d.addrs[12] == 0 {
        var addr;
        ok, addr := AllocAddr(ip, 12);
      }
    }

    /** a[j] of the indirect block. */
    method ReadEntry(ip: Inode, j: nat) returns (addr: nat)
      requires Consistent(ip) && j < NINDIRECT && rows[ip.inum][12] != 0
      ensures addr == rows[ip.inum][13 + j]
    {
      assert rows[ip.inum] == RowOf(dinodes[ip.inum := ip.d][ip.inum], blocks);
      WordsAt(blocks[ip.d.addrs[12]], j);
      addr := Word(blocks[ip.d.addrs[12]], j);
    }

    /** bmap's lookup in an indirect block that is there. */
    method BmapEntry(ip: Inode, j: nat) returns (ok: bool, addr: nat)
      requires Consistent(ip) && j < NINDIRECT && rows[ip.inum][12] != 0
      modifies `bitmap, `blocks, `txn, `rows
      ensures ok ==> Consistent(ip) && BmapEffect(old(Now(ip)), Now(ip), ip.inum, NDIRECT + j, addr, bmapstart)
      ensures !ok ==> old(rows[ip.inum][13 + j]) == 0 && |Free(old(bitmap))| == 0
    {
      addr := ReadEntry(ip, j);
      ok := true;
      if addr == 0 {
        ok, addr := AllocEntry(ip, j);
      }
    }

    /** bmap. Panics (ok false) exactly when bn is out of range or the disk has too few free blocks for what
        is missing. `mid` is the moment when the indirect block has been loaded. */
    method Bmap(ip: Inode, bn: nat) returns (ok: bool, addr: nat, ghost mid: Snap)
      requires Consistent(ip)
      modifies `bitmap, `blocks, `txn, `rows, ip`d
      ensures ok ==> bn < MAXFILE && Consistent(ip)
      ensures ok ==> BmapSteps(old(Now(ip)), mid, Now(ip), ip.inum, bn, addr, nmeta, bmapstart)
      ensures ok <==> bn < MAXFILE && |Free(old(bitmap))| >= Cost(old(rows[ip.inum]), bn)
    {
      mid := Now(ip);
      addr := 0;
      if bn < NDIRECT {
        ok, addr := BmapDirect(ip, bn);
        if ok { BmapSpends(mid, mid, Now(ip), ip.inum, bn, addr, nmeta, bmapstart); }
        return;
      }
      if bn >= MAXFILE {
        return false, 0, mid;
      }
      ok := LoadIndirect(ip);
      if ok {
        mid := Now(ip);
        IndirectSpends(old(Now(ip)), mid, ip.inum, bmapstart);
        ok, addr := BmapEntry(ip, bn - NDIRECT);
        if ok { BmapSpends(old(Now(ip)), mid, Now(ip), ip.inum, bn, addr, nmeta, bmapstart); }
      }
    }

    /** One iteration of writei: map the block, copy the bytes into its buffer, log it. */
    method WriteChunk(ip: Inode, bn: nat, o: nat, xs: seq<Byte>) returns (ok: bool, ghost e: Chunk)
      requires Consistent(ip) && o + |xs| <= BSIZE && 1 <= |xs|
      modifies `bitmap, `blocks, `txn, `rows, ip`d
      ensures ok <==> bn < MAXFILE && |Free(old(bitmap))| >= Cost(old(rows[ip.inum]), bn)
      ensures ok ==> Consistent(ip) && ChunkOk(e, ip.inum, bmapstart)
      ensures e.s == old(Now(ip)) && (ok ==> e.t == Now(ip) && e.bn == bn && e.o == o && e.xs == xs)
    {
      var addr;
      ghost var mid;
      ok, addr, mid := Bmap(ip, bn);
      e := Chunk(old(Now(ip)), Now(ip), addr, bn, o, xs);
      if ok {
        DataNotIndirect(rows, bitmap, nmeta, ip.inum, SlotOf(bn));
        RowsFrame(rows, dinodes[ip.inum := ip.d], blocks, addr, SetBytes(blocks[addr], o, xs));
        ChunkSummary(old(Now(ip)), mid, Now(ip), ip.inum, bn, addr, o, xs, nmeta, bmapstart);
        e := Chunk(old(Now(ip)), Copied(Now(ip), addr, o, xs), addr, bn, o, xs);
        blocks := blocks[addr := SetBytes(blocks[addr], o, xs)];
        txn := txn + [addr];
      }
    }

    /** The body of writei's loop, with a record of the iterations since s0. */
    method WriteStep(ip: Inode, src: seq<Byte>, off: nat, tot: nat, ghost s0: Snap, ghost tr: seq<Chunk>)
        returns (ok: bool, m: nat, ghost tr': seq<Chunk>)
      requires Consistent(ip) && off + |src| <= MAX_BYTES && tot < |src| && ip.inum < |s0.rows|
      requires Trail(s0, Now(ip), ip.inum, off, src, tot, tr, bmapstart) && AtBoundary(tr)
      modifies `bitmap, `blocks, `txn, `rows, ip`d
      ensures !ok ==> |Free(s0.bitmap)| < Need(s0.rows[ip.inum], Lo(off), Hi(off, |src|))
      ensures ok ==> 1 <= m <= |src| - tot && Consistent(ip) && (tot + m < |src| ==> AtBoundary(tr'))
      ensures ok ==> Trail(s0, Now(ip), ip.inum, off, src, tot + m, tr', bmapstart)
    {
      var (bn, o, n) := Cut(off + tot, |src| - tot);
      ghost var e;
      m, tr' := n, tr;
      ok, e := WriteChunk(ip, bn, o, src[tot..tot + m]);
      if ok {
        tr' := ChunkedNext(s0, ip.inum, off, src, tot, tr, e, bmapstart);
      } else {
        ChunksFail(s0, e.s, ip.inum, off, src, tot, tr, bmapstart);
      }
    }

    /** writei's loop. It panics (ok false) exactly when there are fewer free blocks than the write needs. */
    method WriteLoop(ip: Inode, src: seq<Byte>, off: nat) returns (ok: bool, ghost tr: seq<Chunk>)
      requires Consistent(ip) && off + |src| <= MAX_BYTES
      modifies `bitmap, `blocks, `txn, `rows, ip`d
      ensures ok <==> |Free(old(bitmap))| >= Need(old(rows[ip.inum]), Lo(off), Hi(off, |src|))
      ensures ok ==> |Free(old(bitmap))| == |Free(bitmap)| + Need(old(rows[ip.inum]), Lo(off), Hi(off, |src|))
      ensures ok ==> Consistent(ip) && Trail(old(Now(ip)), Now(ip), ip.inum, off, src, |src|, tr, bmapstart)
    {
      tr := [];
      var tot := 0;
      TrailStarts(Now(ip), ip.inum, off, src, bmapstart);
      while tot < |src|
        invariant 0 <= tot <= |src| && Consistent(ip)
        invariant Trail(old(Now(ip)), Now(ip), ip.inum, off, src, tot, tr, bmapstart)
        invariant tot < |src| ==> AtBoundary(tr)
      {
        var m;
        ok, m, tr := WriteStep(ip, src, off, tot, old(Now(ip)), tr);
        if !ok {
          return;
        }
        tot := tot + m;
      }
      ChunksPay(old(Now(ip)), Now(ip), ip.inum, off, src, tr, bmapstart);
      ok := true;
    }

    /** The inode on disk is the one in memory, and the file has neither holes nor spare blocks. */
    ghost predicate Settled(ip: Inode)
      reads this, ip
    {
      Consistent(ip) && dinodes[ip.inum] == ip.d && NoHoles(rows[ip.inum], ip.d.size)
    }

    /** The end of writei: the size grows, and with it the inode goes to disk. */
    method Grow(ip: Inode, off: nat)
      requires Consistent(ip)
      modifies `dinodes, `txn, ip`d
      ensures Consistent(ip) && ip.d == old(ip.d).(size := off) && dinodes == old(dinodes)[ip.inum := ip.d]
      ensures txn == old(txn) + [Iblock(ip.inum)]
    {
      SameRowsAnySize(rows, dinodes[ip.inum := ip.d], blocks, ip.inum, off);
      assert dinodes[ip.inum := ip.d][ip.inum := ip.d.(size := off)] == dinodes[ip.inum := ip.d.(size := off)];
      ip.d := ip.d.(size := off);
      Iupdate(ip);
    }

    /** writei. The result -1 changes nothing. Otherwise the file's bytes are overwritten and extended as one
        byte sequence, and memory and disk agree on the inode although iupdate is called only on growth. The
        transaction gains exactly the written blocks, the bitmap blocks of the new ones, the indirect block
        if it is new or has a new entry, and the inode's block if the file grows. The panic for lack of
        space (ok false) comes exactly when fewer blocks are free than the write needs, and the write takes
        as many as it needs. */
    method Writei(ip: Inode, src: seq<Byte>, off: nat) returns (ok: bool, r: int)
      requires Settled(ip) && off < UINT_LIMIT && |src| < UINT_LIMIT
      modifies `bitmap, `blocks, `dinodes, `txn, `rows, ip`d
      ensures WriteFails(old(ip.d.size), off, |src|) ==>
              ok && r == -1 && Now(ip) == old(Now(ip)) && dinodes == old(dinodes)
      ensures ok && !WriteFails(old(ip.d.size), off, |src|) ==>
                && r == |src| && Settled(ip) && dinodes == old(dinodes)[ip.inum := ip.d]
                && WriteEffect(old(Now(ip)), Now(ip), ip.inum, off, src)
                && var data := WriteLog(old(rows[ip.inum]), rows[ip.inum], Lo(off), Hi(off, |src|), bmapstart);
                   LogsInOrder(old(txn), txn, data, off + |src| > old(ip.d.size), Iblock(ip.inum))
      ensures !WriteFails(old(ip.d.size), off, |src|) ==>
                (ok <==> |Free(old(bitmap))| >= Need(old(rows[ip.inum]), Lo(off), Hi(off, |src|)))
      ensures ok && !WriteFails(old(ip.d.size), off, |src|) ==>
                |Free(old(bitmap))| == |Free(bitmap)| + Need(old(rows[ip.inum]), Lo(off), Hi(off, |src|))
    {
      var sum := (off + |src|) % UINT_LIMIT;
      if off > ip.d.size || sum < off {
        return true, -1;
      }
      if sum > MAX_BYTES {
        return true, -1;
      }
      ok := WriteAll(ip, src, off);
      r := |src|;
    }

    /** writei past its argument checks. */
    method WriteAll(ip: Inode, src: seq<Byte>, off: nat) returns (ok: bool)
      requires Settled(ip) && off <= ip.d.size && off + |src| <= MAX_BYTES
      modifies `bitmap, `blocks, `dinodes, `txn, `rows, ip`d
      ensures ok <==> |Free(old(bitmap))| >= Need(old(rows[ip.inum]), Lo(off), Hi(off, |src|))
      ensures ok ==> |Free(old(bitmap))| == |Free(bitmap)| + Need(old(rows[ip.inum]), Lo(off), Hi(off, |src|))
      ensures ok ==>
              Settled(ip) && dinodes == old(dinodes)[ip.inum := ip.d] &&
              WriteEffect(old(Now(ip)), Now(ip), ip.inum, off, src)
      ensures ok ==>
              var data := WriteLog(old(rows[ip.inum]), rows[ip.inum], Lo(off), Hi(off, |src|), bmapstart);
              LogsInOrder(old(txn), txn, data, off + |src| > old(ip.d.size), Iblock(ip.inum))
    {
      ghost var s0, iblock := Now(ip), Iblock(ip.inum);
      assert Rooms(s0);
      ghost var tr;
      ok, tr := WriteLoop(ip, src, off);
      if !ok {
        return;
      }
      ghost var s := Now(ip);
      LoopEffect(s0, s, ip.inum, off, src, tr, bmapstart);
      if |src| > 0 && off + |src| > ip.d.size {
        Grow(ip, off + |src|);
      }
      WriteFinishes(s0, s, Now(ip), ip.inum, off, src, iblock, bmapstart);
    }

    /** One iteration of readi: nothing is allocated, nothing changes. */
    method ReadChunk(ip: Inode, bn: nat, o: nat, m: nat, ghost at: nat, ghost file: seq<Byte>) returns (xs: seq<Byte>)
      requires Settled(ip) && o + m <= BSIZE && at == bn * BSIZE + o && at + m <= ip.d.size == |file| && 1 <= m
      requires file == FileBytes(Now(ip), ip.inum, ip.d.size)
      modifies `bitmap, `blocks, `txn, `rows, ip`d
      ensures Now(ip) == old(Now(ip)) && xs == file[at..at + m]
    {
      ghost var s := Now(ip);
      MappedBelowSize(s.rows[ip.inum], ip.d.size, bn);
      var ok, addr;
      ghost var mid;
      ok, addr, mid := Bmap(ip, bn);
      BmapGrows(s, mid, Now(ip), ip.inum, bn, addr, nmeta, bmapstart, s.d.size, bn * BSIZE + o + m);
      xs := blocks[addr][o..o + m];
      BlockBytes(s, ip.inum, s.d.size, bn, addr, o, m);
    }

    /** readi's loop. */
    method ReadLoop(ip: Inode, off: nat, len: nat) returns (dst: seq<Byte>)
      requires Settled(ip) && off + len <= ip.d.size
      modifies `bitmap, `blocks, `txn, `rows, ip`d
      ensures Now(ip) == old(Now(ip)) && dst == FileBytes(Now(ip), ip.inum, ip.d.size)[off..off + len]
    {
      dst := [];
      var tot := 0;
      ghost var file := FileBytes(Now(ip), ip.inum, ip.d.size);
      while tot < len
        invariant 0 <= tot <= len && Now(ip) == old(Now(ip)) && dst == file[off..off + tot]
      {
        var (bn, o, m) := Cut(off + tot, len - tot);
        var xs := ReadChunk(ip, bn, o, m, off + tot, file);
        SliceJoins(file, off, off + tot, m);
        dst := dst + xs;
        tot := tot + m;
      }
    }

    /** readi: the bytes of the file from off on, as many as there are up to n. */
    method Readi(ip: Inode, off: nat, n: nat) returns (r: int, dst: seq<Byte>)
      requires Settled(ip) && off < UINT_LIMIT && n < UINT_LIMIT
      modifies `bitmap, `blocks, `txn, `rows, ip`d
      ensures Now(ip) == old(Now(ip))
      ensures off > ip.d.size || off + n >= UINT_LIMIT ==> r == -1 && dst == []
      ensures off <= ip.d.size && off + n < UINT_LIMIT ==>
                && r == (if off + n <= ip.d.size then n else ip.d.size - off)
                && dst == FileBytes(Now(ip), ip.inum, ip.d.size)[off..off + r]
    {
      if off > ip.d.size || (off + n) % UINT_LIMIT < off {
        return -1, [];
      }
      var len := if off + n > ip.d.size then ip.d.size - off else n;
      dst := ReadLoop(ip, off, len);
      r := len;
    }

    /** bfree(ip->addrs[k]); ip->addrs[k] = 0 for a direct slot. */
    method FreeAddr(ip: Inode, k: nat)
      requires Consistent(ip) && k < NDIRECT && rows[ip.inum][k] != 0
      modifies `bitmap, `txn, `rows, ip`d
      ensures Consistent(ip) && rows == Put(old(rows), ip.inum, k, 0) &&
              ip.d == old(ip.d).(addrs := old(ip.d).addrs[k := 0])
      ensures txn == old(txn) + [Bblock(old(rows[ip.inum][k]))]
    {
      assert rows[ip.inum] == RowOf(dinodes[ip.inum := ip.d][ip.inum], blocks);
      FreeKeeps(rows, bitmap, nmeta, ip.inum, k);
      RowSetAddr(ip.d, blocks, k, 0);
      var ok := Bfree(ip.d.addrs[k]);
      assert ok;
      ip.d := ip.d.(addrs := ip.d.addrs[k := 0]);
      rows := Put(rows, ip.inum, k, 0);
      assert dinodes[ip.inum := old(ip.d)][ip.inum := ip.d] == dinodes[ip.inum := ip.d];
    }

    /** itrunc's loop over the direct blocks. */
    method FreeDirect(ip: Inode)
      requires Consistent(ip)
      modifies `bitmap, `txn, `rows, ip`d
      ensures Consistent(ip) && Emptied(old(rows), rows, ip.inum, 0, 12)
      ensures ip.d == old(ip.d).(addrs := ip.d.addrs)
      ensures LogsMaps(old(txn), txn, old(rows[ip.inum]), 0, 12, bmapstart)
    {
      LogsMapsStart(txn, rows[ip.inum], 0, bmapstart);
      for i := 0 to NDIRECT
        invariant Consistent(ip) && Emptied(old(rows), rows, ip.inum, 0, i) && ip.d == old(ip.d).(addrs := ip.d.addrs)
        invariant LogsMaps(old(txn), txn, old(rows[ip.inum]), 0, i, bmapstart)
      {
        assert rows[ip.inum] == RowOf(dinodes[ip.inum := ip.d][ip.inum], blocks);
        ghost var before := txn;
        if ip.d.addrs[i] != 0 {
          FreeAddr(ip, i);
        }
        LogsMapsNext(old(txn), before, txn, old(rows[ip.inum]), 0, i, bmapstart);
      }
    }

    /** bfree(a[j]) for an entry in use. */
    method FreeEntry(a: nat, ghost g: seq<Row>, ghost i: nat, ghost k: nat) returns (ghost g': seq<Row>)
      requires OwnedOnce(g, bitmap, nmeta) && i < |g| && k < SLOTS && a == g[i][k] != 0
      modifies `bitmap, `txn
      ensures |bitmap| == |old(bitmap)| && OwnedOnce(g', bitmap, nmeta) && g' == Put(g, i, k, 0)
      ensures txn == old(txn) + [Bblock(a)]
    {
      FreeKeeps(g, bitmap, nmeta, i, k);
      var ok := Bfree(a);
      assert ok;
      g' := Put(g, i, k, 0);
    }

    /** itrunc's loop over the entries of the indirect block. They stay listed in the block itself, so `g`
        keeps the account of what is still owned. */
    method FreeEntries(ip: Inode) returns (ghost g: seq<Row>)
      requires 0 < ip.d.addrs[12] < |blocks| && ip.inum < |rows| && rows[ip.inum] == RowOf(ip.d, blocks)
      requires OwnedOnce(rows, bitmap, nmeta)
      modifies `bitmap, `txn
      ensures |bitmap| == |old(bitmap)| && OwnedOnce(g, bitmap, nmeta) && Emptied(rows, g, ip.inum, 13, SLOTS)
      ensures LogsMaps(old(txn), txn, rows[ip.inum], 13, SLOTS, bmapstart)
    {
      g := rows;
      LogsMapsStart(txn, rows[ip.inum], 13, bmapstart);
      for j := 0 to NINDIRECT
        invariant |bitmap| == |old(bitmap)| && OwnedOnce(g, bitmap, nmeta) && Emptied(rows, g, ip.inum, 13, 13 + j)
        invariant LogsMaps(old(txn), txn, rows[ip.inum], 13, 13 + j, bmapstart)
      {
        EntryIs(ip.d, blocks, j);
        var a := Word(blocks[ip.d.addrs[12]], j);
        ghost var before := txn;
        if a != 0 {
          g := FreeEntry(a, g, ip.inum, 13 + j);
        }
        LogsMapsNext(old(txn), before, txn, rows[ip.inum], 13, 13 + j, bmapstart);
      }
    }

    /** itrunc: exactly the inode's blocks become free, "freeing free block" is never met, and the empty
        inode goes to disk. */
    method Itrunc(ip: Inode)
      requires Consistent(ip)
      modifies `bitmap, `dinodes, `txn, `rows, ip`d
      ensures Settled(ip) && ip.d == old(ip.d).(size := 0, addrs := ip.d.addrs) &&
              dinodes == old(dinodes)[ip.inum := ip.d]
      ensures Emptied(old(rows), rows, ip.inum, 0, SLOTS)
      ensures forall b :: 0 <= b < |bitmap| ==>
              (bitmap[b] <==> old(bitmap)[b] && (b < nmeta || b !in old(rows)[ip.inum]))
      ensures Logged(txn) == Logged(old(txn)) + MapsOf(old(rows[ip.inum]), bmapstart) + {Iblock(ip.inum)}
    {
      FreeAll(ip);
      LogsMapsMeans(old(txn), txn, old(rows[ip.inum]), bmapstart);
      Grow(ip, 0);
      ExactlyFreed(old(rows), old(bitmap), rows, bitmap, nmeta, ip.inum);
    }

    /** itrunc's loops. */
    method FreeAll(ip: Inode)
      requires Consistent(ip)
      modifies `bitmap, `txn, `rows, ip`d
      ensures Consistent(ip) && Emptied(old(rows), rows, ip.inum, 0, SLOTS)
      ensures ip.d == old(ip.d).(addrs := ip.d.addrs)
      ensures LogsMaps(old(txn), txn, old(rows[ip.inum]), 0, SLOTS, bmapstart)
    {
      FreeDirect(ip);
      ghost var row, before := rows[ip.inum], txn;
      FreeRest(ip);
      LogsMapsJoin(old(txn), before, txn, old(rows[ip.inum]), row, 12, bmapstart);
    }

    /** itrunc's part for the indirect block, if there is one. */
    method FreeRest(ip: Inode)
      requires Consistent(ip)
      modifies `bitmap, `txn, `rows, ip`d
      ensures Consistent(ip) && Emptied(old(rows), rows, ip.inum, 12, SLOTS)
      ensures ip.d == old(ip.d).(addrs := ip.d.addrs)
      ensures LogsMaps(old(txn), txn, old(rows[ip.inum]), 12, SLOTS, bmapstart)
    {
      assert rows[ip.inum] == RowOf(dinodes[ip.inum := ip.d][ip.inum], blocks);
      if ip.d.addrs[12] != 0 {
        FreeIndirect(ip);
      } else {
        NothingLeft(ip.d, blocks, rows[ip.inum]);
        LogsMapsNone(txn, rows[ip.inum], 12, bmapstart);
      }
    }

    /** itrunc's part for the indirect block: its entries, then the block itself. */
    method FreeIndirect(ip: Inode)
      requires Consistent(ip) && ip.d.addrs[12] != 0
      modifies `bitmap, `txn, `rows, ip`d
      ensures Consistent(ip) && Emptied(old(rows), rows, ip.inum, 12, SLOTS)
      ensures ip.d == old(ip.d).(addrs := old(ip.d).addrs[12 := 0])
      ensures LogsMaps(old(txn), txn, old(rows[ip.inum]), 12, SLOTS, bmapstart)
    {
      assert rows[ip.inum] == RowOf(dinodes[ip.inum := ip.d][ip.inum], blocks) && rows[ip.inum][12] == ip.d.addrs[12];
      ghost var g := FreeEntries(ip);
      ghost var before := txn;
      g := FreeEntry(ip.d.addrs[12], g, ip.inum, 12);
      LogsMapsIndirect(old(txn), before, txn, old(rows[ip.inum]), bmapstart);
      IndirectEmptied(rows, g, dinodes, ip.inum, ip.d, blocks);
      ip.d := ip.d.(addrs := ip.d.addrs[12 := 0]);
      rows := g;
    }

    ghost function Now(ip: Inode): Snap
      reads this, ip
    {
      Snap(rows, bitmap, blocks, txn, ip.d)
    }
  }

  /** At each call of log_write fewer than MAXOPBLOCKS different blocks have been logged before. */
  ghost predicate Within(txn: seq<nat>) {
    forall k: nat {:trigger txn[..k]} :: k < |txn| ==> |Logged(txn[..k])| < MAXOPBLOCKS
  }

  /** The file system and the locked inode at one moment. */
  datatype Snap = Snap(rows: seq<Row>, bitmap: seq<bool>, blocks: seq<Block>, txn: seq<nat>, d: Dinode)

  /** The calls of log_write since txn0 are for exactly the blocks of `data`, in some order, and then for the
      inode's block if the file has grown. */
  ghost predicate LogsInOrder(txn0: seq<nat>, txn: seq<nat>, data: set<nat>, grows: bool, iblock: nat) {
    if grows then txn != [] && txn[|txn| - 1] == iblock && Logged(txn[..|txn| - 1]) == Logged(txn0) + data
    else Logged(txn) == Logged(txn0) + data
  }

  /** The inode's block comes last, so before each call only blocks of `data` have been logged. */
  lemma LogsWithin(txn0: seq<nat>, txn: seq<nat>, data: set<nat>, grows: bool, iblock: nat)
    requires LogsInOrder(txn0, txn, data, grows, iblock) && txn0 == [] && |data| < MAXOPBLOCKS
    ensures Within(txn)
  {
    var rest := if grows then txn[..|txn| - 1] else txn;
    forall k: nat | k < |txn| ensures |Logged(txn[..k])| < MAXOPBLOCKS {
      assert txn[..k] == rest[..k];
      CountWithin(Logged(txn[..k]), data);
    }
  }

  lemma LogsInAll(txn0: seq<nat>, txn: seq<nat>, data: set<nat>, grows: bool, iblock: nat)
    requires LogsInOrder(txn0, txn, data, grows, iblock)
    ensures Logged(txn) == Logged(txn0) + data + if grows then {iblock} else {}
  {
    if grows { assert txn == txn[..|txn| - 1] + [iblock]; }
  }

  /** Blocks in use before keep their content, the indirect block of inode i aside. */
  ghost predicate KeepsBlocks(s: Snap, t: Snap, i: nat) {
    && |s.bitmap| == |s.blocks| == |t.blocks| == |t.bitmap| && i < |s.rows|
    && (forall x :: 0 <= x < |s.bitmap| && s.bitmap[x] ==> t.bitmap[x])
    && (forall x :: 0 <= x < |s.bitmap| && s.bitmap[x] && x != s.rows[i][12] ==> t.blocks[x] == s.blocks[x])
  }

  /** bmap on an inode whose indirect block, if bn needs it, is in place: a mapped block is returned and
      nothing changes; a new one was free, is zeroed, and fills exactly the empty slot. */
  ghost predicate BmapEffect(s: Snap, t: Snap, i: nat, bn: nat, addr: nat, bmapstart: nat) {
    && i < |s.rows| && bn < MAXFILE && KeepsBlocks(s, t, i)
    && addr != 0 && addr < |t.blocks|
    && if s.rows[i][SlotOf(bn)] != 0 then
         t == s && addr == s.rows[i][SlotOf(bn)]
       else
         && !s.bitmap[addr] && IsZero(t.blocks[addr])
         && t.rows == Put(s.rows, i, SlotOf(bn), addr) && t.bitmap == s.bitmap[addr := true]
         && t.d == s.d.(addrs := t.d.addrs)
         && t.txn == s.txn + [addr / BPB + bmapstart, addr] + (if bn < NDIRECT then [] else [s.rows[i][12]])
  }

  /** Loading the indirect block: nothing changes if there is one; else a free block, zeroed, becomes it. */
  ghost predicate IndirectEffect(s: Snap, t: Snap, i: nat, bmapstart: nat) {
    && i < |s.rows| && |t.rows| == |s.rows| && KeepsBlocks(s, t, i) && t.rows[i][12] != 0
    && if s.rows[i][12] != 0 then
         t == s
       else
         && var ind := t.rows[i][12];
         && ind < |s.bitmap| && !s.bitmap[ind]
         && t.rows == Put(s.rows, i, 12, ind) && t.bitmap == s.bitmap[ind := true] && t.d == s.d.(addrs := t.d.addrs)
         && t.txn == s.txn + [ind / BPB + bmapstart, ind]
  }

  /** bmap as a whole: load the indirect block if bn needs it, then map bn. */
  ghost predicate BmapSteps(s: Snap, mid: Snap, t: Snap, i: nat, bn: nat, addr: nat, nmeta: nat, bmapstart: nat) {
    && OwnedOnce(s.rows, s.bitmap, nmeta) && OwnedOnce(mid.rows, mid.bitmap, nmeta) &&
       OwnedOnce(t.rows, t.bitmap, nmeta)
    && (if bn < NDIRECT then mid == s else IndirectEffect(s, mid, i, bmapstart))
    && BmapEffect(mid, t, i, bn, addr, bmapstart)
  }

  lemma IndirectSpends(s: Snap, mid: Snap, i: nat, bmapstart: nat)
    requires IndirectEffect(s, mid, i, bmapstart)
    ensures |Free(s.bitmap)| == |Free(mid.bitmap)| + One(s.rows[i][12] == 0)
  {
    if s.rows[i][12] == 0 { FreeTakes(s.bitmap, mid.rows[i][12]); }
  }

  /** bmap takes exactly its cost off the free blocks. */
  lemma BmapSpends(s: Snap, mid: Snap, t: Snap, i: nat, bn: nat, addr: nat, nmeta: nat, bmapstart: nat)
    requires BmapSteps(s, mid, t, i, bn, addr, nmeta, bmapstart)
    ensures |Free(s.bitmap)| == |Free(t.bitmap)| + Cost(s.rows[i], bn)
  {
    if bn >= NDIRECT { IndirectSpends(s, mid, i, bmapstart); }
    if mid.rows[i][SlotOf(bn)] == 0 { FreeTakes(mid.bitmap, addr); }
  }

  /** Every block of file j that was mapped still is, to the same block with the same content, bn aside. */
  ghost predicate KeepsFile(s: Snap, t: Snap, j: nat, except: int) {
    && j < |s.rows| && |t.rows| == |s.rows| && |t.blocks| == |s.blocks|
    && forall bn: nat {:trigger s.rows[j][SlotOf(bn)]} :: bn < MAXFILE && bn != except && s.rows[j][SlotOf(bn)] != 0 ==>
         var x := s.rows[j][SlotOf(bn)];
         t.rows[j][SlotOf(bn)] == x && x < |s.blocks| && t.blocks[x] == s.blocks[x]
  }

  /** A block that is not an indirect block of inode i keeps its content through bmap. */
  lemma BmapKeepsFile(s: Snap, t: Snap, i: nat, bn: nat, addr: nat, nmeta: nat, bmapstart: nat, j: nat)
    requires OwnedOnce(s.rows, s.bitmap, nmeta) && BmapEffect(s, t, i, bn, addr, bmapstart) && j < |s.rows|
    ensures KeepsFile(s, t, j, -1)
  {
  }

  lemma IndirectKeepsFile(s: Snap, t: Snap, i: nat, nmeta: nat, bmapstart: nat, j: nat)
    requires OwnedOnce(s.rows, s.bitmap, nmeta) && IndirectEffect(s, t, i, bmapstart) && j < |s.rows|
    ensures KeepsFile(s, t, j, -1)
  {
  }

  /** The block, the offset in it and the length, min(n - tot, BSIZE - off % BSIZE), of the next iteration. */
  function Cut(off: nat, left: nat): (r: (nat, nat, nat))
    requires left >= 1
    ensures r.0 * BSIZE + r.1 == off && r.1 < BSIZE && 1 <= r.2 <= left && r.1 + r.2 <= BSIZE &&
            (r.2 == left || r.1 + r.2 == BSIZE)
  {
    var o := off % BSIZE;
    (off / BSIZE, o, if left < BSIZE - o then left else BSIZE - o)
  }

  /** Mapping block bn of a file without holes whose end is at or past that block. */
  lemma RowGrows(r: Row, r': Row, bn: nat, size: nat, end: nat)
    requires NoHoles(r, size) && bn < MAXFILE && bn * BSIZE <= size && bn * BSIZE < end <= (bn + 1) * BSIZE
    requires r'[SlotOf(bn)] != 0 && (bn >= NDIRECT ==> r'[12] != 0)
    requires forall k :: 0 <= k < SLOTS && k != SlotOf(bn) && (bn < NDIRECT || k != 12) ==> r'[k] == r[k]
    ensures NoHoles(r', Max(size, end))
  {
    forall b: nat | b < MAXFILE
      ensures r'[SlotOf(b)] != 0 <==> b * BSIZE < Max(size, end)
    {
      assert r[SlotOf(b)] != 0 <==> b * BSIZE < size;
    }
  }

  lemma BmapGrows(s: Snap, mid: Snap, t: Snap, i: nat, bn: nat, addr: nat, nmeta: nat, bmapstart: nat, size: nat,
          end: nat)
    requires BmapSteps(s, mid, t, i, bn, addr, nmeta, bmapstart) && NoHoles(s.rows[i], size)
    requires bn * BSIZE <= size && bn * BSIZE < end <= (bn + 1) * BSIZE
    ensures |t.rows| == |s.rows| && t.rows[i][SlotOf(bn)] == addr
    ensures NoHoles(t.rows[i], Max(size, end))
    ensures bn * BSIZE < size ==> t == s
    ensures t.d == s.d.(addrs := t.d.addrs)
    ensures forall j :: 0 <= j < |s.rows| && j != i ==> t.rows[j] == s.rows[j]
  {
    assert s.rows[i][SlotOf(bn)] != 0 <==> bn * BSIZE < size;
    RowGrows(s.rows[i], t.rows[i], bn, size, end);
  }

  lemma BmapKeepsAll(s: Snap, mid: Snap, t: Snap, i: nat, bn: nat, addr: nat, nmeta: nat, bmapstart: nat, j: nat)
    requires BmapSteps(s, mid, t, i, bn, addr, nmeta, bmapstart) && j < |s.rows|
    ensures KeepsFile(s, t, j, -1)
  {
    if bn >= NDIRECT { IndirectKeepsFile(s, mid, i, nmeta, bmapstart, j); }
    BmapKeepsFile(mid, t, i, bn, addr, nmeta, bmapstart, j);
  }

  // ---------- Bytes ----------

  /** memmove into a buffer. */
  function SetBytes(b: Block, o: nat, xs: seq<Byte>): (r: Block)
    requires o + |xs| <= BSIZE
    ensures forall k :: 0 <= k < BSIZE ==> r[k] == if o <= k < o + |xs| then xs[k - o] else b[k]
  {
    b[..o] + xs + b[o + |xs|..]
  }

  /** Byte k of file i. */
  function ByteOf(s: Snap, i: nat, k: nat): Byte
    requires i < |s.rows| && k < MAX_BYTES
  {
    var x := s.rows[i][SlotOf(k / BSIZE)];
    if x < |s.blocks| then s.blocks[x][k % BSIZE] else 0
  }

  /** The copy of one chunk into the block that maps it. */
  function Copied(u: Snap, addr: nat, o: nat, xs: seq<Byte>): Snap
    requires addr < |u.blocks| && o + |xs| <= BSIZE
  {
    u.(blocks := u.blocks[addr := SetBytes(u.blocks[addr], o, xs)], txn := u.txn + [addr])
  }

  lemma CopyKeepsFile(u: Snap, i: nat, bn: nat, addr: nat, o: nat, xs: seq<Byte>, nmeta: nat, j: nat)
    requires OwnedOnce(u.rows, u.bitmap, nmeta) && |u.bitmap| == |u.blocks| && i < |u.rows| && j < |u.rows| &&
             bn < MAXFILE
    requires addr == u.rows[i][SlotOf(bn)] != 0 && o + |xs| <= BSIZE && addr < |u.blocks|
    ensures KeepsFile(u, Copied(u, addr, o, xs), j, if j == i then bn else -1)
  {
  }

  lemma KeepsByte(s: Snap, t: Snap, j: nat, except: int, k: nat)
    requires KeepsFile(s, t, j, except) && k < MAX_BYTES && k / BSIZE != except && s.rows[j][SlotOf(k / BSIZE)] != 0
    ensures ByteOf(t, j, k) == ByteOf(s, j, k)
  {
    var bn := k / BSIZE;
    assert s.rows[j][SlotOf(bn)] != 0;
  }

  /** Bytes [off0, off) of the file are src's, the others below the old size are as they were. */
  ghost predicate Written(s0: Snap, s: Snap, i: nat, off0: nat, src: seq<Byte>, off: nat)
    requires i < |s0.rows| && i < |s.rows| && s0.d.size <= MAX_BYTES
    requires off0 <= off <= off0 + |src| && off <= MAX_BYTES
  {
    forall k: nat {:trigger ByteOf(s, i, k)} :: k < Max(s0.d.size, off) ==>
      ByteOf(s, i, k) == if off0 <= k < off then src[k - off0] else ByteOf(s0, i, k)
  }

  /** The mapping while writei is at `off`: no holes up to there, and nothing new inside the old size. */
  ghost predicate Growing(s0: Snap, s: Snap, i: nat, off: nat) {
    && i < |s0.rows| && |s.rows| == |s0.rows| && |s.blocks| == |s0.blocks|
    && NoHoles(s.rows[i], Max(s0.d.size, off))
    && s.d == s0.d.(addrs := s.d.addrs)
    && (off <= s0.d.size ==> s.rows == s0.rows && s.d == s0.d) && Extends(s0.rows[i], s.rows[i])
  }

  /** Slots in use stay as they are. */
  ghost predicate Extends(row: Row, row': Row) {
    forall k :: 0 <= k < SLOTS && row[k] != 0 ==> row'[k] == row[k]
  }

  ghost predicate OthersSame(s0: Snap, s: Snap, i: nat) {
    |s.rows| == |s0.rows| &&
        forall j :: 0 <= j < |s0.rows| && j != i ==> s.rows[j] == s0.rows[j] && KeepsFile(s0, s, j, -1)
  }

  /** writei's loop invariant, with `off` the next offset to write. */
  ghost predicate WriteInv(s0: Snap, s: Snap, i: nat, off0: nat, src: seq<Byte>, off: nat) {
    && off0 <= s0.d.size <= MAX_BYTES && off0 <= off <= off0 + |src| <= MAX_BYTES
    && Growing(s0, s, i, off) && OthersSame(s0, s, i) && Written(s0, s, i, off0, src, off)
  }

  lemma KeepsTrans(s0: Snap, s: Snap, t: Snap, j: nat, except: int)
    requires KeepsFile(s0, s, j, -1) && KeepsFile(s, t, j, except)
    ensures KeepsFile(s0, t, j, except)
  {
  }

  // ---------- One iteration of writei ----------

  /** An iteration from `s` to `t` that writes xs at byte o of block bn, which is then block addr. */
  datatype Chunk = Chunk(s: Snap, t: Snap, addr: nat, bn: nat, o: nat, xs: seq<Byte>) {
    function Off(): nat { bn * BSIZE + o }

    function End(): nat { bn * BSIZE + o + |xs| }
  }

  /** Only slot bn of inode i, and its indirect block if bn needs one, may have been filled. */
  ghost predicate RowsStep(s: Snap, t: Snap, i: nat, bn: nat, addr: nat) {
    && i < |s.rows| == |t.rows| && |s.blocks| == |t.blocks| && bn < MAXFILE
    && t.rows[i][SlotOf(bn)] == addr != 0 && addr < |t.blocks| && (bn >= NDIRECT ==> t.rows[i][12] != 0)
    && (forall j :: 0 <= j < |s.rows| && j != i ==> t.rows[j] == s.rows[j])
    && (forall k :: 0 <= k < SLOTS && k != SlotOf(bn) && (bn < NDIRECT || k != 12) ==> t.rows[i][k] == s.rows[i][k])
    && (s.rows[i][SlotOf(bn)] != 0 && (bn < NDIRECT || s.rows[i][12] != 0) ==> t.rows == s.rows && t.d == s.d)
    && (s.rows[i][12] != 0 ==> t.rows[i][12] == s.rows[i][12])
    && (s.rows[i][SlotOf(bn)] == 0 || s.rows[i][SlotOf(bn)] == addr)
    && t.d == s.d.(addrs := t.d.addrs)
  }

  /** The iteration logs exactly what writing block bn calls for. */
  ghost predicate LogStep(s: Snap, t: Snap, i: nat, bn: nat, bmapstart: nat)
    requires i < |s.rows| && i < |t.rows| && bn < MAXFILE
  {
    Logged(t.txn) ==
      Logged(s.txn) + LogAt(s.rows[i], t.rows[i], bn, bmapstart) + LogIndirect(s.rows[i], t.rows[i], bmapstart)
  }

  /** The block holds xs at o; what else a block in use held is still there. */
  ghost predicate BytesStep(b: Block, c: Block, o: nat, xs: seq<Byte>, inUse: bool) {
    o + |xs| <= BSIZE &&
        forall k :: 0 <= k < BSIZE ==> if o <= k < o + |xs| then c[k] == xs[k - o] else inUse ==> c[k] == b[k]
  }

  ghost predicate ChunkOk(e: Chunk, i: nat, bmapstart: nat) {
    && 1 <= |e.xs| && e.o + |e.xs| <= BSIZE && RowsStep(e.s, e.t, i, e.bn, e.addr)
    && KeepsFile(e.s, e.t, i, e.bn) && (forall j :: 0 <= j < |e.s.rows| && j != i ==> KeepsFile(e.s, e.t, j, -1))
    && BytesStep(e.s.blocks[e.addr], e.t.blocks[e.addr], e.o, e.xs, e.s.rows[i][SlotOf(e.bn)] != 0)
    && LogStep(e.s, e.t, i, e.bn, bmapstart) && |Free(e.s.bitmap)| == |Free(e.t.bitmap)| + Cost(e.s.rows[i], e.bn)
  }

  lemma BmapRowsStep(s: Snap, mid: Snap, u: Snap, i: nat, bn: nat, addr: nat, nmeta: nat, bmapstart: nat)
    requires BmapSteps(s, mid, u, i, bn, addr, nmeta, bmapstart)
    ensures RowsStep(s, u, i, bn, addr)
  {
  }

  /** bmap itself logs all of this, except that a block that was there is logged only by the copy. */
  lemma BmapLogStep(s: Snap, mid: Snap, u: Snap, i: nat, bn: nat, addr: nat, o: nat, xs: seq<Byte>, nmeta: nat,
          bmapstart: nat)
    requires BmapSteps(s, mid, u, i, bn, addr, nmeta, bmapstart) && RowsStep(s, u, i, bn, addr) && o + |xs| <= BSIZE
    ensures LogStep(s, Copied(u, addr, o, xs), i, bn, bmapstart)
  {
  }

  lemma ChunkKeepsFiles(s: Snap, mid: Snap, u: Snap, i: nat, bn: nat, addr: nat, o: nat, xs: seq<Byte>, nmeta: nat,
          bmapstart: nat, j: nat)
    requires BmapSteps(s, mid, u, i, bn, addr, nmeta, bmapstart) && RowsStep(s, u, i, bn, addr) && o + |xs| <= BSIZE &&
             j < |s.rows|
    ensures KeepsFile(s, Copied(u, addr, o, xs), j, if j == i then bn else -1)
  {
    BmapKeepsAll(s, mid, u, i, bn, addr, nmeta, bmapstart, j);
    CopyKeepsFile(u, i, bn, addr, o, xs, nmeta, j);
    KeepsTrans(s, u, Copied(u, addr, o, xs), j, if j == i then bn else -1);
  }

  lemma BmapKeepsOld(s: Snap, mid: Snap, u: Snap, i: nat, bn: nat, addr: nat, nmeta: nat, bmapstart: nat)
    requires BmapSteps(s, mid, u, i, bn, addr, nmeta, bmapstart) && s.rows[i][SlotOf(bn)] != 0
    ensures addr < |s.blocks| == |u.blocks| && u.blocks[addr] == s.blocks[addr]
  {
    BmapKeepsAll(s, mid, u, i, bn, addr, nmeta, bmapstart, i);
    BmapRowsStep(s, mid, u, i, bn, addr, nmeta, bmapstart);
  }

  lemma ChunkSummary(s: Snap, mid: Snap, u: Snap, i: nat, bn: nat, addr: nat, o: nat, xs: seq<Byte>, nmeta: nat,
          bmapstart: nat)
    requires BmapSteps(s, mid, u, i, bn, addr, nmeta, bmapstart) && 1 <= |xs| && o + |xs| <= BSIZE
    ensures addr < |u.blocks| && ChunkOk(Chunk(s, Copied(u, addr, o, xs), addr, bn, o, xs), i, bmapstart)
  {
    BmapRowsStep(s, mid, u, i, bn, addr, nmeta, bmapstart);
    BmapLogStep(s, mid, u, i, bn, addr, o, xs, nmeta, bmapstart);
    BmapSpends(s, mid, u, i, bn, addr, nmeta, bmapstart);
    ChunkKeepsFiles(s, mid, u, i, bn, addr, o, xs, nmeta, bmapstart, i);
    forall j | 0 <= j < |s.rows| && j != i ensures KeepsFile(s, Copied(u, addr, o, xs), j, -1) {
      ChunkKeepsFiles(s, mid, u, i, bn, addr, o, xs, nmeta, bmapstart, j);
    }
    if s.rows[i][SlotOf(bn)] != 0 { BmapKeepsOld(s, mid, u, i, bn, addr, nmeta, bmapstart); }
    SummaryHolds(s, u, i, bn, addr, o, xs, bmapstart);
  }

  lemma SummaryHolds(s: Snap, u: Snap, i: nat, bn: nat, addr: nat, o: nat, xs: seq<Byte>, bmapstart: nat)
    requires RowsStep(s, u, i, bn, addr) && 1 <= |xs| && o + |xs| <= BSIZE
    requires LogStep(s, Copied(u, addr, o, xs), i, bn, bmapstart) &&
             |Free(s.bitmap)| == |Free(u.bitmap)| + Cost(s.rows[i], bn)
    requires KeepsFile(s, Copied(u, addr, o, xs), i, bn)
    requires forall j :: 0 <= j < |s.rows| && j != i ==> KeepsFile(s, Copied(u, addr, o, xs), j, -1)
    requires s.rows[i][SlotOf(bn)] != 0 ==> u.blocks[addr] == s.blocks[addr]
    ensures ChunkOk(Chunk(s, Copied(u, addr, o, xs), addr, bn, o, xs), i, bmapstart)
  {
    var t := Copied(u, addr, o, xs);
    assert BytesStep(s.blocks[addr], t.blocks[addr], o, xs, s.rows[i][SlotOf(bn)] != 0);
    assert RowsStep(s, t, i, bn, addr);
  }

  /** One byte of the file after the iteration. */
  lemma ChunkByte(e: Chunk, i: nat, k: nat, bmapstart: nat)
    requires ChunkOk(e, i, bmapstart) && k < MAX_BYTES
    requires e.Off() <= k < e.End() || e.s.rows[i][SlotOf(k / BSIZE)] != 0
    ensures ByteOf(e.t, i, k) == if e.Off() <= k < e.End() then e.xs[k - e.Off()] else ByteOf(e.s, i, k)
  {
    if k / BSIZE == e.bn {
      assert k % BSIZE - e.o == k - e.Off();
    } else {
      KeepsByte(e.s, e.t, i, e.bn, k);
    }
  }

  lemma ChunkGrows(s0: Snap, e: Chunk, i: nat, bmapstart: nat)
    requires Growing(s0, e.s, i, e.Off()) && ChunkOk(e, i, bmapstart)
    ensures Growing(s0, e.t, i, e.End())
  {
    var size := Max(s0.d.size, e.Off());
    assert e.s.rows[i][SlotOf(e.bn)] != 0 <==> e.bn * BSIZE < size;
    RowGrows(e.s.rows[i], e.t.rows[i], e.bn, size, e.End());
    assert Max(size, e.End()) == Max(s0.d.size, e.End());
  }

  lemma ChunkKeepsOthers(s0: Snap, e: Chunk, i: nat, bmapstart: nat)
    requires ChunkOk(e, i, bmapstart) && OthersSame(s0, e.s, i)
    ensures OthersSame(s0, e.t, i)
  {
    forall j | 0 <= j < |s0.rows| && j != i ensures KeepsFile(s0, e.t, j, -1) {
      KeepsTrans(s0, e.s, e.t, j, -1);
    }
  }

  lemma ChunkWritten(s0: Snap, e: Chunk, i: nat, off0: nat, src: seq<Byte>, bmapstart: nat)
    requires WriteInv(s0, e.s, i, off0, src, e.Off()) && ChunkOk(e, i, bmapstart)
    requires e.End() <= off0 + |src| && e.xs == src[e.Off() - off0..e.End() - off0]
    ensures Written(s0, e.t, i, off0, src, e.End())
  {
    forall k: nat | k < Max(s0.d.size, e.End())
      ensures ByteOf(e.t, i, k) == if off0 <= k < e.End() then src[k - off0] else ByteOf(s0, i, k)
    {
      if !(e.Off() <= k < e.End()) {
        assert ByteOf(e.s, i, k) == if off0 <= k < e.Off() then src[k - off0] else ByteOf(s0, i, k);
        assert e.s.rows[i][SlotOf(k / BSIZE)] != 0;
      }
      ChunkByte(e, i, k, bmapstart);
    }
  }

  /** One iteration of writei's loop keeps its invariant. */
  lemma ChunkKeeps(s0: Snap, e: Chunk, i: nat, off0: nat, src: seq<Byte>, bmapstart: nat)
    requires WriteInv(s0, e.s, i, off0, src, e.Off()) && ChunkOk(e, i, bmapstart)
    requires e.End() <= off0 + |src| && e.xs == src[e.Off() - off0..e.End() - off0]
    ensures WriteInv(s0, e.t, i, off0, src, e.End())
  {
    ChunkGrows(s0, e, i, bmapstart);
    ChunkWritten(s0, e, i, off0, src, bmapstart);
    ChunkKeepsOthers(s0, e, i, bmapstart);
  }

  // ---------- All iterations ----------

  /** Iteration k continues where iteration k - 1 stopped, one block on, with its part of src. */
  ghost predicate Continues(tr: seq<Chunk>, k: nat, s0: Snap, off0: nat, src: seq<Byte>)
    requires k < |tr|
  {
    var e := tr[k];
    && off0 <= e.Off() && e.End() <= off0 + |src| && e.xs == src[e.Off() - off0..e.End() - off0]
    && if k == 0 then e.s == s0 && e.Off() == off0
       else e.s == tr[k - 1].t && e.Off() == tr[k - 1].End() && e.bn == tr[k - 1].bn + 1 && e.o == 0
  }

  ghost predicate AllContinue(tr: seq<Chunk>, s0: Snap, off0: nat, src: seq<Byte>) {
    forall k: nat {:trigger Continues(tr, k, s0, off0, src)} :: k < |tr| ==> Continues(tr, k, s0, off0, src)
  }

  ghost predicate AllOk(tr: seq<Chunk>, i: nat, bmapstart: nat) {
    forall k {:trigger ChunkOk(tr[k], i, bmapstart)} :: 0 <= k < |tr| ==> ChunkOk(tr[k], i, bmapstart)
  }

  /** The iterations `tr` lead from s0 to s and have written the first `tot` bytes of src at off0. */
  ghost predicate Chunked(s0: Snap, s: Snap, i: nat, off0: nat, src: seq<Byte>, tot: nat, tr: seq<Chunk>,
          bmapstart: nat) {
    && AllOk(tr, i, bmapstart)
    && AllContinue(tr, s0, off0, src)
    && if tr == [] then s == s0 && tot == 0 else s == tr[|tr| - 1].t && tr[|tr| - 1].End() == off0 + tot
  }

  ghost predicate Look(k: nat) { k >= 0 }

  /** The same behind a guard, which keeps the solver from unfolding it where it is only carried along;
      opening it takes a mention of Look. */
  ghost predicate Trail(s0: Snap, s: Snap, i: nat, off0: nat, src: seq<Byte>, tot: nat, tr: seq<Chunk>,
          bmapstart: nat) {
    forall k: nat {:trigger Look(k)} :: Look(k) ==> Chunked(s0, s, i, off0, src, tot, tr, bmapstart)
  }

  lemma TrailStarts(s0: Snap, i: nat, off0: nat, src: seq<Byte>, bmapstart: nat)
    ensures Trail(s0, s0, i, off0, src, 0, [], bmapstart)
  {
  }

  /** The last iteration, if any, filled its block to the end. */
  predicate AtBoundary(tr: seq<Chunk>) { tr == [] || tr[|tr| - 1].o + |tr[|tr| - 1].xs| == BSIZE }

  lemma ChunkedNext(s0: Snap, i: nat, off0: nat, src: seq<Byte>, tot: nat, tr: seq<Chunk>, e: Chunk, bmapstart: nat)
    returns (r: seq<Chunk>)
    requires Trail(s0, e.s, i, off0, src, tot, tr, bmapstart) && ChunkOk(e, i, bmapstart)
    requires e.Off() == off0 + tot && tot + |e.xs| <= |src| && e.xs == src[tot..tot + |e.xs|] && AtBoundary(tr)
    ensures Trail(s0, e.t, i, off0, src, tot + |e.xs|, r, bmapstart)
    ensures AtBoundary(r) <==> e.o + |e.xs| == BSIZE
  {
    assert Look(0);
    r := tr + [e];
    if tr != [] {
      var d := tr[|tr| - 1];
      assert ChunkOk(d, i, bmapstart);
      assert (d.bn + 1) * BSIZE == e.bn * BSIZE + e.o;
    }
    AllContinueNext(tr, e, s0, off0, src);
    forall k | 0 <= k < |r| ensures ChunkOk(r[k], i, bmapstart) {
      if k < |tr| { assert ChunkOk(tr[k], i, bmapstart); }
    }
  }

  lemma AllContinueNext(tr: seq<Chunk>, e: Chunk, s0: Snap, off0: nat, src: seq<Byte>)
    requires AllContinue(tr, s0, off0, src) && Continues(tr + [e], |tr|, s0, off0, src)
    ensures AllContinue(tr + [e], s0, off0, src)
  {
    var r := tr + [e];
    forall k: nat | k < |r| ensures Continues(r, k, s0, off0, src) {
      if k < |tr| { assert Continues(tr, k, s0, off0, src) && r[k] == tr[k] && (k > 0 ==> r[k - 1] == tr[k - 1]); }
    }
  }

  lemma {:induction false} ChunksCount(tr: seq<Chunk>, k: nat, s0: Snap, off0: nat, src: seq<Byte>)
    requires k < |tr| && AllContinue(tr, s0, off0, src)
    ensures tr[k].bn == tr[0].bn + k && tr[0].Off() == off0
  {
    assert Continues(tr, k, s0, off0, src);
    if k > 0 { ChunksCount(tr, k - 1, s0, off0, src); }
  }

  ghost predicate Rooms(s: Snap) {
    forall j, k :: 0 <= j < |s.rows| && 0 <= k < SLOTS && s.rows[j][k] != 0 ==> s.rows[j][k] < |s.blocks|
  }

  lemma WriteStarts(s: Snap, i: nat, off: nat, src: seq<Byte>)
    requires i < |s.rows| && NoHoles(s.rows[i], s.d.size) && off <= s.d.size && off + |src| <= MAX_BYTES && Rooms(s)
    ensures WriteInv(s, s, i, off, src, off)
  {
  }

  /** The effect of the first k iterations. */
  lemma {:induction false} ChunksWrite(s0: Snap, s: Snap, i: nat, off0: nat, src: seq<Byte>, tot: nat, tr: seq<Chunk>,
          bmapstart: nat, k: nat)
    requires Chunked(s0, s, i, off0, src, tot, tr, bmapstart) && k < |tr|
    requires i < |s0.rows| && NoHoles(s0.rows[i], s0.d.size) && off0 <= s0.d.size && off0 + |src| <= MAX_BYTES &&
             Rooms(s0)
    ensures WriteInv(s0, tr[k].s, i, off0, src, tr[k].Off()) && WriteInv(s0, tr[k].t, i, off0, src, tr[k].End())
  {
    assert ChunkOk(tr[k], i, bmapstart) && Continues(tr, k, s0, off0, src);
    if k == 0 {
      WriteStarts(s0, i, off0, src);
    } else {
      ChunksWrite(s0, s, i, off0, src, tot, tr, bmapstart, k - 1);
    }
    ChunkKeeps(s0, tr[k], i, off0, src, bmapstart);
  }

  /** The part of an iteration that the account of blocks is about. */
  ghost predicate Paid(e: Chunk, i: nat, bmapstart: nat) {
    && i < |e.s.rows| && i < |e.t.rows| && e.bn < MAXFILE && RowStep(e.s.rows[i], e.t.rows[i], e.bn)
    && LogStep(e.s, e.t, i, e.bn, bmapstart) && |Free(e.s.bitmap)| == |Free(e.t.bitmap)| + Cost(e.s.rows[i], e.bn)
  }

  ghost predicate RowStep(row: Row, row': Row, bn: nat)
    requires bn < MAXFILE
  {
    && (forall k :: 0 <= k < SLOTS && k != SlotOf(bn) && (bn < NDIRECT || k != 12) ==> row'[k] == row[k])
    && (row[12] != 0 ==> row'[12] == row[12]) && (bn >= NDIRECT ==> row'[12] != 0)
  }

  ghost predicate AllPaid(tr: seq<Chunk>, i: nat, bmapstart: nat) {
    forall k {:trigger Paid(tr[k], i, bmapstart)} :: 0 <= k < |tr| ==> Paid(tr[k], i, bmapstart)
  }

  lemma OkIsPaid(tr: seq<Chunk>, i: nat, bmapstart: nat)
    requires AllOk(tr, i, bmapstart)
    ensures AllPaid(tr, i, bmapstart)
  {
    forall k | 0 <= k < |tr| ensures Paid(tr[k], i, bmapstart) { assert ChunkOk(tr[k], i, bmapstart); }
  }

  /** The slots of the blocks from bn on are as they were, and so is the indirect one if it was filled. */
  ghost predicate Ahead(before: Row, row: Row, bn: nat) {
    && (forall b: nat {:trigger row[SlotOf(b)]} :: bn <= b < MAXFILE ==> row[SlotOf(b)] == before[SlotOf(b)])
    && (before[12] != 0 || bn <= NDIRECT ==> row[12] == before[12])
  }

  lemma AheadStep(before: Row, e: Chunk, i: nat, bmapstart: nat)
    requires Paid(e, i, bmapstart) && Ahead(before, e.s.rows[i], e.bn)
    ensures Ahead(before, e.t.rows[i], e.bn + 1)
  {
  }

  /** The blocks that the iterations so far have logged, by the block map now. */
  ghost predicate LogIs(s0: Snap, s: Snap, i: nat, lo: nat, bn: nat, bmapstart: nat) {
    && i < |s0.rows| && i < |s.rows| && bn <= MAXFILE
    && Logged(s.txn) == Logged(s0.txn) + WriteLog(s0.rows[i], s.rows[i], lo, bn, bmapstart)
    && (lo < bn && bn > NDIRECT ==> s.rows[i][12] != 0)
  }

  lemma LogStarts(s0: Snap, i: nat, lo: nat, bmapstart: nat)
    requires i < |s0.rows| && lo <= MAXFILE
    ensures LogIs(s0, s0, i, lo, lo, bmapstart) && Ahead(s0.rows[i], s0.rows[i], lo)
  {
  }

  /** An iteration from s at block bn adds its part. */
  lemma LogIsStep(s0: Snap, s: Snap, e: Chunk, i: nat, lo: nat, bn: nat, bmapstart: nat)
    requires Paid(e, i, bmapstart) && i < |s0.rows| && lo <= bn == e.bn && e.s == s
    requires LogIs(s0, s, i, lo, bn, bmapstart) && Ahead(s0.rows[i], s.rows[i], bn)
    ensures LogIs(s0, e.t, i, lo, e.bn + 1, bmapstart)
  {
    var before, row, row' := s0.rows[i], s.rows[i], e.t.rows[i];
    assert row[SlotOf(bn)] == before[SlotOf(bn)];
    forall b: nat | lo <= b < bn ensures SameAt(row, row', b) {
    }
    LogFrame(before, row, row', lo, bn, bmapstart);
  }

  /** Free blocks less the rest of the bill: an amount that no iteration changes. */
  ghost predicate Balanced(s0: Snap, s: Snap, i: nat, lo: nat, bn: nat, hi: nat) {
    && i < |s0.rows| && i < |s.rows| && hi <= MAXFILE
    && |Free(s0.bitmap)| + Need(s.rows[i], bn, hi) == |Free(s.bitmap)| + Need(s0.rows[i], lo, hi)
  }

  lemma BalancedStep(s0: Snap, s: Snap, e: Chunk, i: nat, lo: nat, bn: nat, hi: nat, bmapstart: nat)
    requires Paid(e, i, bmapstart) && bn == e.bn < hi && e.s == s && Balanced(s0, s, i, lo, bn, hi)
    ensures Balanced(s0, e.t, i, lo, e.bn + 1, hi)
  {
    NeedStep(s.rows[i], e.t.rows[i], bn, hi);
  }

  /** What the first k iterations keep. */
  lemma {:induction false} ChunksAhead(s0: Snap, i: nat, off0: nat, src: seq<Byte>, tr: seq<Chunk>, bmapstart: nat,
          k: nat)
    requires AllPaid(tr, i, bmapstart) && AllContinue(tr, s0, off0, src) && k < |tr| && i < |s0.rows|
    ensures i < |tr[k].t.rows| && Ahead(s0.rows[i], tr[k].t.rows[i], tr[k].bn + 1)
  {
    assert Paid(tr[k], i, bmapstart) && Continues(tr, k, s0, off0, src);
    if k > 0 { ChunksAhead(s0, i, off0, src, tr, bmapstart, k - 1); }
    AheadStep(s0.rows[i], tr[k], i, bmapstart);
  }

  lemma ChunksLogFirst(s0: Snap, e: Chunk, i: nat, bmapstart: nat)
    requires Paid(e, i, bmapstart) && e.s == s0
    ensures LogIs(s0, e.t, i, e.bn, e.bn + 1, bmapstart)
  {
    LogStarts(s0, i, e.bn, bmapstart);
    LogIsStep(s0, s0, e, i, e.bn, e.bn, bmapstart);
  }

  /** What they have logged. */
  lemma {:induction false} ChunksLog(s0: Snap, i: nat, off0: nat, src: seq<Byte>, tr: seq<Chunk>, bmapstart: nat,
          k: nat)
    requires AllPaid(tr, i, bmapstart) && AllContinue(tr, s0, off0, src) && k < |tr| && i < |s0.rows|
    ensures LogIs(s0, tr[k].t, i, tr[0].bn, tr[k].bn + 1, bmapstart)
  {
    assert Continues(tr, k, s0, off0, src);
    ChunksCount(tr, k, s0, off0, src);
    if k == 0 {
      ChunksLogFirst(s0, tr[0], i, bmapstart);
    } else {
      ChunksAhead(s0, i, off0, src, tr, bmapstart, k - 1);
      ChunksLog(s0, i, off0, src, tr, bmapstart, k - 1);
      LogIsStep(s0, tr[k - 1].t, tr[k], i, tr[0].bn, tr[k - 1].bn + 1, bmapstart);
    }
  }

  /** What they have spent. */
  lemma {:induction false} ChunksSpend(s0: Snap, i: nat, off0: nat, src: seq<Byte>, tr: seq<Chunk>, bmapstart: nat,
          hi: nat, k: nat)
    requires AllPaid(tr, i, bmapstart) && AllContinue(tr, s0, off0, src) && k < |tr| &&
             tr[0].bn + |tr| <= hi <= MAXFILE && i < |s0.rows|
    ensures Balanced(s0, tr[k].t, i, tr[0].bn, tr[k].bn + 1, hi)
  {
    assert Paid(tr[k], i, bmapstart) && Continues(tr, k, s0, off0, src);
    ChunksCount(tr, k, s0, off0, src);
    if k == 0 {
      BalancedStep(s0, s0, tr[0], i, tr[0].bn, tr[0].bn, hi, bmapstart);
    } else {
      ChunksSpend(s0, i, off0, src, tr, bmapstart, hi, k - 1);
      BalancedStep(s0, tr[k - 1].t, tr[k], i, tr[0].bn, tr[k - 1].bn + 1, hi, bmapstart);
    }
  }

  /** The iterations done so far are those of the blocks from Lo(off0) on. */
  lemma ChunksReach(s0: Snap, s: Snap, i: nat, off0: nat, src: seq<Byte>, tot: nat, tr: seq<Chunk>, bmapstart: nat)
    requires Chunked(s0, s, i, off0, src, tot, tr, bmapstart) && tr != []
    ensures tr[0].bn == Lo(off0) && tr[|tr| - 1].bn == Lo(off0) + |tr| - 1 && tot > 0 &&
            Lo(off0) + |tr| == Hi(off0, tot)
  {
    ChunksCount(tr, |tr| - 1, s0, off0, src);
    assert ChunkOk(tr[0], i, bmapstart) && ChunkOk(tr[|tr| - 1], i, bmapstart);
  }

  /** An iteration that lacks the blocks it needs means that the whole write does. */
  lemma ChunksFail(s0: Snap, s: Snap, i: nat, off0: nat, src: seq<Byte>, tot: nat, tr: seq<Chunk>, bmapstart: nat)
    requires Trail(s0, s, i, off0, src, tot, tr, bmapstart) && AtBoundary(tr) && tot < |src| &&
             off0 + |src| <= MAX_BYTES
    requires i < |s0.rows| && i < |s.rows| && |Free(s.bitmap)| < Cost(s.rows[i], Lo(off0 + tot))
    ensures |Free(s0.bitmap)| < Need(s0.rows[i], Lo(off0), Hi(off0, |src|))
  {
    assert Look(0);
    var hi, bn := Hi(off0, |src|), Lo(off0 + tot);
    if tr != [] {
      OkIsPaid(tr, i, bmapstart);
      ChunksReach(s0, s, i, off0, src, tot, tr, bmapstart);
      ChunksSpend(s0, i, off0, src, tr, bmapstart, hi, |tr| - 1);
    }
    FreshFirst(s.rows[i], bn, hi);
  }

  /** The loop that ends has found all that the write needs, and logged what it calls for. */
  lemma ChunksPay(s0: Snap, s: Snap, i: nat, off0: nat, src: seq<Byte>, tr: seq<Chunk>, bmapstart: nat)
    requires Trail(s0, s, i, off0, src, |src|, tr, bmapstart) && off0 + |src| <= MAX_BYTES && i < |s0.rows|
    ensures |Free(s0.bitmap)| == |Free(s.bitmap)| + Need(s0.rows[i], Lo(off0), Hi(off0, |src|))
    ensures LogIs(s0, s, i, Lo(off0), Hi(off0, |src|), bmapstart)
  {
    assert Look(0);
    if tr != [] {
      OkIsPaid(tr, i, bmapstart);
      ChunksReach(s0, s, i, off0, src, |src|, tr, bmapstart);
      ChunksSpend(s0, i, off0, src, tr, bmapstart, Hi(off0, |src|), |tr| - 1);
      ChunksLog(s0, i, off0, src, tr, bmapstart, |tr| - 1);
    }
  }

  /** What the loop of writei as a whole does: the bytes are written, the file has no holes up to their end,
      other files and the old part of the block map are as before. */
  lemma LoopEffect(s0: Snap, s: Snap, i: nat, off0: nat, src: seq<Byte>, tr: seq<Chunk>, bmapstart: nat)
    requires Trail(s0, s, i, off0, src, |src|, tr, bmapstart)
    requires i < |s0.rows| && NoHoles(s0.rows[i], s0.d.size) && off0 <= s0.d.size && off0 + |src| <= MAX_BYTES &&
             Rooms(s0)
    ensures WriteInv(s0, s, i, off0, src, off0 + |src|) && LogIs(s0, s, i, Lo(off0), Hi(off0, |src|), bmapstart)
  {
    ChunksPay(s0, s, i, off0, src, tr, bmapstart);
    assert Look(0);
    if tr == [] {
      WriteStarts(s0, i, off0, src);
    } else {
      ChunksWrite(s0, s, i, off0, src, |src|, tr, bmapstart, |tr| - 1);
    }
  }

  // ---------- Files as byte sequences ----------

  /** The first n bytes of file i. */
  function FileBytes(s: Snap, i: nat, n: nat): (r: seq<Byte>)
    requires i < |s.rows| && n <= MAX_BYTES
    ensures |r| == n
  {
    seq(n, k requires 0 <= k < n => ByteOf(s, i, k))
  }

  lemma FileByteIs(s: Snap, i: nat, n: nat)
    requires i < |s.rows| && n <= MAX_BYTES
    ensures forall k :: 0 <= k < n ==> FileBytes(s, i, n)[k] == ByteOf(s, i, k)
  {
  }

  /** Overwriting, and extending if need be, one byte sequence. */
  function Overwrite(old_: seq<Byte>, off: nat, src: seq<Byte>): seq<Byte>
    requires off <= |old_|
  {
    old_[..off] + src + (if off + |src| < |old_| then old_[off + |src|..] else [])
  }

  lemma WrittenIsOverwrite(s0: Snap, s: Snap, i: nat, off0: nat, src: seq<Byte>)
    requires WriteInv(s0, s, i, off0, src, off0 + |src|)
    ensures FileBytes(s, i, Max(s0.d.size, off0 + |src|)) == Overwrite(FileBytes(s0, i, s0.d.size), off0, src)
  {
    var a, b := FileBytes(s, i, Max(s0.d.size, off0 + |src|)), Overwrite(FileBytes(s0, i, s0.d.size), off0, src);
    FileByteIs(s, i, |a|);
    FileByteIs(s0, i, s0.d.size);
    forall k | 0 <= k < |a| ensures a[k] == b[k] {
      assert ByteOf(s, i, k) == if off0 <= k < off0 + |src| then src[k - off0] else ByteOf(s0, i, k);
    }
  }

  lemma SameBytes(s: Snap, t: Snap, i: nat, n: nat)
    requires i < |s.rows| && n <= MAX_BYTES && t.rows == s.rows && t.blocks == s.blocks
    ensures FileBytes(t, i, n) == FileBytes(s, i, n)
  {
    FileByteIs(s, i, n);
    FileByteIs(t, i, n);
    assert forall k: nat :: k < n ==> ByteOf(s, i, k) == ByteOf(t, i, k);
  }

  /** A file whose mapped blocks are kept reads the same. */
  lemma KeptFileReadsSame(s: Snap, t: Snap, j: nat, n: nat)
    requires KeepsFile(s, t, j, -1) && NoHoles(s.rows[j], n)
    ensures FileBytes(t, j, n) == FileBytes(s, j, n)
  {
    FileByteIs(s, j, n);
    FileByteIs(t, j, n);
    forall k: nat | k < n ensures ByteOf(t, j, k) == ByteOf(s, j, k) {
      assert s.rows[j][SlotOf(k / BSIZE)] != 0;
      KeepsByte(s, t, j, -1, k);
    }
  }

  lemma SameRowsAnySize(rows: seq<Row>, ds: seq<Dinode>, blocks: seq<Block>, i: nat, size: nat)
    requires RowsMatch(rows, ds, blocks) && i < |ds|
    ensures RowsMatch(rows, ds[i := ds[i].(size := size)], blocks)
  {
  }

  /** When writei answers -1: past the end, 32-bit overflow, or beyond the largest file. */
  predicate WriteFails(size: nat, off: nat, n: nat) {
    off > size || off + n >= UINT_LIMIT || off + n > MAX_BYTES
  }

  /** A successful writei: the file is overwritten, no other file changes, and a write of filewrite's chunk
      size into an empty transaction logs at most MAXOPBLOCKS blocks. */
  ghost predicate WriteEffect(s: Snap, t: Snap, i: nat, off: nat, src: seq<Byte>) {
    && i < |s.rows| == |t.rows| && off <= s.d.size <= MAX_BYTES && off + |src| <= MAX_BYTES
    && t.d == s.d.(size := Max(s.d.size, off + |src|), addrs := t.d.addrs)
    && FileBytes(t, i, t.d.size) == Overwrite(FileBytes(s, i, s.d.size), off, src)
    && OthersSame(s, t, i) && Extends(s.rows[i], t.rows[i])
    && (s.txn == [] && |src| <= 3 * BSIZE ==> |Logged(t.txn)| <= MAXOPBLOCKS && Within(t.txn))
  }

  lemma WriteFinishes(s0: Snap, s: Snap, t: Snap, i: nat, off: nat, src: seq<Byte>, iblock: nat, bmapstart: nat)
    requires WriteInv(s0, s, i, off, src, off + |src|) && NoHoles(s0.rows[i], s0.d.size)
    requires t == if off + |src| > s0.d.size then s.(d := s.d.(size := off + |src|), txn := s.txn + [iblock]) else s
    requires LogIs(s0, s, i, Lo(off), Hi(off, |src|), bmapstart)
    ensures WriteEffect(s0, t, i, off, src) && NoHoles(t.rows[i], t.d.size)
    ensures t == s ==> t.d == s0.d
    ensures var data := WriteLog(s0.rows[i], t.rows[i], Lo(off), Hi(off, |src|), bmapstart);
            LogsInOrder(s0.txn, t.txn, data, off + |src| > s0.d.size, iblock)
  {
    WrittenIsOverwrite(s0, s, i, off, src);
    SameBytes(s, t, i, Max(s0.d.size, off + |src|));
    FinishKeepsOthers(s0, s, t, i);
    var data := WriteLog(s0.rows[i], s.rows[i], Lo(off), Hi(off, |src|), bmapstart);
    if off + |src| > s0.d.size { assert t.txn[..|t.txn| - 1] == s.txn; }
    if s0.txn == [] && |src| <= 3 * BSIZE {
      ChunkLogBound(s0.rows[i], s.rows[i], s0.d.size, off, |src|, bmapstart);
      LogsInAll(s0.txn, t.txn, data, off + |src| > s0.d.size, iblock);
      LogsWithin(s0.txn, t.txn, data, off + |src| > s0.d.size, iblock);
      CountUnion(data, {iblock});
    }
  }

  lemma FinishKeepsOthers(s0: Snap, s: Snap, t: Snap, i: nat)
    requires OthersSame(s0, s, i) && t.rows == s.rows && t.blocks == s.blocks
    ensures OthersSame(s0, t, i)
  {
    forall j | 0 <= j < |s0.rows| && j != i ensures KeepsFile(s0, t, j, -1) { assert KeepsFile(s0, s, j, -1); }
  }

  lemma MappedBelowSize(row: Row, size: nat, bn: nat)
    requires NoHoles(row, size) && bn * BSIZE < size
    ensures bn < MAXFILE && row[SlotOf(bn)] != 0 && (bn >= NDIRECT ==> row[12] != 0)
  {
    assert bn < MAXFILE;
    assert row[SlotOf(bn)] != 0 <==> bn * BSIZE < size;
  }

  lemma BlockByte(s: Snap, i: nat, bn: nat, k: nat)
    requires i < |s.rows| && bn < MAXFILE && k < BSIZE && s.rows[i][SlotOf(bn)] < |s.blocks|
    ensures ByteOf(s, i, bn * BSIZE + k) == s.blocks[s.rows[i][SlotOf(bn)]][k]
  {
    assert (bn * BSIZE + k) / BSIZE == bn && (bn * BSIZE + k) % BSIZE == k;
  }

  lemma SliceJoins(f: seq<Byte>, a: nat, b: nat, m: nat)
    requires a <= b <= b + m <= |f|
    ensures f[a..b] + f[b..b + m] == f[a..b + m]
  {
  }

  lemma BlockBytes(s: Snap, i: nat, size: nat, bn: nat, addr: nat, o: nat, m: nat)
    requires i < |s.rows| && size <= MAX_BYTES && o + m <= BSIZE && bn * BSIZE + o + m <= size && bn < MAXFILE
    requires addr == s.rows[i][SlotOf(bn)] && addr < |s.blocks|
    ensures s.blocks[addr][o..o + m] == FileBytes(s, i, size)[bn * BSIZE + o..bn * BSIZE + o + m]
  {
    var x := bn * BSIZE + o;
    var a, b := s.blocks[addr][o..o + m], FileBytes(s, i, size)[x..x + m];
    FileByteIs(s, i, size);
    forall k | 0 <= k < m ensures a[k] == b[k] {
      BlockByte(s, i, bn, o + k);
    }
  }

  /** `g` is `rows` with slots lo .. hi of row i emptied. */
  ghost predicate Emptied(rows: seq<Row>, g: seq<Row>, i: nat, lo: nat, hi: nat) {
    && i < |rows| == |g| && (forall j :: 0 <= j < |rows| && j != i ==> g[j] == rows[j])
    && (forall k :: 0 <= k < SLOTS ==> g[i][k] == if lo <= k < hi then 0 else rows[i][k])
  }

  lemma NoIndirectRow(d: Dinode, blocks: seq<Block>)
    ensures forall k :: 0 <= k < SLOTS ==>
            RowOf(d.(addrs := d.addrs[12 := 0]), blocks)[k] == if k < 12 then d.addrs[k] else 0
  {
    var e := d.(addrs := d.addrs[12 := 0]);
    assert Entries(e, blocks) == Zeros(128);
    forall k | 0 <= k < SLOTS ensures RowOf(e, blocks)[k] == if k < 12 then d.addrs[k] else 0 {
      assert RowOf(e, blocks)[k] == if k < 13 then e.addrs[k] else Zeros(128)[k - 13];
    }
  }

  lemma IndirectEmptied(rows: seq<Row>, g: seq<Row>, ds: seq<Dinode>, i: nat, d: Dinode, blocks: seq<Block>)
    requires i < |ds| && RowsMatch(rows, ds[i := d], blocks) && i < |g| && g[i][12] == 0
    requires exists h :: Emptied(rows, h, i, 13, SLOTS) && g == Put(h, i, 12, 0)
    ensures Emptied(rows, g, i, 12, SLOTS) && RowsMatch(g, ds[i := d.(addrs := d.addrs[12 := 0])], blocks)
  {
    var e := d.(addrs := d.addrs[12 := 0]);
    var h :| Emptied(rows, h, i, 13, SLOTS) && g == Put(h, i, 12, 0);
    NoIndirectRow(d, blocks);
    assert rows[i] == RowOf(ds[i := d][i], blocks);
    assert g[i] == RowOf(e, blocks);
    forall m | 0 <= m < |g| && m != i ensures g[m] == RowOf(ds[i := e][m], blocks) {
      assert rows[m] == RowOf(ds[i := d][m], blocks);
    }
  }

  lemma NothingLeft(d: Dinode, blocks: seq<Block>, row: Row)
    requires row == RowOf(d, blocks) && d.addrs[12] == 0
    ensures forall k :: 12 <= k < SLOTS ==> row[k] == 0
  {
  }

  /** With ownership exact before and after, emptying row i frees its blocks and no others. */
  lemma ExactlyFreed(rows: seq<Row>, bitmap: seq<bool>, rows': seq<Row>, bitmap': seq<bool>, nmeta: nat, i: nat)
    requires OwnedOnce(rows, bitmap, nmeta) && OwnedOnce(rows', bitmap', nmeta) && |bitmap| == |bitmap'|
    requires Emptied(rows, rows', i, 0, SLOTS)
    ensures forall b :: 0 <= b < |bitmap'| ==> (bitmap'[b] <==> bitmap[b] && (b < nmeta || b !in rows[i]))
  {
    var o: map<nat, Place> :| OwnedBy(rows, o, bitmap, nmeta);
    var o': map<nat, Place> :| OwnedBy(rows', o', bitmap', nmeta);
    forall b | nmeta <= b < |bitmap| ensures bitmap'[b] <==> bitmap[b] && b !in rows[i] {
      if bitmap'[b] { assert HeldBy(rows', o', b); }
      if bitmap[b] && b !in rows[i] { assert HeldBy(rows, o, b); }
    }
  }
}
