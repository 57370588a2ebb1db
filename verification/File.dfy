/** file.c: filewrite splits a write into chunks small enough for one log transaction each. */
module File {
  import opened Blocks
  import opened Ownership
  import opened Inodes
  import opened Space
  import opened Maps
  import opened Fs

  /** ((MAXOPBLOCKS - 1 - 1 - 2) / 2) * 512. */
  const MAX_CHUNK := 1536

  /** An open file. */
  class OpenFile {
    var off: nat

    constructor (off: nat)
      ensures this.off == off
    {
      this.off := off;
    }
  }

  /** The length of the next chunk. */
  function Chunk(left: nat): (n: nat)
    ensures n <= MAX_CHUNK && n <= left && (n == left || n == MAX_CHUNK)
  {
    if left > MAX_CHUNK then MAX_CHUNK else left
  }

  /** The bytes of the file that ip stands for. */
  ghost function Bytes(fs: FileSystem, ip: Inode): (r: seq<Byte>)
    requires fs.Settled(ip)
    reads fs, ip
  {
    FileBytes(fs.Now(ip), ip.inum, ip.d.size)
  }

  /** The file system is settled and the file holds b; `total` blocks are free or belong to the file. The guard
      keeps the solver from unfolding this where it is only carried along; opening it takes a mention of Open. */
  ghost predicate Holds(fs: FileSystem, ip: Inode, b: seq<Byte>, total: nat)
    reads fs, ip
  {
    forall k: nat {:trigger Open(k)} :: Open(k) ==>
      fs.Settled(ip) && b == Bytes(fs, ip) && Totals(fs.bitmap, |b|, total)
  }

  ghost predicate Open(k: nat) { k >= 0 }

  /** Another guard, for block counts. */
  ghost predicate Weigh(k: nat) { k >= 0 }

  /** So many blocks are free or belong to a file of `size` bytes. */
  ghost predicate Totals(bitmap: seq<bool>, size: nat, total: nat) {
    forall k: nat {:trigger Weigh(k)} :: Weigh(k) ==> total == |Free(bitmap)| + BlocksOf(size)
  }

  /** As many blocks, free or the file's, suffice for a file of `size` bytes to grow until it reaches `end`. */
  ghost predicate Suffice(total: nat, size: nat, end: nat) {
    forall k: nat {:trigger Weigh(k)} :: Weigh(k) ==> total >= BlocksOf(Max(size, end))
  }

  /** And they do not. */
  ghost predicate Lack(total: nat, size: nat, end: nat) {
    forall k: nat {:trigger Weigh(k)} :: Weigh(k) ==> total < BlocksOf(Max(size, end))
  }

  /** A write of n bytes at off to the file with this row finds its blocks exactly if `ok`, and takes them. */
  ghost predicate Spends(bitmap: seq<bool>, row: Row, off: nat, n: nat, ok: bool, bitmap': seq<bool>) {
    forall k: nat {:trigger Weigh(k)} :: Weigh(k) ==>
      && Hi(off, n) <= MAXFILE && (ok <==> |Free(bitmap)| >= Need(row, Lo(off), Hi(off, n)))
      && (ok ==> |Free(bitmap)| == |Free(bitmap')| + Need(row, Lo(off), Hi(off, n)))
  }

  /** So it does exactly if the blocks suffice, and blocks only move to the file. */
  lemma WriteWeighs(bitmap: seq<bool>, row: Row, size: nat, off: nat, n: nat, ok: bool, bitmap': seq<bool>, total: nat)
    requires Totals(bitmap, size, total) && NoHoles(row, size) && off <= size && off + n <= MAX_BYTES
    requires Spends(bitmap, row, off, n, ok, bitmap')
    ensures if ok then Suffice(total, size, off + n) else Lack(total, size, off + n)
    ensures ok ==> Totals(bitmap', Max(size, off + n), total)
  {
    assert Weigh(0);
    NeedIsGrowth(row, size, off, n);
  }

  /** writei in a transaction of its own. The panic (ok false) comes exactly when the blocks do not suffice. */
  method WriteHeld(fs: FileSystem, ip: Inode, off: nat, xs: seq<Byte>, ghost b: seq<Byte>, ghost total: nat)
    returns (ok: bool, r: int, ghost b1: seq<Byte>)
    requires Holds(fs, ip, b, total) && |xs| <= MAX_CHUNK && off < UINT_LIMIT
    modifies fs, ip
    ensures ok ==> Holds(fs, ip, b1, total) && |Logged(fs.txn)| <= MAXOPBLOCKS && Within(fs.txn)
    ensures ok ==> WriteFails(|b|, off, |xs|) || Suffice(total, |b|, off + |xs|)
    ensures !ok ==> !WriteFails(|b|, off, |xs|) && Lack(total, |b|, off + |xs|)
    ensures WriteFails(|b|, off, |xs|) ==> r == -1 && b1 == b
    ensures ok && !WriteFails(|b|, off, |xs|) ==> r == |xs| && b1 == Overwrite(b, off, xs)
  {
    assert Open(0);
    ghost var bitmap, row := fs.bitmap, fs.rows[ip.inum];
    ok, r, b1 := WriteOne(fs, ip, off, xs, b);
    if !WriteFails(|b|, off, |xs|) { WriteWeighs(bitmap, row, |b|, off, |xs|, ok, fs.bitmap, total); }
  }

  /** The same, by what it does to the fields. */
  method WriteOne(fs: FileSystem, ip: Inode, off: nat, xs: seq<Byte>, ghost b: seq<Byte>)
    returns (ok: bool, r: int, ghost b1: seq<Byte>)
    requires fs.Settled(ip) && b == Bytes(fs, ip) && |xs| <= MAX_CHUNK && off < UINT_LIMIT
    modifies fs, ip
    ensures ok ==> fs.Settled(ip) && b1 == Bytes(fs, ip) && |Logged(fs.txn)| <= MAXOPBLOCKS && Within(fs.txn)
    ensures WriteFails(|b|, off, |xs|) ==> ok && r == -1 && b1 == b && fs.bitmap == old(fs.bitmap)
    ensures ok && !WriteFails(|b|, off, |xs|) ==> r == |xs| && b1 == Overwrite(b, off, xs)
    ensures !WriteFails(|b|, off, |xs|) ==>
              Spends(old(fs.bitmap), old(fs.rows[ip.inum]), off, |xs|, ok, fs.bitmap)
  {
    ghost var s := fs.Now(ip);
    fs.txn := [];
    SameBytes(s, fs.Now(ip), ip.inum, ip.d.size);
    ok, r := fs.Writei(ip, xs, off);
    b1 := if ok then Bytes(fs, ip) else b;
  }

  /** One iteration of filewrite: a transaction that writes one chunk and moves the offset on. It logs at
      most MAXOPBLOCKS blocks, and a call that fails changes nothing. The panic (ok false) comes exactly when
      the blocks do not suffice. */
  method WriteTxn(fs: FileSystem, ip: Inode, f: OpenFile, xs: seq<Byte>, ghost b: seq<Byte>, ghost total: nat)
    returns (ok: bool, r: int, ghost b1: seq<Byte>)
    requires Holds(fs, ip, b, total) && |xs| <= MAX_CHUNK && f.off < UINT_LIMIT
    modifies fs, ip, f
    ensures ok ==> Holds(fs, ip, b1, total) && |Logged(fs.txn)| <= MAXOPBLOCKS && Within(fs.txn)
    ensures ok ==> WriteFails(|b|, old(f.off), |xs|) || Suffice(total, |b|, old(f.off) + |xs|)
    ensures !ok ==> !WriteFails(|b|, old(f.off), |xs|) && Lack(total, |b|, old(f.off) + |xs|)
    ensures WriteFails(|b|, old(f.off), |xs|) ==> r == -1 && f.off == old(f.off) && b1 == b
    ensures ok && !WriteFails(|b|, old(f.off), |xs|) ==>
              r == |xs| && f.off == old(f.off) + |xs| <= MAX_BYTES && b1 == Overwrite(b, old(f.off), xs)
  {
    ok, r, b1 := WriteHeld(fs, ip, f.off, xs, b, total);
    if ok && r > 0 {
      f.off := f.off + r;
    }
  }

  /** The size of the file once filewrite has written i bytes. */
  function SizeAt(size: nat, off: nat, i: nat): nat { if off > size then size else Max(size, off + i) }

  /** The file after filewrite has written the first i bytes of src. */
  ghost function Progress(b0: seq<Byte>, off: nat, src: seq<Byte>, i: nat): (r: seq<Byte>)
    requires i <= |src|
    ensures |r| == SizeAt(|b0|, off, i)
  {
    if off > |b0| then b0 else Overwrite(b0, off, src[..i])
  }

  lemma OverwriteJoins(b: seq<Byte>, off: nat, xs: seq<Byte>, ys: seq<Byte>)
    requires off <= |b|
    ensures Overwrite(Overwrite(b, off, xs), off + |xs|, ys) == Overwrite(b, off, xs + ys)
  {
  }

  lemma ProgressStarts(b0: seq<Byte>, off: nat, src: seq<Byte>)
    ensures Progress(b0, off, src, 0) == b0
  {
  }

  lemma ProgressStep(b0: seq<Byte>, b: seq<Byte>, off: nat, src: seq<Byte>, i: nat, m: nat)
    requires i + m <= |src| && off + i <= |b| && b == Progress(b0, off, src, i)
    requires i > 0 ==> off <= |b0|
    ensures Overwrite(b, off + i, src[i..i + m]) == Progress(b0, off, src, i + m)
  {
    OverwriteJoins(b0, off, src[..i], src[i..i + m]);
    assert src[..i] + src[i..i + m] == src[..i + m];
  }

  /** A third guard, for how far filewrite gets. */
  ghost predicate Pace(k: nat) { k >= 0 }

  /** How many of n bytes at off filewrite writes to a file of `size` bytes, if the disk has room: all of them
      if they fit into the largest file, else the whole chunks that do; and none past the end of the file. */
  function Reach(size: nat, off: nat, n: nat): (r: nat)
    ensures r <= n
  {
    if off > size then 0
    else if off + n <= MAX_BYTES then n
    else if off > MAX_BYTES then 0
    else (MAX_BYTES - off) / MAX_CHUNK * MAX_CHUNK
  }

  /** filewrite has written i bytes, in whole chunks unless it is done, and is still within the largest file. */
  ghost predicate Underway(size: nat, off: nat, n: nat, i: nat, chunks: nat) {
    forall k: nat {:trigger Pace(k)} :: Pace(k) ==>
      && i <= n && (i == chunks * MAX_CHUNK || i == n) && (i > 0 ==> off <= size && off + i <= MAX_BYTES)
  }

  ghost predicate Reaches(size: nat, off: nat, n: nat, reach: nat) {
    forall k: nat {:trigger Pace(k)} :: Pace(k) ==> reach == Reach(size, off, n)
  }

  /** The chunk that fails is the first one past what filewrite reaches. */
  lemma FailsAtReach(size: nat, off: nat, n: nat, i: nat, chunks: nat, reach: nat)
    requires Underway(size, off, n, i, chunks) && i < n && size <= MAX_BYTES && Reaches(size, off, n, reach)
    requires WriteFails(SizeAt(size, off, i), off + i, Chunk(n - i))
    ensures i == reach
  {
    assert Pace(0);
  }

  /** A chunk that does not fail is part of it. */
  lemma WithinReach(size: nat, off: nat, n: nat, i: nat, chunks: nat, reach: nat)
    requires Underway(size, off, n, i, chunks) && i < n && size <= MAX_BYTES && Reaches(size, off, n, reach)
    requires !WriteFails(SizeAt(size, off, i), off + i, Chunk(n - i))
    ensures off <= size && i + Chunk(n - i) <= reach
    ensures Underway(size, off, n, i + Chunk(n - i), chunks + 1)
  {
    assert Pace(0);
  }

  lemma DoneAtReach(size: nat, off: nat, n: nat, chunks: nat, reach: nat)
    requires Underway(size, off, n, n, chunks) && Reaches(size, off, n, reach)
    ensures n == reach
  {
    assert Pace(0);
  }

  /** A chunk that lacks blocks means that the whole write does. */
  lemma LacksAtReach(total: nat, size: nat, off: nat, i: nat, end: nat, reach: nat)
    requires Lack(total, SizeAt(size, off, i), off + end) && off <= size && i <= end <= reach
    ensures Lack(total, size, off + reach)
  {
    assert Weigh(0);
    BlocksOfGrows(Max(SizeAt(size, off, i), off + end), Max(size, off + reach));
  }

  /** What one iteration tells: it has reached the end, or it goes on, or the write lacks blocks. */
  lemma ChunkOutcome(size: nat, off: nat, n: nat, i: nat, chunks: nat, reach: nat, total: nat, ok: bool)
    requires Underway(size, off, n, i, chunks) && i < n && size <= MAX_BYTES && Reaches(size, off, n, reach)
    requires !ok ==> !WriteFails(SizeAt(size, off, i), off + i, Chunk(n - i))
    requires !ok ==> Lack(total, SizeAt(size, off, i), off + i + Chunk(n - i))
    ensures !ok ==> off <= size && Lack(total, size, off + reach)
    ensures if WriteFails(SizeAt(size, off, i), off + i, Chunk(n - i)) then i == reach
            else off <= size && Underway(size, off, n, i + Chunk(n - i), chunks + 1)
  {
    if WriteFails(SizeAt(size, off, i), off + i, Chunk(n - i)) {
      FailsAtReach(size, off, n, i, chunks, reach);
    } else {
      WithinReach(size, off, n, i, chunks, reach);
      if !ok { LacksAtReach(total, size, off, i, i + Chunk(n - i), reach); }
    }
  }

  lemma HeldSuffice(bitmap: seq<bool>, total: nat, size: nat, off: nat, reach: nat)
    requires Totals(bitmap, SizeAt(size, off, reach), total) && (off > size ==> reach == 0)
    ensures off > size || Suffice(total, size, off + reach)
  {
    assert Weigh(0);
  }

  /** The same with the contents: m bytes on, or at the end. */
  lemma NextChunk(b0: seq<Byte>, b: seq<Byte>, off: nat, src: seq<Byte>, i: nat, m: nat, chunks: nat, reach: nat,
          total: nat, ok: bool)
    requires i < |src| && m == Chunk(|src| - i) && |b0| <= MAX_BYTES && b == Progress(b0, off, src, i)
    requires Underway(|b0|, off, |src|, i, chunks) && Reaches(|b0|, off, |src|, reach)
    requires !ok ==> !WriteFails(|b|, off + i, m) && Lack(total, |b|, off + i + m)
    ensures !ok ==> off <= |b0| && Lack(total, |b0|, off + reach)
    ensures WriteFails(|b|, off + i, m) ==> i == reach
    ensures !WriteFails(|b|, off + i, m) ==>
              && off <= |b0| && Underway(|b0|, off, |src|, i + m, chunks + 1)
              && Overwrite(b, off + i, src[i..i + m]) == Progress(b0, off, src, i + m)
  {
    ChunkOutcome(|b0|, off, |src|, i, chunks, reach, total, ok);
    if !WriteFails(|b|, off + i, m) { ProgressStep(b0, b, off, src, i, m); }
  }

  /** The next chunk, when i bytes have been written to a file that held b0. */
  method WriteNext(fs: FileSystem, ip: Inode, f: OpenFile, src: seq<Byte>, i: nat, ghost off: nat,
          ghost b0: seq<Byte>, ghost b: seq<Byte>, ghost total: nat, ghost reach: nat, ghost chunks: nat)
    returns (ok: bool, r: int, m: nat, ghost b1: seq<Byte>)
    requires Holds(fs, ip, b, total) && i < |src| && f.off == off + i < UINT_LIMIT && |b0| <= MAX_BYTES
    requires b == Progress(b0, off, src, i)
    requires Underway(|b0|, off, |src|, i, chunks) && Reaches(|b0|, off, |src|, reach)
    modifies fs, ip, f
    ensures !ok ==> off <= |b0| && Lack(total, |b0|, off + reach)
    ensures ok ==> Holds(fs, ip, b1, total)
    ensures ok && r < 0 ==> i == reach && b1 == b && f.off == off + i
    ensures ok && r >= 0 ==> 1 <= m <= |src| - i && f.off == off + i + m < UINT_LIMIT && off <= |b0|
    ensures ok && r >= 0 ==> b1 == Progress(b0, off, src, i + m) && Underway(|b0|, off, |src|, i + m, chunks + 1)
  {
    m := Chunk(|src| - i);
    ok, r, b1 := WriteTxn(fs, ip, f, src[i..i + m], b, total);
    NextChunk(b0, b, off, src, i, m, chunks, reach, total, ok);
  }

  /** filewrite's loop, on a file that holds b0. */
  method WriteChunks(fs: FileSystem, ip: Inode, f: OpenFile, src: seq<Byte>, ghost b0: seq<Byte>, ghost total: nat,
          ghost reach: nat)
    returns (ok: bool, i: nat, ghost b: seq<Byte>)
    requires Holds(fs, ip, b0, total) && f.off < UINT_LIMIT && |b0| <= MAX_BYTES
    requires Reaches(|b0|, f.off, |src|, reach)
    modifies fs, ip, f
    ensures !ok ==> old(f.off) <= |b0| && Lack(total, |b0|, old(f.off) + reach)
    ensures ok ==> i == reach <= |src|
    ensures ok ==> Holds(fs, ip, b, total) && b == Progress(b0, old(f.off), src, i) && f.off == old(f.off) + i
  {
    i, b := 0, b0;
    ghost var off, chunks := f.off, 0;
    ProgressStarts(b0, f.off, src);
    assert Underway(|b0|, off, |src|, 0, 0) by { assert Pace(0); }
    while i < |src|
      invariant Underway(|b0|, off, |src|, i, chunks) && i <= |src| && (i > 0 ==> off <= |b0|)
      invariant Holds(fs, ip, b, total) && f.off == off + i < UINT_LIMIT
      invariant b == Progress(b0, off, src, i)
    {
      var r1, m;
      ghost var b1;
      ok, r1, m, b1 := WriteNext(fs, ip, f, src, i, off, b0, b, total, reach, chunks);
      if !ok || r1 < 0 {
        return ok, i, b1;
      }
      i, b, chunks := i + m, b1, chunks + 1;
    }
    DoneAtReach(|b0|, off, |src|, chunks, reach);
    ok := true;
  }

  /** The free blocks suffice for filewrite to write n bytes at off to a file of `size` bytes, as far as it gets. */
  ghost predicate Room(bitmap: seq<bool>, size: nat, off: nat, n: nat) {
    off > size || |Free(bitmap)| + BlocksOf(size) >= BlocksOf(Max(size, off + Reach(size, off, n)))
  }

  lemma RoomIff(bitmap: seq<bool>, size: nat, off: nat, n: nat, total: nat, reach: nat)
    requires total == |Free(bitmap)| + BlocksOf(size) && reach == Reach(size, off, n)
    ensures Totals(bitmap, size, total) && Reaches(size, off, n, reach)
    ensures off > size || Suffice(total, size, off + reach) ==> Room(bitmap, size, off, n)
    ensures off <= size && Lack(total, size, off + reach) ==> !Room(bitmap, size, off, n)
  {
    assert Weigh(0) && Pace(0);
  }

  lemma TotalsKept(bitmap: seq<bool>, bitmap': seq<bool>, size: nat, size': nat, total: nat)
    requires Totals(bitmap, size, total) && Totals(bitmap', size', total)
    ensures |Free(bitmap')| + BlocksOf(size') == |Free(bitmap)| + BlocksOf(size)
  {
    assert Weigh(0);
  }

  /** Short of the end lie whole chunks, and the next one is refused. */
  lemma StopsAtReach(size: nat, off: nat, n: nat, reach: nat)
    requires size <= MAX_BYTES && reach == Reach(size, off, n) < n
    ensures reach % MAX_CHUNK == 0 && WriteFails(SizeAt(size, off, reach), off + reach, Chunk(n - reach))
  {
  }

  /** filewrite: the bytes are written at the file's offset, which moves on past them. A failure (-1) leaves
      a prefix of whole chunks written. The panic (ok false) comes exactly when the free blocks do not suffice
      for what it would write, and blocks only move from the free ones to the file. */
  method Filewrite(fs: FileSystem, ip: Inode, f: OpenFile, src: seq<Byte>)
    returns (ok: bool, r: int, ghost done: nat)
    requires fs.Settled(ip) && f.off < UINT_LIMIT
    modifies fs, ip, f
    ensures done == Reach(old(ip.d.size), old(f.off), |src|)
    ensures ok <==> Room(old(fs.bitmap), old(ip.d.size), old(f.off), |src|)
    ensures ok ==> fs.Settled(ip) && Bytes(fs, ip) == Progress(old(Bytes(fs, ip)), old(f.off), src, done)
    ensures ok ==> f.off == old(f.off) + done && r == if done == |src| then |src| else -1
    ensures ok && done < |src| ==> done % MAX_CHUNK == 0 && WriteFails(ip.d.size, f.off, Chunk(|src| - done))
    ensures ok ==> |Free(fs.bitmap)| + BlocksOf(ip.d.size) == |Free(old(fs.bitmap))| + BlocksOf(old(ip.d.size))
  {
    var i;
    ghost var b;
    ghost var size, off, total := ip.d.size, f.off, |Free(fs.bitmap)| + BlocksOf(ip.d.size);
    done := Reach(size, off, |src|);
    RoomIff(fs.bitmap, size, off, |src|, total, done);
    ok, i, b := WriteChunks(fs, ip, f, src, Bytes(fs, ip), total, done);
    assert Open(0);
    if ok {
      HeldSuffice(fs.bitmap, total, size, off, done);
      TotalsKept(old(fs.bitmap), fs.bitmap, size, ip.d.size, total);
      if done < |src| { StopsAtReach(size, off, |src|, done); }
    }
    r := if i == |src| then |src| else -1;
  }
}
