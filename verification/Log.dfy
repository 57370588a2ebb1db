/** log.c's commit and recovery as the code runs them: loops over the buffers, one block write at a
    time, with the disk recorded after every write so that a crash there can be judged. */
module Log {
  import opened Blocks
  import opened LogMachine

  // ---------- The header block ----------

  /** The first k block numbers in a header block. */
  function HeadEntries(b: Block, k: nat): (r: seq<nat>)
    requires k < WORDS_PER_BLOCK
    ensures |r| == k && forall i :: 0 <= i < k ==> r[i] == Word(b, i + 1)
  {
    if k == 0 then [] else HeadEntries(b, k - 1) + [Word(b, k)]
  }

  predicate HeadOk(b: Block) { Word(b, 0) <= LOGSIZE }

  /** The block numbers the header block names. */
  function Decode(b: Block): (r: seq<nat>)
    requires HeadOk(b)
  {
    HeadEntries(b, Word(b, 0))
  }

  /** write_head's stores into the header buffer; whatever lay past the list stays behind, unread. */
  method Encode(old_: Block, lh: seq<nat>) returns (b: Block)
    requires |lh| <= LOGSIZE && forall i :: 0 <= i < |lh| ==> lh[i] < UINT_LIMIT
    ensures HeadOk(b) && Decode(b) == lh
    ensures forall j: nat :: |lh| < j < WORDS_PER_BLOCK ==> Word(b, j) == Word(old_, j)
  {
    SetWordReadsBack(old_, 0, |lh|);
    b := SetWord(old_, 0, |lh|);
    for i := 0 to |lh|
      invariant Word(b, 0) == |lh|
      invariant forall j: nat :: j < i ==> Word(b, j + 1) == lh[j]
      invariant forall j: nat :: |lh| < j < WORDS_PER_BLOCK ==> Word(b, j) == Word(old_, j)
    {
      SetWordReadsBack(b, i + 1, lh[i]);
      b := SetWord(b, i + 1, lh[i]);
    }
    assert Decode(b) == lh;
  }

  /** The home blocks that a crash on this disk, followed by recovery, leaves. */
  ghost function Restored(d: Disk): map<nat, Sector>
    requires BlocksOk(d, d.head)
  {
    map h | h in d.home :: CommittedAt(d, h)
  }

  lemma SameRestored(s: State, t: State)
    requires DataInv(s) && Refined(s, Stutter, t)
    ensures Restored(t.disk) == Restored(s.disk)
  {
  }

  lemma CommitRestored(s: State)
    requires DataInv(s) && s.phase.WriteLog? && s.phase.tail == |s.lh|
    ensures DataInv(HeadWritten(s))
    ensures Restored(HeadWritten(s).disk) == map h | h in s.disk.home :: CurrentAt(s, h)
  {
    HeadWrittenRefines(s);
  }

  lemma RunningRestored(s: State)
    requires DataInv(s) && (s.phase.Running? || s.phase.WriteLog?)
    ensures Restored(s.disk) == s.disk.home
  {
  }

  lemma NothingLogged(s: State)
    requires DataInv(s) && s.phase.Running? && s.lh == []
    ensures forall a :: a in s.cache ==> s.cache[a].data == s.disk.home[a]
  {
  }

  lemma ClearRestored(s: State)
    requires DataInv(s) && s.phase.Install? && s.phase.tail == |s.lh|
    ensures DataInv(HeadCleared(s)) && Restored(HeadCleared(s).disk) == Restored(s.disk)
    ensures HeadCleared(s).disk.home == Restored(s.disk)
    ensures forall a :: a in s.cache ==> a in s.disk.home && s.cache[a].data == s.disk.home[a]
  {
    HeadClearedRefines(s);
    SameRestored(s, HeadCleared(s));
  }

  lemma RepeatNext(t: seq<map<nat, Sector>>, r: map<nat, Sector>, k: nat)
    ensures t + Repeat(r, k) + [r] == t + Repeat(r, k + 1)
  {
  }

  class WriteAheadLog {
    const start: nat                 // the disk: the header's block number,
    var head: Block                  // header block,
    var log: seq<Sector>             // log blocks,
    var home: map<nat, Sector>       // all other blocks
    var cache: map<nat, Buf>         // buffers of home blocks
    var lh: seq<nat>                 // log.lh
    ghost var trace: seq<map<nat, Sector>>   // what a crash after each block write would leave

    function OnDisk(): Disk
      requires HeadOk(head)
      reads this
    {
      Disk(start, Decode(head), log, home)
    }

    ghost function At(phase: Phase): State
      requires HeadOk(head)
      reads this
    {
      State(OnDisk(), cache, {}, {}, {}, lh, phase, 0, false, [])
    }

    ghost predicate Valid(phase: Phase)
      reads this
    {
      HeadOk(head) && DataInv(At(phase)) && forall a :: a in home ==> a < UINT_LIMIT
    }

    /** What readers see now. */
    ghost function Current(): (m: map<nat, Sector>)
      reads this
    {
      map a | a in home :: if a in cache then cache[a].data else home[a]
    }

    /** bread of a home block. */
    method Bread(a: nat, ghost phase: Phase) returns (b: Sector)
      requires Valid(phase) && a in home
      modifies `cache
      ensures Valid(phase) && Current() == old(Current())
      ensures a in cache && b == cache[a].data
      ensures cache == if a in old(cache) then old(cache) else old(cache)[a := Buf(home[a], false)]
    {
      if a !in cache {
        ghost var s := At(phase);
        cache := cache[a := Buf(home[a], false)];
        CleanChangeRefines(s, cache, {});
      }
      b := cache[a].data;
    }

    /** log_write's search for the block in the list. */
    method FindLogged(a: nat) returns (i: nat)
      ensures i <= |lh| && a !in lh[..i] && (i < |lh| ==> lh[i] == a)
    {
      i := 0;
      while i < |lh| && lh[i] != a
        invariant i <= |lh| && a !in lh[..i]
      {
        i := i + 1;
      }
    }

    /** log_write's updates to the list and the buffer's B_DIRTY flag. Absorbs a block already listed. */
    method MarkLogged(a: nat, b: Sector)
      requires HeadOk(head)
      modifies `cache, `lh
      ensures At(Running) == LogWritten(old(At(Running)), a, b)
    {
      var i := FindLogged(a);
      if i == |lh| {
        lh := lh + [a];
      }
      cache := cache[a := Buf(b, true)];
    }

    /** log_write's first test, made without log.lock. Not ok is the panic. */
    method TestRoom() returns (ok: bool)
      ensures ok <==> |lh| < LOGSIZE && |lh| < |log|
    {
      ok := !(|lh| >= LOGSIZE || |lh| >= |log|);
    }

    /** The rest of log_write, on a block the caller has changed to `b` in its buffer. Other processes may have
        appended since the test; the reservation still leaves an entry of the array. */
    method LogAppend(a: nat, b: Sector)
      requires Valid(Running) && a in home && (a in lh || |lh| < LOGSIZE)
      modifies `cache, `lh
      ensures Valid(Running) && Current() == old(Current())[a := b]
      ensures lh == if a in old(lh) then old(lh) else old(lh) + [a]
    {
      LogWrittenRefines(At(Running), a, b);
      MarkLogged(a, b);
    }

    /** One iteration of write_log. */
    method CopyToLog(tail: nat)
      requires Valid(WriteLog(tail)) && tail < |lh| <= |log|
      modifies `log, `trace
      ensures Valid(WriteLog(tail + 1)) && |log| == |old(log)|
      ensures Restored(OnDisk()) == old(Restored(OnDisk())) && trace == old(trace) + [Restored(OnDisk())]
    {
      ghost var s := At(WriteLog(tail));
      LogCopiedRefines(s);
      SameRestored(s, LogCopied(s));
      var from := cache[lh[tail]].data;
      log := log[tail := from];
      assert At(WriteLog(tail + 1)) == LogCopied(s);
      trace := trace + [Restored(OnDisk())];
    }

    /** write_log: copy the modified buffers to the log. A crash here restores the old contents. */
    method WriteLogBlocks()
      requires Valid(WriteLog(0)) && |lh| <= |log|
      modifies `log, `trace
      ensures Valid(WriteLog(|lh|)) && Restored(OnDisk()) == old(Restored(OnDisk()))
      ensures trace == old(trace) + Repeat(old(Restored(OnDisk())), |lh|)
    {
      ghost var t0, r := trace, Restored(OnDisk());
      for tail := 0 to |lh|
        invariant Valid(WriteLog(tail)) && |lh| <= |log| && Restored(OnDisk()) == r
        invariant trace == t0 + Repeat(r, tail)
      {
        CopyToLog(tail);
        RepeatNext(t0, r, tail);
      }
    }

    /** The stores of one iteration of install_trans. */
    method CopyHome(tail: nat, ghost recovering: bool)
      requires HeadOk(head) && tail < |lh| && tail < |log|
      modifies `home, `cache
      ensures At(Install(tail + 1, recovering)) == OneInstalled(old(At(Install(tail, recovering))))
    {
      var lbuf := log[tail];
      home := home[lh[tail] := lbuf];
      cache := cache[lh[tail] := Buf(lbuf, false)];
    }

    /** One iteration of install_trans. */
    method InstallBlock(tail: nat, ghost recovering: bool)
      requires Valid(Install(tail, recovering)) && tail < |lh|
      modifies `home, `cache, `trace
      ensures Valid(Install(tail + 1, recovering))
      ensures Restored(OnDisk()) == old(Restored(OnDisk())) && trace == old(trace) + [Restored(OnDisk())]
    {
      ghost var s := At(Install(tail, recovering));
      OneInstalledRefines(s);
      SameRestored(s, OneInstalled(s));
      CopyHome(tail, recovering);
      trace := trace + [Restored(OnDisk())];
    }

    /** install_trans: copy the log blocks home. Wherever a crash hits, recovery restores the same. */
    method InstallTrans(ghost recovering: bool)
      requires Valid(Install(0, recovering))
      modifies `home, `cache, `trace
      ensures Valid(Install(|lh|, recovering)) && Restored(OnDisk()) == old(Restored(OnDisk()))
      ensures trace == old(trace) + Repeat(old(Restored(OnDisk())), |lh|)
    {
      ghost var t0, r := trace, Restored(OnDisk());
      for tail := 0 to |lh|
        invariant Valid(Install(tail, recovering)) && Restored(OnDisk()) == r
        invariant trace == t0 + Repeat(r, tail)
      {
        InstallBlock(tail, recovering);
        RepeatNext(t0, r, tail);
      }
    }

    /** write_head: the in-memory list becomes the header block. */
    method WriteHead()
      requires HeadOk(head) && BlocksOk(OnDisk(), lh) && forall a :: a in home ==> a < UINT_LIMIT
      modifies `head, `trace
      ensures HeadOk(head) && Decode(head) == lh
      ensures BlocksOk(OnDisk(), OnDisk().head) && trace == old(trace) + [Restored(OnDisk())]
    {
      head := Encode(head, lh);
      trace := trace + [Restored(OnDisk())];
    }

    /** The commit point: before this write a crash restores the old contents, after it the new. */
    method WriteHeadCommits()
      requires Valid(WriteLog(|lh|))
      modifies `head, `trace
      ensures Valid(Install(0, false)) && Restored(OnDisk()) == old(Current())
      ensures trace == old(trace) + [Restored(OnDisk())]
    {
      ghost var s := At(WriteLog(|lh|));
      CommitRestored(s);
      WriteHead();
      assert At(Install(0, false)) == HeadWritten(s);
    }

    /** lh.n = 0 and write_head: the transaction leaves the log. */
    method ClearHead(ghost recovering: bool)
      requires Valid(Install(|lh|, recovering))
      modifies `head, `lh, `trace
      ensures Valid(Running) && lh == [] && home == Current() == old(Restored(OnDisk()))
      ensures trace == old(trace) + [home]
    {
      ghost var s := At(Install(|lh|, recovering));
      ClearRestored(s);
      lh := [];
      WriteHead();
      assert At(HeadCleared(s).phase) == HeadCleared(s);
    }

    /** The two halves of a commit around its commit point. */
    method CommitLogged()
      requires Valid(WriteLog(0)) && |lh| <= |log|
      modifies this
      ensures Valid(Running) && lh == [] && home == Current() == old(Current())
      ensures trace == old(trace) + Repeat(old(Restored(OnDisk())), |old(lh)|) + [old(Current())]
                       + Repeat(old(Current()), |old(lh)|) + [old(Current())]
    {
      WriteLogBlocks();
      assert Current() == old(Current());
      WriteHeadCommits();
      InstallTrans(false);
      ClearHead(false);
    }

    /** commit: of its 2n + 2 block writes, a crash after any of the first n restores every home block to
        what it was before the transaction, after any later one to what the transaction made it. The list has
        to fit the log area; LogPanics says when it does. */
    method Commit()
      requires Valid(Running) && |lh| <= |log|
      modifies this
      ensures Valid(Running) && lh == [] && home == Current() == old(Current())
      ensures trace == old(trace) + if |old(lh)| == 0 then []
                                    else Repeat(old(home), |old(lh)|) + Repeat(old(Current()), |old(lh)| + 2)
    {
      ghost var s := At(Running);
      if |lh| > 0 {
        ControlRefines(s, At(WriteLog(0)));
        RunningRestored(s);
        RepeatJoins(Current(), |lh|);
        CommitLogged();
        SplitTrace(old(trace), Repeat(old(home), |old(lh)|), Repeat(old(Current()), |old(lh)|), old(Current()));
      } else {
        NothingLogged(s);
      }
    }

    /** read_head: the list as the header block has it. */
    method ReadHead()
      requires HeadOk(head)
      modifies `lh
      ensures lh == Decode(head)
    {
      var n := Word(head, 0);
      lh := [];
      for i := 0 to n
        invariant lh == HeadEntries(head, i)
      {
        lh := lh + [Word(head, i + 1)];
      }
    }

    /** recover_from_log after a reboot: the home blocks become what the disk restores to, and a crash
        after any of its writes would restore to the same, so recovery may be restarted at will. */
    method RecoverFromLog()
      requires HeadOk(head) && BlocksOk(OnDisk(), Decode(head)) && cache == map[]
      requires forall a :: a in home ==> a < UINT_LIMIT
      modifies this
      ensures Valid(Running) && lh == [] && home == Current() == old(Restored(OnDisk()))
      ensures trace == old(trace) + Repeat(home, |old(Decode(head))| + 1)
    {
      ReadHead();
      HeadReadRefines(At(Boot).(lh := []));
      assert At(Install(0, true)) == HeadRead(At(Boot).(lh := []));
      InstallTrans(true);
      ClearHead(true);
    }
  }

  lemma SplitTrace<T>(a: seq<T>, b: seq<T>, c: seq<T>, x: T)
    ensures a + b + [x] + c + [x] == a + (b + ([x] + c + [x]))
  {
  }

  lemma RepeatJoins<T>(x: T, n: nat)
    ensures [x] + Repeat(x, n) + [x] == Repeat(x, n + 2)
  {
    RepeatFront(x, n);
  }

  lemma {:induction false} RepeatFront<T>(x: T, n: nat)
    ensures [x] + Repeat(x, n) == Repeat(x, n + 1)
  {
    if n > 0 {
      RepeatFront(x, n - 1);
      assert [x] + (Repeat(x, n - 1) + [x]) == ([x] + Repeat(x, n - 1)) + [x];
    }
  }

  function Repeat<T>(x: T, n: nat): (r: seq<T>)
    ensures |r| == n
  {
    if n == 0 then [] else Repeat(x, n - 1) + [x]
  }
}
