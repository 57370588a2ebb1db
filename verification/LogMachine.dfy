/** The write-ahead log over the buffer cache and the disk, as one state machine:
    any number of processes run file system calls between begin_op and end_op, buffers are
    loaded and recycled at any time, the last end_op commits one block write at a time, and
    the machine may crash between any two steps, in recovery too. */
module LogMachine {
  import opened Blocks

  const LOGSIZE := 30
  const NBUF := 30

  /** One block's content, moved as a whole. */
  datatype Sector = Sector(content: Block)

  datatype Buf = Buf(data: Sector, dirty: bool)

  /** The disk by area: the log header at block number `start`, the log blocks after it, and all other
      blocks, called home blocks, by number. */
  datatype Disk = Disk(start: nat, head: seq<nat>, log: seq<Sector>, home: map<nat, Sector>) {
    /** The block number that write_log and install_trans use for entry i of the list. */
    function Slot(i: nat): nat { start + 1 + i }
  }

  /** Where a process is with respect to begin_op, end_op and commit. */
  datatype Pc =
    | Outside
    | Woken                     // in begin_op, about to test the condition again
    | Asleep                    // in begin_op, sleeping on &log
    | InOp(wrote: set<nat>, tested: bool)   // between begin_op and end_op: the blocks it passed to log_write,
                                            // and whether it is in log_write, past the tests
    | Committer                 // the end_op that runs commit

  /** Where the disk protocol stands. */
  datatype Phase =
    | Running
    | WriteLog(tail: nat)                     // write_log has written this many log blocks
    | Install(tail: nat, recovering: bool)    // install_trans has written this many home blocks
    | Finish                                  // commit returned; committing not yet cleared
    | Boot                                    // rebooted, header not yet read

  /** Buffers of home blocks are in `cache`; buffers of the header (0) and of log block i (i + 1)
      are always written through, so `logBufs` only says which of them are cached. */
  datatype State = State(
    disk: Disk,
    cache: map<nat, Buf>,
    held: set<nat>,          // cached home blocks with a refcnt other than zero
    logBufs: set<nat>,
    logHeld: set<nat>,       // those of them with a refcnt other than zero
    lh: seq<nat>,            // log.lh.block[0 .. log.lh.n]
    phase: Phase,
    outstanding: int,
    committing: bool,
    procs: seq<Pc>)

  // ---------- Invariants on the data ----------

  /** A list of different home blocks that fits the array lh.block. */
  ghost predicate ListOk(d: Disk, lh: seq<nat>) {
    && |lh| <= LOGSIZE
    && (forall i :: 0 <= i < |lh| ==> lh[i] in d.home)
    && (forall i, j :: 0 <= i < j < |lh| ==> lh[i] != lh[j])
  }

  /** A list that fits the log area too. */
  ghost predicate BlocksOk(d: Disk, lh: seq<nat>) { ListOk(d, lh) && |lh| <= |d.log| }

  /** Clean buffers agree with the disk, and every cached block is on the disk. */
  ghost predicate Coherent(cache: map<nat, Buf>, home: map<nat, Sector>) {
    forall a :: a in cache ==> a in home && (cache[a].dirty || cache[a].data == home[a])
  }

  /** Exactly the blocks listed from `from` on are pinned by B_DIRTY, and all of them are cached. */
  ghost predicate Pinned(cache: map<nat, Buf>, lh: seq<nat>, from: nat) {
    && (forall i :: from <= i < |lh| ==> lh[i] in cache && cache[lh[i]].dirty)
    && (forall i :: 0 <= i < from && i < |lh| && lh[i] in cache ==> !cache[lh[i]].dirty)
    && (forall a :: a in cache && cache[a].dirty ==> a in lh)
  }

  ghost predicate Shape(s: State) {
    BlocksOk(s.disk, s.disk.head) && ListOk(s.disk, s.lh)
  }

  ghost predicate DataInv(s: State) {
    && Shape(s) && Coherent(s.cache, s.disk.home)
    && match s.phase
       case Running => s.disk.head == [] && Pinned(s.cache, s.lh, 0)
       case WriteLog(tail) =>
         && s.disk.head == [] && Pinned(s.cache, s.lh, 0) && tail <= |s.lh| && tail <= |s.disk.log|
         && forall i :: 0 <= i < tail ==> s.disk.log[i] == s.cache[s.lh[i]].data
       case Install(tail, recovering) =>
         && s.disk.head == s.lh && tail <= |s.lh|
         && (forall i :: 0 <= i < tail ==> s.disk.home[s.lh[i]] == s.disk.log[i])
         && Pinned(s.cache, s.lh, if recovering then |s.lh| else tail)
         && (!recovering ==> forall i :: tail <= i < |s.lh| ==> s.cache[s.lh[i]].data == s.disk.log[i])
       case Finish => s.disk.head == [] && s.lh == [] && Pinned(s.cache, s.lh, 0)
       case Boot => s.lh == [] && Pinned(s.cache, s.lh, 0)
  }

  // ---------- Abstraction: a disk with transactions ----------

  /** The content of home block `a` once the first k log entries are replayed over the disk. */
  function ReplayAt(d: Disk, k: nat, a: nat): Sector
    requires k <= |d.head| && k <= |d.log| && a in d.home
  {
    if k == 0 then d.home[a]
    else if d.head[k - 1] == a then d.log[k - 1]
    else ReplayAt(d, k - 1, a)
  }

  lemma {:induction false} ReplayMiss(d: Disk, k: nat, a: nat)
    requires k <= |d.head| && k <= |d.log| && a in d.home
    requires forall i :: 0 <= i < k ==> d.head[i] != a
    ensures ReplayAt(d, k, a) == d.home[a]
  {
    if k > 0 { ReplayMiss(d, k - 1, a); }
  }

  lemma {:induction false} ReplayHit(d: Disk, k: nat, i: nat)
    requires i < k <= |d.head| && k <= |d.log| && d.head[i] in d.home
    requires forall j :: i < j < k ==> d.head[i] != d.head[j]
    ensures ReplayAt(d, k, d.head[i]) == d.log[i]
  {
    if i < k - 1 { ReplayHit(d, k - 1, i); }
  }

  /** What block `a` holds after a crash now and a completed recovery. */
  ghost function CommittedAt(d: Disk, a: nat): Sector
    requires BlocksOk(d, d.head) && a in d.home
  {
    ReplayAt(d, |d.head|, a)
  }

  /** A replayed block comes from its log slot, any other from home. */
  lemma CommittedIs(d: Disk, a: nat)
    requires BlocksOk(d, d.head) && a in d.home
    ensures a !in d.head ==> CommittedAt(d, a) == d.home[a]
    ensures forall i :: 0 <= i < |d.head| && d.head[i] == a ==> CommittedAt(d, a) == d.log[i]
  {
    if i :| 0 <= i < |d.head| && d.head[i] == a {
      ReplayHit(d, |d.head|, i);
    } else {
      ReplayMiss(d, |d.head|, a);
    }
  }

  predicate Rebooting(s: State) {
    s.phase.Boot? || (s.phase.Install? && s.phase.recovering)
  }

  /** What a process that reads block `a` through the cache sees; while rebooting nobody does. */
  ghost function CurrentAt(s: State, a: nat): Sector
    requires Shape(s) && a in s.disk.home
  {
    if Rebooting(s) then CommittedAt(s.disk, a)
    else if a in s.cache then s.cache[a].data else s.disk.home[a]
  }

  datatype Event = Stutter | Update(a: nat, b: Sector) | Commit | Lose

  /** A disk with transactions: updates change the current contents, a commit makes all of them
      durable at once, a crash drops everything since the last commit. */
  ghost predicate Refined(s: State, e: Event, t: State)
    requires Shape(s)
  {
    && DataInv(t) && t.disk.home.Keys == s.disk.home.Keys
    && forall h | h in s.disk.home ::
      && CommittedAt(t.disk, h) == (if e.Commit? then CurrentAt(s, h) else CommittedAt(s.disk, h))
      && CurrentAt(t, h) == (if e.Update? && h == e.a then e.b
         else if e.Lose? then CommittedAt(s.disk, h) else CurrentAt(s, h))
  }

  // ---------- Steps on the data ----------

  /** The part of log_write under log.lock, on a cached block whose content the process has changed to b. */
  function LogWritten(s: State, a: nat, b: Sector): State {
    s.(cache := s.cache[a := Buf(b, true)], lh := if a in s.lh then s.lh else s.lh + [a])
  }

  /** One iteration of write_log. */
  function LogCopied(s: State): State
    requires s.phase.WriteLog? && s.phase.tail < |s.lh| && s.lh[s.phase.tail] in s.cache && s.phase.tail < |s.disk.log|
  {
    var tail := s.phase.tail;
    s.(disk := s.disk.(log := s.disk.log[tail := s.cache[s.lh[tail]].data]), phase := WriteLog(tail + 1))
  }

  /** commit's first write_head. */
  function HeadWritten(s: State): State {
    s.(disk := s.disk.(head := s.lh), phase := Install(0, false))
  }

  /** One iteration of write_log past the end of the log area: bread and bwrite hit a home block. */
  function PastCopied(s: State): State
    requires s.phase.WriteLog? && s.phase.tail < |s.lh| && s.lh[s.phase.tail] in s.cache
  {
    var tail, b := s.phase.tail, s.cache[s.lh[s.phase.tail]].data;
    s.(disk := s.disk.(home := s.disk.home[s.disk.Slot(tail) := b]),
       cache := s.cache[s.disk.Slot(tail) := Buf(b, false)],
       phase := WriteLog(tail + 1))
  }

  /** One iteration of install_trans: copy a block home, which bwrite leaves clean. */
  function Installed(s: State, b: Sector): State
    requires s.phase.Install? && s.phase.tail < |s.lh|
  {
    var tail := s.phase.tail;
    s.(disk := s.disk.(home := s.disk.home[s.lh[tail] := b]),
       cache := s.cache[s.lh[tail] := Buf(b, false)],
       phase := s.phase.(tail := tail + 1))
  }

  function OneInstalled(s: State): State
    requires s.phase.Install? && s.phase.tail < |s.lh| && s.phase.tail < |s.disk.log|
  {
    Installed(s, s.disk.log[s.phase.tail])
  }

  /** lh.n = 0 and the second write_head. */
  function HeadCleared(s: State): State
    requires s.phase.Install?
  {
    s.(disk := s.disk.(head := []), lh := [], phase := if s.phase.recovering then Running else Finish)
  }

  function AllOutside(n: nat): (r: seq<Pc>)
    ensures |r| == n && forall i :: 0 <= i < n ==> r[i] == Outside
  {
    if n == 0 then [] else AllOutside(n - 1) + [Outside]
  }

  /** The cache, the in-memory header and all processes are gone; the disk stays. */
  function Crashed(s: State): State {
    s.(cache := map[], held := {}, logBufs := {}, logHeld := {}, lh := [], outstanding := 0, committing := false,
       procs := AllOutside(|s.procs|), phase := Boot)
  }

  function HeadRead(s: State): State {
    s.(lh := s.disk.head, phase := Install(0, true))
  }

  // ---------- Every step refines the transactional disk ----------

  lemma LogWrittenRefines(s: State, a: nat, b: Sector)
    requires DataInv(s) && s.phase.Running? && a in s.disk.home && (a in s.lh || |s.lh| < LOGSIZE)
    ensures Refined(s, Update(a, b), LogWritten(s, a, b))
  {
  }

  /** `cache` differs from the state's cache only in clean buffers that agree with the disk. */
  ghost predicate CleanChange(s: State, cache: map<nat, Buf>) {
    forall a :: if a in cache && a in s.cache then cache[a] == s.cache[a]
                else if a in cache then a in s.disk.home && cache[a] == Buf(s.disk.home[a], false)
                else a in s.cache ==> !s.cache[a].dirty
  }

  lemma CleanChangeKeepsPins(s: State, cache: map<nat, Buf>, from: nat)
    requires CleanChange(s, cache) && Pinned(s.cache, s.lh, from)
    ensures Pinned(cache, s.lh, from)
  {
  }

  /** Loading or recycling clean buffers shows nobody anything new. */
  lemma CleanChangeRefines(s: State, cache: map<nat, Buf>, logBufs: set<nat>)
    requires DataInv(s) && CleanChange(s, cache)
    ensures Refined(s, Stutter, s.(cache := cache, logBufs := logBufs))
  {
    match s.phase
    case Running => CleanChangeKeepsPins(s, cache, 0);
    case WriteLog(_) => CleanChangeKeepsPins(s, cache, 0);
    case Install(tail, recovering) => CleanChangeKeepsPins(s, cache, if recovering then |s.lh| else tail);
    case Finish =>
    case Boot =>
  }

  lemma LogCopiedRefines(s: State)
    requires DataInv(s) && s.phase.WriteLog? && s.phase.tail < |s.lh| && s.phase.tail < |s.disk.log|
    ensures Refined(s, Stutter, LogCopied(s))
  {
  }

  lemma HeadWrittenRefines(s: State)
    requires DataInv(s) && s.phase.WriteLog? && s.phase.tail == |s.lh|
    ensures Refined(s, Commit, HeadWritten(s))
  {
    var t := HeadWritten(s);
    forall h | h in s.disk.home
      ensures CommittedAt(t.disk, h) == CurrentAt(s, h)
    {
      CommittedIs(t.disk, h);
    }
  }

  lemma InstallUnpins(cache: map<nat, Buf>, lh: seq<nat>, from: nat, i: nat, b: Sector)
    requires Pinned(cache, lh, from) && i < |lh| && (from == i || from == |lh|)
    requires forall i, j :: 0 <= i < j < |lh| ==> lh[i] != lh[j]
    ensures Pinned(cache[lh[i] := Buf(b, false)], lh, if from == i then i + 1 else from)
  {
  }

  lemma InstallCoherent(cache: map<nat, Buf>, home: map<nat, Sector>, a: nat, b: Sector)
    requires Coherent(cache, home)
    ensures Coherent(cache[a := Buf(b, false)], home[a := b])
  {
  }

  lemma InstallShape(d: Disk, lh: seq<nat>, i: nat, b: Sector)
    requires ListOk(d, lh) && i < |lh|
    ensures ListOk(d.(home := d.home[lh[i] := b]), lh)
  {
  }

  lemma OneInstalledKeeps(s: State)
    requires DataInv(s) && s.phase.Install? && s.phase.tail < |s.lh|
    ensures DataInv(OneInstalled(s))
  {
    var tail := s.phase.tail;
    var b := s.disk.log[tail];
    InstallUnpins(s.cache, s.lh, if s.phase.recovering then |s.lh| else tail, tail, b);
    InstallCoherent(s.cache, s.disk.home, s.lh[tail], b);
    InstallShape(s.disk, s.lh, tail, b);
  }

  /** Installing a block never changes what recovery would restore, nor what readers see. */
  lemma OneInstalledRefines(s: State)
    requires DataInv(s) && s.phase.Install? && s.phase.tail < |s.lh|
    ensures Refined(s, Stutter, OneInstalled(s))
  {
    var t := OneInstalled(s);
    OneInstalledKeeps(s);
    forall h | h in s.disk.home
      ensures CommittedAt(t.disk, h) == CommittedAt(s.disk, h)
      ensures CurrentAt(t, h) == CurrentAt(s, h)
    {
      CommittedIs(s.disk, h);
      CommittedIs(t.disk, h);
    }
  }

  lemma HeadClearedRefines(s: State)
    requires DataInv(s) && s.phase.Install? && s.phase.tail == |s.lh|
    ensures Refined(s, Stutter, HeadCleared(s))
  {
    var t := HeadCleared(s);
    forall h | h in s.disk.home
      ensures CommittedAt(t.disk, h) == CommittedAt(s.disk, h)
      ensures CurrentAt(t, h) == CurrentAt(s, h)
    {
      CommittedIs(s.disk, h);
    }
  }

  lemma CrashedRefines(s: State)
    requires DataInv(s)
    ensures Refined(s, Lose, Crashed(s))
  {
  }

  lemma HeadReadRefines(s: State)
    requires DataInv(s) && s.phase.Boot?
    ensures Refined(s, Stutter, HeadRead(s))
  {
  }

  /** Steps that move no block: only process positions, counters and the phase change. */
  lemma ControlRefines(s: State, t: State)
    requires DataInv(s) && t.disk == s.disk && t.cache == s.cache && t.lh == s.lh
    requires t.phase == s.phase
      || (s.phase.Running? && t.phase == WriteLog(0)) || (s.phase.Running? && s.lh == [] && t.phase.Finish?)
      || (s.phase.Finish? && t.phase.Running?)
    ensures Refined(s, Stutter, t)
  {
  }

  // ---------- Counting buffers ----------

  lemma PinnedBuffers(cache: map<nat, Buf>, lh: seq<nat>)
    requires Pinned(cache, lh, 0) && forall i, j :: 0 <= i < j < |lh| ==> lh[i] != lh[j]
    ensures |lh| <= |cache|
    ensures |lh| == |cache| <==> forall a :: a in cache ==> cache[a].dirty
  {
    var pinned := SetOf(lh);
    CountDistinct(lh);
    assert pinned <= cache.Keys;
    assert |cache| == |cache.Keys|;
    SubsetCount(pinned, cache.Keys);
    if forall a :: a in cache ==> cache[a].dirty { assert cache.Keys == pinned; }
  }

  function SetOf(lh: seq<nat>): (r: set<nat>)
    ensures forall a :: a in r <==> a in lh
  {
    if lh == [] then {} else SetOf(lh[..|lh| - 1]) + {lh[|lh| - 1]}
  }

  lemma {:induction false} CountDistinct(lh: seq<nat>)
    requires forall i, j :: 0 <= i < j < |lh| ==> lh[i] != lh[j]
    ensures |SetOf(lh)| == |lh|
  {
    if lh != [] { CountDistinct(lh[..|lh| - 1]); }
  }

  lemma SubsetCount(a: set<nat>, b: set<nat>)
    requires a <= b
    ensures |a| <= |b|
    ensures |a| == |b| ==> a == b
  {
    assert b == a + (b - a);
  }

  // ---------- Admission: begin_op's reservations ----------

  function Promised(pc: Pc): int { if pc.InOp? then MAXOPBLOCKS - |pc.wrote| else 0 }

  /** Log slots still promised to the operations in progress. */
  function Reserved(procs: seq<Pc>): int {
    if procs == [] then 0 else Promised(procs[0]) + Reserved(procs[1..])
  }

  /** The number of operations in progress. */
  function Ops(procs: seq<Pc>): nat {
    if procs == [] then 0 else (if procs[0].InOp? then 1 else 0) + Ops(procs[1..])
  }

  lemma {:induction false} SumsAfterMove(procs: seq<Pc>, p: nat, pc: Pc)
    requires p < |procs|
    ensures Reserved(procs[p := pc]) == Reserved(procs) - Promised(procs[p]) + Promised(pc)
    ensures Ops(procs[p := pc]) == Ops(procs) - (if procs[p].InOp? then 1 else 0) + (if pc.InOp? then 1 else 0)
  {
    if p == 0 {
      assert procs[p := pc][1..] == procs[1..];
    } else {
      assert procs[p := pc][1..] == procs[1..][p - 1 := pc];
      SumsAfterMove(procs[1..], p - 1, pc);
    }
  }

  /** wakeup(&log): every process asleep in begin_op becomes runnable. */
  function WakeAll(procs: seq<Pc>): (r: seq<Pc>)
    ensures |r| == |procs|
    ensures forall i :: 0 <= i < |procs| ==> r[i] == if procs[i].Asleep? then Woken else procs[i]
  {
    if procs == [] then [] else [if procs[0].Asleep? then Woken else procs[0]] + WakeAll(procs[1..])
  }

  lemma {:induction false} SumsAfterWake(procs: seq<Pc>)
    ensures Reserved(WakeAll(procs)) == Reserved(procs) && Ops(WakeAll(procs)) == Ops(procs)
  {
    if procs != [] {
      assert WakeAll(procs)[1..] == WakeAll(procs[1..]);
      SumsAfterWake(procs[1..]);
    }
  }

  lemma {:induction false} SumsWhenIdle(procs: seq<Pc>)
    requires forall i :: 0 <= i < |procs| ==> !procs[i].InOp?
    ensures Reserved(procs) == 0 && Ops(procs) == 0
  {
    if procs != [] { SumsWhenIdle(procs[1..]); }
  }

  lemma {:induction false} ReservedBounds(procs: seq<Pc>)
    requires forall i :: 0 <= i < |procs| && procs[i].InOp? ==> |procs[i].wrote| <= MAXOPBLOCKS
    ensures 0 <= Reserved(procs) <= MAXOPBLOCKS * Ops(procs)
    ensures forall i :: 0 <= i < |procs| ==> Promised(procs[i]) <= Reserved(procs)
    ensures (exists i :: 0 <= i < |procs| && procs[i].InOp?) <==> Ops(procs) > 0
  {
    if procs != [] { ReservedBounds(procs[1..]); }
  }

  ghost predicate ProcsInv(procs: seq<Pc>, lh: seq<nat>) {
    && |lh| + Reserved(procs) <= LOGSIZE
    && (forall p :: 0 <= p < |procs| && procs[p].InOp? ==>
        |procs[p].wrote| <= MAXOPBLOCKS && forall a :: a in procs[p].wrote ==> a in lh)
    && (forall p, q :: 0 <= p < q < |procs| ==> !(procs[p].Committer? && procs[q].Committer?))
  }

  ghost predicate AdmissionInv(s: State) {
    && s.outstanding == Ops(s.procs)
    && ProcsInv(s.procs, s.lh)
    && (s.committing <==> s.phase.WriteLog? || s.phase.Finish? || (s.phase.Install? && !s.phase.recovering))
    && (!s.phase.Running? ==> s.outstanding == 0)
    && (s.phase.Running? && s.outstanding == 0 ==> s.lh == [])
    && (s.phase.Finish? ==> s.lh == []) && |s.disk.head| <= LOGSIZE
    && (s.committing <==> exists p :: 0 <= p < |s.procs| && s.procs[p].Committer?)
    && (forall p :: 0 <= p < |s.procs| && s.procs[p].Asleep? ==> s.committing || s.outstanding > 0)
  }

  /** The committer holds one buffer of the log area at most. */
  ghost predicate BuffersInv(s: State) {
    |s.cache| + |s.logBufs| <= NBUF && s.held <= s.cache.Keys && s.logHeld <= s.logBufs && |s.logHeld| <= 1
  }

  /** The sizes of the log area, in blocks besides the header, for which the log is atomic. With none at
      all nothing is ever logged; with NBUF - 1 a list that is too long takes all buffers, and so never
      gets written. */
  predicate RoomIsSafe(room: nat) { room == 0 || room >= NBUF - 1 }

  ghost predicate RoomInv(s: State) {
    && RoomIsSafe(|s.disk.log|)
    && (s.disk.log == [] ==> s.lh == [] && forall p :: 0 <= p < |s.procs| && s.procs[p].InOp? ==> !s.procs[p].tested)
    && (s.phase.WriteLog? && |s.lh| > |s.disk.log| ==> s.phase.tail == 0)
  }

  ghost predicate Inv(s: State) { DataInv(s) && AdmissionInv(s) && BuffersInv(s) && RoomInv(s) }

  // ---------- The machine ----------

  datatype Step =
    | BeginOp(p: nat)
    | EndOp(p: nat)
    | LogTest(p: nat)                      // log_write's tests, made without log.lock
    | LogAppend(p: nat, a: nat, b: Sector) // the rest of log_write, with log.lock held
    | Load(a: nat)                         // bread of a home block that is not cached
    | LoadLog(i: nat)                      // bread of the header or of a log block
    | Recycle(a: nat)                      // bget takes over the buffer of a clean block
    | RecycleLog(i: nat)
    | Hold(a: nat)                         // bread has returned the buffer of a home block
    | Release(a: nat)                      // its last user has called brelse
    | HoldLog(i: nat)                      // bread has returned the header or a log block to the committer
    | ReleaseLog(i: nat)
    | CopyToLog
    | WriteHead
    | InstallOne
    | ClearHead
    | EndCommit(p: nat)
    | Crash
    | ReadHead

  /** log_write's first panic. */
  predicate TooBig(s: State) { |s.lh| >= LOGSIZE || |s.lh| >= |s.disk.log| }

  predicate BufferFree(s: State) { |s.cache| + |s.logBufs| < NBUF }

  predicate Holds(s: State, a: nat) { a in s.cache && a in s.held }

  /** The committer holds the block for entry i of the list, be it a log block or one past the log area. */
  predicate HoldsSlot(s: State, i: nat) {
    if i < |s.disk.log| then i + 1 in s.logHeld else Holds(s, s.disk.Slot(i))
  }

  /** The buffer of the log area that the committer, or recovery, asks for next. */
  predicate Wants(s: State, i: nat) {
    match s.phase
    case Boot => i == 0
    case WriteLog(tail) => i == if tail < |s.lh| then tail + 1 else 0
    case Install(tail, _) => i == if tail < |s.lh| then tail + 1 else 0
    case _ => false
  }

  /** The step can be taken: control is there, the buffers it uses are cached, and no panic stops it. */
  predicate Enabled(s: State, step: Step) {
    match step
    case BeginOp(p) =>
      && p < |s.procs| && (s.procs[p].Outside? || s.procs[p].Woken?)
      && !Rebooting(s) && (s.phase.Running? ==> s.logHeld == {})
    case EndOp(p) => p < |s.procs| && s.procs[p].InOp? && !s.procs[p].tested && !s.committing
    case LogTest(p) => p < |s.procs| && s.procs[p].InOp? && !TooBig(s) && s.outstanding >= 1
    case LogAppend(p, a, b) =>
      && p < |s.procs| && s.procs[p].InOp? && s.procs[p].tested && |s.procs[p].wrote + {a}| <= MAXOPBLOCKS
      && a in s.cache && a in s.held
    case Load(a) => a in s.disk.home && a !in s.cache && BufferFree(s)
    case LoadLog(i) => i <= |s.disk.log| && i !in s.logBufs && BufferFree(s)
    case Recycle(a) => a in s.cache && !s.cache[a].dirty && a !in s.held
    case RecycleLog(i) => i in s.logBufs && i !in s.logHeld
    case Hold(a) => a in s.cache
    case Release(a) => a in s.held
    case HoldLog(i) => i in s.logBufs && s.logHeld == {} && Wants(s, i)
    case ReleaseLog(i) => i in s.logHeld
    case CopyToLog =>
      s.phase.WriteLog? && s.phase.tail < |s.lh| && HoldsSlot(s, s.phase.tail) && Holds(s, s.lh[s.phase.tail])
    case WriteHead => s.phase.WriteLog? && s.phase.tail == |s.lh| && 0 in s.logHeld
    case InstallOne =>
      s.phase.Install? && s.phase.tail < |s.lh| && HoldsSlot(s, s.phase.tail) && Holds(s, s.lh[s.phase.tail])
    case ClearHead => s.phase.Install? && s.phase.tail == |s.lh| && 0 in s.logHeld
    case EndCommit(p) => s.phase.Finish? && p < |s.procs| && s.procs[p].Committer? && s.logHeld == {}
    case Crash => true
    case ReadHead => s.phase.Boot? && 0 in s.logHeld
  }

  /** begin_op's test, made with log.lock held. */
  predicate MustWait(s: State) {
    s.committing || |s.lh| + (s.outstanding + 1) * MAXOPBLOCKS > LOGSIZE
  }

  function Begun(s: State, p: nat): State
    requires p < |s.procs|
  {
    if MustWait(s) then s.(procs := s.procs[p := Asleep])
    else s.(procs := s.procs[p := InOp({}, false)], outstanding := s.outstanding + 1)
  }

  function Ended(s: State, p: nat): State
    requires p < |s.procs|
  {
    if s.outstanding == 1 then
      s.(outstanding := 0, committing := true, procs := s.procs[p := Committer],
         phase := if |s.lh| > 0 then WriteLog(0) else Finish)
    else
      s.(outstanding := s.outstanding - 1, procs := WakeAll(s.procs[p := Outside]))
  }

  function Apply(s: State, step: Step): State
    requires Enabled(s, step)
  {
    match step
    case BeginOp(p) => Begun(s, p)
    case EndOp(p) => Ended(s, p)
    case LogTest(p) => s.(procs := s.procs[p := s.procs[p].(tested := true)])
    case LogAppend(p, a, b) => LogWritten(s, a, b).(procs := s.procs[p := InOp(s.procs[p].wrote + {a}, false)])
    case Load(a) => s.(cache := s.cache[a := Buf(s.disk.home[a], false)])
    case LoadLog(i) => s.(logBufs := s.logBufs + {i})
    case Recycle(a) => s.(cache := s.cache - {a})
    case RecycleLog(i) => s.(logBufs := s.logBufs - {i})
    case Hold(a) => s.(held := s.held + {a})
    case Release(a) => s.(held := s.held - {a})
    case HoldLog(i) => s.(logHeld := {i})
    case ReleaseLog(i) => s.(logHeld := s.logHeld - {i})
    case CopyToLog => if s.phase.tail < |s.disk.log| then LogCopied(s) else PastCopied(s)
    case WriteHead => HeadWritten(s)
    case InstallOne => if s.phase.tail < |s.disk.log| then OneInstalled(s)
        else Installed(s, s.cache[s.disk.Slot(s.phase.tail)].data)
    case ClearHead => HeadCleared(s)
    case EndCommit(p) => s.(committing := false, phase := Running, procs := WakeAll(s.procs[p := Outside]))
    case Crash => Crashed(s)
    case ReadHead => HeadRead(s)
  }

  function EventOf(step: Step): Event {
    match step
    case LogAppend(_, a, b) => Update(a, b)
    case WriteHead => Commit
    case Crash => Lose
    case _ => Stutter
  }

  lemma OpsMeanRunning(s: State, p: nat)
    requires AdmissionInv(s) && p < |s.procs| && s.procs[p].InOp?
    ensures s.phase.Running? && s.outstanding >= 1
  {
    ReservedBounds(s.procs);
  }

  /** An operation within its reservation finds the list shorter than LOGSIZE, unless its block is listed. */
  lemma AppendHasEntry(s: State, p: nat, a: nat, b: Sector)
    requires AdmissionInv(s) && Enabled(s, LogAppend(p, a, b))
    ensures a in s.lh || |s.lh| < LOGSIZE
  {
    ReservedBounds(s.procs);
    if a !in s.lh {
      assert a !in s.procs[p].wrote;
      assert Promised(s.procs[p]) >= 1;
    }
  }

  lemma LogAppendRefines(s: State, p: nat, a: nat, b: Sector)
    requires Inv(s) && Enabled(s, LogAppend(p, a, b))
    ensures Refined(s, Update(a, b), Apply(s, LogAppend(p, a, b)))
  {
    OpsMeanRunning(s, p);
    AppendHasEntry(s, p, a, b);
    LogWrittenRefines(s, a, b);
    ControlRefines(LogWritten(s, a, b), Apply(s, LogAppend(p, a, b)));
  }

  lemma CacheStepRefines(s: State, step: Step)
    requires DataInv(s) && Enabled(s, step) && (step.Load? || step.LoadLog? || step.Recycle? || step.RecycleLog?)
    ensures Refined(s, Stutter, Apply(s, step))
  {
    var t := Apply(s, step);
    CleanChangeRefines(s, t.cache, t.logBufs);
  }

  /** A list longer than the log area has all buffers pinned, so no log block is cached. */
  lemma OverlongIsStuck(s: State)
    requires Inv(s) && s.phase.WriteLog? && |s.lh| > |s.disk.log|
    ensures s.logBufs == {} && s.disk.log != [] && s.phase.tail == 0
  {
    PinnedBuffers(s.cache, s.lh);
  }

  lemma CopyStepRefines(s: State)
    requires Inv(s) && Enabled(s, CopyToLog)
    ensures s.phase.tail < |s.disk.log| && |s.lh| <= |s.disk.log| && Refined(s, Stutter, Apply(s, CopyToLog))
  {
    if |s.lh| > |s.disk.log| {
      OverlongIsStuck(s);
      assert false;
    }
    LogCopiedRefines(s);
  }

  lemma DiskStepRefines(s: State, step: Step)
    requires DataInv(s) && Enabled(s, step)
    requires step.WriteHead? || step.InstallOne? || step.ClearHead? || step.ReadHead?
    ensures Refined(s, EventOf(step), Apply(s, step))
  {
    match step
    case WriteHead => HeadWrittenRefines(s);
    case InstallOne => OneInstalledRefines(s);
    case ClearHead => HeadClearedRefines(s);
    case ReadHead => HeadReadRefines(s);
  }

  lemma EndOpRefines(s: State, p: nat)
    requires Inv(s) && Enabled(s, EndOp(p))
    ensures Refined(s, Stutter, Ended(s, p))
  {
    OpsMeanRunning(s, p);
    ControlRefines(s, Ended(s, p));
  }

  predicate HoldStep(step: Step) { step.Hold? || step.Release? || step.HoldLog? || step.ReleaseLog? }

  lemma ControlStepRefines(s: State, step: Step)
    requires DataInv(s) && Enabled(s, step)
    requires step.BeginOp? || step.EndCommit? || step.LogTest? || HoldStep(step)
    ensures Refined(s, Stutter, Apply(s, step))
  {
    ControlRefines(s, Apply(s, step));
  }

  lemma StepRefines(s: State, step: Step)
    requires Inv(s) && Enabled(s, step)
    ensures Refined(s, EventOf(step), Apply(s, step))
  {
    if step.LogAppend? {
      LogAppendRefines(s, step.p, step.a, step.b);
    } else if step.Load? || step.LoadLog? || step.Recycle? || step.RecycleLog? {
      CacheStepRefines(s, step);
    } else if step.BeginOp? || step.EndCommit? || step.LogTest? || HoldStep(step) {
      ControlStepRefines(s, step);
    } else if step.EndOp? {
      EndOpRefines(s, step.p);
    } else if step.CopyToLog? {
      CopyStepRefines(s);
    } else if step.Crash? {
      CrashedRefines(s);
    } else {
      DiskStepRefines(s, step);
    }
  }

  lemma BegunAdmits(s: State, p: nat)
    requires AdmissionInv(s) && Enabled(s, BeginOp(p))
    ensures AdmissionInv(Begun(s, p))
  {
    var pc := if MustWait(s) then Asleep else InOp({}, false);
    SumsAfterMove(s.procs, p, pc);
    ReservedBounds(s.procs);
    if s.committing {
      var q :| 0 <= q < |s.procs| && s.procs[q].Committer?;
      assert Begun(s, p).procs[q].Committer?;
    }
  }

  lemma LastEndedAdmits(s: State, p: nat)
    requires AdmissionInv(s) && Enabled(s, EndOp(p)) && s.outstanding == 1
    ensures AdmissionInv(Ended(s, p))
  {
    OpsMeanRunning(s, p);
    SumsAfterMove(s.procs, p, Committer);
    assert Ended(s, p).procs[p].Committer?;
  }

  lemma EndedAdmits(s: State, p: nat)
    requires AdmissionInv(s) && Enabled(s, EndOp(p))
    ensures AdmissionInv(Ended(s, p))
  {
    if s.outstanding == 1 {
      LastEndedAdmits(s, p);
    } else {
      OpsMeanRunning(s, p);
      SumsAfterMove(s.procs, p, Outside);
      SumsAfterWake(s.procs[p := Outside]);
    }
  }

  lemma AppendReserves(procs: seq<Pc>, lh: seq<nat>, p: nat, a: nat)
    requires ProcsInv(procs, lh) && p < |procs| && procs[p].InOp? && |procs[p].wrote + {a}| <= MAXOPBLOCKS
    ensures Ops(procs[p := InOp(procs[p].wrote + {a}, false)]) == Ops(procs)
    ensures ProcsInv(procs[p := InOp(procs[p].wrote + {a}, false)], if a in lh then lh else lh + [a])
  {
    SumsAfterMove(procs, p, InOp(procs[p].wrote + {a}, false));
    if a !in lh { assert a !in procs[p].wrote; }
  }

  lemma LogAppendAdmits(s: State, p: nat, a: nat, b: Sector)
    requires AdmissionInv(s) && Enabled(s, LogAppend(p, a, b))
    ensures AdmissionInv(Apply(s, LogAppend(p, a, b)))
  {
    OpsMeanRunning(s, p);
    AppendReserves(s.procs, s.lh, p, a);
  }

  lemma LogTestAdmits(s: State, p: nat)
    requires AdmissionInv(s) && Enabled(s, LogTest(p))
    ensures AdmissionInv(Apply(s, LogTest(p)))
  {
    OpsMeanRunning(s, p);
    SumsAfterMove(s.procs, p, s.procs[p].(tested := true));
  }

  lemma EndCommitAdmits(s: State, p: nat)
    requires AdmissionInv(s) && Enabled(s, EndCommit(p))
    ensures AdmissionInv(Apply(s, EndCommit(p)))
  {
    SumsAfterMove(s.procs, p, Outside);
    SumsAfterWake(s.procs[p := Outside]);
  }

  lemma CrashAdmits(s: State)
    requires AdmissionInv(s)
    ensures AdmissionInv(Crashed(s))
  {
    SumsWhenIdle(Crashed(s).procs);
  }

  lemma CommitStepAdmits(s: State, step: Step)
    requires AdmissionInv(s) && Enabled(s, step)
    requires step.CopyToLog? || step.WriteHead? || step.InstallOne? || step.ClearHead? || step.ReadHead?
    ensures AdmissionInv(Apply(s, step))
  {
    ReservedBounds(s.procs);
    assert s.outstanding == 0;
  }

  /** The reservations hold for a log area of any size. */
  lemma StepAdmits(s: State, step: Step)
    requires AdmissionInv(s) && Enabled(s, step)
    ensures AdmissionInv(Apply(s, step))
  {
    match step
    case BeginOp(p) => BegunAdmits(s, p);
    case EndOp(p) => EndedAdmits(s, p);
    case LogTest(p) => LogTestAdmits(s, p);
    case LogAppend(p, a, b) => LogAppendAdmits(s, p, a, b);
    case EndCommit(p) => EndCommitAdmits(s, p);
    case Crash => CrashAdmits(s);
    case Load(_) =>
    case LoadLog(_) =>
    case Recycle(_) =>
    case RecycleLog(_) =>
    case Hold(_) =>
    case Release(_) =>
    case HoldLog(_) =>
    case ReleaseLog(_) =>
    case CopyToLog => CommitStepAdmits(s, step);
    case WriteHead => CommitStepAdmits(s, step);
    case InstallOne => CommitStepAdmits(s, step);
    case ClearHead => CommitStepAdmits(s, step);
    case ReadHead => CommitStepAdmits(s, step);
  }

  lemma StepFitsBuffers(s: State, step: Step)
    requires BuffersInv(s) && Enabled(s, step)
    ensures BuffersInv(Apply(s, step))
  {
    var t := Apply(s, step);
    assert |t.cache| == |t.cache.Keys| && |s.cache| == |s.cache.Keys|;
    if step.LogAppend? || step.InstallOne? || step.CopyToLog? {
      assert t.cache.Keys == s.cache.Keys;
    } else if step.Recycle? {
      assert t.cache.Keys == s.cache.Keys - {step.a};
    } else if step.Load? {
      assert t.cache.Keys == s.cache.Keys + {step.a};
    }
  }

  lemma ProcStepKeepsRoom(s: State, step: Step)
    requires RoomInv(s) && AdmissionInv(s) && Enabled(s, step)
    requires step.BeginOp? || step.EndOp? || step.LogTest? || step.LogAppend? || step.EndCommit?
    ensures RoomInv(Apply(s, step))
  {
    if step.EndOp? || step.LogAppend? { OpsMeanRunning(s, step.p); }
  }

  lemma StepKeepsRoom(s: State, step: Step)
    requires Inv(s) && Enabled(s, step)
    ensures RoomInv(Apply(s, step))
  {
    match step
    case CopyToLog => CopyStepRefines(s);
    case BeginOp(_) => ProcStepKeepsRoom(s, step);
    case EndOp(_) => ProcStepKeepsRoom(s, step);
    case LogTest(_) => ProcStepKeepsRoom(s, step);
    case LogAppend(_, _, _) => ProcStepKeepsRoom(s, step);
    case EndCommit(_) => ProcStepKeepsRoom(s, step);
    case _ =>
  }

  /** Every step of every interleaving keeps the invariant and does one event of the transactional disk. */
  lemma StepCorrect(s: State, step: Step)
    requires Inv(s) && Enabled(s, step)
    ensures Inv(Apply(s, step)) && Refined(s, EventOf(step), Apply(s, step))
  {
    StepRefines(s, step);
    StepFitsBuffers(s, step);
    StepAdmits(s, step);
    StepKeepsRoom(s, step);
  }

  // ---------- Whole runs ----------

  datatype Abs = Abs(committed: map<nat, Sector>, current: map<nat, Sector>)

  ghost function Abstract(s: State): Abs
    requires Shape(s)
  {
    Abs(map a | a in s.disk.home :: CommittedAt(s.disk, a), map a | a in s.disk.home :: CurrentAt(s, a))
  }

  /** The specification: what each event does to a disk with atomic, durable transactions. */
  function AbsApply(x: Abs, e: Event): Abs {
    match e
    case Stutter => x
    case Update(a, b) => x.(current := x.current[a := b])
    case Commit => x.(committed := x.current)
    case Lose => x.(current := x.committed)
  }

  ghost predicate Next(s: State, step: Step, t: State) {
    Enabled(s, step) && t == Apply(s, step)
  }

  /** A run: `steps` lead from each state of `ss` to the next. */
  ghost predicate Run(ss: seq<State>, steps: seq<Step>) {
    |ss| == |steps| + 1 && forall i {:trigger steps[i]} :: 0 <= i < |steps| ==> Next(ss[i], steps[i], ss[i + 1])
  }

  function AbsRun(x: Abs, steps: seq<Step>): Abs {
    if steps == [] then x else AbsApply(AbsRun(x, steps[..|steps| - 1]), EventOf(steps[|steps| - 1]))
  }

  lemma RefinedCommitted(s: State, e: Event, t: State)
    requires Shape(s) && Refined(s, e, t)
    ensures Abstract(t).committed == AbsApply(Abstract(s), e).committed
  {
  }

  lemma RefinedCurrent(s: State, e: Event, t: State)
    requires Shape(s) && Refined(s, e, t) && (e.Update? ==> e.a in s.disk.home)
    ensures Abstract(t).current == AbsApply(Abstract(s), e).current
  {
  }

  lemma RefinedAbstractly(s: State, e: Event, t: State)
    requires Shape(s) && Refined(s, e, t) && (e.Update? ==> e.a in s.disk.home)
    ensures Abstract(t) == AbsApply(Abstract(s), e)
  {
    RefinedCommitted(s, e, t);
    RefinedCurrent(s, e, t);
  }

  /** Forward simulation: whatever the interleaving, evictions and crashes, the log, the cache and the
      disk together behave as the transactional disk. */
  lemma NextRefines(s: State, step: Step, t: State)
    requires Next(s, step, t) && Inv(s)
    ensures Inv(t) && Abstract(t) == AbsApply(Abstract(s), EventOf(step))
  {
    StepCorrect(s, step);
    RefinedAbstractly(s, EventOf(step), Apply(s, step));
  }

  lemma AbsRunNext(x: Abs, steps: seq<Step>, k: nat)
    requires 0 < k <= |steps|
    ensures AbsRun(x, steps[..k]) == AbsApply(AbsRun(x, steps[..k - 1]), EventOf(steps[k - 1]))
  {
    assert steps[..k][..k - 1] == steps[..k - 1];
  }

  lemma {:induction false} RunRefines(ss: seq<State>, steps: seq<Step>, k: nat)
    requires Run(ss, steps) && Inv(ss[0]) && k <= |steps|
    ensures Inv(ss[k]) && Abstract(ss[k]) == AbsRun(Abstract(ss[0]), steps[..k])
  {
    if k > 0 {
      RunRefines(ss, steps, k - 1);
      NextRefines(ss[k - 1], steps[k - 1], ss[k]);
      AbsRunNext(Abstract(ss[0]), steps, k);
    }
  }

  /** A booted machine over any well-formed disk, possibly one that crashed in mid-commit. */
  ghost predicate Init(s: State) {
    && BlocksOk(s.disk, s.disk.head) &&
       (forall a :: a in s.disk.home ==> !(s.disk.start <= a <= s.disk.start + |s.disk.log|))
    && s.phase.Boot? && s.cache == map[] && s.held == {} && s.logBufs == {} && s.logHeld == {} && s.lh == []
    && s.outstanding == 0 && !s.committing && forall p :: 0 <= p < |s.procs| ==> s.procs[p].Outside?
  }

  lemma InitInv(s: State)
    requires Init(s)
    ensures AdmissionInv(s) && BuffersInv(s) && (RoomIsSafe(|s.disk.log|) ==> Inv(s))
  {
    SumsWhenIdle(s.procs);
  }

  lemma {:induction false} AbsRunWithoutUpdates(x: Abs, steps: seq<Step>)
    requires forall i :: 0 <= i < |steps| ==> !steps[i].LogAppend?
    ensures AbsRun(x, steps).committed in {x.committed, x.current}
    ensures AbsRun(x, steps).current in {x.committed, x.current}
    ensures (forall i :: 0 <= i < |steps| ==> !steps[i].WriteHead?) ==> AbsRun(x, steps).committed == x.committed
  {
    if steps != [] {
      AbsRunWithoutUpdates(x, steps[..|steps| - 1]);
    }
  }

  /** Crash atomicity: commit, crash anywhere, recover, crash again, as often as one likes; once the
      machine runs again the home blocks on disk are all as before the transaction or all as after. */
  lemma CrashAtomicity(ss: seq<State>, steps: seq<Step>)
    requires Run(ss, steps) && Inv(ss[0]) && ss[|steps|].phase.Running?
    requires forall i :: 0 <= i < |steps| ==> !steps[i].LogAppend?
    ensures ss[|steps|].disk.home in {Abstract(ss[0]).committed, Abstract(ss[0]).current}
    ensures (forall i :: 0 <= i < |steps| ==> !steps[i].WriteHead?) ==>
            ss[|steps|].disk.home == Abstract(ss[0]).committed
  {
    RunRefines(ss, steps, |steps|);
    assert steps[..|steps|] == steps;
    AbsRunWithoutUpdates(Abstract(ss[0]), steps);
    HomeIsCommitted(ss[|steps|]);
  }

  /** Outside install, the home blocks on disk are exactly the last committed contents: log_write'd
      blocks never reach the disk early. */
  lemma HomeIsCommitted(s: State)
    requires DataInv(s) && !s.phase.Install? && !s.phase.Boot?
    ensures s.disk.home == Abstract(s).committed
  {
    assert forall a :: a in s.disk.home ==> CommittedAt(s.disk, a) == s.disk.home[a];
  }

  /** When commit returns, the disk holds every logged write. */
  lemma CommitInstallsAll(s: State)
    requires DataInv(s) && s.phase.Finish?
    ensures s.disk.home == Abstract(s).current == Abstract(s).committed
  {
    HomeIsCommitted(s);
    assert forall a :: a in s.disk.home ==> CurrentAt(s, a) == s.disk.home[a];
  }

  // ---------- Panics ----------

  ghost predicate Reachable(s: State) {
    exists ss, steps :: Run(ss, steps) && Init(ss[0]) && ss[|steps|] == s
  }

  lemma NextAdmits(s: State, step: Step, t: State)
    requires Next(s, step, t) && AdmissionInv(s) && BuffersInv(s)
    ensures AdmissionInv(t) && BuffersInv(t) && |t.disk.log| == |s.disk.log|
  {
    StepAdmits(s, step);
    StepFitsBuffers(s, step);
  }

  lemma {:induction false} RunAdmits(ss: seq<State>, steps: seq<Step>, k: nat)
    requires Run(ss, steps) && AdmissionInv(ss[0]) && BuffersInv(ss[0]) && k <= |steps|
    ensures AdmissionInv(ss[k]) && BuffersInv(ss[k]) && |ss[k].disk.log| == |ss[0].disk.log|
  {
    if k > 0 {
      RunAdmits(ss, steps, k - 1);
      NextAdmits(ss[k - 1], steps[k - 1], ss[k]);
    }
  }

  lemma ReachableInv(s: State)
    requires Reachable(s)
    ensures AdmissionInv(s) && BuffersInv(s) && (RoomIsSafe(|s.disk.log|) ==> Inv(s))
  {
    var ss, steps :| Run(ss, steps) && Init(ss[0]) && ss[|steps|] == s;
    InitInv(ss[0]);
    RunAdmits(ss, steps, |steps|);
    if RoomIsSafe(|s.disk.log|) { RunRefines(ss, steps, |steps|); }
  }

  /** A process inside an operation never meets the "log.committing" or "outside of trans" panics. */
  lemma OpsDoNotMeetCommit(s: State, p: nat)
    requires Reachable(s) && p < |s.procs| && s.procs[p].InOp?
    ensures !s.committing && s.outstanding >= 1
  {
    ReachableInv(s);
    OpsMeanRunning(s, p);
  }

  /** Nobody sleeps in begin_op unless a commit or an operation is in progress. The end of the commit, or
      of an operation that leaves others, makes every sleeper runnable; the last operation becomes a commit. */
  lemma SleepersWillBeWoken(s: State, p: nat, step: Step)
    requires Reachable(s) && p < |s.procs| && s.procs[p].Asleep? && Enabled(s, step)
    ensures exists q :: 0 <= q < |s.procs| && (s.procs[q].Committer? || s.procs[q].InOp?)
    ensures step.EndCommit? ==> Apply(s, step).procs[p].Woken?
    ensures step.EndOp? ==> Apply(s, step).procs[p].Woken? || Apply(s, step).procs[step.p].Committer?
  {
    ReachableInv(s);
    ReservedBounds(s.procs);
  }
}
