/** Exactly when log.c and the buffer cache keep what begin_op's reservations are meant to give: no "too big a
    transaction" in log_write, a list that fits the log area, atomic commits, and no "bget: no buffers". */
module LogPanics {
  import opened Blocks
  import opened LogMachine

  /** With a log of at least LOGSIZE blocks after the header, an operation that has used fewer than
      MAXOPBLOCKS blocks passes log_write's test. */
  lemma FreshWriteFits(s: State, p: nat)
    requires Reachable(s) && |s.disk.log| >= LOGSIZE
    requires p < |s.procs| && s.procs[p].InOp? && |s.procs[p].wrote| < MAXOPBLOCKS
    ensures !TooBig(s)
  {
    ReachableInv(s);
    ReservedBounds(s.procs);
    assert Promised(s.procs[p]) >= 1;
  }

  // ---------- Runs that commit nothing ----------

  ghost predicate NoCommit(steps: seq<Step>) { forall i :: 0 <= i < |steps| ==> !steps[i].WriteHead? }

  /** A run without a commit leads from a machine booted with disk d to s. */
  ghost predicate LedFrom(d: Disk, s: State) {
    exists ss: seq<State>, steps ::
        Run(ss, steps) && Init(ss[0]) && ss[0].disk == d && ss[|steps|] == s && NoCommit(steps)
  }

  lemma LedStarts(s: State)
    requires Init(s)
    ensures LedFrom(s.disk, s)
  {
    assert Run([s], []);
  }

  lemma LedNext(d: Disk, s: State, step: Step, t: State)
    requires LedFrom(d, s) && Next(s, step, t) && !step.WriteHead?
    ensures LedFrom(d, t)
  {
    var ss: seq<State>, steps :| Run(ss, steps) && Init(ss[0]) && ss[0].disk == d && ss[|steps|] == s &&
        NoCommit(steps);
    assert Run(ss + [t], steps + [step]);
  }

  lemma LedIsReachable(d: Disk, s: State)
    requires LedFrom(d, s)
    ensures Reachable(s)
  {
  }

  // ---------- A run of three operations that fills the log ----------

  const FIRST_LOG := 32

  /** Blocks 0 .. n, all the same. */
  function Home(z: Sector, n: nat): (r: map<nat, Sector>)
    ensures forall a :: a in r <==> 0 <= a < n
    ensures forall a :: a in r ==> r[a] == z
  {
    if n == 0 then map[] else Home(z, n - 1)[n - 1 := z]
  }

  function Zeros(z: Sector, n: nat): (r: seq<Sector>)
    ensures |r| == n
  {
    if n == 0 then [] else Zeros(z, n - 1) + [z]
  }

  /** A disk whose log area starts at block FIRST_LOG: all blocks before it, and the first one after it. */
  function FreshDisk(z: Sector, room: nat): (d: Disk)
    ensures |d.log| == room && d.head == [] && d.start == FIRST_LOG
    ensures forall a :: a in d.home <==> 0 <= a < FIRST_LOG || a == d.Slot(room)
    ensures forall a :: a in d.home ==> d.home[a] == z
  {
    Disk(FIRST_LOG, [], Zeros(z, room), Home(z, FIRST_LOG)[FIRST_LOG + 1 + room := z])
  }

  /** Nothing is cached or logged; the processes are at the given places. */
  function Quiet(d: Disk, phase: Phase, outstanding: nat, procs: seq<Pc>): State {
    State(d, map[], {}, {}, {}, [], phase, outstanding, false, procs)
  }

  function WithLog(s: State, bufs: set<nat>, held: set<nat>): State { s.(logBufs := bufs, logHeld := held) }

  /** The header is loaded and held for the step at hand. */
  lemma HeaderLeads(d: Disk, s: State)
    requires LedFrom(d, s) && s.logBufs == {} == s.logHeld && BufferFree(s) && Wants(s, 0)
    ensures LedFrom(d, WithLog(s, {0}, {0}))
  {
    assert Next(s, LoadLog(0), WithLog(s, {0}, {}));
    LedNext(d, s, LoadLog(0), WithLog(s, {0}, {}));
    assert Next(WithLog(s, {0}, {}), HoldLog(0), WithLog(s, {0}, {0}));
    LedNext(d, WithLog(s, {0}, {}), HoldLog(0), WithLog(s, {0}, {0}));
  }

  lemma HeaderLeaves(d: Disk, s: State)
    requires LedFrom(d, WithLog(s, {0}, {0}))
    ensures LedFrom(d, WithLog(s, {}, {}))
  {
    assert Next(WithLog(s, {0}, {0}), ReleaseLog(0), WithLog(s, {0}, {}));
    LedNext(d, WithLog(s, {0}, {0}), ReleaseLog(0), WithLog(s, {0}, {}));
    assert Next(WithLog(s, {0}, {}), RecycleLog(0), WithLog(s, {}, {}));
    LedNext(d, WithLog(s, {0}, {}), RecycleLog(0), WithLog(s, {}, {}));
  }

  lemma HeadReadLeads(d: Disk, s: State, t: State)
    requires LedFrom(d, s) && s.logBufs == {} == s.logHeld && s.cache == map[] && s.phase.Boot? && t == HeadRead(s)
    ensures LedFrom(d, t)
  {
    HeaderLeads(d, s);
    assert Next(WithLog(s, {0}, {0}), ReadHead, WithLog(t, {0}, {0}));
    LedNext(d, WithLog(s, {0}, {0}), ReadHead, WithLog(t, {0}, {0}));
    HeaderLeaves(d, t);
  }

  lemma HeadClearedLeads(d: Disk, s: State, t: State)
    requires LedFrom(d, s) && s.logBufs == {} == s.logHeld && s.cache == map[]
    requires s.phase.Install? && s.phase.tail == |s.lh| && t == HeadCleared(s)
    ensures LedFrom(d, t)
  {
    HeaderLeads(d, s);
    assert Next(WithLog(s, {0}, {0}), ClearHead, WithLog(t, {0}, {0}));
    LedNext(d, WithLog(s, {0}, {0}), ClearHead, WithLog(t, {0}, {0}));
    HeaderLeaves(d, t);
  }

  lemma BootLeads(z: Sector, room: nat, out: seq<Pc>)
    requires forall p :: 0 <= p < |out| ==> out[p].Outside?
    ensures LedFrom(FreshDisk(z, room), Quiet(FreshDisk(z, room), Running, 0, out))
  {
    var d := FreshDisk(z, room);
    LedStarts(Quiet(d, Boot, 0, out));
    HeadReadLeads(d, Quiet(d, Boot, 0, out), Quiet(d, Install(0, true), 0, out));
    HeadClearedLeads(d, Quiet(d, Install(0, true), 0, out), Quiet(d, Running, 0, out));
  }

  function Started(k: nat): seq<Pc> {
    var op := InOp({}, false);
    [if k > 0 then op else Outside, if k > 1 then op else Outside, if k > 2 then op else Outside]
  }

  lemma BeginsNext(d: Disk, k: nat)
    requires k < 3
    ensures Next(Quiet(d, Running, k, Started(k)), BeginOp(k), Quiet(d, Running, k + 1, Started(k + 1)))
  {
  }

  lemma {:induction false} StartedLeads(z: Sector, room: nat, k: nat)
    requires k <= 3
    ensures LedFrom(FreshDisk(z, room), Quiet(FreshDisk(z, room), Running, k, Started(k)))
  {
    var d := FreshDisk(z, room);
    if k == 0 {
      BootLeads(z, room, Started(0));
    } else {
      StartedLeads(z, room, k - 1);
      BeginsNext(d, k - 1);
      LedNext(d, Quiet(d, Running, k - 1, Started(k - 1)), BeginOp(k - 1), Quiet(d, Running, k, Started(k)));
    }
  }

  predicate Writing(procs: seq<Pc>) {
    && |procs| == 3 && procs[0].InOp? && procs[1].InOp? && procs[2].InOp?
    && !procs[0].tested && !procs[1].tested && !procs[2].tested
  }

  function Wrote(procs: seq<Pc>): nat
    requires Writing(procs)
  {
    |procs[0].wrote| + |procs[1].wrote| + |procs[2].wrote|
  }

  /** Three operations have logged blocks 0 .. n between them; up to 28, none but the third is at its limit. */
  ghost predicate Filled(d: Disk, s: State, n: nat) {
    && LedFrom(d, s) && s.phase.Running? && s.disk == d && Writing(s.procs) && Wrote(s.procs) == n
    && (n <= 28 ==> |s.procs[0].wrote| <= 9 && |s.procs[1].wrote| <= 9)
    && s.outstanding == 3 && s.logBufs == {} == s.logHeld && s.held == {} && Listed(s, n)
  }

  /** Blocks 0 .. n are those cached and, in this order, those listed. */
  ghost predicate Listed(s: State, n: nat) {
    && |s.cache| == n == |s.lh|
    && (forall a :: a in s.cache <==> 0 <= a < n) && (forall i :: 0 <= i < n ==> s.lh[i] == i)
  }

  /** The next operation to log a block. */
  function Idle(procs: seq<Pc>): (p: nat)
    requires Writing(procs) && Wrote(procs) < LOGSIZE
    ensures p < 3 && |procs[p].wrote| < MAXOPBLOCKS
  {
    if |procs[0].wrote| < 9 then 0
    else if |procs[1].wrote| < 9 then 1
    else if |procs[2].wrote| < 10 then 2
    else if |procs[0].wrote| < 10 then 0
    else 1
  }

  /** Operation p brings block n into the cache, passes the tests, appends, and lets go of the buffer. */
  function Brought(s: State, n: nat): State
    requires n in s.disk.home
  {
    s.(cache := s.cache[n := Buf(s.disk.home[n], false)], held := s.held + {n})
  }

  lemma BringLeads(d: Disk, s: State, n: nat)
    requires LedFrom(d, s) && n in s.disk.home && n !in s.cache && BufferFree(s)
    ensures LedFrom(d, Brought(s, n))
  {
    var s1 := s.(cache := s.cache[n := Buf(s.disk.home[n], false)]);
    assert Next(s, Load(n), s1);
    LedNext(d, s, Load(n), s1);
    assert Next(s1, Hold(n), Brought(s, n));
    LedNext(d, s1, Hold(n), Brought(s, n));
  }

  function Tested(s: State, p: nat): State
    requires p < |s.procs| && s.procs[p].InOp?
  {
    s.(procs := s.procs[p := s.procs[p].(tested := true)])
  }

  lemma TestLeads(d: Disk, s: State, p: nat)
    requires LedFrom(d, s) && p < |s.procs| && s.procs[p].InOp? && !TooBig(s) && s.outstanding >= 1
    ensures LedFrom(d, Tested(s, p))
  {
    assert Next(s, LogTest(p), Tested(s, p));
    LedNext(d, s, LogTest(p), Tested(s, p));
  }

  function Appended(s: State, p: nat, n: nat, w: Sector): State
    requires p < |s.procs| && s.procs[p].InOp?
  {
    s.(cache := s.cache[n := Buf(w, true)], held := s.held - {n}, lh := s.lh + [n],
       procs := s.procs[p := InOp(s.procs[p].wrote + {n}, false)])
  }

  lemma AppendLeads(d: Disk, s: State, p: nat, n: nat, w: Sector)
    requires LedFrom(d, s) && p < |s.procs| && s.procs[p].InOp? && s.procs[p].tested && |s.procs[p].wrote| < MAXOPBLOCKS
    requires n in s.cache && n in s.held && n !in s.lh
    ensures LedFrom(d, Appended(s, p, n, w))
  {
    var s1 := Appended(s, p, n, w).(held := s.held);
    assert |s.procs[p].wrote + {n}| <= |s.procs[p].wrote| + 1;
    assert Next(s, LogAppend(p, n, w), s1);
    LedNext(d, s, LogAppend(p, n, w), s1);
    assert Next(s1, Release(n), Appended(s, p, n, w));
    LedNext(d, s1, Release(n), Appended(s, p, n, w));
  }

  function LoggedNext(s: State, n: nat, p: nat, w: Sector): State
    requires n in s.disk.home && p < |s.procs| && s.procs[p].InOp?
  {
    Appended(Tested(Brought(s, n), p), p, n, w)
  }

  lemma LogLeads(d: Disk, s: State, n: nat, p: nat, w: Sector)
    requires LedFrom(d, s) && Listed(s, n) && n < |s.disk.log| && n < LOGSIZE && n in s.disk.home && s.logBufs == {}
    requires p < |s.procs| && s.procs[p].InOp? && |s.procs[p].wrote| < MAXOPBLOCKS && s.outstanding >= 1
    ensures LedFrom(d, LoggedNext(s, n, p, w))
  {
    BringLeads(d, s, n);
    TestLeads(d, Brought(s, n), p);
    AppendLeads(d, Tested(Brought(s, n), p), p, n, w);
  }

  lemma ListedNext(s: State, t: State, n: nat, w: Sector)
    requires Listed(s, n) && t.cache == s.cache[n := Buf(w, true)] && t.lh == s.lh + [n]
    ensures Listed(t, n + 1)
  {
    assert t.cache.Keys == s.cache.Keys + {n};
    assert |t.cache| == |t.cache.Keys| && |s.cache| == |s.cache.Keys|;
  }

  lemma WroteIsListed(s: State, p: nat)
    requires Reachable(s) && p < |s.procs| && s.procs[p].InOp?
    ensures forall a :: a in s.procs[p].wrote ==> a in s.lh
  {
    ReachableInv(s);
  }

  lemma WroteNext(procs: seq<Pc>, p: nat, n: nat)
    requires Writing(procs) && p < 3 && n !in procs[p].wrote
    ensures Writing(procs[p := InOp(procs[p].wrote + {n}, false)])
    ensures Wrote(procs[p := InOp(procs[p].wrote + {n}, false)]) == Wrote(procs) + 1
  {
  }

  lemma FilledStep(d: Disk, s: State, n: nat, w: Sector) returns (t: State)
    requires Filled(d, s, n) && n < |d.log| && n < LOGSIZE && n in d.home
    ensures Filled(d, t, n + 1)
  {
    var p := Idle(s.procs);
    LedIsReachable(d, s);
    WroteIsListed(s, p);
    LogLeads(d, s, n, p, w);
    t := LoggedNext(s, n, p, w);
    LoggedNextIs(s, n, p, w);
    WroteNext(s.procs, p, n);
    ListedNext(s, t, n, w);
  }

  lemma LoggedNextIs(s: State, n: nat, p: nat, w: Sector)
    requires n in s.disk.home && p < |s.procs| && s.procs[p].InOp? && n !in s.held
    ensures LoggedNext(s, n, p, w) == s.(cache := s.cache[n := Buf(w, true)], lh := s.lh + [n],
                                         procs := s.procs[p := InOp(s.procs[p].wrote + {n}, false)])
  {
    var t := LoggedNext(s, n, p, w);
    assert t.cache == s.cache[n := Buf(w, true)] && t.held == s.held;
    assert t.procs == s.procs[p := InOp(s.procs[p].wrote + {n}, false)];
  }

  lemma {:induction false} FilledLeads(z: Sector, room: nat, n: nat) returns (s: State)
    requires n <= room && n <= LOGSIZE
    ensures Filled(FreshDisk(z, room), s, n)
  {
    if n == 0 {
      StartedLeads(z, room, 3);
      s := Quiet(FreshDisk(z, room), Running, 3, Started(3));
    } else {
      var s0 := FilledLeads(z, room, n - 1);
      s := FilledStep(FreshDisk(z, room), s0, n - 1, z);
    }
  }

  // ---------- "too big a transaction" ----------

  /** The operation in progress at p, within its reservation, may be refused by log_write. */
  ghost predicate ReservationBroken(s: State, p: nat) {
    p < |s.procs| && s.procs[p].InOp? && |s.procs[p].wrote| < MAXOPBLOCKS && TooBig(s)
  }

  lemma ShortLogBreaksReservation(room: nat) returns (s: State, p: nat)
    requires room < LOGSIZE
    ensures Reachable(s) && |s.disk.log| == room && ReservationBroken(s, p)
  {
    s := FilledLeads(Sector(ZERO_BLOCK), room, room);
    LedIsReachable(s.disk, s);
    p := Idle(s.procs);
  }

  /** log_write's "too big a transaction" is unreachable for operations within their reservation
      exactly when the log area has LOGSIZE blocks besides its header. mkfs allots one fewer. */
  lemma ReservationHonouredIff(room: nat)
    ensures (forall s, p :: Reachable(s) && |s.disk.log| == room ==> !ReservationBroken(s, p)) <==> room >= LOGSIZE
  {
    if room >= LOGSIZE {
      forall s, p | Reachable(s) && |s.disk.log| == room
        ensures !ReservationBroken(s, p)
      {
        if ReservationBroken(s, p) { FreshWriteFits(s, p); }
      }
    } else {
      var s, p := ShortLogBreaksReservation(room);
    }
  }

  /** An operation that has logged k blocks meets the panic. */
  ghost predicate RefusedAfter(s: State, p: nat, k: nat) {
    p < |s.procs| && s.procs[p].InOp? && |s.procs[p].wrote| == k && TooBig(s)
  }

  /** Even then the test comes before absorption. An operation that has logged k blocks, and may only want to
      write one of them again, is never refused exactly if k is below its limit. */
  lemma AbsorptionIff(room: nat, k: nat)
    requires room >= LOGSIZE && k <= MAXOPBLOCKS
    ensures (forall s, p :: Reachable(s) && |s.disk.log| == room ==> !RefusedAfter(s, p, k)) <==> k < MAXOPBLOCKS
  {
    if k < MAXOPBLOCKS {
      forall s, p | Reachable(s) && |s.disk.log| == room
        ensures !RefusedAfter(s, p, k)
      {
        if RefusedAfter(s, p, k) { FreshWriteFits(s, p); }
      }
    } else {
      var s := FilledLeads(Sector(ZERO_BLOCK), room, LOGSIZE);
      LedIsReachable(s.disk, s);
      ReachableInv(s);
      assert RefusedAfter(s, 0, k);
    }
  }

  // ---------- A list longer than the log area ----------

  /** Two operations pass the test before either appends: the list is one longer than the log area. */
  ghost predicate Overlong(d: Disk, s: State, w: Sector) {
    var n := |d.log|;
    && LedFrom(d, s) && s.phase.Running? && s.disk == d && Writing(s.procs)
    && s.outstanding == 3 && s.logBufs == {} == s.logHeld && Listed(s, n + 1) && s.cache[n].data == w && !s.committing
  }

  /** Blocks n and n + 1 are in use and both operations are past the test. */
  function BothTested(s: State, n: nat): State
    requires n in s.disk.home && n + 1 in s.disk.home && Writing(s.procs)
  {
    Tested(Tested(Brought(Brought(s, n), n + 1), 0), 1)
  }

  lemma BringTwoLeads(d: Disk, s: State, n: nat)
    requires LedFrom(d, s) && n in s.disk.home && n + 1 in s.disk.home && n !in s.cache && n + 1 !in s.cache
    requires |s.cache| <= 28 && s.logBufs == {}
    ensures LedFrom(d, Brought(Brought(s, n), n + 1))
  {
    var s1 := Brought(s, n);
    BringLeads(d, s, n);
    assert s1.cache.Keys == s.cache.Keys + {n} && |s1.cache| == |s1.cache.Keys| && |s.cache| == |s.cache.Keys|;
    BringLeads(d, s1, n + 1);
  }

  lemma TestTwoLeads(d: Disk, s: State)
    requires LedFrom(d, s) && Writing(s.procs) && !TooBig(s) && s.outstanding >= 1
    ensures LedFrom(d, Tested(Tested(s, 0), 1))
  {
    TestLeads(d, s, 0);
    TestLeads(d, Tested(s, 0), 1);
  }

  lemma AppendTwoLeads(d: Disk, s: State, n: nat, w: Sector)
    requires LedFrom(d, s) && |s.procs| == 3 && s.procs[0].InOp? && s.procs[1].InOp? && s.procs[0].tested &&
             s.procs[1].tested
    requires |s.procs[0].wrote| < MAXOPBLOCKS && |s.procs[1].wrote| < MAXOPBLOCKS
    requires n in s.cache && n + 1 in s.cache && {n, n + 1} <= s.held && n !in s.lh && n + 1 !in s.lh
    ensures LedFrom(d, Appended(Appended(s, 0, n, w), 1, n + 1, w))
  {
    AppendLeads(d, s, 0, n, w);
    AppendLeads(d, Appended(s, 0, n, w), 1, n + 1, w);
  }

  /** Operations 0 and 1 bring a block each, both pass the test, and then both append. */
  function BothLogged(s: State, n: nat, w: Sector): State
    requires n in s.disk.home && n + 1 in s.disk.home && Writing(s.procs)
  {
    Appended(Appended(BothTested(s, n), 0, n, w), 1, n + 1, w)
  }

  lemma BothLoggedLeads(d: Disk, s: State, n: nat, w: Sector)
    requires LedFrom(d, s) && n in s.disk.home && n + 1 in s.disk.home && n !in s.cache && n + 1 !in s.cache
    requires |s.cache| <= 28 && s.logBufs == {} && Writing(s.procs) && !TooBig(s) && s.outstanding >= 1
    requires |s.procs[0].wrote| <= 9 && |s.procs[1].wrote| <= 9 && n !in s.lh && n + 1 !in s.lh
    ensures LedFrom(d, BothLogged(s, n, w))
  {
    BringTwoLeads(d, s, n);
    TestTwoLeads(d, Brought(Brought(s, n), n + 1));
    AppendTwoLeads(d, BothTested(s, n), n, w);
  }

  lemma BothLoggedIs(s: State, n: nat, w: Sector)
    requires n in s.disk.home && n + 1 in s.disk.home && Writing(s.procs) && Listed(s, n)
    ensures Listed(BothLogged(s, n, w), n + 2) && BothLogged(s, n, w).cache[n + 1].data == w
    ensures Writing(BothLogged(s, n, w).procs)
  {
    BothLoggedCache(s.cache, n, Buf(s.disk.home[n], false), Buf(s.disk.home[n + 1], false), Buf(w, true));
    ListedTwice(s, BothLogged(s, n, w), n, w);
  }

  lemma BothLoggedCache(c: map<nat, Buf>, n: nat, x: Buf, y: Buf, b: Buf)
    ensures c[n := x][n + 1 := y][n := b][n + 1 := b] == c[n := b][n + 1 := b]
  {
  }

  lemma ListedTwice(s: State, t: State, n: nat, w: Sector)
    requires Listed(s, n) && t.lh == s.lh + [n] + [n + 1]
    requires t.cache == s.cache[n := Buf(w, true)][n + 1 := Buf(w, true)]
    ensures Listed(t, n + 2)
  {
    var u := s.(cache := s.cache[n := Buf(w, true)], lh := s.lh + [n]);
    ListedNext(s, u, n, w);
    ListedNext(u, t, n + 1, w);
  }

  lemma OverlongLeads(z: Sector, w: Sector, room: nat) returns (t: State)
    requires 1 <= room <= 29
    ensures Overlong(FreshDisk(z, room), t, w)
  {
    var d, n := FreshDisk(z, room), room - 1;
    var s := FilledLeads(z, room, n);
    LedIsReachable(d, s);
    OpsDoNotMeetCommit(s, 0);
    BothLoggedLeads(d, s, n, w);
    BothLoggedIs(s, n, w);
    t := BothLogged(s, n, w);
  }

  /** The list fits the log area in every reachable state exactly if the area has LOGSIZE blocks, or none. */
  lemma ListFitsIff(room: nat)
    ensures (forall s :: Reachable(s) && |s.disk.log| == room ==> |s.lh| <= room) <==> room == 0 || room >= LOGSIZE
  {
    if room == 0 || room >= LOGSIZE {
      forall s | Reachable(s) && |s.disk.log| == room ensures |s.lh| <= room {
        ReachableInv(s);
        ReservedBounds(s.procs);
      }
    } else {
      var z := Sector(ZERO_BLOCK);
      var s := OverlongLeads(z, z, room);
      LedIsReachable(FreshDisk(z, room), s);
      assert |s.lh| > room;
    }
  }

  // ---------- Overwriting the first block after the log area ----------

  /** write_log has copied `tail` blocks of an overlong list. */
  ghost predicate Copying(d: Disk, s: State, w: Sector, tail: nat) {
    var n := |d.log|;
    && LedFrom(d, s) && s.phase == WriteLog(tail) && s.disk == d.(log := s.disk.log) && |s.disk.log| == n
    && s.logBufs == {} == s.logHeld && Listed(s, n + 1) && s.cache[n].data == w
  }

  /** All three operations end, the last one with a commit. */
  lemma EndsLead(d: Disk, s: State) returns (t: State)
    requires LedFrom(d, s) && s.phase.Running? && Writing(s.procs) && s.outstanding == 3 && !s.committing && s.lh != []
    ensures LedFrom(d, t)
    ensures t == s.(phase := WriteLog(0), outstanding := 0, committing := true, procs := t.procs)
  {
    var s1 := Ended(s, 0);
    assert Next(s, EndOp(0), s1);
    LedNext(d, s, EndOp(0), s1);
    var s2 := Ended(s1, 1);
    assert Next(s1, EndOp(1), s2);
    LedNext(d, s1, EndOp(1), s2);
    t := Ended(s2, 2);
    assert Next(s2, EndOp(2), t);
    LedNext(d, s2, EndOp(2), t);
  }

  /** bread of the log block and then of the cached one. */
  function BothHeld(s: State, tail: nat): State
    requires tail < |s.lh|
  {
    WithLog(s, {tail + 1}, {tail + 1}).(held := s.held + {s.lh[tail]})
  }

  lemma BothHeldLeads(d: Disk, s: State, tail: nat)
    requires LedFrom(d, s) && s.phase == WriteLog(tail) && s.logBufs == {} == s.logHeld
    requires tail < |s.disk.log| && tail < |s.lh| && s.lh[tail] in s.cache && |s.cache| < NBUF
    ensures LedFrom(d, BothHeld(s, tail))
  {
    var s1, s2 := WithLog(s, {tail + 1}, {}), WithLog(s, {tail + 1}, {tail + 1});
    assert Next(s, LoadLog(tail + 1), s1);
    LedNext(d, s, LoadLog(tail + 1), s1);
    assert Next(s1, HoldLog(tail + 1), s2);
    LedNext(d, s1, HoldLog(tail + 1), s2);
    assert Next(s2, Hold(s.lh[tail]), BothHeld(s, tail));
    LedNext(d, s2, Hold(s.lh[tail]), BothHeld(s, tail));
  }

  /** brelse of both. */
  lemma BothLeftLeads(d: Disk, s: State, i: nat, a: nat)
    requires LedFrom(d, s) && s.logBufs == {i} == s.logHeld && a in s.held
    ensures LedFrom(d, WithLog(s, {}, {}).(held := s.held - {a}))
  {
    var s1 := s.(held := s.held - {a});
    assert Next(s, Release(a), s1);
    LedNext(d, s, Release(a), s1);
    assert Next(s1, ReleaseLog(i), WithLog(s1, {i}, {}));
    LedNext(d, s1, ReleaseLog(i), WithLog(s1, {i}, {}));
    assert Next(WithLog(s1, {i}, {}), RecycleLog(i), WithLog(s1, {}, {}));
    LedNext(d, WithLog(s1, {i}, {}), RecycleLog(i), WithLog(s1, {}, {}));
  }

  lemma CopyLeads(d: Disk, s: State, w: Sector, tail: nat) returns (t: State)
    requires Copying(d, s, w, tail) && tail < |d.log| <= 28
    ensures Copying(d, t, w, tail + 1)
  {
    BothHeldLeads(d, s, tail);
    var s1 := BothHeld(s, tail);
    assert Next(s1, CopyToLog, LogCopied(s1));
    LedNext(d, s1, CopyToLog, LogCopied(s1));
    BothLeftLeads(d, LogCopied(s1), tail + 1, s.lh[tail]);
    t := WithLog(LogCopied(s1), {}, {}).(held := s1.held - {s.lh[tail]});
  }

  lemma {:induction false} CopiesLead(z: Sector, w: Sector, room: nat, tail: nat) returns (t: State)
    requires 1 <= room <= 28 && tail <= room
    ensures Copying(FreshDisk(z, room), t, w, tail)
  {
    var d := FreshDisk(z, room);
    if tail == 0 {
      var s := OverlongLeads(z, w, room);
      t := EndsLead(d, s);
    } else {
      var s := CopiesLead(z, w, room, tail - 1);
      t := CopyLeads(d, s, w, tail - 1);
    }
  }

  /** write_log goes on past the log area and overwrites a home block, with nothing committed. */
  lemma OverwriteLeads(z: Sector, w: Sector, room: nat) returns (t: State)
    requires 1 <= room <= 28
    ensures LedFrom(FreshDisk(z, room), t) && t.disk.head == [] && Shape(t) && t.phase.WriteLog?
    ensures t.disk.home == FreshDisk(z, room).home[FIRST_LOG + 1 + room := w]
  {
    var d, x := FreshDisk(z, room), FIRST_LOG + 1 + room;
    var s := CopiesLead(z, w, room, room);
    BringLeads(d, s, x);
    var s1 := Brought(s, x);
    var s2 := s1.(held := s1.held + {s.lh[room]});
    assert Next(s1, Hold(s.lh[room]), s2);
    LedNext(d, s1, Hold(s.lh[room]), s2);
    t := PastCopied(s2);
    assert Next(s2, CopyToLog, t);
    LedNext(d, s2, CopyToLog, t);
  }

  // ---------- Atomicity ----------

  lemma {:induction false} AbsRunWithoutCommit(x: Abs, steps: seq<Step>)
    requires NoCommit(steps)
    ensures AbsRun(x, steps).committed == x.committed
  {
    if steps != [] { AbsRunWithoutCommit(x, steps[..|steps| - 1]); }
  }

  /** At its end the run has done to the disk with transactions what its events say. */
  ghost predicate Simulates(ss: seq<State>, steps: seq<Step>)
    requires Run(ss, steps) && Init(ss[0])
  {
    Shape(ss[|steps|]) && Abstract(ss[|steps|]) == AbsRun(Abstract(ss[0]), steps)
  }

  lemma OverwriteBreaks(room: nat) returns (ss: seq<State>, steps: seq<Step>)
    requires 1 <= room <= 28
    ensures Run(ss, steps) && Init(ss[0]) && |ss[0].disk.log| == room && !Simulates(ss, steps)
  {
    var z := Sector(ZERO_BLOCK);
    var w := Sector(ZERO_BLOCK[0 := 1]);
    assert z.content[0] != w.content[0];
    var d, x := FreshDisk(z, room), FIRST_LOG + 1 + room;
    var t := OverwriteLeads(z, w, room);
    ss, steps :| Run(ss, steps) && Init(ss[0]) && ss[0].disk == d && ss[|steps|] == t && NoCommit(steps);
    AbsRunWithoutCommit(Abstract(ss[0]), steps);
    assert Abstract(ss[0]).committed[x] == z && Abstract(t).committed[x] == w;
  }

  /** Every run of the log, the cache and the disk simulates the disk with transactions exactly if the log
      area has NBUF - 1 blocks or more, or none at all. */
  lemma AtomicIff(room: nat)
    ensures (forall ss: seq<State>, steps ::
            Run(ss, steps) && Init(ss[0]) && |ss[0].disk.log| == room ==> Simulates(ss, steps))
            <==> RoomIsSafe(room)
  {
    if RoomIsSafe(room) {
      forall ss: seq<State>, steps | Run(ss, steps) && Init(ss[0]) && |ss[0].disk.log| == room
        ensures Simulates(ss, steps)
      {
        InitInv(ss[0]);
        RunRefines(ss, steps, |steps|);
        assert steps[..|steps|] == steps;
      }
    } else {
      var ss, steps := OverwriteBreaks(room);
    }
  }

  // ---------- Buffers ----------

  /** bget can serve a block that is not cached: there is a buffer that is neither pinned nor in use. */
  ghost predicate CanLoad(s: State) {
    || BufferFree(s)
    || (exists a :: a in s.cache && !s.cache[a].dirty && a !in s.held)
    || (exists i :: i in s.logBufs && i !in s.logHeld)
  }

  /** The home blocks whose buffers bget may not take: pinned by B_DIRTY, or in use. */
  ghost function InUse(s: State): set<nat> { set a | a in s.cache && (s.cache[a].dirty || a in s.held) }

  /** The buffers in use that are not pinned. */
  ghost function HeldClean(s: State): set<nat> { set a | a in s.cache && !s.cache[a].dirty && a in s.held }

  /** At any time, for a log area of any size and whoever asks, bget finds a buffer exactly when fewer than NBUF
      are pinned or in use; else it panics. The committer has at most one buffer of the log area in use. */
  lemma HasBufferIff(s: State)
    requires Reachable(s)
    ensures CanLoad(s) <==> |InUse(s)| + |s.logHeld| < NBUF
    ensures |s.logHeld| <= 1
  {
    ReachableInv(s);
    assert |s.cache| == |s.cache.Keys|;
    SubsetCount(InUse(s), s.cache.Keys);
    SubsetCount(s.logHeld, s.logBufs);
    if !CanLoad(s) { assert InUse(s) == s.cache.Keys && s.logHeld == s.logBufs; }
  }

  /** While write_log runs that is: the listed blocks, the clean buffers that readers hold and the log block
      that the committer holds are fewer than NBUF. */
  lemma CommitHasBufferIff(s: State)
    requires Reachable(s) && s.phase.WriteLog? && RoomIsSafe(|s.disk.log|)
    ensures CanLoad(s) <==> |s.lh| + |HeldClean(s)| + |s.logHeld| < NBUF
  {
    HasBufferIff(s);
    ReachableInv(s);
    CountDistinct(s.lh);
    assert InUse(s) == SetOf(s.lh) + HeldClean(s);
    assert SetOf(s.lh) !! HeldClean(s);
  }

  /** write_log asks for its next block and no reader has a buffer in use. */
  ghost predicate CommitAsks(s: State) { s.phase.WriteLog? && s.logHeld == {} && HeldClean(s) == {} }

  lemma FullCommitLeads(room: nat) returns (t: State)
    requires room >= NBUF - 1
    ensures Reachable(t) && |t.disk.log| == room && CommitAsks(t) && |t.lh| == NBUF
  {
    var z := Sector(ZERO_BLOCK);
    var d := FreshDisk(z, room);
    var s;
    if room == NBUF - 1 { s := OverlongLeads(z, z, room); } else { s := FilledLeads(z, room, LOGSIZE); }
    LedIsReachable(d, s);
    OpsDoNotMeetCommit(s, 0);
    t := EndsLead(d, s);
    LedIsReachable(d, t);
    ReachableInv(t);
    PinnedBuffers(t.cache, t.lh);
  }

  /** Even then a commit of a full list, NBUF blocks, finds no buffer to write the log with. For the sizes of
      the log area that are safe, the commit is always served exactly if there is no log area. */
  lemma CommitServedIff(room: nat)
    requires RoomIsSafe(room)
    ensures (forall s :: Reachable(s) && |s.disk.log| == room && CommitAsks(s) ==> CanLoad(s)) <==> room == 0
  {
    if room == 0 {
      forall s | Reachable(s) && |s.disk.log| == room && CommitAsks(s) ensures CanLoad(s) {
        ReachableInv(s);
        CommitHasBufferIff(s);
      }
    } else {
      var t := FullCommitLeads(room);
      CommitHasBufferIff(t);
    }
  }
}
