/** Sleeping in wait, pids, and the theorems about every run of Proc. */
module ProcRuns {
  import opened Proc
  import opened Family

  predicate InWait(x: Slot) { x.state.Sleeping? && (x.pc.WSched? || x.pc.WBack?) }

  predicate ZombieOf(x: Slot, q: int) { x.state.Zombie? && x.parent == q }

  /** The process h, which holds ptable.lock, is about to wake init. */
  predicate Pending(slots: seq<Slot>, h: int, init: nat) {
    0 <= h < |slots| && slots[h].pc.EInit? && slots[h].pc.j <= init
  }

  /** A zombie's parent does not sleep in wait, unless it is init and its wakeup is on the way. */
  predicate Noticed(slots: seq<Slot>, z: nat, h: int, init: nat)
    requires z < |slots|
  {
    slots[z].state.Zombie? && 0 <= slots[z].parent < |slots| && InWait(slots[slots[z].parent]) ==>
        slots[z].parent == init && Pending(slots, h, init)
  }

  /** How far wait's scan has come. */
  predicate Scanned(p: nat, x: Slot, slots: seq<Slot>) {
    && (x.pc.WScan? ==> forall z :: 0 <= z < |slots| && z < x.pc.i ==> !ZombieOf(slots[z], p))
    && (x.pc.WSet? ==> forall z :: 0 <= z < |slots| ==> !ZombieOf(slots[z], p))
  }

  /** How far exit's wakeup has come. */
  predicate Waking(x: Slot, slots: seq<Slot>) {
    && (x.pc.EWake? && 0 <= x.parent < |slots| && InWait(slots[x.parent]) ==> x.parent >= x.pc.i)
    && (x.pc.EChild? || x.pc.EInit? || x.pc.EZombie? || x.pc.ESched? ==> 0 <= x.parent < |slots| ==>
       !InWait(slots[x.parent]))
  }

  /** What wait's scan and exit's wakeup have established so far. */
  predicate Seen(p: nat, x: Slot, slots: seq<Slot>) {
    Scanned(p, x, slots) && Waking(x, slots)
  }

  function Holder(s: State): int {
    if 0 <= s.lock < |s.cpus| then s.cpus[s.lock].thread else NONE
  }

  predicate WaitOk(slots: seq<Slot>, h: int, init: nat) {
    && (forall q :: 0 <= q < |slots| && InWait(slots[q]) ==> slots[q].chan == OfProc(q))
    && (forall z :: 0 <= z < |slots| ==> Noticed(slots, z, h, init))
    && (forall p :: 0 <= p < |slots| ==> Seen(p, slots[p], slots))
  }

  // One statement.

  /** What wait and exit do at p, in terms of the points before and after. */
  predicate WaitMove(pc: Pc, pc': Pc, p: nat, x: Slot, n: nat) {
    && (pc'.WScan? ==> (pc.WBack? && pc'.i == 0) || (pc.WScan? && pc.i < n && pc'.i == pc.i + 1 && !ZombieOf(x, p)))
    && (pc'.WSet? ==> pc.WScan? && pc.i >= n) && (pc'.WSched? ==> pc.WSet?) && (pc'.WBack? ==> pc.WSched?)
    && (pc'.EWake? ==> pc.EWake? && pc.i < n && pc'.i == pc.i + 1)
    && (pc'.EChild? ==> (pc.EWake? && pc.i >= n) || pc.EChild? || pc.EInit?)
    && (pc'.EInit? ==> (pc.EChild? && pc'.j == 0) || (pc.EInit? && pc'.j == pc.j + 1 && pc.j < n))
    && (pc'.EZombie? ==> pc.EChild?) && (pc'.ESched? ==> pc.EZombie?)
    && (pc.EInit? && pc.j < n ==> pc'.EInit?)
    && (pc.EChild? && pc.i < n && ZombieOf(x, p) ==> pc'.EInit?)
  }

  lemma NextWaitMove(pc: Pc, me: Slot, p: nat, x: Slot, n: nat, ok: bool)
    requires Sound(pc) && pc != User
    ensures WaitMove(pc, NextPc(pc, me, p, x, n, ok), p, x, n)
  {
  }

  /** The slot a statement is about, or else curproc's own. */
  function About1(s: State, p: nat): Slot
    requires p < |s.slots|
  {
    if 0 <= Subject(s.slots[p].pc) < |s.slots| then s.slots[Subject(s.slots[p].pc)] else s.slots[p]
  }

  lemma OwnWaitMove(s: State, p: nat, ok: bool, b: seq<Slot>)
    requires Making0(s, p) && View(s, p, ok, b)
    ensures WaitMove(s.slots[p].pc, b[p].pc, p, About1(s, p), |b|)
  {
    assert Detail(0);
    NextWaitMove(s.slots[p].pc, s.slots[p], p, About1(s, p), |b|, ok);
  }

  /** Sleepers in wait are not made by others. */
  lemma OtherInWait(s: State, p: nat, ok: bool, b: seq<Slot>, q: nat)
    requires Making0(s, p) && View(s, p, ok, b) && q < |b| && q != p && InWait(b[q])
    ensures InWait(s.slots[q]) && b[q].chan == s.slots[q].chan
  {
    PcKept(s, p, ok, b, q);
  }

  lemma SelfInWait(s: State, p: nat, ok: bool, b: seq<Slot>)
    requires Making0(s, p) && View(s, p, ok, b) && InWait(b[p])
    ensures s.slots[p].pc.WSet? || (s.slots[p].pc.WSched? && InWait(s.slots[p]))
    ensures b[p].chan == if s.slots[p].pc.WSet? then OfProc(p) else s.slots[p].chan
  {
    OwnWaitMove(s, p, ok, b);
  }

  /** wakeup1 wakes the parent it comes to. */
  lemma ParentWoken(s: State, p: nat, ok: bool, b: seq<Slot>, q: nat)
    requires Making0(s, p) && View(s, p, ok, b) && q < |b| && q != p &&
             (InWait(s.slots[q]) ==> s.slots[q].chan == OfProc(q))
    requires (s.slots[p].pc == EWake(q) && s.slots[p].parent == q) ||
             (s.slots[p].pc.EInit? && s.slots[p].pc.j == q == s.init)
    ensures !InWait(b[q])
  {
    assert Detail(0);
    assert About(s.slots[p].pc, q);
  }

  /** A zombie other than p was one before, with the same parent unless exit passes it to init. */
  lemma OtherZombie(s: State, p: nat, ok: bool, b: seq<Slot>, z: nat)
    requires Making0(s, p) && View(s, p, ok, b) && z < |b| && z != p && b[z].state.Zombie?
    ensures s.slots[z].state.Zombie?
    ensures b[z].parent == s.slots[z].parent ||
            (s.slots[p].pc == EChild(z) && s.slots[z].parent == p && b[z].parent == s.init)
  {
    StateKept(s, p, ok, b, z);
    var pc := s.slots[p].pc;
    assert pc.FParent? && About(pc, z) ==> Stage(pc, s.slots[z], p);
  }

  /** The holder of ptable.lock before and after a statement of p. */
  predicate Holders(s: State, p: nat, b: seq<Slot>, h: int, h': int)
    requires p < |s.slots| == |b|
  {
    && (InLock(s.slots[p].pc) ==> h == p) && (b[p].pc.EInit? ==> h' == p)
    && (!InLock(s.slots[p].pc) ==> h != p && (h' == h || h == NONE))
  }

  lemma NoticedKeeps(s: State, p: nat, ok: bool, b: seq<Slot>, h: int, h': int, z: nat)
    requires Family0(s, p) && View(s, p, ok, b) && WaitOk(s.slots, h, s.init) && Holders(s, p, b, h, h') && z < |b|
    ensures Noticed(b, z, h', s.init)
  {
    if b[z].state.Zombie? && 0 <= b[z].parent < |b| && InWait(b[b[z].parent]) {
      if z == p {
        ZombieNoticed(s, p, ok, b, h);
      } else {
        OtherZombie(s, p, ok, b, z);
        assert Noticed(s.slots, z, h, s.init);
        if s.slots[p].pc == EChild(z) && s.slots[z].parent == p {
          OwnWaitMove(s, p, ok, b);
        } else if b[z].parent == p {
          SleeperNoZombie(s, p, ok, b, h, z);
        } else {
          OtherInWait(s, p, ok, b, b[z].parent);
          PendingGoesOn(s, p, ok, b, h, h');
        }
      }
    }
  }

  /** p has just become a zombie: its parent is awake. */
  lemma ZombieNoticed(s: State, p: nat, ok: bool, b: seq<Slot>, h: int)
    requires Family0(s, p) && View(s, p, ok, b) && WaitOk(s.slots, h, s.init) && b[p].state.Zombie? &&
             0 <= b[p].parent < |b|
    ensures !InWait(b[b[p].parent])
  {
    assert Seen(p, s.slots[p], s.slots) && Child(p, s.slots[p], s.slots, s.init) &&
           Passing(p, s.slots[p].pc, s.slots, s.init);
    var q := b[p].parent;
    if InWait(b[q]) { OtherInWait(s, p, ok, b, q); }
  }

  /** p goes to sleep in wait only after a scan that found no zombie. */
  lemma SleeperNoZombie(s: State, p: nat, ok: bool, b: seq<Slot>, h: int, z: nat)
    requires Making0(s, p) && View(s, p, ok, b) && WaitOk(s.slots, h, s.init) && (InLock(s.slots[p].pc) ==> h == p)
    requires z < |b| && ZombieOf(s.slots[z], p)
    ensures !InWait(b[p])
  {
    assert Seen(p, s.slots[p], s.slots) && Noticed(s.slots, z, h, s.init);
    if InWait(b[p]) { SelfInWait(s, p, ok, b); }
  }

  /** The wakeup of init goes on until init is awake. */
  lemma PendingGoesOn(s: State, p: nat, ok: bool, b: seq<Slot>, h: int, h': int)
    requires Family0(s, p) && View(s, p, ok, b) && WaitOk(s.slots, h, s.init) && Holders(s, p, b, h, h')
    requires Pending(s.slots, h, s.init) && InWait(b[s.init]) && p != s.init
    ensures Pending(b, h', s.init)
  {
    if h == p {
      OwnWaitMove(s, p, ok, b);
      if s.slots[p].pc.j == s.init { ParentWoken(s, p, ok, b, s.init); }
    } else {
      PcKept(s, p, ok, b, h);
    }
  }

  /** A zombie child of r was one before, unless exit passes it to r. */
  lemma ZombiesKept(s: State, p: nat, ok: bool, b: seq<Slot>, r: nat, z: nat)
    requires Making0(s, p) && View(s, p, ok, b) && z < |b| && z != p && !s.slots[p].pc.EChild? && ZombieOf(b[z], r)
    ensures ZombieOf(s.slots[z], r)
  {
    OtherZombie(s, p, ok, b, z);
  }

  lemma SelfScanned(s: State, p: nat, ok: bool, b: seq<Slot>)
    requires Making0(s, p) && View(s, p, ok, b) && Scanned(p, s.slots[p], s.slots)
    ensures Scanned(p, b[p], b)
  {
    OwnWaitMove(s, p, ok, b);
    if b[p].pc.WScan? || b[p].pc.WSet? {
      forall z | 0 <= z < |b| && ZombieOf(b[z], p) ensures ZombieOf(s.slots[z], p) { ZombiesKept(s, p, ok, b, p, z); }
    }
  }

  lemma SelfWaking(s: State, p: nat, ok: bool, b: seq<Slot>)
    requires Making0(s, p) && View(s, p, ok, b) && Waking(s.slots[p], s.slots) && s.slots[p].parent != p
    requires forall q :: 0 <= q < |b| && InWait(s.slots[q]) ==> s.slots[q].chan == OfProc(q)
    ensures Waking(b[p], b)
  {
    OwnWaitMove(s, p, ok, b);
    var q := s.slots[p].parent;
    if 0 <= q < |b| && InWait(b[q]) {
      OtherInWait(s, p, ok, b, q);
      if s.slots[p].pc == EWake(q) { ParentWoken(s, p, ok, b, q); }
    }
  }

  predicate Busy(pc: Pc) { pc.WScan? || pc.WSet? || pc.EWake? || pc.EChild? || pc.EInit? || pc.EZombie? || pc.ESched? }

  /** While another process is busy under the lock, p does not touch it, and p is not. */
  lemma BusyKept(s: State, p: nat, ok: bool, b: seq<Slot>, r: nat)
    requires Making0(s, p) && Alone(s.slots, p) && View(s, p, ok, b) && r < |b| && r != p &&
             (Busy(s.slots[r].pc) || Busy(b[r].pc))
    ensures b[r] == s.slots[r] && !InLock(s.slots[p].pc) && !b[p].state.Zombie? && !InWait(b[p])
  {
    PcKept(s, p, ok, b, r);
    if About(s.slots[p].pc, r) { UnlockedMaking(s, p, r); }
    if InWait(b[p]) { SelfInWait(s, p, ok, b); }
  }

  lemma OtherSeen(s: State, p: nat, ok: bool, b: seq<Slot>, r: nat)
    requires Making0(s, p) && Alone(s.slots, p) && View(s, p, ok, b) && r < |b| && r != p &&
             Seen(r, s.slots[r], s.slots)
    ensures Seen(r, b[r], b)
  {
    if Busy(b[r].pc) {
      BusyKept(s, p, ok, b, r);
      forall z | 0 <= z < |b| && ZombieOf(b[z], r) ensures ZombieOf(s.slots[z], r) { ZombiesKept(s, p, ok, b, r, z); }
      var q := b[r].parent;
      if 0 <= q < |b| && InWait(b[q]) { OtherInWait(s, p, ok, b, q); }
    }
  }

  lemma SeenKeeps(s: State, p: nat, ok: bool, b: seq<Slot>, h: int, z: nat)
    requires Family0(s, p) && View(s, p, ok, b) && WaitOk(s.slots, h, s.init) && z < |b|
    ensures Seen(z, b[z], b)
  {
    assert Seen(z, s.slots[z], s.slots) && Child(p, s.slots[p], s.slots, s.init);
    if z == p {
      SelfScanned(s, p, ok, b);
      SelfWaking(s, p, ok, b);
    } else {
      OtherSeen(s, p, ok, b, z);
    }
  }

  lemma WaitKeeps(s: State, p: nat, ok: bool, b: seq<Slot>, h: int, h': int)
    requires Family0(s, p) && View(s, p, ok, b) && WaitOk(s.slots, h, s.init) && Holders(s, p, b, h, h')
    ensures WaitOk(b, h', s.init)
  {
    forall z | 0 <= z < |b|
      ensures Noticed(b, z, h', s.init) && Seen(z, b[z], b) && (InWait(b[z]) ==> b[z].chan == OfProc(z))
    {
      NoticedKeeps(s, p, ok, b, h, h', z);
      SeenKeeps(s, p, ok, b, h, z);
      if InWait(b[z]) {
        if z == p { SelfInWait(s, p, ok, b); } else { OtherInWait(s, p, ok, b, z); }
      }
    }
  }

  // Pids.

  predicate PidOk(slots: seq<Slot>, nextpid: nat, reaped: seq<nat>) {
    && (forall i :: 0 <= i < |slots| && !slots[i].state.Unused? ==> slots[i].pid < nextpid && slots[i].pid !in reaped)
    && (forall i, j ::
       0 <= i < j < |slots| && !slots[i].state.Unused? && !slots[j].state.Unused? ==> slots[i].pid != slots[j].pid)
    && Distinct(reaped, nextpid)
  }

  predicate Distinct(reaped: seq<nat>, nextpid: nat) {
    && (forall k :: 0 <= k < |reaped| ==> reaped[k] < nextpid)
    && (forall k, m :: 0 <= k < m < |reaped| ==> reaped[k] != reaped[m])
  }

  /** A slot is given a new pid. */
  lemma PidAllocated(slots: seq<Slot>, nextpid: nat, reaped: seq<nat>, i: nat, x: Slot)
    requires PidOk(slots, nextpid, reaped) && i < |slots| && x.pid == nextpid
    ensures PidOk(slots[i := x], nextpid + 1, reaped)
  {
  }

  /** A slot is emptied and its pid reported. */
  lemma PidReaped(slots: seq<Slot>, nextpid: nat, reaped: seq<nat>, i: nat, x: Slot)
    requires PidOk(slots, nextpid, reaped) && i < |slots| && !slots[i].state.Unused? && x.state.Unused?
    ensures PidOk(slots[i := x], nextpid, reaped + [slots[i].pid])
  {
  }

  lemma PidSame(slots: seq<Slot>, b: seq<Slot>, nextpid: nat, reaped: seq<nat>)
    requires PidOk(slots, nextpid, reaped) && |b| == |slots|
    requires forall i :: 0 <= i < |b| ==> b[i].state.Unused? || (!slots[i].state.Unused? && b[i].pid == slots[i].pid)
    ensures PidOk(b, nextpid, reaped)
  {
  }

  predicate Allocates(s: State, p: nat)
    requires p < |s.slots|
  {
    s.slots[p].pc.FScan? && s.slots[p].pc.i < |s.slots| && s.slots[s.slots[p].pc.i].state.Unused?
  }

  lemma GoPids(s: State, c: nat, p: nat, ok: bool)
    requires FamilyOk(s) && Going(s, c, p, ok) && PidOk(s.slots, s.nextpid, s.reaped)
    ensures var t := ThreadStep(s, c, Go(ok)); PidOk(t.slots, t.nextpid, t.reaped)
  {
    var t := ThreadStep(s, c, Go(ok));
    StepView(s, c, p, ok);
    Setting(s, c, p, ok);
    GoCounts(s, c, p, ok);
    PidStep(s, p, ok, t.slots, t.nextpid, t.reaped);
  }

  predicate Counts(s: State, p: nat, nextpid: nat, reaped: seq<nat>)
    requires p < |s.slots|
  {
    var pc := s.slots[p].pc;
    && nextpid == (if Allocates(s, p) then s.nextpid + 1 else s.nextpid)
    && reaped == (if pc.WClear? && pc.i < |s.slots| then s.reaped + [s.slots[pc.i].pid] else s.reaped)
  }

  lemma GoCounts(s: State, c: nat, p: nat, ok: bool)
    requires Going(s, c, p, ok)
    ensures var t := ThreadStep(s, c, Go(ok)); Counts(s, p, t.nextpid, t.reaped)
  {
  }

  lemma PidStep(s: State, p: nat, ok: bool, b: seq<Slot>, nextpid: nat, reaped: seq<nat>)
    requires Making0(s, p) && View(s, p, ok, b) && PidOk(s.slots, s.nextpid, s.reaped) && Counts(s, p, nextpid, reaped)
    ensures PidOk(b, nextpid, reaped)
  {
    var pc := s.slots[p].pc;
    if Allocates(s, p) {
      AllocatedPid(s, p, ok, b);
      PidAllocated(s.slots, s.nextpid, s.reaped, pc.i, b[pc.i]);
      PidSame(s.slots[pc.i := b[pc.i]], b, nextpid, reaped);
    } else if pc.WClear? {
      ClearedPid(s, p, ok, b);
      PidReaped(s.slots, s.nextpid, s.reaped, pc.i, b[pc.i]);
      PidSame(s.slots[pc.i := b[pc.i]], b, nextpid, reaped);
    } else {
      OtherPids(s, p, ok, b);
      PidSame(s.slots, b, nextpid, reaped);
    }
  }

  lemma AllocatedPid(s: State, p: nat, ok: bool, b: seq<Slot>)
    requires Making0(s, p) && View(s, p, ok, b) && Allocates(s, p)
    ensures var i := s.slots[p].pc.i; i != p && b[i].pid == s.nextpid
    ensures var i := s.slots[p].pc.i;
            forall z ::
            0 <= z < |b| && z != i ==> b[z].state.Unused? || (!s.slots[z].state.Unused? && b[z].pid == s.slots[z].pid)
  {
    assert Detail(0);
  }

  lemma ClearedPid(s: State, p: nat, ok: bool, b: seq<Slot>)
    requires Making0(s, p) && View(s, p, ok, b) && s.slots[p].pc.WClear?
    ensures var i := s.slots[p].pc.i; i < |b| && i != p && s.slots[i].state.Zombie? && b[i].state.Unused?
    ensures var i := s.slots[p].pc.i;
            forall z ::
            0 <= z < |b| && z != i ==> b[z].state.Unused? || (!s.slots[z].state.Unused? && b[z].pid == s.slots[z].pid)
  {
    NotSelf(s, p);
    assert Detail(0);
  }

  lemma OtherPids(s: State, p: nat, ok: bool, b: seq<Slot>)
    requires Making0(s, p) && View(s, p, ok, b) && !Allocates(s, p) && !s.slots[p].pc.WClear?
    ensures forall z :: 0 <= z < |b| ==> b[z].state.Unused? || (!s.slots[z].state.Unused? && b[z].pid == s.slots[z].pid)
  {
    forall z | 0 <= z < |b| ensures b[z].state.Unused? || (!s.slots[z].state.Unused? && b[z].pid == s.slots[z].pid) {
      if z != p { StateKept(s, p, ok, b, z); }
    }
  }

  // Runs.

  predicate Inv(s: State) {
    FamilyOk(s) && WaitOk(s.slots, Holder(s), s.init) && PidOk(s.slots, s.nextpid, s.reaped)
  }

  predicate Enabled(s: State, c: nat, a: Act) {
    if a.Schedule? then SchedulerEnabled(s, c) else ThreadEnabled(s, c, a)
  }

  function Apply(s: State, c: nat, a: Act): State
    requires Enabled(s, c, a)
  {
    if a.Schedule? then SchedulerStep(s, c) else ThreadStep(s, c, a)
  }

  lemma GoHolders(s: State, c: nat, p: nat, ok: bool)
    requires FamilyOk(s) && Going(s, c, p, ok)
    ensures Holders(s, p, ThreadStep(s, c, Go(ok)).slots, Holder(s), Holder(ThreadStep(s, c, Go(ok))))
  {
    Current(s, c, p);
    Setting(s, c, p, ok);
    StepView(s, c, p, ok);
    OwnWaitMove(s, p, ok, ThreadStep(s, c, Go(ok)).slots);
  }

  lemma GoInv(s: State, c: nat, p: nat, ok: bool)
    requires Inv(s) && Going(s, c, p, ok)
    ensures Inv(ThreadStep(s, c, Go(ok)))
  {
    var t := ThreadStep(s, c, Go(ok));
    GoKeeps(s, c, p, ok);
    GoPids(s, c, p, ok);
    GoHolders(s, c, p, ok);
    StepView(s, c, p, ok);
    Setting(s, c, p, ok);
    WaitKeeps(s, p, ok, t.slots, Holder(s), Holder(t));
  }

  /** Slot p moves along in a way that nobody's wait or exit sees, while nobody holds the lock in a process. */
  lemma WaitSimilar(slots: seq<Slot>, p: nat, y: Slot, h: int, init: nat)
    requires WaitOk(slots, NONE, init) && p < |slots| && (Similar(p, slots[p], y, init) || Rescheduled(slots[p], y))
    ensures WaitOk(slots[p := y], h, init)
  {
    var b := slots[p := y];
    assert forall q :: 0 <= q < |b| ==>
           (InWait(b[q]) <==> InWait(slots[q])) && b[q].parent == slots[q].parent && b[q].chan == slots[q].chan;
    assert forall q :: 0 <= q < |b| ==> (b[q].state.Zombie? <==> slots[q].state.Zombie?);
    forall z | 0 <= z < |b| ensures Noticed(b, z, h, init) && Seen(z, b[z], b) {
      assert Noticed(slots, z, NONE, init) && Seen(z, slots[z], slots);
    }
  }

  lemma EnterInv(s: State, c: nat, a: Act)
    requires Inv(s) && ThreadEnabled(s, c, a) && !a.Go?
    ensures Inv(ThreadStep(s, c, a))
  {
    var t, p := ThreadStep(s, c, a), s.cpus[c].thread;
    EnterKeeps(s, c, a);
    EnterSimilar(s, c, a);
    Current(s, c, p);
    WaitSimilar(s.slots, p, t.slots[p], Holder(t), s.init);
    PidSame(s.slots, t.slots, s.nextpid, s.reaped);
  }

  /** A scheduler step changes one slot at most, and no process holds the lock meanwhile. */
  lemma ScheduleChanges(s: State, c: nat) returns (i: nat)
    requires SchedOk(s.slots, s.cpus, s.lock) && SchedulerEnabled(s, c) && s.init < |s.slots|
    ensures var t := SchedulerStep(s, c);
      && i < |s.slots| && t.slots == s.slots[i := t.slots[i]] && Rescheduled(s.slots[i], t.slots[i]) &&
         Holder(s) == NONE
      && t.nextpid == s.nextpid && t.reaped == s.reaped && t.init == s.init
  {
    var k := s.cpus[c];
    assert CpuOk(c, k, s.slots, s.lock);
    i := if k.spc.Idle? || k.spc.Scan? then s.init else k.spc.i;
  }

  lemma ScheduleInv(s: State, c: nat)
    requires Inv(s) && SchedulerEnabled(s, c)
    ensures Inv(SchedulerStep(s, c))
  {
    var t := SchedulerStep(s, c);
    ScheduleKeeps(s, c);
    var i := ScheduleChanges(s, c);
    RescheduledKeeps(s, i, t.slots[i], Holder(t));
  }

  lemma RescheduledKeeps(s: State, i: nat, y: Slot, h: int)
    requires WaitOk(s.slots, NONE, s.init) && PidOk(s.slots, s.nextpid, s.reaped) && i < |s.slots| &&
             Rescheduled(s.slots[i], y)
    ensures WaitOk(s.slots[i := y], h, s.init) && PidOk(s.slots[i := y], s.nextpid, s.reaped)
  {
    WaitSimilar(s.slots, i, y, h, s.init);
    PidSame(s.slots, s.slots[i := y], s.nextpid, s.reaped);
  }

  lemma ApplyInv(s: State, c: nat, a: Act)
    requires Inv(s) && Enabled(s, c, a)
    ensures Inv(Apply(s, c, a))
  {
    if a.Schedule? {
      ScheduleInv(s, c);
    } else if a.Go? {
      GoInv(s, c, s.cpus[c].thread, a.ok);
    } else {
      EnterInv(s, c, a);
    }
  }

  /** After userinit: one runnable process, and every CPU about to enter its scheduler loop. */
  predicate Init(s: State) {
    && s.lock == NONE && s.nextpid == 2 && s.reaped == [] && s.init < |s.slots|
    && s.slots[s.init] == Slot(Runnable, 1, NONE, NoChan, false, true, true, ForkRet, NONE, NONE)
    && (forall i ::
       0 <= i < |s.slots| && i != s.init ==>
       s.slots[i] == Slot(Unused, 0, NONE, NoChan, false, false, false, Dead, NONE, NONE))
    && (forall c :: 0 <= c < |s.cpus| ==> s.cpus[c] == Cpu(NONE, NONE, NONE, Idle))
  }

  lemma InitFamily(s: State)
    requires Init(s)
    ensures FamilyOk(s)
  {
    InitSched(s);
    forall p | 0 <= p < |s.slots|
      ensures Owns(p, s.slots[p], s.slots) && Child(p, s.slots[p], s.slots, s.init) &&
              Passing(p, s.slots[p].pc, s.slots, s.init)
    {
    }
  }

  lemma InitSched(s: State)
    requires Init(s)
    ensures SchedOk(s.slots, s.cpus, s.lock) && MakerOk(s.slots) && ReapOk(s.slots)
  {
  }

  lemma InitInv(s: State)
    requires Init(s)
    ensures Inv(s)
  {
    InitFamily(s);
    assert forall q :: 0 <= q < |s.slots| ==>
           !InWait(s.slots[q]) && !s.slots[q].state.Zombie? && (s.slots[q].pc.ForkRet? || s.slots[q].pc.Dead?);
    assert WaitOk(s.slots, Holder(s), s.init);
  }

  predicate StepsAt(ss: seq<State>, cs: seq<nat>, acts: seq<Act>, k: nat) {
    k < |cs| && k < |acts| && k + 1 < |ss| && Enabled(ss[k], cs[k], acts[k]) &&
        ss[k + 1] == Apply(ss[k], cs[k], acts[k])
  }

  /** A run: at each step one CPU acts. */
  predicate Run(ss: seq<State>, cs: seq<nat>, acts: seq<Act>) {
    |ss| == |cs| + 1 == |acts| + 1 && Init(ss[0]) && forall k :: 0 <= k < |cs| ==> StepsAt(ss, cs, acts, k)
  }

  lemma {:induction false} RunInv(ss: seq<State>, cs: seq<nat>, acts: seq<Act>, k: nat)
    requires Run(ss, cs, acts) && k < |ss|
    ensures Inv(ss[k])
  {
    if k == 0 {
      InitInv(ss[0]);
    } else {
      RunInv(ss, cs, acts, k - 1);
      assert StepsAt(ss, cs, acts, k - 1);
      ApplyInv(ss[k - 1], cs[k - 1], acts[k - 1]);
    }
  }

  // Theorems, for every moment k of every run.

  predicate CurrentOn(s: State, c: nat, p: nat) { c < |s.cpus| && s.cpus[c].proc == p }

  /** A process is current on one CPU at most; and when ptable.lock is free it is RUNNING exactly if it is
      current on some CPU. */
  lemma RunningIsCurrent(ss: seq<State>, cs: seq<nat>, acts: seq<Act>, k: nat, p: nat)
    requires Run(ss, cs, acts) && k < |ss| && p < |ss[k].slots|
    ensures forall c: nat, d: nat :: CurrentOn(ss[k], c, p) && CurrentOn(ss[k], d, p) ==> c == d
    ensures ss[k].lock == NONE ==> (ss[k].slots[p].state.Running? <==> exists c: nat :: CurrentOn(ss[k], c, p))
  {
    RunInv(ss, cs, acts, k);
    var s := ss[k];
    assert SlotOk(p, s.slots[p], s.cpus, s.lock);
    forall c: nat | CurrentOn(s, c, p) ensures s.slots[p].on == c { assert CpuOk(c, s.cpus[c], s.slots, s.lock); }
    if s.slots[p].state.Running? { assert CurrentOn(s, s.slots[p].on, p); }
  }

  /** The process that frees a slot executes, with the lock. */
  lemma ReaperHolds(s: State, w: nat)
    requires Inv(s) && w < |s.slots| && Reaping(s.slots[w].pc) >= 0
    ensures 0 <= s.lock < |s.cpus| && s.cpus[s.lock].thread == w == s.cpus[s.lock].proc
    ensures s.slots[w].on == s.lock
  {
    assert SlotOk(w, s.slots[w], s.cpus, s.lock);
    assert CpuOk(s.slots[w].on, s.cpus[s.slots[w].on], s.slots, s.lock);
  }

  /** While wait frees a slot's kernel stack and page directory no CPU is on either, nor has the slot as
      its current process. */
  lemma ReapedIsNotInUse(ss: seq<State>, cs: seq<nat>, acts: seq<Act>, k: nat, w: nat, c: nat)
    requires Run(ss, cs, acts) && k < |ss| && w < |ss[k].slots| && c < |ss[k].cpus| && Reaping(ss[k].slots[w].pc) >= 0
    ensures var i := Reaping(ss[k].slots[w].pc);
            ss[k].cpus[c].thread != i && ss[k].cpus[c].cr3 != i && ss[k].cpus[c].proc != i
  {
    RunInv(ss, cs, acts, k);
    var s := ss[k];
    var i := Reaping(s.slots[w].pc);
    ReaperHolds(s, w);
    assert ReapStage(s.slots[w].pc, s.slots[i], w);
    assert SlotOk(w, s.slots[w], s.cpus, s.lock) && SlotOk(i, s.slots[i], s.cpus, s.lock) &&
           CpuOk(c, s.cpus[c], s.slots, s.lock);
  }

  /** No CPU is ever on a kernel stack or a page directory that has been freed. */
  lemma NothingFreedInUse(ss: seq<State>, cs: seq<nat>, acts: seq<Act>, k: nat, c: nat)
    requires Run(ss, cs, acts) && k < |ss| && c < |ss[k].cpus|
    ensures var s := ss[k]; s.cpus[c].thread >= 0 ==> s.cpus[c].thread < |s.slots| && s.slots[s.cpus[c].thread].kstack
    ensures var s := ss[k]; s.cpus[c].cr3 >= 0 ==> s.cpus[c].cr3 < |s.slots| && s.slots[s.cpus[c].cr3].pgdir
  {
    RunInv(ss, cs, acts, k);
    var s := ss[k];
    var p := s.cpus[c].proc;
    assert CpuOk(c, s.cpus[c], s.slots, s.lock);
    if p >= 0 {
      assert SlotOk(p, s.slots[p], s.cpus, s.lock) && Owns(p, s.slots[p], s.slots);
      if s.slots[p].state.Zombie? && !(s.slots[p].kstack && s.slots[p].pgdir) {
        ReapedIsNotInUse(ss, cs, acts, k, s.slots[p].parent, c);
      }
    }
  }

  /** Every process, running, waiting or dead, other than init has a live parent; an UNUSED slot has no
      parent, and owns nothing. */
  lemma ParentsAreLive(ss: seq<State>, cs: seq<nat>, acts: seq<Act>, k: nat, p: nat)
    requires Run(ss, cs, acts) && k < |ss| && p < |ss[k].slots|
    ensures var s := ss[k]; var x := s.slots[p];
      && (p != s.init && (Live(x.state) || x.state.Zombie?) ==>
         0 <= x.parent < |s.slots| && Live(s.slots[x.parent].state))
      && (x.state.Unused? ==> x.parent == NONE && !x.kstack && !x.pgdir)
      && (p == s.init ==> Live(x.state))
  {
    RunInv(ss, cs, acts, k);
    assert Child(p, ss[k].slots[p], ss[k].slots, ss[k].init) && Owns(p, ss[k].slots[p], ss[k].slots);
  }

  /** When ptable.lock is free, a process that sleeps in wait has no zombie child. */
  lemma ZombiesAreNoticed(ss: seq<State>, cs: seq<nat>, acts: seq<Act>, k: nat, q: nat, z: nat)
    requires Run(ss, cs, acts) && k < |ss| && q < |ss[k].slots| && z < |ss[k].slots|
    requires ss[k].lock == NONE && InWait(ss[k].slots[q])
    ensures !ZombieOf(ss[k].slots[z], q)
  {
    RunInv(ss, cs, acts, k);
    assert Noticed(ss[k].slots, z, NONE, ss[k].init);
  }

  /** No pid is reaped twice, nor is the pid of a process that is still in the table. */
  lemma ReapedOnce(ss: seq<State>, cs: seq<nat>, acts: seq<Act>, k: nat)
    requires Run(ss, cs, acts) && k < |ss|
    ensures var s := ss[k]; forall a, b :: 0 <= a < b < |s.reaped| ==> s.reaped[a] != s.reaped[b]
    ensures var s := ss[k]; forall i :: 0 <= i < |s.slots| && !s.slots[i].state.Unused? ==> s.slots[i].pid !in s.reaped
  {
    RunInv(ss, cs, acts, k);
  }
}
