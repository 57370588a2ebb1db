/** Parents, children and what a slot owns, over every step of Proc. */
module Family {
  import opened Proc

  // Slots under construction.

  /** Another process's statement leaves a slot under construction alone. */
  lemma EmbryoKept(b: Pc, x: Slot, f: nat, pc: Pc, p: nat, chan: Chan, init: nat, nextpid: nat, ok: bool)
    requires Stage(b, x, f) && f != p && Making(pc) == NONE == Reaping(pc) && Base(pc) == pc
    ensures Stage(b, Changed(x, pc, p, chan, init, nextpid, ok), f)
  {
  }

  /** The maker's own statement takes the slot to the next stage, hands it over or gives it back. */
  lemma StageMoves(x: Slot, p: nat, pc: Pc, me: Slot, n: nat, chan: Chan, init: nat, nextpid: nat, ok: bool)
    requires Making(pc) >= 0 && Stage(Base(pc), x, p) && Sound(pc)
    ensures var x' := if Subject(pc) == Making(pc) then Changed(x, pc, p, chan, init, nextpid, ok) else x;
            var pc' := NextPc(pc, me, p, x, n, ok);
      if Making(pc') >= 0 then Making(pc') == Making(pc) && Stage(Base(pc'), x', p)
      else !x'.state.Embryo?
    ensures Subject(pc) in {NONE, Making(pc)}
  {
  }

  /** allocproc finds a slot. */
  lemma StageStarts(x: Slot, p: nat, pc: Pc, chan: Chan, init: nat, nextpid: nat, ok: bool)
    requires pc.FScan? && x.state.Unused? && !x.kstack && !x.pgdir && x.parent == NONE && (x.pc.ForkRet? || x.pc.Dead?)
    ensures Stage(FUnlock(pc.i), Changed(x, pc, p, chan, init, nextpid, ok), p)
  {
  }

  lemma NextMaking(pc: Pc, me: Slot, p: nat, x: Slot, n: nat, ok: bool)
    requires Making(pc) == NONE && pc != User && Sound(pc)
    ensures Making(NextPc(pc, me, p, x, n, ok)) >= 0 ==>
            pc.FScan? && pc.i < n && x.state.Unused? && NextPc(pc, me, p, x, n, ok) == FUnlock(pc.i)
  {
  }

  // What slots own, and who their parents are.

  predicate Blank(x: Slot) { !x.kstack && !x.pgdir && x.parent == NONE && (x.pc.ForkRet? || x.pc.Dead?) }

  /** A live process owns a kernel stack and a page directory; a zombie owns them until its parent reaps it. */
  predicate Owns(i: nat, x: Slot, slots: seq<Slot>) {
    && (x.state.Unused? ==> Blank(x))
    && (Live(x.state) ==> x.kstack && x.pgdir)
    && (x.state.Zombie? ==> (x.kstack && x.pgdir) || (0 <= x.parent < |slots| && Reaping(slots[x.parent].pc) == i))
  }

  predicate OwnsOk(slots: seq<Slot>) {
    forall i :: 0 <= i < |slots| ==> Owns(i, slots[i], slots)
  }

  /** Every process but init has a live parent, not itself. */
  predicate Child(i: nat, x: Slot, slots: seq<Slot>, init: nat) {
    if i == init then Live(x.state) && x.parent == NONE
    else Live(x.state) || x.state.Zombie? ==> 0 <= x.parent < |slots| && x.parent != i && Live(slots[x.parent].state)
  }

  predicate TreeOk(slots: seq<Slot>, init: nat) {
    init < |slots| && forall i :: 0 <= i < |slots| ==> Child(i, slots[i], slots, init)
  }

  /** How far exit has come in passing its children to init. */
  predicate Passing(p: nat, pc: Pc, slots: seq<Slot>, init: nat) {
    && (pc.EWake? || pc.EChild? || pc.EInit? || pc.EZombie? || pc.ESched? ==> p != init)
    && (pc.EChild? || pc.EInit? ==> forall z :: 0 <= z < |slots| && z < pc.i ==> slots[z].parent != p)
    && (pc.EInit? ==> pc.i < |slots| && slots[pc.i].parent != p)
    && (pc.EZombie? || pc.ESched? ==> forall z :: 0 <= z < |slots| ==> slots[z].parent != p)
  }

  predicate PassingOk(slots: seq<Slot>, init: nat) {
    forall p :: 0 <= p < |slots| ==> Passing(p, slots[p].pc, slots, init)
  }

  predicate FamilyOk(s: State) {
    && SchedOk(s.slots, s.cpus, s.lock) && MakerOk(s.slots) && ReapOk(s.slots)
    && OwnsOk(s.slots) && TreeOk(s.slots, s.init) && PassingOk(s.slots, s.init)
  }

  // One statement.

  predicate Going(s: State, c: nat, p: nat, ok: bool) {
    ThreadEnabled(s, c, Go(ok)) && s.cpus[c].thread == p
  }

  lemma Current(s: State, c: nat, p: nat)
    requires SchedOk(s.slots, s.cpus, s.lock) && c < |s.cpus| && s.cpus[c].thread == p >= 0
    ensures p < |s.slots| && s.slots[p].state == StateAt(s.slots[p].pc) && Sound(s.slots[p].pc)
    ensures s.lock == c <==> InLock(s.slots[p].pc)
  {
    assert CpuOk(c, s.cpus[c], s.slots, s.lock);
    assert SlotOk(p, s.slots[p], s.cpus, s.lock);
  }

  /** The statement's slot is not curproc's own, unless it is a loop passing by. */
  lemma SelfKept(s: State, c: nat, p: nat, ok: bool)
    requires FamilyOk(s) && Going(s, c, p, ok)
    ensures Making(s.slots[p].pc) != p && Reaping(s.slots[p].pc) != p
    ensures var me := s.slots[p];
            var x := Changed(me, me.pc, p, ParentChan(me), s.init, s.nextpid, ok);
            Subject(me.pc) == p ==> x == me || x == me.(killed := true)
  {
    Current(s, c, p);
    var me := s.slots[p];
    assert Child(p, me, s.slots, s.init);
    assert Making(me.pc) == p ==> Stage(Base(me.pc), me, p);
  }

  /** Slot x after a statement of p that is about it. */
  function Touched(s: State, p: nat, ok: bool, x: Slot): Slot
    requires p < |s.slots|
  {
    Changed(x, s.slots[p].pc, p, ParentChan(s.slots[p]), s.init, s.nextpid, ok)
  }

  /** Where the statement takes p. */
  function Next(s: State, p: nat, ok: bool): Pc
    requires p < |s.slots|
  {
    var me := s.slots[p];
    var i := Subject(me.pc);
    NextPc(me.pc, me, p, if 0 <= i < |s.slots| then s.slots[i] else me, |s.slots|, ok)
  }

  /** What the statement at pc may do to another slot x, said without the details. */
  predicate Kept(pc: Pc, p: nat, init: nat, x: Slot, y: Slot) {
    && (y.pc == x.pc || (y.pc.ForkRet? && pc.FStack?))
    && (|| y.state == x.state || (x.state.Sleeping? && y.state.Runnable? && InLock(pc))
        || (pc.FScan? && x.state.Unused? && y.state.Embryo? && y.maker == p)
        || (pc.FUndo? && y.state.Unused?) || (pc.FReady? && y.state.Runnable?) || (pc.WClear? && y.state.Unused?))
    && (|| y.parent == x.parent || (pc.FParent? && y.parent == p) || (pc.EChild? && x.parent == p && y.parent == init)
        || (pc.WClear? && y.parent == NONE && y.state.Unused?))
    && (y.kstack == x.kstack || pc.FStack? || pc.FFree? || pc.WStack?)
    && (y.pgdir == x.pgdir || pc.FVm? || pc.WVm?)
    && (y.maker == x.maker || (pc.FScan? && x.state.Unused?))
    && (y.pid == x.pid || (pc.FScan? && x.state.Unused?) || (pc.WClear? && y.state.Unused?))
    && y.chan == x.chan
  }

  lemma TouchedKept(s: State, p: nat, ok: bool, x: Slot)
    requires p < |s.slots|
    ensures Kept(s.slots[p].pc, p, s.init, x, Touched(s, p, ok, x))
  {
  }

  /** The slot that the statement at pc is about. */
  predicate About(pc: Pc, z: nat) { Subject(pc) == z }

  /** A mention of this lets a proof look at the details of a statement. */
  predicate Detail(k: nat) { k >= 0 }

  /** The table b after a statement of p, slot by slot; the details stay folded. */
  ghost predicate View(s: State, p: nat, ok: bool, b: seq<Slot>) {
    && p < |s.slots| == |b|
    && (forall z ::
       0 <= z < |b| && z != p ==>
       b[z] == s.slots[z] || (About(s.slots[p].pc, z) && Kept(s.slots[p].pc, p, s.init, s.slots[z], b[z])))
    && Own(s.slots[p], b[p], p)
    && (forall k {:trigger Detail(k)} :: Detail(k) ==>
          && b[p].pc == Next(s, p, ok)
          && (forall z ::
             0 <= z < |b| && z != p && z == Subject(s.slots[p].pc) ==> b[z] == Touched(s, p, ok, s.slots[z])))
  }

  predicate Own(me: Slot, y: Slot, p: nat) {
    && y.state == NewState(me.state, me.pc) && y.chan == NewChan(me.chan, me.pc, p)
    && y.parent == me.parent && y.pid == me.pid && y.kstack == me.kstack && y.pgdir == me.pgdir && y.maker == me.maker
    && (if me.pc.EZombie? || me.pc.ESched? then y.state.Zombie? else Live(y.state))
  }

  lemma OwnMoves(s: State, c: nat, p: nat, ok: bool)
    requires FamilyOk(s) && Going(s, c, p, ok)
    ensures Own(s.slots[p], ThreadStep(s, c, Go(ok)).slots[p], p)
    ensures ThreadStep(s, c, Go(ok)).slots[p].pc == Next(s, p, ok)
  {
    Current(s, c, p);
    SelfKept(s, c, p, ok);
    var me := s.slots[p];
    var x := if Subject(me.pc) == p then Touched(s, p, ok, me) else me;
    assert ThreadStep(s, c, Go(ok)).slots[p] == Moved(x, me.pc, p, Next(s, p, ok));
    MovedKeeps(x, me.pc, p, Next(s, p, ok));
  }

  lemma MovedKeeps(x: Slot, pc: Pc, p: nat, pc': Pc)
    requires x.state == StateAt(pc)
    ensures var y := Moved(x, pc, p, pc');
      && y.pc == pc' && y.parent == x.parent && y.pid == x.pid && y.kstack == x.kstack && y.pgdir == x.pgdir &&
         y.maker == x.maker
      && (if pc.EZombie? || pc.ESched? then y.state.Zombie? else Live(y.state))
  {
  }

  lemma StepView(s: State, c: nat, p: nat, ok: bool)
    requires FamilyOk(s) && Going(s, c, p, ok)
    ensures View(s, p, ok, ThreadStep(s, c, Go(ok)).slots)
  {
    OwnMoves(s, c, p, ok);
    var b, pc := ThreadStep(s, c, Go(ok)).slots, s.slots[p].pc;
    forall z | 0 <= z < |b| && z != p
      ensures b[z] == if z == Subject(pc) then Touched(s, p, ok, s.slots[z]) else s.slots[z]
      ensures b[z] == s.slots[z] || (About(pc, z) && Kept(pc, p, s.init, s.slots[z], b[z]))
    {
      OtherSlot(s, c, p, ok, z);
      TouchedKept(s, p, ok, s.slots[z]);
    }
  }

  lemma OtherSlot(s: State, c: nat, p: nat, ok: bool, z: nat)
    requires Going(s, c, p, ok) && z < |s.slots| && z != p
    ensures |ThreadStep(s, c, Go(ok)).slots| == |s.slots|
    ensures ThreadStep(s, c, Go(ok)).slots[z] == if z == Subject(s.slots[p].pc) then Touched(s, p, ok, s.slots[z])
            else s.slots[z]
  {
  }

  /** What the proofs about slots under construction use. */
  predicate Making0(s: State, p: nat) {
    && p < |s.slots| && s.slots[p].state == StateAt(s.slots[p].pc) && Sound(s.slots[p].pc) && s.slots[p].pc != User
    && MakerOk(s.slots) && ReapOk(s.slots) &&
       forall i :: 0 <= i < |s.slots| && s.slots[i].state.Unused? ==> Blank(s.slots[i])
  }

  lemma NotSelf(s: State, p: nat)
    requires Making0(s, p)
    ensures Making(s.slots[p].pc) != p && Reaping(s.slots[p].pc) != p
  {
    assert Making(s.slots[p].pc) == p ==> Stage(Base(s.slots[p].pc), s.slots[p], p);
  }

  lemma MakerKeeps(s: State, p: nat, ok: bool, b: seq<Slot>)
    requires Making0(s, p) && View(s, p, ok, b)
    ensures MakerOk(b)
  {
    forall f | 0 <= f < |b| && Making(b[f].pc) >= 0
      ensures Making(b[f].pc) < |b| && Stage(Base(b[f].pc), b[Making(b[f].pc)], f)
    {
      if f == p { OwnStage(s, p, ok, b); } else { OtherStage(s, p, ok, b, f); }
    }
    forall i | 0 <= i < |b| && b[i].state.Embryo? ensures 0 <= b[i].maker < |b| && Making(b[b[i].maker].pc) == i {
      EmbryoHasMaker(s, p, ok, b, i);
    }
  }

  lemma OwnStage(s: State, p: nat, ok: bool, b: seq<Slot>)
    requires Making0(s, p) && View(s, p, ok, b) && Making(b[p].pc) >= 0
    ensures Making(b[p].pc) < |b| && Stage(Base(b[p].pc), b[Making(b[p].pc)], p)
  {
    assert Detail(0);
    NotSelf(s, p);
    var me := s.slots[p];
    if Making(me.pc) >= 0 {
      var m := Making(me.pc);
      StageMoves(s.slots[m], p, me.pc, me, |b|, ParentChan(me), s.init, s.nextpid, ok);
    } else {
      var i := Subject(me.pc);
      NextMaking(me.pc, me, p, if 0 <= i < |b| then s.slots[i] else me, |b|, ok);
      StageStarts(s.slots[i], p, me.pc, ParentChan(me), s.init, s.nextpid, ok);
    }
  }

  /** The slot that another process is making is none that p is making or reaping, nor p itself. */
  lemma OthersEmbryo(s: State, p: nat, f: nat, m: int)
    requires Making0(s, p) && f < |s.slots| && f != p && m == Making(s.slots[f].pc) >= 0
    ensures 0 <= m < |s.slots| && m != p && Stage(Base(s.slots[f].pc), s.slots[m], f)
    ensures Making(s.slots[p].pc) != m && Reaping(s.slots[p].pc) != m
    ensures About(s.slots[p].pc, m) ==>
            Making(s.slots[p].pc) == NONE == Reaping(s.slots[p].pc) && Base(s.slots[p].pc) == s.slots[p].pc
  {
    assert Making(s.slots[p].pc) == m ==> Stage(Base(s.slots[p].pc), s.slots[m], p);
  }

  /** A maker's program counter is its own. */
  lemma MakerPcKept(s: State, p: nat, ok: bool, b: seq<Slot>, f: nat)
    requires Making0(s, p) && View(s, p, ok, b) && f < |b| && f != p &&
             (Making(s.slots[f].pc) >= 0 || Making(b[f].pc) >= 0)
    ensures b[f].pc == s.slots[f].pc
  {
    var pc := s.slots[p].pc;
    assert pc.FStack? && About(pc, f) ==> Stage(Base(pc), s.slots[f], p);
  }

  lemma OtherStage(s: State, p: nat, ok: bool, b: seq<Slot>, f: nat)
    requires Making0(s, p) && View(s, p, ok, b) && f < |b| && f != p && Making(b[f].pc) >= 0
    ensures Making(b[f].pc) < |b| && Stage(Base(b[f].pc), b[Making(b[f].pc)], f)
  {
    var m := Making(b[f].pc);
    MakerPcKept(s, p, ok, b, f);
    OthersEmbryo(s, p, f, m);
    if About(s.slots[p].pc, m) {
      assert Detail(0);
      EmbryoKept(Base(s.slots[f].pc), s.slots[m], f, s.slots[p].pc, p, ParentChan(s.slots[p]), s.init, s.nextpid, ok);
    }
  }

  lemma EmbryoHasMaker(s: State, p: nat, ok: bool, b: seq<Slot>, i: nat)
    requires Making0(s, p) && View(s, p, ok, b) && i < |b| && b[i].state.Embryo?
    ensures 0 <= b[i].maker < |b| && Making(b[b[i].maker].pc) == i
  {
    if !s.slots[i].state.Embryo? {
      assert Detail(0);
    } else if s.slots[i].maker == p {
      MakingGoesOn(s, p, ok, b, i);
    } else {
      MakerPcKept(s, p, ok, b, s.slots[i].maker);
    }
  }

  lemma MakingGoesOn(s: State, p: nat, ok: bool, b: seq<Slot>, i: nat)
    requires Making0(s, p) && View(s, p, ok, b) && i < |b| && Making(s.slots[p].pc) == i && b[i].state.Embryo?
    ensures Making(b[p].pc) == i
  {
    assert Detail(0);
    NotSelf(s, p);
    var me := s.slots[p];
    StageMoves(s.slots[i], p, me.pc, me, |b|, ParentChan(me), s.init, s.nextpid, ok);
  }

  // The other family invariants.

  /** While p holds ptable.lock every other process is switched out or in code that does without it. */
  predicate Alone(slots: seq<Slot>, p: nat)
    requires p < |slots|
  {
    InLock(slots[p].pc) ==> forall q :: 0 <= q < |slots| && q != p ==> Resume(slots[q].pc) || !InLock(slots[q].pc)
  }

  predicate ZombiePc(slots: seq<Slot>) {
    forall q :: 0 <= q < |slots| && slots[q].state.Zombie? ==> slots[q].pc.Dead? || slots[q].pc.ESched?
  }

  predicate Family0(s: State, p: nat) {
    Making0(s, p) && OwnsOk(s.slots) && TreeOk(s.slots, s.init) && PassingOk(s.slots, s.init) && Alone(s.slots, p) &&
        ZombiePc(s.slots)
  }

  lemma Setting(s: State, c: nat, p: nat, ok: bool)
    requires FamilyOk(s) && Going(s, c, p, ok)
    ensures Family0(s, p)
  {
    Current(s, c, p);
    forall i | 0 <= i < |s.slots| && s.slots[i].state.Unused?
      ensures Blank(s.slots[i])
    {
      assert Owns(i, s.slots[i], s.slots);
    }
    if InLock(s.slots[p].pc) {
      forall q | 0 <= q < |s.slots| && q != p
        ensures Resume(s.slots[q].pc) || !InLock(s.slots[q].pc)
      {
        Lone(s, c, p, q);
      }
    }
    forall q | 0 <= q < |s.slots| && s.slots[q].state.Zombie? ensures s.slots[q].pc.Dead? || s.slots[q].pc.ESched? {
      assert SlotOk(q, s.slots[q], s.cpus, s.lock);
    }
  }

  /** Without the lock a statement is about the slot that its process is making. */
  lemma UnlockedMaking(s: State, p: nat, z: nat)
    requires Making0(s, p) && !InLock(s.slots[p].pc) && About(s.slots[p].pc, z)
    ensures z < |s.slots| && z != p && s.slots[z].state.Embryo? && Making(s.slots[p].pc) == z
  {
    NotSelf(s, p);
  }

  /** A process other than p keeps its program counter, unless it was not a process yet. */
  lemma PcKept(s: State, p: nat, ok: bool, b: seq<Slot>, q: nat)
    requires Making0(s, p) && View(s, p, ok, b) && q < |b| && q != p
    ensures b[q].pc == s.slots[q].pc ||
            (b[q].pc.ForkRet? && s.slots[q].state.Embryo? && (s.slots[q].pc.ForkRet? || s.slots[q].pc.Dead?))
  {
    var pc := s.slots[p].pc;
    assert pc.FStack? && About(pc, q) ==> Stage(Base(pc), s.slots[q], p);
  }

  /** A statement turns a slot into a process, or takes one away, only at the ends of fork and of wait. */
  lemma StateKept(s: State, p: nat, ok: bool, b: seq<Slot>, q: nat)
    requires Making0(s, p) && View(s, p, ok, b) && q < |b| && q != p
    ensures Live(s.slots[q].state) ==> Live(b[q].state)
    ensures s.slots[q].state.Zombie? ==> b[q].state.Zombie? || (s.slots[p].pc == WClear(q) && b[q].state.Unused?)
    ensures b[q].state.Zombie? ==> s.slots[q].state.Zombie?
    ensures Live(b[q].state) ==> Live(s.slots[q].state) || s.slots[p].pc == FReady(q)
    ensures b[q].state.Unused? ==> s.slots[q].state.Unused? || s.slots[p].pc == WClear(q) || s.slots[p].pc == FUndo(q)
  {
    var pc := s.slots[p].pc;
    assert (pc.FUndo? || pc.FReady?) && About(pc, q) ==> Stage(pc, s.slots[q], p);
  }

  lemma ReapKeeps(s: State, p: nat, ok: bool, b: seq<Slot>)
    requires Family0(s, p) && View(s, p, ok, b)
    ensures ReapOk(b)
  {
    forall w | 0 <= w < |b| && Reaping(b[w].pc) >= 0
      ensures Reaping(b[w].pc) < |b| && ReapStage(b[w].pc, b[Reaping(b[w].pc)], w)
    {
      if w == p { OwnReap(s, p, ok, b); } else { OtherReap(s, p, ok, b, w); }
    }
  }

  /** How a process comes to be reaping: wait's scan has found a zombie child, or the reaping goes on. */
  lemma ReapMoves(pc: Pc, me: Slot, p: nat, x: Slot, n: nat, chan: Chan, init: nat, nextpid: nat, ok: bool)
    requires Reaping(NextPc(pc, me, p, x, n, ok)) >= 0 && pc != User && Sound(pc)
    ensures Subject(pc) == Reaping(NextPc(pc, me, p, x, n, ok))
    ensures Reaping(pc) == NONE ==> pc.WScan? && pc.i < n && x.parent == p && x.state.Zombie?
    ensures var x', pc' := Changed(x, pc, p, chan, init, nextpid, ok), NextPc(pc, me, p, x, n, ok);
      (if Reaping(pc) == NONE then x.kstack && x.pgdir && x.pc.Dead? else ReapStage(pc, x, p)) ==> ReapStage(pc', x', p)
  {
  }

  lemma OwnReap(s: State, p: nat, ok: bool, b: seq<Slot>)
    requires Family0(s, p) && View(s, p, ok, b) && Reaping(b[p].pc) >= 0
    ensures Reaping(b[p].pc) < |b| && ReapStage(b[p].pc, b[Reaping(b[p].pc)], p)
  {
    assert Detail(0);
    NotSelf(s, p);
    var me, i := s.slots[p], Subject(s.slots[p].pc);
    ReapMoves(me.pc, me, p, if 0 <= i < |b| then s.slots[i] else me, |b|, ParentChan(me), s.init, s.nextpid, ok);
    if me.pc.WScan? { ChildZombie(s, p, i); }
  }

  /** A zombie that wait's scan finds owns everything, and is switched out for good. */
  lemma ChildZombie(s: State, p: nat, i: nat)
    requires Family0(s, p) && i < |s.slots| && s.slots[i].state.Zombie? && s.slots[i].parent == p &&
             Reaping(s.slots[p].pc) == NONE
    requires s.slots[p].pc.WScan?
    ensures i != p && s.slots[i].kstack && s.slots[i].pgdir && s.slots[i].pc.Dead?
  {
    assert Owns(i, s.slots[i], s.slots);
  }

  lemma OtherReap(s: State, p: nat, ok: bool, b: seq<Slot>, w: nat)
    requires Making0(s, p) && Alone(s.slots, p) && View(s, p, ok, b) && w < |b| && w != p && Reaping(b[w].pc) >= 0
    ensures Reaping(b[w].pc) < |b| && ReapStage(b[w].pc, b[Reaping(b[w].pc)], w)
  {
    PcKept(s, p, ok, b, w);
    var i := Reaping(b[w].pc);
    if About(s.slots[p].pc, i) { UnlockedMaking(s, p, i); }
  }

  lemma OwnsKeeps(s: State, p: nat, ok: bool, b: seq<Slot>)
    requires Family0(s, p) && View(s, p, ok, b)
    ensures OwnsOk(b)
  {
    forall i | 0 <= i < |b| ensures Owns(i, b[i], b) {
      if i == p { SelfOwns(s, p, ok, b); } else { OtherOwns(s, p, ok, b, i); }
    }
  }

  lemma SelfOwns(s: State, p: nat, ok: bool, b: seq<Slot>)
    requires Family0(s, p) && View(s, p, ok, b)
    ensures Owns(p, b[p], b)
  {
    assert Owns(p, s.slots[p], s.slots) && Child(p, s.slots[p], s.slots, s.init);
  }

  lemma OtherOwns(s: State, p: nat, ok: bool, b: seq<Slot>, i: nat)
    requires Family0(s, p) && View(s, p, ok, b) && i < |b| && i != p
    ensures Owns(i, b[i], b)
  {
    StateKept(s, p, ok, b, i);
    assert Owns(i, s.slots[i], s.slots);
    if Making(s.slots[p].pc) == i || Reaping(s.slots[p].pc) == i {
      SubjectOwns(s, p, ok, b, i);
    } else if b[i].state.Zombie? && !(s.slots[i].kstack && s.slots[i].pgdir) {
      ReaperKept(s, p, ok, b, i);
    }
  }

  /** The slot that p itself is making or reaping. */
  lemma SubjectOwns(s: State, p: nat, ok: bool, b: seq<Slot>, i: nat)
    requires Family0(s, p) && View(s, p, ok, b) && i < |b| && i != p &&
             (Making(s.slots[p].pc) == i || Reaping(s.slots[p].pc) == i)
    ensures Owns(i, b[i], b)
  {
    assert Detail(0);
    var me := s.slots[p];
    SubjectOwned(me.pc, me, p, i, s.slots[i], |b|, ParentChan(me), s.init, s.nextpid, ok);
  }

  lemma SubjectOwned(pc: Pc, me: Slot, p: nat, i: nat, x: Slot, n: nat, chan: Chan, init: nat, nextpid: nat, ok: bool)
    requires Sound(pc) && p < n && pc != User
    requires (Making(pc) == i && Stage(Base(pc), x, p)) || (Reaping(pc) == i && ReapStage(pc, x, p))
    ensures var x' := if Subject(pc) == i then Changed(x, pc, p, chan, init, nextpid, ok) else x;
            var pc' := NextPc(pc, me, p, x, n, ok);
      && (x'.state.Unused? ==> Blank(x')) && (Live(x'.state) ==> x'.kstack && x'.pgdir)
      && (x'.state.Zombie? ==> x'.parent == p && Reaping(pc') == i)
    ensures Subject(pc) in {NONE, i}
  {
  }

  /** A parent that is reaping goes on reaping. */
  lemma ReaperKept(s: State, p: nat, ok: bool, b: seq<Slot>, i: nat)
    requires i < |b| && Making0(s, p) && Alone(s.slots, p) && i < |s.slots| && Owns(i, s.slots[i], s.slots) &&
             View(s, p, ok, b)
    requires i != p && s.slots[i].state.Zombie? && !(s.slots[i].kstack && s.slots[i].pgdir)
    requires Reaping(s.slots[p].pc) != i && b[i].state.Zombie?
    ensures 0 <= b[i].parent < |b| && Reaping(b[b[i].parent].pc) == i
    ensures b[i].kstack == s.slots[i].kstack && b[i].pgdir == s.slots[i].pgdir
  {
    var w := s.slots[i].parent;
    PcKept(s, p, ok, b, w);
    if About(s.slots[p].pc, i) { UnlockedMaking(s, p, i); }
  }

  lemma TreeKeeps(s: State, p: nat, ok: bool, b: seq<Slot>)
    requires Family0(s, p) && View(s, p, ok, b)
    ensures TreeOk(b, s.init)
  {
    forall i | 0 <= i < |b| ensures Child(i, b[i], b, s.init) {
      assert Child(i, s.slots[i], s.slots, s.init);
      if i == p { SelfChild(s, p, ok, b); } else { OtherChild(s, p, ok, b, i); }
    }
  }

  lemma SelfChild(s: State, p: nat, ok: bool, b: seq<Slot>)
    requires Family0(s, p) && View(s, p, ok, b)
    ensures Child(p, b[p], b, s.init)
  {
    assert Child(p, s.slots[p], s.slots, s.init) && Passing(p, s.slots[p].pc, s.slots, s.init);
    if p != s.init { StateKept(s, p, ok, b, s.slots[p].parent); }
  }

  lemma OtherChild(s: State, p: nat, ok: bool, b: seq<Slot>, i: nat)
    requires Family0(s, p) && View(s, p, ok, b) && i < |b| && i != p
    ensures Child(i, b[i], b, s.init)
  {
    StateKept(s, p, ok, b, i);
    assert Child(i, s.slots[i], s.slots, s.init);
    if s.slots[p].pc == FReady(i) {
      ReadyChild(s, p, ok, b, i);
    } else if b[i].state.Zombie? || Live(b[i].state) {
      ParentLives(s, p, ok, b, i);
    }
  }

  /** The child that fork makes runnable. */
  lemma ReadyChild(s: State, p: nat, ok: bool, b: seq<Slot>, i: nat)
    requires Family0(s, p) && View(s, p, ok, b) && i < |b| && i != p && s.slots[p].pc == FReady(i)
    ensures Child(i, b[i], b, s.init)
  {
    assert Stage(FReady(i), s.slots[i], p);
    assert Child(s.init, s.slots[s.init], s.slots, s.init);
  }

  lemma ParentLives(s: State, p: nat, ok: bool, b: seq<Slot>, i: nat)
    requires Family0(s, p) && View(s, p, ok, b) && i < |b| && i != p &&
             (Live(s.slots[i].state) || s.slots[i].state.Zombie?)
    requires Live(b[i].state) || b[i].state.Zombie?
    ensures i != s.init ==> 0 <= b[i].parent < |b| && b[i].parent != i && Live(b[b[i].parent].state)
    ensures i == s.init ==> b[i].parent == NONE
  {
    assert Child(i, s.slots[i], s.slots, s.init);
    ParentKept(s, p, ok, b, i);
    if i != s.init {
      if b[i].parent == s.init {
        InitLives(s, p, ok, b);
      } else if b[i].parent != p {
        StateKept(s, p, ok, b, b[i].parent);
      } else {
        assert Passing(p, s.slots[p].pc, s.slots, s.init);
      }
    }
  }

  lemma ParentKept(s: State, p: nat, ok: bool, b: seq<Slot>, i: nat)
    requires p < |s.slots| && MakerOk(s.slots) && View(s, p, ok, b) && i < |b| && i != p &&
             (Live(s.slots[i].state) || s.slots[i].state.Zombie?)
    requires Live(b[i].state) || b[i].state.Zombie?
    ensures b[i].parent == s.slots[i].parent || (b[i].parent == s.init && s.slots[i].parent == p)
  {
    var pc := s.slots[p].pc;
    assert pc.FParent? && About(pc, i) ==> Stage(pc, s.slots[i], p);
  }

  lemma InitLives(s: State, p: nat, ok: bool, b: seq<Slot>)
    requires Family0(s, p) && View(s, p, ok, b)
    ensures Live(b[s.init].state)
  {
    assert Child(s.init, s.slots[s.init], s.slots, s.init) && Passing(p, s.slots[p].pc, s.slots, s.init);
    if s.init != p { StateKept(s, p, ok, b, s.init); }
  }

  lemma PassingKeeps(s: State, p: nat, ok: bool, b: seq<Slot>)
    requires Family0(s, p) && View(s, p, ok, b)
    ensures PassingOk(b, s.init)
  {
    forall q | 0 <= q < |b| ensures Passing(q, b[q].pc, b, s.init) {
      assert Passing(p, s.slots[p].pc, s.slots, s.init) && Child(p, s.slots[p], s.slots, s.init);
      if q == p { SelfPassing(s, p, ok, b); } else { OtherPassing(s, p, ok, b, q); }
    }
  }

  /** A statement of p makes nobody a child of q. */
  lemma NoNewChild(s: State, p: nat, ok: bool, b: seq<Slot>, q: nat, z: nat)
    requires View(s, p, ok, b) && z < |b|
    requires q != s.init && (q == p ==> !s.slots[p].pc.FParent?) && s.slots[z].parent != q
    ensures b[z].parent != q
  {
  }

  lemma OtherPassing(s: State, p: nat, ok: bool, b: seq<Slot>, q: nat)
    requires Family0(s, p) && View(s, p, ok, b) && q < |b| && q != p
    ensures Passing(q, b[q].pc, b, s.init)
  {
    PcKept(s, p, ok, b, q);
    assert Passing(q, s.slots[q].pc, s.slots, s.init);
    if b[q].pc.EChild? || b[q].pc.EInit? || b[q].pc.EZombie? || b[q].pc.ESched? {
      forall z | 0 <= z < |b| && s.slots[z].parent != q ensures b[z].parent != q { NoNewChild(s, p, ok, b, q, z); }
    }
  }

  predicate ExitMove(pc: Pc, pc': Pc, n: nat) {
    && (pc'.EWake? ==> pc.EWake?)
    && (pc'.EChild? ==>
       (pc.EWake? && pc'.i == 0) || ((pc.EChild? || pc.EInit?) && pc'.i == pc.i + 1 && (pc.EChild? ==> pc.i < n)))
    && (pc'.EInit? ==> (pc.EChild? || pc.EInit?) && pc'.i == pc.i && (pc.EChild? ==> pc.i < n))
    && (pc'.EZombie? ==> pc.EChild? && pc.i >= n) && (pc'.ESched? ==> pc.EZombie?)
  }

  lemma OwnExit(s: State, p: nat, ok: bool, b: seq<Slot>)
    requires Making0(s, p) && View(s, p, ok, b)
    ensures ExitMove(s.slots[p].pc, b[p].pc, |b|)
  {
    assert Detail(0);
    var me, i := s.slots[p], Subject(s.slots[p].pc);
    ExitMoves(me.pc, me, p, if 0 <= i < |b| then s.slots[i] else me, |b|, ok);
  }

  lemma ChildPassed(s: State, p: nat, ok: bool, b: seq<Slot>)
    requires Making0(s, p) && View(s, p, ok, b) && s.slots[p].pc.EChild? && s.slots[p].pc.i < |b|
    requires Passing(p, s.slots[p].pc, s.slots, s.init) && Child(p, s.slots[p], s.slots, s.init)
    ensures b[s.slots[p].pc.i].parent != p
  {
    assert Detail(0);
  }

  lemma SelfPassing(s: State, p: nat, ok: bool, b: seq<Slot>)
    requires Making0(s, p) && View(s, p, ok, b) && Passing(p, s.slots[p].pc, s.slots, s.init) &&
             Child(p, s.slots[p], s.slots, s.init)
    ensures Passing(p, b[p].pc, b, s.init)
  {
    var pc := s.slots[p].pc;
    OwnExit(s, p, ok, b);
    if pc.EWake? || pc.EChild? || pc.EInit? || pc.EZombie? {
      forall z | 0 <= z < |b| && s.slots[z].parent != p ensures b[z].parent != p { NoNewChild(s, p, ok, b, p, z); }
      if pc.EChild? && pc.i < |b| { ChildPassed(s, p, ok, b); }
    }
  }

  /** exit goes from statement to statement. */
  lemma ExitMoves(pc: Pc, me: Slot, p: nat, x: Slot, n: nat, ok: bool)
    requires Sound(pc) && pc != User
    ensures ExitMove(pc, NextPc(pc, me, p, x, n, ok), n)
  {
  }

  lemma GoKeeps(s: State, c: nat, p: nat, ok: bool)
    requires FamilyOk(s) && Going(s, c, p, ok)
    ensures FamilyOk(ThreadStep(s, c, Go(ok)))
  {
    var b := ThreadStep(s, c, Go(ok)).slots;
    StepView(s, c, p, ok);
    Setting(s, c, p, ok);
    ThreadSafe(s, c, Go(ok));
    MakerKeeps(s, p, ok, b);
    ReapKeeps(s, p, ok, b);
    OwnsKeeps(s, p, ok, b);
    TreeKeeps(s, p, ok, b);
    PassingKeeps(s, p, ok, b);
  }

  // Steps that move a process or a CPU along without touching the family.

  /** Slot p changes in ways the family does not see. */
  predicate Similar(p: nat, x: Slot, y: Slot, init: nat) {
    && y.parent == x.parent && y.kstack == x.kstack && y.pgdir == x.pgdir && y.maker == x.maker && y.pid == x.pid &&
       y.chan == x.chan
    && Live(x.state) && Live(y.state) && (x.state.Sleeping? <==> y.state.Sleeping?)
    && Making(y.pc) == Making(x.pc) && (Making(x.pc) >= 0 ==> Base(y.pc) == Base(x.pc))
    && (y.pc == x.pc ||
       (Reaping(x.pc) == Reaping(y.pc) == NONE && Plain(x.pc) &&
       (Plain(y.pc) || y.pc == WScan(0, false) || (y.pc == EWake(0) && p != init))))
  }

  /** Not a point of exit, nor of wait's scan or sleep. */
  predicate Plain(pc: Pc) {
    !(pc.EWake? || pc.EChild? || pc.EInit? || pc.EZombie? || pc.ESched? || pc.WScan? || pc.WSet? || pc.WSched? ||
        pc.WBack?)
  }

  lemma SimilarKeeps(slots: seq<Slot>, p: nat, y: Slot, init: nat)
    requires MakerOk(slots) && ReapOk(slots) && OwnsOk(slots) && TreeOk(slots, init) && PassingOk(slots, init)
    requires p < |slots| && Similar(p, slots[p], y, init)
    ensures var b := slots[p := y]; MakerOk(b) && ReapOk(b) && OwnsOk(b) && TreeOk(b, init) && PassingOk(b, init)
  {
    var b := slots[p := y];
    SimilarMaker(slots, p, y, init);
    forall i | 0 <= i < |b| ensures Owns(i, b[i], b) && Child(i, b[i], b, init) && Passing(i, b[i].pc, b, init) {
      assert Owns(i, slots[i], slots) && Child(i, slots[i], slots, init) && Passing(i, slots[i].pc, slots, init);
    }
  }

  lemma SimilarMaker(slots: seq<Slot>, p: nat, y: Slot, init: nat)
    requires MakerOk(slots) && ReapOk(slots) && p < |slots| && Similar(p, slots[p], y, init)
    ensures MakerOk(slots[p := y]) && ReapOk(slots[p := y])
  {
    var b := slots[p := y];
    forall f | 0 <= f < |b| && Making(b[f].pc) >= 0
      ensures Making(b[f].pc) < |b| && Stage(Base(b[f].pc), b[Making(b[f].pc)], f)
    {
      assert Stage(Base(slots[f].pc), slots[Making(slots[f].pc)], f);
    }
  }

  lemma EnterSimilar(s: State, c: nat, a: Act)
    requires FamilyOk(s) && ThreadEnabled(s, c, a) && !a.Go?
    ensures var p := s.cpus[c].thread; ThreadStep(s, c, a).slots == s.slots[p := ThreadStep(s, c, a).slots[p]]
    ensures var p := s.cpus[c].thread; Similar(p, s.slots[p], ThreadStep(s, c, a).slots[p], s.init)
  {
    var p := s.cpus[c].thread;
    Current(s, c, p);
    if a.Enter? { EnterPc(p, s.slots[p], a.call, s.init); } else { TickPc(p, s.slots[p], s.init); }
  }

  lemma EnterPc(p: nat, x: Slot, call: Call, init: nat)
    requires x.pc == User && x.state.Running? && (call.CExit? ==> p != init)
    ensures Similar(p, x, x.(pc := Entry(call)), init)
  {
  }

  lemma TickPc(p: nat, x: Slot, init: nat)
    requires !InLock(x.pc) && x.state.Running?
    ensures Similar(p, x, x.(pc := YSet(x.pc)), init)
  {
  }

  lemma EnterKeeps(s: State, c: nat, a: Act)
    requires FamilyOk(s) && ThreadEnabled(s, c, a) && !a.Go?
    ensures FamilyOk(ThreadStep(s, c, a))
  {
    var p := s.cpus[c].thread;
    EnterSimilar(s, c, a);
    ThreadSafe(s, c, a);
    SimilarKeeps(s.slots, p, ThreadStep(s, c, a).slots[p], s.init);
  }

  /** The scheduler changes the slot it has picked from RUNNABLE to RUNNING, and its `on`. */
  lemma ScheduleKeeps(s: State, c: nat)
    requires FamilyOk(s) && SchedulerEnabled(s, c)
    ensures FamilyOk(SchedulerStep(s, c))
  {
    var t, k := SchedulerStep(s, c), s.cpus[c];
    SchedulerSafe(s, c);
    assert CpuOk(c, k, s.slots, s.lock);
    if k.spc.Pick? || k.spc.SetRun? || k.spc.Clear? {
      SlotKeeps(s.slots, k.spc.i, t.slots[k.spc.i], s.init);
    }
  }

  /** As Similar, for a process that may be a zombie: nothing but `on` and a live state changes. */
  predicate Rescheduled(x: Slot, y: Slot) {
    y == x.(on := y.on, state := y.state) && (y.state == x.state || (x.state.Runnable? && y.state.Running?))
  }

  lemma SlotKeeps(slots: seq<Slot>, p: nat, y: Slot, init: nat)
    requires MakerOk(slots) && ReapOk(slots) && OwnsOk(slots) && TreeOk(slots, init) && PassingOk(slots, init)
    requires p < |slots| && Rescheduled(slots[p], y)
    ensures var b := slots[p := y]; MakerOk(b) && ReapOk(b) && OwnsOk(b) && TreeOk(b, init) && PassingOk(b, init)
  {
    var b := slots[p := y];
    SlotMaker(slots, p, y);
    forall i | 0 <= i < |b| ensures Owns(i, b[i], b) && Child(i, b[i], b, init) && Passing(i, b[i].pc, b, init) {
      assert Owns(i, slots[i], slots) && Child(i, slots[i], slots, init) && Passing(i, slots[i].pc, slots, init);
    }
  }

  lemma SlotMaker(slots: seq<Slot>, p: nat, y: Slot)
    requires MakerOk(slots) && ReapOk(slots) && p < |slots| && Rescheduled(slots[p], y)
    ensures MakerOk(slots[p := y]) && ReapOk(slots[p := y])
  {
    var b := slots[p := y];
    forall f | 0 <= f < |b| && Making(b[f].pc) >= 0
      ensures Making(b[f].pc) < |b| && Stage(Base(b[f].pc), b[Making(b[f].pc)], f)
    {
      assert Stage(Base(slots[f].pc), slots[Making(slots[f].pc)], f);
    }
  }
}
