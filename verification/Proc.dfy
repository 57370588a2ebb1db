/** proc.c as interleaved steps of any number of CPUs over any number of process slots. A CPU runs either
    its scheduler thread or the kernel thread of one process; ptable.lock belongs to a CPU and stays with
    it across swtch. A program counter names the next statement (one round of a loop over the table is one
    step); accesses made without ptable.lock are steps of their own. */
module Proc {

  const NONE := -1

  datatype PState = Unused | Embryo | Sleeping | Runnable | Running | Zombie

  datatype Chan = NoChan | OfProc(p: nat) | Other(k: int)

  datatype Pc =
    | User                              // code that does not touch the process table
    | YSet(k: Pc)                       // yield, under the lock: myproc()->state = RUNNABLE
    | YSched(k: Pc)                     //   sched()
    | YBack(k: Pc)                      //   release; then back to k
    | SSet(chan: Chan)                  // sleep, under the lock: p->chan = chan, p->state = SLEEPING
    | SSched                            //   sched()
    | SBack                             //   p->chan = 0
    | KWake(chan: Chan, i: nat)         // wakeup: wakeup1's loop
    | KKill(pid: nat, i: nat)           // kill's loop
    | Unlock                            // release(&ptable.lock)
    | FScan(i: nat)                     // fork, allocproc: look for an UNUSED slot
    | FUnlock(i: nat)                   //   release
    | FStack(i: nat)                    //   p->kstack = kalloc()
    | FVm(i: nat)                       //   np->pgdir = copyuvm(...)
    | FFree(i: nat)                     //   kfree(np->kstack)
    | FUndo(i: nat)                     //   state = UNUSED
    | FParent(i: nat)                   //   np->parent = curproc
    | FLock(i: nat)                     //   acquire
    | FReady(i: nat)                    //   np->state = RUNNABLE
    | EWake(i: nat)                     // exit: wakeup1(curproc->parent)
    | EChild(i: nat)                    //   pass child i to init
    | EInit(i: nat, j: nat)             //     wakeup1(initproc)
    | EZombie                           //   curproc->state = ZOMBIE
    | ESched                            //   sched()
    | Dead                              //   never resumed
    | WScan(i: nat, kids: bool)         // wait: look for an exited child
    | WStack(i: nat)                    //   kfree(p->kstack)
    | WVm(i: nat)                       //   freevm(p->pgdir)
    | WClear(i: nat)                    //   pid, parent, killed cleared, state = UNUSED
    | WSet                              //   sleep(curproc, &ptable.lock)
    | WSched                            //     sched()
    | WBack                             //     p->chan = 0
    | ForkRet                           // forkret: release(&ptable.lock)

  /** A CPU's scheduler thread. */
  datatype SPc =
    | Idle                              // before acquire
    | Scan(i: nat)                      // looking at slot i
    | Pick(i: nat)                      // c->proc = p
    | Uvm(i: nat)                       // switchuvm(p)
    | SetRun(i: nat)                    // p->state = RUNNING
    | Swtch(i: nat)                     // swtch to p
    | InSwtch(i: nat)                   // switched out
    | Back(i: nat)                      // switchkvm()
    | Clear(i: nat)                     // c->proc = 0

  /** kstack and pgdir say whether the slot has them. `on` is the CPU whose c->proc is this slot, `maker` the
      process whose fork allocated the slot. */
  datatype Slot = Slot(state: PState, pid: nat, parent: int, chan: Chan, killed: bool, kstack: bool, pgdir: bool,
      pc: Pc, on: int, maker: int)

  /** `proc` is c->proc, `thread` the process whose kernel stack the CPU is on (NONE: the scheduler's), `cr3` the
      process whose page directory is loaded (NONE: the kernel's). */
  datatype Cpu = Cpu(proc: int, thread: int, cr3: int, spc: SPc)

  datatype State = State(slots: seq<Slot>, cpus: seq<Cpu>, lock: int, nextpid: nat, init: nat, reaped: seq<nat>)

  /** ptable.lock is held at this point of a process. */
  predicate InLock(pc: Pc) {
    !(pc.User? || pc.FStack? || pc.FVm? || pc.FFree? || pc.FUndo? || pc.FParent? || pc.FLock? || pc.Dead?)
  }

  /** The points at which a process that is switched in comes back. */
  predicate Resume(pc: Pc) { (pc.YBack? && !InLock(pc.k) && !pc.k.Dead?) || pc.SBack? || pc.WBack? || pc.ForkRet? }

  /** The state a process has while it executes at this point. */
  function StateAt(pc: Pc): PState {
    if pc.YSched? then Runnable
    else if pc.SSched? || pc.WSched? then Sleeping
    else if pc.ESched? then Zombie
    else Running
  }

  /** Where the process is, under a yield that the timer forced on it. */
  function Base(pc: Pc): Pc {
    if pc.YSet? || pc.YSched? || pc.YBack? then pc.k else pc
  }

  predicate CpuLocked(k: Cpu, slots: seq<Slot>)
    requires k.thread < |slots|
  {
    if k.thread >= 0 then InLock(slots[k.thread].pc) else k.spc != Idle
  }

  predicate Live(st: PState) { st.Sleeping? || st.Runnable? || st.Running? }

  // The scheduler's invariant.

  predicate CpuOk(c: nat, k: Cpu, slots: seq<Slot>, lock: int) {
    && NONE <= k.thread < |slots| && NONE <= k.proc < |slots|
    && (k.proc >= 0 ==> slots[k.proc].on == c)
    && (lock == c <==> CpuLocked(k, slots))
    && if k.thread >= 0 then k.thread == k.proc == k.cr3 && k.spc == InSwtch(k.thread)
       else match k.spc
         case Idle => k.proc == k.cr3 == NONE
         case Scan(i) => k.proc == k.cr3 == NONE && i <= |slots|
         case Pick(i) => k.proc == k.cr3 == NONE && i < |slots| && slots[i].state == Runnable
         case Uvm(i) => k.proc == i && k.cr3 == NONE && slots[i].state == Runnable
         case SetRun(i) => k.proc == k.cr3 == i && slots[i].state == Runnable
         case Swtch(i) => k.proc == k.cr3 == i && slots[i].state == Running
         case InSwtch(i) => false
         case Back(i) => k.proc == k.cr3 == i && slots[i].state != Running
         case Clear(i) => k.proc == i && k.cr3 == NONE && slots[i].state != Running
  }

  /** The process executes on the CPU that has it as current. */
  predicate Active(p: nat, x: Slot, cpus: seq<Cpu>) {
    0 <= x.on < |cpus| && cpus[x.on].thread == p
  }

  predicate SlotOk(p: nat, x: Slot, cpus: seq<Cpu>, lock: int) {
    && x.on >= NONE && (x.on >= 0 ==> x.on < |cpus| && cpus[x.on].proc == p && (Live(x.state) || x.state.Zombie?))
    && (x.state.Running? ==> x.on >= 0)
    && (x.on >= 0 && !x.state.Running? ==> lock == x.on)
    && if Active(p, x, cpus) then x.state == StateAt(x.pc) && Sound(x.pc)
       else RestPc(x)
  }

  /** A point that an executing process can be at: yield was entered from code without the lock. */
  predicate Sound(pc: Pc) { !pc.Dead? && (pc.YSet? || pc.YSched? || pc.YBack? ==> !InLock(pc.k) && !pc.k.Dead?) }

  /** A process that no CPU executes. */
  predicate RestPc(x: Slot) {
    (Resume(x.pc) || x.pc.Dead?) && (Live(x.state) ==> Resume(x.pc)) && (x.state.Zombie? ==> x.pc.Dead?)
  }

  predicate SchedOk(slots: seq<Slot>, cpus: seq<Cpu>, lock: int) {
    && (forall c :: 0 <= c < |cpus| ==> CpuOk(c, cpus[c], slots, lock))
    && (forall p :: 0 <= p < |slots| ==> SlotOk(p, slots[p], cpus, lock))
    && NONE <= lock < |cpus|
  }

  // How single changes keep it.

  /** Process p, executing on CPU c, moves on. */
  lemma OwnKeeps(slots: seq<Slot>, cpus: seq<Cpu>, lock: int, lock': int, c: nat, p: nat, y: Slot)
    requires SchedOk(slots, cpus, lock) && c < |cpus| && p < |slots| && cpus[c].thread == p
    requires y.on == slots[p].on && y.state == StateAt(y.pc) && Sound(y.pc) && (!y.state.Running? ==> lock' == c)
    requires
      || (lock' == lock && InLock(y.pc) == InLock(slots[p].pc))
      || (lock == NONE && lock' == c && InLock(y.pc))
      || (lock == c && lock' == NONE && !InLock(y.pc))
    ensures SchedOk(slots[p := y], cpus, lock')
  {
    var slots' := slots[p := y];
    assert CpuOk(c, cpus[c], slots, lock) && SlotOk(p, slots[p], cpus, lock);
    forall d | 0 <= d < |cpus| ensures CpuOk(d, cpus[d], slots', lock') {
      assert CpuOk(d, cpus[d], slots, lock);
    }
    forall q | 0 <= q < |slots'| ensures SlotOk(q, slots'[q], cpus, lock') {
      assert SlotOk(q, slots[q], cpus, lock);
    }
  }

  /** A slot that is not current on any CPU changes state. */
  lemma OtherKeeps(slots: seq<Slot>, cpus: seq<Cpu>, lock: int, i: nat, x: Slot)
    requires SchedOk(slots, cpus, lock) && i < |slots| && slots[i].on == NONE == x.on && !slots[i].state.Runnable?
    requires !x.state.Running? && RestPc(x)
    ensures SchedOk(slots[i := x], cpus, lock)
  {
    var slots' := slots[i := x];
    forall d | 0 <= d < |cpus| ensures CpuOk(d, cpus[d], slots', lock) {
      assert CpuOk(d, cpus[d], slots, lock);
    }
    forall q | 0 <= q < |slots'| ensures SlotOk(q, slots'[q], cpus, lock) {
      assert SlotOk(q, slots[q], cpus, lock);
    }
  }

  /** Fields the scheduler does not look at. */
  lemma FieldsKeep(slots: seq<Slot>, cpus: seq<Cpu>, lock: int, i: nat, x: Slot)
    requires SchedOk(slots, cpus, lock) && i < |slots| && x.on == slots[i].on && x.state == slots[i].state &&
             x.pc == slots[i].pc
    ensures SchedOk(slots[i := x], cpus, lock)
  {
    var slots' := slots[i := x];
    forall d | 0 <= d < |cpus| ensures CpuOk(d, cpus[d], slots', lock) {
      assert CpuOk(d, cpus[d], slots, lock);
    }
    forall q | 0 <= q < |slots'| ensures SlotOk(q, slots'[q], cpus, lock) {
      assert SlotOk(q, slots[q], cpus, lock);
    }
  }

  /** sched: p's CPU goes back to its scheduler with ptable.lock still held. */
  lemma SwitchOutKeeps(slots: seq<Slot>, cpus: seq<Cpu>, lock: int, c: nat, p: nat, y: Slot)
    requires SchedOk(slots, cpus, lock) && c < |cpus| && p < |slots| && cpus[c].thread == p && lock == c
    requires y.on == slots[p].on && y.state == slots[p].state != Running
    requires RestPc(y)
    ensures SchedOk(slots[p := y], cpus[c := cpus[c].(thread := NONE, spc := Back(p))], lock)
  {
    var slots', cpus' := slots[p := y], cpus[c := cpus[c].(thread := NONE, spc := Back(p))];
    assert CpuOk(c, cpus[c], slots, lock) && SlotOk(p, slots[p], cpus, lock);
    forall d | 0 <= d < |cpus'| ensures CpuOk(d, cpus'[d], slots', lock) {
      assert CpuOk(d, cpus[d], slots, lock);
    }
    forall q | 0 <= q < |slots'| ensures SlotOk(q, slots'[q], cpus', lock) {
      assert SlotOk(q, slots[q], cpus, lock);
    }
  }

  /** A step of the scheduler thread of CPU c; i is the slot it is looking at. */
  lemma SchedulerKeeps(slots: seq<Slot>, cpus: seq<Cpu>, lock: int, c: nat, i: nat, x: Slot, k: Cpu, lock': int)
    requires SchedOk(slots, cpus, lock) && c < |cpus| && i < |slots| && cpus[c].thread == NONE
    requires lock == c || (lock == NONE && lock' == c)
    requires lock' == c || (lock' == NONE && k.thread == NONE)
    requires x == slots[i] || (slots[i].on in {NONE, c} && x.on in {NONE, c} && x.pc == slots[i].pc)
    requires CpuOk(c, k, slots[i := x], lock') && SlotOk(i, x, cpus[c := k], lock')
    requires cpus[c].proc in {NONE, i} && k.proc in {NONE, i} && k.thread in {NONE, i}
    ensures SchedOk(slots[i := x], cpus[c := k], lock')
  {
    var slots', cpus' := slots[i := x], cpus[c := k];
    assert CpuOk(c, cpus[c], slots, lock) && SlotOk(i, slots[i], cpus, lock);
    forall d | 0 <= d < |cpus'| ensures CpuOk(d, cpus'[d], slots', lock') {
      assert CpuOk(d, cpus[d], slots, lock);
    }
    forall q | 0 <= q < |slots'| ensures SlotOk(q, slots'[q], cpus', lock') {
      assert SlotOk(q, slots[q], cpus, lock);
    }
  }

  // Steps.

  function Put(s: State, i: nat, x: Slot): State
    requires i < |s.slots|
  {
    s.(slots := s.slots[i := x])
  }

  /** The scheduler thread of CPU c. */
  predicate SchedulerEnabled(s: State, c: nat) {
    && c < |s.cpus| && s.cpus[c].thread == NONE && !s.cpus[c].spc.InSwtch?
    && (s.cpus[c].spc.Idle? ==> s.lock == NONE)
    && (s.cpus[c].spc.Idle? || s.cpus[c].spc.Scan? || s.cpus[c].spc.i < |s.slots|)
  }

  function SchedulerStep(s: State, c: nat): State
    requires SchedulerEnabled(s, c)
  {
    var k := s.cpus[c];
    match k.spc
    case Idle => s.(lock := c, cpus := s.cpus[c := k.(spc := Scan(0))])
    case Scan(i) =>
      if i >= |s.slots| then s.(lock := NONE, cpus := s.cpus[c := k.(spc := Idle)])
      else s.(cpus := s.cpus[c := k.(spc := if s.slots[i].state.Runnable? then Pick(i) else Scan(i + 1))])
    case Pick(i) => Put(s, i, s.slots[i].(on := c)).(cpus := s.cpus[c := k.(proc := i, spc := Uvm(i))])
    case Uvm(i) => s.(cpus := s.cpus[c := k.(cr3 := i, spc := SetRun(i))])
    case SetRun(i) => Put(s, i, s.slots[i].(state := Running)).(cpus := s.cpus[c := k.(spc := Swtch(i))])
    case Swtch(i) => s.(cpus := s.cpus[c := k.(thread := i, spc := InSwtch(i))])
    case Back(i) => s.(cpus := s.cpus[c := k.(cr3 := NONE, spc := Clear(i))])
    case Clear(i) => Put(s, i, s.slots[i].(on := NONE)).(cpus := s.cpus[c := k.(proc := NONE, spc := Scan(i + 1))])
  }

  lemma SchedulerSafe(s: State, c: nat)
    requires SchedOk(s.slots, s.cpus, s.lock) && SchedulerEnabled(s, c)
    ensures var t := SchedulerStep(s, c); SchedOk(t.slots, t.cpus, t.lock)
  {
    var k, t := s.cpus[c], SchedulerStep(s, c);
    assert CpuOk(c, k, s.slots, s.lock);
    if k.spc.Idle? || k.spc.Scan? {
      IdleKeeps(s, c, t.cpus[c], t.lock);
    } else {
      var i := k.spc.i;
      assert SlotOk(i, s.slots[i], s.cpus, s.lock);
      assert s.slots[i := s.slots[i]] == s.slots;
      SchedulerKeeps(s.slots, s.cpus, s.lock, c, i, t.slots[i], t.cpus[c], t.lock);
    }
  }

  lemma IdleKeeps(s: State, c: nat, k: Cpu, lock': int)
    requires SchedOk(s.slots, s.cpus, s.lock) && SchedulerEnabled(s, c)
    requires s.cpus[c].spc.Idle? || s.cpus[c].spc.Scan?
    requires k == SchedulerStep(s, c).cpus[c] && lock' == SchedulerStep(s, c).lock
    ensures SchedOk(s.slots, s.cpus[c := k], lock')
  {
    var cpus' := s.cpus[c := k];
    assert CpuOk(c, s.cpus[c], s.slots, s.lock);
    forall d | 0 <= d < |cpus'| ensures CpuOk(d, cpus'[d], s.slots, lock') {
      assert CpuOk(d, s.cpus[d], s.slots, s.lock);
    }
    forall q | 0 <= q < |s.slots| ensures SlotOk(q, s.slots[q], cpus', lock') {
      assert SlotOk(q, s.slots[q], s.cpus, s.lock);
    }
  }

  // The kernel thread of a process.

  datatype Call = CSleep(k: int) | CWakeup(k: int) | CKill(pid: nat) | CFork | CExit | CWait

  /** Go executes the next statement; ok says whether an allocation in it succeeds. */
  datatype Act = Schedule | Enter(call: Call) | Tick | Go(ok: bool)

  function Entry(call: Call): Pc {
    match call
    case CSleep(k) => SSet(Other(k))
    case CWakeup(k) => KWake(Other(k), 0)
    case CKill(pid) => KKill(pid, 0)
    case CFork => FScan(0)
    case CExit => EWake(0)
    case CWait => WScan(0, false)
  }

  /** The slot that the statement at pc is about. */
  function Subject(pc: Pc): int {
    match pc
    case KWake(_, i) => i
    case KKill(_, i) => i
    case FScan(i) => i
    case FStack(i) => i
    case FVm(i) => i
    case FFree(i) => i
    case FUndo(i) => i
    case FParent(i) => i
    case FReady(i) => i
    case EWake(i) => i
    case EChild(i) => i
    case EInit(_, j) => j
    case WScan(i, _) => i
    case WStack(i) => i
    case WVm(i) => i
    case WClear(i) => i
    case _ => NONE
  }

  predicate Switches(pc: Pc) { pc.YSched? || pc.SSched? || pc.WSched? || pc.ESched? }

  function ParentChan(x: Slot): Chan { if x.parent >= 0 then OfProc(x.parent) else NoChan }

  function Woken(x: Slot, chan: Chan): Slot {
    if x.state.Sleeping? && x.chan == chan then x.(state := Runnable) else x
  }

  /** What the statement of process p at pc makes of slot x; `chan` is curproc's parent as a channel. */
  function Changed(x: Slot, pc: Pc, p: nat, chan: Chan, init: nat, nextpid: nat, ok: bool): Slot {
    match pc
    case KWake(ch, _) => Woken(x, ch)
    case KKill(pid, _) =>
      if x.pid == pid then x.(killed := true, state := if x.state.Sleeping? then Runnable else x.state) else x
    case FScan(_) => if x.state.Unused? then x.(state := Embryo, pid := nextpid, maker := p) else x
    case FStack(_) => if ok then x.(kstack := true, pc := ForkRet) else x.(kstack := false)
    case FVm(_) => x.(pgdir := ok)
    case FFree(_) => x.(kstack := false)
    case FUndo(_) => x.(state := Unused)
    case FParent(_) => x.(parent := p)
    case FReady(_) => x.(state := Runnable)
    case EWake(_) => Woken(x, chan)
    case EChild(_) => if x.parent == p then x.(parent := init) else x
    case EInit(_, _) => Woken(x, OfProc(init))
    case WStack(_) => x.(kstack := false)
    case WVm(_) => x.(pgdir := false)
    case WClear(_) => x.(pid := 0, parent := NONE, killed := false, state := Unused)
    case _ => x
  }

  /** The point after the statement at pc; x is the slot it is about (curproc's own if the loop is over). */
  function NextPc(pc: Pc, me: Slot, p: nat, x: Slot, n: nat, ok: bool): Pc {
    match pc
    case User => User
    case YSet(k) => YSched(k)
    case YSched(k) => YBack(k)
    case YBack(k) => k
    case SSet(_) => SSched
    case SSched => SBack
    case SBack => Unlock
    case KWake(ch, i) => if i < n then KWake(ch, i + 1) else Unlock
    case KKill(pid, i) => if i < n && x.pid != pid then KKill(pid, i + 1) else Unlock
    case Unlock => User
    case FScan(i) => if i >= n then Unlock else if x.state.Unused? then FUnlock(i) else FScan(i + 1)
    case FUnlock(i) => FStack(i)
    case FStack(i) => if ok then FVm(i) else FUndo(i)
    case FVm(i) => if ok then FParent(i) else FFree(i)
    case FFree(i) => FUndo(i)
    case FUndo(_) => User
    case FParent(i) => FLock(i)
    case FLock(i) => FReady(i)
    case FReady(_) => Unlock
    case EWake(i) => if i < n then EWake(i + 1) else EChild(0)
    case EChild(i) => if i >= n then EZombie
        else if x.parent == p && x.state.Zombie? then EInit(i, 0) else EChild(i + 1)
    case EInit(i, j) => if j < n then EInit(i, j + 1) else EChild(i + 1)
    case EZombie => ESched
    case ESched => Dead
    case Dead => Dead
    case WScan(i, kids) =>
      if i >= n then (if !kids || me.killed then Unlock else WSet)
      else if x.parent != p then WScan(i + 1, kids)
      else if x.state.Zombie? then WStack(i)
      else WScan(i + 1, true)
    case WStack(i) => WVm(i)
    case WVm(i) => WClear(i)
    case WClear(_) => Unlock
    case WSet => WSched
    case WSched => WBack
    case WBack => WScan(0, false)
    case ForkRet => User
  }

  function NewState(st: PState, pc: Pc): PState {
    if pc.YSet? then Runnable else if pc.SSet? || pc.WSet? then Sleeping else if pc.EZombie? then Zombie else st
  }

  function NewChan(chan: Chan, pc: Pc, p: nat): Chan {
    if pc.SSet? then pc.chan else if pc.WSet? then OfProc(p) else if pc.SBack? || pc.WBack? then NoChan else chan
  }

  /** Curproc's own slot x after the statement at pc. */
  function Moved(x: Slot, pc: Pc, p: nat, pc': Pc): Slot {
    x.(pc := pc', state := NewState(x.state, pc), chan := NewChan(x.chan, pc, p))
  }

  /** The table after the statement's effect on the slot it is about. */
  function Effect(s: State, p: nat, ok: bool): seq<Slot>
    requires p < |s.slots|
  {
    var pc := s.slots[p].pc;
    var i := Subject(pc);
    if 0 <= i < |s.slots| then s.slots[i := Changed(s.slots[i], pc, p, ParentChan(s.slots[p]), s.init, s.nextpid, ok)]
    else s.slots
  }

  function LockAfter(pc: Pc, c: nat, lock: int): int {
    if pc.YBack? || pc.Unlock? || pc.FUnlock? || pc.ForkRet? then NONE else if pc.FLock? then c else lock
  }

  predicate ThreadEnabled(s: State, c: nat, a: Act) {
    && c < |s.cpus| && 0 <= s.cpus[c].thread < |s.slots|
    && var p := s.cpus[c].thread; var pc := s.slots[p].pc;
       match a
       case Schedule => false
       case Enter(call) => pc == User && s.lock == NONE && (call.CExit? ==> p != s.init)
       case Tick => !InLock(pc) && s.lock == NONE
       case Go(_) => pc != User && (pc.FLock? ==> s.lock == NONE)
  }

  function ThreadStep(s: State, c: nat, a: Act): State
    requires ThreadEnabled(s, c, a)
  {
    var p := s.cpus[c].thread;
    var me := s.slots[p];
    match a
    case Enter(call) => s.(lock := c, slots := s.slots[p := me.(pc := Entry(call))])
    case Tick => s.(lock := c, slots := s.slots[p := me.(pc := YSet(me.pc))])
    case Go(ok) =>
      var pc, i, n := me.pc, Subject(me.pc), |s.slots|;
      var x := if 0 <= i < n then s.slots[i] else me;
      var slots := Effect(s, p, ok);
      State(
        slots[p := Moved(slots[p], pc, p, NextPc(pc, me, p, x, n, ok))],
        if Switches(pc) then s.cpus[c := s.cpus[c].(thread := NONE, spc := Back(p))] else s.cpus,
        LockAfter(pc, c, s.lock),
        if pc.FScan? && i < n && x.state.Unused? then s.nextpid + 1 else s.nextpid,
        s.init,
        if pc.WClear? && 0 <= i < n then s.reaped + [x.pid] else s.reaped)
  }

  // Slots under construction and slots being reaped.

  /** The slot that a fork in progress has allocated. */
  function Making(pc: Pc): int {
    var b := Base(pc);
    if b.FUnlock? || b.FStack? || b.FVm? || b.FFree? || b.FUndo? || b.FParent? || b.FLock? || b.FReady? then b.i
    else NONE
  }

  /** What f, at point pc of fork, knows of its new slot. */
  predicate Stage(pc: Pc, x: Slot, f: nat) {
    && x.state.Embryo? && x.maker == f && (x.pc.ForkRet? || x.pc.Dead?)
    && (x.kstack <==> pc.FVm? || pc.FFree? || pc.FParent? || pc.FLock? || pc.FReady?)
    && (x.kstack ==> x.pc.ForkRet?)
    && (x.pgdir <==> pc.FParent? || pc.FLock? || pc.FReady?)
    && x.parent == (if pc.FLock? || pc.FReady? then f else NONE)
  }

  predicate MakerOk(slots: seq<Slot>) {
    && (forall f :: 0 <= f < |slots| && Making(slots[f].pc) >= 0 ==>
          Making(slots[f].pc) < |slots| && Stage(Base(slots[f].pc), slots[Making(slots[f].pc)], f))
    && (forall i ::
       0 <= i < |slots| && slots[i].state.Embryo? ==>
       0 <= slots[i].maker < |slots| && Making(slots[slots[i].maker].pc) == i)
  }

  /** The slot that a wait in progress is freeing. */
  function Reaping(pc: Pc): int {
    if pc.WStack? || pc.WVm? || pc.WClear? then pc.i else NONE
  }

  /** What w, at point pc of wait, knows of the slot it frees. */
  predicate ReapStage(pc: Pc, x: Slot, w: nat) {
    x.state.Zombie? && x.pc.Dead? && x.parent == w && (x.kstack <==> pc.WStack?) && (x.pgdir <==> !pc.WClear?)
  }

  predicate ReapOk(slots: seq<Slot>) {
    forall w :: 0 <= w < |slots| && Reaping(slots[w].pc) >= 0 ==>
      Reaping(slots[w].pc) < |slots| && ReapStage(slots[w].pc, slots[Reaping(slots[w].pc)], w)
  }

  /** CPU c executes process p, which holds ptable.lock: every other process is switched out or in code that
      does without the lock. */
  lemma Lone(s: State, c: nat, p: nat, q: nat)
    requires SchedOk(s.slots, s.cpus, s.lock) && c < |s.cpus| && s.cpus[c].thread == p && s.lock == c &&
             q < |s.slots| && q != p
    ensures Resume(s.slots[q].pc) || !InLock(s.slots[q].pc)
    ensures s.slots[q].on == c ==> s.cpus[c].proc == q
  {
    assert SlotOk(q, s.slots[q], s.cpus, s.lock) && CpuOk(c, s.cpus[c], s.slots, s.lock);
    if s.slots[q].on >= 0 {
      assert CpuOk(s.slots[q].on, s.cpus[s.slots[q].on], s.slots, s.lock);
    }
  }

  /** The ways a statement changes the state or the saved context of the slot it is about. */
  lemma ChangedHow(x: Slot, pc: Pc, p: nat, chan: Chan, init: nat, nextpid: nat, ok: bool)
    ensures var x' := Changed(x, pc, p, chan, init, nextpid, ok);
      && x'.on == x.on
      && (|| (x'.state == x.state && x'.pc == x.pc)
          || (x.state.Sleeping? && x'.state.Runnable? && x'.pc == x.pc && InLock(pc) && !Switches(pc))
          || (x.state.Unused? && x'.state.Embryo? && x'.pc == x.pc && pc.FScan?)
          || (x'.state.Unused? && x'.pc == x.pc && pc.WClear?)
          || (x'.state == x.state && x'.pc.ForkRet? && pc.FStack?)
          || (x'.state.Unused? && x'.pc == x.pc && pc.FUndo?)
          || (x'.state.Runnable? && x'.pc == x.pc && pc.FReady?))
  {
  }

  lemma ChangeSafe(s: State, c: nat, p: nat, i: nat, ok: bool)
    requires SchedOk(s.slots, s.cpus, s.lock) && MakerOk(s.slots) && ReapOk(s.slots)
    requires c < |s.cpus| && p < |s.slots| && s.cpus[c].thread == p && i < |s.slots| && Subject(s.slots[p].pc) == i
    ensures var x, x' := s.slots[i],
            Changed(s.slots[i], s.slots[p].pc, p, ParentChan(s.slots[p]), s.init, s.nextpid, ok);
      x'.on == x.on && (x'.state != x.state || x'.pc != x.pc ==>
        i != p && x.on == NONE && !x.state.Runnable? && !x'.state.Running? && RestPc(x'))
  {
    var pc, x := s.slots[p].pc, s.slots[i];
    ChangedHow(x, pc, p, ParentChan(s.slots[p]), s.init, s.nextpid, ok);
    assert CpuOk(c, s.cpus[c], s.slots, s.lock) && SlotOk(p, s.slots[p], s.cpus, s.lock) &&
           SlotOk(i, x, s.cpus, s.lock);
    assert Base(pc) == pc;
    if s.lock == c && i != p { Lone(s, c, p, i); }
    if pc.FStack? || pc.FUndo? || pc.FReady? {
      assert Stage(pc, x, p);
    }
  }

  /** What a statement does to the slot it is about, as far as the scheduler sees it. */
  lemma EffectSafe(s: State, c: nat, p: nat, ok: bool)
    requires SchedOk(s.slots, s.cpus, s.lock) && MakerOk(s.slots) && ReapOk(s.slots)
    requires c < |s.cpus| && p < |s.slots| && s.cpus[c].thread == p
    ensures var slots := Effect(s, p, ok);
      && SchedOk(slots, s.cpus, s.lock) && |slots| == |s.slots|
      && slots[p].pc == s.slots[p].pc && slots[p].state == s.slots[p].state && slots[p].on == s.slots[p].on
  {
    var i := Subject(s.slots[p].pc);
    if 0 <= i < |s.slots| {
      var x := s.slots[i];
      var x' := Changed(x, s.slots[p].pc, p, ParentChan(s.slots[p]), s.init, s.nextpid, ok);
      ChangeSafe(s, c, p, i, ok);
      if x'.state == x.state && x'.pc == x.pc {
        FieldsKeep(s.slots, s.cpus, s.lock, i, x');
      } else {
        OtherKeeps(s.slots, s.cpus, s.lock, i, x');
      }
    }
  }

  /** Where a statement takes its own process. */
  lemma MovedHow(x: Slot, p: nat, me: Slot, z: Slot, n: nat, ok: bool, c: nat, lock: int)
    requires x.state == StateAt(x.pc) && Sound(x.pc) && x.pc != User
    requires if x.pc.FLock? then lock == NONE else InLock(x.pc) ==> lock == c
    ensures var y := Moved(x, x.pc, p, NextPc(x.pc, me, p, z, n, ok)); var lock' := LockAfter(x.pc, c, lock);
      && y.on == x.on
      && if Switches(x.pc) then y.state == x.state != Running && RestPc(y) && lock' == lock == c
         else
           && y.state == StateAt(y.pc) && Sound(y.pc) && (!y.state.Running? ==> lock' == c)
           && (|| (lock' == lock && InLock(y.pc) == InLock(x.pc))
               || (lock == NONE && lock' == c && InLock(y.pc))
               || (lock == c && lock' == NONE && !InLock(y.pc)))
  {
  }

  /** Scheduler safety of the process's own steps. */
  lemma ThreadSafe(s: State, c: nat, a: Act)
    requires SchedOk(s.slots, s.cpus, s.lock) && MakerOk(s.slots) && ReapOk(s.slots) && ThreadEnabled(s, c, a)
    ensures var t := ThreadStep(s, c, a); SchedOk(t.slots, t.cpus, t.lock)
  {
    var p := s.cpus[c].thread;
    var me, t := s.slots[p], ThreadStep(s, c, a);
    assert CpuOk(c, s.cpus[c], s.slots, s.lock) && SlotOk(p, me, s.cpus, s.lock);
    if a.Go? {
      var slots, i := Effect(s, p, a.ok), Subject(me.pc);
      var z := if 0 <= i < |s.slots| then s.slots[i] else me;
      EffectSafe(s, c, p, a.ok);
      MovedHow(slots[p], p, me, z, |s.slots|, a.ok, c, s.lock);
      if Switches(me.pc) {
        SwitchOutKeeps(slots, s.cpus, s.lock, c, p, t.slots[p]);
      } else {
        OwnKeeps(slots, s.cpus, s.lock, t.lock, c, p, t.slots[p]);
      }
    } else {
      OwnKeeps(s.slots, s.cpus, s.lock, t.lock, c, p, t.slots[p]);
    }
  }
}
