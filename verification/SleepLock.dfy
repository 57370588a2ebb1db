/** sleeplock.c over sleep, wakeup and kill of proc.c, as interleaved steps of any number of processes and
    sleep locks. A program counter names the next statement of a process; spin locks are atomic steps. */
module SleepLock {

  const FREE := -1

  datatype Pc =
    | Idle
    | AcqSpin(l: nat)              // acquiresleep: acquire(&lk->lk)
    | AcqTest(l: nat)              //   while (lk->locked)
    | SlpPtable(l: nat)            //   sleep: acquire(&ptable.lock)
    | SlpRelease(l: nat)           //     release(lk)
    | SlpChan(l: nat)              //     p->chan = chan
    | SlpState(l: nat)             //     p->state = SLEEPING
    | SlpSched(l: nat)             //     sched()
    | Asleep(l: nat)               //     switched out inside sched
    | SlpTidy(l: nat)              //     p->chan = 0
    | SlpDone(l: nat)              //     release(&ptable.lock)
    | SlpAgain(l: nat)             //     acquire(lk)
    | AcqSet(l: nat)               //   lk->locked = 1
    | AcqPid(l: nat)               //   lk->pid = myproc()->pid
    | AcqDone(l: nat)              //   release(&lk->lk)
    | RelSpin(l: nat)              // releasesleep: acquire(&lk->lk)
    | RelClear(l: nat)             //   lk->locked = 0
    | RelPid(l: nat)               //   lk->pid = 0
    | RelPtable(l: nat)            //   wakeup: acquire(&ptable.lock)
    | RelWake(l: nat, i: nat)      //     wakeup1's loop, at slot i
    | RelDone(l: nat)              //   release(&lk->lk)
    | HoldSpin(l: nat)             // holdingsleep: acquire(&lk->lk)
    | HoldTest(l: nat)             //   r = lk->locked && (lk->pid == myproc()->pid)
    | HoldDone(l: nat, r: bool)    //   release(&lk->lk)
    | KillPtable(q: nat)           // kill: acquire(&ptable.lock)
    | KillSet(q: nat)              //   wake process q if it sleeps
    | KillDone                     //   release(&ptable.lock)

  datatype PState = Running | Runnable | Sleeping

  /** `held` lists the sleep locks that the process has taken and not yet given back. */
  datatype Proc = Proc(pc: Pc, st: PState, chan: int, held: set<nat>)

  /** `spin` is the process inside lk->lk, `holder` the one that last set `locked`; pid is lk->pid. */
  datatype Lock = Lock(spin: int, locked: bool, pid: int, holder: int)

  datatype State = State(procs: seq<Proc>, locks: seq<Lock>, pt: int)

  datatype Act = Call(pc: Pc) | Go | Preempt | Resume

  /** The sleep lock whose spin lock is held at this point. */
  function SpinOf(pc: Pc): (l: int)
    ensures l >= FREE
  {
    if pc.AcqTest? || pc.SlpPtable? || pc.SlpRelease? || pc.AcqSet? || pc.AcqPid? || pc.AcqDone? || pc.RelClear? ||
        pc.RelPid?
      || pc.RelPtable? || pc.RelWake? || pc.RelDone? || pc.HoldTest? || pc.HoldDone? then pc.l else FREE
  }

  /** ptable.lock is held at this point. */
  predicate InPtable(pc: Pc) {
    || pc.SlpRelease? || pc.SlpChan? || pc.SlpState? || pc.SlpSched? || pc.SlpTidy? || pc.SlpDone?
    || pc.RelWake? || pc.KillSet? || pc.KillDone?
  }

  /** The sleep lock that a call is about. */
  function LockOf(pc: Pc): (l: int) {
    if pc.Idle? || pc.KillPtable? || pc.KillSet? || pc.KillDone? then FREE else pc.l
  }

  /** The lock that the process has found taken, and sleeps on or is on its way to sleep on. */
  function WaitsOn(pr: Proc): (l: int) {
    if pr.pc.SlpPtable? || pr.pc.SlpRelease? || pr.pc.SlpChan? || pr.pc.SlpState? ||
        pr.st == Sleeping then LockOf(pr.pc) else FREE
  }

  /** A releaser that has cleared the lock and has yet to look at slot p. */
  predicate WakeComing(pc: Pc, l: nat, p: nat) {
    pc == RelPid(l) || pc == RelPtable(l) || (pc.RelWake? && pc.l == l && pc.i <= p)
  }

  /** Slot numbers and lock numbers are in range. */
  predicate InRange(pc: Pc, nprocs: nat, nlocks: nat) {
    && LockOf(pc) < nlocks && (pc.RelWake? ==> pc.i <= nprocs) && (pc.KillSet? || pc.KillPtable? ==> pc.q < nprocs)
  }

  predicate RangeOk(s: State) {
    forall p :: 0 <= p < |s.procs| ==> InRange(s.procs[p].pc, |s.procs|, |s.locks|)
  }

  /** Process and spin lock agree on who is inside. */
  predicate SpinOk(procs: seq<Proc>, locks: seq<Lock>) {
    && (forall p ::
       0 <= p < |procs| ==>
       SpinOf(procs[p].pc) < |locks| && (SpinOf(procs[p].pc) >= 0 ==> locks[SpinOf(procs[p].pc)].spin == p))
    && (forall l ::
       0 <= l < |locks| && locks[l].spin != FREE ==>
       0 <= locks[l].spin < |procs| && SpinOf(procs[locks[l].spin].pc) == l)
  }

  predicate PtableOk(procs: seq<Proc>, pt: int) {
    && (forall p :: 0 <= p < |procs| && InPtable(procs[p].pc) ==> pt == p)
    && (pt != FREE ==> 0 <= pt < |procs| && InPtable(procs[pt].pc))
  }

  /** The process is inside lk->lk and has seen, or made, the lock clear. */
  predicate SeesClear(pc: Pc) { pc.AcqSet? || pc.RelPid? || pc.RelPtable? || pc.RelWake? || pc.RelDone? }

  /** What a process may rely on about the locks it holds, at each point. */
  predicate Holds(pr: Proc, p: nat, locks: seq<Lock>) {
    && (forall l :: l in pr.held ==> l < |locks| && locks[l].locked && locks[l].holder == p)
    && (pr.pc.RelSpin? || pr.pc.RelClear? || pr.pc.AcqPid? ==> pr.pc.l in pr.held)
    && (SeesClear(pr.pc) ==> pr.pc.l < |locks| && !locks[pr.pc.l].locked)
    && (pr.pc.HoldDone? ==> (pr.pc.r <==> pr.pc.l in pr.held))
  }

  /** A lock that is set is held by the process that set it, and lk->pid names that process except between
      the two assignments of acquiresleep. */
  predicate HeldOk(procs: seq<Proc>, locks: seq<Lock>) {
    && (forall p :: 0 <= p < |procs| ==> Holds(procs[p], p, locks))
    && (forall l :: 0 <= l < |locks| && locks[l].locked ==> Held(procs, locks[l], l))
  }

  predicate Held(procs: seq<Proc>, k: Lock, l: nat) {
    && 0 <= k.holder < |procs| && l in procs[k.holder].held
    && (k.pid == k.holder || (k.spin == k.holder && procs[k.holder].pc == AcqPid(l)))
  }

  /** Where a process in each scheduling state can be. */
  predicate StateOk(pr: Proc) {
    && (pr.st == Sleeping ==> pr.pc.SlpSched? || pr.pc.Asleep?)
    && (pr.pc.SlpSched? || pr.pc.Asleep? ==> pr.chan == pr.pc.l && pr.st != Running)
    && (pr.pc.SlpSched? ==> pr.st == Sleeping) && (pr.pc.SlpState? ==> pr.chan == pr.pc.l)
    && (pr.st == Runnable ==> SpinOf(pr.pc) == FREE && !InPtable(pr.pc))
  }

  predicate StatesOk(procs: seq<Proc>) {
    forall p :: 0 <= p < |procs| ==> StateOk(procs[p])
  }

  /** Process p, which waits for l, will not be forgotten: the lock is still taken, or the process inside
      lk->lk is a releaser that has yet to pass slot p. */
  predicate Remembered(procs: seq<Proc>, k: Lock, l: nat, p: nat) {
    k.locked || (0 <= k.spin < |procs| && WakeComing(procs[k.spin].pc, l, p))
  }

  predicate WakeOk(procs: seq<Proc>, locks: seq<Lock>) {
    forall p :: 0 <= p < |procs| && WaitsOn(procs[p]) >= 0 ==>
      WaitsOn(procs[p]) < |locks| && Remembered(procs, locks[WaitsOn(procs[p])], WaitsOn(procs[p]), p)
  }

  predicate Inv(s: State) {
    RangeOk(s) && SpinOk(s.procs, s.locks) && PtableOk(s.procs, s.pt) && HeldOk(s.procs, s.locks) &&
        StatesOk(s.procs) && WakeOk(s.procs, s.locks)
  }

  // Steps. A running process executes the statement its program counter names.

  /** What a process may call: any lock, but only the holder releases. */
  predicate MayCall(s: State, pr: Proc, pc: Pc) {
    && pr.pc == Idle && InRange(pc, |s.procs|, |s.locks|)
    && (pc.AcqSpin? || (pc.RelSpin? && pc.l in pr.held) || pc.HoldSpin? || pc.KillPtable?)
  }

  predicate Enabled(s: State, p: nat, a: Act) {
    && p < |s.procs| && RangeOk(s)
    && var pr := s.procs[p]; match a
       case Call(pc) => pr.st == Running && MayCall(s, pr, pc)
       // a timer interrupt: yield, between statements that hold no spin lock
       case Preempt => pr.st == Running && s.pt == FREE && SpinOf(pr.pc) == FREE && !InPtable(pr.pc)
       // the scheduler picks the process; inside sleep it comes back with ptable.lock
       case Resume => pr.st == Runnable && s.pt == FREE
       case Go =>
         && (pr.st == Running || pr.pc.SlpSched?) && pr.pc != Idle && !pr.pc.Asleep?
         && (pr.pc.AcqSpin? || pr.pc.SlpAgain? || pr.pc.RelSpin? || pr.pc.HoldSpin? ==> s.locks[pr.pc.l].spin == FREE)
         && (pr.pc.SlpPtable? || pr.pc.RelPtable? || pr.pc.KillPtable? ==> s.pt == FREE)
  }

  /** One round of wakeup1's loop, and what kill does to the process it finds. */
  function WokenAt(procs: seq<Proc>, i: nat, anyChan: bool, chan: int): seq<Proc>
    requires i < |procs|
  {
    if procs[i].st == Sleeping && (anyChan || procs[i].chan == chan) then procs[i := procs[i].(st := Runnable)]
    else procs
  }

  /** What a statement leaves: its process, the sleep lock it is about, and the owner of ptable.lock. */
  datatype Out = Out(pr: Proc, k: Lock, pt: int)

  /** The statement at pr.pc, apart from what it does to other processes; n is the size of the table. */
  function Statement(pr: Proc, k: Lock, pt: int, p: nat, n: nat): Out
    requires LockOf(pr.pc) >= 0
  {
    var l := pr.pc.l;
    match pr.pc
    case AcqSpin(_) => Out(pr.(pc := AcqTest(l)), k.(spin := p), pt)
    case AcqTest(_) => Out(pr.(pc := if k.locked then SlpPtable(l) else AcqSet(l)), k, pt)
    case SlpPtable(_) => Out(pr.(pc := SlpRelease(l)), k, p)
    case SlpRelease(_) => Out(pr.(pc := SlpChan(l)), k.(spin := FREE), pt)
    case SlpChan(_) => Out(pr.(pc := SlpState(l), chan := l), k, pt)
    case SlpState(_) => Out(pr.(pc := SlpSched(l), st := Sleeping), k, pt)
    case SlpSched(_) => Out(pr.(pc := Asleep(l)), k, FREE)
    case Asleep(_) => Out(pr.(pc := SlpTidy(l), st := Running), k, p)      // back from sched
    case SlpTidy(_) => Out(pr.(pc := SlpDone(l), chan := FREE), k, pt)
    case SlpDone(_) => Out(pr.(pc := SlpAgain(l)), k, FREE)
    case SlpAgain(_) => Out(pr.(pc := AcqTest(l)), k.(spin := p), pt)
    case AcqSet(_) => Out(pr.(pc := AcqPid(l), held := pr.held + {l}), k.(locked := true, holder := p), pt)
    case AcqPid(_) => Out(pr.(pc := AcqDone(l)), k.(pid := p), pt)
    case AcqDone(_) => Out(pr.(pc := Idle), k.(spin := FREE), pt)
    case RelSpin(_) => Out(pr.(pc := RelClear(l)), k.(spin := p), pt)
    case RelClear(_) => Out(pr.(pc := RelPid(l), held := pr.held - {l}), k.(locked := false), pt)
    case RelPid(_) => Out(pr.(pc := RelPtable(l)), k.(pid := FREE), pt)
    case RelPtable(_) => Out(pr.(pc := RelWake(l, 0)), k, p)
    case RelWake(_, i) => if i < n then Out(pr.(pc := RelWake(l, i + 1)), k, pt)
        else Out(pr.(pc := RelDone(l)), k, FREE)
    case RelDone(_) => Out(pr.(pc := Idle), k.(spin := FREE), pt)
    case HoldSpin(_) => Out(pr.(pc := HoldTest(l)), k.(spin := p), pt)
    case HoldTest(_) => Out(pr.(pc := HoldDone(l, k.locked && k.pid == p)), k, pt)
    case HoldDone(_, _) => Out(pr.(pc := Idle), k.(spin := FREE), pt)
  }

  /** What the statement at p does to other processes: wakeup1 looks at one of them. */
  function Others(s: State, p: nat): seq<Proc>
    requires p < |s.procs|
  {
    var pc := s.procs[p].pc;
    if pc.RelWake? && pc.i < |s.procs| then WokenAt(s.procs, pc.i, false, pc.l) else s.procs
  }

  function Execute(s: State, p: nat): State
    requires RangeOk(s) && p < |s.procs| && LockOf(s.procs[p].pc) >= 0
  {
    var pr := s.procs[p];
    var o := Statement(pr, s.locks[pr.pc.l], s.pt, p, |s.procs|);
    State(Others(s, p)[p := o.pr], s.locks[pr.pc.l := o.k], o.pt)
  }

  function ExecuteKill(s: State, p: nat): State
    requires RangeOk(s) && p < |s.procs| && LockOf(s.procs[p].pc) == FREE && s.procs[p].pc != Idle
  {
    var pr := s.procs[p];
    match pr.pc
    case KillPtable(q) => s.(procs := s.procs[p := pr.(pc := KillSet(q))], pt := p)
    case KillSet(q) => s.(procs := WokenAt(s.procs, q, true, 0)[p := pr.(pc := KillDone)])
    case KillDone => s.(procs := s.procs[p := pr.(pc := Idle)], pt := FREE)
  }

  function Apply(s: State, p: nat, a: Act): State
    requires Enabled(s, p, a)
  {
    var pr := s.procs[p];
    match a
    case Call(pc) => s.(procs := s.procs[p := pr.(pc := pc)])
    case Preempt => s.(procs := s.procs[p := pr.(st := Runnable)])
    case Resume => if pr.pc.Asleep? then Execute(s, p) else s.(procs := s.procs[p := pr.(st := Running)])
    case Go => if LockOf(pr.pc) == FREE then ExecuteKill(s, p) else Execute(s, p)
  }

  // One slot of the table and one lock change at a time.

  lemma SpinStep(procs: seq<Proc>, locks: seq<Lock>, p: nat, pr: Proc, l: nat, k: Lock)
    requires SpinOk(procs, locks) && p < |procs| && l < |locks|
    requires
      || (SpinOf(pr.pc) == SpinOf(procs[p].pc) && k.spin == locks[l].spin)
      || (SpinOf(procs[p].pc) == FREE && locks[l].spin == FREE && SpinOf(pr.pc) == l && k.spin == p)
      || (SpinOf(procs[p].pc) == l && SpinOf(pr.pc) == FREE && k.spin == FREE)
    ensures SpinOk(procs[p := pr], locks[l := k])
  {
  }

  lemma PtableStep(procs: seq<Proc>, p: nat, pr: Proc, pt: int, pt': int)
    requires PtableOk(procs, pt) && p < |procs|
    requires
      || (InPtable(pr.pc) == InPtable(procs[p].pc) && pt' == pt)
      || (pt == FREE && InPtable(pr.pc) && pt' == p)
      || (InPtable(procs[p].pc) && !InPtable(pr.pc) && pt' == FREE)
    ensures PtableOk(procs[p := pr], pt')
  {
  }

  /** What a statement does about the locks: nothing, take l while it is clear, or give l back. */
  predicate HeldMove(pr: Proc, pr': Proc, k: Lock, k': Lock, l: nat, p: nat) {
    || (pr'.held == pr.held && k'.locked == k.locked && k'.holder == k.holder)
    || (pr'.held == pr.held + {l} && k'.locked && k'.holder == p && !k.locked)
    || (pr'.held == pr.held - {l} && !k'.locked && l in pr.held)
  }

  lemma OtherHolds(procs: seq<Proc>, locks: seq<Lock>, p: nat, pr: Proc, l: nat, k: Lock, q: nat)
    requires HeldOk(procs, locks) && SpinOk(procs, locks) && p < |procs| && l < |locks| && q < |procs| && q != p
    requires HeldMove(procs[p], pr, locks[l], k, l, p) && (locks[l].locked != k.locked ==> locks[l].spin == p)
    ensures Holds(procs[q], q, locks[l := k])
  {
    assert Holds(procs[q], q, locks) && Holds(procs[p], p, locks);
    forall m | m in procs[q].held ensures m < |locks| && locks[l := k][m].locked && locks[l := k][m].holder == q {
      assert locks[m].locked && locks[m].holder == q;
    }
    if SeesClear(procs[q].pc) {
      assert locks[procs[q].pc.l].spin == q;
    }
  }

  lemma OtherHeld(procs: seq<Proc>, locks: seq<Lock>, p: nat, pr: Proc, l: nat, k: Lock, m: nat)
    requires HeldOk(procs, locks) && p < |procs| && l < |locks| && m < |locks| && m != l && locks[m].locked
    requires HeldMove(procs[p], pr, locks[l], k, l, p) && (procs[p].pc.AcqPid? ==> procs[p].pc.l == l)
    ensures Held(procs[p := pr], locks[m], m)
  {
    assert Held(procs, locks[m], m);
  }

  lemma HeldStep(procs: seq<Proc>, locks: seq<Lock>, p: nat, pr: Proc, l: nat, k: Lock)
    requires HeldOk(procs, locks) && SpinOk(procs, locks) && p < |procs| && l < |locks|
    requires HeldMove(procs[p], pr, locks[l], k, l, p) && Holds(pr, p, locks[l := k])
    requires k.locked ==> Held(procs[p := pr], k, l)
    requires locks[l].locked != k.locked ==> locks[l].spin == p
    requires procs[p].pc.AcqPid? ==> procs[p].pc.l == l
    ensures HeldOk(procs[p := pr], locks[l := k])
  {
    var procs', locks' := procs[p := pr], locks[l := k];
    forall q | 0 <= q < |procs| ensures Holds(procs'[q], q, locks') {
      if q != p { OtherHolds(procs, locks, p, pr, l, k, q); }
    }
    forall m | 0 <= m < |locks| && locks'[m].locked ensures Held(procs', locks'[m], m) {
      if m != l { OtherHeld(procs, locks, p, pr, l, k, m); }
    }
  }

  /** What a statement on lock l may do to the waiters on l: the lock stays taken, or its process becomes a
      releaser that has yet to pass q, or the process inside lk->lk is another one and stays there. */
  predicate StillComing(pr: Proc, k: Lock, k': Lock, l: nat, p: nat, q: nat) {
    k'.locked || (k'.spin == p && WakeComing(pr.pc, l, q)) || (!k.locked && k.spin != p && k'.spin == k.spin)
  }

  lemma OtherRemembered(procs: seq<Proc>, procs': seq<Proc>, locks: seq<Lock>, p: nat, l: nat, k: Lock, q: nat, m: nat)
    requires SpinOk(procs, locks) && p < |procs| == |procs'| && l < |locks| && m < |locks| && q < |procs| &&
             Remembered(procs, locks[m], m, q)
    requires forall r :: 0 <= r < |procs| && r != p ==> procs'[r].pc == procs[r].pc
    requires m != l ==> SpinOf(procs[p].pc) != m
    requires m == l ==> StillComing(procs'[p], locks[l], k, l, p, q)
    ensures Remembered(procs', locks[l := k][m], m, q)
  {
  }

  /** A process that waits on the statement's own lock did so before, and has not just been woken. */
  lemma WaitedBefore(s: State, p: nat, q: nat)
    requires Inv(s) && p < |s.procs| && LockOf(s.procs[p].pc) >= 0 && q < |s.procs|
    requires q != p && WaitsOn(Execute(s, p).procs[q]) == s.procs[p].pc.l
    ensures WaitsOn(s.procs[q]) == s.procs[p].pc.l
    ensures s.procs[p].pc.RelWake? ==> s.procs[p].pc.i != q
  {
    assert StateOk(s.procs[q]);
  }

  /** A waiter on the statement's own lock. */
  lemma StatementComing(s: State, p: nat, q: nat)
    requires Inv(s) && p < |s.procs| && LockOf(s.procs[p].pc) >= 0 && q < |s.procs|
    requires q != p && WaitsOn(Execute(s, p).procs[q]) == s.procs[p].pc.l
    requires Enabled(s, p, Go) || (s.procs[p].pc.Asleep? && Enabled(s, p, Resume))
    ensures WaitsOn(s.procs[q]) == s.procs[p].pc.l
    ensures StillComing(Execute(s, p).procs[p], s.locks[s.procs[p].pc.l], Execute(s, p).locks[s.procs[p].pc.l],
            s.procs[p].pc.l, p, q)
  {
    var l := s.procs[p].pc.l;
    WaitedBefore(s, p, q);
    assert Remembered(s.procs, s.locks[l], l, q);
  }

  /** Waking a process changes its scheduling state and nothing else. */
  lemma WokenKeeps(s: State, i: nat, anyChan: bool, chan: int, w: seq<Proc>)
    requires Inv(s) && i < |s.procs| && w == WokenAt(s.procs, i, anyChan, chan) && !s.procs[i].pc.SlpSched?
    ensures SpinOk(w, s.locks) && PtableOk(w, s.pt) && HeldOk(w, s.locks) && StatesOk(w) && |w| == |s.procs|
    ensures forall q :: 0 <= q < |w| ==> w[q].pc == s.procs[q].pc && (w[q] == s.procs[q] || WaitsOn(w[q]) == FREE)
  {
    assert StateOk(s.procs[i]);
    forall q | 0 <= q < |w| ensures Holds(w[q], q, s.locks) {
      assert Holds(s.procs[q], q, s.locks);
    }
    forall l | 0 <= l < |s.locks| && s.locks[l].locked ensures Held(w, s.locks[l], l) {
      assert Held(s.procs, s.locks[l], l);
    }
  }

  predicate CanExecute(s: State, p: nat) {
    p < |s.procs| && (Enabled(s, p, Go) || (s.procs[p].pc.Asleep? && Enabled(s, p, Resume))) &&
        LockOf(s.procs[p].pc) >= 0
  }

  lemma StatementMoves(s: State, p: nat)
    requires Inv(s) && CanExecute(s, p)
    ensures var pr, l := s.procs[p], s.procs[p].pc.l;
            var k := s.locks[l]; var o := Statement(pr, k, s.pt, p, |s.procs|);
      && (|| (SpinOf(o.pr.pc) == SpinOf(pr.pc) && o.k.spin == k.spin)
          || (SpinOf(pr.pc) == FREE && k.spin == FREE && SpinOf(o.pr.pc) == l && o.k.spin == p)
          || (SpinOf(pr.pc) == l && SpinOf(o.pr.pc) == FREE && o.k.spin == FREE))
      && (|| (InPtable(o.pr.pc) == InPtable(pr.pc) && o.pt == s.pt)
          || (s.pt == FREE && InPtable(o.pr.pc) && o.pt == p)
          || (InPtable(pr.pc) && !InPtable(o.pr.pc) && o.pt == FREE))
      && StateOk(o.pr) && InRange(o.pr.pc, |s.procs|, |s.locks|)
  {
    assert StateOk(s.procs[p]);
  }

  /** What process p and the lock k that its statement is about know of each other. */
  predicate Local(pr: Proc, k: Lock, p: nat)
    requires LockOf(pr.pc) >= 0
  {
    && (SpinOf(pr.pc) >= 0 ==> k.spin == p) && (SeesClear(pr.pc) ==> !k.locked)
    && (pr.pc.l in pr.held ==> k.locked && k.holder == p)
    && (pr.pc.RelSpin? || pr.pc.RelClear? || pr.pc.AcqPid? ==> pr.pc.l in pr.held)
    && (pr.pc.HoldTest? ==> (k.locked && k.pid == p <==> pr.pc.l in pr.held))
    && (pr.pc.HoldDone? ==> (pr.pc.r <==> pr.pc.l in pr.held))
  }

  lemma InvLocal(s: State, p: nat)
    requires Inv(s) && CanExecute(s, p)
    ensures Local(s.procs[p], s.locks[s.procs[p].pc.l], p)
  {
    var pr, l := s.procs[p], s.procs[p].pc.l;
    var k := s.locks[l];
    assert Holds(pr, p, s.locks);
    assert k.locked ==> Held(s.procs, k, l);
  }

  lemma StatementLocal(pr: Proc, k: Lock, pt: int, p: nat, n: nat)
    requires LockOf(pr.pc) >= 0 && Local(pr, k, p)
    ensures var l, o := pr.pc.l, Statement(pr, k, pt, p, n);
      && HeldMove(pr, o.pr, k, o.k, l, p) && (k.locked != o.k.locked ==> k.spin == p)
      && (l in o.pr.held ==> o.k.locked && o.k.holder == p) && (LockOf(o.pr.pc) == l || o.pr.pc == Idle)
      && (o.pr.pc.RelSpin? || o.pr.pc.RelClear? || o.pr.pc.AcqPid? ==> l in o.pr.held)
      && (SeesClear(o.pr.pc) ==> !o.k.locked)
      && (o.pr.pc.HoldDone? ==> (o.pr.pc.r <==> l in o.pr.held))
  {
  }

  lemma StatementHolds(s: State, p: nat)
    requires Inv(s) && CanExecute(s, p)
    ensures var pr, l := s.procs[p], s.procs[p].pc.l;
            var k := s.locks[l]; var o := Statement(pr, k, s.pt, p, |s.procs|);
      HeldMove(pr, o.pr, k, o.k, l, p) && Holds(o.pr, p, s.locks[l := o.k]) && (k.locked != o.k.locked ==> k.spin == p)
  {
    InvLocal(s, p);
    StatementLocal(s.procs[p], s.locks[s.procs[p].pc.l], s.pt, p, |s.procs|);
    HoldsAfter(s.procs[p], s.locks, s.pt, p, |s.procs|);
  }

  lemma HoldsAfter(pr: Proc, locks: seq<Lock>, pt: int, p: nat, n: nat)
    requires 0 <= LockOf(pr.pc) < |locks| && Holds(pr, p, locks) && Local(pr, locks[pr.pc.l], p)
    ensures var o := Statement(pr, locks[pr.pc.l], pt, p, n); Holds(o.pr, p, locks[pr.pc.l := o.k])
  {
    StatementLocal(pr, locks[pr.pc.l], pt, p, n);
  }

  lemma StatementHeld(s: State, p: nat)
    requires Inv(s) && CanExecute(s, p)
    ensures var pr, l := s.procs[p], s.procs[p].pc.l;
            var k := s.locks[l]; var o := Statement(pr, k, s.pt, p, |s.procs|);
      o.k.locked ==> Held(s.procs[p := o.pr], o.k, l)
  {
    var pr, l := s.procs[p], s.procs[p].pc.l;
    var k := s.locks[l];
    assert Holds(pr, p, s.locks);
    assert k.locked ==> Held(s.procs, k, l);
  }

  lemma OthersKeep(s: State, p: nat)
    requires Inv(s) && CanExecute(s, p)
    ensures var w := Others(s, p);
      && SpinOk(w, s.locks) && PtableOk(w, s.pt) && HeldOk(w, s.locks) && StatesOk(w) && |w| == |s.procs| &&
         w[p] == s.procs[p]
      && (forall q :: 0 <= q < |w| ==> w[q].pc == s.procs[q].pc && (w[q] == s.procs[q] || WaitsOn(w[q]) == FREE))
  {
    var pc := s.procs[p].pc;
    assert StateOk(s.procs[p]);
    if pc.RelWake? && pc.i < |s.procs| {
      WokenKeeps(s, pc.i, false, pc.l, Others(s, p));
    }
  }

  lemma ExecuteWakes(s: State, p: nat)
    requires Inv(s) && CanExecute(s, p)
    ensures WakeOk(Execute(s, p).procs, Execute(s, p).locks)
  {
    var t, l := Execute(s, p), s.procs[p].pc.l;
    OthersKeep(s, p);
    StatementMoves(s, p);
    forall q | 0 <= q < |t.procs| && WaitsOn(t.procs[q]) >= 0
      ensures WaitsOn(t.procs[q]) < |t.locks| &&
              Remembered(t.procs, t.locks[WaitsOn(t.procs[q])], WaitsOn(t.procs[q]), q)
    {
      if q == p {
        SelfRemembered(s, p);
      } else {
        var m := WaitsOn(t.procs[q]);
        assert Others(s, p)[q] == s.procs[q];
        if m == l { StatementComing(s, p, q); }
        OtherRemembered(s.procs, t.procs, s.locks, p, l, t.locks[l], q, m);
      }
    }
  }

  lemma SelfRemembered(s: State, p: nat)
    requires Inv(s) && CanExecute(s, p) && WaitsOn(Execute(s, p).procs[p]) >= 0
    ensures var t := Execute(s, p); var m := WaitsOn(t.procs[p]); m < |t.locks| && Remembered(t.procs, t.locks[m], m, p)
  {
    var l := s.procs[p].pc.l;
    assert StateOk(s.procs[p]);
    assert s.procs[p].pc.AcqTest? || Remembered(s.procs, s.locks[l], l, p);
    assert Others(s, p) == s.procs;
  }

  lemma ExecuteKeeps(s: State, p: nat)
    requires Inv(s) && CanExecute(s, p)
    ensures Inv(Execute(s, p))
  {
    ExecuteMoves(s, p);
    ExecuteHolds(s, p);
    ExecuteWakes(s, p);
  }

  lemma ExecuteMoves(s: State, p: nat)
    requires Inv(s) && CanExecute(s, p)
    ensures var t := Execute(s, p);
            RangeOk(t) && SpinOk(t.procs, t.locks) && PtableOk(t.procs, t.pt) && StatesOk(t.procs)
  {
    var pr, l, w := s.procs[p], s.procs[p].pc.l, Others(s, p);
    var o := Statement(pr, s.locks[l], s.pt, p, |s.procs|);
    OthersKeep(s, p);
    StatementMoves(s, p);
    SpinStep(w, s.locks, p, o.pr, l, o.k);
    PtableStep(w, p, o.pr, s.pt, o.pt);
  }

  lemma ExecuteHolds(s: State, p: nat)
    requires Inv(s) && CanExecute(s, p)
    ensures HeldOk(Execute(s, p).procs, Execute(s, p).locks)
  {
    var pr, l, w := s.procs[p], s.procs[p].pc.l, Others(s, p);
    var o := Statement(pr, s.locks[l], s.pt, p, |s.procs|);
    OthersKeep(s, p);
    StatementHolds(s, p);
    StatementHeld(s, p);
    assert o.k.locked ==> Held(w[p := o.pr], o.k, l) by {
      HeldSame(s.procs[p := o.pr], w[p := o.pr], o.k, l);
    }
    HeldStep(w, s.locks, p, o.pr, l, o.k);
  }

  lemma HeldSame(procs: seq<Proc>, w: seq<Proc>, k: Lock, l: nat)
    requires |w| == |procs| && forall q :: 0 <= q < |w| ==> w[q].pc == procs[q].pc && w[q].held == procs[q].held
    ensures Held(procs, k, l) ==> Held(w, k, l)
  {
  }

  /** A change to one slot that touches no lock: kill's own statements, a call, the timer, the scheduler. */
  lemma SlotKeeps(s: State, p: nat, pr: Proc, pt: int)
    requires Inv(s) && p < |s.procs| && pr.held == s.procs[p].held
    requires SpinOf(pr.pc) == FREE == SpinOf(s.procs[p].pc) && WaitsOn(pr) == FREE && StateOk(pr) &&
             InRange(pr.pc, |s.procs|, |s.locks|)
    requires Holds(pr, p, s.locks)
    requires
      || (InPtable(pr.pc) == InPtable(s.procs[p].pc) && pt == s.pt)
      || (s.pt == FREE && InPtable(pr.pc) && pt == p)
      || (InPtable(s.procs[p].pc) && !InPtable(pr.pc) && pt == FREE)
    ensures Inv(State(s.procs[p := pr], s.locks, pt))
  {
    var procs := s.procs[p := pr];
    PtableStep(s.procs, p, pr, s.pt, pt);
    assert SpinOk(procs, s.locks);
    forall l | 0 <= l < |s.locks| && s.locks[l].locked ensures Held(procs, s.locks[l], l) {
      assert Held(s.procs, s.locks[l], l);
    }
  }

  lemma KillWakes(s: State, p: nat)
    requires Inv(s) && p < |s.procs| && s.procs[p].pc.KillSet?
    ensures Inv(s.(procs := WokenAt(s.procs, s.procs[p].pc.q, true, 0)))
    ensures s.procs[p].st != Sleeping
  {
    var q := s.procs[p].pc.q;
    assert StateOk(s.procs[p]);
    WokenKeeps(s, q, true, 0, WokenAt(s.procs, q, true, 0));
  }

  lemma KillSetKeeps(s: State, p: nat)
    requires Inv(s) && p < |s.procs| && s.procs[p].pc.KillSet?
    ensures Inv(s.(procs := WokenAt(s.procs, s.procs[p].pc.q, true, 0)[p := s.procs[p].(pc := KillDone)]))
  {
    var pr := s.procs[p];
    var t := s.(procs := WokenAt(s.procs, pr.pc.q, true, 0));
    KillWakes(s, p);
    assert t.procs[p] == pr;
    assert StateOk(pr) && Holds(pr, p, s.locks);
    SlotKeeps(t, p, pr.(pc := KillDone), s.pt);
  }

  lemma KillKeeps(s: State, p: nat)
    requires Inv(s) && Enabled(s, p, Go) && LockOf(s.procs[p].pc) == FREE
    ensures Inv(ExecuteKill(s, p))
  {
    var pr := s.procs[p];
    if pr.pc.KillSet? {
      KillSetKeeps(s, p);
    } else {
      assert StateOk(pr) && Holds(pr, p, s.locks);
      SlotKeeps(s, p, ExecuteKill(s, p).procs[p], ExecuteKill(s, p).pt);
    }
  }

  lemma ApplyKeeps(s: State, p: nat, a: Act)
    requires Inv(s) && Enabled(s, p, a)
    ensures Inv(Apply(s, p, a))
  {
    var pr := s.procs[p];
    assert StateOk(pr) && Holds(pr, p, s.locks);
    if (a == Resume && pr.pc.Asleep?) || (a == Go && LockOf(pr.pc) != FREE) {
      ExecuteKeeps(s, p);
    } else if a == Go {
      KillKeeps(s, p);
    } else {
      SlotKeeps(s, p, Apply(s, p, a).procs[p], s.pt);
    }
  }

  lemma StepKeeps(s: State, t: State, p: nat, a: Act)
    requires Inv(s) && Enabled(s, p, a) && t == Apply(s, p, a)
    ensures Inv(t)
  {
    ApplyKeeps(s, p, a);
  }

  // Whole runs.

  predicate Init(s: State) {
    && s.pt == FREE
    && (forall p :: 0 <= p < |s.procs| ==> s.procs[p].pc == Idle && s.procs[p].held == {} && s.procs[p].st != Sleeping)
    && (forall l :: 0 <= l < |s.locks| ==> s.locks[l].spin == FREE && !s.locks[l].locked)
  }

  /** Step k of the run is one act of one process. */
  predicate StepsAt(ss: seq<State>, who: seq<nat>, acts: seq<Act>, k: nat) {
    k < |who| && k < |acts| && k + 1 < |ss| && Enabled(ss[k], who[k], acts[k]) &&
        ss[k + 1] == Apply(ss[k], who[k], acts[k])
  }

  predicate Run(ss: seq<State>, who: seq<nat>, acts: seq<Act>) {
    && |ss| == |who| + 1 == |acts| + 1 && Init(ss[0])
    && forall k :: 0 <= k < |who| ==> StepsAt(ss, who, acts, k)
  }

  lemma InitInv(s: State)
    requires Init(s)
    ensures Inv(s)
  {
  }

  lemma NextKeeps(ss: seq<State>, who: seq<nat>, acts: seq<Act>, k: nat)
    requires Run(ss, who, acts) && k + 1 < |ss| && Inv(ss[k])
    ensures Inv(ss[k + 1])
  {
    assert StepsAt(ss, who, acts, k);
    StepKeeps(ss[k], ss[k + 1], who[k], acts[k]);
  }

  lemma {:induction false} RunInv(ss: seq<State>, who: seq<nat>, acts: seq<Act>, k: nat)
    requires Run(ss, who, acts) && k < |ss|
    ensures Inv(ss[k])
  {
    if k == 0 {
      InitInv(ss[0]);
    } else {
      RunInv(ss, who, acts, k - 1);
      NextKeeps(ss, who, acts, k - 1);
    }
  }

  /** At every moment of every run a sleep lock has at most one holder. */
  lemma MutualExclusion(ss: seq<State>, who: seq<nat>, acts: seq<Act>, k: nat, p: nat, q: nat, l: nat)
    requires Run(ss, who, acts) && k < |ss| && p < |ss[k].procs| && q < |ss[k].procs|
    requires l in ss[k].procs[p].held && l in ss[k].procs[q].held
    ensures p == q
  {
    RunInv(ss, who, acts, k);
    assert Holds(ss[k].procs[p], p, ss[k].locks) && Holds(ss[k].procs[q], q, ss[k].locks);
  }

  /** No lost wakeup: while a process sleeps on a lock, some process holds the lock, or some process is in
      releasesleep between clearing the lock and looking at the sleeper. */
  lemma NoLostWakeup(ss: seq<State>, who: seq<nat>, acts: seq<Act>, k: nat, p: nat) returns (r: nat)
    requires Run(ss, who, acts) && k < |ss| && p < |ss[k].procs| && ss[k].procs[p].st == Sleeping
    ensures 0 <= ss[k].procs[p].chan < |ss[k].locks| && r < |ss[k].procs|
    ensures var l := ss[k].procs[p].chan;
      if ss[k].locks[l].locked then l in ss[k].procs[r].held else WakeComing(ss[k].procs[r].pc, l, p)
  {
    RunInv(ss, who, acts, k);
    var s := ss[k];
    assert StateOk(s.procs[p]);
    var l := s.procs[p].chan;
    r := if s.locks[l].locked then s.locks[l].holder else s.locks[l].spin;
    assert s.locks[l].locked ==> Held(s.procs, s.locks[l], l);
  }

  /** When the wakeup inside releasesleep is over, nobody sleeps on the lock or is about to. */
  lemma ReleaseWakesAll(ss: seq<State>, who: seq<nat>, acts: seq<Act>, k: nat, p: nat, q: nat)
    requires Run(ss, who, acts) && k < |ss| && p < |ss[k].procs| && q < |ss[k].procs| && ss[k].procs[p].pc.RelDone?
    ensures WaitsOn(ss[k].procs[q]) != ss[k].procs[p].pc.l
  {
    RunInv(ss, who, acts, k);
    assert Holds(ss[k].procs[p], p, ss[k].locks);
  }

  /** holdingsleep answers whether its caller holds the lock. */
  lemma HoldingIsExact(ss: seq<State>, who: seq<nat>, acts: seq<Act>, k: nat, p: nat)
    requires Run(ss, who, acts) && k < |ss| && p < |ss[k].procs| && ss[k].procs[p].pc.HoldDone?
    ensures ss[k].procs[p].pc.r <==> ss[k].procs[p].pc.l in ss[k].procs[p].held
  {
    RunInv(ss, who, acts, k);
    assert Holds(ss[k].procs[p], p, ss[k].locks);
  }
}
