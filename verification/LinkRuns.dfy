/** link, unlink, create, mkdir, and opening and closing, by any number of processes at once. Between raising
    nlink and writing the entry, or between clearing an entry and lowering nlink, other processes run: such links
    are in flight. */
module LinkRuns {
  import opened Links

  /** Where a process is in a system call that has changed an inode and not yet, or no longer, its entry. */
  datatype Pc =
    | Idle
    | Linking(i: nat)      // sys_link after nlink++, or create after nlink = 1; dirlink is next
    | Unlinking(i: nat)    // sys_unlink after the entry is cleared; nlink-- is next

  datatype State = State(inodes: seq<Inode>, tree: seq<Node>, procs: seq<Pc>)

  function InFlight(procs: seq<Pc>, i: nat): nat {
    if procs == [] then 0
    else InFlight(procs[..|procs| - 1], i) + if procs[|procs| - 1] != Idle && procs[|procs| - 1].i == i then 1 else 0
  }

  predicate On(pc: Pc, i: nat) { pc != Idle && pc.i == i }

  lemma {:induction false} FlightAfter(procs: seq<Pc>, p: nat, pc: Pc, i: nat)
    requires p < |procs|
    ensures InFlight(procs[p := pc], i) ==
            InFlight(procs, i) - (if On(procs[p], i) then 1 else 0) + if On(pc, i) then 1 else 0
  {
    var q, o := procs[p := pc], procs[..|procs| - 1];
    if p == |procs| - 1 {
      assert q[..|q| - 1] == o;
    } else {
      assert q[..|q| - 1] == o[p := pc];
      FlightAfter(o, p, pc, i);
    }
  }

  lemma {:induction false} FlightHasOwner(procs: seq<Pc>, i: nat)
    ensures InFlight(procs, i) > 0 <==> exists p :: 0 <= p < |procs| && On(procs[p], i)
  {
    if procs != [] {
      var o := procs[..|procs| - 1];
      FlightHasOwner(o, i);
      if p :| 0 <= p < |procs| && On(procs[p], i) {
        if p < |o| { assert On(o[p], i); }
      }
      if p :| 0 <= p < |o| && On(o[p], i) { assert On(procs[p], i); }
    }
  }

  /** The inode as it is when all calls in progress that concern it are done or undone. */
  function Lowered(x: Inode, n: nat): Inode { if x.typ.Free? then x else x.(nlink := x.nlink - n) }

  function Settled(inodes: seq<Inode>, procs: seq<Pc>): (r: seq<Inode>)
    ensures |r| == |inodes| && forall i :: 0 <= i < |r| ==> r[i] == Lowered(inodes[i], InFlight(procs, i))
  {
    seq(|inodes|, i requires 0 <= i < |inodes| => Lowered(inodes[i], InFlight(procs, i)))
  }

  predicate IsFile(x: Inode) { x.typ.File? || x.typ.Dev? }

  ghost predicate Inv(s: State) {
    && Ok(Settled(s.inodes, s.procs), s.tree)
    && forall p :: 0 <= p < |s.procs| && s.procs[p] != Idle ==> 1 <= s.procs[p].i < |s.inodes| && PcOk(s, s.procs[p])
  }

  /** Only files are being linked; what is being unlinked may be a directory. */
  predicate PcOk(s: State, pc: Pc)
    requires pc != Idle && pc.i < |s.inodes|
  {
    if pc.Linking? then IsFile(s.inodes[pc.i]) else !s.inodes[pc.i].typ.Free?
  }

  // The machine.

  datatype Step =
    | LinkStart(p: nat, i: nat)                               // sysfile.c: ip->nlink++
    | CreateStart(p: nat, i: nat, typ: Type)                  // ialloc and ip->nlink = 1
    | Enter(p: nat, d: nat, k: nat, name: string)             // dirlink
    | LinkAbort(p: nat)                                       // the label "bad"
    | UnlinkStart(p: nat, d: nat, k: nat)                     // the entry of a file is cleared
    | UnlinkEnd(p: nat)                                       // ip->nlink--
    | Mkdir(p: nat, d: nat, k: nat, name: string, i: nat)     // with both inodes locked throughout
    | RmdirStart(p: nat, d: nat, k: nat)                      // the entry of a directory is cleared, dp->nlink--
    | Refer(i: nat, n: nat)                                   // iget and iput: n references, by open or chdir
    | Reclaim(i: nat)                                         // the last iput, when there is no link

  predicate IsIdle(s: State, p: nat) { p < |s.procs| && s.procs[p] == Idle }

  /** A directory that is being removed stays locked until its link count is lowered. */
  predicate Unlocked(s: State, d: nat) { InFlight(s.procs, d) == 0 }

  /** A linked directory with room for a new name. */
  predicate CanEnter(a: seq<Inode>, d: nat, k: nat, name: string) {
    d < |a| && Linked(a[d]) && Vacant(a[d].ents, k) && NameFree(a[d].ents, name)
  }

  /** Entry k of a linked directory names inode i, and is neither "." nor "..". */
  predicate Names(a: seq<Inode>, d: nat, k: nat, i: nat) {
    d < |a| && Linked(a[d]) && 2 <= k < |a[d].ents| && a[d].ents[k].inum == i && 1 <= i < |a|
  }

  predicate Enabled(s: State, step: Step) {
    match step
    case LinkStart(p, i) => IsIdle(s, p) && 1 <= i < |s.inodes| && IsFile(s.inodes[i])
    case CreateStart(p, i, typ) => IsIdle(s, p) && 1 <= i < |s.inodes| && s.inodes[i].typ.Free? &&
        (typ.File? || typ.Dev?)
    case Enter(p, d, k, name) =>
      p < |s.procs| && s.procs[p].Linking? && CanEnter(s.inodes, d, k, name) && s.procs[p].i != d && Unlocked(s, d)
    case LinkAbort(p) => p < |s.procs| && s.procs[p].Linking? && s.procs[p].i < |s.inodes|
    case UnlinkStart(p, d, k) =>
      && IsIdle(s, p) && d < |s.inodes| && k < |s.inodes[d].ents| && Names(s.inodes, d, k, s.inodes[d].ents[k].inum)
      && IsFile(s.inodes[s.inodes[d].ents[k].inum]) && Unlocked(s, d)
    case UnlinkEnd(p) => p < |s.procs| && s.procs[p].Unlinking? && s.procs[p].i < |s.inodes|
    case Mkdir(p, d, k, name, i) =>
      && IsIdle(s, p) && CanEnter(s.inodes, d, k, name) && Unlocked(s, d)
      && 1 <= i < |s.inodes| && s.inodes[i].typ.Free? && i != d && |s.tree| == |s.inodes|
    case RmdirStart(p, d, k) =>
      && IsIdle(s, p) && d < |s.inodes| && k < |s.inodes[d].ents| && Unlocked(s, d)
      && var i := s.inodes[d].ents[k].inum;
         Names(s.inodes, d, k, i) && i != d && s.inodes[i].typ.Dir? && Empty(s.inodes[i].ents) && Unlocked(s, i)
    case Refer(i, n) => 1 <= i < |s.inodes| && !s.inodes[i].typ.Free?
    case Reclaim(i) =>
      1 <= i < |s.inodes| && !s.inodes[i].typ.Free? && s.inodes[i].nlink == 0 && s.inodes[i].refs == 0 &&
          InFlight(s.procs, i) == 0
  }

  function Relink(a: seq<Inode>, i: nat, n: int): seq<Inode>
    requires i < |a|
  {
    a[i := a[i].(nlink := a[i].nlink + n)]
  }

  function Entered(a: seq<Inode>, d: nat, k: nat, x: Dirent): seq<Inode>
    requires d < |a| && k <= |a[d].ents|
  {
    a[d := a[d].(ents := PutAt(a[d].ents, k, x))]
  }

  /** The entry of a directory is gone, and the parent has one link fewer. */
  function Parted(a: seq<Inode>, d: nat, k: nat): seq<Inode>
    requires d < |a| && k < |a[d].ents|
  {
    a[d := a[d].(nlink := a[d].nlink - 1, ents := a[d].ents[k := Dirent("", 0)])]
  }

  function Apply(s: State, step: Step): State
    requires Enabled(s, step)
  {
    match step
    case LinkStart(p, i) => s.(inodes := Relink(s.inodes, i, 1), procs := s.procs[p := Linking(i)])
    case CreateStart(p, i, typ) => s.(inodes := s.inodes[i := Inode(typ, 1, [], s.inodes[i].refs)],
        procs := s.procs[p := Linking(i)])
    case Enter(p, d, k, name) => s.(inodes := Entered(s.inodes, d, k, Dirent(name, s.procs[p].i)),
        procs := s.procs[p := Idle])
    case LinkAbort(p) => s.(inodes := Relink(s.inodes, s.procs[p].i, -1), procs := s.procs[p := Idle])
    case UnlinkStart(p, d, k) =>
      s.(inodes := Entered(s.inodes, d, k, Dirent("", 0)), procs := s.procs[p := Unlinking(s.inodes[d].ents[k].inum)])
    case UnlinkEnd(p) => s.(inodes := Relink(s.inodes, s.procs[p].i, -1), procs := s.procs[p := Idle])
    case Mkdir(p, d, k, name, i) =>
      s.(inodes := DirMade(s.inodes, d, k, name, i), tree := s.tree[i := Node(d, k, s.tree[d].depth + 1)])
    case RmdirStart(p, d, k) =>
      s.(inodes := Parted(s.inodes, d, k), procs := s.procs[p := Unlinking(s.inodes[d].ents[k].inum)])
    case Refer(i, n) => s.(inodes := s.inodes[i := s.inodes[i].(refs := n)])
    case Reclaim(i) => s.(inodes := s.inodes[i := Inode(Free, 0, [], 0)])
  }

  // Each step, seen on the settled inodes.

  /** Free inodes have nothing in flight. */
  lemma NoneInFlight(s: State, i: nat)
    requires Inv(s) && i < |s.inodes| && s.inodes[i].typ.Free?
    ensures InFlight(s.procs, i) == 0
  {
    FlightHasOwner(s.procs, i);
  }

  lemma DirIsSettled(s: State, d: nat)
    requires Inv(s) && d < |s.inodes| && Unlocked(s, d)
    ensures Settled(s.inodes, s.procs)[d] == s.inodes[d]
  {
  }

  /** nlink and what is in flight change together. */
  lemma RelinkSettles(s: State, p: nat, i: nat, pc: Pc, n: int)
    requires p < |s.procs| && i < |s.inodes| && !s.inodes[i].typ.Free?
    requires forall j: nat :: j != i ==> On(pc, j) == On(s.procs[p], j)
    requires n == (if On(pc, i) then 1 else 0) - if On(s.procs[p], i) then 1 else 0
    ensures Settled(Relink(s.inodes, i, n), s.procs[p := pc]) == Settled(s.inodes, s.procs)
  {
    var a, b := Settled(s.inodes, s.procs), Settled(Relink(s.inodes, i, n), s.procs[p := pc]);
    forall j | 0 <= j < |a| ensures b[j] == a[j] { FlightAfter(s.procs, p, pc, j); }
  }

  lemma EnterSettles(s: State, p: nat, d: nat, k: nat, name: string)
    requires Inv(s) && Enabled(s, Enter(p, d, k, name))
    ensures var t, i := Apply(s, Enter(p, d, k, name)), s.procs[p].i;
      Settled(t.inodes, t.procs) == LinkMade(Settled(s.inodes, s.procs), d, k, name, i)
  {
    var t, i := Apply(s, Enter(p, d, k, name)), s.procs[p].i;
    var a, b := Settled(s.inodes, s.procs), Settled(t.inodes, t.procs);
    DirIsSettled(s, d);
    var c := LinkMade(a, d, k, name, i);
    forall j | 0 <= j < |a| ensures b[j] == c[j] {
      FlightAfter(s.procs, p, Idle, j);
    }
  }

  lemma UnlinkStartSettles(s: State, p: nat, d: nat, k: nat)
    requires Inv(s) && Enabled(s, UnlinkStart(p, d, k))
    ensures var t, i := Apply(s, UnlinkStart(p, d, k)), s.inodes[d].ents[k].inum;
      i != d && Settled(t.inodes, t.procs) == FileUnlinked(Settled(s.inodes, s.procs), d, k, i)
  {
    var t, i := Apply(s, UnlinkStart(p, d, k)), s.inodes[d].ents[k].inum;
    var a, b := Settled(s.inodes, s.procs), Settled(t.inodes, t.procs);
    DirIsSettled(s, d);
    var c := FileUnlinked(a, d, k, i);
    forall j | 0 <= j < |a| ensures b[j] == c[j] {
      FlightAfter(s.procs, p, Unlinking(i), j);
    }
  }

  /** An allocated inode without links. */
  function Allotted(a: seq<Inode>, i: nat, typ: Type): seq<Inode>
    requires i < |a|
  {
    a[i := Inode(typ, 0, [], a[i].refs)]
  }

  lemma CreateStartSettles(s: State, p: nat, i: nat, typ: Type)
    requires Inv(s) && Enabled(s, CreateStart(p, i, typ))
    ensures var t := Apply(s, CreateStart(p, i, typ));
            Settled(t.inodes, t.procs) == Allotted(Settled(s.inodes, s.procs), i, typ)
  {
    var t := Apply(s, CreateStart(p, i, typ));
    var a, b := Settled(s.inodes, s.procs), Settled(t.inodes, t.procs);
    NoneInFlight(s, i);
    var c := Allotted(a, i, typ);
    forall j | 0 <= j < |a| ensures b[j] == c[j] {
      FlightAfter(s.procs, p, Linking(i), j);
    }
  }

  lemma AllotCounts(a: seq<Inode>, i: nat, typ: Type, j: nat)
    requires i < |a| && !a[i].typ.Dir? && !typ.Dir?
    ensures |LinksTo(Allotted(a, i, typ), j)| == |LinksTo(a, j)|
  {
    LinksDiffer(a, Allotted(a, i, typ), j, 0, 0);
  }

  lemma AllotTree(a: seq<Inode>, tree: seq<Node>, i: nat, typ: Type)
    requires TreeOk(a, tree) && i < |a| && !a[i].typ.Dir? && !typ.Dir?
    ensures TreeOk(Allotted(a, i, typ), tree)
  {
    var b := Allotted(a, i, typ);
    forall c | 0 <= c < |b| && Linked(b[c])
      ensures DirOk(b, c) && Placed(b, tree, c)
    {
      assert DirOk(a, c) && Placed(a, tree, c);
    }
    forall e, m | 0 <= e < |b| && Linked(b[e]) && 2 <= m < |b[e].ents| ensures NamesChild(b, tree, e, m) {
      assert NamesChild(a, tree, e, m);
    }
  }

  lemma AllotKeeps(a: seq<Inode>, tree: seq<Node>, i: nat, typ: Type)
    requires Ok(a, tree) && 1 <= i < |a| && a[i].typ.Free? && (typ.File? || typ.Dev?)
    ensures Ok(Allotted(a, i, typ), tree)
  {
    var b := Allotted(a, i, typ);
    forall j | 1 <= j < |b|
      ensures |LinksTo(b, j)| == if b[j].typ.Free? then 0 else b[j].nlink
    {
      AllotCounts(a, i, typ, j);
    }
    AllotTree(a, tree, i, typ);
  }

  lemma MkdirSettles(s: State, d: nat, k: nat, name: string, i: nat)
    requires Inv(s) && CanEnter(s.inodes, d, k, name) && Unlocked(s, d)
    requires 1 <= i < |s.inodes| && s.inodes[i].typ.Free? && i != d
    ensures Settled(DirMade(s.inodes, d, k, name, i), s.procs) == DirMade(Settled(s.inodes, s.procs), d, k, name, i)
  {
    NoneInFlight(s, i);
  }

  lemma RmdirSettles(s: State, p: nat, d: nat, k: nat, i: nat)
    requires Inv(s) && Enabled(s, RmdirStart(p, d, k)) && i == s.inodes[d].ents[k].inum
    ensures Settled(Parted(s.inodes, d, k), s.procs[p := Unlinking(i)]) ==
            DirUnlinked(Settled(s.inodes, s.procs), d, k, i)
  {
    var procs := s.procs[p := Unlinking(i)];
    var a, b := DirUnlinked(Settled(s.inodes, s.procs), d, k, i), Settled(Parted(s.inodes, d, k), procs);
    forall j | 0 <= j < |a| ensures b[j] == a[j] { FlightAfter(s.procs, p, Unlinking(i), j); }
  }

  lemma EnterKeeps(s: State, p: nat, d: nat, k: nat, name: string)
    requires Inv(s) && Enabled(s, Enter(p, d, k, name))
    ensures Inv(Apply(s, Enter(p, d, k, name)))
  {
    EnterSettles(s, p, d, k, name);
    DirIsSettled(s, d);
    MakeLink(Settled(s.inodes, s.procs), s.tree, d, k, name, s.procs[p].i);
  }

  lemma UnlinkStartKeeps(s: State, p: nat, d: nat, k: nat)
    requires Inv(s) && Enabled(s, UnlinkStart(p, d, k))
    ensures Inv(Apply(s, UnlinkStart(p, d, k)))
  {
    UnlinkStartSettles(s, p, d, k);
    DirIsSettled(s, d);
    UnlinkFile(Settled(s.inodes, s.procs), s.tree, d, k, s.inodes[d].ents[k].inum);
  }

  lemma CreateStartKeeps(s: State, p: nat, i: nat, typ: Type)
    requires Inv(s) && Enabled(s, CreateStart(p, i, typ))
    ensures Inv(Apply(s, CreateStart(p, i, typ)))
  {
    CreateStartSettles(s, p, i, typ);
    AllotKeeps(Settled(s.inodes, s.procs), s.tree, i, typ);
  }

  lemma MkdirOk(s: State, p: nat, d: nat, k: nat, name: string, i: nat, t: State)
    requires Inv(s) && Enabled(s, Mkdir(p, d, k, name, i)) && t == Apply(s, Mkdir(p, d, k, name, i))
    ensures Ok(Settled(t.inodes, t.procs), t.tree)
  {
    MkdirSettles(s, d, k, name, i);
    DirIsSettled(s, d);
    MakeDir(Settled(s.inodes, s.procs), s.tree, d, k, name, i);
  }

  lemma MkdirKeeps(s: State, p: nat, d: nat, k: nat, name: string, i: nat)
    requires Inv(s) && Enabled(s, Mkdir(p, d, k, name, i))
    ensures Inv(Apply(s, Mkdir(p, d, k, name, i)))
  {
    var t := Apply(s, Mkdir(p, d, k, name, i));
    MkdirOk(s, p, d, k, name, i, t);
    forall q | 0 <= q < |t.procs| && t.procs[q] != Idle ensures 1 <= t.procs[q].i < |t.inodes| && PcOk(t, t.procs[q]) {
      assert PcOk(s, s.procs[q]);
    }
  }

  lemma RmdirKeeps(s: State, p: nat, d: nat, k: nat)
    requires Inv(s) && Enabled(s, RmdirStart(p, d, k))
    ensures Inv(Apply(s, RmdirStart(p, d, k)))
  {
    var i := s.inodes[d].ents[k].inum;
    RmdirSettles(s, p, d, k, i);
    DirIsSettled(s, d);
    DirIsSettled(s, i);
    UnlinkDir(Settled(s.inodes, s.procs), s.tree, d, k, i);
  }

  /** References are no links. */
  lemma RefsCounts(a: seq<Inode>, i: nat, n: nat)
    requires CountOk(a) && i < |a|
    ensures CountOk(a[i := a[i].(refs := n)])
  {
    var b := a[i := a[i].(refs := n)];
    forall j | 1 <= j < |b| ensures |LinksTo(b, j)| == if b[j].typ.Free? then 0 else b[j].nlink {
      LinksDiffer(a, b, j, 0, 0);
    }
  }

  lemma RefsTree(a: seq<Inode>, tree: seq<Node>, i: nat, n: nat)
    requires TreeOk(a, tree) && i < |a|
    ensures TreeOk(a[i := a[i].(refs := n)], tree)
  {
    var b := a[i := a[i].(refs := n)];
    forall c | 0 <= c < |b| && Linked(b[c]) ensures DirOk(b, c) && Placed(b, tree, c) {
      assert DirOk(a, c) && Placed(a, tree, c);
    }
    forall e, m | 0 <= e < |b| && Linked(b[e]) && 2 <= m < |b[e].ents| ensures NamesChild(b, tree, e, m) {
      assert NamesChild(a, tree, e, m);
    }
  }

  lemma ReferKeeps(s: State, i: nat, n: nat)
    requires Inv(s) && Enabled(s, Refer(i, n))
    ensures Inv(Apply(s, Refer(i, n)))
  {
    var a := Settled(s.inodes, s.procs);
    RefsCounts(a, i, n);
    RefsTree(a, s.tree, i, n);
    assert Settled(s.inodes[i := s.inodes[i].(refs := n)], s.procs) == a[i := a[i].(refs := n)];
  }

  lemma ReclaimKeeps(s: State, i: nat)
    requires Inv(s) && Enabled(s, Reclaim(i))
    ensures Inv(Apply(s, Reclaim(i)))
  {
    var a := Settled(s.inodes, s.procs);
    FreeInode(a, s.tree, i);
    assert Settled(s.inodes[i := Inode(Free, 0, [], 0)], s.procs) == a[i := Inode(Free, 0, [], a[i].refs)];
    FlightHasOwner(s.procs, i);
  }

  lemma RelinkKeeps(s: State, step: Step)
    requires Inv(s) && Enabled(s, step) && (step.LinkStart? || step.LinkAbort? || step.UnlinkEnd?)
    ensures Inv(Apply(s, step))
  {
    match step
    case LinkStart(p, i) => RelinkSettles(s, p, i, Linking(i), 1);
    case LinkAbort(p) => RelinkSettles(s, p, s.procs[p].i, Idle, -1);
    case UnlinkEnd(p) => RelinkSettles(s, p, s.procs[p].i, Idle, -1);
  }

  lemma StepKeeps(s: State, step: Step)
    requires Inv(s) && Enabled(s, step)
    ensures Inv(Apply(s, step))
  {
    match step
    case CreateStart(p, i, typ) => CreateStartKeeps(s, p, i, typ);
    case Enter(p, d, k, name) => EnterKeeps(s, p, d, k, name);
    case UnlinkStart(p, d, k) => UnlinkStartKeeps(s, p, d, k);
    case Mkdir(p, d, k, name, i) => MkdirKeeps(s, p, d, k, name, i);
    case RmdirStart(p, d, k) => RmdirKeeps(s, p, d, k);
    case Refer(i, n) => ReferKeeps(s, i, n);
    case Reclaim(i) => ReclaimKeeps(s, i);
    case _ => RelinkKeeps(s, step);
  }

  // Whole runs.

  ghost predicate Run(ss: seq<State>, steps: seq<Step>) {
    && |ss| == |steps| + 1 && Ok(ss[0].inodes, ss[0].tree) &&
       (forall p :: 0 <= p < |ss[0].procs| ==> ss[0].procs[p] == Idle)
    && forall k {:trigger steps[k]} ::
       0 <= k < |steps| ==> Enabled(ss[k], steps[k]) && ss[k + 1] == Apply(ss[k], steps[k])
  }

  lemma StartKeeps(s: State)
    requires Ok(s.inodes, s.tree) && forall p :: 0 <= p < |s.procs| ==> s.procs[p] == Idle
    ensures Inv(s)
  {
    forall i: nat | i < |s.inodes| ensures InFlight(s.procs, i) == 0 { FlightHasOwner(s.procs, i); }
    assert Settled(s.inodes, s.procs) == s.inodes;
  }

  lemma {:induction false} RunKeeps(ss: seq<State>, steps: seq<Step>, k: nat)
    requires Run(ss, steps) && k <= |steps|
    ensures Inv(ss[k])
  {
    if k == 0 {
      StartKeeps(ss[0]);
    } else {
      RunKeeps(ss, steps, k - 1);
      assert Enabled(ss[k - 1], steps[k - 1]);
      StepKeeps(ss[k - 1], steps[k - 1]);
    }
  }

  /** The entries that name inode i, in directories that are not being removed. */
  ghost function LiveLinks(s: State, i: nat): set<(nat, nat)> { LinksTo(Settled(s.inodes, s.procs), i) }

  ghost predicate NoDirInFlight(s: State) {
    forall d: nat :: d < |s.inodes| && s.inodes[d].typ.Dir? ==> Unlocked(s, d)
  }

  /** When no directory is being removed these are all of them. */
  lemma SameLinks(s: State, i: nat)
    requires Inv(s) && NoDirInFlight(s)
    ensures LiveLinks(s, i) == LinksTo(s.inodes, i)
  {
    var a := Settled(s.inodes, s.procs);
    forall d: nat, k: nat ensures LinkAt(a, d, k, i) == LinkAt(s.inodes, d, k, i) {
      if d < |a| && s.inodes[d].typ.Dir? { DirIsSettled(s, d); }
    }
    forall d: nat, k: nat ensures (d, k) in LinksTo(a, i) <==> (d, k) in LinksTo(s.inodes, i) {
      LinksIs(a, i, d, k);
      LinksIs(s.inodes, i, d, k);
    }
  }

  /** In every run, at every moment, the link count of an inode in use is the number of entries that name it plus
      the number of calls in progress that have raised or not yet lowered it. */
  lemma CountsWithInFlight(ss: seq<State>, steps: seq<Step>, k: nat, i: nat)
    requires Run(ss, steps) && k <= |steps| && 1 <= i < |ss[k].inodes| && !ss[k].inodes[i].typ.Free?
    ensures ss[k].inodes[i].nlink == |LiveLinks(ss[k], i)| + InFlight(ss[k].procs, i)
    ensures NoDirInFlight(ss[k]) ==> LiveLinks(ss[k], i) == LinksTo(ss[k].inodes, i)
  {
    RunKeeps(ss, steps, k);
    var s := ss[k];
    if NoDirInFlight(s) { SameLinks(s, i); }
    assert |LinksTo(Settled(s.inodes, s.procs), i)| == Lowered(s.inodes[i], InFlight(s.procs, i)).nlink;
  }

  /** So when nothing is in flight the counts and the tree are exact again. */
  lemma QuietIsOk(ss: seq<State>, steps: seq<Step>, k: nat)
    requires Run(ss, steps) && k <= |steps| && forall p :: 0 <= p < |ss[k].procs| ==> ss[k].procs[p] == Idle
    ensures Ok(ss[k].inodes, ss[k].tree)
  {
    RunKeeps(ss, steps, k);
    var s := ss[k];
    forall i: nat | i < |s.inodes| ensures InFlight(s.procs, i) == 0 { FlightHasOwner(s.procs, i); }
    assert Settled(s.inodes, s.procs) == s.inodes;
  }

  /** A name that sys_unlink finds is that of an inode with a link, whatever else is going on: the panic
      "unlink: nlink < 1" is unreachable. */
  lemma UnlinkFindsLink(ss: seq<State>, steps: seq<Step>, k: nat, d: nat, e: nat)
    requires Run(ss, steps) && k <= |steps| && d < |ss[k].inodes| && e < |ss[k].inodes[d].ents|
    requires Names(ss[k].inodes, d, e, ss[k].inodes[d].ents[e].inum) && ss[k].inodes[d].ents[e].name != "."
    requires Unlocked(ss[k], d)
    ensures ss[k].inodes[ss[k].inodes[d].ents[e].inum].nlink >= 1
  {
    RunKeeps(ss, steps, k);
    var s := ss[k];
    var a, i := Settled(s.inodes, s.procs), s.inodes[d].ents[e].inum;
    DirIsSettled(s, d);
    assert LinkAt(a, d, e, i);
    NamedHasLink(a, d, e, i);
  }
}
