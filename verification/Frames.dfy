/** Who owns each frame of physical memory: the free list, a page directory through its tables, or the kernel
    code that has just taken it from the free list. */
module Frames {
  import opened Blocks

  const NENTRIES := 1024
  const USER_TABLES := 512           // page directory entries below KERNBASE

  datatype Entry = Absent | Entry(frame: nat, flags: nat)

  type Table = t: seq<Entry> | |t| == 1024 witness seq(1024, _ => Absent)

  /** What a frame holds: page directory or page table entries, or bytes. */
  datatype Frame = Tab(e: Table) | Page(b: seq<Byte>)

  type Memory = map<nat, Frame>

  predicate IsTab(mem: Memory, f: nat) { f in mem && mem[f].Tab? }

  /** Entry i of directory d refers to a page table. */
  predicate HasTab(mem: Memory, d: nat, i: nat) { IsTab(mem, d) && i < NENTRIES && mem[d].e[i].Entry? }

  function TabOf(mem: Memory, d: nat, i: nat): nat
    requires HasTab(mem, d, i)
  {
    mem[d].e[i].frame
  }

  /** The page with indices i and j is present in directory d. */
  predicate HasPte(mem: Memory, d: nat, i: nat, j: nat) {
    HasTab(mem, d, i) && IsTab(mem, TabOf(mem, d, i)) && j < NENTRIES && mem[TabOf(mem, d, i)].e[j].Entry?
  }

  function Pte(mem: Memory, d: nat, i: nat, j: nat): Entry
    requires HasPte(mem, d, i, j)
  {
    mem[TabOf(mem, d, i)].e[j]
  }

  datatype Place = OnFree(k: nat) | InHand | IsDir | IsTable(d: nat, i: nat) | IsPage(d: nat, i: nat, j: nat)

  predicate Owned(owner: map<nat, Place>, f: nat, p: Place) { f in owner && owner[f] == p }

  /** free is kmem.freelist, its head last; `hand` are the frames that kalloc has handed out and that are not yet
      linked anywhere; `dirs` are the page directories. */
  datatype State = State(free: seq<nat>, hand: set<nat>, dirs: set<nat>, mem: Memory, owner: map<nat, Place>)

  predicate FreeOk(free: seq<nat>, owner: map<nat, Place>) {
    forall k :: 0 <= k < |free| ==> Owned(owner, free[k], OnFree(k))
  }

  predicate HandOk(hand: set<nat>, owner: map<nat, Place>) {
    forall f :: f in hand ==> Owned(owner, f, InHand)
  }

  ghost predicate DirsOk(dirs: set<nat>, mem: Memory, owner: map<nat, Place>) {
    && (forall d :: d in dirs ==> Owned(owner, d, IsDir) && IsTab(mem, d))
    && (forall d: nat, i: nat {:trigger HasTab(mem, d, i)} :: d in dirs && HasTab(mem, d, i) ==>
          Owned(owner, TabOf(mem, d, i), IsTable(d, i)) && IsTab(mem, TabOf(mem, d, i)))
  }

  ghost predicate PagesOk(dirs: set<nat>, mem: Memory, owner: map<nat, Place>) {
    forall d: nat, i: nat, j: nat {:trigger HasPte(mem, d, i, j)} ::
        d in dirs && i < USER_TABLES && HasPte(mem, d, i, j) ==>
      Owned(owner, Pte(mem, d, i, j).frame, IsPage(d, i, j))
  }

  /** Frame f is where `owner` says. */
  predicate Found(s: State, f: nat)
    requires f in s.owner
  {
    match s.owner[f]
    case OnFree(k) => k < |s.free| && s.free[k] == f
    case InHand => f in s.hand
    case IsDir => f in s.dirs
    case IsTable(d, i) => d in s.dirs && HasTab(s.mem, d, i) && TabOf(s.mem, d, i) == f
    case IsPage(d, i, j) => d in s.dirs && i < USER_TABLES && HasPte(s.mem, d, i, j) && Pte(s.mem, d, i, j).frame == f
  }

  ghost predicate Sound(s: State) {
    && FreeOk(s.free, s.owner) && HandOk(s.hand, s.owner) && DirsOk(s.dirs, s.mem, s.owner) &&
       PagesOk(s.dirs, s.mem, s.owner)
    && (forall f :: f in s.owner ==> f in s.mem) && (forall f {:trigger Found(s, f)} :: f in s.owner ==> Found(s, f))
  }

  /** Sound, folded: a proof that looks inside mentions Use. */
  ghost predicate Inv(s: State) {
    forall k: nat {:trigger Use(k)} :: Use(k) ==> Sound(s)
  }

  ghost predicate Use(k: nat) { k >= 0 }

  // kalloc and kfree.

  function Popped(s: State): State
    requires |s.free| > 0
  {
    var f := s.free[|s.free| - 1];
    s.(free := s.free[..|s.free| - 1], hand := s.hand + {f}, owner := s.owner[f := InHand])
  }

  function Pushed(s: State, f: nat, x: Frame): State {
    s.(free := s.free + [f], hand := s.hand - {f}, mem := s.mem[f := x], owner := s.owner[f := OnFree(|s.free|)])
  }

  lemma PopKeeps(s: State)
    requires Inv(s) && |s.free| > 0
    ensures Inv(Popped(s)) && s.free[|s.free| - 1] !in s.hand
  {
    assert Use(0);
    var t := Popped(s);
    forall f | f in t.owner ensures Found(t, f) { assert Found(s, f); }
  }

  /** Storing into a frame in hand changes no table that is in use. */
  lemma HandWrite(s: State, f: nat, x: Frame)
    requires Inv(s) && f in s.hand
    ensures Inv(s.(mem := s.mem[f := x]))
  {
    assert Use(0);
    var mem := s.mem[f := x];
    var t := s.(mem := mem);
    SameTables(s, mem);
    forall g | g in t.owner ensures Found(t, g) { assert Found(s, g); }
  }

  /** The tables in use are the same in another memory. */
  lemma SameTables(s: State, mem: Memory)
    requires Inv(s)
    requires forall g :: g in s.owner && (s.owner[g].IsDir? || s.owner[g].IsTable?) ==>
             g in mem && g in s.mem && mem[g] == s.mem[g]
    ensures forall d: nat, i: nat ::
            d in s.dirs ==>
            HasTab(mem, d, i) == HasTab(s.mem, d, i) && (HasTab(mem, d, i) ==> TabOf(mem, d, i) == TabOf(s.mem, d, i))
    ensures forall d: nat, i: nat, j: nat ::
            d in s.dirs ==>
            HasPte(mem, d, i, j) == HasPte(s.mem, d, i, j) &&
            (HasPte(mem, d, i, j) ==> Pte(mem, d, i, j) == Pte(s.mem, d, i, j))
    ensures DirsOk(s.dirs, mem, s.owner) && PagesOk(s.dirs, mem, s.owner)
  {
    assert Use(0);
    forall d: nat, i: nat | d in s.dirs
      ensures HasTab(mem, d, i) == HasTab(s.mem, d, i) &&
              (HasTab(mem, d, i) ==> TabOf(mem, d, i) == TabOf(s.mem, d, i) && IsTab(mem, TabOf(mem, d, i)))
    {
      assert HasTab(s.mem, d, i) ==> Owned(s.owner, TabOf(s.mem, d, i), IsTable(d, i));
    }
  }

  lemma PushKeeps(s: State, f: nat, x: Frame)
    requires Inv(s) && f in s.hand
    ensures Inv(Pushed(s, f, x))
  {
    assert Use(0);
    HandWrite(s, f, x);
    var s1, t := s.(mem := s.mem[f := x]), Pushed(s, f, x);
    forall g | g in t.owner ensures Found(t, g) { assert Found(s1, g); }
  }

  lemma DirIsTab(s: State, d: nat)
    requires Inv(s) && d in s.dirs
    ensures IsTab(s.mem, d)
  {
    assert Use(0);
  }

  lemma TabIsTab(s: State, d: nat, i: nat)
    requires Inv(s) && d in s.dirs && HasTab(s.mem, d, i)
    ensures IsTab(s.mem, TabOf(s.mem, d, i))
  {
    assert Use(0);
  }

  lemma HandInMem(s: State, f: nat)
    requires Inv(s) && f in s.hand
    ensures f in s.mem && Owned(s.owner, f, InHand)
  {
    assert Use(0);
  }

  // Linking and unlinking.

  function SetEntry(mem: Memory, f: nat, k: nat, x: Entry): Memory {
    if IsTab(mem, f) && k < NENTRIES then mem[f := Tab(mem[f].e[k := x])] else mem
  }

  /** A frame in hand becomes page table i of directory d. */
  function TableLinked(s: State, d: nat, i: nat, f: nat, flags: nat): State
  {
    s.(hand := s.hand - {f}, mem := SetEntry(s.mem, d, i, Entry(f, flags)), owner := s.owner[f := IsTable(d, i)])
  }

  /** A frame in hand becomes the page with indices i and j in directory d. */
  function PageLinked(s: State, d: nat, i: nat, j: nat, f: nat, flags: nat): State
    requires HasTab(s.mem, d, i)
  {
    s.(hand := s.hand - {f}, mem := SetEntry(s.mem, TabOf(s.mem, d, i), j, Entry(f, flags)),
        owner := s.owner[f := IsPage(d, i, j)])
  }

  /** That page goes out of directory d and into hand. */
  function PageCut(s: State, d: nat, i: nat, j: nat): State
    requires HasPte(s.mem, d, i, j)
  {
    var f := Pte(s.mem, d, i, j).frame;
    s.(hand := s.hand + {f}, mem := SetEntry(s.mem, TabOf(s.mem, d, i), j, Absent), owner := s.owner[f := InHand])
  }

  /** Frame f has been cleared for use as a table. */
  predicate ZeroAt(mem: Memory, f: nat) { IsTab(mem, f) && forall k :: 0 <= k < NENTRIES ==> mem[f].e[k].Absent? }

  /** The pages of the directories in dirs are the same in two memories. */
  ghost predicate SamePages(dirs: set<nat>, mem: Memory, mem': Memory) {
    forall d: nat, i: nat, j: nat {:trigger HasPte(mem', d, i, j)} {:trigger HasPte(mem, d, i, j)} :: d in dirs ==>
      HasPte(mem', d, i, j) == HasPte(mem, d, i, j) &&
          (HasPte(mem, d, i, j) ==> Pte(mem', d, i, j) == Pte(mem, d, i, j))
  }

  lemma TableEffect(s: State, d: nat, i: nat, f: nat, flags: nat, d': nat, i': nat)
    requires Inv(s) && d in s.dirs && i < NENTRIES && !HasTab(s.mem, d, i) && f in s.hand && ZeroAt(s.mem, f) &&
             d' in s.dirs
    ensures var mem := TableLinked(s, d, i, f, flags).mem;
      && HasTab(mem, d', i') == (HasTab(s.mem, d', i') || (d' == d && i' == i))
      && (HasTab(mem, d', i') ==> TabOf(mem, d', i') == if d' == d && i' == i then f else TabOf(s.mem, d', i'))
      && (HasTab(mem, d', i') ==>
         IsTab(mem, TabOf(mem, d', i')) && mem[TabOf(mem, d', i')] == s.mem[TabOf(mem, d', i')])
      && (HasTab(s.mem, d', i') ==> TabOf(s.mem, d', i') != f)
  {
    assert Use(0);
    assert f != d;
    assert HasTab(s.mem, d', i') ==> Owned(s.owner, TabOf(s.mem, d', i'), IsTable(d', i'));
  }

  lemma TablePages(s: State, d: nat, i: nat, f: nat, flags: nat)
    requires Inv(s) && d in s.dirs && i < NENTRIES && !HasTab(s.mem, d, i) && f in s.hand && ZeroAt(s.mem, f)
    ensures SamePages(s.dirs, s.mem, TableLinked(s, d, i, f, flags).mem)
  {
    assert Use(0);
    var mem := TableLinked(s, d, i, f, flags).mem;
    forall d': nat, i': nat, j: nat | d' in s.dirs
      ensures HasPte(mem, d', i', j) == HasPte(s.mem, d', i', j) &&
              (HasPte(s.mem, d', i', j) ==> Pte(mem, d', i', j) == Pte(s.mem, d', i', j))
    {
      TableEffect(s, d, i, f, flags, d', i');
    }
  }

  lemma LinkTable(s: State, d: nat, i: nat, f: nat, flags: nat)
    requires Inv(s) && d in s.dirs && i < NENTRIES && !HasTab(s.mem, d, i) && f in s.hand && ZeroAt(s.mem, f)
    ensures var t := TableLinked(s, d, i, f, flags); Inv(t) && SamePages(s.dirs, s.mem, t.mem)
  {
    assert Use(0);
    var t := TableLinked(s, d, i, f, flags);
    TablePages(s, d, i, f, flags);
    forall d': nat, i': nat | d' in t.dirs && HasTab(t.mem, d', i')
      ensures Owned(t.owner, TabOf(t.mem, d', i'), IsTable(d', i')) && IsTab(t.mem, TabOf(t.mem, d', i'))
    {
      TableEffect(s, d, i, f, flags, d', i');
    }
    forall d': nat, i': nat, j: nat | d' in t.dirs && i' < USER_TABLES && HasPte(t.mem, d', i', j)
      ensures Owned(t.owner, Pte(t.mem, d', i', j).frame, IsPage(d', i', j))
    {
      assert HasPte(s.mem, d', i', j);
    }
    forall g | g in t.owner ensures Found(t, g) {
      assert Found(s, g);
      if s.owner[g].IsTable? { TableEffect(s, d, i, f, flags, s.owner[g].d, s.owner[g].i); }
    }
  }

  /** Entry j of page table i of directory d changes; no other entry of a table in use does. */
  lemma EntryEffect(s: State, d: nat, i: nat, j: nat, x: Entry, mem: Memory, d': nat, i': nat, j': nat)
    requires Inv(s) && d in s.dirs && HasTab(s.mem, d, i) && j < NENTRIES && d' in s.dirs
    requires mem == SetEntry(s.mem, TabOf(s.mem, d, i), j, x)
    ensures HasTab(mem, d', i') == HasTab(s.mem, d', i') &&
            (HasTab(s.mem, d', i') ==> TabOf(mem, d', i') == TabOf(s.mem, d', i') && IsTab(mem, TabOf(mem, d', i')))
    ensures if d' == d && i' == i && j' == j then
              HasPte(mem, d', i', j') == x.Entry? && (x.Entry? ==> Pte(mem, d', i', j') == x)
            else
              HasPte(mem, d', i', j') == HasPte(s.mem, d', i', j') &&
              (HasPte(mem, d', i', j') ==> Pte(mem, d', i', j') == Pte(s.mem, d', i', j'))
  {
    assert Use(0);
    assert Owned(s.owner, TabOf(s.mem, d, i), IsTable(d, i));
    assert HasTab(s.mem, d', i') ==> Owned(s.owner, TabOf(s.mem, d', i'), IsTable(d', i'));
  }

  /** The same for all entries. */
  ghost predicate OneEntry(dirs: set<nat>, mem: Memory, mem': Memory, d: nat, i: nat, j: nat, x: Entry) {
    && HasPte(mem', d, i, j) == x.Entry? && (x.Entry? ==> Pte(mem', d, i, j) == x)
    && (forall d': nat, i': nat {:trigger HasTab(mem', d', i')} :: d' in dirs ==>
          HasTab(mem', d', i') == HasTab(mem, d', i') &&
              (HasTab(mem, d', i') ==> TabOf(mem', d', i') == TabOf(mem, d', i') && IsTab(mem', TabOf(mem', d', i'))))
    && (forall d': nat, i': nat, j': nat {:trigger HasPte(mem', d', i', j')} ::
       d' in dirs && !(d' == d && i' == i && j' == j) ==>
          HasPte(mem', d', i', j') == HasPte(mem, d', i', j') &&
              (HasPte(mem, d', i', j') ==> Pte(mem', d', i', j') == Pte(mem, d', i', j')))
  }

  lemma OneEntryChanges(s: State, d: nat, i: nat, j: nat, x: Entry, mem: Memory)
    requires Inv(s) && d in s.dirs && HasTab(s.mem, d, i) && j < NENTRIES &&
             mem == SetEntry(s.mem, TabOf(s.mem, d, i), j, x)
    ensures OneEntry(s.dirs, s.mem, mem, d, i, j, x)
  {
    assert Use(0);
    EntryEffect(s, d, i, j, x, mem, d, i, j);
    forall d': nat, i': nat | d' in s.dirs
      ensures HasTab(mem, d', i') == HasTab(s.mem, d', i') &&
              (HasTab(s.mem, d', i') ==> TabOf(mem, d', i') == TabOf(s.mem, d', i') && IsTab(mem, TabOf(mem, d', i')))
    {
      EntryEffect(s, d, i, j, x, mem, d', i', 0);
    }
    forall d': nat, i': nat, j': nat | d' in s.dirs && !(d' == d && i' == i && j' == j)
      ensures HasPte(mem, d', i', j') == HasPte(s.mem, d', i', j') &&
              (HasPte(s.mem, d', i', j') ==> Pte(mem, d', i', j') == Pte(s.mem, d', i', j'))
    {
      EntryEffect(s, d, i, j, x, mem, d', i', j');
    }
  }

  lemma LinkPage(s: State, d: nat, i: nat, j: nat, f: nat, flags: nat)
    requires Inv(s) && d in s.dirs && i < USER_TABLES && HasTab(s.mem, d, i) && j < NENTRIES &&
             !HasPte(s.mem, d, i, j) && f in s.hand
    ensures var t := PageLinked(s, d, i, j, f, flags);
            Inv(t) && OneEntry(s.dirs, s.mem, t.mem, d, i, j, Entry(f, flags))
  {
    assert Use(0);
    var t := PageLinked(s, d, i, j, f, flags);
    OneEntryChanges(s, d, i, j, Entry(f, flags), t.mem);
    forall g | g in t.owner ensures Found(t, g) { assert Found(s, g); }
  }

  lemma CutPage(s: State, d: nat, i: nat, j: nat)
    requires Inv(s) && d in s.dirs && i < USER_TABLES && HasPte(s.mem, d, i, j)
    ensures var t := PageCut(s, d, i, j); Inv(t) && OneEntry(s.dirs, s.mem, t.mem, d, i, j, Absent)
    ensures Pte(s.mem, d, i, j).frame !in s.hand
  {
    assert Use(0);
    var t, f := PageCut(s, d, i, j), Pte(s.mem, d, i, j).frame;
    OneEntryChanges(s, d, i, j, Absent, t.mem);
    assert Owned(s.owner, f, IsPage(d, i, j));
    forall g | g in t.owner ensures Found(t, g) { assert Found(s, g); }
  }

  /** Mappings of the kernel's own part own nothing. */
  lemma LinkKernel(s: State, d: nat, i: nat, j: nat, x: Entry)
    requires Inv(s) && d in s.dirs && USER_TABLES <= i && HasTab(s.mem, d, i) && j < NENTRIES
    ensures var t := s.(mem := SetEntry(s.mem, TabOf(s.mem, d, i), j, x));
            Inv(t) && OneEntry(s.dirs, s.mem, t.mem, d, i, j, x)
  {
    assert Use(0);
    var t := s.(mem := SetEntry(s.mem, TabOf(s.mem, d, i), j, x));
    OneEntryChanges(s, d, i, j, x, t.mem);
    forall g | g in t.owner ensures Found(t, g) { assert Found(s, g); }
  }

  // Whole directories.

  function DirMade(s: State, f: nat): State {
    s.(hand := s.hand - {f}, dirs := s.dirs + {f}, owner := s.owner[f := IsDir])
  }

  lemma MakeDir(s: State, f: nat)
    requires Inv(s) && f in s.hand && ZeroAt(s.mem, f)
    ensures Inv(DirMade(s, f)) && f !in s.dirs
  {
    assert Use(0);
    var t := DirMade(s, f);
    forall g | g in t.owner ensures Found(t, g) { assert Found(s, g); }
  }

  /** A frame that directory d owns, itself included. */
  predicate PartOf(p: Place, g: nat, d: nat) {
    (p.IsDir? && g == d) || (p.IsTable? && p.d == d) || (p.IsPage? && p.d == d)
  }

  /** Directory d is taken apart: it and its page tables are in hand. */
  function DirDropped(s: State, d: nat): State {
    s.(dirs := s.dirs - {d},
       hand := s.hand + (set g | g in s.owner && PartOf(s.owner[g], g, d)),
       owner := map g | g in s.owner :: if PartOf(s.owner[g], g, d) then InHand else s.owner[g])
  }

  predicate NoUserPages(s: State, d: nat) {
    forall g :: g in s.owner ==> !(s.owner[g].IsPage? && s.owner[g].d == d)
  }

  lemma DropDir(s: State, d: nat)
    requires Inv(s) && d in s.dirs
    ensures Inv(DirDropped(s, d))
  {
    assert Use(0);
    var t := DirDropped(s, d);
    forall g | g in t.owner ensures Found(t, g) { assert Found(s, g); }
  }

  /** From s to t nothing has changed but the free list and directory d with what belongs to it. */
  ghost predicate Elsewhere(s: State, t: State, d: nat) {
    && t.owner.Keys == s.owner.Keys
    && forall g :: g in s.owner ==>
         if s.owner[g].OnFree? || PartOf(s.owner[g], g, d) then t.owner[g].OnFree? || PartOf(t.owner[g], g, d)
         else t.owner[g] == s.owner[g] && g in s.mem && g in t.mem && t.mem[g] == s.mem[g]
  }

  lemma ElsewhereTrans(s: State, t: State, u: State, d: nat)
    requires Elsewhere(s, t, d) && Elsewhere(t, u, d)
    ensures Elsewhere(s, u, d)
  {
  }

  /** Other directories map what they mapped, to the same frames. */
  lemma ElsewherePages(s: State, t: State, d: nat, d': nat)
    requires Inv(s) && Inv(t) && Elsewhere(s, t, d) && d' in s.dirs && d' != d
    ensures SamePages({d'}, s.mem, t.mem)
  {
    assert Use(0);
    assert Owned(s.owner, d', IsDir);
    forall i: nat, j: nat
      ensures HasPte(t.mem, d', i, j) == HasPte(s.mem, d', i, j) &&
              (HasPte(s.mem, d', i, j) ==> Pte(t.mem, d', i, j) == Pte(s.mem, d', i, j))
    {
      assert HasTab(s.mem, d', i) == HasTab(t.mem, d', i);
      assert HasTab(s.mem, d', i) ==> Owned(s.owner, TabOf(s.mem, d', i), IsTable(d', i));
    }
  }

  /** Everything is as before, but for the order of the free list and the junk in free frames. */
  ghost predicate Restored(s: State, t: State) {
    && t.owner.Keys == s.owner.Keys && t.dirs == s.dirs && t.hand == s.hand
    && forall g :: g in s.owner ==>
         if s.owner[g].OnFree? then t.owner[g].OnFree?
         else t.owner[g] == s.owner[g] && g in s.mem && g in t.mem && t.mem[g] == s.mem[g]
  }

  /** A slot of the system that may refer to a frame. */
  ghost predicate RefersTo(s: State, p: Place, f: nat) {
    match p
    case OnFree(k) => k < |s.free| && s.free[k] == f
    case InHand => f in s.hand
    case IsDir => f in s.dirs
    case IsTable(d, i) => d in s.dirs && HasTab(s.mem, d, i) && TabOf(s.mem, d, i) == f
    case IsPage(d, i, j) => d in s.dirs && i < USER_TABLES && HasPte(s.mem, d, i, j) && Pte(s.mem, d, i, j).frame == f
  }

  /** Every frame is referred to from exactly one slot: of the free list, of one directory or one of its
      tables, or in hand. */
  lemma OwnedOnce(s: State, f: nat)
    requires Inv(s) && f in s.owner
    ensures exists p :: RefersTo(s, p, f)
    ensures forall p, q :: RefersTo(s, p, f) && RefersTo(s, q, f) ==> p == q
  {
    assert Use(0);
    assert Found(s, f);
    assert RefersTo(s, s.owner[f], f);
    forall p | RefersTo(s, p, f) ensures p == s.owner[f] {
      match p
      case OnFree(k) => assert Owned(s.owner, s.free[k], OnFree(k));
      case IsTable(d, i) => assert Owned(s.owner, TabOf(s.mem, d, i), p);
      case IsPage(d, i, j) => assert Owned(s.owner, Pte(s.mem, d, i, j).frame, p);
      case _ =>
    }
  }
}
