/** kalloc.c and vm.c: page directories and page tables in frames of memory, and the list of free frames.
    Addresses are page numbers: page i * 1024 + j has indices i in the directory and j in the table. */
module Vm {
  import opened Blocks
  import opened Frames
  import opened PageBill

  const PGSIZE := 4096
  const KERNBASE := 0x8000_0000
  const KERN_PAGE := 524288          // KERNBASE / PGSIZE

  /** PTE_W | PTE_U | PTE_P for user pages; PTE_P alone is 1. */
  const PTE_WUP := 7

  datatype Result = Ok | NoMemory | Panic

  /** PGROUNDUP(sz) / PGSIZE. */
  function PageUp(sz: nat): (p: nat)
    ensures p * PGSIZE >= sz && (p > 0 ==> (p - 1) * PGSIZE < sz)
  {
    (sz + PGSIZE - 1) / PGSIZE
  }

  /** memset(v, 1, PGSIZE). */
  function Junk(): Frame { Page(seq(PGSIZE, _ => 1)) }

  /** New page tables for directory d: nothing that was in use has changed but d itself. */
  ghost predicate Grew(s: State, t: State, d: nat) {
    && t.owner.Keys == s.owner.Keys && t.dirs == s.dirs && t.hand == s.hand && t.free <= s.free
    && SamePages(s.dirs, s.mem, t.mem)
    && forall g :: g in s.owner ==>
         if s.owner[g].OnFree? then t.owner[g].OnFree? || (t.owner[g].IsTable? && t.owner[g].d == d)
         else t.owner[g] == s.owner[g] && g in s.mem && g in t.mem && (g != d ==> t.mem[g] == s.mem[g])
  }

  /** User page k of directory d is as before, bytes included. */
  ghost predicate SamePage(s: State, t: State, d: nat, i: nat, j: nat) {
    && HasPte(t.mem, d, i, j) == HasPte(s.mem, d, i, j)
    && (HasPte(s.mem, d, i, j) ==>
          && Pte(t.mem, d, i, j) == Pte(s.mem, d, i, j)
          && var f := Pte(s.mem, d, i, j).frame; f in s.mem && f in t.mem && t.mem[f] == s.mem[f])
  }

  /** The user pages of directory d outside lo .. hi are as before. */
  ghost predicate KeepsPages(s: State, t: State, d: nat, lo: nat, hi: nat) {
    forall i: nat, j: nat {:trigger SamePage(s, t, d, i, j)} {:trigger HasPte(t.mem, d, i, j)} ::
      i < USER_TABLES && j < NENTRIES && !(lo <= i * NENTRIES + j < hi) ==> SamePage(s, t, d, i, j)
  }

  ghost predicate NonePresent(mem: Memory, d: nat, lo: nat, hi: nat) {
    forall i: nat, j: nat {:trigger HasPte(mem, d, i, j)} ::
        i < USER_TABLES && j < NENTRIES && lo <= i * NENTRIES + j < hi ==> !HasPte(mem, d, i, j)
  }

  /** What operations on directory d keep: the rest of the system, and d's user pages outside lo .. hi. */
  ghost predicate Touches(s: State, t: State, d: nat, lo: nat, hi: nat) {
    t.dirs == s.dirs && Elsewhere(s, t, d) && KeepsPages(s, t, d, lo, hi)
  }

  lemma KeepsTrans(s: State, t: State, u: State, d: nat, lo: nat, hi: nat)
    requires Touches(s, t, d, lo, hi) && Touches(t, u, d, lo, hi)
    ensures Touches(s, u, d, lo, hi)
  {
    ElsewhereTrans(s, t, u, d);
    forall i: nat, j: nat | i < USER_TABLES && j < NENTRIES && !(lo <= i * NENTRIES + j < hi)
      ensures SamePage(s, u, d, i, j)
    {
      assert HasPte(t.mem, d, i, j) == HasPte(s.mem, d, i, j) && HasPte(u.mem, d, i, j) == HasPte(t.mem, d, i, j);
    }
  }

  lemma KeepsWiden(s: State, t: State, d: nat, lo: nat, hi: nat, lo': nat, hi': nat)
    requires Touches(s, t, d, lo, hi) && (lo >= hi || lo' <= lo <= hi <= hi')
    ensures Touches(s, t, d, lo', hi')
  {
  }

  lemma GrewSame(s: State, d: nat)
    requires Inv(s)
    ensures Grew(s, s, d)
  {
    assert Use(0);
  }

  lemma GrewTouches(s: State, t: State, d: nat)
    requires Inv(s) && Inv(t) && Grew(s, t, d) && d in s.dirs
    ensures Touches(s, t, d, 0, 0)
  {
    assert Use(0);
    assert Owned(s.owner, d, IsDir);
    forall i: nat, j: nat | i < USER_TABLES && j < NENTRIES ensures SamePage(s, t, d, i, j) {
      if HasPte(s.mem, d, i, j) { assert Owned(s.owner, Pte(s.mem, d, i, j).frame, IsPage(d, i, j)); }
    }
  }

  /** s, but with frame f, which kalloc has handed out, counted as free. */
  function Loaned(s: State, f: nat): State {
    s.(hand := s.hand - {f}, owner := s.owner[f := OnFree(0)])
  }

  /** One page of directory d is mapped to a frame that was in hand. */
  lemma LinkTouches(s: State, d: nat, i: nat, j: nat, f: nat, flags: nat, k: nat)
    requires Inv(s) && d in s.dirs && i < USER_TABLES && HasTab(s.mem, d, i) && j < NENTRIES &&
             !HasPte(s.mem, d, i, j) && f in s.hand
    requires k == i * NENTRIES + j
    ensures var t := PageLinked(s, d, i, j, f, flags);
      && Inv(t) && Touches(Loaned(s, f), t, d, k, k + 1) && t.hand == s.hand - {f}
      && HasPte(t.mem, d, i, j) && Pte(t.mem, d, i, j) == Entry(f, flags) && f in s.mem && f in t.mem &&
         t.mem[f] == s.mem[f]
  {
    assert Use(0);
    var s1, t := Loaned(s, f), PageLinked(s, d, i, j, f, flags);
    LinkPage(s, d, i, j, f, flags);
    assert Owned(s.owner, TabOf(s.mem, d, i), IsTable(d, i)) && Owned(s.owner, f, InHand);
    forall i': nat, j': nat | i' < USER_TABLES && j' < NENTRIES && !(k <= i' * NENTRIES + j' < k + 1)
      ensures SamePage(s1, t, d, i', j')
    {
      assert HasPte(t.mem, d, i', j') == HasPte(s.mem, d, i', j');
      if HasPte(s.mem, d, i', j') { assert Owned(s.owner, Pte(s.mem, d, i', j').frame, IsPage(d, i', j')); }
    }
  }

  /** The kernel's part of directory d is as before. */
  ghost predicate KernelKept(mem: Memory, mem': Memory, d: nat) {
    forall i: nat, j: nat {:trigger HasPte(mem', d, i, j)} :: USER_TABLES <= i && j < NENTRIES ==>
      HasPte(mem', d, i, j) == HasPte(mem, d, i, j) &&
          (HasPte(mem, d, i, j) ==> Pte(mem', d, i, j) == Pte(mem, d, i, j))
  }

  lemma KernelGrew(s: State, t: State, d: nat)
    requires Grew(s, t, d) && d in s.dirs
    ensures KernelKept(s.mem, t.mem, d)
  {
  }

  lemma KernelLinked(s: State, s1: State, d: nat, i: nat, j: nat, f: nat, flags: nat)
    requires KernelKept(s.mem, s1.mem, d) && Inv(s1) && d in s1.dirs && i < USER_TABLES && HasTab(s1.mem, d, i) &&
             j < NENTRIES && !HasPte(s1.mem, d, i, j) && f in s1.hand
    ensures KernelKept(s.mem, PageLinked(s1, d, i, j, f, flags).mem, d)
  {
    LinkPage(s1, d, i, j, f, flags);
    var mem := PageLinked(s1, d, i, j, f, flags).mem;
    forall i': nat, j': nat | USER_TABLES <= i' && j' < NENTRIES
      ensures HasPte(mem, d, i', j') == HasPte(s.mem, d, i', j') &&
              (HasPte(s.mem, d, i', j') ==> Pte(mem, d, i', j') == Pte(s.mem, d, i', j'))
    {
      assert HasPte(mem, d, i', j') == HasPte(s1.mem, d, i', j');
    }
  }

  lemma LoanBoth(s: State, t: State, f: nat, d: nat, lo: nat, hi: nat)
    requires Touches(s, t, d, lo, hi)
    ensures Touches(Loaned(s, f), Loaned(t, f), d, lo, hi)
  {
    forall i: nat, j: nat | i < USER_TABLES && j < NENTRIES && !(lo <= i * NENTRIES + j < hi)
      ensures SamePage(Loaned(s, f), Loaned(t, f), d, i, j)
    {
      assert SamePage(s, t, d, i, j);
    }
  }

  /** Two states that agree but for a free frame. */
  lemma FreeFrame(s: State, t: State, d: nat, f: nat)
    requires Inv(s) && d in s.dirs && t.dirs == s.dirs && t.owner.Keys == s.owner.Keys && f in s.owner &&
             s.owner[f].OnFree?
    requires t.mem.Keys == s.mem.Keys && forall g :: g in s.mem && g != f ==> t.mem[g] == s.mem[g]
    requires forall g :: g in s.owner ==> if s.owner[g].OnFree? then t.owner[g].OnFree? else t.owner[g] == s.owner[g]
    ensures Touches(s, t, d, 0, 0)
  {
    assert Use(0);
    SameTables(s, t.mem);
    forall i: nat, j: nat | i < USER_TABLES && j < NENTRIES ensures SamePage(s, t, d, i, j) {
      assert HasPte(t.mem, d, i, j) == HasPte(s.mem, d, i, j);
      if HasPte(s.mem, d, i, j) { assert Owned(s.owner, Pte(s.mem, d, i, j).frame, IsPage(d, i, j)); }
    }
  }

  /** The frame in hand goes back unused. */
  lemma ReturnTouches(s: State, d: nat, f: nat, x: Frame)
    requires Inv(s) && d in s.dirs && f in s.hand
    ensures Touches(Loaned(s, f), Pushed(s, f, x), d, 0, 0)
  {
    assert Use(0);
    var s1, t := Loaned(s, f), Pushed(s, f, x);
    HandWrite(s, f, x);
    SameTables(s, t.mem);
    forall i: nat, j: nat | i < USER_TABLES && j < NENTRIES ensures SamePage(s1, t, d, i, j) {
      assert HasPte(t.mem, d, i, j) == HasPte(s.mem, d, i, j);
      if HasPte(s.mem, d, i, j) { assert Owned(s.owner, Pte(s.mem, d, i, j).frame, IsPage(d, i, j)); }
    }
  }

  /** One page of directory d goes back to the free list. */
  lemma CutTouches(s: State, d: nat, i: nat, j: nat, x: Frame, k: nat)
    requires Inv(s) && d in s.dirs && i < USER_TABLES && HasPte(s.mem, d, i, j) && k == i * NENTRIES + j
    ensures var f := Pte(s.mem, d, i, j).frame; var t := Pushed(PageCut(s, d, i, j), f, x);
      && Inv(t) && Touches(s, t, d, k, k + 1) && !HasPte(t.mem, d, i, j) && t.hand == s.hand
  {
    assert Use(0);
    var f, s1 := Pte(s.mem, d, i, j).frame, PageCut(s, d, i, j);
    var t := Pushed(s1, f, x);
    CutPage(s, d, i, j);
    PushKeeps(s1, f, x);
    SameTables(s1, t.mem);
    assert Owned(s.owner, TabOf(s.mem, d, i), IsTable(d, i)) && Owned(s.owner, f, IsPage(d, i, j));
    assert HasPte(t.mem, d, i, j) == HasPte(s1.mem, d, i, j);
    forall i': nat, j': nat | i' < USER_TABLES && j' < NENTRIES && !(k <= i' * NENTRIES + j' < k + 1)
      ensures SamePage(s, t, d, i', j')
    {
      assert HasPte(t.mem, d, i', j') == HasPte(s1.mem, d, i', j') == HasPte(s.mem, d, i', j');
      if HasPte(s.mem, d, i', j') { assert Owned(s.owner, Pte(s.mem, d, i', j').frame, IsPage(d, i', j')); }
    }
  }

  /** The only change of ownership is that pages of directory d have become free. */
  ghost predicate OnlyFrees(s: State, t: State, d: nat) {
    && t.owner.Keys == s.owner.Keys
    && forall g ::
       g in s.owner ==> t.owner[g] == s.owner[g] || (s.owner[g].IsPage? && s.owner[g].d == d && t.owner[g].OnFree?)
  }

  class PhysMem {
    var free: seq<nat>               // kmem.freelist, its head last
    var mem: Memory
    ghost var hand: set<nat>
    ghost var dirs: set<nat>
    ghost var owner: map<nat, Place>

    ghost function Now(): State
      reads this
    {
      State(free, hand, dirs, mem, owner)
    }

    ghost predicate Valid()
      reads this
    {
      Inv(Now())
    }

    /** kalloc. */
    method Kalloc() returns (ok: bool, f: nat)
      requires Valid()
      modifies `free, `hand, `owner
      ensures Valid() && ok == (old(free) != []) &&
              (ok ==> Now() == Popped(old(Now())) && f == old(free)[|old(free)| - 1] && f !in old(hand))
      ensures !ok ==> Now() == old(Now())
    {
      if free == [] {
        return false, 0;
      }
      PopKeeps(Now());
      ok, f := true, free[|free| - 1];
      free := free[..|free| - 1];
      hand, owner := hand + {f}, owner[f := InHand];
    }

    /** kfree: the frame is filled with ones and put on the list. */
    method Kfree(f: nat)
      requires Valid() && f in hand
      modifies `free, `mem, `hand, `owner
      ensures Valid() && Now() == Pushed(old(Now()), f, Junk())
    {
      PushKeeps(Now(), f, Junk());
      mem := mem[f := Junk()];
      owner := owner[f := OnFree(|free|)];
      free := free + [f];
      hand := hand - {f};
    }

    /** walkpgdir with alloc set: the page table for directory entry i. */
    method WalkAlloc(d: nat, i: nat) returns (ok: bool, t: nat)
      requires Valid() && d in dirs && i < NENTRIES
      modifies this
      ensures Valid() && Grew(old(Now()), Now(), d)
      ensures ok ==> HasTab(mem, d, i) && t == TabOf(mem, d, i)
      ensures !ok ==> Now() == old(Now())
      ensures !ok <==> NoFrameFor(old(Now()), d, i)
      ensures ok ==> TabAdded(old(Now()), Now(), d, i)
    {
      ghost var s := Now();
      DirIsTab(s, d);
      GrewSame(s, d);
      if mem[d].e[i].Entry? {
        TabThere(s, d, i);
        return true, mem[d].e[i].frame;
      }
      ok, t := Kalloc();
      if !ok {
        return;
      }
      ghost var s1 := Now();
      var zero := Tab(seq(1024, _ => Absent));
      HandWrite(s1, t, zero);
      TabsInHand(s1, t, zero, d);
      mem := mem[t := zero];
      ghost var s2 := Now();
      TableGrew(s, s2, d, i, t);
      LinkTable(s2, d, i, t, PTE_WUP);
      TabMade(s, s1, s2, d, i, t, PTE_WUP);
      mem := mem[d := Tab(mem[d].e[i := Entry(t, PTE_WUP)])];
      hand, owner := hand - {t}, owner[t := IsTable(d, i)];
      assert Now() == TableLinked(s2, d, i, t, PTE_WUP);
    }

    /** mappages for one user page: page k of directory d is the frame f. */
    method MapUser(d: nat, k: nat, f: nat, flags: nat) returns (r: Result)
      requires Valid() && d in dirs && k < KERN_PAGE && f in hand
      modifies this
      ensures Valid() && dirs == old(dirs) && free <= old(free) && KernelKept(old(mem), mem, d)
      ensures r.NoMemory? ==> Now() == old(Now())
      ensures r.NoMemory? <==> NoFrameFor(old(Now()), d, k / NENTRIES)
      ensures r.Panic? <==> HasPte(old(mem), d, k / NENTRIES, k % NENTRIES)
      ensures r.Ok? ==> TabAdded(old(Now()), Now(), d, k / NENTRIES)
      ensures r.Ok? ==>
                && Touches(Loaned(old(Now()), f), Now(), d, k, k + 1) && hand == old(hand) - {f}
                && HasPte(mem, d, k / NENTRIES, k % NENTRIES) &&
                   Pte(mem, d, k / NENTRIES, k % NENTRIES) == Entry(f, flags)
                && f in mem && f in old(mem) && mem[f] == old(mem)[f]
    {
      var i, j := k / NENTRIES, k % NENTRIES;
      ghost var s := Now();
      var ok, t := WalkAlloc(d, i);
      ghost var s1 := Now();
      GrewTouches(s, s1, d);
      KernelGrew(s, s1, d);
      if !ok {
        return NoMemory;
      }
      TabIsTab(s1, d, i);
      HandInMem(s1, f);
      assert HasPte(s1.mem, d, i, j) == HasPte(s.mem, d, i, j);
      if mem[t].e[j].Entry? {
        return Panic;
      }
      LinkTouches(s1, d, i, j, f, flags, k);
      AddedAndLinked(s, s1, d, i, j, f, flags);
      KernelLinked(s, s1, d, i, j, f, flags);
      LoanBoth(s, s1, f, d, 0, 0);
      KeepsWiden(Loaned(s, f), Loaned(s1, f), d, 0, 0, k, k + 1);
      KeepsTrans(Loaned(s, f), Loaned(s1, f), PageLinked(s1, d, i, j, f, flags), d, k, k + 1);
      mem := mem[t := Tab(mem[t].e[j := Entry(f, flags)])];
      hand, owner := hand - {f}, owner[f := IsPage(d, i, j)];
      assert Now() == PageLinked(s1, d, i, j, f, flags);
      return Ok;
    }

    /** kfree of a user page, and *pte = 0. */
    method FreePage(d: nat, k: nat)
      requires Valid() && d in dirs && k < KERN_PAGE && HasPte(mem, d, k / NENTRIES, k % NENTRIES)
      modifies this
      ensures Valid() && Touches(old(Now()), Now(), d, k, k + 1) && hand == old(hand) &&
              !HasPte(mem, d, k / NENTRIES, k % NENTRIES)
      ensures OnlyFrees(old(Now()), Now(), d)
    {
      var i, j := k / NENTRIES, k % NENTRIES;
      ghost var s := Now();
      var t := mem[d].e[i].frame;
      var f := mem[t].e[j].frame;
      var junk := Page(seq(PGSIZE, _ => 1));
      CutTouches(s, d, i, j, junk, k);
      PageFreed(s, d, i, j, junk);
      free := free + [f];
      mem := mem[f := junk];
      mem := SetEntry(mem, t, j, Absent);
      owner := owner[f := OnFree(|free| - 1)];
    }

    /** deallocuvm. A missing page table makes the loop skip to the next one; no present page is missed, no
        page outside the range is touched, and the frames become free. */
    method Deallocuvm(d: nat, oldsz: nat, newsz: nat) returns (r: nat)
      requires Valid() && d in dirs && oldsz <= KERNBASE
      modifies this
      ensures Valid() && hand == old(hand) && r == (if newsz >= oldsz then oldsz else newsz)
      ensures newsz >= oldsz ==> Now() == old(Now())
      ensures newsz < oldsz ==>
                && Touches(old(Now()), Now(), d, PageUp(newsz), PageUp(oldsz)) &&
                   NonePresent(mem, d, PageUp(newsz), PageUp(oldsz))
                && OnlyFrees(old(Now()), Now(), d)
    {
      if newsz >= oldsz {
        return oldsz;
      }
      ghost var s, lo, hi := Now(), PageUp(newsz), PageUp(oldsz);
      var a := PageUp(newsz);
      TouchesSame(s, d, lo, hi);
      while a * PGSIZE < oldsz
        invariant Valid() && dirs == s.dirs && hand == s.hand && lo <= a
        invariant Touches(s, Now(), d, lo, hi) && NonePresent(mem, d, lo, a) && OnlyFrees(s, Now(), d)
        decreases KERN_PAGE + NENTRIES - a
      {
        var i, j := a / NENTRIES, a % NENTRIES;
        ghost var s1 := Now();
        DirIsTab(s1, d);
        if !mem[d].e[i].Entry? {
          SkipMisses(s1, d, lo, a, i, j);
          a := (i + 1) * NENTRIES;
        } else {
          TabIsTab(s1, d, i);
          if mem[mem[d].e[i].frame].e[j].Entry? {
            FreePage(d, a);
            KeepsWiden(s1, Now(), d, a, a + 1, lo, hi);
            KeepsTrans(s, s1, Now(), d, lo, hi);
            FreesTrans(s, s1, Now(), d);
            NoneAfter(s1, Now(), d, lo, a);
          } else {
            NoneMore(s1, d, lo, a, i, j);
          }
          a := a + 1;
        }
      }
      return newsz;
    }

    /** kalloc and memset(mem, 0, PGSIZE), or a copy of another page. */
    method NewPage(x: Frame, ghost d: nat) returns (ok: bool, f: nat)
      requires Valid() && d in dirs
      modifies `free, `mem, `hand, `owner
      ensures Valid() && free <= old(free) && ok == (old(free) != [])
      ensures !ok ==> Now() == old(Now())
      ensures ok ==> FrameTaken(old(Now()), Now(), d)
      ensures ok ==>
                && f in hand && hand == old(hand) + {f} && f !in old(hand) && f in mem && mem[f] == x
                && f in old(owner) && old(owner)[f].OnFree? && old(free) != [] && f == old(free)[|old(free)| - 1]
                && Touches(old(Now()), Loaned(Now(), f), d, 0, 0) && SamePages(dirs, old(mem), mem)
                && free == old(free)[..|old(free)| - 1]
    {
      ghost var s := Now();
      ok, f := Kalloc();
      if ok {
        ghost var s1 := Now();
        HandWrite(s1, f, x);
        TabsInHand(s1, f, x, d);
        mem := mem[f := x];
        NewTouches(s, d, f, x);
      }
    }

    /** One more page for allocuvm: it is mapped, or everything mapped so far is taken back. */
    method Grow(d: nat, a: nat, oldsz: nat, newsz: nat, ghost s0: State) returns (ok: bool)
      requires Valid() && d in dirs && newsz <= KERNBASE && PageUp(oldsz) <= a && a * PGSIZE < newsz
      requires Growing(s0, Now(), d, PageUp(oldsz), a, PageUp(newsz)) && Paid(s0, Now(), d, PageUp(oldsz), a)
      modifies this
      ensures Valid()
      ensures ok ==>
              Growing(s0, Now(), d, PageUp(oldsz), a + 1, PageUp(newsz)) && Paid(s0, Now(), d, PageUp(oldsz), a + 1)
      ensures !ok ==> Touches(s0, Now(), d, 0, 0) && hand == s0.hand && Short(s0, d, PageUp(oldsz), PageUp(newsz))
    {
      ghost var s, lo, hi := Now(), PageUp(oldsz), PageUp(newsz);
      var zero := Page(seq(PGSIZE, _ => 0));
      var f;
      ok, f := NewPage(zero, d);
      if !ok {
        NoPageLeft(s0, s, d, lo, a, hi);
        var _ := Deallocuvm(d, newsz, oldsz);
        Taken(s0, s, Now(), d, lo, a, hi);
        return;
      }
      ghost var s2 := Now();
      NotYet(s0, s, s2, d, lo, a, hi, f);
      var r := MapUser(d, a, f, PTE_WUP);
      ghost var s3 := Now();
      if r.NoMemory? {
        NoTableForPage(s0, s, s2, d, lo, a, hi);
        var _ := Deallocuvm(d, newsz, oldsz);
        ghost var s4 := Now();
        Kfree(f);
        TakenBack(s0, s, s2, s4, Now(), d, lo, a, hi, f);
        return false;
      }
      WasFree(s0, s, f);
      MappedOne(s0, s, s2, s3, d, lo, a, hi, f);
      PaidPage(s0, s, s2, s3, d, lo, a);
    }

    /** allocuvm's loop. */
    method GrowAll(d: nat, oldsz: nat, newsz: nat) returns (ok: bool)
      requires Valid() && d in dirs && oldsz <= newsz < KERNBASE && NonePresent(mem, d, PageUp(oldsz), PageUp(newsz))
      modifies this
      ensures Valid() && hand == old(hand)
      ensures !ok ==> Touches(old(Now()), Now(), d, 0, 0) && Short(old(Now()), d, PageUp(oldsz), PageUp(newsz))
      ensures ok ==> Affords(old(Now()), d, PageUp(oldsz), PageUp(newsz))
      ensures ok ==>
              Touches(old(Now()), Now(), d, PageUp(oldsz), PageUp(newsz)) &&
              NewPages(old(Now()), Now(), d, PageUp(oldsz), PageUp(newsz))
    {
      ghost var s0, lo, hi := Now(), PageUp(oldsz), PageUp(newsz);
      TouchesSame(s0, d, lo, hi);
      PageUpMonotone(oldsz, newsz);
      TouchesSame(s0, d, lo, lo);
      PaidNothing(s0, d, lo);
      var a := PageUp(oldsz);
      while a * PGSIZE < newsz
        invariant lo <= a <= hi && Valid() && Growing(s0, Now(), d, lo, a, hi) && Paid(s0, Now(), d, lo, a)
        decreases hi - a
      {
        ok := Grow(d, a, oldsz, newsz, s0);
        if !ok {
          return;
        }
        a := a + 1;
      }
      AllPaid(s0, Now(), d, lo, hi);
      ok := true;
    }

    /** allocuvm, for a process whose pages end at oldsz. On success the pages up to newsz are new, cleared
        frames; on failure every user page is as before. It fails exactly if newsz is too large or fewer frames
        are free than the pages and their missing tables need. */
    method Allocuvm(d: nat, oldsz: nat, newsz: nat) returns (r: nat, ghost ok: bool)
      requires Valid() && d in dirs && (newsz < KERNBASE ==> NonePresent(mem, d, PageUp(oldsz), PageUp(newsz)))
      modifies this
      ensures Valid() && hand == old(hand) && (newsz >= KERNBASE ==> !ok && Now() == old(Now())) &&
              (ok ==> r == Max(oldsz, newsz))
      ensures !ok ==> r == 0 && Touches(old(Now()), Now(), d, 0, 0)
      ensures ok && newsz < oldsz ==> Now() == old(Now())
      ensures ok ==>
              Touches(old(Now()), Now(), d, PageUp(oldsz), PageUp(newsz)) &&
              NewPages(old(Now()), Now(), d, PageUp(oldsz), PageUp(newsz))
      ensures ok <==>
              newsz < KERNBASE && (newsz < oldsz || |old(free)| >= Bill(old(Now()), d, PageUp(oldsz), PageUp(newsz)))
    {
      ghost var s0, lo, hi := Now(), PageUp(oldsz), PageUp(newsz);
      TouchesSame(s0, d, 0, 0);
      if newsz >= KERNBASE {
        return 0, false;
      }
      TouchesSame(s0, d, lo, hi);
      if newsz < oldsz {
        PageUpMonotone(newsz, oldsz);
        return oldsz, true;
      }
      var grown := GrowAll(d, oldsz, newsz);
      assert Count(0);
      if !grown {
        return 0, false;
      }
      return newsz, true;
    }

    /** freevm: every frame of the directory, and no other, becomes free, each once. */
    method Freevm(d: nat)
      requires Valid() && d in dirs
      modifies this
      ensures Valid() && hand == old(hand) && dirs == old(dirs) - {d} && Freed(old(Now()), Now(), d)
    {
      ghost var s0 := Now();
      var _ := Deallocuvm(d, KERNBASE, 0);
      ghost var s1 := Now();
      NoPagesLeft(s1, d);
      DropDir(s1, d);
      DroppingStarts(s1, d);
      dirs, hand, owner := DirDropped(s1, d).dirs, DirDropped(s1, d).hand, DirDropped(s1, d).owner;
      for i := 0 to NENTRIES
        invariant Valid() && Dropping(s1, Now(), d, i)
      {
        ghost var s := Now();
        var e := mem[d].e[i];
        if e.Entry? {
          TableInHand(s1, s, d, i);
          Kfree(e.frame);
          TableDropped(s1, s, Now(), d, i);
        } else {
          NoTable(s1, s, d, i);
        }
      }
      ghost var s2 := Now();
      DirInHand(s1, s2, d);
      Kfree(d);
      AllDropped(s1, s2, Now(), d);
      FreedAll(s0, s1, Now(), d);
    }

    /** mappages for page k of a range of the kernel's part; pages before it are mapped. */
    method MapKernelPage(d: nat, m: Kmap, k: nat, ghost kms: seq<Kmap>) returns (r: Result)
      requires Valid() && d in dirs && KERN_PAGE <= m.virt && k < m.n && m.virt + m.n <= NENTRIES * NENTRIES
      requires KernelMaps(mem, d, kms + [m.(n := k)]) && Below(kms, m.virt)
      modifies this
      ensures Valid() && Touches(old(Now()), Now(), d, 0, 0) && hand == old(hand) && free <= old(free) && !r.Panic?
      ensures r.Ok? ==>
              KernelMaps(mem, d, kms + [m.(n := k + 1)]) && TabAdded(old(Now()), Now(), d, (m.virt + k) / NENTRIES)
      ensures r.NoMemory? ==> NoFrameFor(old(Now()), d, (m.virt + k) / NENTRIES)
    {
      var i, j := (m.virt + k) / NENTRIES, (m.virt + k) % NENTRIES;
      ghost var s1 := Now();
      var ok, t := WalkAlloc(d, i);
      ghost var s2 := Now();
      GrewTouches(s1, s2, d);
      if !ok {
        return NoMemory;
      }
      TabIsTab(s2, d, i);
      NotMapped(s1, s2, d, kms, m, k, i, j);
      if mem[t].e[j].Entry? {
        return Panic;
      }
      KernelTouches(s2, d, i, j, Entry(m.phys + k, m.flags));
      KeepsTrans(s1, s2, s2.(mem := SetEntry(s2.mem, t, j, Entry(m.phys + k, m.flags))), d, 0, 0);
      MapsOneMore(s1, s2, d, kms, m, k, i, j);
      AddedAndKernel(s1, s2, d, i, j, Entry(m.phys + k, m.flags));
      mem := SetEntry(mem, t, j, Entry(m.phys + k, m.flags));
      return Ok;
    }

    /** mappages for a range of the kernel's part, above all that is mapped so far. It fails exactly if fewer
        frames are free than the missing tables need. */
    method MapKernel(d: nat, m: Kmap, ghost kms: seq<Kmap>, ghost tabs0: set<nat>)
        returns (r: Result, ghost tabs: set<nat>)
      requires Valid() && d in dirs && KERN_PAGE <= m.virt && m.n >= 1 && m.virt + m.n <= NENTRIES * NENTRIES
      requires KernelMaps(mem, d, kms) && Below(kms, m.virt) && tabs0 == Tabs(mem, d)
      modifies this
      ensures Valid() && Touches(old(Now()), Now(), d, 0, 0) && hand == old(hand) && free <= old(free) && !r.Panic?
      ensures r.Ok? ==> KernelMaps(mem, d, kms + [m])
      ensures r.Ok? <==> |old(free)| >= TableBill(tabs0, m.virt, m.virt + m.n)
      ensures r.Ok? ==> tabs == Tabs(mem, d) == WithTabs(tabs0, m.virt, m.virt + m.n)
      ensures r.Ok? ==> |free| + TableBill(tabs0, m.virt, m.virt + m.n) == |old(free)|
    {
      ghost var s := Now();
      TouchesSame(s, d, 0, 0);
      MapsNothing(mem, d, kms, m);
      tabs := tabs0;
      var k := 0;
      while k < m.n
        invariant 0 <= k <= m.n && Valid() && Touches(s, Now(), d, 0, 0) && hand == s.hand && free <= s.free
        invariant KernelMaps(mem, d, kms + [m.(n := k)])
        invariant tabs == Tabs(mem, d) && tabs == WithTabs(tabs0, m.virt, m.virt + k)
        invariant |free| + TableBill(tabs0, m.virt, m.virt + k) == |s.free|
      {
        ghost var s1, i := Now(), (m.virt + k) / NENTRIES;
        r := MapKernelPage(d, m, k, kms);
        KeepsTrans(s, s1, Now(), d, 0, 0);
        if r.NoMemory? {
          BillUnpaid(tabs0, m.virt, m.virt + k, m.virt + m.n);
          return;
        }
        TabsAre(s1, Now(), d, i);
        StepPaid(tabs0, tabs, m.virt, k, i, |s1.free|, |free|, |s.free|);
        tabs := tabs + {i};
        k := k + 1;
      }
      r := Ok;
    }

    /** One iteration of setupkvm, for the range m, which is number k of kmap. */
    method MapRange(d: nat, dataPage: nat, k: nat, m: Kmap, ghost before: set<nat>, ghost s0: State)
        returns (r: Result, ghost tabs: set<nat>)
      requires Valid() && DataPage(dataPage) && k < 4 && m == Kmaps(dataPage)[k] && Built(s0, Now(), d)
      requires KernelMaps(mem, d, Kmaps(dataPage)[..k]) && NonePresent(mem, d, 0, KERN_PAGE)
      requires before == Tabs(mem, d) && RangeTabs(before, dataPage, k) && |free| + |before| + 1 == |s0.free|
      modifies this
      ensures Valid() && Built(s0, Now(), d) && !r.Panic?
      ensures r.Ok? ==> KernelMaps(mem, d, Kmaps(dataPage)[..k + 1]) && NonePresent(mem, d, 0, KERN_PAGE)
      ensures r.Ok? ==> tabs == Tabs(mem, d) && RangeTabs(tabs, dataPage, k + 1) && |free| + |tabs| + 1 == |s0.free|
      ensures r.NoMemory? ==> |s0.free| < KERNEL_FRAMES
    {
      ghost var s, kms := Now(), Kmaps(dataPage)[..k];
      r, tabs := MapKernel(d, m, kms, before);
      BuiltMore(s0, s, Now(), d, 0, 0);
      NoneKept(s, Now(), d, 0, KERN_PAGE);
      if r.NoMemory? {
        KernelShort(before, dataPage, k, m, |s.free|);
        return;
      }
      RangeTabsNext(before, dataPage, k, m);
      PrefixNext(Kmaps(dataPage), k);
    }

    /** setupkvm's loop over kmap, for a new directory. */
    method MapAll(d: nat, dataPage: nat, ghost s0: State) returns (r: Result)
      requires Valid() && DataPage(dataPage) && Built(s0, Now(), d) && KernelMaps(mem, d, []) &&
               NonePresent(mem, d, 0, KERN_PAGE)
      requires Tabs(mem, d) == {} && |free| + 1 == |s0.free|
      modifies this
      ensures Valid() && Built(s0, Now(), d) && !r.Panic?
      ensures r.Ok? ==> KernelMaps(mem, d, Kmaps(dataPage)) && NonePresent(mem, d, 0, KERN_PAGE)
      ensures r.Ok? <==> |s0.free| >= KERNEL_FRAMES
      ensures r.Ok? ==> CopyPaid(s0, Now(), d, 0)
    {
      var kms := Kmaps(dataPage);
      ghost var tabs: set<nat> := {};
      assert kms[..0] == [];
      r := Ok;
      for k := 0 to 4
        invariant Valid() && Built(s0, Now(), d) && KernelMaps(mem, d, Kmaps(dataPage)[..k]) &&
                  NonePresent(mem, d, 0, KERN_PAGE) && r.Ok?
        invariant tabs == Tabs(mem, d) && RangeTabs(tabs, dataPage, k) && |free| + |tabs| + 1 == |s0.free|
      {
        r, tabs := MapRange(d, dataPage, k, kms[k], tabs, s0);
        if r.NoMemory? {
          return;
        }
      }
      assert kms[..4] == kms;
      KernelAllPaid(s0, Now(), d, dataPage, tabs);
    }

    /** setupkvm. A failure gives back every frame; it comes exactly if fewer than KERNEL_FRAMES are free. */
    method Setupkvm(dataPage: nat) returns (ok: bool, d: nat)
      requires Valid() && DataPage(dataPage)
      modifies this
      ensures Valid() && (!ok ==> Restored(old(Now()), Now()))
      ensures ok ==>
              Built(old(Now()), Now(), d) && KernelMaps(mem, d, Kmaps(dataPage)) && NonePresent(mem, d, 0, KERN_PAGE)
      ensures ok <==> |old(free)| >= KERNEL_FRAMES
      ensures ok ==> CopyPaid(old(Now()), Now(), d, 0)
    {
      ghost var s0 := Now();
      RestoredSame(s0);
      ok, d := Kalloc();
      if !ok {
        return;
      }
      ghost var s1 := Now();
      var zero := Tab(seq(1024, _ => Absent));
      HandWrite(s1, d, zero);
      mem := mem[d := zero];
      NewDir(s0, Now(), d);
      NoTabs(mem, d);
      dirs, hand, owner := dirs + {d}, hand - {d}, owner[d := IsDir];
      var r := MapAll(d, dataPage, s0);
      if r.NoMemory? {
        ghost var s2 := Now();
        Freevm(d);
        Undone(s0, s2, Now(), d);
        ok := false;
      }
    }

    /** One page of copyuvm. */
    method CopyPage(d: nat, d2: nat, k: nat, dataPage: nat, ghost s0: State) returns (r: Result)
      requires Valid() && DataPage(dataPage) && d in s0.dirs && k < KERN_PAGE && Copying(s0, Now(), d, d2, k, dataPage)
      requires CopyPaid(s0, Now(), d2, k)
      modifies this
      ensures Valid() && (r.Panic? <==> !HasPte(s0.mem, d, k / NENTRIES, k % NENTRIES))
      ensures r.Ok? ==> Copying(s0, Now(), d, d2, k + 1, dataPage) && CopyPaid(s0, Now(), d2, k + 1)
      ensures r.NoMemory? ==> Built(s0, Now(), d2) && |s0.free| < CopyBill(k + 1)
    {
      var i, j := k / NENTRIES, k % NENTRIES;
      ghost var s := Now();
      ParentKept(s0, s, d, d2, i, j);
      DirIsTab(s, d);
      if !mem[d].e[i].Entry? {
        return Panic;
      }
      TabIsTab(s, d, i);
      if !mem[mem[d].e[i].frame].e[j].Entry? {
        return Panic;
      }
      var pte := mem[mem[d].e[i].frame].e[j];
      var ok, f := NewPage(mem[pte.frame], d2);
      if !ok {
        NoPageToCopy(s0, s, d2, k);
        return NoMemory;
      }
      ghost var s2 := Now();
      NotThere(s, s2, d2, k, f);
      r := MapUser(d2, k, f, pte.flags);
      ghost var s3 := Now();
      WasFree(s0, s, f);
      if r.NoMemory? {
        NoTableToCopy(s0, s, s2, d2, k);
        Kfree(f);
        NotCopied(s0, s, s2, Now(), d2, f);
      } else {
        CopiedOne(s0, s, s2, s3, d, d2, k, f, dataPage);
        CopyPaidMore(s0, s, s2, s3, d2, k);
      }
    }

    /** copyuvm: the child has the parent's bytes and flags in frames that were free, and the kernel's own
        mappings; a failure gives back every frame. It fails exactly if the free frames do not suffice for the
        pages up to sz, or up to the first one that is missing; if they do it panics on that one. */
    method Copyuvm(d: nat, sz: nat, dataPage: nat) returns (r: Result, d2: nat)
      requires Valid() && d in dirs && sz <= KERNBASE && DataPage(dataPage)
      modifies this
      ensures Valid()
      ensures r.NoMemory? <==> |old(free)| < CopyBill(Present(old(mem), d, PageUp(sz)))
      ensures r.Panic? <==> !r.NoMemory? && Present(old(mem), d, PageUp(sz)) < PageUp(sz)
      ensures r.NoMemory? ==> Restored(old(Now()), Now())
      ensures r.Ok? ==> Copying(old(Now()), Now(), d, d2, PageUp(sz), dataPage)
    {
      ghost var s0 := Now();
      var ok;
      ok, d2 := Setupkvm(dataPage);
      if !ok {
        return NoMemory, 0;
      }
      PageUpMonotone(sz, KERNBASE);
      r := CopyAll(d, d2, PageUp(sz), dataPage, s0);
    }

    /** copyuvm's loop over n pages, and the label "bad". */
    method CopyAll(d: nat, d2: nat, n: nat, dataPage: nat, ghost s0: State) returns (r: Result)
      requires Valid() && DataPage(dataPage) && d in s0.dirs && n <= KERN_PAGE && Copying(s0, Now(), d, d2, 0, dataPage)
      requires CopyPaid(s0, Now(), d2, 0)
      modifies this
      ensures Valid()
      ensures r.NoMemory? ==> Restored(s0, Now()) && |s0.free| < CopyBill(Present(s0.mem, d, n))
      ensures r.Ok? ==> Copying(s0, Now(), d, d2, n, dataPage) && Present(s0.mem, d, n) == n && |s0.free| >= CopyBill(n)
      ensures r.Panic? ==> Present(s0.mem, d, n) < n && |s0.free| >= CopyBill(Present(s0.mem, d, n))
    {
      for k := 0 to n
        invariant Valid() && Copying(s0, Now(), d, d2, k, dataPage)
        invariant CopyPaid(s0, Now(), d2, k) && Present(s0.mem, d, k) == k
      {
        ghost var s1 := Now();
        r := CopyPage(d, d2, k, dataPage, s0);
        if r.Panic? {
          PresentStops(s0, s1, d, d2, k, n);
          return;
        }
        PresentNext(s0.mem, d, k);
        if r.NoMemory? {
          PresentGoesOn(s0.mem, d, k + 1, n);
          ghost var s := Now();
          Freevm(d2);
          Undone(s0, s, Now(), d2);
          return;
        }
      }
      CopiesEnd(s0, Now(), d2, n);
      return Ok;
    }
  }

  // What it all costs.

  /** A page directory and the page tables of the kernel's part: for memory up to PHYSTOP, and for devices. */
  const KERNEL_FRAMES := 65

  predicate KernelTab(i: nat) { 512 <= i < 568 || 1016 <= i < 1024 }

  lemma TwoRanges(a: nat, b: nat, c: nat, e: nat) returns (t: set<nat>)
    requires a <= b <= c <= e
    ensures |t| == b - a + e - c && forall i: nat :: i in t <==> a <= i < b || c <= i < e
  {
    var low, high := Range(a, b), Range(c, e);
    RangeCount(a, b);
    RangeCount(c, e);
    assert low !! high;
    t := low + high;
  }

  lemma KernelTabs() returns (t: set<nat>)
    ensures |t| == KERNEL_FRAMES - 1 && forall i: nat :: i in t <==> KernelTab(i)
  {
    t := TwoRanges(512, 568, 1016, 1024);
  }

  /** Table i is needed for the first k ranges of kmap. */
  predicate RangeTab(dataPage: nat, k: nat, i: nat) {
    || (k >= 1 && i == 512)
    || (k >= 2 && 512 <= i < TablesTo(dataPage))
    || (k >= 3 && dataPage / NENTRIES <= i < 568)
    || (k >= 4 && 1016 <= i < 1024)
  }

  ghost predicate RangeTabs(t: set<nat>, dataPage: nat, k: nat) {
    forall i: nat :: i in t <==> RangeTab(dataPage, k, i)
  }

  lemma RangeTabNext(t: set<nat>, dataPage: nat, k: nat, m: Kmap, i: nat)
    requires DataPage(dataPage) && k < 4 && RangeTabs(t, dataPage, k) && m == Kmaps(dataPage)[k]
    ensures i in WithTabs(t, m.virt, m.virt + m.n) <==> RangeTab(dataPage, k + 1, i)
  {
    WithTabsIs(t, m.virt, m.virt + m.n, i);
    assert m.n >= 1;
  }

  lemma RangeTabsNext(t: set<nat>, dataPage: nat, k: nat, m: Kmap)
    requires DataPage(dataPage) && k < 4 && RangeTabs(t, dataPage, k) && m == Kmaps(dataPage)[k]
    ensures RangeTabs(WithTabs(t, m.virt, m.virt + m.n), dataPage, k + 1)
    ensures |WithTabs(t, m.virt, m.virt + m.n)| == |t| + TableBill(t, m.virt, m.virt + m.n)
  {
    var u := WithTabs(t, m.virt, m.virt + m.n);
    forall i: nat ensures i in u <==> RangeTab(dataPage, k + 1, i) { RangeTabNext(t, dataPage, k, m, i); }
    BillCounts(t, m.virt, m.virt + m.n);
  }

  lemma PrefixNext(kms: seq<Kmap>, k: nat)
    requires k < |kms|
    ensures kms[..k + 1] == kms[..k] + [kms[k]]
  {
  }

  lemma RangeTabsAre(dataPage: nat, k: nat, i: nat)
    requires DataPage(dataPage) && k <= 4
    ensures RangeTab(dataPage, k, i) ==> KernelTab(i)
    ensures RangeTab(dataPage, 4, i) <==> KernelTab(i)
  {
    assert 513 <= TablesTo(dataPage) <= 568 && 512 <= dataPage / NENTRIES <= TablesTo(dataPage);
  }

  /** mappages has failed in setupkvm, with `left` frames left. */
  lemma KernelShort(t: set<nat>, dataPage: nat, k: nat, m: Kmap, left: nat)
    requires DataPage(dataPage) && k < 4 && RangeTabs(t, dataPage, k) && m == Kmaps(dataPage)[k]
    requires left < TableBill(t, m.virt, m.virt + m.n)
    ensures left + |t| + 1 < KERNEL_FRAMES
  {
    RangeTabsNext(t, dataPage, k, m);
    RangesFit(WithTabs(t, m.virt, m.virt + m.n), dataPage, k + 1);
  }

  lemma RangesFit(t: set<nat>, dataPage: nat, k: nat)
    requires DataPage(dataPage) && k <= 4 && RangeTabs(t, dataPage, k)
    ensures |t| <= KERNEL_FRAMES - 1 && (k == 4 ==> |t| == KERNEL_FRAMES - 1)
  {
    var all := KernelTabs();
    forall i: nat ensures (i in t ==> i in all) && (k == 4 ==> (i in t <==> i in all)) { RangeTabsAre(dataPage, k, i); }
    Fewer(t, all);
    if k == 4 { assert t == all; }
  }

  lemma NoTabs(mem: Memory, d: nat)
    requires ZeroAt(mem, d)
    ensures Tabs(mem, d) == {}
  {
  }

  lemma StepPaid(t0: set<nat>, t: set<nat>, lo: nat, k: nat, i: nat, free: nat, free': nat, total: nat)
    requires t == WithTabs(t0, lo, lo + k) && i == (lo + k) / NENTRIES && free + TableBill(t0, lo, lo + k) == total
    requires free' == free - if i in t then 0 else 1
    ensures t + {i} == WithTabs(t0, lo, lo + (k + 1)) && free' + TableBill(t0, lo, lo + (k + 1)) == total
  {
    BillNext(t0, lo, lo + k, lo + (k + 1));
  }

  lemma TabsAre(s: State, t: State, d: nat, i: nat)
    requires TabAdded(s, t, d, i)
    ensures Tabs(t.mem, d) == Tabs(s.mem, d) + {i} && |t.free| == |s.free| - if i in Tabs(s.mem, d) then 0 else 1
  {
    assert Count(0);
  }

  /** The frames that copyuvm needs for n pages. */
  function CopyBill(n: nat): nat { KERNEL_FRAMES + n + TablesTo(n) }

  lemma CopyBillGrows(n: nat, m: nat)
    requires n <= m
    ensures CopyBill(n) <= CopyBill(m)
  {
  }

  /** It has paid for the kernel's part and for k pages. */
  ghost predicate CopyPaid(s0: State, t: State, d2: nat, k: nat) {
    forall c: nat {:trigger Count(c)} :: Count(c) ==>
      && (forall i: nat :: i in Tabs(t.mem, d2) <==> KernelTab(i) || i < TablesTo(k))
      && |t.free| + CopyBill(k) == |s0.free|
  }

  lemma KernelAllPaid(s0: State, t: State, d: nat, dataPage: nat, tabs: set<nat>)
    requires DataPage(dataPage) && tabs == Tabs(t.mem, d) && RangeTabs(tabs, dataPage, 4) &&
             |t.free| + |tabs| + 1 == |s0.free|
    ensures CopyPaid(s0, t, d, 0) && |s0.free| >= KERNEL_FRAMES
  {
    RangesFit(tabs, dataPage, 4);
    forall i: nat ensures i in tabs <==> KernelTab(i) { RangeTabsAre(dataPage, 4, i); }
    assert TablesTo(0) == 0;
  }

  lemma CopyCosts(k: nat)
    requires k < KERN_PAGE
    ensures !KernelTab(k / NENTRIES) && k / NENTRIES < NENTRIES
    ensures CopyBill(k + 1) == CopyBill(k) + if k / NENTRIES < TablesTo(k) then 1 else 2
    ensures TablesTo(k + 1) == k / NENTRIES + 1 && k / NENTRIES <= TablesTo(k) <= k / NENTRIES + 1
  {
    var i := k / NENTRIES;
    assert TablesTo(k) == if k % NENTRIES == 0 then i else i + 1;
    assert TablesTo(k + 1) == i + 1;
  }

  lemma NoPageToCopy(s0: State, s: State, d2: nat, k: nat)
    requires CopyPaid(s0, s, d2, k) && k < KERN_PAGE && s.free == []
    ensures |s0.free| < CopyBill(k + 1)
  {
    assert Count(0);
    CopyCosts(k);
  }

  lemma NoTableToCopy(s0: State, s: State, s2: State, d2: nat, k: nat)
    requires CopyPaid(s0, s, d2, k) && k < KERN_PAGE && FrameTaken(s, s2, d2) && NoFrameFor(s2, d2, k / NENTRIES)
    ensures |s0.free| < CopyBill(k + 1)
  {
    assert Count(0);
    CopyCosts(k);
    assert k / NENTRIES !in Tabs(s2.mem, d2);
  }

  lemma CopyPaidMore(s0: State, s: State, s2: State, t: State, d2: nat, k: nat)
    requires CopyPaid(s0, s, d2, k) && k < KERN_PAGE && FrameTaken(s, s2, d2) && TabAdded(s2, t, d2, k / NENTRIES)
    ensures CopyPaid(s0, t, d2, k + 1)
  {
    assert Count(0);
    CopyCosts(k);
  }

  lemma CopiesEnd(s0: State, t: State, d2: nat, k: nat)
    requires CopyPaid(s0, t, d2, k)
    ensures |s0.free| >= CopyBill(k)
  {
    assert Count(0);
  }

  /** How many of the first n user pages are there before the first that is missing. */
  function Present(mem: Memory, d: nat, n: nat): (r: nat)
    ensures r <= n
  {
    if n == 0 then 0
    else if Present(mem, d, n - 1) == n - 1 && HasPte(mem, d, (n - 1) / NENTRIES, (n - 1) % NENTRIES) then n
    else Present(mem, d, n - 1)
  }

  lemma PresentNext(mem: Memory, d: nat, k: nat)
    requires Present(mem, d, k) == k && HasPte(mem, d, k / NENTRIES, k % NENTRIES)
    ensures Present(mem, d, k + 1) == k + 1
  {
  }

  lemma {:induction false} PresentAtLeast(mem: Memory, d: nat, k: nat, n: nat)
    requires Present(mem, d, k) == k <= n
    ensures Present(mem, d, n) >= k
  {
    if k < n { PresentAtLeast(mem, d, k, n - 1); }
  }

  lemma PresentGoesOn(mem: Memory, d: nat, k: nat, n: nat)
    requires Present(mem, d, k) == k <= n
    ensures CopyBill(k) <= CopyBill(Present(mem, d, n))
  {
    PresentAtLeast(mem, d, k, n);
    CopyBillGrows(k, Present(mem, d, n));
  }

  lemma {:induction false} PresentIs(mem: Memory, d: nat, k: nat, n: nat)
    requires Present(mem, d, k) == k < n && !HasPte(mem, d, k / NENTRIES, k % NENTRIES)
    ensures Present(mem, d, n) == k
    decreases n
  {
    if k + 1 < n { PresentIs(mem, d, k, n - 1); }
  }

  lemma PresentStops(s0: State, s: State, d: nat, d2: nat, k: nat, n: nat)
    requires Present(s0.mem, d, k) == k < n && !HasPte(s0.mem, d, k / NENTRIES, k % NENTRIES) && CopyPaid(s0, s, d2, k)
    ensures Present(s0.mem, d, n) == k && |s0.free| >= CopyBill(k)
  {
    PresentIs(s0.mem, d, k, n);
    CopiesEnd(s0, s, d2, k);
  }

  /** Page (i, j) of d2 is a copy of that of d in a frame that was free. */
  ghost predicate CopyOf(s0: State, t: State, d: nat, d2: nat, i: nat, j: nat) {
    && HasPte(s0.mem, d, i, j) && HasPte(t.mem, d2, i, j) && Pte(t.mem, d2, i, j).flags == Pte(s0.mem, d, i, j).flags
    && var f, f2 := Pte(s0.mem, d, i, j).frame, Pte(t.mem, d2, i, j).frame;
       f in s0.mem && f2 in t.mem && t.mem[f2] == s0.mem[f] && f2 in s0.owner && s0.owner[f2].OnFree?
  }

  /** copyuvm has copied k pages of d, as in s0, to the new directory d2. */
  ghost predicate Copying(s0: State, t: State, d: nat, d2: nat, k: nat, dataPage: nat)
    requires DataPage(dataPage)
  {
    && Built(s0, t, d2) && NonePresent(t.mem, d2, k, KERN_PAGE) && KernelMaps(t.mem, d2, Kmaps(dataPage))
    && forall i: nat, j: nat {:trigger CopyOf(s0, t, d, d2, i, j)} ::
       i < USER_TABLES && j < NENTRIES && i * NENTRIES + j < k ==> CopyOf(s0, t, d, d2, i, j)
  }

  /** The parent's page is where it was. */
  lemma ParentKept(s0: State, s: State, d: nat, d2: nat, i: nat, j: nat)
    requires Built(s0, s, d2) && Inv(s) && d in s0.dirs && i < USER_TABLES
    ensures d in s.dirs && d != d2 && HasPte(s.mem, d, i, j) == HasPte(s0.mem, d, i, j)
    ensures HasPte(s0.mem, d, i, j) ==> Pte(s.mem, d, i, j) == Pte(s0.mem, d, i, j)
    ensures HasPte(s0.mem, d, i, j) ==> var f := Pte(s0.mem, d, i, j).frame;
            f in s0.mem && f in s.mem && s.mem[f] == s0.mem[f]
  {
    assert Use(0);
    ElsewherePages(s0, s, d2, d);
    assert HasPte(s.mem, d, i, j) == HasPte(s0.mem, d, i, j);
    if HasPte(s0.mem, d, i, j) {
      assert Owned(s0.owner, Pte(s0.mem, d, i, j).frame, IsPage(d, i, j));
    }
  }

  lemma NotThere(s: State, s2: State, d2: nat, k: nat, f: nat)
    requires NonePresent(s.mem, d2, k, KERN_PAGE) && k < KERN_PAGE && Touches(s, Loaned(s2, f), d2, 0, 0)
    ensures !HasPte(s2.mem, d2, k / NENTRIES, k % NENTRIES)
  {
    var i, j := k / NENTRIES, k % NENTRIES;
    assert k == i * NENTRIES + j && i < USER_TABLES;
    assert SamePage(s, Loaned(s2, f), d2, i, j);
  }

  /** mappages failed: the frame goes back, and the new directory is still one made of free frames. */
  lemma NotCopied(s0: State, s: State, s2: State, t: State, d2: nat, f: nat)
    requires Built(s0, s, d2) && Touches(s, Loaned(s2, f), d2, 0, 0) && s2.hand == s.hand + {f} && f !in s.hand
    requires Inv(s2) && d2 in s2.dirs && s2.free == [] && s.free == [f] && exists x :: t == Pushed(s2, f, x)
    ensures Built(s0, t, d2)
  {
    var x: Frame :| t == Pushed(s2, f, x);
    ReturnTouches(s2, d2, f, x);
    KeepsTrans(s, Loaned(s2, f), t, d2, 0, 0);
    BuiltMore(s0, s, t, d2, 0, 0);
  }

  lemma CopiedOne(s0: State, s: State, s2: State, s3: State, d: nat, d2: nat, k: nat, f: nat, dataPage: nat)
    requires DataPage(dataPage) && Copying(s0, s, d, d2, k, dataPage) && k < KERN_PAGE && f in s0.owner &&
             s0.owner[f].OnFree?
    requires Touches(s, Loaned(s2, f), d2, 0, 0) && Touches(Loaned(s2, f), s3, d2, k, k + 1)
    requires d2 in s.dirs && SamePages(s.dirs, s.mem, s2.mem) && KernelKept(s2.mem, s3.mem, d2) && s3.hand == s.hand &&
             s3.free <= s.free
    requires CopyOf(s0, s3, d, d2, k / NENTRIES, k % NENTRIES)
    ensures Copying(s0, s3, d, d2, k + 1, dataPage)
  {
    KeepsWiden(s, Loaned(s2, f), d2, 0, 0, k, k + 1);
    KeepsTrans(s, Loaned(s2, f), s3, d2, k, k + 1);
    BuiltMore(s0, s, s3, d2, k, k + 1);
    KernelCopied(s, s2, s3, d2, dataPage);
    CopiesGrow(s0, s, s3, d, d2, k);
  }

  lemma KernelCopied(s: State, s2: State, s3: State, d2: nat, dataPage: nat)
    requires DataPage(dataPage) && KernelMaps(s.mem, d2, Kmaps(dataPage)) && d2 in s.dirs &&
             SamePages(s.dirs, s.mem, s2.mem) && KernelKept(s2.mem, s3.mem, d2)
    ensures KernelMaps(s3.mem, d2, Kmaps(dataPage))
  {
    forall i: nat, j: nat | USER_TABLES <= i && j < NENTRIES
      ensures HasPte(s3.mem, d2, i, j) == HasPte(s.mem, d2, i, j) &&
              (HasPte(s.mem, d2, i, j) ==> Pte(s3.mem, d2, i, j) == Pte(s.mem, d2, i, j))
    {
      assert HasPte(s3.mem, d2, i, j) == HasPte(s2.mem, d2, i, j) == HasPte(s.mem, d2, i, j);
    }
  }

  lemma CopiesGrow(s0: State, s: State, s3: State, d: nat, d2: nat, k: nat)
    requires NonePresent(s.mem, d2, k, KERN_PAGE) && Touches(s, s3, d2, k, k + 1) &&
             CopyOf(s0, s3, d, d2, k / NENTRIES, k % NENTRIES)
    requires forall i: nat, j: nat {:trigger CopyOf(s0, s, d, d2, i, j)} ::
             i < USER_TABLES && j < NENTRIES && i * NENTRIES + j < k ==> CopyOf(s0, s, d, d2, i, j)
    ensures NonePresent(s3.mem, d2, k + 1, KERN_PAGE)
    ensures forall i: nat, j: nat {:trigger CopyOf(s0, s3, d, d2, i, j)} ::
            i < USER_TABLES && j < NENTRIES && i * NENTRIES + j < k + 1 ==> CopyOf(s0, s3, d, d2, i, j)
  {
    forall i: nat, j: nat | i < USER_TABLES && j < NENTRIES && i * NENTRIES + j < k + 1
      ensures CopyOf(s0, s3, d, d2, i, j)
    {
      if i * NENTRIES + j == k {
        assert i == k / NENTRIES && j == k % NENTRIES;
      } else {
        assert CopyOf(s0, s, d, d2, i, j) && SamePage(s, s3, d2, i, j);
      }
    }
    forall i: nat, j: nat | i < USER_TABLES && j < NENTRIES && k + 1 <= i * NENTRIES + j < KERN_PAGE
      ensures !HasPte(s3.mem, d2, i, j)
    {
      assert SamePage(s, s3, d2, i, j);
    }
  }

  /** Where the linker put `data`: between the kernel's text and the end of physical memory. */
  predicate DataPage(p: nat) { 0x80100 < p < 0x8E000 }

  /** The table kmap: I/O space, kernel text, kernel data and memory, devices. */
  function Kmaps(dataPage: nat): (r: seq<Kmap>)
    requires DataPage(dataPage)
    ensures forall k :: 0 <= k < |r| ==>
            KERN_PAGE <= r[k].virt && r[k].n >= 1 && r[k].virt + r[k].n <= NENTRIES * NENTRIES &&
            Below(r[..k], r[k].virt)
  {
    [Kmap(0x80000, 0x100, 0, 3), Kmap(0x80100, dataPage - 0x80100, 0x100, 1),
     Kmap(dataPage, 0x8E000 - dataPage, dataPage - 0x80000, 3), Kmap(0xFE000, 0x2000, 0xFE000, 3)]
  }

  /** Directory d has been made out of free frames, and nothing else has changed. */
  ghost predicate Built(s: State, t: State, d: nat) {
    && Inv(s) && d !in s.dirs && d in s.owner && s.owner[d].OnFree? && t.dirs == s.dirs + {d} && t.hand == s.hand &&
       t.free <= s.free && Elsewhere(s, t, d)
  }

  lemma RestoredSame(s: State)
    requires Inv(s)
    ensures Restored(s, s)
  {
    assert Use(0);
  }

  lemma NewDir(s: State, s1: State, d: nat)
    requires Inv(s) && s.free != [] && d == s.free[|s.free| - 1] && d !in s.hand && Inv(s1) && ZeroAt(s1.mem, d)
    requires s1 == Popped(s).(mem := s1.mem) && s1.mem == s.mem[d := s1.mem[d]]
    ensures Inv(DirMade(s1, d)) && Built(s, DirMade(s1, d), d) && KernelMaps(s1.mem, d, []) &&
            NonePresent(s1.mem, d, 0, KERN_PAGE)
  {
    assert Use(0);
    assert Owned(s.owner, d, OnFree(|s.free| - 1));
    MakeDir(s1, d);
    NotPart(s, d);
  }

  /** A frame that is free owns nothing. */
  lemma NotPart(s: State, d: nat)
    requires Inv(s) && d in s.owner && s.owner[d].OnFree?
    ensures d !in s.dirs && forall g :: g in s.owner ==> !PartOf(s.owner[g], g, d)
  {
    assert Use(0);
    forall g | g in s.owner ensures !PartOf(s.owner[g], g, d) { assert Found(s, g); }
  }

  lemma BuiltMore(s0: State, s: State, t: State, d: nat, lo: nat, hi: nat)
    requires Built(s0, s, d) && Touches(s, t, d, lo, hi) && t.hand == s.hand && t.free <= s.free
    ensures Built(s0, t, d)
  {
    ElsewhereTrans(s0, s, t, d);
  }

  lemma Undone(s0: State, t: State, u: State, d: nat)
    requires Built(s0, t, d) && Freed(t, u, d) && u.hand == t.hand && u.dirs == t.dirs - {d}
    ensures Restored(s0, u)
  {
    NotPart(s0, d);
    assert u.dirs == s0.dirs;
  }

  /** An entry of kmap in pages: virtual start, length, physical start, perm | PTE_P. */
  datatype Kmap = Kmap(virt: nat, n: nat, phys: nat, flags: nat)

  function KernelEntry(kms: seq<Kmap>, k: nat): Entry {
    if kms == [] then Absent
    else
      var m := kms[|kms| - 1];
      if m.virt <= k < m.virt + m.n then Entry(m.phys + k - m.virt, m.flags) else KernelEntry(kms[..|kms| - 1], k)
  }

  predicate Below(kms: seq<Kmap>, bound: nat) { forall k :: 0 <= k < |kms| ==> kms[k].virt + kms[k].n <= bound }

  /** The kernel's part of directory d maps what kms says and nothing else. */
  ghost predicate KernelMaps(mem: Memory, d: nat, kms: seq<Kmap>) {
    forall i: nat, j: nat {:trigger HasPte(mem, d, i, j)} :: USER_TABLES <= i && j < NENTRIES ==>
      var x := KernelEntry(kms, i * NENTRIES + j);
          HasPte(mem, d, i, j) == x.Entry? && (HasPte(mem, d, i, j) ==> Pte(mem, d, i, j) == x)
  }

  lemma {:induction false} NothingAbove(kms: seq<Kmap>, bound: nat, k: nat)
    requires Below(kms, bound) && k >= bound
    ensures KernelEntry(kms, k).Absent?
  {
    if kms != [] { NothingAbove(kms[..|kms| - 1], bound, k); }
  }

  lemma LastRange(kms: seq<Kmap>, m: Kmap, k: nat)
    ensures KernelEntry(kms + [m], k) == if m.virt <= k < m.virt + m.n then Entry(m.phys + k - m.virt, m.flags)
            else KernelEntry(kms, k)
  {
    assert (kms + [m])[..|kms|] == kms;
  }

  lemma MapsNothing(mem: Memory, d: nat, kms: seq<Kmap>, m: Kmap)
    requires KernelMaps(mem, d, kms)
    ensures KernelMaps(mem, d, kms + [m.(n := 0)])
  {
    forall k: nat ensures KernelEntry(kms + [m.(n := 0)], k) == KernelEntry(kms, k) { LastRange(kms, m.(n := 0), k); }
  }

  lemma NotMapped(s1: State, s2: State, d: nat, kms: seq<Kmap>, m: Kmap, k: nat, i: nat, j: nat)
    requires KernelMaps(s1.mem, d, kms + [m.(n := k)]) && Below(kms, m.virt) && d in s1.dirs &&
             SamePages(s1.dirs, s1.mem, s2.mem)
    requires i * NENTRIES + j == m.virt + k && USER_TABLES <= i && j < NENTRIES
    ensures !HasPte(s2.mem, d, i, j)
  {
    LastRange(kms, m.(n := k), m.virt + k);
    NothingAbove(kms, m.virt, m.virt + k);
    assert HasPte(s2.mem, d, i, j) == HasPte(s1.mem, d, i, j);
  }

  lemma MapsOneMore(s1: State, s2: State, d: nat, kms: seq<Kmap>, m: Kmap, k: nat, i: nat, j: nat)
    requires KernelMaps(s1.mem, d, kms + [m.(n := k)]) && d in s1.dirs && SamePages(s1.dirs, s1.mem, s2.mem) &&
             Inv(s2) && s2.dirs == s1.dirs
    requires i * NENTRIES + j == m.virt + k && USER_TABLES <= i && j < NENTRIES && HasTab(s2.mem, d, i)
    ensures KernelMaps(SetEntry(s2.mem, TabOf(s2.mem, d, i), j, Entry(m.phys + k, m.flags)), d, kms + [m.(n := k + 1)])
  {
    var x := Entry(m.phys + k, m.flags);
    var mem := SetEntry(s2.mem, TabOf(s2.mem, d, i), j, x);
    LinkKernel(s2, d, i, j, x);
    forall i': nat, j': nat | USER_TABLES <= i' && j' < NENTRIES
      ensures var y := KernelEntry(kms + [m.(n := k + 1)], i' * NENTRIES + j');
              HasPte(mem, d, i', j') == y.Entry? && (HasPte(mem, d, i', j') ==> Pte(mem, d, i', j') == y)
    {
      LastRange(kms, m.(n := k), i' * NENTRIES + j');
      LastRange(kms, m.(n := k + 1), i' * NENTRIES + j');
      assert HasPte(s2.mem, d, i', j') == HasPte(s1.mem, d, i', j');
    }
  }

  lemma KernelTouches(s: State, d: nat, i: nat, j: nat, x: Entry)
    requires Inv(s) && d in s.dirs && USER_TABLES <= i && HasTab(s.mem, d, i) && j < NENTRIES
    ensures var t := s.(mem := SetEntry(s.mem, TabOf(s.mem, d, i), j, x)); Inv(t) && Touches(s, t, d, 0, 0)
  {
    assert Use(0);
    var t := s.(mem := SetEntry(s.mem, TabOf(s.mem, d, i), j, x));
    LinkKernel(s, d, i, j, x);
    assert Owned(s.owner, TabOf(s.mem, d, i), IsTable(d, i));
    forall i': nat, j': nat | i' < USER_TABLES && j' < NENTRIES ensures SamePage(s, t, d, i', j') {
      assert HasPte(t.mem, d, i', j') == HasPte(s.mem, d, i', j');
      if HasPte(s.mem, d, i', j') { assert Owned(s.owner, Pte(s.mem, d, i', j').frame, IsPage(d, i', j')); }
    }
  }

  /** Directory d is gone: what belonged to it is free, and the rest is as it was. */
  ghost predicate Freed(s: State, t: State, d: nat) {
    && t.owner.Keys == s.owner.Keys
    && forall g :: g in s.owner ==>
         if s.owner[g].OnFree? || PartOf(s.owner[g], g, d) then t.owner[g].OnFree?
         else t.owner[g] == s.owner[g] && g in s.mem && g in t.mem && t.mem[g] == s.mem[g]
  }

  /** freevm's loop has come to entry i of the directory, which is in hand like the tables yet to be freed. */
  ghost predicate Dropping(s: State, t: State, d: nat, i: nat) {
    && Inv(s) && d in s.dirs && NoUserPages(s, d) && t.owner.Keys == s.owner.Keys && t.dirs == s.dirs - {d}
    && IsTab(s.mem, d) && d in t.mem && t.mem[d] == s.mem[d]
    && forall g :: g in s.owner ==>
         if s.owner[g].IsTable? &&
             s.owner[g].d == d then (if s.owner[g].i < i then t.owner[g].OnFree? else t.owner[g] == InHand)
         else if g == d then t.owner[g] == InHand
         else t.owner[g] == s.owner[g] && (!s.owner[g].OnFree? ==> g in s.mem && g in t.mem && t.mem[g] == s.mem[g])
  }

  lemma NoPagesLeft(s: State, d: nat)
    requires Inv(s) && d in s.dirs && NonePresent(s.mem, d, 0, PageUp(KERNBASE))
    ensures NoUserPages(s, d)
  {
    assert Use(0);
    assert PageUp(KERNBASE) == KERN_PAGE;
    forall g | g in s.owner ensures !(s.owner[g].IsPage? && s.owner[g].d == d) { assert Found(s, g); }
  }

  lemma DroppingStarts(s: State, d: nat)
    requires Inv(s) && d in s.dirs && NoUserPages(s, d)
    ensures Dropping(s, DirDropped(s, d), d, 0)
  {
    assert Use(0);
    assert Owned(s.owner, d, IsDir);
    forall g | g in s.owner && s.owner[g].IsDir? ensures g == d || !PartOf(s.owner[g], g, d) { }
  }

  lemma TableInHand(s: State, t: State, d: nat, i: nat)
    requires Inv(t) && Dropping(s, t, d, i) && i < NENTRIES && HasTab(s.mem, d, i)
    ensures TabOf(s.mem, d, i) in t.hand
  {
    assert Use(0);
    var f := TabOf(s.mem, d, i);
    assert Owned(s.owner, f, IsTable(d, i));
    assert Found(t, f);
  }

  lemma DirInHand(s: State, t: State, d: nat)
    requires Inv(t) && Dropping(s, t, d, NENTRIES)
    ensures d in t.hand
  {
    assert Use(0);
    assert Owned(s.owner, d, IsDir);
    assert Found(t, d);
  }

  lemma TableDropped(s: State, t: State, u: State, d: nat, i: nat)
    requires Dropping(s, t, d, i) && i < NENTRIES && HasTab(s.mem, d, i) &&
             exists x :: u == Pushed(t, TabOf(s.mem, d, i), x)
    ensures Dropping(s, u, d, i + 1)
  {
    assert Use(0);
    var f := TabOf(s.mem, d, i);
    assert Owned(s.owner, f, IsTable(d, i)) && Owned(s.owner, d, IsDir);
    forall g | g in s.owner && s.owner[g] == IsTable(d, i) ensures g == f { assert Found(s, g); }
  }

  lemma NoTable(s: State, t: State, d: nat, i: nat)
    requires Dropping(s, t, d, i) && i < NENTRIES && !HasTab(s.mem, d, i)
    ensures Dropping(s, t, d, i + 1)
  {
    assert Use(0);
    forall g | g in s.owner ensures s.owner[g] != IsTable(d, i) { assert Found(s, g); }
  }

  lemma AllDropped(s: State, t: State, u: State, d: nat)
    requires Dropping(s, t, d, NENTRIES) && Inv(u) && exists x :: u == Pushed(t, d, x)
    ensures Freed(s, u, d) && u.hand == s.hand && u.dirs == s.dirs - {d}
  {
    assert Use(0);
    assert Owned(s.owner, d, IsDir);
    forall g | g in s.owner
      ensures (s.owner[g].IsTable? ==> s.owner[g].i < NENTRIES) && (g in u.hand <==> g in s.hand)
    {
      assert Found(s, g) && Found(u, g);
    }
    assert forall g :: g in u.hand ==> g in u.owner;
    assert u.hand == s.hand;
  }

  lemma FreedAll(s0: State, s1: State, t: State, d: nat)
    requires Elsewhere(s0, s1, d) && OnlyFrees(s0, s1, d) && Freed(s1, t, d)
    ensures Freed(s0, t, d)
  {
  }

  function Max(a: nat, b: nat): nat { if a < b then b else a }

  lemma PageUpMonotone(a: nat, b: nat)
    requires a <= b
    ensures PageUp(a) <= PageUp(b)
  {
  }

  lemma NewTouches(s: State, d: nat, f: nat, x: Frame)
    requires Inv(s) && s.free != [] && f == s.free[|s.free| - 1] && d in s.dirs
    ensures f in s.owner && s.owner[f].OnFree? && Touches(s, Loaned(Popped(s).(mem := s.mem[f := x]), f), d, 0, 0)
    ensures SamePages(s.dirs, s.mem, s.mem[f := x])
  {
    assert Use(0);
    assert Owned(s.owner, f, OnFree(|s.free| - 1));
    FreeFrame(s, Loaned(Popped(s).(mem := s.mem[f := x]), f), d, f);
    SameTables(s, s.mem[f := x]);
  }

  /** The pages lo .. a of directory d are new: cleared frames that were free. */
  ghost predicate NewPages(s0: State, t: State, d: nat, lo: nat, a: nat) {
    forall i: nat, j: nat {:trigger HasPte(t.mem, d, i, j)} ::
        i < USER_TABLES && j < NENTRIES && lo <= i * NENTRIES + j < a ==>
      && HasPte(t.mem, d, i, j) && Pte(t.mem, d, i, j).flags == PTE_WUP
      && var f := Pte(t.mem, d, i, j).frame;
         f in s0.owner && s0.owner[f].OnFree? && f in t.mem && t.mem[f].Page? && |t.mem[f].b| == PGSIZE &&
             forall k :: 0 <= k < PGSIZE ==> t.mem[f].b[k] == 0
  }

  /** allocuvm has come from lo to a on its way to hi. */
  ghost predicate Growing(s0: State, t: State, d: nat, lo: nat, a: nat, hi: nat) {
    && Inv(s0) && d in s0.dirs && t.hand == s0.hand && t.free <= s0.free
    && Touches(s0, t, d, lo, a) && NewPages(s0, t, d, lo, a) && NonePresent(s0.mem, d, lo, hi)
  }

  lemma TouchesSame(s: State, d: nat, lo: nat, hi: nat)
    requires Inv(s) && d in s.dirs
    ensures Touches(s, s, d, lo, hi) && OnlyFrees(s, s, d)
  {
    assert Use(0);
  }

  lemma FreesTrans(s: State, t: State, u: State, d: nat)
    requires OnlyFrees(s, t, d) && OnlyFrees(t, u, d)
    ensures OnlyFrees(s, u, d)
  {
  }

  /** Directory entry i is empty: none of its pages is present. */
  lemma SkipMisses(s: State, d: nat, lo: nat, a: nat, i: nat, j: nat)
    requires NonePresent(s.mem, d, lo, a) && a == i * NENTRIES + j && j < NENTRIES && !HasTab(s.mem, d, i)
    ensures NonePresent(s.mem, d, lo, (i + 1) * NENTRIES)
  {
  }

  lemma NoneMore(s: State, d: nat, lo: nat, a: nat, i: nat, j: nat)
    requires NonePresent(s.mem, d, lo, a) && a == i * NENTRIES + j && j < NENTRIES && !HasPte(s.mem, d, i, j)
    ensures NonePresent(s.mem, d, lo, a + 1)
  {
  }

  lemma NoneAfter(s: State, t: State, d: nat, lo: nat, a: nat)
    requires NonePresent(s.mem, d, lo, a) && Touches(s, t, d, a, a + 1) && !HasPte(t.mem, d, a / NENTRIES, a % NENTRIES)
    ensures NonePresent(t.mem, d, lo, a + 1)
  {
    forall i: nat, j: nat | i < USER_TABLES && j < NENTRIES && lo <= i * NENTRIES + j < a + 1
      ensures !HasPte(t.mem, d, i, j)
    {
      if i * NENTRIES + j == a {
        assert i == a / NENTRIES && j == a % NENTRIES;
      } else {
        assert SamePage(s, t, d, i, j);
      }
    }
  }

  /** What is mapped nowhere before and nowhere after is the same. */
  lemma RestoreMap(s0: State, t: State, d: nat, lo: nat, hi: nat)
    requires Touches(s0, t, d, lo, hi) && NonePresent(s0.mem, d, lo, hi) && NonePresent(t.mem, d, lo, hi)
    ensures Touches(s0, t, d, 0, 0)
  {
    forall i: nat, j: nat | i < USER_TABLES && j < NENTRIES ensures SamePage(s0, t, d, i, j) {
      if lo <= i * NENTRIES + j < hi { assert !HasPte(s0.mem, d, i, j) && !HasPte(t.mem, d, i, j); }
    }
  }

  /** The next page is not there yet, so mappages cannot meet "remap". */
  lemma NotYet(s0: State, s: State, s2: State, d: nat, lo: nat, a: nat, hi: nat, f: nat)
    requires Growing(s0, s, d, lo, a, hi) && lo <= a < hi <= KERN_PAGE && Touches(s, Loaned(s2, f), d, 0, 0)
    ensures !HasPte(s2.mem, d, a / NENTRIES, a % NENTRIES)
  {
    var i, j := a / NENTRIES, a % NENTRIES;
    assert a == i * NENTRIES + j && i < USER_TABLES;
    assert !HasPte(s0.mem, d, i, j);
    assert SamePage(s0, s, d, i, j) && SamePage(s, Loaned(s2, f), d, i, j);
  }

  lemma WasFree(s0: State, s: State, f: nat)
    requires Inv(s0) && s.free <= s0.free && s.free != [] && f == s.free[|s.free| - 1]
    ensures f in s0.owner && s0.owner[f].OnFree?
  {
    assert Use(0);
    assert s0.free[|s.free| - 1] == f;
  }

  lemma MappedOne(s0: State, s: State, s2: State, s3: State, d: nat, lo: nat, a: nat, hi: nat, f: nat)
    requires Growing(s0, s, d, lo, a, hi) && lo <= a < hi <= KERN_PAGE && f in s0.owner && s0.owner[f].OnFree?
    requires Touches(s, Loaned(s2, f), d, 0, 0) && Touches(Loaned(s2, f), s3, d, a, a + 1)
    requires s3.free <= s.free && s3.hand == s.hand
    requires HasPte(s3.mem, d, a / NENTRIES, a % NENTRIES) &&
             Pte(s3.mem, d, a / NENTRIES, a % NENTRIES) == Entry(f, PTE_WUP)
    requires f in s3.mem && s3.mem[f].Page? && |s3.mem[f].b| == PGSIZE &&
             forall k :: 0 <= k < PGSIZE ==> s3.mem[f].b[k] == 0
    ensures Growing(s0, s3, d, lo, a + 1, hi)
  {
    KeepsWiden(s, Loaned(s2, f), d, 0, 0, a, a + 1);
    KeepsTrans(s, Loaned(s2, f), s3, d, a, a + 1);
    NewPagesGrow(s0, s, s3, d, lo, a, f);
    KeepsWiden(s, s3, d, a, a + 1, lo, a + 1);
    KeepsWiden(s0, s, d, lo, a, lo, a + 1);
    KeepsTrans(s0, s, s3, d, lo, a + 1);
  }

  lemma NewPagesGrow(s0: State, s: State, s3: State, d: nat, lo: nat, a: nat, f: nat)
    requires NewPages(s0, s, d, lo, a) && lo <= a && f in s0.owner && s0.owner[f].OnFree? && Touches(s, s3, d, a, a + 1)
    requires HasPte(s3.mem, d, a / NENTRIES, a % NENTRIES) &&
             Pte(s3.mem, d, a / NENTRIES, a % NENTRIES) == Entry(f, PTE_WUP)
    requires f in s3.mem && s3.mem[f].Page? && |s3.mem[f].b| == PGSIZE &&
             forall k :: 0 <= k < PGSIZE ==> s3.mem[f].b[k] == 0
    ensures NewPages(s0, s3, d, lo, a + 1)
  {
    forall i: nat, j: nat | i < USER_TABLES && j < NENTRIES && lo <= i * NENTRIES + j < a + 1
      ensures HasPte(s3.mem, d, i, j) && Pte(s3.mem, d, i, j).flags == PTE_WUP
      ensures var f := Pte(s3.mem, d, i, j).frame;
        f in s0.owner && s0.owner[f].OnFree? && f in s3.mem && s3.mem[f].Page? && |s3.mem[f].b| == PGSIZE &&
            forall k :: 0 <= k < PGSIZE ==> s3.mem[f].b[k] == 0
    {
      if i * NENTRIES + j == a {
        assert i == a / NENTRIES && j == a % NENTRIES;
      } else {
        assert SamePage(s, s3, d, i, j) && HasPte(s.mem, d, i, j);
      }
    }
  }

  /** kalloc failed: the pages mapped so far are gone again. */
  lemma Taken(s0: State, s: State, t: State, d: nat, lo: nat, a: nat, hi: nat)
    requires Growing(s0, s, d, lo, a, hi) && lo <= a <= hi && Touches(s, t, d, lo, hi) && NonePresent(t.mem, d, lo, hi)
    ensures Touches(s0, t, d, 0, 0)
  {
    KeepsWiden(s0, s, d, lo, a, lo, hi);
    KeepsTrans(s0, s, t, d, lo, hi);
    RestoreMap(s0, t, d, lo, hi);
  }

  /** mappages failed: the same, and the new page goes back as well. */
  lemma TakenBack(s0: State, s: State, s2: State, s4: State, t: State, d: nat, lo: nat, a: nat, hi: nat, f: nat)
    requires Growing(s0, s, d, lo, a, hi) && lo <= a <= hi && Touches(s, Loaned(s2, f), d, 0, 0)
    requires Touches(s2, s4, d, lo, hi) && NonePresent(s4.mem, d, lo, hi)
    requires Inv(s4) && d in s4.dirs && f in s4.hand && exists x :: t == Pushed(s4, f, x)
    ensures Touches(s0, t, d, 0, 0)
  {
    var x: Frame :| t == Pushed(s4, f, x);
    KeepsWiden(s, Loaned(s2, f), d, 0, 0, lo, hi);
    LoanBoth(s2, s4, f, d, lo, hi);
    KeepsTrans(s, Loaned(s2, f), Loaned(s4, f), d, lo, hi);
    ReturnTouches(s4, d, f, x);
    NoneKept(Loaned(s4, f), t, d, lo, hi);
    KeepsWiden(Loaned(s4, f), t, d, 0, 0, lo, hi);
    KeepsTrans(s, Loaned(s4, f), t, d, lo, hi);
    Taken(s0, s, t, d, lo, a, hi);
  }

  lemma NoneKept(s: State, t: State, d: nat, lo: nat, hi: nat)
    requires Touches(s, t, d, 0, 0) && NonePresent(s.mem, d, lo, hi)
    ensures NonePresent(t.mem, d, lo, hi)
  {
    forall i: nat, j: nat | i < USER_TABLES && j < NENTRIES && lo <= i * NENTRIES + j < hi
      ensures !HasPte(t.mem, d, i, j)
    {
      assert SamePage(s, t, d, i, j);
    }
  }

  /** kfree and *pte = 0 together, in the order of the code. */
  lemma PageFreed(s: State, d: nat, i: nat, j: nat, x: Frame)
    requires Inv(s) && d in s.dirs && i < USER_TABLES && HasPte(s.mem, d, i, j)
    ensures var t, f := TabOf(s.mem, d, i), Pte(s.mem, d, i, j).frame;
      && Pushed(PageCut(s, d, i, j), f, x) == s.(free := s.free + [f], mem := SetEntry(s.mem[f := x], t, j, Absent),
         owner := s.owner[f := OnFree(|s.free|)])
      && OnlyFrees(s, Pushed(PageCut(s, d, i, j), f, x), d)
  {
    assert Use(0);
    var t, f := TabOf(s.mem, d, i), Pte(s.mem, d, i, j).frame;
    assert Owned(s.owner, f, IsPage(d, i, j)) && Owned(s.owner, t, IsTable(d, i));
    assert SetEntry(s.mem[f := x], t, j, Absent) == SetEntry(s.mem, t, j, Absent)[f := x];
    assert s.hand + {f} - {f} == s.hand;
  }

  /** kalloc, memset and the new directory entry together. */
  lemma TableGrew(s: State, s2: State, d: nat, i: nat, f: nat)
    requires Inv(s) && s.free != [] && f == s.free[|s.free| - 1] && d in s.dirs && i < NENTRIES && !HasTab(s.mem, d, i)
    requires Inv(s2) && s2 == Popped(s).(mem := s2.mem) && f in s2.mem && s2.mem == s.mem[f := s2.mem[f]] &&
             ZeroAt(s2.mem, f)
    requires f !in s.hand
    ensures IsTab(s2.mem, d) && !HasTab(s2.mem, d, i)
    ensures Grew(s, TableLinked(s2, d, i, f, PTE_WUP), d)
  {
    assert Use(0);
    var t := TableLinked(s2, d, i, f, PTE_WUP);
    assert Owned(s.owner, f, OnFree(|s.free| - 1)) && Owned(s.owner, d, IsDir);
    SameTables(s, s2.mem);
    assert HasTab(s2.mem, d, i) == HasTab(s.mem, d, i);
    TablePages(s2, d, i, f, PTE_WUP);
    forall d': nat, i': nat, j: nat | d' in s.dirs
      ensures HasPte(t.mem, d', i', j) == HasPte(s.mem, d', i', j) &&
              (HasPte(s.mem, d', i', j) ==> Pte(t.mem, d', i', j) == Pte(s.mem, d', i', j))
    {
      assert HasPte(t.mem, d', i', j) == HasPte(s2.mem, d', i', j);
    }
  }
}
