/** The frames that page tables and user pages take: how many an address space needs. */
module PageBill {
  import opened Frames

  /** The page directory entries whose tables are there. */
  ghost function Tabs(mem: Memory, d: nat): set<nat> { set i: nat | i < NENTRIES && HasTab(mem, d, i) }

  function TablesTo(n: nat): nat { (n + NENTRIES - 1) / NENTRIES }

  /** The numbers a .. b. */
  function Range(a: nat, b: nat): (r: set<nat>)
    ensures forall i :: i in r <==> a <= i < b
  {
    if a >= b then {} else Range(a, b - 1) + {b - 1}
  }

  lemma {:induction false} RangeCount(a: nat, b: nat)
    requires a <= b
    ensures |Range(a, b)| == b - a
  {
    if a < b { RangeCount(a, b - 1); }
  }

  /** The tables that are there once pages lo .. hi are mapped, if those in t are there before. */
  function WithTabs(t: set<nat>, lo: nat, hi: nat): set<nat> {
    if hi <= lo then t else WithTabs(t, lo, hi - 1) + {(hi - 1) / NENTRIES}
  }

  /** They are those in t and those of the directory entries that the pages fall under. */
  lemma {:induction false} WithTabsIs(t: set<nat>, lo: nat, hi: nat, i: nat)
    ensures i in WithTabs(t, lo, hi) <==> i in t || (lo < hi && lo / NENTRIES <= i < TablesTo(hi))
  {
    if lo < hi {
      WithTabsIs(t, lo, hi - 1, i);
      assert TablesTo(hi) == (hi - 1) / NENTRIES + 1 && (hi - 1) / NENTRIES <= TablesTo(hi - 1) <= TablesTo(hi);
    }
  }

  /** The frames for the missing tables of pages lo .. hi. */
  function TableBill(t: set<nat>, lo: nat, hi: nat): nat {
    if hi <= lo then 0
    else TableBill(t, lo, hi - 1) + if (hi - 1) / NENTRIES in WithTabs(t, lo, hi - 1) then 0 else 1
  }

  lemma OneMore(a: set<nat>, i: nat)
    ensures |a + {i}| == |a| + if i in a then 0 else 1
  {
    if i in a { assert a + {i} == a; }
  }

  /** It counts the tables that are new. */
  lemma {:induction false} BillCounts(t: set<nat>, lo: nat, hi: nat)
    ensures |WithTabs(t, lo, hi)| == |t| + TableBill(t, lo, hi)
  {
    if lo < hi {
      BillCounts(t, lo, hi - 1);
      OneMore(WithTabs(t, lo, hi - 1), (hi - 1) / NENTRIES);
    }
  }

  lemma {:induction false} BillMonotone(t: set<nat>, lo: nat, k: nat, hi: nat)
    requires k <= hi
    ensures TableBill(t, lo, k) <= TableBill(t, lo, hi)
  {
    if k < hi { BillMonotone(t, lo, k, hi - 1); }
  }

  /** One more page. */
  lemma BillNext(t: set<nat>, lo: nat, k: nat, hi: nat)
    requires lo <= k && hi == k + 1
    ensures WithTabs(t, lo, hi) == WithTabs(t, lo, k) + {k / NENTRIES}
    ensures TableBill(t, lo, hi) == TableBill(t, lo, k) + if k / NENTRIES in WithTabs(t, lo, k) then 0 else 1
  {
  }

  /** The table for page k is missing: the whole bill is larger than what has been paid. */
  lemma BillUnpaid(t: set<nat>, lo: nat, k: nat, hi: nat)
    requires lo <= k < hi && k / NENTRIES !in WithTabs(t, lo, k)
    ensures TableBill(t, lo, k) < TableBill(t, lo, hi)
  {
    BillMonotone(t, lo, k + 1, hi);
  }

  lemma Fewer(a: set<nat>, b: set<nat>)
    requires a <= b
    ensures |a| <= |b|
  {
    assert b == a + (b - a);
  }

  // Tables and memory. The predicates from here on stand behind a guard, which keeps the solver from unfolding
  // them where they are only carried along; opening them takes a mention of Count.

  ghost predicate Count(k: nat) { k >= 0 }

  /** From s to t the table for directory entry i is there, out of a free frame if it was missing. */
  ghost predicate TabAdded(s: State, t: State, d: nat, i: nat) {
    forall k: nat {:trigger Count(k)} :: Count(k) ==>
      Tabs(t.mem, d) == Tabs(s.mem, d) + {i} && |t.free| == |s.free| - if i in Tabs(s.mem, d) then 0 else 1
  }

  /** From s to t one frame has been taken, and no table changed. */
  ghost predicate FrameTaken(s: State, t: State, d: nat) {
    forall k: nat {:trigger Count(k)} :: Count(k) ==> Tabs(t.mem, d) == Tabs(s.mem, d) && |t.free| == |s.free| - 1
  }

  /** From s to t the tables for pages lo .. a have been added to directory d, and the pages themselves, out of
      free frames. */
  ghost predicate Paid(s: State, t: State, d: nat, lo: nat, a: nat) {
    forall k: nat {:trigger Count(k)} :: Count(k) ==>
      && lo <= a && Tabs(t.mem, d) == WithTabs(Tabs(s.mem, d), lo, a)
      && |t.free| + (a - lo) + TableBill(Tabs(s.mem, d), lo, a) == |s.free|
  }

  /** The frames that pages lo .. hi need, with their missing tables. */
  ghost function Bill(s: State, d: nat, lo: nat, hi: nat): nat {
    if lo >= hi then 0 else hi - lo + TableBill(Tabs(s.mem, d), lo, hi)
  }

  ghost predicate Affords(s: State, d: nat, lo: nat, hi: nat) {
    forall k: nat {:trigger Count(k)} :: Count(k) ==> |s.free| >= Bill(s, d, lo, hi)
  }

  ghost predicate Short(s: State, d: nat, lo: nat, hi: nat) {
    forall k: nat {:trigger Count(k)} :: Count(k) ==> |s.free| < Bill(s, d, lo, hi)
  }

  /** The table is missing, and there is no frame for it. */
  predicate NoFrameFor(s: State, d: nat, i: nat) { s.free == [] && !HasTab(s.mem, d, i) }

  lemma PaidNothing(s: State, d: nat, lo: nat)
    ensures Paid(s, s, d, lo, lo)
  {
  }

  lemma PaidPage(s0: State, s: State, s2: State, t: State, d: nat, lo: nat, a: nat)
    requires Paid(s0, s, d, lo, a) && FrameTaken(s, s2, d) && TabAdded(s2, t, d, a / NENTRIES)
    ensures Paid(s0, t, d, lo, a + 1)
  {
    assert Count(0);
    BillNext(Tabs(s0.mem, d), lo, a, a + 1);
  }

  lemma NoPageLeft(s0: State, s: State, d: nat, lo: nat, a: nat, hi: nat)
    requires Paid(s0, s, d, lo, a) && a < hi && s.free == []
    ensures Short(s0, d, lo, hi)
  {
    assert Count(0);
    BillMonotone(Tabs(s0.mem, d), lo, a, hi);
  }

  lemma NoTableForPage(s0: State, s: State, s2: State, d: nat, lo: nat, a: nat, hi: nat)
    requires Paid(s0, s, d, lo, a) && a < hi && a / NENTRIES < NENTRIES
    requires FrameTaken(s, s2, d) && NoFrameFor(s2, d, a / NENTRIES)
    ensures Short(s0, d, lo, hi)
  {
    assert Count(0);
    assert a / NENTRIES !in Tabs(s2.mem, d);
    BillUnpaid(Tabs(s0.mem, d), lo, a, hi);
  }

  lemma AllPaid(s0: State, s: State, d: nat, lo: nat, hi: nat)
    requires Paid(s0, s, d, lo, hi)
    ensures Affords(s0, d, lo, hi)
  {
    assert Count(0);
  }

  lemma TabsLinked(s: State, d: nat, i: nat, f: nat, flags: nat)
    requires Inv(s) && d in s.dirs && i < NENTRIES && !HasTab(s.mem, d, i) && f in s.hand && ZeroAt(s.mem, f)
    ensures Tabs(TableLinked(s, d, i, f, flags).mem, d) == Tabs(s.mem, d) + {i}
  {
    var mem := TableLinked(s, d, i, f, flags).mem;
    forall i': nat ensures i' in Tabs(mem, d) <==> i' in Tabs(s.mem, d) + {i} { TableEffect(s, d, i, f, flags, d, i'); }
  }

  lemma TabThere(s: State, d: nat, i: nat)
    requires i < NENTRIES && HasTab(s.mem, d, i)
    ensures TabAdded(s, s, d, i)
  {
    assert Tabs(s.mem, d) == Tabs(s.mem, d) + {i};
  }

  /** A frame t is taken from the free list, cleared, and linked as table i. */
  lemma TabMade(s: State, s1: State, s2: State, d: nat, i: nat, f: nat, flags: nat)
    requires s.free != [] && s1 == Popped(s) && s2 == s1.(mem := s2.mem) && Tabs(s2.mem, d) == Tabs(s.mem, d) && Inv(s2)
    requires d in s2.dirs && i < NENTRIES && !HasTab(s2.mem, d, i) && f in s2.hand && ZeroAt(s2.mem, f) &&
             !HasTab(s.mem, d, i)
    ensures TabAdded(s, TableLinked(s2, d, i, f, flags), d, i)
  {
    TabsLinked(s2, d, i, f, flags);
  }

  lemma TabsOneEntry(dirs: set<nat>, mem: Memory, mem': Memory, d: nat, d': nat, i: nat, j: nat, x: Entry)
    requires OneEntry(dirs, mem, mem', d', i, j, x) && d in dirs
    ensures Tabs(mem', d) == Tabs(mem, d)
  {
    forall i: nat ensures i in Tabs(mem', d) <==> i in Tabs(mem, d) { assert HasTab(mem', d, i) == HasTab(mem, d, i); }
  }

  lemma TabsInHand(s: State, f: nat, x: Frame, d: nat)
    requires Inv(s) && f in s.hand && d in s.dirs
    ensures Tabs(s.mem[f := x], d) == Tabs(s.mem, d)
  {
    assert Use(0);
    assert Owned(s.owner, d, IsDir) && Owned(s.owner, f, InHand);
  }

  /** A page is linked under a table that has just been added. */
  lemma AddedAndLinked(s: State, s1: State, d: nat, i: nat, j: nat, f: nat, flags: nat)
    requires TabAdded(s, s1, d, i) && Inv(s1) && d in s1.dirs && i < USER_TABLES && HasTab(s1.mem, d, i) && j < NENTRIES
    requires !HasPte(s1.mem, d, i, j) && f in s1.hand
    ensures TabAdded(s, PageLinked(s1, d, i, j, f, flags), d, i)
  {
    assert Count(0);
    LinkPage(s1, d, i, j, f, flags);
    TabsOneEntry(s1.dirs, s1.mem, PageLinked(s1, d, i, j, f, flags).mem, d, d, i, j, Entry(f, flags));
  }

  /** So is an entry of the kernel's part. */
  lemma AddedAndKernel(s: State, s1: State, d: nat, i: nat, j: nat, x: Entry)
    requires TabAdded(s, s1, d, i) && Inv(s1) && d in s1.dirs && USER_TABLES <= i && HasTab(s1.mem, d, i) &&
             j < NENTRIES
    ensures TabAdded(s, s1.(mem := SetEntry(s1.mem, TabOf(s1.mem, d, i), j, x)), d, i)
  {
    assert Count(0);
    LinkKernel(s1, d, i, j, x);
    TabsOneEntry(s1.dirs, s1.mem, SetEntry(s1.mem, TabOf(s1.mem, d, i), j, x), d, d, i, j, x);
  }
}
