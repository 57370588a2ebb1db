/** umalloc.c, the circular first-fit allocator of section 8.7 of "The C Programming Language",
    2nd edition. Addresses count headers (8 bytes each), so p + 1 is the memory after a header. */
module Umalloc {
  import opened FreeList

  datatype Option<T> = None | Some(value: T)

  datatype Header = Header(ptr: nat, size: nat)

  function Succ(i: nat, n: nat): nat { if i + 1 < n then i + 1 else 0 }

  /** The headers in memory form the circular list of these blocks. */
  ghost predicate Linked(mem: map<nat, Header>, bs: seq<Blk>) {
    forall i {:trigger bs[i].addr in mem} {:trigger mem[bs[i].addr]} :: 0 <= i < |bs| ==>
      bs[i].addr in mem && mem[bs[i].addr] == Header(bs[Succ(i, |bs|)].addr, bs[i].size)
  }

  lemma LinkedSplice(mem: map<nat, Header>, mem': map<nat, Header>, bs: seq<Blk>, lo: nat, hi: nat, x: Blk)
    requires Linked(mem, bs) && 1 <= lo <= hi <= |bs|
    requires x.addr in mem' && mem'[x.addr] == Header(bs[if hi < |bs| then hi else 0].addr, x.size)
    requires bs[lo - 1].addr in mem' && mem'[bs[lo - 1].addr] == Header(x.addr, bs[lo - 1].size)
    requires forall i :: (0 <= i < lo - 1 || hi <= i < |bs|) ==>
             bs[i].addr in mem' && mem'[bs[i].addr] == mem[bs[i].addr]
    ensures Linked(mem', Splice(bs, lo, hi, x))
  {
    var r := Splice(bs, lo, hi, x);
    forall k | 0 <= k < |r|
      ensures r[k].addr in mem' && mem'[r[k].addr] == Header(r[Succ(k, |r|)].addr, r[k].size)
    {
      if k < lo - 1 {
        assert r[k] == bs[k] && r[k + 1] == bs[k + 1];
      } else if k == lo - 1 {
        assert r[k] == bs[k] && r[k + 1] == x;
      } else if k == lo {
        assert r[k] == x && (hi < |bs| ==> r[k + 1] == bs[hi]);
      } else {
        var i := k - lo - 1 + hi;
        assert r[k] == bs[i] && (k + 1 < |r| ==> r[k + 1] == bs[i + 1]);
      }
    }
  }

  lemma LinkedDrop(mem: map<nat, Header>, mem': map<nat, Header>, bs: seq<Blk>, i: nat)
    requires Linked(mem, bs) && 1 <= i < |bs|
    requires bs[i - 1].addr in mem' && mem'[bs[i - 1].addr] == Header(bs[Succ(i, |bs|)].addr, bs[i - 1].size)
    requires forall k :: 0 <= k < |bs| && k != i - 1 ==> bs[k].addr in mem' && mem'[bs[k].addr] == mem[bs[k].addr]
    ensures Linked(mem', bs[..i] + bs[i + 1..])
  {
    var r := bs[..i] + bs[i + 1..];
    forall k | 0 <= k < |r|
      ensures r[k].addr in mem' && mem'[r[k].addr] == Header(r[Succ(k, |r|)].addr, r[k].size)
    {
      var j := if k < i then k else k + 1;
      assert r[k] == bs[j];
      if k < i - 1 {
        assert r[k + 1] == bs[k + 1];
      } else if k == i - 1 {
        assert k + 1 < |r| ==> r[k + 1] == bs[i + 1];
      } else {
        assert k + 1 < |r| ==> r[k + 1] == bs[j + 1];
      }
    }
  }

  /** The stores of free(), given the predecessor p of bp in address order. */
  function Freed(mem: map<nat, Header>, p: nat, bp: nat): map<nat, Header>
    requires p in mem && bp in mem && mem[p].ptr in mem
  {
    var next := mem[p].ptr;
    var b := if bp + mem[bp].size == next then Header(mem[next].ptr, mem[bp].size + mem[next].size)
             else Header(next, mem[bp].size);
    var m := mem[bp := b];
    if p + mem[p].size == bp then m[p := Header(b.ptr, mem[p].size + b.size)]
    else m[p := Header(bp, mem[p].size)]
  }

  lemma DistinctHeaders(bs: seq<Blk>, j: nat, b: Blk)
    requires Sorted(bs) && Slot(bs, j, b)
    ensures bs[0].addr < b.addr
    ensures forall i :: 0 <= i < |bs| ==> bs[i].addr != b.addr
    ensures forall i :: 0 <= i < |bs| && i != j ==> bs[i].addr != bs[j].addr
  {
  }

  /** The headers free() stores are those of the merged block and of its predecessor. */
  lemma FreedHeaders(mem: map<nat, Header>, bs: seq<Blk>, j: nat, b: Blk)
    requires Linked(mem, bs) && Sorted(bs) && Slot(bs, j, b)
    requires b.addr in mem && mem[b.addr].size == b.size
    ensures bs[j].addr in mem && mem[bs[j].addr].ptr in mem
    ensures var m, x, hi := Freed(mem, bs[j].addr, b.addr), Merged(bs, j, b), To(bs, j, b);
      x.addr in m && m[x.addr] == Header(bs[if hi < |bs| then hi else 0].addr, x.size)
    ensures !TouchesPrev(bs, j, b) ==> Freed(mem, bs[j].addr, b.addr)[bs[j].addr] == Header(b.addr, bs[j].size)
  {
    DistinctHeaders(bs, j, b);
    var p, next := bs[j].addr, bs[Succ(j, |bs|)];
    assert mem[p] == Header(next.addr, bs[j].size);
    assert TouchesNext(bs, j, b) <==> b.addr + mem[b.addr].size == mem[p].ptr;
    if TouchesNext(bs, j, b) { assert mem[next.addr].size == next.size; }
  }

  lemma FreedElsewhere(mem: map<nat, Header>, p: nat, bp: nat, a: nat)
    requires p in mem && bp in mem && mem[p].ptr in mem && a in mem && a != p && a != bp
    ensures a in Freed(mem, p, bp) && Freed(mem, p, bp)[a] == mem[a]
  {
  }

  lemma MergeLinked(mem: map<nat, Header>, m: map<nat, Header>, bs: seq<Blk>, j: nat, b: Blk)
    requires Linked(mem, bs) && Sorted(bs) && Slot(bs, j, b)
    requires forall i :: 0 <= i < |bs| && i != j ==> bs[i].addr in m && m[bs[i].addr] == mem[bs[i].addr]
    requires var x, hi := Merged(bs, j, b), To(bs, j, b);
      x.addr in m && m[x.addr] == Header(bs[if hi < |bs| then hi else 0].addr, x.size)
    requires !TouchesPrev(bs, j, b) ==> bs[j].addr in m && m[bs[j].addr] == Header(b.addr, bs[j].size)
    ensures Linked(m, Insert(bs, j, b))
  {
    if TouchesPrev(bs, j, b) {
      assert mem[bs[j - 1].addr] == Header(bs[j].addr, bs[j - 1].size);
      LinkedSplice(mem, m, bs, j, To(bs, j, b), Merged(bs, j, b));
    } else {
      LinkedSplice(mem, m, bs, j + 1, To(bs, j, b), Merged(bs, j, b));
    }
  }

  lemma FreedLinked(mem: map<nat, Header>, bs: seq<Blk>, j: nat, b: Blk)
    requires Linked(mem, bs) && Sorted(bs) && Slot(bs, j, b)
    requires b.addr in mem && mem[b.addr].size == b.size
    ensures bs[j].addr in mem && mem[bs[j].addr].ptr in mem
    ensures Linked(Freed(mem, bs[j].addr, b.addr), Insert(bs, j, b))
  {
    FreedHeaders(mem, bs, j, b);
    DistinctHeaders(bs, j, b);
    var m := Freed(mem, bs[j].addr, b.addr);
    forall i | 0 <= i < |bs| && i != j ensures bs[i].addr in m && m[bs[i].addr] == mem[bs[i].addr] {
      FreedElsewhere(mem, bs[j].addr, b.addr, bs[i].addr);
    }
    MergeLinked(mem, m, bs, j, b);
  }

  // ---------- Walking the circle ----------

  /** Steps from index i to index j along the circular list. */
  function Dist(i: nat, j: nat, n: nat): int { if i <= j then j - i else n - i + j }

  /** The last block that starts below `a`. */
  ghost function Pred(bs: seq<Blk>, a: nat): (j: nat)
    requires |bs| >= 1 && bs[0].addr < a
    ensures j < |bs| && bs[j].addr < a && (j + 1 < |bs| ==> a <= bs[j + 1].addr)
  {
    if bs[|bs| - 1].addr < a then |bs| - 1 else Pred(bs[..|bs| - 1], a)
  }

  /** free()'s loop stops exactly at the predecessor, at the wrap as well as elsewhere. */
  lemma StopsAtPred(bs: seq<Blk>, i: nat, a: nat)
    requires Sorted(bs) && i < |bs| && bs[0].addr < a && forall k :: 0 <= k < |bs| ==> bs[k].addr != a
    ensures var p, next := bs[i].addr, bs[Succ(i, |bs|)].addr;
      ((a > p && a < next) || (p >= next && (a > p || a < next))) <==> i == Pred(bs, a)
  {
    var j := Pred(bs, a);
    if i < j { assert bs[i].addr < bs[i + 1].addr <= bs[j].addr; }
    if i > j { assert bs[j + 1].addr <= bs[i].addr; }
    if i + 1 < |bs| { assert bs[i].addr < bs[i + 1].addr; }
  }

  lemma SlotAtPred(bs: seq<Blk>, b: Blk)
    requires Sorted(bs) && bs[0].addr < b.addr && b.size >= 1
    requires forall k :: 0 <= k < |bs| ==> b.Apart(bs[k])
    ensures Slot(bs, Pred(bs, b.addr), b)
  {
    var j := Pred(bs, b.addr);
    assert b.Apart(bs[j]);
    if j + 1 < |bs| { assert b.Apart(bs[j + 1]); }
  }

  // ---------- Live blocks ----------

  ghost predicate LiveCovers(live: map<nat, nat>, u: nat) {
    exists a :: a in live && Blk(a, live[a]).Has(u)
  }

  /** Every unit of the arena is in a free or in a live block, and no other unit is. */
  ghost predicate Partition(arena: set<nat>, bs: seq<Blk>, live: map<nat, nat>) {
    forall u: nat :: u in arena <==> Covers(bs, u) || LiveCovers(live, u)
  }

  lemma PartitionAfterFree(arena: set<nat>, bs: seq<Blk>, live: map<nat, nat>, bp: nat)
    requires Partition(arena, bs, live) && bp in live && Sorted(bs) && bs[0].addr < bp &&
             Slot(bs, Pred(bs, bp), Blk(bp, live[bp]))
    ensures Partition(arena, Insert(bs, Pred(bs, bp), Blk(bp, live[bp])), live - {bp})
  {
    var b := Blk(bp, live[bp]);
    InsertUnits(bs, Pred(bs, bp), b);
    forall u: nat
      ensures LiveCovers(live, u) <==> LiveCovers(live - {bp}, u) || b.Has(u)
    {
      if a :| a in live && Blk(a, live[a]).Has(u) { assert a != bp ==> a in live - {bp}; }
      if LiveCovers(live - {bp}, u) {
        var a :| a in live - {bp} && Blk(a, live[a]).Has(u);
      }
    }
  }

  lemma PartitionAfterTake(arena: set<nat>, bs: seq<Blk>, r: seq<Blk>, live: map<nat, nat>, y: Blk)
    requires Partition(arena, bs, live) && y.addr !in live
    requires forall u: nat :: Covers(bs, u) <==> Covers(r, u) || y.Has(u)
    ensures Partition(arena, r, live[y.addr := y.size])
  {
    var live' := live[y.addr := y.size];
    forall u: nat
      ensures LiveCovers(live', u) <==> LiveCovers(live, u) || y.Has(u)
    {
      if a :| a in live && Blk(a, live[a]).Has(u) { assert a in live' && Blk(a, live'[a]).Has(u); }
      if y.Has(u) { assert Blk(y.addr, live'[y.addr]).Has(u); }
    }
  }

  /** Live blocks have their sizes in their headers, lie above `base` and below the break, and overlap
      neither each other nor a free block. */
  ghost predicate LiveOk(live: map<nat, nat>, bs: seq<Blk>, mem: map<nat, Header>, base: nat, top: nat) {
    && (forall a {:trigger a in live} {:trigger live[a]} ::
       a in live ==> a in mem && mem[a].size == live[a] && live[a] >= 1 && base < a && a + live[a] <= top)
    && (forall a, i {:trigger Blk(a, live[a]).Apart(bs[i])} ::
       a in live && 0 <= i < |bs| ==> Blk(a, live[a]).Apart(bs[i]))
    && (forall a, c {:trigger Blk(a, live[a]).Apart(Blk(c, live[c]))} ::
       a in live && c in live && a != c ==> Blk(a, live[a]).Apart(Blk(c, live[c])))
  }

  lemma ApartFromInsert(bs: seq<Blk>, j: nat, b: Blk, c: Blk)
    requires Sorted(bs) && Slot(bs, j, b) && c.size >= 1 && c.Apart(b)
    requires forall k :: 0 <= k < |bs| ==> c.Apart(bs[k])
    ensures forall k :: 0 <= k < |Insert(bs, j, b)| ==> c.Apart(Insert(bs, j, b)[k])
  {
    var r, lo, hi := Insert(bs, j, b), From(bs, j, b), To(bs, j, b);
    assert c.Apart(bs[j]) && (hi == j + 2 ==> c.Apart(bs[j + 1]));
    assert c.Apart(Merged(bs, j, b));
    forall k | 0 <= k < |r| ensures c.Apart(r[k]) {
      assert r[k] == if k < lo then bs[k] else if k == lo then Merged(bs, j, b) else bs[k - lo - 1 + hi];
    }
  }

  lemma ApartFromCarve(bs: seq<Blk>, i: nat, n: nat, c: Blk)
    requires i < |bs| && 1 <= n <= bs[i].size && c.size >= 1
    requires forall k :: 0 <= k < |bs| ==> c.Apart(bs[k])
    ensures forall k :: 0 <= k < |Carve(bs, i, n)| ==> c.Apart(Carve(bs, i, n)[k])
    ensures c.Apart(Carved(bs, i, n))
  {
    var r := Carve(bs, i, n);
    assert c.Apart(bs[i]);
    forall k | 0 <= k < |r| ensures c.Apart(r[k]) {
      if bs[i].size == n {
        assert r[k] == bs[if k < i then k else k + 1];
      } else {
        assert r[k] == if k == i then Blk(bs[i].addr, bs[i].size - n) else bs[k];
      }
    }
  }

  lemma CarvedIsApart(bs: seq<Blk>, i: nat, n: nat)
    requires Sorted(bs) && i < |bs| && 1 <= n <= bs[i].size
    ensures forall k :: 0 <= k < |Carve(bs, i, n)| ==> Carved(bs, i, n).Apart(Carve(bs, i, n)[k])
    ensures bs[0].addr < Carved(bs, i, n).addr
  {
    var r, y := Carve(bs, i, n), Carved(bs, i, n);
    forall k | 0 <= k < |r| ensures y.Apart(r[k]) {
      if bs[i].size == n {
        assert r[k] == bs[if k < i then k else k + 1];
      } else {
        assert r[k] == if k == i then Blk(bs[i].addr, bs[i].size - n) else bs[k];
      }
    }
  }

  /** The block in memory at `b` is in no list yet. */
  ghost predicate Detached(b: Blk, live: map<nat, nat>, bs: seq<Blk>, mem: map<nat, Header>, base: nat, top: nat) {
    && b.addr in mem && mem[b.addr].size == b.size && b.size >= 1 && base < b.addr && b.End() <= top
    && b.addr !in live
    && (forall i {:trigger b.Apart(bs[i])} :: 0 <= i < |bs| ==> b.Apart(bs[i]))
    && (forall a {:trigger Blk(a, live[a]).Apart(b)} :: a in live ==> Blk(a, live[a]).Apart(b))
  }

  lemma LiveAfterFree(live: map<nat, nat>, bs: seq<Blk>, mem: map<nat, Header>, base: nat, top: nat, j: nat, b: Blk)
    requires LiveOk(live, bs, mem, base, top) && Sorted(bs) && Slot(bs, j, b) && Detached(b, live, bs, mem, base, top)
    requires bs[j].addr in mem && mem[bs[j].addr].ptr in mem
    ensures LiveOk(live, Insert(bs, j, b), Freed(mem, bs[j].addr, b.addr), base, top)
  {
    forall a | a in live
      ensures a in Freed(mem, bs[j].addr, b.addr) && Freed(mem, bs[j].addr, b.addr)[a] == mem[a]
    {
      assert Blk(a, live[a]).Apart(bs[j]);
      FreedElsewhere(mem, bs[j].addr, b.addr, a);
    }
    forall a | a in live
      ensures forall k :: 0 <= k < |Insert(bs, j, b)| ==> Blk(a, live[a]).Apart(Insert(bs, j, b)[k])
    {
      ApartFromInsert(bs, j, b, Blk(a, live[a]));
    }
  }

  lemma EndsAfterFree(bs: seq<Blk>, j: nat, b: Blk, top: nat)
    requires Sorted(bs) && Slot(bs, j, b) && b.End() <= top && forall i :: 0 <= i < |bs| ==> bs[i].End() <= top
    ensures forall i :: 0 <= i < |Insert(bs, j, b)| ==> Insert(bs, j, b)[i].End() <= top
    ensures j < |Insert(bs, j, b)| && Insert(bs, j, b)[j].addr == bs[j].addr && Insert(bs, j, b)[0] == bs[0]
  {
    var r, lo, hi := Insert(bs, j, b), From(bs, j, b), To(bs, j, b);
    forall k | 0 <= k < |r| ensures r[k].End() <= top {
      assert r[k] == if k < lo then bs[k] else if k == lo then Merged(bs, j, b) else bs[k - lo - 1 + hi];
    }
  }

  ghost predicate ListOk(bs: seq<Blk>, mem: map<nat, Header>, live: map<nat, nat>, base: nat, top: nat) {
    && Sorted(bs) && bs[0] == Blk(base, 0) && Linked(mem, bs)
    && LiveOk(live, bs, mem, base, top)
    && (forall i :: 0 <= i < |bs| ==> bs[i].End() <= top) && base < top
  }

  lemma FreeKeeps(bs: seq<Blk>, mem: map<nat, Header>, live: map<nat, nat>, base: nat, top: nat, b: Blk)
    requires ListOk(bs, mem, live, base, top) && Detached(b, live, bs, mem, base, top)
    ensures forall k :: 0 <= k < |bs| ==> bs[k].addr != b.addr
    ensures var j := Pred(bs, b.addr);
      && bs[j].addr in mem && mem[bs[j].addr].ptr in mem && bs[j].addr != b.addr
      && var r := Insert(bs, j, b);
      && ListOk(r, Freed(mem, bs[j].addr, b.addr), live, base, top)
      && j < |r| && r[j].addr == bs[j].addr
  {
    var j := Pred(bs, b.addr);
    SlotAtPred(bs, b);
    DistinctHeaders(bs, j, b);
    FreedLinked(mem, bs, j, b);
    LiveAfterFree(live, bs, mem, base, top, j, b);
    EndsAfterFree(bs, j, b, top);
    InsertSorted(bs, j, b);
  }

  /** The stores of malloc() that take n units from the block at p, which follows prevp. */
  function Taken(mem: map<nat, Header>, prevp: nat, p: nat, n: nat): map<nat, Header>
    requires prevp in mem && p in mem && n <= mem[p].size
  {
    if mem[p].size == n then mem[prevp := Header(mem[p].ptr, mem[prevp].size)]
    else mem[p := Header(mem[p].ptr, mem[p].size - n)][p + mem[p].size - n := Header(0, n)]
  }

  lemma LinkedAt(bs: seq<Blk>, mem: map<nat, Header>, i: nat)
    requires Linked(mem, bs) && i < |bs|
    ensures bs[i].addr in mem && mem[bs[i].addr] == Header(bs[Succ(i, |bs|)].addr, bs[i].size)
  {
    assert bs[i].addr in mem;
  }

  lemma TakenWholeLinked(bs: seq<Blk>, mem: map<nat, Header>, m: map<nat, Header>, i: nat)
    requires Sorted(bs) && Linked(mem, bs) && 1 <= i < |bs| && bs[i - 1].addr in mem && bs[i].addr in mem
    requires m == mem[bs[i - 1].addr := Header(mem[bs[i].addr].ptr, mem[bs[i - 1].addr].size)]
    ensures Linked(m, bs[..i] + bs[i + 1..])
  {
    forall k | 0 <= k < |bs| && k != i - 1 ensures bs[k].addr in m && m[bs[k].addr] == mem[bs[k].addr] {
      assert bs[k].addr in mem && bs[k].addr != bs[i - 1].addr;
    }
    LinkedDrop(mem, m, bs, i);
  }

  lemma TakenPartLinked(bs: seq<Blk>, mem: map<nat, Header>, m: map<nat, Header>, i: nat, n: nat)
    requires Sorted(bs) && Linked(mem, bs) && 1 <= i < |bs| && 1 <= n < bs[i].size && bs[i].addr in mem
    requires m == mem[bs[i].addr := Header(mem[bs[i].addr].ptr, bs[i].size - n)][bs[i].End() - n := Header(0, n)]
    ensures Linked(m, Splice(bs, i, i + 1, Blk(bs[i].addr, bs[i].size - n)))
  {
    forall k | 0 <= k < |bs| && k != i ensures bs[k].addr in m && m[bs[k].addr] == mem[bs[k].addr] {
      assert bs[k].addr in mem && bs[k].addr != bs[i].addr && bs[k].addr != bs[i].End() - n;
    }
    assert mem[bs[i - 1].addr] == Header(bs[i].addr, bs[i - 1].size);
    LinkedSplice(mem, m, bs, i, i + 1, Blk(bs[i].addr, bs[i].size - n));
  }

  lemma TakenLinked(bs: seq<Blk>, mem: map<nat, Header>, i: nat, n: nat)
    requires Sorted(bs) && Linked(mem, bs) && 1 <= i < |bs| && 1 <= n <= bs[i].size
    ensures bs[i - 1].addr in mem && bs[i].addr in mem && mem[bs[i].addr].size == bs[i].size
    ensures Linked(Taken(mem, bs[i - 1].addr, bs[i].addr, n), Carve(bs, i, n))
  {
    LinkedAt(bs, mem, i - 1);
    LinkedAt(bs, mem, i);
    var m, r := Taken(mem, bs[i - 1].addr, bs[i].addr, n), Carve(bs, i, n);
    assert Linked(m, r) by {
      if bs[i].size == n {
        TakenWholeLinked(bs, mem, m, i);
      } else {
        TakenPartLinked(bs, mem, m, i, n);
      }
    }
  }

  lemma LiveAfterTake(live: map<nat, nat>, bs: seq<Blk>, mem: map<nat, Header>, base: nat, top: nat, i: nat, n: nat)
    requires ListOk(bs, mem, live, base, top) && 1 <= i < |bs| && 1 <= n <= bs[i].size
    requires bs[i - 1].addr in mem && bs[i].addr in mem && mem[bs[i].addr].size == bs[i].size
    ensures Carved(bs, i, n).addr !in live
    ensures LiveOk(live[Carved(bs, i, n).addr := n], Carve(bs, i, n), Taken(mem, bs[i - 1].addr, bs[i].addr, n), base,
            top)
  {
    var y, m := Carved(bs, i, n), Taken(mem, bs[i - 1].addr, bs[i].addr, n);
    CarvedIsApart(bs, i, n);
    forall a | a in live
      ensures a in m && m[a] == mem[a] && Blk(a, live[a]).Apart(y)
      ensures forall k :: 0 <= k < |Carve(bs, i, n)| ==> Blk(a, live[a]).Apart(Carve(bs, i, n)[k])
    {
      assert Blk(a, live[a]).Apart(bs[i]) && Blk(a, live[a]).Apart(bs[i - 1]);
      ApartFromCarve(bs, i, n, Blk(a, live[a]));
    }
  }

  lemma CarveBelow(bs: seq<Blk>, i: nat, n: nat, top: nat)
    requires 1 <= i < |bs| && n <= bs[i].size && forall k :: 0 <= k < |bs| ==> bs[k].End() <= top
    ensures forall k :: 0 <= k < |Carve(bs, i, n)| ==> Carve(bs, i, n)[k].End() <= top
    ensures |Carve(bs, i, n)| >= i && Carve(bs, i, n)[0] == bs[0] && Carve(bs, i, n)[i - 1] == bs[i - 1]
  {
    var r := Carve(bs, i, n);
    forall k | 0 <= k < |r| ensures r[k].End() <= top {
      if bs[i].size == n {
        assert r[k] == bs[if k < i then k else k + 1];
      } else {
        assert r[k] == if k == i then Blk(bs[i].addr, bs[i].size - n) else bs[k];
      }
    }
  }

  lemma TakeKeeps(live: map<nat, nat>, bs: seq<Blk>, mem: map<nat, Header>, base: nat, top: nat, i: nat, n: nat)
    requires ListOk(bs, mem, live, base, top) && 1 <= i < |bs| && 1 <= n <= bs[i].size
    ensures bs[i - 1].addr in mem && bs[i].addr in mem && mem[bs[i].addr].size == bs[i].size
    ensures Carved(bs, i, n).addr !in live
    ensures ListOk(Carve(bs, i, n), Taken(mem, bs[i - 1].addr, bs[i].addr, n), live[Carved(bs, i, n).addr := n], base,
            top)
    ensures i - 1 < |Carve(bs, i, n)| && Carve(bs, i, n)[i - 1] == bs[i - 1]
  {
    TakenLinked(bs, mem, i, n);
    LiveAfterTake(live, bs, mem, base, top, i, n);
    CarveSorted(bs, i, n);
    CarveBelow(bs, i, n, top);
  }

  lemma TakeResult(live: map<nat, nat>, bs: seq<Blk>, mem: map<nat, Header>, base: nat, top: nat, i: nat, n: nat,
          prevp: nat, p: nat, q: nat)
    returns (r: seq<Blk>)
    requires ListOk(bs, mem, live, base, top) && 1 <= i < |bs| && 1 <= n <= bs[i].size
    requires prevp == bs[i - 1].addr && p == bs[i].addr && q == bs[i].End() - n
    ensures prevp in mem && p in mem && mem[p].size == bs[i].size && q !in live
    ensures ListOk(r, Taken(mem, prevp, p, n), live[q := n], base, top)
    ensures i - 1 < |r| && r[i - 1].addr == prevp
    ensures forall u: nat :: Covers(bs, u) <==> Covers(r, u) || Blk(q, n).Has(u)
  {
    r := Carve(bs, i, n);
    TakeKeeps(live, bs, mem, base, top, i, n);
    CarveUnits(bs, i, n);
  }

  lemma GiveUp(live: map<nat, nat>, bs: seq<Blk>, mem: map<nat, Header>, base: nat, top: nat, bp: nat)
    requires ListOk(bs, mem, live, base, top) && bp in live
    ensures ListOk(bs, mem, live - {bp}, base, top)
    ensures Detached(Blk(bp, live[bp]), live - {bp}, bs, mem, base, top)
    ensures Slot(bs, Pred(bs, bp), Blk(bp, live[bp]))
  {
    SlotAtPred(bs, Blk(bp, live[bp]));
  }

  ghost function Range(b: Blk): (r: set<nat>)
    ensures forall u: nat :: u in r <==> b.Has(u)
  {
    set u: nat | u < b.End() && b.Has(u)
  }

  /** Memory from sbrk lies beyond everything the allocator knows. */
  lemma FreshCore(live: map<nat, nat>, bs: seq<Blk>, mem: map<nat, Header>, base: nat, top: nat, b: Blk)
    requires ListOk(bs, mem, live, base, top) && b.addr >= top && b.size >= 1
    ensures ListOk(bs, mem[b.addr := Header(0, b.size)], live, base, b.End())
    ensures Detached(b, live, bs, mem[b.addr := Header(0, b.size)], base, b.End())
    ensures Slot(bs, Pred(bs, b.addr), b)
  {
    var m := mem[b.addr := Header(0, b.size)];
    assert Linked(m, bs) by {
      forall i | 0 <= i < |bs| ensures bs[i].addr in m && m[bs[i].addr] == mem[bs[i].addr] {
        assert bs[i].addr in mem;
      }
    }
    SlotAtPred(bs, b);
  }

  lemma PartitionAfterGrow(arena: set<nat>, bs: seq<Blk>, live: map<nat, nat>, b: Blk)
    requires Partition(arena, bs, live) && Sorted(bs) && bs[0].addr < b.addr && Slot(bs, Pred(bs, b.addr), b)
    ensures Partition(arena + Range(b), Insert(bs, Pred(bs, b.addr), b), live)
    ensures From(bs, Pred(bs, b.addr), b) < |Insert(bs, Pred(bs, b.addr), b)|
    ensures Insert(bs, Pred(bs, b.addr), b)[From(bs, Pred(bs, b.addr), b)].size >= b.size
  {
    InsertUnits(bs, Pred(bs, b.addr), b);
  }

  /** malloc()'s size computation in 32-bit arithmetic. */
  function Units(nbytes: nat): nat { (nbytes + 7) % 0x1_0000_0000 / 8 + 1 }

  /** The units asked for hold the bytes asked for, unless rounding up wraps around. */
  lemma UnitsCoverIff(nbytes: nat)
    requires nbytes < 0x1_0000_0000
    ensures 8 * (Units(nbytes) - 1) >= nbytes <==> nbytes + 7 < 0x1_0000_0000
  {
  }

  /** The argument of sbrk: the bytes of n units in 32-bit arithmetic, read as an int. */
  function SbrkArg(n: nat): int {
    var u := 8 * n % 0x1_0000_0000;
    if u < 0x8000_0000 then u else u - 0x1_0000_0000
  }

  /** morecore() asks sbrk for the memory that it then uses. */
  predicate AsksForAll(n: nat) { SbrkArg(if n < 4096 then 4096 else n) == 8 * if n < 4096 then 4096 else n }

  /** That is so exactly for requests that stay below 2^31 bytes when rounded up, or wrap around to nothing. */
  lemma AsksForAllIff(nbytes: nat)
    requires nbytes < 0x1_0000_0000
    ensures AsksForAll(Units(nbytes)) <==> nbytes <= 0x7FFF_FFF0 || nbytes + 7 >= 0x1_0000_0000
  {
  }

  lemma DistStep(i: nat, f: nat, n: nat)
    requires i < n && f < n && i != f
    ensures Dist(Succ(i, n), f, n) == Dist(i, f, n) - 1
  {
  }

  lemma SameIndex(bs: seq<Blk>, i: nat, j: nat)
    requires Sorted(bs) && i < |bs| && j < |bs| && bs[i].addr == bs[j].addr
    ensures i == j
  {
  }

  /** Blocks that the search has passed on its way from freep's successor to bs[i] are too small. */
  ghost predicate Searched(bs: seq<Blk>, i: nat, f: nat, n: nat) {
    forall m: nat {:trigger bs[m]} :: m < |bs| && Dist(m, f, |bs|) > Dist(i, f, |bs|) ==> bs[m].size < n
  }

  ghost predicate Fits(bs: seq<Blk>, n: nat) {
    exists k :: 0 <= k < |bs| && bs[k].size >= n
  }

  lemma SearchStarts(bs: seq<Blk>, f: nat, n: nat)
    requires f < |bs|
    ensures Searched(bs, Succ(f, |bs|), f, n)
  {
  }

  lemma SearchSteps(bs: seq<Blk>, i: nat, f: nat, n: nat)
    requires i < |bs| && f < |bs| && i != f && bs[i].size < n
    ensures Dist(Succ(i, |bs|), f, |bs|) == Dist(i, f, |bs|) - 1
    ensures Searched(bs, i, f, n) ==> Searched(bs, Succ(i, |bs|), f, n)
  {
    DistStep(i, f, |bs|);
    forall m: nat | m < |bs| && Dist(m, f, |bs|) == Dist(i, f, |bs|) ensures m == i { }
  }

  /** A search that has come round to freep has seen every block. */
  lemma SearchEnds(bs: seq<Blk>, f: nat, n: nat)
    requires f < |bs| && bs[f].size < n
    ensures Searched(bs, f, f, n) ==> !Fits(bs, n)
  {
    forall k: nat | k < |bs| && Dist(k, f, |bs|) <= Dist(f, f, |bs|) ensures k == f { }
  }

  class Heap {
    const base: nat                 // &base
    var mem: map<nat, Header>       // the headers in memory
    var freep: nat                  // 0 before the first malloc
    ghost var bs: seq<Blk>          // the free list in address order, from &base
    ghost var f: nat                // freep's place in it
    ghost var live: map<nat, nat>   // blocks handed out: header address and size
    ghost var top: nat              // end of the memory obtained from sbrk
    ghost var arena: set<nat>       // the units obtained from sbrk

    constructor (base: nat)
      requires base >= 1
      ensures Valid() && live == map[] && arena == {} && freep == 0
    {
      this.base := base;
      mem, freep, bs, f := map[], 0, [Blk(base, 0)], 0;
      live, top, arena := map[], base + 1, {};
      new;
      OneBlock(Blk(base, 0));
    }

    /** The circular list in memory is `bs`, and freep points into it. */
    ghost predicate Circle()
      reads this
    {
      Sorted(bs) && bs[0] == Blk(base, 0) && Linked(mem, bs) && f < |bs| && freep == bs[f].addr
    }

    ghost predicate Started()
      reads this
    {
      base >= 1 && ListOk(bs, mem, live, base, top) && f < |bs| && freep == bs[f].addr
    }

    /** Free and live blocks share out the units that sbrk gave. */
    ghost predicate Valid()
      reads this
    {
      && (if freep == 0 then base >= 1 && bs == [Blk(base, 0)] && live == map[] && base < top else Started())
      && Partition(arena, bs, live)
    }

    /** free()'s search for the place of bp. */
    method FindPred(bp: nat) returns (p: nat, ghost j: nat)
      requires Circle() && base < bp && forall k :: 0 <= k < |bs| ==> bs[k].addr != bp
      ensures j == Pred(bs, bp) && p == bs[j].addr
    {
      j := Pred(bs, bp);
      p := freep;
      ghost var i: nat := f;
      while !(bp > p && bp < mem[p].ptr)
        invariant i < |bs| && p == bs[i].addr && p in mem && mem[p].ptr == bs[Succ(i, |bs|)].addr
        decreases Dist(i, j, |bs|)
      {
        StopsAtPred(bs, i, bp);
        if p >= mem[p].ptr && (bp > p || bp < mem[p].ptr) { break; }
        p := mem[p].ptr;
        i := Succ(i, |bs|);
      }
      StopsAtPred(bs, i, bp);
    }

    /** The stores of free() around the predecessor p. */
    method Relink(p: nat, bp: nat)
      requires p in mem && bp in mem && mem[p].ptr in mem && p != bp
      modifies `mem
      ensures mem == Freed(old(mem), p, bp)
    {
      var next := mem[p].ptr;
      if bp + mem[bp].size == next {
        mem := mem[bp := Header(mem[next].ptr, mem[bp].size + mem[next].size)];
      } else {
        mem := mem[bp := Header(next, mem[bp].size)];
      }
      if p + mem[p].size == bp {
        mem := mem[p := Header(mem[bp].ptr, mem[p].size + mem[bp].size)];
      } else {
        mem := mem[p := Header(bp, mem[p].size)];
      }
    }

    /** free() on a block that is in no list: it joins the free list, merged with what it touches. */
    method Release(bp: nat)
      requires Started() && bp in mem && Detached(Blk(bp, mem[bp].size), live, bs, mem, base, top)
      modifies `mem, `freep, `bs, `f
      ensures Started()
      ensures f == Pred(old(bs), bp) && bs == Insert(old(bs), f, Blk(bp, old(mem[bp].size)))
    {
      ghost var b := Blk(bp, mem[bp].size);
      FreeKeeps(bs, mem, live, base, top, b);
      var p, j := FindPred(bp);
      Relink(p, bp);
      freep := p;
      bs, f := Insert(bs, j, b), j;
    }

    /** free(): the block goes back to the free list, and its units with it. */
    method Free(ap: nat)
      requires Valid() && ap >= 1 && ap - 1 in live
      modifies `mem, `freep, `bs, `f, `live
      ensures Valid() && live == old(live) - {ap - 1}
      ensures forall u: nat :: Covers(bs, u) <==> Covers(old(bs), u) || Blk(ap - 1, old(live[ap - 1])).Has(u)
    {
      var bp := ap - 1;
      GiveUp(live, bs, mem, base, top, bp);
      InsertUnits(bs, Pred(bs, bp), Blk(bp, live[bp]));
      PartitionAfterFree(arena, bs, live, bp);
      live := live - {bp};
      Release(bp);
    }

    /** morecore(): `sbrk` is what the system call returns, None for failure. */
    method Morecore(nunits: nat, sbrk: Option<nat>) returns (p: nat, ghost k: nat)
      requires Started() && Valid() && nunits >= 1 && (sbrk.Some? ==> sbrk.value >= top)
      modifies this
      ensures Valid() && Started() && live == old(live)
      ensures p == if sbrk.None? then 0 else freep
      ensures sbrk.None? ==> bs == old(bs) && f == old(f) && arena == old(arena)
      ensures sbrk.Some? ==> k < |bs| && bs[k].size >= nunits && Fits(bs, nunits)
      ensures sbrk.Some? ==> arena == old(arena) + Range(Blk(sbrk.value, if nunits < 4096 then 4096 else nunits))
    {
      var nu := if nunits < 4096 then 4096 else nunits;
      if sbrk.None? {
        return 0, 0;
      }
      var hp := sbrk.value;
      ghost var b := Blk(hp, nu);
      FreshCore(live, bs, mem, base, top, b);
      PartitionAfterGrow(arena, bs, live, b);
      k := From(bs, Pred(bs, hp), b);
      mem := mem[hp := Header(0, nu)];
      top, arena := b.End(), arena + Range(b);
      Release(hp);
      p := freep;
    }

    /** malloc()'s stores into the headers at prevp and p. */
    method Unlink(prevp: nat, p: nat, n: nat) returns (q: nat)
      requires prevp in mem && p in mem && n <= mem[p].size
      modifies `mem
      ensures mem == Taken(old(mem), prevp, p, n) && q == p + old(mem[p].size) - n
    {
      q := p;
      if mem[p].size == n {
        mem := mem[prevp := Header(mem[p].ptr, mem[prevp].size)];
      } else {
        q := p + mem[p].size - n;
        mem := mem[p := Header(mem[p].ptr, mem[p].size - n)];
        mem := mem[q := Header(0, n)];
      }
    }

    /** The end of malloc(): take n units from the block at p, the successor of prevp. */
    method Take(prevp: nat, p: nat, n: nat, ghost i: nat) returns (q: nat)
      requires Started() && 1 <= i < |bs| && prevp == bs[i - 1].addr && p == bs[i].addr && 1 <= n <= bs[i].size
      modifies `mem, `freep, `bs, `f, `live
      ensures Started()
      ensures forall u: nat :: Covers(old(bs), u) <==> Covers(bs, u) || Blk(q, n).Has(u)
      ensures q == old(bs)[i].End() - n && q !in old(live) && live == old(live)[q := n]
    {
      ghost var e := bs[i].End() - n;
      ghost var r := TakeResult(live, bs, mem, base, top, i, n, prevp, p, e);
      q := Unlink(prevp, p, n);
      freep := prevp;
      live := live[e := n];
      bs, f := r, i - 1;
    }

    /** The first call's initialisation of the one-block list. */
    method Start()
      requires Valid()
      modifies `mem, `freep, `f
      ensures Valid() && Started()
    {
      if freep == 0 {
        mem := map[base := Header(base, 0)];
        freep := base;
        f := 0;
      }
    }

    /** Take, with the accounting. */
    method Allot(prevp: nat, p: nat, n: nat, ghost i: nat) returns (q: nat)
      requires Started() && Valid() && 1 <= i < |bs| && prevp == bs[i - 1].addr && p == bs[i].addr &&
               1 <= n <= bs[i].size
      modifies `mem, `freep, `bs, `f, `live
      ensures Valid() && q !in old(live) && live == old(live)[q := n]
      ensures forall u: nat :: Covers(old(bs), u) <==> Covers(bs, u) || Blk(q, n).Has(u)
    {
      q := Take(prevp, p, n, i);
      PartitionAfterTake(arena, old(bs), bs, old(live), Blk(q, n));
    }

    /** One lap of malloc()'s loop: from freep's successor round to freep, stopping at the first fit. */
    method Search(n: nat) returns (ok: bool, prevp: nat, p: nat, ghost i: nat)
      requires Circle() && n >= 1
      ensures ok <==> Fits(bs, n)
      ensures ok ==> 1 <= i < |bs| && prevp == bs[i - 1].addr && p == bs[i].addr && bs[i].size >= n
    {
      prevp := freep;
      p := mem[prevp].ptr;
      ghost var h: nat := f;
      i := Succ(f, |bs|);
      SearchStarts(bs, f, n);
      while mem[p].size < n
        invariant h < |bs| && i == Succ(h, |bs|) && prevp == bs[h].addr && p == bs[i].addr && p in mem
        invariant Searched(bs, i, f, n)
        decreases Dist(i, f, |bs|)
      {
        if p == freep {
          SameIndex(bs, i, f);
          SearchEnds(bs, f, n);
          return false, 0, 0, 0;
        }
        SearchSteps(bs, i, f, n);
        prevp := p;
        p := mem[p].ptr;
        h, i := i, Succ(i, |bs|);
      }
      ok := true;
    }

    /** malloc()'s loop, lap by lap: after a lap without a fit it asks for more memory, which happens at
        most once because the next lap finds the block that morecore added. */
    method FindFit(n: nat, sbrk: Option<nat>) returns (prevp: nat, p: nat, ghost i: nat, ghost calls: nat)
      requires Started() && Valid() && n >= 1 && (sbrk.Some? ==> sbrk.value >= top)
      modifies this
      ensures Started() && Valid() && live == old(live)
      ensures calls == if Fits(old(bs), n) then 0 else 1
      ensures p == 0 <==> sbrk.None? && !Fits(old(bs), n)
      ensures p == 0 ==> bs == old(bs)
      ensures p != 0 ==> 1 <= i < |bs| && prevp == bs[i - 1].addr && p == bs[i].addr && bs[i].size >= n
      ensures arena == if calls == 1 && sbrk.Some?
                       then old(arena) + Range(Blk(sbrk.value, if n < 4096 then 4096 else n))
                       else old(arena)
    {
      calls := 0;
      var ok;
      ok, prevp, p, i := Search(n);
      while !ok
        invariant Started() && Valid() && live == old(live)
        invariant ok <==> Fits(bs, n)
        invariant ok ==> 1 <= i < |bs| && prevp == bs[i - 1].addr && p == bs[i].addr && bs[i].size >= n
        invariant calls == if Fits(old(bs), n) then 0 else if ok then 1 else 0
        invariant !ok ==> bs == old(bs) && top == old(top)
        invariant calls == 1 ==> sbrk.Some?
        invariant arena == if calls == 1
                           then old(arena) + Range(Blk(sbrk.value, if n < 4096 then 4096 else n))
                           else old(arena)
        decreases !ok
      {
        ghost var k;
        p, k := Morecore(n, sbrk);
        calls := calls + 1;
        if p == 0 {
          return 0, 0, 0, calls;
        }
        ok, prevp, p, i := Search(n);
      }
    }

    /** malloc(): `sbrk` is the memory that the system call would add, if it adds any: None if it fails.
        The result 0 is failure; else it points just past a header that no live block had. */
    method Malloc(nbytes: nat, sbrk: Option<nat>) returns (r: nat, ghost calls: nat)
      requires Valid() && (sbrk.Some? ==> sbrk.value >= top && AsksForAll(Units(nbytes)))
      modifies this
      ensures Valid()
      ensures calls == if Fits(old(bs), Units(nbytes)) then 0 else 1
      ensures r == 0 <==> sbrk.None? && !Fits(old(bs), Units(nbytes))
      ensures r == 0 ==> live == old(live) && bs == old(bs) && arena == old(arena)
      ensures r != 0 ==> r - 1 !in old(live) && live == old(live)[r - 1 := Units(nbytes)]
      ensures r != 0 ==>
              arena == if calls == 0 then old(arena)
                       else old(arena) + Range(Blk(sbrk.value, if Units(nbytes) < 4096 then 4096 else Units(nbytes)))
    {
      var n := Units(nbytes);
      Start();
      var prevp, p, i, c := FindFit(n, sbrk);
      calls := c;
      if p == 0 {
        return 0, calls;
      }
      var q := Allot(prevp, p, n, i);
      r := q + 1;
    }
  }
}
