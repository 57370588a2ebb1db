/** Address-ordered, fully coalesced lists of memory blocks, in units of one allocator header. */
module FreeList {

  datatype Blk = Blk(addr: nat, size: nat) {
    function End(): nat { addr + size }

    predicate Has(u: nat) { addr <= u < addr + size }

    /** The blocks share no unit and have different headers. */
    predicate Apart(b: Blk) { (End() <= b.addr || b.End() <= addr) && addr != b.addr }
  }

  /** The list starts with the empty block `base`; between any two blocks there is a gap, so no two
      neighbours could be merged. */
  ghost predicate Sorted(bs: seq<Blk>) {
    && |bs| >= 1 && bs[0].size == 0
    && (forall i :: 1 <= i < |bs| ==> bs[i].size >= 1)
    && (forall i, j :: 0 <= i < j < |bs| ==> bs[i].End() < bs[j].addr)
  }

  ghost predicate Covers(bs: seq<Blk>, u: nat) {
    exists i :: 0 <= i < |bs| && bs[i].Has(u)
  }

  lemma CoversConcat(a: seq<Blk>, b: seq<Blk>, u: nat)
    ensures Covers(a + b, u) <==> Covers(a, u) || Covers(b, u)
  {
    if Covers(a, u) {
      var i :| 0 <= i < |a| && a[i].Has(u);
      assert (a + b)[i].Has(u);
    }
    if Covers(b, u) {
      var i :| 0 <= i < |b| && b[i].Has(u);
      assert (a + b)[|a| + i].Has(u);
    }
  }

  /** Replaces bs[lo .. hi] by the single block `x`. */
  function Splice(bs: seq<Blk>, lo: nat, hi: nat, x: Blk): seq<Blk>
    requires lo <= hi <= |bs|
  {
    bs[..lo] + [x] + bs[hi..]
  }

  lemma SpliceSorted(bs: seq<Blk>, lo: nat, hi: nat, x: Blk)
    requires Sorted(bs) && 1 <= lo <= hi <= |bs| && x.size >= 1
    requires bs[lo - 1].End() < x.addr && (hi < |bs| ==> x.End() < bs[hi].addr)
    ensures Sorted(Splice(bs, lo, hi, x))
  {
    var r := Splice(bs, lo, hi, x);
    forall i, j | 0 <= i < j < |r|
      ensures r[i].End() < r[j].addr
    {
      assert i < lo ==> r[i] == bs[i] && bs[i].End() <= bs[lo - 1].End();
      assert j < lo ==> r[j] == bs[j];
      assert i > lo ==> r[i] == bs[i - lo - 1 + hi];
      assert j > lo ==> r[j] == bs[j - lo - 1 + hi] && bs[hi].addr <= r[j].addr;
    }
    forall i | 1 <= i < |r| ensures r[i].size >= 1 {
      assert r[i] == if i < lo then bs[i] else if i == lo then x else bs[i - lo - 1 + hi];
    }
  }

  /** What the splice does to the units covered. */
  lemma SpliceUnits(bs: seq<Blk>, lo: nat, hi: nat, x: Blk)
    requires lo <= hi <= |bs|
    ensures forall u: nat ::
            Covers(Splice(bs, lo, hi, x), u) <==> Covers(bs[..lo], u) || x.Has(u) || Covers(bs[hi..], u)
    ensures forall u: nat :: Covers(bs, u) <==> Covers(bs[..lo], u) || Covers(bs[lo..hi], u) || Covers(bs[hi..], u)
  {
    assert bs == bs[..lo] + bs[lo..hi] + bs[hi..];
    forall u: nat
      ensures Covers(Splice(bs, lo, hi, x), u) <==> Covers(bs[..lo], u) || x.Has(u) || Covers(bs[hi..], u)
      ensures Covers(bs, u) <==> Covers(bs[..lo], u) || Covers(bs[lo..hi], u) || Covers(bs[hi..], u)
    {
      CoversConcat(bs[..lo] + [x], bs[hi..], u);
      CoversConcat(bs[..lo], [x], u);
      assert Covers([x], u) <==> [x][0].Has(u);
      CoversConcat(bs[..lo] + bs[lo..hi], bs[hi..], u);
      CoversConcat(bs[..lo], bs[lo..hi], u);
    }
  }

  /** `b` lies after bs[j] and before bs[j + 1], if there is one. */
  ghost predicate Slot(bs: seq<Blk>, j: nat, b: Blk) {
    && j < |bs| && b.size >= 1 && bs[j].End() <= b.addr && bs[j].addr < b.addr
    && (j + 1 < |bs| ==> b.End() <= bs[j + 1].addr)
  }

  predicate TouchesNext(bs: seq<Blk>, j: nat, b: Blk) { j + 1 < |bs| && b.End() == bs[j + 1].addr }

  predicate TouchesPrev(bs: seq<Blk>, j: nat, b: Blk) { j < |bs| && bs[j].End() == b.addr }

  function From(bs: seq<Blk>, j: nat, b: Blk): nat { if TouchesPrev(bs, j, b) then j else j + 1 }

  function To(bs: seq<Blk>, j: nat, b: Blk): nat { if TouchesNext(bs, j, b) then j + 2 else j + 1 }

  /** `b` merged with the neighbours it touches. */
  function Merged(bs: seq<Blk>, j: nat, b: Blk): Blk
    requires j < |bs|
  {
    var up := if TouchesNext(bs, j, b) then b.size + bs[j + 1].size else b.size;
    if TouchesPrev(bs, j, b) then Blk(bs[j].addr, bs[j].size + up) else Blk(b.addr, up)
  }

  /** Puts `b` after bs[j], merged with the neighbours it touches, which it replaces. */
  function Insert(bs: seq<Blk>, j: nat, b: Blk): seq<Blk>
    requires j < |bs|
  {
    Splice(bs, From(bs, j, b), To(bs, j, b), Merged(bs, j, b))
  }

  lemma InsertSorted(bs: seq<Blk>, j: nat, b: Blk)
    requires Sorted(bs) && Slot(bs, j, b)
    ensures Sorted(Insert(bs, j, b))
  {
    var lo, hi, x := From(bs, j, b), To(bs, j, b), Merged(bs, j, b);
    assert lo >= 1;
    assert bs[lo - 1].End() < x.addr;
    assert hi < |bs| ==> x.End() < bs[hi].addr;
    SpliceSorted(bs, lo, hi, x);
  }

  lemma MergedUnits(bs: seq<Blk>, j: nat, b: Blk)
    requires Sorted(bs) && Slot(bs, j, b)
    ensures forall u: nat :: Merged(bs, j, b).Has(u) <==> b.Has(u) || Covers(bs[From(bs, j, b)..To(bs, j, b)], u)
  {
    var lo, hi := From(bs, j, b), To(bs, j, b);
    var cut := bs[lo..hi];
    assert forall u: nat :: Covers(cut, u) <==> (lo == j && bs[j].Has(u)) || (hi == j + 2 && bs[j + 1].Has(u)) by {
      assert lo == j ==> cut[0] == bs[j];
      assert hi == j + 2 ==> cut[j + 1 - lo] == bs[j + 1];
    }
  }

  /** Freeing a block adds exactly its units, whatever it is merged with. */
  lemma InsertUnits(bs: seq<Blk>, j: nat, b: Blk)
    requires Sorted(bs) && Slot(bs, j, b)
    ensures forall u: nat :: Covers(Insert(bs, j, b), u) <==> Covers(bs, u) || b.Has(u)
  {
    MergedUnits(bs, j, b);
    SpliceUnits(bs, From(bs, j, b), To(bs, j, b), Merged(bs, j, b));
  }

  /** Takes the last n units of bs[i], or all of it. */
  function Carve(bs: seq<Blk>, i: nat, n: nat): seq<Blk>
    requires i < |bs| && n <= bs[i].size
  {
    if bs[i].size == n then bs[..i] + bs[i + 1..] else Splice(bs, i, i + 1, Blk(bs[i].addr, bs[i].size - n))
  }

  /** The block `Carve` takes. */
  function Carved(bs: seq<Blk>, i: nat, n: nat): Blk
    requires i < |bs| && n <= bs[i].size
  {
    Blk(bs[i].End() - n, n)
  }

  lemma DropSorted(bs: seq<Blk>, i: nat)
    requires Sorted(bs) && 1 <= i < |bs|
    ensures Sorted(bs[..i] + bs[i + 1..])
  {
    var r := bs[..i] + bs[i + 1..];
    assert forall k :: 0 <= k < i ==> r[k] == bs[k];
    assert forall k :: i <= k < |r| ==> r[k] == bs[k + 1];
  }

  lemma CarveSorted(bs: seq<Blk>, i: nat, n: nat)
    requires Sorted(bs) && i < |bs| && 1 <= n <= bs[i].size
    ensures Sorted(Carve(bs, i, n))
  {
    assert i >= 1;
    if bs[i].size == n {
      DropSorted(bs, i);
    } else {
      SpliceSorted(bs, i, i + 1, Blk(bs[i].addr, bs[i].size - n));
    }
  }

  lemma OneBlock(x: Blk)
    ensures forall u: nat :: Covers([x], u) <==> x.Has(u)
  {
    forall u: nat ensures Covers([x], u) <==> x.Has(u) { assert [x][0] == x; }
  }

  lemma DropUnits(bs: seq<Blk>, i: nat)
    requires i < |bs|
    ensures forall u: nat :: Covers(bs, u) <==> Covers(bs[..i] + bs[i + 1..], u) || bs[i].Has(u)
  {
    SpliceUnits(bs, i, i + 1, bs[i]);
    assert Splice(bs, i, i + 1, bs[i]) == bs && bs[i..i + 1] == [bs[i]];
    OneBlock(bs[i]);
    forall u: nat ensures Covers(bs[..i] + bs[i + 1..], u) <==> Covers(bs[..i], u) || Covers(bs[i + 1..], u) {
      CoversConcat(bs[..i], bs[i + 1..], u);
    }
  }

  /** Allocation removes exactly the carved units, which were free. */
  lemma CarveUnits(bs: seq<Blk>, i: nat, n: nat)
    requires Sorted(bs) && i < |bs| && 1 <= n <= bs[i].size
    ensures forall u: nat :: Covers(bs, u) <==> Covers(Carve(bs, i, n), u) || Carved(bs, i, n).Has(u)
  {
    DropUnits(bs, i);
    if bs[i].size > n {
      var x := Blk(bs[i].addr, bs[i].size - n);
      SpliceUnits(bs, i, i + 1, x);
      assert bs[i..i + 1] == [bs[i]];
      OneBlock(bs[i]);
    }
  }


  /** In a sorted list the last block is exactly the last stretch of covered units. */
  lemma LastStretch(bs: seq<Blk>, u: nat)
    requires Sorted(bs) && |bs| >= 2
    ensures Covers(bs, u) ==> u < bs[|bs| - 1].End()
    ensures bs[|bs| - 1].addr <= u < bs[|bs| - 1].End() ==> Covers(bs, u)
    ensures u + 1 == bs[|bs| - 1].addr ==> !Covers(bs, u)
    ensures Covers(bs[..|bs| - 1], u) <==> Covers(bs, u) && u < bs[|bs| - 1].addr
  {
    var n := |bs| - 1;
    var p := bs[..n];
    CoversConcat(p, [bs[n]], u);
    assert bs == p + [bs[n]];
    OneBlock(bs[n]);
    if Covers(p, u) {
      var i :| 0 <= i < |p| && p[i].Has(u);
      assert bs[i].End() < bs[n].addr;
    }
  }

  lemma SameLast(bs: seq<Blk>, cs: seq<Blk>)
    requires Sorted(bs) && Sorted(cs) && |bs| >= 2 && |cs| >= 2
    requires forall u: nat :: Covers(bs, u) <==> Covers(cs, u)
    ensures bs[|bs| - 1] == cs[|cs| - 1]
  {
    var x, y := bs[|bs| - 1], cs[|cs| - 1];
    LastStretch(bs, x.End() - 1);
    LastStretch(cs, x.End() - 1);
    LastStretch(bs, y.End() - 1);
    LastStretch(cs, y.End() - 1);
    assert x.End() == y.End();
    assert 1 <= x.addr && 1 <= y.addr;
    LastStretch(bs, x.addr - 1);
    LastStretch(cs, x.addr - 1);
    LastStretch(bs, y.addr - 1);
    LastStretch(cs, y.addr - 1);
  }

  lemma OnlyBase(bs: seq<Blk>, cs: seq<Blk>)
    requires Sorted(bs) && Sorted(cs) && |bs| == 1
    requires forall u: nat :: Covers(bs, u) <==> Covers(cs, u)
    ensures |cs| == 1
  {
    if |cs| >= 2 {
      LastStretch(cs, cs[|cs| - 1].addr);
      assert false;
    }
  }

  /** The list is determined by its base and the units it covers: whatever the order of frees and
      merges, there is only one fully coalesced list of a given set of free units. */
  lemma {:induction false} Canonical(bs: seq<Blk>, cs: seq<Blk>)
    requires Sorted(bs) && Sorted(cs) && bs[0] == cs[0]
    requires forall u: nat :: Covers(bs, u) <==> Covers(cs, u)
    ensures bs == cs
  {
    if |bs| == 1 {
      OnlyBase(bs, cs);
    } else if |cs| == 1 {
      OnlyBase(cs, bs);
    } else {
      SameLast(bs, cs);
      var b, c := bs[..|bs| - 1], cs[..|cs| - 1];
      forall u: nat ensures Covers(b, u) <==> Covers(c, u) {
        LastStretch(bs, u);
        LastStretch(cs, u);
      }
      Canonical(b, c);
      assert bs == b + [bs[|bs| - 1]] && cs == c + [cs[|cs| - 1]];
    }
  }
}
