/** bio.c: the buffer cache. The sections under bcache.lock are methods on the doubly linked list; the
    interleaving of any number of uses of buffers is a state machine over what those sections do. */
module Bio {

  datatype Buf = Buf(dev: nat, blockno: nat, valid: bool, dirty: bool, refcnt: nat)

  /** The buffers, and the list from head.next on: most recently used first. */
  datatype Cache = Cache(bufs: seq<Buf>, order: seq<nat>)

  predicate Caches(x: Buf, dev: nat, blockno: nat) { x.dev == dev && x.blockno == blockno }

  /** Not in use, and not pinned by the log. */
  predicate Free(x: Buf) { x.refcnt == 0 && !x.dirty }

  /** The list holds every buffer once. */
  predicate Permutation(order: seq<nat>, n: nat) {
    && |order| == n && (forall i :: 0 <= i < n ==> order[i] < n)
    && (forall i, j :: 0 <= i < j < n ==> order[i] != order[j])
  }

  /** bget's first loop stops at position i. */
  predicate Hit(c: Cache, dev: nat, blockno: nat, i: nat)
    requires Permutation(c.order, |c.bufs|)
  {
    i < |c.order| && Caches(c.bufs[c.order[i]], dev, blockno) &&
        forall j :: 0 <= j < i ==> !Caches(c.bufs[c.order[j]], dev, blockno)
  }

  predicate Miss(c: Cache, dev: nat, blockno: nat)
    requires Permutation(c.order, |c.bufs|)
  {
    forall j :: 0 <= j < |c.order| ==> !Caches(c.bufs[c.order[j]], dev, blockno)
  }

  /** bget's second loop, which runs backwards, stops at position i. */
  predicate Victim(c: Cache, i: nat)
    requires Permutation(c.order, |c.bufs|)
  {
    i < |c.order| && Free(c.bufs[c.order[i]]) && forall j :: i < j < |c.order| ==> !Free(c.bufs[c.order[j]])
  }

  /** bget, up to acquiresleep, with the buffer at position i: it is used once more, or recycled. */
  function Gotten(c: Cache, dev: nat, blockno: nat, i: nat): Cache
    requires Permutation(c.order, |c.bufs|) && i < |c.order|
  {
    var b := c.order[i];
    var x := c.bufs[b];
    c.(bufs := c.bufs[b := if Caches(x, dev, blockno) then x.(refcnt := x.refcnt + 1)
        else Buf(dev, blockno, false, false, 1)])
  }

  /** Position i is where bget's loops stop. */
  predicate Stops(c: Cache, dev: nat, blockno: nat, i: nat)
    requires Permutation(c.order, |c.bufs|)
  {
    Hit(c, dev, blockno, i) || (Miss(c, dev, blockno) && Victim(c, i))
  }

  function MovedFront(order: seq<nat>, i: nat): seq<nat>
    requires i < |order|
  {
    [order[i]] + order[..i] + order[i + 1..]
  }

  /** brelse, from refcnt-- on, for the buffer at position i. */
  function Released(c: Cache, i: nat): Cache
    requires Permutation(c.order, |c.bufs|) && i < |c.order| && c.bufs[c.order[i]].refcnt > 0
  {
    var b := c.order[i];
    var x := c.bufs[b].(refcnt := c.bufs[b].refcnt - 1);
    Cache(c.bufs[b := x], if x.refcnt == 0 then MovedFront(c.order, i) else c.order)
  }

  lemma MovedFrontPermutes(order: seq<nat>, n: nat, i: nat)
    requires Permutation(order, n) && i < n
    ensures Permutation(MovedFront(order, i), n)
  {
    var m := MovedFront(order, i);
    assert forall k :: 0 <= k < n ==> m[k] == if k == 0 then order[i] else if k <= i then order[k - 1] else order[k];
  }

  // The linked list. Slot n of next and prev is the list head.

  predicate Linked(next: seq<nat>, prev: seq<nat>, order: seq<nat>, n: nat) {
    && |next| == |prev| == n + 1
    && next[n] == (if |order| == 0 then n else order[0])
    && prev[n] == (if |order| == 0 then n else order[|order| - 1])
    && (forall i :: 0 <= i < |order| ==> order[i] < n)
    && (forall i {:trigger next[order[i]]} ::
       0 <= i < |order| ==> next[order[i]] == if i + 1 < |order| then order[i + 1] else n)
    && (forall i {:trigger prev[order[i]]} :: 0 <= i < |order| ==> prev[order[i]] == if i > 0 then order[i - 1] else n)
  }

  predicate Distinct(order: seq<nat>) { forall i, j :: 0 <= i < j < |order| ==> order[i] != order[j] }

  predicate Without(order: seq<nat>, o: seq<nat>, i: nat) {
    i < |order| && |order| == |o| + 1 &&
        forall k {:trigger o[k]} :: 0 <= k < |o| ==> o[k] == if k < i then order[k] else order[k + 1]
  }

  lemma UnlinkedNext(next: seq<nat>, prev: seq<nat>, order: seq<nat>, n: nat, i: nat, o: seq<nat>, k: nat)
    requires Linked(next, prev, order, n) && Distinct(order) && Without(order, o, i) && k < |o|
    ensures o[k] < n
    ensures var b := order[i]; prev[b] <= n && next[prev[b] := next[b]][o[k]] == if k + 1 < |o| then o[k + 1] else n
  {
    assert next[order[i]] == (if i + 1 < |order| then order[i + 1] else n) &&
           prev[order[i]] == (if i > 0 then order[i - 1] else n);
    var m := if k < i then k else k + 1;
    assert next[order[m]] == if m + 1 < |order| then order[m + 1] else n;
  }

  lemma UnlinkedPrev(next: seq<nat>, prev: seq<nat>, order: seq<nat>, n: nat, i: nat, o: seq<nat>, k: nat)
    requires Linked(next, prev, order, n) && Distinct(order) && Without(order, o, i) && k < |o|
    ensures o[k] < n
    ensures var b := order[i]; next[b] <= n && prev[next[b] := prev[b]][o[k]] == if k > 0 then o[k - 1] else n
  {
    assert next[order[i]] == (if i + 1 < |order| then order[i + 1] else n) &&
           prev[order[i]] == (if i > 0 then order[i - 1] else n);
    var m := if k < i then k else k + 1;
    assert prev[order[m]] == if m > 0 then order[m - 1] else n;
  }

  lemma UnlinkedEnds(next: seq<nat>, prev: seq<nat>, order: seq<nat>, n: nat, i: nat, o: seq<nat>)
    requires Linked(next, prev, order, n) && Distinct(order) && Without(order, o, i)
    ensures var b := order[i]; b < n && next[b] <= n && prev[b] <= n && next[b] != b
    ensures var b := order[i]; next[prev[b] := next[b]][n] == if |o| == 0 then n else o[0]
    ensures var b := order[i]; prev[next[b] := prev[b]][n] == if |o| == 0 then n else o[|o| - 1]
  {
    assert next[order[i]] == (if i + 1 < |order| then order[i + 1] else n) &&
           prev[order[i]] == (if i > 0 then order[i - 1] else n);
  }

  lemma WithoutDistinct(order: seq<nat>, o: seq<nat>, i: nat)
    requires Distinct(order) && Without(order, o, i)
    ensures order[i] !in o && Distinct(o)
  {
  }

  /** b->next->prev = b->prev; b->prev->next = b->next. */
  lemma Unlinked(next: seq<nat>, prev: seq<nat>, order: seq<nat>, n: nat, i: nat, o: seq<nat>)
    requires Linked(next, prev, order, n) && Distinct(order) && Without(order, o, i)
    ensures var b := order[i]; b < n && next[b] <= n && prev[b] <= n && next[b] != b
    ensures var b := order[i]; Linked(next[prev[b] := next[b]], prev[next[b] := prev[b]], o, n)
  {
    UnlinkedEnds(next, prev, order, n, i, o);
    var next', prev' := next[prev[order[i]] := next[order[i]]], prev[next[order[i]] := prev[order[i]]];
    forall k | 0 <= k < |o|
      ensures o[k] < n
      ensures next'[o[k]] == (if k + 1 < |o| then o[k + 1] else n) && prev'[o[k]] == if k > 0 then o[k - 1] else n
    {
      UnlinkedNext(next, prev, order, n, i, o, k);
      UnlinkedPrev(next, prev, order, n, i, o, k);
    }
  }

  /** b->next = head.next; b->prev = &head; head.next->prev = b; head.next = b. */
  lemma PushedFront(next: seq<nat>, prev: seq<nat>, order: seq<nat>, n: nat, b: nat)
    requires Linked(next, prev, order, n) && Distinct(order) && b < n && b !in order
    ensures next[n] <= n
    ensures var next1, prev1 := next[b := next[n]], prev[b := n];
            Linked(next1[n := b], prev1[next1[n] := b], [b] + order, n)
  {
    var o := [b] + order;
    if |order| > 0 { assert prev[order[0]] == n; }
    var next', prev' := next[b := next[n]][n := b], prev[b := n][next[n] := b];
    forall k | 0 <= k < |o| ensures next'[o[k]] == if k + 1 < |o| then o[k + 1] else n {
      if k > 0 { assert next[order[k - 1]] == if k < |order| then order[k] else n; }
    }
    forall k | 0 <= k < |o| ensures prev'[o[k]] == if k > 0 then o[k - 1] else n {
      if k > 0 { assert prev[order[k - 1]] == if k - 1 > 0 then order[k - 2] else n; }
    }
  }

  /** brelse's six assignments move the buffer at position i to the front. */
  lemma MoveLinks(next: seq<nat>, prev: seq<nat>, order: seq<nat>, n: nat, i: nat, o: seq<nat>)
    requires Linked(next, prev, order, n) && Distinct(order) && i < |order| && o == order[..i] + order[i + 1..]
    ensures var b := order[i]; b < n && next[b] <= n && prev[b] <= n && next[b] != b && [b] + o == MovedFront(order, i)
    ensures var b := order[i]; var next1, prev1 := next[prev[b] := next[b]], prev[next[b] := prev[b]];
      && next1[n] <= n
      && var next2, prev2 := next1[b := next1[n]], prev1[b := n];
         Linked(next2[n := b], prev2[next2[n] := b], [b] + o, n)
  {
    var b := order[i];
    assert Without(order, o, i);
    Unlinked(next, prev, order, n, i, o);
    WithoutDistinct(order, o, i);
    PushedFront(next[prev[b] := next[b]], prev[next[b] := prev[b]], o, n, b);
  }

  class BufferCache {
    const n: nat                     // NBUF
    var bufs: seq<Buf>
    var next: seq<nat>
    var prev: seq<nat>
    ghost var order: seq<nat>

    ghost predicate Valid()
      reads this
    {
      |bufs| == n && Permutation(order, n) && Linked(next, prev, order, n)
    }

    ghost function Value(): Cache
      reads this
    {
      Cache(bufs, order)
    }

    /** binit: every buffer is linked in at the front, so the list starts as n - 1, ..., 0. */
    constructor (n: nat)
      ensures this.n == n && Valid() && order == seq(n, i requires 0 <= i < n => n - 1 - i)
      ensures forall b :: 0 <= b < n ==> bufs[b] == Buf(0, 0, false, false, 0)
    {
      this.n := n;
      bufs := seq(n, _ => Buf(0, 0, false, false, 0));
      next, prev := seq(n + 1, _ => n), seq(n + 1, _ => n);
      order := [];
      new;
      for b := 0 to n
        invariant |bufs| == n && Linked(next, prev, order, n) && |order| == b &&
                  (forall i :: 0 <= i < b ==> order[i] == b - 1 - i)
        invariant forall b :: 0 <= b < n ==> bufs[b] == Buf(0, 0, false, false, 0)
      {
        PushedFront(next, prev, order, n, b);
        PushFront(b);
      }
    }

    method PushFront(b: nat)
      requires |next| == |prev| == n + 1 && b < n && next[n] <= n
      modifies `next, `prev, `order
      ensures var next1, prev1 := old(next)[b := old(next)[n]], old(prev)[b := n];
              next == next1[n := b] && prev == prev1[next1[n] := b]
      ensures order == [b] + old(order)
    {
      next := next[b := next[n]];
      prev := prev[b := n];
      prev := prev[next[n] := b];
      next := next[n := b];
      order := [b] + order;
    }

    /** bget's first loop: the first buffer in list order that caches the block, or n, the list head. */
    method FindCached(dev: nat, blockno: nat) returns (b: nat, ghost i: nat)
      requires Valid()
      ensures b == n ==> Miss(Value(), dev, blockno)
      ensures b != n ==> Hit(Value(), dev, blockno, i) && b == order[i]
    {
      b, i := next[n], 0;
      while b != n
        invariant i <= n && b == (if i < n then order[i] else n)
        invariant forall j :: 0 <= j < i ==> !Caches(bufs[order[j]], dev, blockno)
        decreases n - i
      {
        if bufs[b].dev == dev && bufs[b].blockno == blockno {
          return;
        }
        assert next[order[i]] == if i + 1 < n then order[i + 1] else n;
        b, i := next[b], i + 1;
      }
    }

    /** bget's second loop. */
    method FindFree() returns (b: nat, ghost i: nat)
      requires Valid()
      ensures b == n ==> forall j :: 0 <= j < n ==> !Free(bufs[j])
      ensures b != n ==> Victim(Value(), i) && b == order[i]
    {
      b := prev[n];
      ghost var k := n;
      while b != n
        invariant 0 <= k <= n && b == (if k > 0 then order[k - 1] else n)
        invariant forall j :: k <= j < n ==> !Free(bufs[order[j]])
        decreases k
      {
        if bufs[b].refcnt == 0 && !bufs[b].dirty {
          i := k - 1;
          return;
        }
        assert prev[order[k - 1]] == if k - 1 > 0 then order[k - 2] else n;
        b, k := prev[b], k - 1;
      }
      i := 0;
      forall j | 0 <= j < n ensures !Free(bufs[j]) { ghost var m := Position(order, n, j); }
    }

    /** bget under bcache.lock. Not ok is the panic "bget: no buffers". */
    method Bget(dev: nat, blockno: nat) returns (ok: bool, b: nat, ghost i: nat)
      requires Valid()
      modifies `bufs
      ensures Valid()
      ensures ok ==>
              Stops(old(Value()), dev, blockno, i) && Value() == Gotten(old(Value()), dev, blockno, i) && b == order[i]
      ensures !ok ==> bufs == old(bufs) && forall j :: 0 <= j < n ==> !Caches(bufs[j], dev, blockno) && !Free(bufs[j])
    {
      b, i := FindCached(dev, blockno);
      if b != n {
        bufs := bufs[b := bufs[b].(refcnt := bufs[b].refcnt + 1)];
        return true, b, i;
      }
      b, i := FindFree();
      if b != n {
        bufs := bufs[b := Buf(dev, blockno, false, false, 1)];
        return true, b, i;
      }
      forall j | 0 <= j < n ensures !Caches(bufs[j], dev, blockno) { ghost var m := Position(order, n, j); }
      ok := false;
    }

    /** brelse under bcache.lock. */
    method Brelse(b: nat, ghost i: nat)
      requires Valid() && i < n && b == order[i] && bufs[b].refcnt > 0
      modifies `bufs, `next, `prev, `order
      ensures Valid() && Value() == Released(old(Value()), i)
    {
      bufs := bufs[b := bufs[b].(refcnt := bufs[b].refcnt - 1)];
      if bufs[b].refcnt == 0 {
        ghost var o := order[..i] + order[i + 1..];
        MovedFrontPermutes(order, n, i);
        MoveLinks(next, prev, order, n, i, o);
        Unlink(b, o);
        PushFront(b);
      }
    }

    method Unlink(b: nat, ghost o: seq<nat>)
      requires |next| == |prev| == n + 1 && b < n && next[b] <= n && prev[b] <= n && next[b] != b
      modifies `next, `prev, `order
      ensures next == old(next)[old(prev)[b] := old(next)[b]] && prev == old(prev)[old(next)[b] := old(prev)[b]] &&
              order == o
    {
      prev := prev[next[b] := prev[b]];
      next := next[prev[b] := next[b]];
      order := o;
    }
  }

  function Below(n: nat): set<nat> { if n == 0 then {} else Below(n - 1) + {n - 1} }

  lemma {:induction false} BelowCount(n: nat)
    ensures |Below(n)| == n && forall x :: 0 <= x < n <==> x in Below(n)
  {
    if n > 0 {
      BelowCount(n - 1);
    }
  }

  function Elements(order: seq<nat>): set<nat> {
    if order == [] then {} else Elements(order[..|order| - 1]) + {order[|order| - 1]}
  }

  lemma {:induction false} ElementsAre(order: seq<nat>)
    ensures forall x :: x in Elements(order) <==> x in order
  {
    if order != [] {
      ElementsAre(order[..|order| - 1]);
      assert order == order[..|order| - 1] + [order[|order| - 1]];
    }
  }

  lemma {:induction false} ElementsCount(order: seq<nat>)
    requires Distinct(order)
    ensures |Elements(order)| == |order|
  {
    if order != [] {
      ElementsCount(order[..|order| - 1]);
      ElementsAre(order[..|order| - 1]);
    }
  }

  /** A list of n distinct buffers out of n lists every buffer. */
  lemma Position(order: seq<nat>, n: nat, b: nat) returns (i: nat)
    requires Permutation(order, n) && b < n
    ensures i < n && order[i] == b
  {
    ElementsAre(order);
    ElementsCount(order);
    BelowCount(n);
    SubsetSame(Elements(order), Below(n));
    assert b in order;
    i :| i < n && order[i] == b;
  }

  lemma SubsetSame(a: set<nat>, b: set<nat>)
    requires a <= b && |a| == |b|
    ensures a == b
  {
    assert |b - a| == |b| - |a|;
  }
}
