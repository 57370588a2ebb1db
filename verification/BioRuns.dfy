/** Any number of uses of buffers, interleaved: a use is between bget's increment of refcnt and brelse's
    decrement. */
module BioRuns {
  import opened Bio

  /** Waiting for the buffer's sleep lock, holding it, or past releasesleep. */
  datatype Stage = Waiting | Holding | Releasing

  datatype Use = Use(b: nat, dev: nat, blockno: nat, stage: Stage)

  /** stamps[b] says when refcnt of buffer b last fell to zero. */
  datatype State = State(c: Cache, uses: seq<Use>, stamps: seq<int>, clock: int)

  datatype Step =
    | Get(dev: nat, blockno: nat, i: nat)               // bget, under bcache.lock
    | Lock(k: nat)                                      // acquiresleep returns
    | SetFlags(k: nat, valid: bool, dirty: bool)        // the holder of the buffer reads, writes or logs it
    | Unlock(k: nat)                                    // releasesleep
    | Put(k: nat, i: nat)                               // brelse, under bcache.lock

  predicate LockFree(uses: seq<Use>, b: nat) {
    forall k :: 0 <= k < |uses| && uses[k].b == b ==> !uses[k].stage.Holding?
  }

  predicate Enabled(s: State, st: Step) {
    && Permutation(s.c.order, |s.c.bufs|) && |s.stamps| == |s.c.bufs|
    && match st
       case Get(dev, blockno, i) => Stops(s.c, dev, blockno, i)
       case Lock(k) => k < |s.uses| && s.uses[k].stage.Waiting? && LockFree(s.uses, s.uses[k].b)
       case SetFlags(k, _, _) => k < |s.uses| && s.uses[k].stage.Holding? && s.uses[k].b < |s.c.bufs|
       case Unlock(k) => k < |s.uses| && s.uses[k].stage.Holding?
       case Put(k, i) =>
         k < |s.uses| && s.uses[k].stage.Releasing? && i < |s.c.order| && s.c.order[i] == s.uses[k].b &&
             s.c.bufs[s.c.order[i]].refcnt > 0
  }

  function Without(uses: seq<Use>, k: nat): seq<Use>
    requires k < |uses|
  {
    uses[..k] + uses[k + 1..]
  }

  function Apply(s: State, st: Step): State
    requires Enabled(s, st)
  {
    match st
    case Get(dev, blockno, i) => s.(c := Gotten(s.c, dev, blockno, i),
        uses := s.uses + [Use(s.c.order[i], dev, blockno, Waiting)])
    case Lock(k) => s.(uses := s.uses[k := s.uses[k].(stage := Holding)])
    case SetFlags(k, valid, dirty) =>
      var b := s.uses[k].b;
      s.(c := s.c.(bufs := s.c.bufs[b := s.c.bufs[b].(valid := valid, dirty := dirty)]))
    case Unlock(k) => s.(uses := s.uses[k := s.uses[k].(stage := Releasing)])
    case Put(k, i) =>
      var b := s.c.order[i];
      State(Released(s.c, i), Without(s.uses, k), if s.c.bufs[b].refcnt == 1 then s.stamps[b := s.clock]
          else s.stamps, s.clock + 1)
  }

  // Counting the uses of a buffer.

  function Count(uses: seq<Use>, b: nat): nat {
    if uses == [] then 0 else Count(uses[..|uses| - 1], b) + if uses[|uses| - 1].b == b then 1 else 0
  }

  lemma CountAppend(uses: seq<Use>, u: Use, b: nat)
    ensures Count(uses + [u], b) == Count(uses, b) + if u.b == b then 1 else 0
  {
    assert (uses + [u])[..|uses|] == uses;
  }

  lemma {:induction false} CountSame(uses: seq<Use>, uses': seq<Use>, b: nat)
    requires |uses| == |uses'| && forall k :: 0 <= k < |uses| ==> uses[k].b == uses'[k].b
    ensures Count(uses, b) == Count(uses', b)
  {
    if uses != [] { CountSame(uses[..|uses| - 1], uses'[..|uses| - 1], b); }
  }

  lemma {:induction false} CountWithout(uses: seq<Use>, k: nat, b: nat)
    requires k < |uses|
    ensures Count(Without(uses, k), b) == Count(uses, b) - if uses[k].b == b then 1 else 0
  {
    var n := |uses| - 1;
    if k < n {
      CountWithout(uses[..n], k, b);
      assert Without(uses, k) == Without(uses[..n], k) + [uses[n]];
      CountAppend(Without(uses[..n], k), uses[n], b);
    } else {
      assert Without(uses, k) == uses[..n];
    }
  }

  lemma {:induction false} CountPositive(uses: seq<Use>, k: nat)
    requires k < |uses|
    ensures Count(uses, uses[k].b) >= 1
  {
    if k < |uses| - 1 { CountPositive(uses[..|uses| - 1], k); }
  }

  // The invariant.

  predicate RefOk(bufs: seq<Buf>, uses: seq<Use>) {
    forall b :: 0 <= b < |bufs| ==> bufs[b].refcnt == Count(uses, b)
  }

  predicate IdOk(bufs: seq<Buf>, uses: seq<Use>) {
    forall k :: 0 <= k < |uses| ==> uses[k].b < |bufs| && Caches(bufs[uses[k].b], uses[k].dev, uses[k].blockno)
  }

  predicate LockOk(uses: seq<Use>) {
    forall k, m :: 0 <= k < m < |uses| && uses[k].stage.Holding? && uses[m].stage.Holding? ==> uses[k].b != uses[m].b
  }

  predicate UniqueOk(bufs: seq<Buf>) {
    forall a, b ::
        0 <= a < |bufs| && 0 <= b < |bufs| && a != b && bufs[a].dev != 0 ==>
        !Caches(bufs[b], bufs[a].dev, bufs[a].blockno)
  }

  /** The list runs from the latest to the earliest release. */
  predicate LruOk(order: seq<nat>, stamps: seq<int>, clock: int) {
    && Permutation(order, |stamps|) && (forall b :: 0 <= b < |stamps| ==> stamps[b] < clock)
    && (forall i, j :: 0 <= i < j < |order| ==> Newer(order, stamps, i, j))
  }

  predicate Newer(order: seq<nat>, stamps: seq<int>, i: nat, j: nat) {
    i < j < |order| && order[i] < |stamps| && order[j] < |stamps| && stamps[order[i]] > stamps[order[j]]
  }

  predicate Inv(s: State) {
    && |s.stamps| == |s.c.bufs| && LruOk(s.c.order, s.stamps, s.clock)
    && RefOk(s.c.bufs, s.uses) && IdOk(s.c.bufs, s.uses) && LockOk(s.uses) && UniqueOk(s.c.bufs)
  }

  lemma GetKeeps(s: State, dev: nat, blockno: nat, i: nat)
    requires Inv(s) && Stops(s.c, dev, blockno, i)
    ensures Inv(Apply(s, Get(dev, blockno, i)))
  {
    var t, b := Apply(s, Get(dev, blockno, i)), s.c.order[i];
    forall a | 0 <= a < |s.c.bufs| ensures t.c.bufs[a].refcnt == Count(t.uses, a) {
      CountAppend(s.uses, Use(b, dev, blockno, Waiting), a);
    }
    if !Caches(s.c.bufs[b], dev, blockno) {
      RecycledUnused(s, i);
      RecycledUnique(s, dev, blockno, i);
    }
  }

  /** Nobody holds or waits for a buffer that is recycled. */
  lemma RecycledUnused(s: State, i: nat)
    requires Inv(s) && Victim(s.c, i)
    ensures forall k :: 0 <= k < |s.uses| ==> s.uses[k].b != s.c.order[i]
  {
    forall k | 0 <= k < |s.uses| ensures s.uses[k].b != s.c.order[i] { CountPositive(s.uses, k); }
  }

  lemma RecycledUnique(s: State, dev: nat, blockno: nat, i: nat)
    requires Inv(s) && Miss(s.c, dev, blockno) && i < |s.c.order|
    ensures UniqueOk(s.c.bufs[s.c.order[i] := Buf(dev, blockno, false, false, 1)])
  {
    forall b | 0 <= b < |s.c.bufs|
      ensures !Caches(s.c.bufs[b], dev, blockno)
    {
      var j := Position(s.c.order, |s.c.bufs|, b);
    }
  }

  lemma UseKeeps(s: State, k: nat, stage: Stage)
    requires Inv(s) && k < |s.uses| && (stage.Holding? ==> LockFree(s.uses, s.uses[k].b))
    ensures Inv(s.(uses := s.uses[k := s.uses[k].(stage := stage)]))
  {
    var uses := s.uses[k := s.uses[k].(stage := stage)];
    forall b | 0 <= b < |s.c.bufs| ensures s.c.bufs[b].refcnt == Count(uses, b) { CountSame(s.uses, uses, b); }
  }

  lemma PutUses(bufs: seq<Buf>, uses: seq<Use>, k: nat, x: Buf)
    requires RefOk(bufs, uses) && IdOk(bufs, uses) && LockOk(uses) && k < |uses|
    requires bufs[uses[k].b].refcnt > 0 && x == bufs[uses[k].b].(refcnt := bufs[uses[k].b].refcnt - 1)
    ensures var b := bufs[uses[k].b := x];
            RefOk(b, Without(uses, k)) && IdOk(b, Without(uses, k)) && LockOk(Without(uses, k))
  {
    var uses', bufs' := Without(uses, k), bufs[uses[k].b := x];
    forall a | 0 <= a < |bufs| ensures bufs'[a].refcnt == Count(uses', a) { CountWithout(uses, k, a); }
    assert forall m {:trigger uses'[m]} :: 0 <= m < |uses'| ==> uses'[m] == if m < k then uses[m] else uses[m + 1];
  }

  lemma UniqueSame(bufs: seq<Buf>, b: nat, x: Buf)
    requires UniqueOk(bufs) && b < |bufs| && x.dev == bufs[b].dev && x.blockno == bufs[b].blockno
    ensures UniqueOk(bufs[b := x])
  {
  }

  lemma PutKeeps(s: State, k: nat, i: nat)
    requires Inv(s) && Enabled(s, Put(k, i))
    ensures Inv(Apply(s, Put(k, i)))
  {
    var b := s.c.order[i];
    var x := s.c.bufs[b].(refcnt := s.c.bufs[b].refcnt - 1);
    PutUses(s.c.bufs, s.uses, k, x);
    UniqueSame(s.c.bufs, b, x);
    if s.c.bufs[b].refcnt == 1 { FrontIsLatest(s.c.order, s.stamps, s.clock, i); }
  }

  lemma FrontIsLatest(order: seq<nat>, stamps: seq<int>, clock: int, i: nat)
    requires LruOk(order, stamps, clock) && i < |order|
    ensures LruOk(MovedFront(order, i), stamps[order[i] := clock], clock + 1)
  {
    MovedFrontPermutes(order, |stamps|, i);
    var m := MovedFront(order, i);
    var stamps' := stamps[order[i] := clock];
    assert forall k {:trigger m[k]} ::
           0 <= k < |m| ==> m[k] == if k == 0 then order[i] else if k <= i then order[k - 1] else order[k];
    forall j, k | 0 <= j < k < |m| ensures Newer(m, stamps', j, k) {
      if j > 0 { assert Newer(order, stamps, if j <= i then j - 1 else j, if k <= i then k - 1 else k); }
    }
  }

  lemma ApplyKeeps(s: State, st: Step)
    requires Inv(s) && Enabled(s, st)
    ensures Inv(Apply(s, st))
  {
    match st
    case Get(dev, blockno, i) => GetKeeps(s, dev, blockno, i);
    case Lock(k) => UseKeeps(s, k, Holding);
    case SetFlags(_, _, _) =>
    case Unlock(k) => UseKeeps(s, k, Releasing);
    case Put(k, i) => PutKeeps(s, k, i);
  }

  // Runs, from the cache that binit sets up.

  predicate Init(s: State) {
    && s.uses == [] && s.clock == 0 && |s.stamps| == |s.c.bufs| == |s.c.order|
    && (forall b :: 0 <= b < |s.c.bufs| ==> s.c.bufs[b] == Buf(0, 0, false, false, 0) && s.stamps[b] == b - |s.c.bufs|)
    && (forall i :: 0 <= i < |s.c.order| ==> s.c.order[i] == |s.c.bufs| - 1 - i)
  }

  lemma InitInv(s: State)
    requires Init(s)
    ensures Inv(s)
  {
    assert forall i, j :: 0 <= i < j < |s.c.order| ==> Newer(s.c.order, s.stamps, i, j);
  }

  predicate StepsAt(ss: seq<State>, steps: seq<Step>, k: nat) {
    k < |steps| && k + 1 < |ss| && Enabled(ss[k], steps[k]) && ss[k + 1] == Apply(ss[k], steps[k])
  }

  predicate Run(ss: seq<State>, steps: seq<Step>) {
    |ss| == |steps| + 1 && Init(ss[0]) && forall k :: 0 <= k < |steps| ==> StepsAt(ss, steps, k)
  }

  lemma {:induction false} RunInv(ss: seq<State>, steps: seq<Step>, k: nat)
    requires Run(ss, steps) && k < |ss|
    ensures Inv(ss[k])
  {
    if k == 0 {
      InitInv(ss[0]);
    } else {
      RunInv(ss, steps, k - 1);
      assert StepsAt(ss, steps, k - 1);
      ApplyKeeps(ss[k - 1], steps[k - 1]);
    }
  }

  /** refcnt counts exactly the uses, and every use, holding or waiting, still finds in its buffer the block
      that it asked for. */
  lemma IdentityIsStable(ss: seq<State>, steps: seq<Step>, k: nat)
    requires Run(ss, steps) && k < |ss|
    ensures var s := ss[k];
      && (forall b :: 0 <= b < |s.c.bufs| ==> s.c.bufs[b].refcnt == Count(s.uses, b))
      && (forall m ::
         0 <= m < |s.uses| ==>
         s.uses[m].b < |s.c.bufs| && Caches(s.c.bufs[s.uses[m].b], s.uses[m].dev, s.uses[m].blockno))
  {
    RunInv(ss, steps, k);
  }

  /** At every moment of every run a block of a device other than 0 is cached in one buffer at most, in use or
      not. */
  lemma OneBufferPerBlock(ss: seq<State>, steps: seq<Step>, k: nat, a: nat, b: nat)
    requires Run(ss, steps) && k < |ss| && a < |ss[k].c.bufs| && b < |ss[k].c.bufs|
    requires ss[k].c.bufs[a].dev == ss[k].c.bufs[b].dev != 0 && ss[k].c.bufs[a].blockno == ss[k].c.bufs[b].blockno
    ensures a == b
  {
    RunInv(ss, steps, k);
  }

  /** So two uses of a block are uses of one buffer, and one of them at most holds it. */
  lemma OneHolderPerBlock(ss: seq<State>, steps: seq<Step>, k: nat, m: nat, n: nat)
    requires Run(ss, steps) && k < |ss| && m < n < |ss[k].uses|
    requires ss[k].uses[m].dev == ss[k].uses[n].dev != 0 && ss[k].uses[m].blockno == ss[k].uses[n].blockno
    ensures ss[k].uses[m].b == ss[k].uses[n].b
    ensures !(ss[k].uses[m].stage.Holding? && ss[k].uses[n].stage.Holding?)
  {
    RunInv(ss, steps, k);
    var s := ss[k];
    assert Caches(s.c.bufs[s.uses[m].b], s.uses[m].dev, s.uses[m].blockno) &&
           Caches(s.c.bufs[s.uses[n].b], s.uses[n].dev, s.uses[n].blockno);
  }

  /** The list is a permutation of the buffers in the order of their last release. */
  lemma ListIsLru(ss: seq<State>, steps: seq<Step>, k: nat)
    requires Run(ss, steps) && k < |ss|
    ensures Permutation(ss[k].c.order, |ss[k].c.bufs|) && |ss[k].stamps| == |ss[k].c.bufs|
    ensures forall i, j :: 0 <= i < j < |ss[k].c.order| ==> Newer(ss[k].c.order, ss[k].stamps, i, j)
  {
    RunInv(ss, steps, k);
  }

  /** bget recycles the buffer whose last release is the longest ago among those it could recycle. */
  lemma VictimIsOldest(ss: seq<State>, steps: seq<Step>, k: nat, i: nat, b: nat)
    requires Run(ss, steps) && k < |ss| && Permutation(ss[k].c.order, |ss[k].c.bufs|) &&
             |ss[k].stamps| == |ss[k].c.bufs|
    requires Victim(ss[k].c, i) && b < |ss[k].c.bufs| && Free(ss[k].c.bufs[b])
    ensures ss[k].stamps[ss[k].c.order[i]] <= ss[k].stamps[b]
  {
    RunInv(ss, steps, k);
    var j := Position(ss[k].c.order, |ss[k].c.bufs|, b);
    assert j < i ==> Newer(ss[k].c.order, ss[k].stamps, j, i);
  }
}
