/** pipe.c: a ring of PIPESIZE bytes with 32-bit counters that wrap. What a reader or a writer does between
    two sleeps happens under p->lock and is one method call; between calls any other may run. */
module Pipe {
  import opened Blocks

  const PIPESIZE := 512

  datatype Status = Done | Asleep | Failed

  /** The counters are the numbers of bytes stored and taken, modulo 2^32, and the bytes not yet taken lie in
      the ring at their place. */
  ghost predicate Ring(data: seq<Byte>, nread: nat, nwrite: nat, stored: seq<Byte>, taken: nat) {
    && |data| == PIPESIZE && taken <= |stored| <= taken + PIPESIZE
    && nread == taken % UINT_LIMIT && nwrite == |stored| % UINT_LIMIT
    && (forall k {:trigger stored[k]} :: taken <= k < |stored| ==> data[k % PIPESIZE] == stored[k])
  }

  /** The two tests of the code are exact although the counters wrap. */
  lemma FullAndEmpty(nread: nat, nwrite: nat, stored: nat, taken: nat)
    requires taken <= stored <= taken + PIPESIZE && nread == taken % UINT_LIMIT && nwrite == stored % UINT_LIMIT
    ensures nwrite == (nread + PIPESIZE) % UINT_LIMIT <==> stored == taken + PIPESIZE
    ensures nread == nwrite <==> stored == taken
  {
    var d := stored - taken;
    assert stored == taken + d;
    WrapAdd(taken, d);
    WrapAdd(taken, PIPESIZE);
    assert UINT_LIMIT > PIPESIZE;
  }

  lemma WrapAdd(a: nat, d: nat)
    requires d < UINT_LIMIT
    ensures (a + d) % UINT_LIMIT == (a % UINT_LIMIT + d) % UINT_LIMIT
    ensures (a + d) % UINT_LIMIT == if a % UINT_LIMIT + d < UINT_LIMIT then a % UINT_LIMIT + d
            else a % UINT_LIMIT + d - UINT_LIMIT
  {
  }

  /** The ring's size divides 2^32, so a wrapped counter finds the right place. */
  lemma WrapPlace(a: nat)
    ensures (a % UINT_LIMIT) % PIPESIZE == a % PIPESIZE
  {
    var q := a / UINT_LIMIT;
    assert a == q * UINT_LIMIT + a % UINT_LIMIT && UINT_LIMIT == 8388608 * PIPESIZE;
    assert a == (q * 8388608) * PIPESIZE + a % UINT_LIMIT;
    SamePlace(a % UINT_LIMIT, q * 8388608);
  }

  lemma {:induction false} SamePlace(b: nat, m: nat)
    ensures (m * PIPESIZE + b) % PIPESIZE == b % PIPESIZE
  {
    if m > 0 {
      SamePlace(b, m - 1);
      assert m * PIPESIZE + b == ((m - 1) * PIPESIZE + b) + PIPESIZE;
    }
  }

  /** Two bytes of the ring at once are less than PIPESIZE apart, so they have different places. */
  lemma PlacesDiffer(a: nat, b: nat)
    requires a < b < a + PIPESIZE
    ensures a % PIPESIZE != b % PIPESIZE
  {
  }

  lemma Stored(data: seq<Byte>, nread: nat, nwrite: nat, stored: seq<Byte>, taken: nat, x: Byte)
    requires Ring(data, nread, nwrite, stored, taken) && |stored| < taken + PIPESIZE
    ensures Ring(data[nwrite % PIPESIZE := x], nread, (nwrite + 1) % UINT_LIMIT, stored + [x], taken)
  {
    var n := |stored|;
    WrapPlace(n);
    WrapAdd(n, 1);
    var data', stored' := data[nwrite % PIPESIZE := x], stored + [x];
    forall k {:trigger stored'[k]} | taken <= k < |stored'| ensures data'[k % PIPESIZE] == stored'[k] {
      if k < n {
        PlacesDiffer(k, n);
        assert stored'[k] == stored[k];
      }
    }
  }

  lemma Taken(data: seq<Byte>, nread: nat, nwrite: nat, stored: seq<Byte>, taken: nat)
    requires Ring(data, nread, nwrite, stored, taken) && taken < |stored|
    ensures data[nread % PIPESIZE] == stored[taken] && Ring(data, (nread + 1) % UINT_LIMIT, nwrite, stored, taken + 1)
  {
    WrapPlace(taken);
    WrapAdd(taken, 1);
  }

  class Pipe {
    var data: seq<Byte>
    var nread: nat
    var nwrite: nat
    var readopen: bool
    var writeopen: bool
    ghost var stored: seq<Byte>      // every byte ever stored
    ghost var got: seq<Byte>         // every byte ever taken

    /** What has been taken is a prefix of what has been stored, at most PIPESIZE bytes shorter, and the rest
        is intact in the ring. */
    ghost predicate Valid()
      reads this
    {
      Ring(data, nread, nwrite, stored, |got|) && got == stored[..|got|]
    }

    /** pipealloc. */
    constructor ()
      ensures Valid() && stored == got == [] && readopen && writeopen
    {
      data := seq(PIPESIZE, _ => 0);
      nread, nwrite, readopen, writeopen := 0, 0, true, true;
      stored, got := [], [];
    }

    method Close(writable: bool)
      requires Valid()
      modifies `readopen, `writeopen
      ensures Valid()
      ensures if writable then !writeopen && readopen == old(readopen) else !readopen && writeopen == old(writeopen)
    {
      if writable {
        writeopen := false;
      } else {
        readopen := false;
      }
    }

    /** p->data[p->nwrite++ % PIPESIZE] = x. */
    method Store(x: Byte)
      requires Valid() && |stored| < |got| + PIPESIZE
      modifies `data, `nwrite, `stored
      ensures Valid() && stored == old(stored) + [x]
    {
      Stored(data, nread, nwrite, stored, |got|, x);
      data := data[nwrite % PIPESIZE := x];
      nwrite := (nwrite + 1) % UINT_LIMIT;
      stored := stored + [x];
    }

    /** p->data[p->nread++ % PIPESIZE]. */
    method Take() returns (x: Byte)
      requires Valid() && |got| < |stored|
      modifies `nread, `got
      ensures Valid() && x == stored[|old(got)|] && got == old(got) + [x]
    {
      Taken(data, nread, nwrite, stored, |got|);
      x := data[nread % PIPESIZE];
      nread := (nread + 1) % UINT_LIMIT;
      got := got + [x];
    }

    /** pipewrite from byte i on, up to its return or its next sleep. It sleeps or gives up only when the
        ring is full. */
    method Write(addr: seq<Byte>, i: nat, killed: bool) returns (i': nat, st: Status)
      requires Valid() && i <= |addr|
      modifies `data, `nwrite, `stored
      ensures Valid() && i <= i' <= |addr| && stored == old(stored) + addr[i..i']
      ensures st.Done? <==> i' == |addr|
      ensures st.Asleep? ==> |stored| == |got| + PIPESIZE && readopen && !killed
      ensures st.Failed? ==> |stored| == |got| + PIPESIZE && (!readopen || killed)
    {
      i' := i;
      while i' < |addr|
        invariant Valid() && i <= i' <= |addr| && stored == old(stored) + addr[i..i']
      {
        FullAndEmpty(nread, nwrite, |stored|, |got|);
        if nwrite == (nread + PIPESIZE) % UINT_LIMIT {
          st := if !readopen || killed then Failed else Asleep;
          return;
        }
        Store(addr[i']);
        assert addr[i..i' + 1] == addr[i..i'] + [addr[i']];
        i' := i' + 1;
      }
      st := Done;
    }

    /** piperead up to its return or its next sleep. It sleeps or gives up only when the ring is empty and may
        still be written to; otherwise it takes as much as there is, up to n bytes. */
    method Read(n: nat, killed: bool) returns (xs: seq<Byte>, st: Status)
      requires Valid()
      modifies `nread, `got
      ensures Valid() && got == old(got) + xs
      ensures !st.Done? <==> |old(got)| == |stored| && writeopen
      ensures st.Failed? ==> killed
      ensures st.Asleep? ==> !killed
      ensures |xs| == if st.Done? then Min(n, |stored| - |old(got)|) else 0
    {
      xs := [];
      FullAndEmpty(nread, nwrite, |stored|, |got|);
      if nread == nwrite && writeopen {
        st := if killed then Failed else Asleep;
        return;
      }
      var i := 0;
      while i < n
        invariant i <= n && Valid() && got == old(got) + xs && |xs| == i
      {
        FullAndEmpty(nread, nwrite, |stored|, |got|);
        if nread == nwrite {
          break;
        }
        var x := Take();
        xs := xs + [x];
        i := i + 1;
      }
      st := Done;
    }
  }

  function Min(a: nat, b: nat): nat { if a < b then a else b }

  // Any schedule of any number of readers and writers.

  datatype Op = WriteOp(w: nat, killed: bool) | ReadOp(n: nat, killed: bool) | CloseOp(writable: bool)

  /** The bytes that writer w stored, in their order; owners[k] stored byte k. */
  function Mine(stored: seq<Byte>, owners: seq<nat>, w: nat): seq<Byte>
    requires |stored| == |owners|
  {
    if stored == [] then []
    else
      var n := |stored| - 1;
      Mine(stored[..n], owners[..n], w) + if owners[n] == w then [stored[n]] else []
  }

  lemma {:induction false} MineAppend(stored: seq<Byte>, owners: seq<nat>, xs: seq<Byte>, v: nat, w: nat)
    requires |stored| == |owners|
    ensures Mine(stored + xs, owners + seq(|xs|, _ => v), w) == Mine(stored, owners, w) + if v == w then xs else []
  {
    var ys, os := stored + xs, owners + seq(|xs|, _ => v);
    if xs == [] {
      assert ys == stored && os == owners;
    } else {
      var n := |xs| - 1;
      MineAppend(stored, owners, xs[..n], v, w);
      assert ys[..|ys| - 1] == stored + xs[..n] && os[..|os| - 1] == owners + seq(n, _ => v);
      assert v == w ==> xs == xs[..n] + [xs[n]];
    }
  }

  /** Whatever the schedule, the bytes taken are a prefix of those stored, at most PIPESIZE behind, and every
      writer's bytes are stored in its own order without loss. */
  method Schedule(addrs: seq<seq<Byte>>, ops: seq<Op>)
      returns (p: Pipe, pos: seq<nat>, out: seq<Byte>, ghost owners: seq<nat>)
    requires forall k :: 0 <= k < |ops| && ops[k].WriteOp? ==> ops[k].w < |addrs|
    ensures p.Valid() && out <= p.stored && |p.stored| <= |out| + PIPESIZE
    ensures |pos| == |addrs| && |owners| == |p.stored|
    ensures forall w :: 0 <= w < |addrs| ==> pos[w] <= |addrs[w]| && Mine(p.stored, owners, w) == addrs[w][..pos[w]]
  {
    p := new Pipe();
    pos, out, owners := seq(|addrs|, _ => 0), [], [];
    for k := 0 to |ops|
      invariant p.Valid() && out == p.got && |pos| == |addrs| && |owners| == |p.stored| && fresh(p)
      invariant forall w :: 0 <= w < |addrs| ==> pos[w] <= |addrs[w]| && Mine(p.stored, owners, w) == addrs[w][..pos[w]]
    {
      match ops[k]
      case CloseOp(writable) => p.Close(writable);
      case ReadOp(n, killed) =>
        var xs, _ := p.Read(n, killed);
        out := out + xs;
      case WriteOp(v, killed) =>
        ghost var stored := p.stored;
        var i, _ := p.Write(addrs[v], pos[v], killed);
        ghost var xs := addrs[v][pos[v]..i];
        forall w | 0 <= w < |addrs|
          ensures Mine(p.stored, owners + seq(|xs|, _ => v), w) == addrs[w][..pos[v := i][w]]
        {
          MineAppend(stored, owners, xs, v, w);
          assert addrs[v][..i] == addrs[v][..pos[v]] + xs;
        }
        owners := owners + seq(|xs|, _ => v);
        pos := pos[v := i];
    }
  }
}
