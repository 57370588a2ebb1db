/** The bitmap blocks that freeing a file's blocks logs. */
module Maps {
  import opened Ownership
  import opened Space

  /** The bitmap blocks with the bits of the blocks in slots lo .. hi. */
  function MapsIn(row: Row, lo: nat, hi: nat, bmapstart: nat): set<nat>
    requires hi <= SLOTS
  {
    if hi <= lo then {}
    else MapsIn(row, lo, hi - 1, bmapstart) + if row[hi - 1] != 0 then {row[hi - 1] / BPB + bmapstart} else {}
  }

  /** Those of all blocks of a file. */
  function MapsOf(row: Row, bmapstart: nat): set<nat> { MapsIn(row, 0, SLOTS, bmapstart) }

  lemma {:induction false} MapsIs(row: Row, lo: nat, hi: nat, bmapstart: nat, m: nat)
    requires hi <= SLOTS
    ensures m in MapsIn(row, lo, hi, bmapstart) <==>
            exists k :: lo <= k < hi && row[k] != 0 && m == row[k] / BPB + bmapstart
  {
    if lo < hi { MapsIs(row, lo, hi - 1, bmapstart, m); }
  }

  lemma {:induction false} MapsJoin(row: Row, lo: nat, mid: nat, hi: nat, bmapstart: nat)
    requires lo <= mid <= hi <= SLOTS
    ensures MapsIn(row, lo, hi, bmapstart) == MapsIn(row, lo, mid, bmapstart) + MapsIn(row, mid, hi, bmapstart)
  {
    if mid < hi { MapsJoin(row, lo, mid, hi - 1, bmapstart); }
  }

  lemma {:induction false} MapsSame(row: Row, row': Row, lo: nat, hi: nat, bmapstart: nat)
    requires hi <= SLOTS && forall k :: lo <= k < hi ==> row'[k] == row[k]
    ensures MapsIn(row', lo, hi, bmapstart) == MapsIn(row, lo, hi, bmapstart)
  {
    if lo < hi { MapsSame(row, row', lo, hi - 1, bmapstart); }
  }

  lemma {:induction false} MapsNone(row: Row, lo: nat, hi: nat, bmapstart: nat)
    requires hi <= SLOTS && forall k :: lo <= k < hi ==> row[k] == 0
    ensures MapsIn(row, lo, hi, bmapstart) == {}
  {
    if lo < hi { MapsNone(row, lo, hi - 1, bmapstart); }
  }

  // ---------- Calls of log_write ----------

  /** The blocks of a transaction: repeated calls of log_write on a block are absorbed. */
  function Logged(txn: seq<nat>): set<nat> { set b | b in txn }

  lemma LoggedNext(txn: seq<nat>, b: nat)
    ensures Logged(txn + [b]) == Logged(txn) + {b}
  {
  }

  ghost predicate Bit(k: nat) { k >= 0 }

  /** The calls since txn0 have logged the bitmap blocks of slots lo .. hi. Behind a guard, which keeps the
      solver from unfolding this where it is only carried along. */
  ghost predicate LogsMaps(txn0: seq<nat>, txn: seq<nat>, row: Row, lo: nat, hi: nat, bmapstart: nat) {
    forall k: nat {:trigger Bit(k)} :: Bit(k) ==>
      hi <= SLOTS && Logged(txn) == Logged(txn0) + MapsIn(row, lo, hi, bmapstart)
  }

  lemma LogsMapsStart(txn: seq<nat>, row: Row, lo: nat, bmapstart: nat)
    requires lo <= SLOTS
    ensures LogsMaps(txn, txn, row, lo, lo, bmapstart)
  {
  }

  /** bfree of the block in slot k, if there is one. */
  lemma LogsMapsNext(txn0: seq<nat>, txn: seq<nat>, txn': seq<nat>, row: Row, lo: nat, k: nat, bmapstart: nat)
    requires LogsMaps(txn0, txn, row, lo, k, bmapstart) && lo <= k < SLOTS
    requires txn' == txn + if row[k] != 0 then [row[k] / BPB + bmapstart] else []
    ensures LogsMaps(txn0, txn', row, lo, k + 1, bmapstart)
  {
    assert Bit(0);
    if row[k] != 0 {
      LoggedNext(txn, row[k] / BPB + bmapstart);
    } else {
      assert txn' == txn;
    }
  }

  /** The rest of the row, by what is left in it by then. */
  lemma LogsMapsJoin(txn0: seq<nat>, txn: seq<nat>, txn': seq<nat>, row: Row, row': Row, mid: nat, bmapstart: nat)
    requires mid <= SLOTS && forall k :: mid <= k < SLOTS ==> row'[k] == row[k]
    requires LogsMaps(txn0, txn, row, 0, mid, bmapstart) && LogsMaps(txn, txn', row', mid, SLOTS, bmapstart)
    ensures LogsMaps(txn0, txn', row, 0, SLOTS, bmapstart)
  {
    assert Bit(0);
    MapsSame(row, row', mid, SLOTS, bmapstart);
    MapsJoin(row, 0, mid, SLOTS, bmapstart);
  }

  /** The entries of an indirect block and then the block itself. */
  lemma LogsMapsIndirect(txn0: seq<nat>, txn: seq<nat>, txn': seq<nat>, row: Row, bmapstart: nat)
    requires LogsMaps(txn0, txn, row, 13, SLOTS, bmapstart) && row[12] != 0
    requires txn' == txn + [row[12] / BPB + bmapstart]
    ensures LogsMaps(txn0, txn', row, 12, SLOTS, bmapstart)
  {
    assert Bit(0);
    LoggedNext(txn, row[12] / BPB + bmapstart);
    MapsJoin(row, 12, 13, SLOTS, bmapstart);
    assert MapsIn(row, 12, 12, bmapstart) == {};
  }

  lemma LogsMapsNone(txn: seq<nat>, row: Row, lo: nat, bmapstart: nat)
    requires lo <= SLOTS && forall k :: lo <= k < SLOTS ==> row[k] == 0
    ensures LogsMaps(txn, txn, row, lo, SLOTS, bmapstart)
  {
    MapsNone(row, lo, SLOTS, bmapstart);
  }

  lemma LogsMapsMeans(txn0: seq<nat>, txn: seq<nat>, row: Row, bmapstart: nat)
    requires LogsMaps(txn0, txn, row, 0, SLOTS, bmapstart)
    ensures Logged(txn) == Logged(txn0) + MapsOf(row, bmapstart)
  {
    assert Bit(0);
  }
}
