/** Which inode slot owns which disk block, against the free bitmap. Row i lists the block numbers that
    inode i holds: its twelve direct blocks, its indirect block, and the entries of that block. Zero
    means an empty slot. */
module Ownership {

  const SLOTS := 141

  type Row = r: seq<nat> | |r| == 141 witness seq(141, _ => 0)

  datatype Place = Place(row: nat, slot: nat)

  /** `owner` says which slot holds each block: a block held by a slot has that slot as its owner, so no
      block is held twice, and a bit is set exactly for metadata and for blocks that have an owner. */
  ghost predicate OwnedBy(rows: seq<Row>, owner: map<nat, Place>, bitmap: seq<bool>, nmeta: nat) {
    && 1 <= nmeta <= |bitmap|
    && (forall b :: 0 <= b < nmeta ==> bitmap[b])
    && (forall i, k :: 0 <= i < |rows| && 0 <= k < SLOTS && rows[i][k] != 0 ==>
          && nmeta <= rows[i][k] < |bitmap| && bitmap[rows[i][k]]
          && rows[i][k] in owner && owner[rows[i][k]] == Place(i, k))
    && (forall b {:trigger HeldBy(rows, owner, b)} :: nmeta <= b < |bitmap| && bitmap[b] ==> HeldBy(rows, owner, b))
  }

  /** The slot that `owner` names for block b does hold it. */
  ghost predicate HeldBy(rows: seq<Row>, owner: map<nat, Place>, b: nat) {
    b in owner && owner[b].row < |rows| && owner[b].slot < SLOTS && rows[owner[b].row][owner[b].slot] == b
  }

  /** A bit is set exactly for metadata and for blocks held by exactly one slot. */
  ghost predicate OwnedOnce(rows: seq<Row>, bitmap: seq<bool>, nmeta: nat) {
    exists owner :: OwnedBy(rows, owner, bitmap, nmeta)
  }

  /** The same, said without the owner: held blocks are marked data blocks, marked data blocks are held,
      and two slots that hold the same block are the same slot. */
  lemma OwnedOnceMeans(rows: seq<Row>, bitmap: seq<bool>, nmeta: nat)
    requires OwnedOnce(rows, bitmap, nmeta)
    ensures forall b :: 0 <= b < |bitmap| ==>
              (bitmap[b] <==> b < nmeta || exists i, k :: 0 <= i < |rows| && 0 <= k < SLOTS && rows[i][k] == b)
    ensures forall i, k, j, l :: 0 <= i < |rows| && 0 <= j < |rows| && 0 <= k < SLOTS && 0 <= l < SLOTS ==>
              rows[i][k] == rows[j][l] != 0 ==> i == j && k == l
  {
    var owner: map<nat, Place> :| OwnedBy(rows, owner, bitmap, nmeta);
    forall b | nmeta <= b < |bitmap| && bitmap[b]
      ensures exists i, k :: 0 <= i < |rows| && 0 <= k < SLOTS && rows[i][k] == b
    {
      assert HeldBy(rows, owner, b);
    }
  }

  lemma SameSlot(rows: seq<Row>, bitmap: seq<bool>, nmeta: nat, i: nat, k: nat, j: nat, l: nat)
    requires OwnedOnce(rows, bitmap, nmeta) && i < |rows| && j < |rows| && k < SLOTS && l < SLOTS
    requires rows[i][k] == rows[j][l] != 0
    ensures i == j && k == l
  {
  }

  function Put(rows: seq<Row>, i: nat, k: nat, b: nat): seq<Row>
    requires i < |rows| && k < SLOTS
  {
    rows[i := rows[i][k := b]]
  }

  /** Allocating a free block to an empty slot keeps ownership exact. */
  lemma AllocKeeps(rows: seq<Row>, bitmap: seq<bool>, nmeta: nat, i: nat, k: nat, b: nat)
    requires OwnedOnce(rows, bitmap, nmeta) && i < |rows| && k < SLOTS && rows[i][k] == 0
    requires b < |bitmap| && !bitmap[b]
    ensures OwnedOnce(Put(rows, i, k, b), bitmap[b := true], nmeta)
  {
    var owner: map<nat, Place> :| OwnedBy(rows, owner, bitmap, nmeta);
    var r, o, m := Put(rows, i, k, b), owner[b := Place(i, k)], bitmap[b := true];
    forall c | nmeta <= c < |m| && m[c] ensures HeldBy(r, o, c) {
      if c != b { assert HeldBy(rows, owner, c); }
    }
    assert OwnedBy(r, o, m, nmeta);
  }

  /** A block that a slot holds has its bit set, so freeing it never meets "freeing free block"; emptying
      the slot as well keeps ownership exact. */
  lemma FreeKeeps(rows: seq<Row>, bitmap: seq<bool>, nmeta: nat, i: nat, k: nat)
    requires OwnedOnce(rows, bitmap, nmeta) && i < |rows| && k < SLOTS && rows[i][k] != 0
    ensures nmeta <= rows[i][k] < |bitmap| && bitmap[rows[i][k]]
    ensures OwnedOnce(Put(rows, i, k, 0), bitmap[rows[i][k] := false], nmeta)
  {
    var owner: map<nat, Place> :| OwnedBy(rows, owner, bitmap, nmeta);
    var r, m := Put(rows, i, k, 0), bitmap[rows[i][k] := false];
    forall c | nmeta <= c < |m| && m[c] ensures HeldBy(r, owner, c) {
      assert HeldBy(rows, owner, c);
    }
    assert OwnedBy(r, owner, m, nmeta);
  }
}
