/** Link counts and the directory tree: what a consistent set of inodes is, and how one change keeps it. */
module Links {

  const ROOT := 1

  datatype Type = Free | Dir | File | Dev

  /** A directory entry; inum 0 is an empty one. */
  datatype Dirent = Dirent(name: string, inum: nat)

  /** An inode as on disk, with a directory's entries, and the number of references to it that other processes
      hold in memory (open files, working directories). */
  datatype Inode = Inode(typ: Type, nlink: int, ents: seq<Dirent>, refs: nat)

  /** A directory that has not been removed. */
  predicate Linked(x: Inode) { x.typ.Dir? && x.nlink > 0 }

  /** Entry k of directory d counts as a link to inode i: not ".", and in a linked directory. */
  predicate LinkAt(inodes: seq<Inode>, d: nat, k: nat, i: nat) {
    && d < |inodes| && Linked(inodes[d]) && k < |inodes[d].ents|
    && inodes[d].ents[k].inum == i && inodes[d].ents[k].name != "."
  }

  ghost function LinksTo(inodes: seq<Inode>, i: nat): set<(nat, nat)> {
    set d: nat, k: nat | d < |inodes| && k < |inodes[d].ents| && LinkAt(inodes, d, k, i) :: (d, k)
  }

  /** The number of links in nlink is the number there are. */
  ghost predicate CountOk(inodes: seq<Inode>) {
    forall i {:trigger LinksTo(inodes, i)} ::
        1 <= i < |inodes| ==> |LinksTo(inodes, i)| == if inodes[i].typ.Free? then 0 else inodes[i].nlink
  }

  /** A linked directory begins with "." and "..", and its names are distinct. */
  predicate EntsOk(e: seq<Dirent>, d: nat, n: nat) {
    && |e| >= 2 && e[0] == Dirent(".", d) && d != 0 && e[1].name == ".." && e[1].inum != 0
    && (forall k :: 0 <= k < |e| ==> e[k].inum < n)
    && (forall k :: 2 <= k < |e| && e[k].inum != 0 ==> e[k].name != "." && e[k].name != "..")
    && (forall j, k :: 0 <= j < k < |e| && e[j].inum != 0 && e[k].inum != 0 ==> e[j].name != e[k].name)
  }

  predicate DirOk(inodes: seq<Inode>, d: nat)
    requires d < |inodes|
  {
    EntsOk(inodes[d].ents, d, |inodes|)
  }

  ghost predicate DirsOk(inodes: seq<Inode>) {
    forall d :: 0 <= d < |inodes| && Linked(inodes[d]) ==> DirOk(inodes, d)
  }

  /** Where the entry of a directory is: in directory `up`, at position `slot`; and how deep. */
  datatype Node = Node(up: nat, slot: nat, depth: nat)

  /** Directory c is named once, by its parent, which is what its ".." names. */
  predicate Placed(inodes: seq<Inode>, tree: seq<Node>, c: nat)
    requires |tree| == |inodes| && c < |inodes| && Linked(inodes[c]) && DirOk(inodes, c)
  {
    if c == ROOT then inodes[c].ents[1].inum == ROOT && tree[c].depth == 0
    else
      && var p := tree[c].up;
         && p < |inodes| && Linked(inodes[p]) && 2 <= tree[c].slot < |inodes[p].ents| &&
            inodes[p].ents[tree[c].slot].inum == c
         && inodes[c].ents[1].inum == p && tree[c].depth == tree[p].depth + 1
  }

  /** An entry other than "." and ".." that names a directory is the directory's own. */
  predicate NamesChild(inodes: seq<Inode>, tree: seq<Node>, d: nat, k: nat)
    requires |tree| == |inodes| && d < |inodes| && k < |inodes[d].ents|
  {
    var c := inodes[d].ents[k].inum;
    c < |inodes| &&
        (inodes[c].typ.Dir? && c != 0 ==> c != ROOT && tree[c].up == d && tree[c].slot == k && inodes[c].nlink > 0)
  }

  ghost predicate TreeOk(inodes: seq<Inode>, tree: seq<Node>) {
    && |tree| == |inodes| && ROOT < |inodes| && Linked(inodes[ROOT]) && DirsOk(inodes)
    && (forall c {:trigger Placed(inodes, tree, c)} ::
       0 <= c < |inodes| && Linked(inodes[c]) ==> Placed(inodes, tree, c))
    && (forall d, k {:trigger NamesChild(inodes, tree, d, k)} ::
       0 <= d < |inodes| && Linked(inodes[d]) && 2 <= k < |inodes[d].ents| ==> NamesChild(inodes, tree, d, k))
  }

  ghost predicate Ok(inodes: seq<Inode>, tree: seq<Node>) {
    CountOk(inodes) && TreeOk(inodes, tree) && inodes[0].typ.Free?
  }

  // One directory slot or one inode changes.

  lemma LinksIs(inodes: seq<Inode>, i: nat, d: nat, k: nat)
    ensures (d, k) in LinksTo(inodes, i) <==> LinkAt(inodes, d, k, i)
  {
  }

  /** Two sets of inodes in which the links to i differ by the slot (d, k) at most. */
  lemma LinksDiffer(a: seq<Inode>, b: seq<Inode>, i: nat, d: nat, k: nat)
    requires forall e: nat, m: nat :: (e, m) != (d, k) ==> LinkAt(b, e, m, i) == LinkAt(a, e, m, i)
    ensures |LinksTo(b, i)| ==
            |LinksTo(a, i)| + (if LinkAt(b, d, k, i) then 1 else 0) - (if LinkAt(a, d, k, i) then 1 else 0)
  {
    var x := {(d, k)};
    var common := LinksTo(a, i) - x;
    forall e: nat, m: nat ensures (e, m) in common <==> (e, m) != (d, k) && LinkAt(a, e, m, i) { LinksIs(a, i, e, m); }
    forall e: nat, m: nat ensures (e, m) in LinksTo(b, i) - x <==> (e, m) in common {
      LinksIs(b, i, e, m);
    }
    assert LinksTo(b, i) - x == common;
    LinksIs(a, i, d, k);
    LinksIs(b, i, d, k);
    Whole(LinksTo(a, i), (d, k));
    Whole(LinksTo(b, i), (d, k));
  }

  lemma Whole(s: set<(nat, nat)>, x: (nat, nat))
    ensures |s| == |s - {x}| + if x in s then 1 else 0
  {
    if x in s { assert s == (s - {x}) + {x}; } else { assert s == s - {x}; }
  }

  function PutAt(e: seq<Dirent>, k: nat, x: Dirent): seq<Dirent>
    requires k <= |e|
  {
    if k < |e| then e[k := x] else e + [x]
  }

  /** Position k is free for a new entry. */
  predicate Vacant(e: seq<Dirent>, k: nat) { k <= |e| && (k < |e| ==> e[k].inum == 0) }

  predicate NameFree(e: seq<Dirent>, name: string) { forall k :: 0 <= k < |e| && e[k].inum != 0 ==> e[k].name != name }

  /** A new entry in linked directory d is one more link. */
  lemma EntryAdded(a: seq<Inode>, b: seq<Inode>, d: nat, k: nat, x: Dirent, i: nat)
    requires d < |a| && Linked(a[d]) && Vacant(a[d].ents, k) && x.name != "." && i > 0
    requires |b| == |a| && b[d].ents == PutAt(a[d].ents, k, x) && Linked(b[d])
    requires forall e :: 0 <= e < |a| && e != d ==>
             (Linked(b[e]) <==> Linked(a[e])) && (Linked(a[e]) ==> b[e].ents == a[e].ents)
    ensures |LinksTo(b, i)| == |LinksTo(a, i)| + if x.inum == i then 1 else 0
  {
    LinksDiffer(a, b, i, d, k);
  }

  lemma EntryCleared(a: seq<Inode>, b: seq<Inode>, d: nat, k: nat, i: nat)
    requires d < |a| && Linked(a[d]) && k < |a[d].ents| && a[d].ents[k].name != "." && i > 0
    requires |b| == |a| && b[d].ents == a[d].ents[k := Dirent("", 0)] && Linked(b[d])
    requires forall e :: 0 <= e < |a| && e != d ==>
             (Linked(b[e]) <==> Linked(a[e])) && (Linked(a[e]) ==> b[e].ents == a[e].ents)
    ensures |LinksTo(b, i)| == |LinksTo(a, i)| - if a[d].ents[k].inum == i then 1 else 0
  {
    LinksDiffer(a, b, i, d, k);
  }

  /** From a to b, linked directory d gets the entry x at k, which names an inode that is no directory, or else
      the new directory that b has there. */
  ghost predicate Adds(a: seq<Inode>, b: seq<Inode>, tree: seq<Node>, tree': seq<Node>, d: nat, k: nat, x: Dirent) {
    && TreeOk(a, tree) && d < |a| == |b| && |tree'| == |tree| && 0 < x.inum < |a| && x.inum != d
    && Linked(a[d]) && Linked(b[d]) && k >= 2 && Vacant(a[d].ents, k) && NameFree(a[d].ents, x.name) &&
       b[d].ents == PutAt(a[d].ents, k, x)
    && (forall e :: 0 <= e < |a| && e != d && e != x.inum ==> b[e] == a[e] && tree'[e] == tree[e]) &&
       tree'[d] == tree[d]
    && !a[x.inum].typ.Dir?
    && (if b[x.inum].typ.Dir? then
          && Linked(b[x.inum]) && b[x.inum].ents == [Dirent(".", x.inum), Dirent("..", d)] &&
             tree'[x.inum] == Node(d, k, tree[d].depth + 1)
          && x.inum != ROOT && (forall e: nat, m: nat :: !LinkAt(a, e, m, x.inum))
        else tree' == tree)
  }

  lemma AddsDir(a: seq<Inode>, b: seq<Inode>, tree: seq<Node>, tree': seq<Node>, d: nat, k: nat, x: Dirent, c: nat)
    requires Adds(a, b, tree, tree', d, k, x) && c < |b| && Linked(b[c])
    ensures DirOk(b, c)
  {
    assert DirOk(a, d);
    if c == d {
      EntsPut(a[d].ents, d, |a|, k, x);
    } else if c != x.inum {
      assert DirOk(a, c);
    }
  }

  lemma EntsPut(e: seq<Dirent>, d: nat, n: nat, k: nat, x: Dirent)
    requires EntsOk(e, d, n) && k >= 2 && Vacant(e, k) && NameFree(e, x.name) && x.inum < n
    ensures EntsOk(PutAt(e, k, x), d, n)
  {
    assert e[0].name == "." && e[1].name == "..";
    var f := PutAt(e, k, x);
    assert forall j :: 0 <= j < |f| && j != k ==> f[j] == e[j];
  }

  lemma EntsClear(e: seq<Dirent>, d: nat, n: nat, k: nat)
    requires EntsOk(e, d, n) && 2 <= k < |e|
    ensures EntsOk(e[k := Dirent("", 0)], d, n)
  {
    var f := e[k := Dirent("", 0)];
    assert forall j :: 0 <= j < |f| && j != k ==> f[j] == e[j];
  }

  lemma AddsPlaced(a: seq<Inode>, b: seq<Inode>, tree: seq<Node>, tree': seq<Node>, d: nat, k: nat, x: Dirent, c: nat)
    requires Adds(a, b, tree, tree', d, k, x) && c < |b| && Linked(b[c]) && DirOk(b, c)
    ensures Placed(b, tree', c)
  {
    if c != x.inum {
      assert Placed(a, tree, c) && DirOk(a, c);
      assert tree[c].up == d && c != ROOT ==> tree[c].slot != k;
      assert c != ROOT ==> tree[c].up != x.inum;
    }
  }

  lemma AddsNames(a: seq<Inode>, b: seq<Inode>, tree: seq<Node>, tree': seq<Node>, d: nat, k: nat, x: Dirent, e: nat,
          m: nat)
    requires Adds(a, b, tree, tree', d, k, x) && e < |b| && Linked(b[e]) && 2 <= m < |b[e].ents|
    ensures NamesChild(b, tree', e, m)
  {
    if !(e == d && m == k) {
      assert NamesChild(a, tree, e, m) && DirOk(a, e);
      var c := a[e].ents[m].inum;
      if c == x.inum && b[c].typ.Dir? { assert LinkAt(a, e, m, c); }
    }
  }

  lemma AddsTree(a: seq<Inode>, b: seq<Inode>, tree: seq<Node>, tree': seq<Node>, d: nat, k: nat, x: Dirent)
    requires Adds(a, b, tree, tree', d, k, x)
    ensures TreeOk(b, tree')
  {
    forall c | 0 <= c < |b| && Linked(b[c]) ensures DirOk(b, c) && Placed(b, tree', c) {
      AddsDir(a, b, tree, tree', d, k, x, c);
      AddsPlaced(a, b, tree, tree', d, k, x, c);
    }
    forall e, m | 0 <= e < |b| && Linked(b[e]) && 2 <= m < |b[e].ents| ensures NamesChild(b, tree', e, m) {
      AddsNames(a, b, tree, tree', d, k, x, e, m);
    }
  }

  /** No linked directory names an inode that is free. */
  lemma FreeIsUnnamed(a: seq<Inode>, i: nat)
    requires CountOk(a) && 1 <= i < |a| && a[i].typ.Free?
    ensures forall e: nat, m: nat :: !LinkAt(a, e, m, i)
  {
    forall e: nat, m: nat ensures !LinkAt(a, e, m, i) {
      LinksIs(a, i, e, m);
      assert LinksTo(a, i) == {};
    }
  }

  /** A vacant slot comes after "." and "..", and "." is not a free name. */
  lemma SlotIsNew(a: seq<Inode>, tree: seq<Node>, d: nat, k: nat, name: string)
    requires TreeOk(a, tree) && d < |a| && Linked(a[d]) && Vacant(a[d].ents, k) && NameFree(a[d].ents, name)
    ensures k >= 2 && name != "." && d != 0
  {
    assert DirOk(a, d);
    assert a[d].ents[0].name == ".";
  }

  // create

  function FileMade(a: seq<Inode>, d: nat, k: nat, name: string, i: nat, typ: Type): seq<Inode>
    requires d < |a| && i < |a| && i != d && k <= |a[d].ents|
  {
    a[i := Inode(typ, 1, [], a[i].refs)][d := a[d].(ents := PutAt(a[d].ents, k, Dirent(name, i)))]
  }

  lemma FileAdds(a: seq<Inode>, b: seq<Inode>, tree: seq<Node>, d: nat, k: nat, name: string, i: nat)
    requires TreeOk(a, tree) && d < |a| && Linked(a[d]) && Vacant(a[d].ents, k) && NameFree(a[d].ents, name)
    requires 1 <= i < |a| && !a[i].typ.Dir? && |b| == |a| && !b[i].typ.Dir?
    requires b[d] == a[d].(ents := PutAt(a[d].ents, k, Dirent(name, i))) &&
             forall e :: 0 <= e < |a| && e != d && e != i ==> b[e] == a[e]
    ensures Adds(a, b, tree, tree, d, k, Dirent(name, i))
  {
    SlotIsNew(a, tree, d, k, name);
  }

  lemma MakeFile(a: seq<Inode>, tree: seq<Node>, d: nat, k: nat, name: string, i: nat, typ: Type)
    requires Ok(a, tree) && d < |a| && Linked(a[d]) && Vacant(a[d].ents, k) && NameFree(a[d].ents, name)
    requires 1 <= i < |a| && a[i].typ.Free? && (typ.File? || typ.Dev?)
    ensures i != d && Ok(FileMade(a, d, k, name, i, typ), tree)
  {
    var b := FileMade(a, d, k, name, i, typ);
    FileAdds(a, b, tree, d, k, name, i);
    AddsTree(a, b, tree, tree, d, k, Dirent(name, i));
    SlotIsNew(a, tree, d, k, name);
    FileCounts(a, b, d, k, name, i);
  }

  /** The new entry is one more link to i and to nothing else. */
  lemma FileCounts(a: seq<Inode>, b: seq<Inode>, d: nat, k: nat, name: string, i: nat)
    requires CountOk(a) && d < |a| == |b| && Linked(a[d]) && Vacant(a[d].ents, k) && name != "." && 1 <= i < |a| &&
             i != d
    requires b[d] == a[d].(ents := PutAt(a[d].ents, k, Dirent(name, i))) &&
             forall e :: 0 <= e < |a| && e != d && e != i ==> b[e] == a[e]
    requires !a[i].typ.Dir? && !b[i].typ.Dir? && !b[i].typ.Free? &&
             b[i].nlink == (if a[i].typ.Free? then 1 else a[i].nlink + 1)
    ensures CountOk(b)
  {
    forall j | 1 <= j < |b| ensures |LinksTo(b, j)| == if b[j].typ.Free? then 0 else b[j].nlink {
      EntryAdded(a, b, d, k, Dirent(name, i), j);
    }
  }

  function DirMade(a: seq<Inode>, d: nat, k: nat, name: string, i: nat): seq<Inode>
    requires d < |a| && i < |a| && i != d && k <= |a[d].ents|
  {
    a[i := Inode(Dir, 1, [Dirent(".", i), Dirent("..", d)], a[i].refs)]
     [d := a[d].(nlink := a[d].nlink + 1, ents := PutAt(a[d].ents, k, Dirent(name, i)))]
  }

  lemma DirAdds(a: seq<Inode>, tree: seq<Node>, d: nat, k: nat, name: string, i: nat)
    requires TreeOk(a, tree) && d < |a| && Linked(a[d]) && Vacant(a[d].ents, k) && NameFree(a[d].ents, name)
    requires 1 <= i < |a| && a[i].typ.Free? && forall e: nat, m: nat :: !LinkAt(a, e, m, i)
    ensures i != d && Adds(a, DirMade(a, d, k, name, i), tree, tree[i := Node(d, k, tree[d].depth + 1)], d, k,
            Dirent(name, i))
  {
    SlotIsNew(a, tree, d, k, name);
  }

  lemma MakeDir(a: seq<Inode>, tree: seq<Node>, d: nat, k: nat, name: string, i: nat)
    requires Ok(a, tree) && d < |a| && Linked(a[d]) && Vacant(a[d].ents, k) && NameFree(a[d].ents, name) &&
             1 <= i < |a| && a[i].typ.Free?
    ensures i != d && Ok(DirMade(a, d, k, name, i), tree[i := Node(d, k, tree[d].depth + 1)])
  {
    FreeIsUnnamed(a, i);
    DirAdds(a, tree, d, k, name, i);
    AddsTree(a, DirMade(a, d, k, name, i), tree, tree[i := Node(d, k, tree[d].depth + 1)], d, k, Dirent(name, i));
    SlotIsNew(a, tree, d, k, name);
    DirCountsOk(a, d, k, name, i);
  }

  lemma DirCountsOk(a: seq<Inode>, d: nat, k: nat, name: string, i: nat)
    requires CountOk(a) && 1 <= d < |a| && Linked(a[d]) && Vacant(a[d].ents, k) && name != "." && 1 <= i < |a| &&
             a[i].typ.Free?
    ensures i != d && CountOk(DirMade(a, d, k, name, i))
  {
    var b := DirMade(a, d, k, name, i);
    forall j | 1 <= j < |b| ensures |LinksTo(b, j)| == if b[j].typ.Free? then 0 else b[j].nlink {
      DirCounts(a, b, d, k, Dirent(name, i), j);
    }
  }

  /** A new directory is one link to itself, in its parent, and with its ".." one link to its parent. */
  lemma DirCounts(a: seq<Inode>, b: seq<Inode>, d: nat, k: nat, x: Dirent, j: nat)
    requires d < |a| && x.inum < |a| && x.inum != d && Linked(a[d]) && Vacant(a[d].ents, k) && x.name != "." &&
             !Linked(a[x.inum])
    requires b == DirMade(a, d, k, x.name, x.inum) && 1 <= j < |a|
    ensures |LinksTo(b, j)| == |LinksTo(a, j)| + (if j == x.inum then 1 else 0) + (if j == d then 1 else 0)
  {
    if j == d {
      LinksDiffer(a, b, j, x.inum, 1);
    } else {
      LinksDiffer(a, b, j, d, k);
    }
  }

  // sys_link

  function LinkMade(a: seq<Inode>, d: nat, k: nat, name: string, i: nat): seq<Inode>
    requires d < |a| && i < |a| && i != d && k <= |a[d].ents|
  {
    a[i := a[i].(nlink := a[i].nlink + 1)][d := a[d].(ents := PutAt(a[d].ents, k, Dirent(name, i)))]
  }

  lemma MakeLink(a: seq<Inode>, tree: seq<Node>, d: nat, k: nat, name: string, i: nat)
    requires Ok(a, tree) && d < |a| && Linked(a[d]) && Vacant(a[d].ents, k) && NameFree(a[d].ents, name)
    requires 1 <= i < |a| && (a[i].typ.File? || a[i].typ.Dev?)
    ensures i != d && Ok(LinkMade(a, d, k, name, i), tree)
  {
    var b := LinkMade(a, d, k, name, i);
    FileAdds(a, b, tree, d, k, name, i);
    AddsTree(a, b, tree, tree, d, k, Dirent(name, i));
    SlotIsNew(a, tree, d, k, name);
    FileCounts(a, b, d, k, name, i);
  }

  // sys_unlink

  predicate Empty(e: seq<Dirent>) { forall m :: 2 <= m < |e| ==> e[m].inum == 0 }

  /** From a to b, entry k of linked directory d is cleared; it named i, which is no directory, or an empty
      directory that b has unlinked. */
  ghost predicate Clears(a: seq<Inode>, b: seq<Inode>, tree: seq<Node>, d: nat, k: nat, i: nat) {
    && TreeOk(a, tree) && d < |a| == |b| && Linked(a[d]) && Linked(b[d]) && 2 <= k < |a[d].ents|
    && a[d].ents[k].inum == i && 0 < i < |a| && i != d && b[d].ents == a[d].ents[k := Dirent("", 0)]
    && (forall e :: 0 <= e < |a| && e != d && e != i ==> b[e] == a[e]) && b[i].typ == a[i].typ && b[i].ents == a[i].ents
    && (a[i].typ.Dir? ==> Empty(a[i].ents) && !Linked(b[i]))
  }

  lemma ClearsPlaced(a: seq<Inode>, b: seq<Inode>, tree: seq<Node>, d: nat, k: nat, i: nat, c: nat)
    requires Clears(a, b, tree, d, k, i) && c < |b| && Linked(b[c])
    ensures DirOk(b, c) && Placed(b, tree, c)
  {
    assert DirOk(a, c) && DirOk(a, d) && Placed(a, tree, c);
    EntsClear(a[d].ents, d, |a|, k);
    if c != ROOT {
      assert !(tree[c].up == d && tree[c].slot == k);
      assert tree[c].up != i;
    }
  }

  lemma ClearsNames(a: seq<Inode>, b: seq<Inode>, tree: seq<Node>, d: nat, k: nat, i: nat, e: nat, m: nat)
    requires Clears(a, b, tree, d, k, i) && e < |b| && Linked(b[e]) && 2 <= m < |b[e].ents|
    ensures NamesChild(b, tree, e, m)
  {
    assert NamesChild(a, tree, e, m) && NamesChild(a, tree, d, k);
  }

  lemma ClearsTree(a: seq<Inode>, b: seq<Inode>, tree: seq<Node>, d: nat, k: nat, i: nat)
    requires Clears(a, b, tree, d, k, i)
    ensures TreeOk(b, tree)
  {
    assert NamesChild(a, tree, d, k);
    forall c | 0 <= c < |b| && Linked(b[c])
      ensures DirOk(b, c) && Placed(b, tree, c)
    {
      ClearsPlaced(a, b, tree, d, k, i, c);
    }
    forall e, m | 0 <= e < |b| && Linked(b[e]) && 2 <= m < |b[e].ents|
      ensures NamesChild(b, tree, e, m)
    {
      ClearsNames(a, b, tree, d, k, i, e, m);
    }
  }

  function FileUnlinked(a: seq<Inode>, d: nat, k: nat, i: nat): seq<Inode>
    requires d < |a| && i < |a| && i != d && k < |a[d].ents|
  {
    a[d := a[d].(ents := a[d].ents[k := Dirent("", 0)])][i := a[i].(nlink := a[i].nlink - 1)]
  }

  lemma UnlinkFile(a: seq<Inode>, tree: seq<Node>, d: nat, k: nat, i: nat)
    requires Ok(a, tree) && d < |a| && Linked(a[d]) && 2 <= k < |a[d].ents| && a[d].ents[k].inum == i && 0 < i < |a| &&
             !a[i].typ.Dir?
    ensures Ok(FileUnlinked(a, d, k, i), tree) && a[i].nlink >= 1 && !a[i].typ.Free?
  {
    var b := FileUnlinked(a, d, k, i);
    assert DirOk(a, d);
    ClearsTree(a, b, tree, d, k, i);
    NamedHasLink(a, d, k, i);
    forall j | 1 <= j < |b|
      ensures |LinksTo(b, j)| == if b[j].typ.Free? then 0 else b[j].nlink
    {
      EntryCleared(a, b, d, k, j);
    }
  }

  /** An inode that a linked directory names has a link, so "unlink: nlink < 1" cannot happen. */
  lemma NamedHasLink(a: seq<Inode>, d: nat, k: nat, i: nat)
    requires CountOk(a) && 1 <= i < |a| && LinkAt(a, d, k, i)
    ensures !a[i].typ.Free? && a[i].nlink >= 1
  {
    LinksIs(a, i, d, k);
  }

  function DirUnlinked(a: seq<Inode>, d: nat, k: nat, i: nat): seq<Inode>
    requires d < |a| && i < |a| && i != d && k < |a[d].ents|
  {
    a[d := a[d].(nlink := a[d].nlink - 1, ents := a[d].ents[k := Dirent("", 0)])][i := a[i].(nlink := a[i].nlink - 1)]
  }

  /** The only link to an empty directory is the entry in its parent. */
  lemma OnlyLink(a: seq<Inode>, tree: seq<Node>, d: nat, k: nat, i: nat)
    requires Ok(a, tree) && d < |a| && Linked(a[d]) && 2 <= k < |a[d].ents| && a[d].ents[k].inum == i && 0 < i < |a| &&
             a[i].typ.Dir? && Empty(a[i].ents)
    ensures i != ROOT && Linked(a[i]) && a[i].nlink == 1 && DirOk(a, i) && a[i].ents[1].inum == d && i != d
  {
    assert NamesChild(a, tree, d, k) && DirOk(a, d) && DirOk(a, i) && Placed(a, tree, i);
    forall e: nat, m: nat ensures (e, m) in LinksTo(a, i) <==> (e, m) == (d, k) {
      LinksIs(a, i, e, m);
      if LinkAt(a, e, m, i) { LinkIsParent(a, tree, d, k, i, e, m); }
    }
    assert LinksTo(a, i) == {(d, k)};
  }

  lemma LinkIsParent(a: seq<Inode>, tree: seq<Node>, d: nat, k: nat, i: nat, e: nat, m: nat)
    requires TreeOk(a, tree) && d < |a| && Linked(a[d]) && 2 <= k < |a[d].ents| && a[d].ents[k].inum == i &&
             0 < i < |a| && a[i].typ.Dir? && Empty(a[i].ents)
    requires LinkAt(a, e, m, i)
    ensures (e, m) == (d, k)
  {
    assert NamesChild(a, tree, d, k) && DirOk(a, e) && Placed(a, tree, e);
    if m >= 2 { assert NamesChild(a, tree, e, m); }
  }

  /** The parent of a directory has a link besides its child's "..". */
  lemma ParentStaysLinked(a: seq<Inode>, tree: seq<Node>, d: nat, i: nat)
    requires Ok(a, tree) && 1 <= d < |a| && Linked(a[d]) && i < |a| && Linked(a[i]) && DirOk(a, i) &&
             a[i].ents[1].inum == d && i != d && i != ROOT
    ensures a[d].nlink >= 2
  {
    assert DirOk(a, d) && Placed(a, tree, d);
    var x := if d == ROOT then (ROOT, 1) else (tree[d].up, tree[d].slot);
    assert d != ROOT ==> DirOk(a, tree[d].up);
    LinksIs(a, d, x.0, x.1);
    LinksIs(a, d, i, 1);
    assert {x, (i, 1)} <= LinksTo(a, d) && x != (i, 1);
    TwoMembers(LinksTo(a, d), x, (i, 1));
  }

  lemma TwoMembers(s: set<(nat, nat)>, x: (nat, nat), y: (nat, nat))
    requires x in s && y in s && x != y
    ensures |s| >= 2
  {
    Whole(s, x);
    Whole(s - {x}, y);
  }

  lemma UnlinkDir(a: seq<Inode>, tree: seq<Node>, d: nat, k: nat, i: nat)
    requires Ok(a, tree) && d < |a| && Linked(a[d]) && 2 <= k < |a[d].ents| && a[d].ents[k].inum == i && 0 < i < |a| &&
             a[i].typ.Dir? && Empty(a[i].ents)
    ensures i != d && Ok(DirUnlinked(a, d, k, i), tree) && a[i].nlink == 1
  {
    OnlyLink(a, tree, d, k, i);
    assert DirOk(a, d);
    ParentStaysLinked(a, tree, d, i);
    ClearsTree(a, DirUnlinked(a, d, k, i), tree, d, k, i);
    UnlinkDirCounts(a, d, k, i);
  }

  lemma UnlinkDirCounts(a: seq<Inode>, d: nat, k: nat, i: nat)
    requires CountOk(a) && 1 <= d < |a| && Linked(a[d]) && DirOk(a, d) && a[d].nlink >= 2 && 2 <= k < |a[d].ents| &&
             a[d].ents[k].inum == i
    requires 1 <= i < |a| && i != d && Linked(a[i]) && DirOk(a, i) && Empty(a[i].ents) && a[i].ents[1].inum == d &&
             a[i].nlink == 1
    ensures CountOk(DirUnlinked(a, d, k, i))
  {
    var b := DirUnlinked(a, d, k, i);
    forall j | 1 <= j < |b| ensures |LinksTo(b, j)| == if b[j].typ.Free? then 0 else b[j].nlink {
      if j == d { LinksDiffer(a, b, j, i, 1); } else { LinksDiffer(a, b, j, d, k); }
    }
  }

  // iput

  /** An inode without links is freed. */
  lemma FreeInode(a: seq<Inode>, tree: seq<Node>, i: nat)
    requires Ok(a, tree) && 1 <= i < |a| && a[i].nlink == 0
    ensures Ok(a[i := Inode(Free, 0, [], a[i].refs)], tree)
  {
    var b := a[i := Inode(Free, 0, [], a[i].refs)];
    forall j | 1 <= j < |b|
      ensures |LinksTo(b, j)| == if b[j].typ.Free? then 0 else b[j].nlink
    {
      LinksDiffer(a, b, j, 0, 0);
    }
    forall c | 0 <= c < |b| && Linked(b[c])
      ensures DirOk(b, c) && Placed(b, tree, c)
    {
      assert DirOk(a, c) && Placed(a, tree, c);
    }
    forall e, m | 0 <= e < |b| && Linked(b[e]) && 2 <= m < |b[e].ents|
      ensures NamesChild(b, tree, e, m)
    {
      assert NamesChild(a, tree, e, m);
    }
  }
}
