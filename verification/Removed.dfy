/** create, link and mkdir in a directory that has been removed but is still some process's working directory.
    They do not look at the parent's link count, so they go through. Link counts and the tree are then right
    exactly if the parent is linked. */
module Removed {
  import opened Links

  /** A place in directory d, linked or not, for a new name of inode i. */
  ghost predicate Place(a: seq<Inode>, tree: seq<Node>, d: nat, k: nat, name: string, i: nat) {
    && Ok(a, tree) && d < |a| && a[d].typ.Dir? && Vacant(a[d].ents, k) && NameFree(a[d].ents, name)
    && 1 <= i < |a| && !a[i].typ.Dir?
  }

  /** Counts and tree are right, for some tree. */
  ghost predicate Sound(b: seq<Inode>) { exists t :: Ok(b, t) }

  /** An entry in a directory that is not linked counts for nothing. */
  lemma LinksStay(a: seq<Inode>, b: seq<Inode>, d: nat, i: nat)
    requires d < |a| == |b| && i < |a| && !Linked(a[d]) && !Linked(b[d]) && !Linked(a[i]) && !Linked(b[i])
    requires forall e :: 0 <= e < |a| && e != d && e != i ==> b[e] == a[e]
    ensures LinksTo(b, i) == LinksTo(a, i)
  {
    forall e: nat, m: nat ensures (e, m) in LinksTo(b, i) <==> (e, m) in LinksTo(a, i) {
      LinksIs(a, i, e, m);
      LinksIs(b, i, e, m);
    }
  }

  /** open with O_CREATE, or mknod. */
  lemma CreateSoundIff(a: seq<Inode>, tree: seq<Node>, d: nat, k: nat, name: string, i: nat, typ: Type)
    requires Place(a, tree, d, k, name, i) && a[i].typ.Free? && (typ.File? || typ.Dev?)
    ensures Sound(FileMade(a, d, k, name, i, typ)) <==> Linked(a[d])
  {
    var b := FileMade(a, d, k, name, i, typ);
    if Linked(a[d]) {
      MakeFile(a, tree, d, k, name, i, typ);
    } else {
      LinksStay(a, b, d, i);
      assert |LinksTo(a, i)| == 0 && b[i].nlink == 1;
    }
  }

  lemma LinkSoundIff(a: seq<Inode>, tree: seq<Node>, d: nat, k: nat, name: string, i: nat)
    requires Place(a, tree, d, k, name, i) && !a[i].typ.Free?
    ensures Sound(LinkMade(a, d, k, name, i)) <==> Linked(a[d])
  {
    var b := LinkMade(a, d, k, name, i);
    if Linked(a[d]) {
      MakeLink(a, tree, d, k, name, i);
    } else {
      LinksStay(a, b, d, i);
      assert |LinksTo(a, i)| == a[i].nlink && b[i].nlink == a[i].nlink + 1;
    }
  }

  /** The link that mkdir adds to the removed parent makes it look linked, but no directory names it. */
  lemma NotInTree(a: seq<Inode>, tree: seq<Node>, d: nat, k: nat, name: string, i: nat, t: seq<Node>)
    requires Place(a, tree, d, k, name, i) && a[i].typ.Free? && !Linked(a[d])
    ensures !TreeOk(DirMade(a, d, k, name, i), t)
  {
    var b := DirMade(a, d, k, name, i);
    assert |LinksTo(a, d)| == a[d].nlink;
    if TreeOk(b, t) {
      assert Linked(b[d]) && DirOk(b, d) && Placed(b, t, d);
      var p, m := t[d].up, t[d].slot;
      assert p != d && p != i;
      assert DirOk(a, p) && LinkAt(a, p, m, d);
      LinksIs(a, d, p, m);
    }
  }

  lemma MkdirSoundIff(a: seq<Inode>, tree: seq<Node>, d: nat, k: nat, name: string, i: nat)
    requires Place(a, tree, d, k, name, i) && a[i].typ.Free?
    ensures Sound(DirMade(a, d, k, name, i)) <==> Linked(a[d])
  {
    var b := DirMade(a, d, k, name, i);
    if Linked(a[d]) {
      MakeDir(a, tree, d, k, name, i);
    } else if Sound(b) {
      var t :| Ok(b, t);
      NotInTree(a, tree, d, k, name, i, t);
    }
  }

  // ---------- An input ----------

  function Dots(d: nat, up: nat): seq<Dirent> { [Dirent(".", d), Dirent("..", up)] }

  /** A root directory, and inode 2, a directory that has been removed and that one process still uses. */
  function Example(): seq<Inode> {
    [Inode(Free, 0, [], 0), Inode(Dir, 1, Dots(ROOT, ROOT), 0), Inode(Dir, 0, Dots(2, ROOT), 1), Inode(Free, 0, [], 0)]
  }

  function ExampleTree(): seq<Node> { [Node(0, 0, 0), Node(0, 0, 0), Node(0, 0, 0), Node(0, 0, 0)] }

  lemma ExampleCounts(i: nat)
    requires 1 <= i < 4
    ensures |LinksTo(Example(), i)| == if i == ROOT then 1 else 0
  {
    var a := Example();
    forall e: nat, m: nat ensures (e, m) in LinksTo(a, i) <==> i == ROOT && (e, m) == (ROOT, 1) { LinksIs(a, i, e, m); }
    assert LinksTo(a, i) == if i == ROOT then {(ROOT, 1)} else {};
  }

  lemma ExampleTreeOk()
    ensures TreeOk(Example(), ExampleTree())
  {
    assert Placed(Example(), ExampleTree(), ROOT);
  }

  lemma ExampleOk()
    ensures Ok(Example(), ExampleTree())
  {
    var a := Example();
    forall i | 1 <= i < |a| ensures |LinksTo(a, i)| == if a[i].typ.Free? then 0 else a[i].nlink { ExampleCounts(i); }
    ExampleTreeOk();
  }

  /** A file created there has a link count of one and no entry that counts. */
  lemma RemovedParentBreaks(name: string)
    requires name != "." && name != ".."
    ensures Place(Example(), ExampleTree(), 2, 2, name, 3)
    ensures !Sound(FileMade(Example(), 2, 2, name, 3, File))
  {
    ExampleOk();
    CreateSoundIff(Example(), ExampleTree(), 2, 2, name, 3, File);
  }
}
