/** sysfile.c's link, unlink and create, over the directory routines of fs.c. A path is the sequence of its
    elements; it starts at the root or at a working directory. */
module Sysfile {
  import opened Links

  const MAX_ENTRIES := 4480          // MAXFILE * BSIZE / sizeof(struct dirent)

  datatype Result = Done(inum: nat) | Failed | Panic

  /** The first entry in use with this name, or |e|. */
  predicate FirstNamed(e: seq<Dirent>, name: string, k: nat) {
    && k <= |e| && (k < |e| ==> e[k].inum != 0 && e[k].name == name)
    && forall j :: 0 <= j < k ==> !(e[j].inum != 0 && e[j].name == name)
  }

  predicate FirstVacant(e: seq<Dirent>, k: nat) { Vacant(e, k) && forall j :: 0 <= j < k ==> e[j].inum != 0 }

  /** No entry that a directory can have is vacant. */
  predicate Full(e: seq<Dirent>) { |e| >= MAX_ENTRIES && forall j :: 0 <= j < MAX_ENTRIES ==> e[j].inum != 0 }

  /** Following one element from directory d leads to inode c. */
  predicate LeadsTo(inodes: seq<Inode>, d: nat, name: string, c: nat) {
    d < |inodes| && inodes[d].typ.Dir? &&
        exists k :: 0 <= k < |inodes[d].ents| && FirstNamed(inodes[d].ents, name, k) && inodes[d].ents[k].inum == c
  }

  /** The path leads from inode s to inode c, through directories. */
  predicate Walks(inodes: seq<Inode>, s: nat, path: seq<string>, c: nat)
    decreases |path|
  {
    if path == [] then c == s
    else exists m {:trigger Walks(inodes, s, path[..|path| - 1], m)} ::
        0 <= m < |inodes| && Walks(inodes, s, path[..|path| - 1], m) && LeadsTo(inodes, m, path[|path| - 1], c)
  }

  /** From a linked directory one gets only to linked directories, and to other inodes. */
  lemma StepIsLinked(a: seq<Inode>, tree: seq<Node>, d: nat, name: string, c: nat)
    requires TreeOk(a, tree) && d < |a| && Linked(a[d]) && LeadsTo(a, d, name, c)
    ensures 1 <= c < |a| && (a[c].typ.Dir? ==> Linked(a[c]))
  {
    assert DirOk(a, d) && Placed(a, tree, d);
    var k :| 0 <= k < |a[d].ents| && FirstNamed(a[d].ents, name, k) && a[d].ents[k].inum == c;
    if k >= 2 { assert NamesChild(a, tree, d, k); }
  }

  lemma {:induction false} WalkIsLinked(a: seq<Inode>, tree: seq<Node>, s: nat, path: seq<string>, c: nat)
    requires TreeOk(a, tree) && s < |a| && Linked(a[s]) && Walks(a, s, path, c)
    ensures 1 <= c < |a| && (a[c].typ.Dir? ==> Linked(a[c]))
    decreases |path|
  {
    if path == [] {
      assert DirOk(a, s);
    } else {
      var m :| 0 <= m < |a| && Walks(a, s, path[..|path| - 1], m) && LeadsTo(a, m, path[|path| - 1], c);
      WalkIsLinked(a, tree, s, path[..|path| - 1], m);
      StepIsLinked(a, tree, m, path[|path| - 1], c);
    }
  }

  /** What a path leads to is in use, and has a link. */
  lemma WalkIsInUse(a: seq<Inode>, tree: seq<Node>, s: nat, path: seq<string>, c: nat)
    requires Ok(a, tree) && s < |a| && Linked(a[s]) && Walks(a, s, path, c)
    ensures 1 <= c < |a| && !a[c].typ.Free? && a[c].nlink >= 1
  {
    WalkIsLinked(a, tree, s, path, c);
    if !a[c].typ.Dir? && path != [] {
      var m :| 0 <= m < |a| && Walks(a, s, path[..|path| - 1], m) && LeadsTo(a, m, path[|path| - 1], c);
      WalkIsLinked(a, tree, s, path[..|path| - 1], m);
      assert DirOk(a, m) && Placed(a, tree, m);
      var k :| 0 <= k < |a[m].ents| && FirstNamed(a[m].ents, path[|path| - 1], k) && a[m].ents[k].inum == c;
      assert LinkAt(a, m, k, c);
      NamedHasLink(a, m, k, c);
    }
  }

  class FileTree {
    var inodes: seq<Inode>
    ghost var tree: seq<Node>

    ghost predicate Valid()
      reads this
    {
      Ok(inodes, tree)
    }

    /** dirlookup: the position of the entry, or the number of entries. */
    method Dirlookup(d: nat, name: string) returns (k: nat)
      requires d < |inodes|
      ensures FirstNamed(inodes[d].ents, name, k)
    {
      k := 0;
      while k < |inodes[d].ents|
        invariant k <= |inodes[d].ents| &&
                  forall j :: 0 <= j < k ==> !(inodes[d].ents[j].inum != 0 && inodes[d].ents[j].name == name)
      {
        if inodes[d].ents[k].inum != 0 && inodes[d].ents[k].name == name {
          return;
        }
        k := k + 1;
      }
    }

    /** dirlink: it fails if the name is taken, and else uses the first empty entry. A full directory is a
        panic. */
    method Dirlink(d: nat, name: string, inum: nat) returns (r: Result, ghost k: nat)
      requires d < |inodes| && inum != 0
      modifies `inodes
      ensures r.Failed? <==> !NameFree(old(inodes)[d].ents, name)
      ensures r.Panic? <==> NameFree(old(inodes)[d].ents, name) && Full(old(inodes)[d].ents)
      ensures !r.Done? ==> inodes == old(inodes)
      ensures r.Done? ==>
                && r.inum == inum && FirstVacant(old(inodes)[d].ents, k) && k < MAX_ENTRIES
                && inodes == old(inodes)[d := old(inodes)[d].(ents := PutAt(old(inodes)[d].ents, k,
                   Dirent(name, inum)))]
    {
      k := 0;
      var found := Dirlookup(d, name);
      if found < |inodes[d].ents| {
        return Failed, k;
      }
      var e := inodes[d].ents;
      var off := 0;
      while off < |e|
        invariant off <= |e| && forall j :: 0 <= j < off ==> e[j].inum != 0
      {
        if e[off].inum == 0 {
          break;
        }
        off := off + 1;
      }
      if off >= MAX_ENTRIES {
        return Panic, k;
      }
      inodes := inodes[d := inodes[d].(ents := PutAt(e, off, Dirent(name, inum)))];
      return Done(inum), off;
    }

    method Isdirempty(d: nat) returns (r: bool)
      requires d < |inodes|
      ensures r <==> Empty(inodes[d].ents)
    {
      var k := 2;
      while k < |inodes[d].ents|
        invariant k >= 2 && forall m :: 2 <= m < k && m < |inodes[d].ents| ==> inodes[d].ents[m].inum == 0
      {
        if inodes[d].ents[k].inum != 0 {
          return false;
        }
        k := k + 1;
      }
      return true;
    }

    /** ialloc: a free inode, or 0. */
    method Ialloc() returns (i: nat)
      requires |inodes| >= 1
      ensures i < |inodes| && (i != 0 ==> inodes[i].typ.Free?)
      ensures i == 0 ==> forall j :: 1 <= j < |inodes| ==> !inodes[j].typ.Free?
    {
      i := 1;
      while i < |inodes|
        invariant 1 <= i <= |inodes| && forall j :: 1 <= j < i ==> !inodes[j].typ.Free?
      {
        if inodes[i].typ.Free? {
          return;
        }
        i := i + 1;
      }
      i := 0;
    }

    /** The end of iput: an inode with neither links nor other references is freed. */
    method Iput(i: nat)
      requires Valid() && 1 <= i < |inodes|
      modifies `inodes
      ensures Valid()
      ensures inodes == if old(inodes)[i].nlink == 0 &&
              old(inodes)[i].refs == 0 then old(inodes)[i := Inode(Free, 0, [], 0)] else old(inodes)
    {
      if inodes[i].nlink == 0 && inodes[i].refs == 0 {
        FreeInode(inodes, tree, i);
        inodes := inodes[i := Inode(Free, 0, [], 0)];
      }
    }

    /** namex: where the path leads, or 0. With `parent` it stops one element early. */
    method Namex(s: nat, path: seq<string>, parent: bool) returns (c: nat)
      requires TreeOk(inodes, tree) && s < |inodes| && Linked(inodes[s])
      ensures c < |inodes| && (c != 0 && inodes[c].typ.Dir? ==> Linked(inodes[c]))
      ensures c == 0 ==> !Resolves(inodes, s, path, parent)
      ensures c != 0 ==> if parent then ParentIs(inodes, s, path, c) else Walks(inodes, s, path, c)
    {
      c := s;
      for n := 0 to |path|
        invariant c < |inodes| && Walks(inodes, s, path[..n], c) && (parent && path != [] ==> n < |path|)
      {
        WalkIsLinked(inodes, tree, s, path[..n], c);
        if !inodes[c].typ.Dir? {
          Stuck(inodes, s, path, n, c, parent);
          return 0;
        }
        if parent && n + 1 == |path| {
          return c;
        }
        var k := Dirlookup(c, path[n]);
        if k == |inodes[c].ents| {
          Stuck(inodes, s, path, n, c, parent);
          return 0;
        }
        assert path[..n + 1][..n] == path[..n] && LeadsTo(inodes, c, path[n], inodes[c].ents[k].inum);
        StepIsLinked(inodes, tree, c, path[n], inodes[c].ents[k].inum);
        c := inodes[c].ents[k].inum;
      }
      assert path[..|path|] == path;
      WalkIsLinked(inodes, tree, s, path, c);
      if parent {
        return 0;
      }
    }

    /** create: an existing file, or a new inode of the given type under a name that was free in its parent.
        It fails exactly if the path has no parent or the name is taken, unless by a file where one is asked
        for. It panics exactly if there is no free inode or no room in the directory; never on "create dots". */
    method Create(s: nat, path: seq<string>, typ: Type) returns (r: Result)
      requires Valid() && s < |inodes| && Linked(inodes[s]) && !typ.Free?
      modifies this
      ensures !r.Panic? ==> Valid()
      ensures r.Failed? ==> inodes == old(inodes)
      ensures r.Done? ==>
              inodes == old(inodes) || exists d, k :: Created(old(inodes), inodes, s, path, typ, r.inum, d, k)
      ensures r.Done? && inodes == old(inodes) ==>
              typ.File? && r.inum < |inodes| && inodes[r.inum].typ.File? && Walks(inodes, s, path, r.inum)
      ensures r.Failed? <==> CreateFails(old(inodes), s, path, typ)
      ensures r.Panic? <==> CreatePanics(old(inodes), s, path)
    {
      var dp := Namex(s, path, true);
      if dp == 0 {
        return Failed;
      }
      ParentIsOne(inodes, s, path, dp);
      var name := path[|path| - 1];
      var found := Dirlookup(dp, name);
      if found < |inodes[dp].ents| {
        var ip := inodes[dp].ents[found].inum;
        assert LeadsTo(inodes, dp, name, ip);
        StepIsLinked(inodes, tree, dp, name, ip);
        FoundIsNotFree(inodes[dp].ents, name, found);
        NamesFileIff(inodes, dp, name, found);
        if typ.File? && inodes[ip].typ.File? {
          return Done(ip);
        }
        return Failed;
      }
      var ip := Ialloc();
      if ip == 0 {
        return Panic;
      }
      r := NewInode(dp, name, ip, typ, s, path);
    }

    /** create once the inode is allocated. */
    method NewInode(dp: nat, name: string, ip: nat, typ: Type, ghost s: nat, ghost path: seq<string>)
        returns (r: Result)
      requires Valid() && dp < |inodes| && Linked(inodes[dp]) && NameFree(inodes[dp].ents, name) && !typ.Free?
      requires 1 <= ip < |inodes| && inodes[ip].typ.Free?
      requires ParentIs(inodes, s, path, dp) && name == path[|path| - 1]
      modifies this
      ensures !r.Failed? && (r.Panic? <==> Full(old(inodes)[dp].ents))
      ensures r.Done? ==>
              Valid() && inodes != old(inodes) &&
              exists d, k :: Created(old(inodes), inodes, s, path, typ, r.inum, d, k)
    {
      ghost var a := inodes;
      FreeIsNot(a, tree, dp, ip);
      inodes := inodes[ip := Inode(typ, 1, [], inodes[ip].refs)];
      if typ.Dir? {
        inodes := inodes[dp := inodes[dp].(nlink := inodes[dp].nlink + 1)];
        DirDots(ip, dp);
      }
      ghost var k;
      r, k := Dirlink(dp, name, ip);
      if !r.Done? {
        return;
      }
      if typ.Dir? {
        MakeDir(a, tree, dp, k, name, ip);
        assert inodes == DirMade(a, dp, k, name, ip);
        tree := tree[ip := Node(dp, k, tree[dp].depth + 1)];
      } else {
        MakeFile(a, tree, dp, k, name, ip, typ);
        assert inodes == FileMade(a, dp, k, name, ip, typ);
      }
      assert inodes[ip] != a[ip];
      assert Created(a, inodes, s, path, typ, ip, dp, k);
    }

    /** The entries "." and ".." of a new directory: both calls of dirlink succeed. */
    method DirDots(ip: nat, dp: nat)
      requires ip < |inodes| && ip != 0 && dp != 0 && inodes[ip].ents == []
      modifies `inodes
      ensures inodes == old(inodes)[ip := old(inodes)[ip].(ents := [Dirent(".", ip), Dirent("..", dp)])]
    {
      var r1, _ := Dirlink(ip, ".", ip);
      var r2, _ := Dirlink(ip, "..", dp);
      assert r1.Done? && r2.Done?;
      assert inodes[ip].ents == [Dirent(".", ip), Dirent("..", dp)];
    }

    /** sys_link: one more name for a file. A failure after nlink was raised lowers it again. It fails exactly if
        the old path leads to no inode or to a directory, or the new one has no parent or is taken; it panics
        exactly if else the directory is full. */
    method Link(s: nat, old_: seq<string>, new_: seq<string>) returns (r: Result)
      requires Valid() && s < |inodes| && Linked(inodes[s])
      modifies this
      ensures !r.Panic? ==> Valid()
      ensures r.Failed? ==> inodes == old(inodes)
      ensures r.Done? ==> exists d, k :: NewLink(old(inodes), inodes, s, old_, new_, r.inum, d, k)
      ensures r.Failed? <==> !LinkStarts(old(inodes), s, old_) || !NameFreeAt(old(inodes), s, new_)
      ensures r.Panic? <==>
              LinkStarts(old(inodes), s, old_) && NameFreeAt(old(inodes), s, new_) && FullAt(old(inodes), s, new_)
    {
      var ip := Namex(s, old_, false);
      if ip == 0 {
        return Failed;
      }
      LinkStartsIff(inodes, s, old_, ip);
      if inodes[ip].typ.Dir? {
        return Failed;
      }
      ghost var a := inodes;
      WalkIsInUse(a, tree, s, old_, ip);
      inodes := inodes[ip := inodes[ip].(nlink := inodes[ip].nlink + 1)];
      RaisedTree(a, tree, ip);
      var dp := Namex(s, new_, true);
      if dp == 0 {
        RaisedResolves(a, inodes, s, new_);
        LinkFails(ip, a);
        return Failed;
      }
      RaisedWalks(inodes, a, s, new_[..|new_| - 1], dp);
      ParentIsOne(a, s, new_, dp);
      r := AddName(dp, new_[|new_| - 1], ip, a);
      if r.Done? {
        ghost var k :| FirstVacant(a[dp].ents, k) && inodes == LinkMade(a, dp, k, new_[|new_| - 1], ip);
        assert NewLink(a, inodes, s, old_, new_, ip, dp, k);
      }
    }

    /** sys_link from dirlink on; `a` is the state before nlink was raised. */
    method AddName(dp: nat, name: string, ip: nat, ghost a: seq<Inode>) returns (r: Result)
      requires Ok(a, tree) && 1 <= ip < |a| && (a[ip].typ.File? || a[ip].typ.Dev?) && a[ip].nlink >= 1
      requires inodes == a[ip := a[ip].(nlink := a[ip].nlink + 1)] && dp < |a| && Linked(a[dp])
      modifies `inodes
      ensures r.Failed? <==> !NameFree(a[dp].ents, name)
      ensures r.Panic? <==> NameFree(a[dp].ents, name) && Full(a[dp].ents)
      ensures r.Failed? ==> inodes == a && Valid()
      ensures r.Done? ==>
              r.inum == ip && ip != dp && Valid() &&
              exists k :: FirstVacant(a[dp].ents, k) && inodes == LinkMade(a, dp, k, name, ip)
    {
      ghost var k;
      r, k := Dirlink(dp, name, ip);
      if r.Failed? {
        LinkFails(ip, a);
      } else if r.Done? {
        MakeLink(a, tree, dp, k, name, ip);
        assert inodes == LinkMade(a, dp, k, name, ip);
      }
    }

    /** The label "bad" of sys_link. */
    method LinkFails(ip: nat, ghost a: seq<Inode>)
      requires Ok(a, tree) && 1 <= ip < |a| && a[ip].nlink >= 1 && inodes == a[ip := a[ip].(nlink := a[ip].nlink + 1)]
      modifies `inodes
      ensures inodes == a && Valid()
    {
      inodes := inodes[ip := inodes[ip].(nlink := inodes[ip].nlink - 1)];
      assert inodes == a;
      Iput(ip);
    }

    /** sys_unlink: a name goes away, and with it a link. It succeeds exactly if the path has a parent, the name
        is neither "." nor "..", and it is that of a file or of an empty directory. */
    method Unlink(s: nat, path: seq<string>) returns (r: Result)
      requires Valid() && s < |inodes| && Linked(inodes[s])
      modifies this
      ensures Valid() && !r.Panic?
      ensures r.Failed? ==> inodes == old(inodes)
      ensures r.Done? ==> exists d, k :: Removed(old(inodes), inodes, s, path, r.inum, d, k)
      ensures r.Done? <==> UnlinkWorks(old(inodes), s, path)
    {
      var dp := Namex(s, path, true);
      if dp == 0 {
        return Failed;
      }
      ParentIsOne(inodes, s, path, dp);
      var name := path[|path| - 1];
      if name == "." || name == ".." {
        Iput(dp);
        return Failed;
      }
      var k := Dirlookup(dp, name);
      if k == |inodes[dp].ents| {
        Iput(dp);
        return Failed;
      }
      var ip := inodes[dp].ents[k].inum;
      ghost var a := inodes;
      EntryIsProper(a, tree, dp, name, k, ip);
      RemovableIff(a, dp, name, k);
      if inodes[ip].nlink < 1 {
        return Panic;
      }
      if inodes[ip].typ.Dir? {
        var empty := Isdirempty(ip);
        if !empty {
          Iput(ip);
          Iput(dp);
          return Failed;
        }
      }
      ClearName(dp, k, ip);
      assert Removed(a, inodes, s, path, ip, dp, k);
      return Done(ip);
    }

    /** sys_unlink once it is decided: the entry is cleared and the counts are lowered. */
    method ClearName(dp: nat, k: nat, ip: nat)
      requires Valid() && dp < |inodes| && Linked(inodes[dp]) && 2 <= k < |inodes[dp].ents| &&
               inodes[dp].ents[k].inum == ip
      requires 1 <= ip < |inodes| && (inodes[ip].typ.Dir? ==> Empty(inodes[ip].ents))
      modifies `inodes
      ensures Valid() && ip != dp && inodes == AfterClear(old(inodes), dp, k, ip)
    {
      ghost var a := inodes;
      if inodes[ip].typ.Dir? {
        UnlinkDir(a, tree, dp, k, ip);
        inodes := inodes[dp := inodes[dp].(ents := inodes[dp].ents[k := Dirent("", 0)])];
        inodes := inodes[dp := inodes[dp].(nlink := inodes[dp].nlink - 1)];
        inodes := inodes[ip := inodes[ip].(nlink := inodes[ip].nlink - 1)];
        assert inodes == DirUnlinked(a, dp, k, ip);
      } else {
        UnlinkFile(a, tree, dp, k, ip);
        inodes := inodes[dp := inodes[dp].(ents := inodes[dp].ents[k := Dirent("", 0)])];
        inodes := inodes[ip := inodes[ip].(nlink := inodes[ip].nlink - 1)];
        assert inodes == FileUnlinked(a, dp, k, ip);
      }
      // iput(dp) changes nothing: dp is still linked
      Iput(ip);
    }
  }

  // When the calls work.

  /** The path leads to an entry of directory d. */
  ghost predicate ParentIs(a: seq<Inode>, s: nat, path: seq<string>, d: nat) {
    path != [] && d < |a| && a[d].typ.Dir? && Walks(a, s, path[..|path| - 1], d)
  }

  /** The only directory of which this can be said. */
  lemma ParentIsOne(a: seq<Inode>, s: nat, path: seq<string>, d: nat)
    requires ParentIs(a, s, path, d)
    ensures forall e: nat :: ParentIs(a, s, path, e) ==> e == d
  {
    forall e: nat | ParentIs(a, s, path, e) ensures e == d { WalkIsUnique(a, s, path[..|path| - 1], d, e); }
  }

  /** The path has a parent directory, in which its last element is not taken. */
  ghost predicate NameFreeAt(a: seq<Inode>, s: nat, path: seq<string>) {
    exists d: nat :: ParentIs(a, s, path, d) && NameFree(a[d].ents, path[|path| - 1])
  }

  ghost predicate FullAt(a: seq<Inode>, s: nat, path: seq<string>) {
    exists d: nat :: ParentIs(a, s, path, d) && Full(a[d].ents)
  }

  /** The path has a parent directory, in which its last element names a file. */
  ghost predicate FileAt(a: seq<Inode>, s: nat, path: seq<string>) {
    exists d: nat :: ParentIs(a, s, path, d) && NamesFile(a, d, path[|path| - 1])
  }

  predicate NamesFile(a: seq<Inode>, d: nat, name: string)
    requires d < |a|
  {
    exists k :: 0 <= k < |a[d].ents| && FirstNamed(a[d].ents, name, k) && a[d].ents[k].inum < |a| &&
        a[a[d].ents[k].inum].typ.File?
  }

  lemma NamesFileIff(a: seq<Inode>, d: nat, name: string, k: nat)
    requires d < |a| && k < |a[d].ents| && FirstNamed(a[d].ents, name, k) && a[d].ents[k].inum < |a|
    ensures NamesFile(a, d, name) <==> a[a[d].ents[k].inum].typ.File?
  {
  }

  lemma FoundIsNotFree(e: seq<Dirent>, name: string, k: nat)
    requires k < |e| && FirstNamed(e, name, k)
    ensures !NameFree(e, name)
  {
  }

  ghost predicate CreateFails(a: seq<Inode>, s: nat, path: seq<string>, typ: Type) {
    !NameFreeAt(a, s, path) && !(typ.File? && FileAt(a, s, path))
  }

  /** "create: ialloc" and "create: dirlink". */
  ghost predicate CreatePanics(a: seq<Inode>, s: nat, path: seq<string>) {
    NameFreeAt(a, s, path) && (FullAt(a, s, path) || forall j :: 1 <= j < |a| ==> !a[j].typ.Free?)
  }

  /** The path leads to an inode that is no directory. */
  ghost predicate LinkStarts(a: seq<Inode>, s: nat, path: seq<string>) {
    exists c :: 0 <= c < |a| && Walks(a, s, path, c) && !a[c].typ.Dir?
  }

  lemma LinkStartsIff(a: seq<Inode>, s: nat, path: seq<string>, c: nat)
    requires c < |a| && Walks(a, s, path, c)
    ensures LinkStarts(a, s, path) <==> !a[c].typ.Dir?
  {
    if e :| 0 <= e < |a| && Walks(a, s, path, e) && !a[e].typ.Dir? { WalkIsUnique(a, s, path, c, e); }
  }

  ghost predicate UnlinkWorks(a: seq<Inode>, s: nat, path: seq<string>) {
    exists d: nat :: ParentIs(a, s, path, d) && path[|path| - 1] !in {".", ".."} && Removable(a, d, path[|path| - 1])
  }

  /** The name is that of a file or of an empty directory. */
  predicate Removable(a: seq<Inode>, d: nat, name: string)
    requires d < |a|
  {
    exists k :: 0 <= k < |a[d].ents| && FirstNamed(a[d].ents, name, k) && a[d].ents[k].inum < |a|
                && (a[a[d].ents[k].inum].typ.Dir? ==> Empty(a[a[d].ents[k].inum].ents))
  }

  lemma RemovableIff(a: seq<Inode>, d: nat, name: string, k: nat)
    requires d < |a| && k < |a[d].ents| && FirstNamed(a[d].ents, name, k) && a[d].ents[k].inum < |a|
    ensures Removable(a, d, name) <==> (a[a[d].ents[k].inum].typ.Dir? ==> Empty(a[a[d].ents[k].inum].ents))
  {
  }

  /** Without the entry k of directory d, which named i; an inode without links or references is freed. */
  function AfterClear(a: seq<Inode>, d: nat, k: nat, i: nat): seq<Inode>
    requires d < |a| && i < |a| && i != d && k < |a[d].ents|
  {
    var c := if a[i].typ.Dir? then DirUnlinked(a, d, k, i) else FileUnlinked(a, d, k, i);
    if c[i].nlink == 0 && c[i].refs == 0 then c[i := Inode(Free, 0, [], 0)] else c
  }

  /** b is a with the new inode i, named by entry k of directory d, which the path leads to. */
  ghost predicate Created(a: seq<Inode>, b: seq<Inode>, s: nat, path: seq<string>, typ: Type, i: nat, d: nat, k: nat) {
    && path != [] && d < |a| && 1 <= i < |a| && i != d && a[i].typ.Free? && a[d].typ.Dir? &&
       Walks(a, s, path[..|path| - 1], d)
    && NameFree(a[d].ents, path[|path| - 1]) && FirstVacant(a[d].ents, k)
    && b == if typ.Dir? then DirMade(a, d, k, path[|path| - 1], i) else FileMade(a, d, k, path[|path| - 1], i, typ)
  }

  ghost predicate NewLink(a: seq<Inode>, b: seq<Inode>, s: nat, old_: seq<string>, new_: seq<string>, i: nat, d: nat,
          k: nat) {
    && new_ != [] && d < |a| && i < |a| && i != d && !a[i].typ.Dir? && Walks(a, s, old_, i) &&
       Walks(a, s, new_[..|new_| - 1], d)
    && NameFree(a[d].ents, new_[|new_| - 1]) && FirstVacant(a[d].ents, k) && b == LinkMade(a, d, k, new_[|new_| - 1], i)
  }

  /** b is a after the entry k of directory d, which the path leads to and which named i, is cleared. */
  ghost predicate Removed(a: seq<Inode>, b: seq<Inode>, s: nat, path: seq<string>, i: nat, d: nat, k: nat) {
    && path != [] && d < |a| && 1 <= i < |a| && i != d && Walks(a, s, path[..|path| - 1], d) && 2 <= k < |a[d].ents|
    && FirstNamed(a[d].ents, path[|path| - 1], k) && a[d].ents[k].inum == i && b == AfterClear(a, d, k, i)
  }

  /** Raising the link count of a file changes neither the tree nor where paths lead. */
  lemma RaisedTree(a: seq<Inode>, tree: seq<Node>, i: nat)
    requires TreeOk(a, tree) && 1 <= i < |a| && !a[i].typ.Dir?
    ensures TreeOk(a[i := a[i].(nlink := a[i].nlink + 1)], tree)
  {
    var b := a[i := a[i].(nlink := a[i].nlink + 1)];
    forall c | 0 <= c < |b| && Linked(b[c])
      ensures DirOk(b, c) && Placed(b, tree, c)
    {
      assert DirOk(a, c) && Placed(a, tree, c);
    }
    forall e, m | 0 <= e < |b| && Linked(b[e]) && 2 <= m < |b[e].ents|
      ensures NamesChild(b, tree, e, m)
    {
      assert NamesChild(a, tree, e, m);
    }
  }

  /** Inodes that differ in their counts only. */
  predicate SameNames(a: seq<Inode>, b: seq<Inode>) {
    |a| == |b| && forall i :: 0 <= i < |a| ==> a[i].typ == b[i].typ && a[i].ents == b[i].ents
  }

  lemma {:induction false} RaisedWalks(a: seq<Inode>, b: seq<Inode>, s: nat, path: seq<string>, c: nat)
    requires SameNames(a, b) && Walks(a, s, path, c)
    ensures Walks(b, s, path, c)
    decreases |path|
  {
    if path != [] {
      var m :| 0 <= m < |a| && Walks(a, s, path[..|path| - 1], m) && LeadsTo(a, m, path[|path| - 1], c);
      RaisedWalks(a, b, s, path[..|path| - 1], m);
      assert LeadsTo(b, m, path[|path| - 1], c);
    }
  }

  lemma RaisedResolves(a: seq<Inode>, b: seq<Inode>, s: nat, path: seq<string>)
    requires SameNames(a, b) && !Resolves(b, s, path, true)
    ensures !Resolves(a, s, path, true)
  {
    if path != [] {
      if d: nat :| ParentIs(a, s, path, d) {
        RaisedWalks(a, b, s, path[..|path| - 1], d);
        assert ParentIs(b, s, path, d);
        assert false;
      }
    }
  }

  lemma FreeIsNot(a: seq<Inode>, tree: seq<Node>, d: nat, i: nat)
    requires Ok(a, tree) && d < |a| && Linked(a[d]) && i < |a| && a[i].typ.Free?
    ensures i != d && d != 0
  {
    assert DirOk(a, d);
  }

  lemma EntryIsProper(a: seq<Inode>, tree: seq<Node>, d: nat, name: string, k: nat, i: nat)
    requires Ok(a, tree) && d < |a| && Linked(a[d]) && k < |a[d].ents| && FirstNamed(a[d].ents, name, k) &&
             name != "." && name != ".." && i == a[d].ents[k].inum
    ensures k >= 2 && 1 <= i < |a| && a[i].nlink >= 1 && !a[i].typ.Free?
  {
    assert DirOk(a, d);
    assert a[d].ents[0].name == "." && a[d].ents[1].name == "..";
    assert LinkAt(a, d, k, i);
    NamedHasLink(a, d, k, i);
  }

  ghost predicate Resolves(inodes: seq<Inode>, s: nat, path: seq<string>, parent: bool) {
    if parent then exists c: nat :: ParentIs(inodes, s, path, c)
    else exists c :: 0 <= c < |inodes| && Walks(inodes, s, path, c)
  }

  /** A path leads to one inode at most. */
  lemma {:induction false} WalkIsUnique(a: seq<Inode>, s: nat, path: seq<string>, c: nat, c': nat)
    requires Walks(a, s, path, c) && Walks(a, s, path, c')
    ensures c == c'
    decreases |path|
  {
    if path != [] {
      var o := path[..|path| - 1];
      var m :| 0 <= m < |a| && Walks(a, s, o, m) && LeadsTo(a, m, path[|path| - 1], c);
      var m' :| 0 <= m' < |a| && Walks(a, s, o, m') && LeadsTo(a, m', path[|path| - 1], c');
      WalkIsUnique(a, s, o, m, m');
      LeadsToOne(a, m, path[|path| - 1], c, c');
    }
  }

  lemma LeadsToOne(a: seq<Inode>, d: nat, name: string, c: nat, c': nat)
    requires LeadsTo(a, d, name, c) && LeadsTo(a, d, name, c')
    ensures c == c'
  {
    var k :| 0 <= k < |a[d].ents| && FirstNamed(a[d].ents, name, k) && a[d].ents[k].inum == c;
    var k' :| 0 <= k' < |a[d].ents| && FirstNamed(a[d].ents, name, k') && a[d].ents[k'].inum == c';
  }

  /** A prefix of the path leads to c, and the next element leads nowhere from there. */
  lemma {:induction false} Stuck(a: seq<Inode>, s: nat, path: seq<string>, n: nat, c: nat, parent: bool)
    requires n < |path| && c < |a| && Walks(a, s, path[..n], c) && (parent && n + 1 == |path| ==> !a[c].typ.Dir?)
    requires !a[c].typ.Dir? || NameFree(a[c].ents, path[n])
    ensures !Resolves(a, s, path, parent)
  {
    var last := if parent then |path| - 1 else |path|;
    forall e: nat | e < |a| && Walks(a, s, path[..last], e) && (parent ==> a[e].typ.Dir?)
      ensures false
    {
      NoWay(a, s, path, n, c, last, e);
    }
    assert path[..|path|] == path;
  }

  lemma {:induction false} NoWay(a: seq<Inode>, s: nat, path: seq<string>, n: nat, c: nat, last: nat, e: nat)
    requires n <= last <= |path| && n < |path| && c < |a| && e < |a| && Walks(a, s, path[..n], c) &&
             Walks(a, s, path[..last], e) && (last == n ==> !a[c].typ.Dir? && a[e].typ.Dir?)
    requires !a[c].typ.Dir? || NameFree(a[c].ents, path[n])
    ensures false
    decreases last
  {
    if last == n {
      WalkIsUnique(a, s, path[..n], c, e);
    } else {
      var p := path[..last];
      assert p[..|p| - 1] == path[..last - 1];
      var m :| 0 <= m < |a| && Walks(a, s, p[..|p| - 1], m) && LeadsTo(a, m, p[|p| - 1], e);
      if last - 1 == n {
        WalkIsUnique(a, s, path[..n], c, m);
      } else {
        NoWay(a, s, path, n, c, last - 1, m);
      }
    }
  }

  // The linked directories are a tree under the root.

  /** Every linked directory can be reached from the root (and by WalkIsLinked no other can). */
  lemma {:induction false} ReachedFromRoot(a: seq<Inode>, tree: seq<Node>, d: nat) returns (path: seq<string>)
    requires TreeOk(a, tree) && d < |a| && Linked(a[d])
    ensures Walks(a, ROOT, path, d) && |path| == tree[d].depth
    decreases tree[d].depth
  {
    assert DirOk(a, d) && Placed(a, tree, d);
    if d == ROOT {
      path := [];
    } else {
      var p, k := tree[d].up, tree[d].slot;
      var up := ReachedFromRoot(a, tree, p);
      assert DirOk(a, p);
      var name := a[p].ents[k].name;
      assert FirstNamed(a[p].ents, name, k);
      path := up + [name];
      assert path[..|path| - 1] == up && LeadsTo(a, p, name, d);
    }
  }

  function Ups(n: nat): seq<string> { if n == 0 then [] else Ups(n - 1) + [".."] }

  /** n steps of ".." lead to a directory n levels up. */
  lemma {:induction false} UpTheTree(a: seq<Inode>, tree: seq<Node>, d: nat, n: nat) returns (c: nat)
    requires TreeOk(a, tree) && d < |a| && Linked(a[d]) && n <= tree[d].depth
    ensures c < |a| && Linked(a[c]) && Walks(a, d, Ups(n), c) && tree[c].depth == tree[d].depth - n
  {
    c := d;
    if n > 0 {
      var m := UpTheTree(a, tree, d, n - 1);
      assert DirOk(a, m) && Placed(a, tree, m);
      c := tree[m].up;
      assert FirstNamed(a[m].ents, "..", 1) && LeadsTo(a, m, "..", c);
      assert Ups(n)[..|Ups(n)| - 1] == Ups(n - 1);
    }
  }

  /** So as many steps as a directory is deep lead to the root: there are no cycles. */
  lemma UpToRoot(a: seq<Inode>, tree: seq<Node>, d: nat)
    requires TreeOk(a, tree) && d < |a| && Linked(a[d])
    ensures Walks(a, d, Ups(tree[d].depth), ROOT)
  {
    var c := UpTheTree(a, tree, d, tree[d].depth);
    assert DirOk(a, c) && Placed(a, tree, c);
  }
}
