/**
 The elementary moves every operation is made of, each with its effect on the file system
 its users see. All of them keep Core; reclamation is added on top of them.
 */
module FsSteps {
  import opened Bytes
  import opened Directory
  import opened FsTypes
  import opened FsTables
  import A = AbstractFs

  // ---- Abstraction ----

  ghost function Content(t: Tables, n: int): seq<byte>
    requires Core(t) && LiveNode(t, n)
  {
    if t.inodes[n].size == 0 then [] else
      assert Owner(t, n);
      t.data[t.inodes[n].block][..t.inodes[n].size]
  }

  ghost function NodeOf(t: Tables, n: int): A.Node
    requires Core(t) && LiveNode(t, n)
  {
    if t.inodes[n].kind == SymbolicLink then
      assert Owner(t, n);
      A.Link(Str(t.data[t.inodes[n].block]))
    else A.File(Content(t, n))
  }

  ghost function NodesOf(t: Tables): map<int, A.Node>
    requires Core(t)
  {
    map n: int | 0 < n < |t.inodeTaken| && LiveNode(t, n) :: NodeOf(t, n)
  }

  ghost function HandlesOf(t: Tables): map<int, A.Handle>
    requires Shape(t)
  {
    map h: int | 0 <= h < |t.fileTaken| && t.fileTaken[h] :: A.Handle(t.files[h].inum, t.files[h].offset)
  }

  ghost function TakenBlocks(t: Tables): set<int> {
    set b: int | 0 <= b < |t.blockTaken| && t.blockTaken[b]
  }

  ghost function OwnedBlocks(t: Tables): set<int>
    requires Shape(t)
  {
    set n: int | 0 <= n < |t.inodeTaken| && Owner(t, n) :: t.inodes[n].block
  }

  /** Blocks marked TAKEN that nothing owns any more. */
  ghost function LostBlocks(t: Tables): set<int>
    requires Shape(t)
  {
    TakenBlocks(t) - OwnedBlocks(t)
  }

  /** The file system the tables stand for. */
  ghost function Abs(t: Tables): A.Fs
    requires Core(t)
  {
    A.Fs(t.p, Names(Dir(t)), NodesOf(t), HandlesOf(t), |LostBlocks(t)|)
  }

  // ---- Frames ----

  /** A live node whose inode and owned block stay as they were stands for the same node. */
  lemma SameNode(t: Tables, u: Tables, n: int)
    requires Core(t) && Core(u) && LiveNode(t, n) && LiveNode(u, n)
    requires t.inodes[n].(links := 0) == u.inodes[n].(links := 0)
    requires Owns(t.inodes[n]) ==> 0 <= t.inodes[n].block < |t.data| && t.inodes[n].block < |u.data|
                                   && t.data[t.inodes[n].block] == u.data[t.inodes[n].block]
    ensures NodeOf(t, n) == NodeOf(u, n)
  {
  }

  lemma SameNodes(t: Tables, u: Tables)
    requires Core(t) && Core(u)
    requires t.inodeTaken == u.inodeTaken
    requires forall n :: LiveNode(t, n) ==> NodeOf(t, n) == NodeOf(u, n)
    ensures NodesOf(t) == NodesOf(u)
  {
  }

  lemma UpdatedNodes(t: Tables, u: Tables, n: int)
    requires Core(t) && Core(u) && LiveNode(u, n)
    requires forall m :: m != n ==> (LiveNode(t, m) <==> LiveNode(u, m))
    requires forall m :: m != n && LiveNode(t, m) ==> NodeOf(t, m) == NodeOf(u, m)
    ensures NodesOf(u) == NodesOf(t)[n := NodeOf(u, n)]
  {
  }

  // ---- A new regular file, not yet named ----

  function NewFile(t: Tables, n: int): Tables
    requires Shape(t) && 0 <= n < t.p.inodes
  {
    t.(inodes := t.inodes[n := Inode(RegularFile, 0, -1, 0)], inodeTaken := t.inodeTaken[n := true])
  }

  lemma NewFileOwners(t: Tables, n: int)
    requires Core(t) && 0 < n < t.p.inodes && !t.inodeTaken[n]
    ensures forall m :: Owner(NewFile(t, n), m) <==> Owner(t, m)
    ensures OwnedBlocks(NewFile(t, n)) == OwnedBlocks(t)
  {
  }

  lemma NewFileCore(t: Tables, n: int)
    requires Core(t) && 0 < n < t.p.inodes && !t.inodeTaken[n]
    ensures Core(NewFile(t, n))
  {
    var u := NewFile(t, n);
    NewFileOwners(t, n);
    NoEntries(t, n);
    assert Dir(u) == Dir(t);
    assert LinksOk(u) by {
      assert forall m :: LiveNode(u, m) && m != n ==> LiveNode(t, m) && u.inodes[m] == t.inodes[m];
    }
  }

  lemma NewFileStep(t: Tables, n: int)
    requires Core(t) && 0 < n < t.p.inodes && !t.inodeTaken[n]
    ensures Core(NewFile(t, n))
    ensures Abs(NewFile(t, n)) == Abs(t).(nodes := Abs(t).nodes[n := A.File([])])
  {
    var u := NewFile(t, n);
    NewFileCore(t, n);
    NewFileOwners(t, n);
    forall m | LiveNode(t, m)
      ensures NodeOf(t, m) == NodeOf(u, m)
    {
      assert Owner(t, m) == Owns(t.inodes[m]);
      SameNode(t, u, m);
    }
    UpdatedNodes(t, u, n);
  }

  lemma NoEntries(t: Tables, n: int)
    requires Core(t) && !LiveNode(t, n) && n != -1
    ensures EntriesOf(Dir(t), n) == {}
  {
  }

  // ---- A new symbolic link with its block, not yet named ----

  function NewLink(t: Tables, n: int, b: int, target: CString): Tables
    requires Shape(t) && 0 <= n < t.p.inodes && 0 <= b < t.p.blocks && |target| < t.p.blockSize
  {
    t.(inodes := t.inodes[n := Inode(SymbolicLink, 0, b, 0)], inodeTaken := t.inodeTaken[n := true],
       blockTaken := t.blockTaken[b := true], data := t.data[b := Splice(t.data[b], 0, target + [0])])
  }

  ghost predicate FreshLink(t: Tables, n: int, b: int, target: CString) {
    && Core(t) && 0 < n < t.p.inodes && !t.inodeTaken[n]
    && 0 <= b < t.p.blocks && !t.blockTaken[b]
    && |target| < t.p.blockSize && ValidPath(target)
  }

  lemma StoredTarget(d: seq<byte>, target: CString)
    requires |target| < |d|
    ensures Str(Splice(d, 0, target + [0])) == target && StrLen(Splice(d, 0, target + [0])) < |d|
  {
    assert Splice(d, 0, target + [0]) == target + [0] + d[|target| + 1..];
    StrTerminated(target, d[|target| + 1..]);
  }

  lemma NewLinkOwners(t: Tables, n: int, b: int, target: CString)
    requires FreshLink(t, n, b, target)
    ensures forall m :: Owner(NewLink(t, n, b, target), m) <==> Owner(t, m) || m == n
    ensures forall m :: Owner(t, m) ==> m != n && t.inodes[m].block != b
    ensures LostBlocks(NewLink(t, n, b, target)) == LostBlocks(t)
  {
    var u := NewLink(t, n, b, target);
    assert forall m :: Owner(t, m) ==> m != n && u.inodes[m] == t.inodes[m];
    assert Owner(u, n);
    assert OwnedBlocks(u) == OwnedBlocks(t) + {b} by {
      assert u.inodes[n].block == b;
    }
    assert TakenBlocks(u) == TakenBlocks(t) + {b};
    assert b !in TakenBlocks(t);
  }

  lemma NewLinkBlocks(t: Tables, n: int, b: int, target: CString)
    requires FreshLink(t, n, b, target)
    ensures Shape(NewLink(t, n, b, target))
    ensures BlocksOk(NewLink(t, n, b, target)) && ContentsOk(NewLink(t, n, b, target))
  {
    var u := NewLink(t, n, b, target);
    NewLinkOwners(t, n, b, target);
    StoredTarget(t.data[b], target);
    assert forall m :: Owner(t, m) ==> u.inodes[m] == t.inodes[m];
    assert forall m :: LiveNode(u, m) && m != n ==> LiveNode(t, m) && u.inodes[m] == t.inodes[m];
  }

  lemma NewLinkCore(t: Tables, n: int, b: int, target: CString)
    requires FreshLink(t, n, b, target)
    ensures Core(NewLink(t, n, b, target))
  {
    var u := NewLink(t, n, b, target);
    NewLinkBlocks(t, n, b, target);
    NoEntries(t, n);
    assert Dir(u) == Dir(t);
    assert LinksOk(u) by {
      assert forall m :: LiveNode(u, m) && m != n ==> LiveNode(t, m) && u.inodes[m] == t.inodes[m];
    }
  }

  lemma NewLinkStep(t: Tables, n: int, b: int, target: CString)
    requires FreshLink(t, n, b, target)
    ensures Core(NewLink(t, n, b, target))
    ensures Abs(NewLink(t, n, b, target)) == Abs(t).(nodes := Abs(t).nodes[n := A.Link(target)])
  {
    var u := NewLink(t, n, b, target);
    NewLinkCore(t, n, b, target);
    NewLinkOwners(t, n, b, target);
    StoredTarget(t.data[b], target);
    forall m | LiveNode(t, m)
      ensures NodeOf(t, m) == NodeOf(u, m)
    {
      assert Owner(t, m) == Owns(t.inodes[m]);
      SameNode(t, u, m);
    }
    UpdatedNodes(t, u, n);
  }

  // ---- Rewriting the directory and one link count ----

  lemma FillSlotEffect(dir: seq<byte>, i: nat, name: CString, n: int)
    requires i < EntryCapacity(|dir|) && |name| < MAX_FILE_NAME && -0x8000_0000 <= n < 0x8000_0000
    ensures |FillSlot(dir, i, name, n)| == |dir|
    ensures Slots(FillSlot(dir, i, name, n)) == Slots(dir)[i := Slot(name, n)]
  {
    SetInumEffect(dir, i, n);
    SetNameEffect(SetInum(dir, i, n), i, name);
  }

  function Redirect(t: Tables, dir: seq<byte>, n: int, links: nat): Tables
    requires Shape(t) && 0 < t.p.blocks && 0 <= n < t.p.inodes
  {
    t.(data := t.data[0 := dir], inodes := t.inodes[n := t.inodes[n].(links := links)])
  }

  ghost predicate Redirectable(t: Tables, dir: seq<byte>, n: int, links: nat) {
    && Core(t) && LiveNode(t, n) && |dir| == t.p.blockSize
    && WellFormed(Slots(dir))
    && SlotsLive(t, Slots(dir))
    && links == |EntriesOf(Slots(dir), n)|
    && forall m :: m != n && m != -1 ==> EntriesOf(Slots(dir), m) == EntriesOf(Dir(t), m)
  }

  lemma RedirectOwners(t: Tables, dir: seq<byte>, n: int, links: nat)
    requires Redirectable(t, dir, n, links)
    ensures forall m :: Owner(Redirect(t, dir, n, links), m) <==> Owner(t, m)
    ensures forall m :: LiveNode(t, m) && Owner(t, m) ==> t.inodes[m].block != 0
    ensures OwnedBlocks(Redirect(t, dir, n, links)) == OwnedBlocks(t)
  {
  }

  lemma RedirectBlocks(t: Tables, dir: seq<byte>, n: int, links: nat)
    requires Redirectable(t, dir, n, links)
    ensures Shape(Redirect(t, dir, n, links))
    ensures BlocksOk(Redirect(t, dir, n, links)) && ContentsOk(Redirect(t, dir, n, links))
  {
    var u := Redirect(t, dir, n, links);
    RedirectOwners(t, dir, n, links);
    assert forall m :: LiveNode(u, m) <==> LiveNode(t, m);
    assert forall m :: 0 <= m < t.p.inodes ==> u.inodes[m] == t.inodes[m].(links := u.inodes[m].links);
  }

  lemma RedirectCore(t: Tables, dir: seq<byte>, n: int, links: nat)
    requires Redirectable(t, dir, n, links)
    ensures Core(Redirect(t, dir, n, links))
  {
    var u := Redirect(t, dir, n, links);
    RedirectBlocks(t, dir, n, links);
    assert Dir(u) == Slots(dir);
    assert forall m :: LiveNode(u, m) <==> LiveNode(t, m);
    assert forall m :: 0 <= m < t.p.inodes ==> u.inodes[m].kind == t.inodes[m].kind;
    assert forall m :: 0 <= m < t.p.inodes && m != n ==> u.inodes[m].links == t.inodes[m].links;
  }

  /** Only the names change: no content, link target, handle or block does. */
  lemma RedirectStep(t: Tables, dir: seq<byte>, n: int, links: nat)
    requires Redirectable(t, dir, n, links)
    ensures Core(Redirect(t, dir, n, links))
    ensures Abs(Redirect(t, dir, n, links)) == Abs(t).(names := Names(Slots(dir)))
  {
    var u := Redirect(t, dir, n, links);
    RedirectCore(t, dir, n, links);
    RedirectOwners(t, dir, n, links);
    forall m | LiveNode(t, m)
      ensures NodeOf(t, m) == NodeOf(u, m)
    {
      assert Owner(t, m) == Owns(t.inodes[m]);
      SameNode(t, u, m);
    }
    SameNodes(t, u);
  }

  lemma SlotsStayLive(t: Tables, s: seq<Slot>, i: int, x: Slot)
    requires SlotsLive(t, s) && 0 <= i < |s| && (x.inum != -1 ==> LiveNode(t, x.inum))
    ensures SlotsLive(t, s[i := x])
  {
  }

  lemma BindReady(t: Tables, n: int, i: nat, name: CString)
    requires Core(t) && LiveNode(t, n) && i < |Dir(t)| && Dir(t)[i].inum == -1
    requires ValidName(name) && name !in Names(Dir(t))
    ensures Redirectable(t, FillSlot(t.data[0], i, name, n), n, t.inodes[n].links + 1)
    ensures Names(Slots(FillSlot(t.data[0], i, name, n))) == Names(Dir(t))[name := n]
  {
    var s := Dir(t);
    FillSlotEffect(t.data[0], i, name, n);
    AddBinding(s, i, name, n);
    AddEntry(s, i, name, n);
    AddCount(s, i, name, n);
    SlotsStayLive(t, s, i, Slot(name, n));
  }

  /** Binding a new name to a live node. */
  lemma BindStep(t: Tables, n: int, i: nat, name: CString)
    requires Core(t) && LiveNode(t, n) && i < |Dir(t)| && Dir(t)[i].inum == -1
    requires ValidName(name) && name !in Names(Dir(t))
    ensures Core(Redirect(t, FillSlot(t.data[0], i, name, n), n, t.inodes[n].links + 1))
    ensures Abs(Redirect(t, FillSlot(t.data[0], i, name, n), n, t.inodes[n].links + 1))
         == Abs(t).(names := Abs(t).names[name := n])
  {
    BindReady(t, n, i, name);
    RedirectStep(t, FillSlot(t.data[0], i, name, n), n, t.inodes[n].links + 1);
  }

  lemma UnbindReady(t: Tables, n: int, i: nat)
    requires Core(t) && i < |Dir(t)| && Dir(t)[i].inum == n && n != -1
    ensures LiveNode(t, n) && t.inodes[n].links > 0
    ensures Redirectable(t, FillSlot(t.data[0], i, [], -1), n, t.inodes[n].links - 1)
    ensures Names(Slots(FillSlot(t.data[0], i, [], -1))) == Names(Dir(t)) - {Dir(t)[i].name}
  {
    var s := Dir(t);
    FillSlotEffect(t.data[0], i, [], -1);
    RemoveBinding(s, i);
    RemoveEntry(s, i);
    RemoveCount(s, i);
    SlotsStayLive(t, s, i, Slot([], -1));
  }

  /** Removing one of a node's names. */
  lemma UnbindStep(t: Tables, n: int, i: nat)
    requires Core(t) && i < |Dir(t)| && Dir(t)[i].inum == n && n != -1
    ensures LiveNode(t, n) && t.inodes[n].links > 0
    ensures Core(Redirect(t, FillSlot(t.data[0], i, [], -1), n, t.inodes[n].links - 1))
    ensures Abs(Redirect(t, FillSlot(t.data[0], i, [], -1), n, t.inodes[n].links - 1))
         == Abs(t).(names := Abs(t).names - {Dir(t)[i].name})
  {
    UnbindReady(t, n, i);
    RedirectStep(t, FillSlot(t.data[0], i, [], -1), n, t.inodes[n].links - 1);
  }

  // ---- The open-file table ----

  /** Only the handles change. */
  lemma FilesStep(t: Tables, u: Tables)
    requires Core(t) && Shape(u) && HandlesOk(u)
    requires u == t.(files := u.files, fileTaken := u.fileTaken)
    ensures Core(u) && Abs(u) == Abs(t).(handles := HandlesOf(u))
  {
    assert forall n :: Owner(u, n) <==> Owner(t, n);
    assert OwnedBlocks(u) == OwnedBlocks(t);
    assert Core(u);
    forall m | LiveNode(t, m)
      ensures NodeOf(t, m) == NodeOf(u, m)
    {
      assert Owner(t, m) == Owns(t.inodes[m]);
      SameNode(t, u, m);
    }
    SameNodes(t, u);
  }

  // ---- Blocks of regular files ----

  lemma TruncateOwners(t: Tables, n: int)
    requires Core(t) && LiveNode(t, n) && t.inodes[n].kind == RegularFile && t.inodes[n].size > 0
    ensures forall m :: Owner(Truncate(t, n), m) <==> Owner(t, m) && m != n
    ensures LostBlocks(Truncate(t, n)) == LostBlocks(t)
  {
  }

  lemma TruncateCore(t: Tables, n: int)
    requires Core(t) && LiveNode(t, n) && t.inodes[n].kind == RegularFile
    ensures Core(Truncate(t, n))
  {
    if t.inodes[n].size > 0 {
      var u := Truncate(t, n);
      TruncateOwners(t, n);
      assert Owner(t, n) && Owner(t, ROOT);
      assert Dir(u) == Dir(t);
      assert forall m :: LiveNode(u, m) <==> LiveNode(t, m);
      assert forall m :: 0 <= m < t.p.inodes ==> u.inodes[m] == t.inodes[m].(size := u.inodes[m].size);
      assert BlocksOk(u);
    }
  }

  lemma TruncateStep(t: Tables, n: int)
    requires Core(t) && LiveNode(t, n) && t.inodes[n].kind == RegularFile
    ensures Core(Truncate(t, n))
    ensures Abs(Truncate(t, n)) == Abs(t).(nodes := Abs(t).nodes[n := A.File([])])
  {
    var u := Truncate(t, n);
    TruncateCore(t, n);
    if t.inodes[n].size > 0 {
      TruncateOwners(t, n);
      forall m | LiveNode(t, m) && m != n
        ensures NodeOf(t, m) == NodeOf(u, m)
      {
        assert Owner(t, m) == Owns(t.inodes[m]);
        SameNode(t, u, m);
      }
    }
    UpdatedNodes(t, u, n);
  }

  /** Copying bytes into the block a non-empty file already owns. */
  function WriteOld(t: Tables, n: int, off: nat, src: seq<byte>): Tables
    requires Core(t) && LiveNode(t, n) && t.inodes[n].size > 0 && off + |src| <= t.p.blockSize
  {
    assert Owner(t, n);
    var i := t.inodes[n];
    var u := Store(t, i.block, off, src);
    u.(inodes := u.inodes[n := i.(size := if off + |src| > i.size then off + |src| else i.size)])
  }

  lemma WriteOldOwners(t: Tables, n: int, off: nat, src: seq<byte>)
    requires Core(t) && LiveNode(t, n) && t.inodes[n].size > 0 && off + |src| <= t.p.blockSize
    ensures forall m :: Owner(WriteOld(t, n, off, src), m) <==> Owner(t, m)
    ensures Owner(t, n) && Owner(t, ROOT) && OwnedBlocks(WriteOld(t, n, off, src)) == OwnedBlocks(t)
  {
  }

  lemma WriteOldCore(t: Tables, n: int, off: nat, src: seq<byte>)
    requires Core(t) && LiveNode(t, n) && t.inodes[n].kind == RegularFile
    requires t.inodes[n].size > 0 && off + |src| <= t.p.blockSize
    ensures Core(WriteOld(t, n, off, src))
  {
    var u := WriteOld(t, n, off, src);
    WriteOldOwners(t, n, off, src);
    assert Dir(u) == Dir(t);
    assert forall m :: LiveNode(u, m) <==> LiveNode(t, m);
    assert forall m :: 0 <= m < t.p.inodes ==> u.inodes[m] == t.inodes[m].(size := u.inodes[m].size);
    assert BlocksOk(u);
  }

  lemma SpliceTake(d: seq<byte>, off: nat, src: seq<byte>, size: nat)
    requires off <= size <= |d| && off + |src| <= |d|
    ensures Splice(d, off, src)[..if off + |src| > size then off + |src| else size] == A.Overwrite(d[..size], off, src)
  {
  }

  lemma WrittenContent(t: Tables, n: int, off: nat, src: seq<byte>)
    requires Core(t) && LiveNode(t, n)
    requires t.inodes[n].size > 0 && off <= t.inodes[n].size && off + |src| <= t.p.blockSize
    requires Core(WriteOld(t, n, off, src))
    ensures Content(WriteOld(t, n, off, src), n) == A.Overwrite(Content(t, n), off, src)
  {
    assert Owner(t, n);
    SpliceTake(t.data[t.inodes[n].block], off, src, t.inodes[n].size);
  }

  /** The write changes the bytes of that file and of no other node, name or handle. */
  lemma WriteOldStep(t: Tables, n: int, off: nat, src: seq<byte>)
    requires Core(t) && LiveNode(t, n) && t.inodes[n].kind == RegularFile
    requires t.inodes[n].size > 0 && off <= t.inodes[n].size && off + |src| <= t.p.blockSize
    ensures Core(WriteOld(t, n, off, src))
    ensures Abs(WriteOld(t, n, off, src))
         == Abs(t).(nodes := Abs(t).nodes[n := A.File(A.Overwrite(Content(t, n), off, src))])
  {
    var u := WriteOld(t, n, off, src);
    WriteOldCore(t, n, off, src);
    WriteOldOwners(t, n, off, src);
    forall m | LiveNode(t, m) && m != n
      ensures NodeOf(t, m) == NodeOf(u, m)
    {
      assert Owner(t, m) == Owns(t.inodes[m]);
      SameNode(t, u, m);
    }
    WrittenContent(t, n, off, src);
    UpdatedNodes(t, u, n);
  }

  /** Giving an empty file a block and its first bytes. */
  function WriteNew(t: Tables, n: int, b: int, src: seq<byte>): Tables
    requires Shape(t) && 0 <= n < t.p.inodes && 0 <= b < t.p.blocks && |src| <= t.p.blockSize
  {
    t.(blockTaken := t.blockTaken[b := true], data := t.data[b := Splice(t.data[b], 0, src)],
       inodes := t.inodes[n := t.inodes[n].(block := b, size := |src|)])
  }

  ghost predicate EmptyFile(t: Tables, n: int, b: int, src: seq<byte>) {
    && Core(t) && LiveNode(t, n) && t.inodes[n].kind == RegularFile && t.inodes[n].size == 0
    && 0 <= b < t.p.blocks && !t.blockTaken[b] && 0 < |src| <= t.p.blockSize
  }

  lemma WriteNewOwners(t: Tables, n: int, b: int, src: seq<byte>)
    requires EmptyFile(t, n, b, src)
    ensures forall m :: Owner(WriteNew(t, n, b, src), m) <==> Owner(t, m) || m == n
    ensures forall m :: Owner(t, m) ==> m != n && t.inodes[m].block != b
    ensures LostBlocks(WriteNew(t, n, b, src)) == LostBlocks(t)
  {
  }

  lemma WriteNewCore(t: Tables, n: int, b: int, src: seq<byte>)
    requires EmptyFile(t, n, b, src)
    ensures Core(WriteNew(t, n, b, src))
  {
    var u := WriteNew(t, n, b, src);
    WriteNewOwners(t, n, b, src);
    assert Dir(u) == Dir(t);
    assert forall m :: LiveNode(u, m) <==> LiveNode(t, m);
    assert forall m :: 0 <= m < t.p.inodes && m != n ==> u.inodes[m] == t.inodes[m];
    assert BlocksOk(u);
  }

  lemma WriteNewStep(t: Tables, n: int, b: int, src: seq<byte>)
    requires EmptyFile(t, n, b, src)
    ensures Core(WriteNew(t, n, b, src))
    ensures Abs(WriteNew(t, n, b, src)) == Abs(t).(nodes := Abs(t).nodes[n := A.File(src)])
  {
    var u := WriteNew(t, n, b, src);
    WriteNewCore(t, n, b, src);
    WriteNewOwners(t, n, b, src);
    forall m | LiveNode(t, m) && m != n
      ensures NodeOf(t, m) == NodeOf(u, m)
    {
      assert Owner(t, m) == Owns(t.inodes[m]);
      SameNode(t, u, m);
    }
    assert Content(u, n) == src;
    UpdatedNodes(t, u, n);
  }

  // ---- Deleting an inode nothing refers to ----

  ghost predicate Garbage(t: Tables, n: int) {
    Core(t) && LiveNode(t, n) && t.inodes[n].links == 0 && !IsOpen(t, n)
  }

  ghost function Delete(t: Tables, n: int): Tables
    requires Core(t) && LiveNode(t, n)
  {
    assert t.inodes[n].size > 0 ==> Owner(t, n);
    DeleteNode(t, n)
  }

  /** A file gives its block back; a symbolic link, whose size is 0, does not. */
  lemma DeleteOwners(t: Tables, n: int)
    requires Garbage(t, n)
    ensures forall m :: Owner(Delete(t, n), m) <==> Owner(t, m) && m != n
    ensures t.inodes[n].kind == SymbolicLink ==>
      Owner(t, n) && t.inodes[n].block !in LostBlocks(t) && LostBlocks(Delete(t, n)) == LostBlocks(t) + {t.inodes[n].block}
    ensures t.inodes[n].kind != SymbolicLink ==> LostBlocks(Delete(t, n)) == LostBlocks(t)
  {
  }

  lemma UnnamedSlots(t: Tables, n: int)
    requires Garbage(t, n)
    ensures SlotsLive(Delete(t, n), Dir(t))
  {
    var s, u := Dir(t), Delete(t, n);
    assert EntriesOf(s, n) == {};
    forall i | 0 <= i < |s| && s[i].inum != -1
      ensures LiveNode(u, s[i].inum)
    {
      assert i !in EntriesOf(s, n);
    }
  }

  lemma DeleteBlocks(t: Tables, n: int)
    requires Garbage(t, n)
    ensures Shape(Delete(t, n)) && RootOk(Delete(t, n)) && BlocksOk(Delete(t, n)) && ContentsOk(Delete(t, n))
  {
    var u := Delete(t, n);
    DeleteOwners(t, n);
    assert Owner(t, ROOT) && (t.inodes[n].size > 0 ==> Owner(t, n));
    assert forall m :: LiveNode(u, m) ==> LiveNode(t, m) && m != n;
    assert forall m :: 0 <= m < t.p.inodes && m != n ==> u.inodes[m] == t.inodes[m];
  }

  lemma DeleteCore(t: Tables, n: int)
    requires Garbage(t, n)
    ensures Core(Delete(t, n))
  {
    var u := Delete(t, n);
    DeleteBlocks(t, n);
    assert Dir(u) == Dir(t);
    UnnamedSlots(t, n);
    assert forall m :: m != n ==> (LiveNode(u, m) <==> LiveNode(t, m));
    assert forall m :: 0 <= m < t.p.inodes && m != n ==> u.inodes[m] == t.inodes[m];
  }

  lemma MapMinus(m: map<int, A.Node>, r: map<int, A.Node>, k: int)
    requires r.Keys == m.Keys - {k}
    requires forall x :: x in r ==> r[x] == m[x]
    ensures r == m - {k}
  {
    var d := m - {k};
    assert r.Keys == d.Keys;
    assert forall x :: x in r ==> r[x] == d[x];
  }

  lemma RemovedNodes(t: Tables, u: Tables, n: int)
    requires Core(t) && Core(u) && LiveNode(t, n) && !LiveNode(u, n)
    requires forall m :: m != n ==> (LiveNode(t, m) <==> LiveNode(u, m))
    requires forall m :: m != n && LiveNode(t, m) ==> NodeOf(t, m) == NodeOf(u, m)
    ensures NodesOf(u) == NodesOf(t) - {n}
  {
    hide DirOk, LinksOk, HandlesOk, BlocksOk, ContentsOk, NodeOf;
    MapMinus(NodesOf(t), NodesOf(u), n);
  }

  lemma DeleteNodes(t: Tables, n: int)
    requires Garbage(t, n) && Core(Delete(t, n))
    ensures NodesOf(Delete(t, n)) == NodesOf(t) - {n}
  {
    var u := Delete(t, n);
    DeleteOwners(t, n);
    assert forall m :: m != n ==> (LiveNode(u, m) <==> LiveNode(t, m));
    assert forall m :: 0 <= m < t.p.inodes && m != n ==> u.inodes[m] == t.inodes[m];
    assert u.data == t.data;
    forall m | LiveNode(t, m) && m != n
      ensures NodeOf(t, m) == NodeOf(u, m)
    {
      assert Owner(t, m) == Owns(t.inodes[m]);
      SameNode(t, u, m);
    }
    RemovedNodes(t, u, n);
  }

  lemma DeleteLost(t: Tables, n: int)
    requires Garbage(t, n)
    ensures |LostBlocks(Delete(t, n))| == |LostBlocks(t)| + if NodeOf(t, n).Link? then 1 else 0
  {
    DeleteOwners(t, n);
  }

  /** Deleting an inode is what collecting an unreferenced node means. */
  lemma DeleteStep(t: Tables, n: int)
    requires Garbage(t, n)
    ensures Core(Delete(t, n)) && Abs(Delete(t, n)) == A.Collect(Abs(t), n)
  {
    DeleteCore(t, n);
    DeleteNodes(t, n);
    DeleteLost(t, n);
    ReferencedIff(t, n);
  }

  lemma OpenIff(t: Tables, n: int)
    requires Shape(t)
    ensures IsOpen(t, n) <==> exists h :: h in HandlesOf(t) && HandlesOf(t)[h].node == n
  {
    var handles := HandlesOf(t);
    if IsOpen(t, n) {
      var h :| 0 <= h < |t.fileTaken| && t.fileTaken[h] && t.files[h].inum == n;
      assert h in handles && handles[h].node == n;
    }
  }

  /** The reaping test of the C code asks whether any name or handle is left. */
  lemma ReferencedIff(t: Tables, n: int)
    requires Core(t) && LiveNode(t, n)
    ensures n in Abs(t).nodes
    ensures t.inodes[n].links == 0 <==> n !in Abs(t).names.Values
    ensures IsOpen(t, n) <==> A.HasHandle(Abs(t), n)
  {
    EntriesAreNames(Dir(t), n);
    OpenIff(t, n);
  }

  /** Reap does what collection does, whether or not the node is still referenced. */
  lemma ReapStep(t: Tables, n: int)
    requires Core(t) && LiveNode(t, n)
    ensures Core(Reap(t, n)) && Abs(Reap(t, n)) == A.Collect(Abs(t), n)
  {
    ReferencedIff(t, n);
    if t.inodes[n].links == 0 && !IsOpen(t, n) {
      DeleteStep(t, n);
    }
  }

  // ---- Traces of refused requests ----

  /** A create that was undone leaves only the fields of a free inode behind. */
  lemma ScratchStep(t: Tables, n: int, i: Inode)
    requires Core(t) && 0 <= n < t.p.inodes && !t.inodeTaken[n]
    ensures Core(t.(inodes := t.inodes[n := i])) && Abs(t.(inodes := t.inodes[n := i])) == Abs(t)
  {
    var u := t.(inodes := t.inodes[n := i]);
    assert forall m :: Owner(t, m) ==> u.inodes[m] == t.inodes[m];
    assert forall m :: LiveNode(t, m) ==> u.inodes[m] == t.inodes[m];
    assert forall m :: Owner(u, m) <==> Owner(t, m);
    assert OwnedBlocks(u) == OwnedBlocks(t);
    assert Dir(u) == Dir(t);
    assert Core(u);
    forall m | LiveNode(t, m)
      ensures NodeOf(t, m) == NodeOf(u, m)
    {
      assert Owner(t, m) == Owns(t.inodes[m]);
      SameNode(t, u, m);
    }
    SameNodes(t, u);
  }

  function Leak(t: Tables, b: int, d: seq<byte>): Tables
    requires Shape(t) && 0 <= b < t.p.blocks
  {
    t.(blockTaken := t.blockTaken[b := true], data := t.data[b := d])
  }

  lemma LeakOwners(t: Tables, b: int, d: seq<byte>)
    requires Core(t) && 0 <= b < t.p.blocks && !t.blockTaken[b] && |d| == t.p.blockSize
    ensures forall m :: Owner(Leak(t, b, d), m) <==> Owner(t, m)
    ensures forall m :: Owner(t, m) ==> t.inodes[m].block != b
    ensures LostBlocks(Leak(t, b, d)) == LostBlocks(t) + {b} && b !in LostBlocks(t)
  {
  }

  lemma LeakCore(t: Tables, b: int, d: seq<byte>)
    requires Core(t) && 0 <= b < t.p.blocks && !t.blockTaken[b] && |d| == t.p.blockSize
    ensures Core(Leak(t, b, d))
  {
  }

  /** A block taken for nothing is lost. */
  lemma LeakStep(t: Tables, b: int, d: seq<byte>)
    requires Core(t) && 0 <= b < t.p.blocks && !t.blockTaken[b] && |d| == t.p.blockSize
    ensures Core(Leak(t, b, d)) && Abs(Leak(t, b, d)) == Abs(t).(lost := Abs(t).lost + 1)
  {
    var u := Leak(t, b, d);
    LeakCore(t, b, d);
    LeakOwners(t, b, d);
    forall m | LiveNode(t, m)
      ensures NodeOf(t, m) == NodeOf(u, m)
    {
      assert Owner(t, m) == Owns(t.inodes[m]);
      SameNode(t, u, m);
    }
    SameNodes(t, u);
  }
}
