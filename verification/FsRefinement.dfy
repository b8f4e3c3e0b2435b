/**
 The tables refine the abstract file system: every operation, with every error path, does to
 names, contents and handles exactly what the abstract operation does, and returns the same code.
 */
module FsRefinement {
  import opened Bytes
  import opened Directory
  import opened FsTypes
  import opened FsTables
  import opened FsSteps
  import A = AbstractFs

  // ---- Capacities seen from both sides ----

  lemma {:induction false} LeastFreeUnique(used: set<int>, lo: int, hi: int, r: int)
    requires 0 <= lo <= hi
    requires lo <= r <= hi && (r < hi ==> r !in used) && forall j :: lo <= j < r ==> j in used
    ensures A.LeastFree(used, lo, hi) == if r < hi then r else -1
    decreases hi - lo
  {
  }

  lemma FreeInodeAgrees(t: Tables)
    requires Core(t)
    ensures A.LeastFree(Abs(t).nodes.Keys, 1, t.p.inodes) == FirstFree(t.inodeTaken)
    ensures FirstFree(t.inodeTaken) >= 0 ==> FirstFree(t.inodeTaken) > 0
  {
    var used := Abs(t).nodes.Keys;
    var r := FirstFree(t.inodeTaken);
    assert forall j :: 0 < j < t.p.inodes ==> (j in used <==> t.inodeTaken[j]);
    LeastFreeUnique(used, 1, t.p.inodes, if r < 0 then t.p.inodes else r);
  }

  lemma FreeHandleAgrees(t: Tables)
    requires Core(t)
    ensures A.LeastFree(Abs(t).handles.Keys, 0, t.p.handles) == FirstFree(t.fileTaken)
  {
    var used := Abs(t).handles.Keys;
    var r := FirstFree(t.fileTaken);
    assert forall j :: 0 <= j < t.p.handles ==> (j in used <==> t.fileTaken[j]);
    LeastFreeUnique(used, 0, t.p.handles, if r < 0 then t.p.handles else r);
  }

  ghost function OwnersBelow(t: Tables, k: nat): set<int>
    requires Shape(t)
  {
    set n | 0 <= n < k && Owner(t, n)
  }

  ghost function BlocksBelow(t: Tables, k: nat): set<int>
    requires Shape(t)
  {
    set n | 0 <= n < k && Owner(t, n) :: t.inodes[n].block
  }

  lemma NoneBelowZero(t: Tables)
    requires Shape(t)
    ensures OwnersBelow(t, 0) == {} && BlocksBelow(t, 0) == {}
  {
  }

  lemma OwnersNext(t: Tables, k: nat)
    requires Shape(t)
    ensures OwnersBelow(t, k + 1) == OwnersBelow(t, k) + if Owner(t, k) then {k} else {}
    ensures k !in OwnersBelow(t, k)
  {
  }

  lemma BlocksNext(t: Tables, k: nat)
    requires Shape(t) && BlocksOk(t)
    ensures BlocksBelow(t, k + 1) == BlocksBelow(t, k) + if Owner(t, k) then {t.inodes[k].block} else {}
    ensures Owner(t, k) ==> t.inodes[k].block !in BlocksBelow(t, k)
  {
  }

  /** Distinct owners have distinct blocks. */
  lemma {:induction false} OwnersCount(t: Tables, k: nat)
    requires Shape(t) && BlocksOk(t)
    ensures |BlocksBelow(t, k)| == |OwnersBelow(t, k)|
  {
    hide Shape, BlocksOk, OwnersBelow, BlocksBelow, Owner;
    if k == 0 {
      NoneBelowZero(t);
    } else {
      OwnersCount(t, k - 1);
      OwnersNext(t, k - 1);
      BlocksNext(t, k - 1);
    }
  }

  lemma OwnersAreUsers(t: Tables)
    requires Core(t)
    ensures forall n :: Owner(t, n) <==> n == ROOT || n in A.BlockUsers(Abs(t))
    ensures ROOT !in A.BlockUsers(Abs(t))
  {
    hide DirOk, LinksOk, HandlesOk, Names, LostBlocks, HandlesOf;
  }

  lemma OwnedCount(t: Tables, owners: set<int>)
    requires Shape(t) && BlocksOk(t) && forall n :: n in owners <==> Owner(t, n)
    ensures |TakenBlocks(t)| == |owners| + |LostBlocks(t)|
  {
    OwnersCount(t, t.p.inodes);
    assert OwnersBelow(t, t.p.inodes) == owners;
    assert BlocksBelow(t, t.p.inodes) == OwnedBlocks(t);
    assert OwnedBlocks(t) <= TakenBlocks(t);
    assert TakenBlocks(t) == OwnedBlocks(t) + LostBlocks(t);
  }

  /** Every TAKEN block belongs to the root, to one node, or is lost: the counts add up. */
  lemma BlockAccounting(t: Tables)
    requires Core(t)
    ensures |TakenBlocks(t)| == 1 + |A.BlockUsers(Abs(t))| + Abs(t).lost
  {
    OwnersAreUsers(t);
    OwnedCount(t, A.BlockUsers(Abs(t)) + {ROOT});
  }

  lemma BlocksAgree(t: Tables)
    requires Core(t)
    ensures FirstFree(t.blockTaken) < 0 <==> A.OutOfBlocks(Abs(t))
  {
    BlockAccounting(t);
    var all := Interval(t.p.blocks);
    var taken := TakenBlocks(t);
    assert taken <= all;
    if FirstFree(t.blockTaken) < 0 {
      assert taken == all;
    } else {
      assert FirstFree(t.blockTaken) in all - taken;
      assert |all - taken| == |all| - |taken|;
    }
  }

  lemma BindAgrees(t: Tables, name: CString, n: int)
    requires Core(t) && 0 <= n < t.p.inodes
    ensures AddDirEntry(t, name, n).1 <==> A.CanBind(Abs(t), name)
    ensures A.CanBind(Abs(t), name) ==> FreeIndex(Dir(t)) >= 0 && IndexInUse(Dir(t), name) < 0
    ensures A.CanBind(Abs(t), name) ==>
      AddDirEntry(t, name, n).0 == t.(data := t.data[0 := FillSlot(t.data[0], FreeIndex(Dir(t)), name, n)])
  {
    FindAgrees(Dir(t), name);
    FullIffCount(Dir(t));
  }

  lemma FindAgreesPath(t: Tables, path: CString)
    requires Core(t)
    ensures A.Find(Abs(t), path) == Lookup(t, path)
    ensures Lookup(t, path) == -1 || LiveNode(t, Lookup(t, path))
    ensures Lookup(t, path) in Abs(t).nodes <==> Lookup(t, path) != -1
  {
  }

  // ---- Handles ----

  lemma HandlesWith(t: Tables, u: Tables, h: int, x: OpenFile)
    requires Shape(t) && Shape(u) && 0 <= h < |t.files| && |u.files| == |t.files|
    requires u.files == t.files[h := x] && u.fileTaken == t.fileTaken[h := true]
    ensures HandlesOf(u) == HandlesOf(t)[h := A.Handle(x.inum, x.offset)]
  {
  }

  lemma HandlesWithout(t: Tables, u: Tables, h: int)
    requires Shape(t) && Shape(u) && 0 <= h < |t.files| && |u.files| == |t.files|
    requires u.files == t.files && u.fileTaken == t.fileTaken[h := false]
    ensures HandlesOf(u) == HandlesOf(t) - {h}
  {
  }

  lemma AddHandleOk(t: Tables, h: int, x: OpenFile)
    requires Core(t) && 0 <= h < |t.files|
    requires LiveNode(t, x.inum) && t.inodes[x.inum].kind == RegularFile
    ensures Core(t.(files := t.files[h := x], fileTaken := t.fileTaken[h := true]))
    ensures Abs(t.(files := t.files[h := x], fileTaken := t.fileTaken[h := true]))
         == Abs(t).(handles := Abs(t).handles[h := A.Handle(x.inum, x.offset)])
  {
    var u := t.(files := t.files[h := x], fileTaken := t.fileTaken[h := true]);
    assert HandlesOk(u) by {
      assert forall k :: 0 <= k < |t.files| && k != h ==> u.files[k] == t.files[k] && u.fileTaken[k] == t.fileTaken[k];
    }
    FilesStep(t, u);
    HandlesWith(t, u, h, x);
  }

  lemma HandleLive(t: Tables, h: int)
    requires Core(t) && ValidHandle(t, h)
    ensures var n := t.files[h].inum;
      && LiveNode(t, n) && t.inodes[n].kind == RegularFile && t.inodes[n].size <= t.p.blockSize
  {
  }

  /** What an open handle stands for. */
  lemma HandleFacts(t: Tables, h: int)
    requires Core(t)
    ensures h in Abs(t).handles <==> ValidHandle(t, h)
    ensures ValidHandle(t, h) ==>
      var n := t.files[h].inum;
      && LiveNode(t, n) && t.inodes[n].kind == RegularFile && t.inodes[n].size <= t.p.blockSize
      && Abs(t).handles[h] == A.Handle(n, t.files[h].offset)
      && n in Abs(t).nodes && Abs(t).nodes[n] == A.File(Content(t, n)) && |Content(t, n)| == t.inodes[n].size
  {
    hide DirOk, LinksOk, HandlesOk, BlocksOk, ContentsOk, Content, LostBlocks, Names;
    if ValidHandle(t, h) {
      HandleLive(t, h);
      NodeFacts(t, t.files[h].inum);
      ContentSize(t, t.files[h].inum);
    }
  }

  lemma NodeFacts(t: Tables, n: int)
    requires Core(t)
    ensures n in Abs(t).nodes <==> LiveNode(t, n)
    ensures LiveNode(t, n) ==> Abs(t).nodes[n] == NodeOf(t, n) && t.inodes[n].kind != DirectoryFile
    ensures LiveNode(t, n) ==> (Abs(t).nodes[n].Link? <==> t.inodes[n].kind == SymbolicLink)
  {
  }

  lemma AddHandleStep(t: Tables, n: int, offset: nat)
    requires Core(t) && LiveNode(t, n) && t.inodes[n].kind == RegularFile
    ensures Core(AddHandle(t, n, offset).0)
    ensures (Abs(AddHandle(t, n, offset).0), AddHandle(t, n, offset).1) == A.NewHandle(Abs(t), n, offset)
  {
    hide DirOk, LinksOk, HandlesOk, BlocksOk, ContentsOk, NodesOf, HandlesOf, Names, LostBlocks;
    FreeHandleAgrees(t);
    var h := FirstFree(t.fileTaken);
    if h >= 0 {
      AddHandleOk(t, h, OpenFile(n, offset));
    }
  }

  lemma SetOffsetStep(t: Tables, h: int, offset: nat)
    requires Core(t) && ValidHandle(t, h)
    ensures Core(SetOffset(t, h, offset))
    ensures Abs(SetOffset(t, h, offset))
         == Abs(t).(handles := Abs(t).handles[h := A.Handle(t.files[h].inum, offset)])
  {
    assert t.fileTaken[h := true] == t.fileTaken;
    assert SetOffset(t, h, offset) == t.(files := t.files[h := t.files[h].(offset := offset)], fileTaken := t.fileTaken[h := true]);
    AddHandleOk(t, h, t.files[h].(offset := offset));
  }

  lemma DropHandleStep(t: Tables, h: int)
    requires Core(t) && ValidHandle(t, h)
    ensures Core(t.(fileTaken := t.fileTaken[h := false]))
    ensures Abs(t.(fileTaken := t.fileTaken[h := false])) == Abs(t).(handles := Abs(t).handles - {h})
  {
    var u := t.(fileTaken := t.fileTaken[h := false]);
    FilesStep(t, u);
    HandlesWithout(t, u, h);
  }

  lemma CloseStep(t: Tables, h: int)
    requires Core(t)
    ensures Core(Close(t, h).0)
    ensures (Abs(Close(t, h).0), Close(t, h).1) == A.Close(Abs(t), h)
  {
    hide DirOk, LinksOk, HandlesOk, BlocksOk, ContentsOk, NodesOf, HandlesOf, Names, LostBlocks;
    HandleFacts(t, h);
    if ValidHandle(t, h) {
      DropHandleStep(t, h);
      ReapStep(t.(fileTaken := t.fileTaken[h := false]), t.files[h].inum);
    }
  }

  // ---- tfs_open ----

  lemma ExistingStep(t: Tables, n: int, mode: Mode)
    requires Core(t) && LiveNode(t, n) && t.inodes[n].kind == RegularFile
    ensures var u := if mode.truncate then Truncate(t, n) else t;
      var content := if mode.truncate then [] else Content(t, n);
      && Core(u) && LiveNode(u, n) && u.inodes[n].kind == RegularFile && u.inodes[n].size == |content|
      && Abs(u) == Abs(t).(nodes := Abs(t).nodes[n := A.File(content)])
  {
    hide DirOk, LinksOk, HandlesOk, BlocksOk, ContentsOk, NodesOf, HandlesOf, Names, LostBlocks;
    if mode.truncate {
      TruncateStep(t, n);
    } else {
      NodeFacts(t, n);
      ContentSize(t, n);
    }
  }

  lemma ContentSize(t: Tables, n: int)
    requires Core(t) && LiveNode(t, n)
    ensures |Content(t, n)| == t.inodes[n].size
  {
  }

  lemma CreateIs(t: Tables, n: int, i: int, name: CString)
    requires Shape(t) && 0 < t.p.blocks && n == FirstFree(t.inodeTaken) && n > 0 && ValidName(name)
    requires IndexInUse(Dir(t), name) < 0 && i == FreeIndex(Dir(t)) && i >= 0
    ensures AddDirEntry(CreateNode(t, RegularFile).0, name, n)
         == (Redirect(NewFile(t, n), FillSlot(t.data[0], i, name, n), n, 1), true)
  {
    assert NewFile(t, n).inodes[n := Inode(RegularFile, 0, -1, 1)] == t.inodes[n := Inode(RegularFile, 0, -1, 1)];
  }

  /** Creating a file: the inode, then its directory entry. */
  lemma CreateStep(t: Tables, n: int, name: CString)
    requires Core(t) && n == FirstFree(t.inodeTaken) && n > 0 && A.CanBind(Abs(t), name)
    ensures var u := AddDirEntry(CreateNode(t, RegularFile).0, name, n).0;
      && AddDirEntry(CreateNode(t, RegularFile).0, name, n).1
      && Core(u) && LiveNode(u, n) && u.inodes[n].kind == RegularFile
      && Abs(u) == Abs(t).(names := Abs(t).names[name := n], nodes := Abs(t).nodes[n := A.File([])])
  {
    hide DirOk, LinksOk, HandlesOk, BlocksOk, ContentsOk, NodesOf, HandlesOf, Names, LostBlocks;
    BindAgrees(t, name, n);
    var i := FreeIndex(Dir(t));
    NewFileStep(t, n);
    CreateIs(t, n, i, name);
    BindStep(NewFile(t, n), n, i, name);
  }

  /** A refused create is undone. */
  lemma UncreateStep(t: Tables, n: int, kind: Kind, name: CString)
    requires Core(t) && n == FirstFree(t.inodeTaken) && n > 0
    ensures Core(DeleteNode(CreateNode(t, kind).0, n))
    ensures Abs(DeleteNode(CreateNode(t, kind).0, n)) == Abs(t)
  {
    var u := DeleteNode(CreateNode(t, kind).0, n);
    assert u.inodeTaken == t.inodeTaken;
    assert u == t.(inodes := t.inodes[n := Inode(kind, 0, -1, 1)]);
    ScratchStep(t, n, Inode(kind, 0, -1, 1));
  }

  lemma OpenExistingStep(t: Tables, path: CString, mode: Mode)
    requires Core(t) && Target(t, path) == None && Lookup(t, path) != -1
    ensures Core(OpenHere(t, path, mode).0)
    ensures (Abs(OpenHere(t, path, mode).0), OpenHere(t, path, mode).1) == A.OpenAt(Abs(t), path, mode)
  {
    hide DirOk, LinksOk, HandlesOk, BlocksOk, ContentsOk, NodesOf, HandlesOf, Names, LostBlocks;
    FindAgreesPath(t, path);
    var n := Lookup(t, path);
    NodeFacts(t, n);
    ExistingStep(t, n, mode);
    var u := if mode.truncate then Truncate(t, n) else t;
    AddHandleStep(u, n, if mode.append then u.inodes[n].size else 0);
  }

  lemma OpenMissingStep(t: Tables, path: CString, mode: Mode)
    requires Core(t) && ValidPath(path) && Lookup(t, path) == -1
    ensures Core(OpenHere(t, path, mode).0)
    ensures (Abs(OpenHere(t, path, mode).0), OpenHere(t, path, mode).1) == A.OpenAt(Abs(t), path, mode)
  {
    hide DirOk, LinksOk, HandlesOk, BlocksOk, ContentsOk, NodesOf, HandlesOf, Names, LostBlocks;
    FindAgreesPath(t, path);
    FreeInodeAgrees(t);
    var n := FirstFree(t.inodeTaken);
    if mode.create && n >= 0 {
      BindAgrees(t, path[1..], n);
      var t1 := CreateNode(t, RegularFile).0;
      assert AddDirEntry(t1, path[1..], n).1 == AddDirEntry(t, path[1..], n).1;
      if A.CanBind(Abs(t), path[1..]) {
        CreateStep(t, n, path[1..]);
        AddHandleStep(AddDirEntry(t1, path[1..], n).0, n, 0);
      } else {
        UncreateStep(t, n, RegularFile, path[1..]);
      }
    }
  }

  lemma OpenHereStep(t: Tables, path: CString, mode: Mode)
    requires Core(t) && Target(t, path) == None
    ensures Core(OpenHere(t, path, mode).0)
    ensures (Abs(OpenHere(t, path, mode).0), OpenHere(t, path, mode).1) == A.OpenAt(Abs(t), path, mode)
  {
    if ValidPath(path) {
      if Lookup(t, path) != -1 {
        OpenExistingStep(t, path, mode);
      } else {
        OpenMissingStep(t, path, mode);
      }
    }
  }

  // ---- tfs_write, tfs_read ----

  lemma WriteOldIs(t: Tables, h: int, off: nat, src: seq<byte>)
    requires Core(t) && ValidHandle(t, h) && t.inodes[t.files[h].inum].size > 0
    requires off + |src| <= t.p.blockSize
    ensures var n := t.files[h].inum;
      && Owner(t, n) && 0 <= t.inodes[n].block < t.p.blocks && Core(WriteOld(t, n, off, src))
      && WriteAt(SetOffset(t, h, off), h, n, t.inodes[n].block, off, src)
      == SetOffset(WriteOld(t, n, off, src), h, off + |src|)
  {
    var n := t.files[h].inum;
    assert Owner(t, n);
    WriteOldCore(t, n, off, src);
  }

  lemma WriteNewIs(t: Tables, h: int, b: int, src: seq<byte>)
    requires ValidShape(t, h) && EmptyFile(t, t.files[h].inum, b, src)
    ensures var n := t.files[h].inum;
      WriteAt(SetOffset(t, h, 0).(blockTaken := t.blockTaken[b := true]), h, n, b, 0, src)
      == SetOffset(WriteNew(t, n, b, src), h, |src|)
  {
  }

  ghost predicate ValidShape(t: Tables, h: int) {
    Shape(t) && ValidHandle(t, h)
  }

  lemma WriteUsedStep(t: Tables, h: int, off: nat, src: seq<byte>)
    requires Core(t) && ValidHandle(t, h) && t.inodes[t.files[h].inum].size > 0
    requires LiveNode(t, t.files[h].inum) && t.inodes[t.files[h].inum].kind == RegularFile
    requires off <= t.inodes[t.files[h].inum].size && off + |src| <= t.p.blockSize
    ensures var n := t.files[h].inum;
      && 0 <= t.inodes[n].block < t.p.blocks
      && var u := WriteAt(SetOffset(t, h, off), h, n, t.inodes[n].block, off, src);
      && Core(u)
      && Abs(u) == Abs(t).(handles := Abs(t).handles[h := A.Handle(n, off + |src|)],
                           nodes := Abs(t).nodes[n := A.File(A.Overwrite(Content(t, n), off, src))])
  {
    hide DirOk, LinksOk, HandlesOk, BlocksOk, ContentsOk, NodesOf, HandlesOf, Names, LostBlocks, WriteAt, Content;
    var n := t.files[h].inum;
    WriteOldIs(t, h, off, src);
    WriteOldStep(t, n, off, src);
    SetOffsetStep(WriteOld(t, n, off, src), h, off + |src|);
  }

  lemma WriteFirstStep(t: Tables, h: int, b: int, src: seq<byte>)
    requires ValidShape(t, h) && EmptyFile(t, t.files[h].inum, b, src)
    ensures var n := t.files[h].inum;
      var u := WriteAt(SetOffset(t, h, 0).(blockTaken := t.blockTaken[b := true]), h, n, b, 0, src);
      && Core(u)
      && Abs(u) == Abs(t).(handles := Abs(t).handles[h := A.Handle(n, |src|)],
                           nodes := Abs(t).nodes[n := A.File(src)])
  {
    hide DirOk, LinksOk, HandlesOk, BlocksOk, ContentsOk, NodesOf, HandlesOf, Names, LostBlocks;
    var n := t.files[h].inum;
    WriteNewIs(t, h, b, src);
    WriteNewStep(t, n, b, src);
    SetOffsetStep(WriteNew(t, n, b, src), h, |src|);
  }

  lemma WriteStep(t: Tables, h: int, buffer: seq<byte>)
    requires Core(t)
    ensures Core(Write(t, h, buffer).0)
    ensures (Abs(Write(t, h, buffer).0), Write(t, h, buffer).1) == A.Write(Abs(t), h, buffer)
  {
    hide DirOk, LinksOk, HandlesOk, BlocksOk, ContentsOk, NodesOf, HandlesOf, Names, LostBlocks, WriteAt, Content;
    HandleFacts(t, h);
    if ValidHandle(t, h) {
      var n := t.files[h].inum;
      var size := t.inodes[n].size;
      var off := Min(t.files[h].offset, size);
      var len := Min(|buffer|, t.p.blockSize - off);
      if len == 0 {
        SetOffsetStep(t, h, off);
      } else if size > 0 {
        WriteUsedStep(t, h, off, buffer[..len]);
      } else {
        BlocksAgree(t);
        var b := FirstFree(t.blockTaken);
        if b < 0 {
          SetOffsetStep(t, h, off);
        } else {
          WriteFirstStep(t, h, b, buffer[..len]);
          assert A.Overwrite([], 0, buffer[..len]) == buffer[..len];
        }
      }
    }
  }

  lemma ReadBytes(t: Tables, n: int, off: nat, count: nat)
    requires Core(t) && LiveNode(t, n) && count > 0 && off + count <= t.inodes[n].size
    ensures Owner(t, n) && Content(t, n)[off..off + count] == t.data[t.inodes[n].block][off..off + count]
  {
  }

  lemma ReadStep(t: Tables, h: int, len: nat)
    requires Core(t)
    ensures Core(Read(t, h, len).0)
    ensures (Abs(Read(t, h, len).0), Read(t, h, len).1) == A.Read(Abs(t), h, len)
  {
    hide DirOk, LinksOk, HandlesOk, BlocksOk, ContentsOk, NodesOf, HandlesOf, Names, LostBlocks;
    HandleFacts(t, h);
    if ValidHandle(t, h) {
      var n := t.files[h].inum;
      var size := t.inodes[n].size;
      var off := Min(t.files[h].offset, size);
      var count := Min(len, size - off);
      SetOffsetStep(t, h, off + count);
      if count > 0 {
        ReadBytes(t, n, off, count);
      } else {
        assert Content(t, n)[off..off] == [];
      }
    }
  }

  // ---- tfs_sym_link, tfs_link, tfs_unlink ----

  lemma SymLinkIs(t: Tables, n: int, b: int, i: int, target: CString, name: CString)
    requires Shape(t) && 0 < t.p.blocks && n == FirstFree(t.inodeTaken) && n > 0
    requires b == FirstFree(t.blockTaken) && b > 0 && |target| < t.p.blockSize && ValidName(name)
    requires IndexInUse(Dir(t), name) < 0 && i == FreeIndex(Dir(t)) && i >= 0
    ensures AddDirEntry(SymLinkNode(t, n, b, target), name, n)
         == (Redirect(NewLink(t, n, b, target), FillSlot(t.data[0], i, name, n), n, 1), true)
  {
    assert NewLink(t, n, b, target).inodes[n := Inode(SymbolicLink, 0, b, 1)] == t.inodes[n := Inode(SymbolicLink, 0, b, 1)];
  }

  /** The state of tfs_sym_link just before it adds the directory entry. */
  function SymLinkNode(t: Tables, n: int, b: int, target: CString): Tables
    requires Shape(t) && 0 <= n < t.p.inodes && 0 <= b < t.p.blocks && |target| < t.p.blockSize
  {
    t.(inodes := t.inodes[n := Inode(SymbolicLink, 0, b, 1)], inodeTaken := t.inodeTaken[n := true],
       blockTaken := t.blockTaken[b := true], data := t.data[b := Splice(t.data[b], 0, target + [0])])
  }

  lemma SymLinkBoundStep(t: Tables, n: int, b: int, target: CString, name: CString)
    requires FreshLink(t, n, b, target) && n == FirstFree(t.inodeTaken) && b == FirstFree(t.blockTaken)
    requires A.CanBind(Abs(t), name)
    ensures var (u, ok) := AddDirEntry(SymLinkNode(t, n, b, target), name, n);
      && ok && Core(u)
      && Abs(u) == Abs(t).(names := Abs(t).names[name := n], nodes := Abs(t).nodes[n := A.Link(target)])
  {
    hide DirOk, LinksOk, HandlesOk, BlocksOk, ContentsOk, NodesOf, HandlesOf, Names, LostBlocks;
    var i := FreeIndex(Dir(t));
    BindAgrees(t, name, n);
    NewLinkStep(t, n, b, target);
    SymLinkIs(t, n, b, i, target, name);
    BindStep(NewLink(t, n, b, target), n, i, name);
  }

  /** A refused symbolic link gives its inode back but not its block. */
  lemma SymLinkUndoneStep(t: Tables, n: int, b: int, target: CString)
    requires FreshLink(t, n, b, target)
    ensures Core(DeleteNode(SymLinkNode(t, n, b, target), n))
    ensures Abs(DeleteNode(SymLinkNode(t, n, b, target), n)) == Abs(t).(lost := Abs(t).lost + 1)
  {
    hide DirOk, LinksOk, HandlesOk, BlocksOk, ContentsOk, NodesOf, HandlesOf, Names, LostBlocks;
    var d := Splice(t.data[b], 0, target + [0]);
    var u := Leak(t, b, d);
    LeakStep(t, b, d);
    ScratchStep(u, n, Inode(SymbolicLink, 0, -1, 1));
    assert t.inodeTaken[n := true][n := false] == t.inodeTaken;
    assert DeleteNode(SymLinkNode(t, n, b, target), n) == u.(inodes := u.inodes[n := Inode(SymbolicLink, 0, -1, 1)]);
  }

  /** Whether an entry can be added depends on the directory block alone. */
  lemma SameDirectory(t: Tables, u: Tables, name: CString, n: int)
    requires Shape(t) && Shape(u) && 0 < t.p.blocks && t.p == u.p && t.data[0] == u.data[0]
    ensures AddDirEntry(t, name, n).1 == AddDirEntry(u, name, n).1
    ensures !AddDirEntry(u, name, n).1 ==> AddDirEntry(u, name, n).0 == u
  {
  }

  lemma SymLinkStep(t: Tables, target: CString, link: CString)
    requires Core(t) && |target| < t.p.blockSize
    ensures Core(SymLink(t, target, link).0)
    ensures (Abs(SymLink(t, target, link).0), SymLink(t, target, link).1) == A.SymLink(Abs(t), target, link)
  {
    hide DirOk, LinksOk, HandlesOk, BlocksOk, ContentsOk, NodesOf, HandlesOf, Names, LostBlocks, AddDirEntry;
    if ValidPath(target) && ValidPath(link) && target != link {
      FreeInodeAgrees(t);
      BlocksAgree(t);
      var n, b := FirstFree(t.inodeTaken), FirstFree(t.blockTaken);
      if n >= 0 {
        if b < 0 {
          UncreateStep(t, n, SymbolicLink, link[1..]);
        } else {
          assert b != 0;
          var u := SymLinkNode(t, n, b, target);
          SymLinkNodeIs(t, n, b, target);
          BindAgrees(t, link[1..], n);
          SameDirectory(t, u, link[1..], n);
          if A.CanBind(Abs(t), link[1..]) {
            SymLinkBoundStep(t, n, b, target, link[1..]);
          } else {
            SymLinkUndoneStep(t, n, b, target);
          }
        }
      }
    }
  }

  lemma SymLinkNodeIs(t: Tables, n: int, b: int, target: CString)
    requires Shape(t) && n == FirstFree(t.inodeTaken) && n >= 0 && b == FirstFree(t.blockTaken) && b >= 0
    requires |target| < t.p.blockSize
    ensures var t2 := AllocBlock(CreateNode(t, SymbolicLink).0).0;
      && AllocBlock(CreateNode(t, SymbolicLink).0).1 == b && Shape(t2)
      && Store(t2.(inodes := t2.inodes[n := t2.inodes[n].(block := b)]), b, 0, target + [0]) == SymLinkNode(t, n, b, target)
  {
  }

  /** The directory block after an entry was filled and cleared again. */
  function Restored(dir: seq<byte>, i: nat, name: CString, n: int): seq<byte>
    requires i < EntryCapacity(|dir|) && |name| < MAX_FILE_NAME && -0x8000_0000 <= n < 0x8000_0000
    requires |FillSlot(dir, i, name, n)| == |dir|
  {
    FillSlot(FillSlot(dir, i, name, n), i, [], -1)
  }

  lemma OnlyThatName(s: seq<Slot>, i: int, name: CString, n: int)
    requires WellFormed(s) && 0 <= i < |s| && name != [] && IndexInUse(s, name) < 0
    ensures IndexByName(s[i := Slot(name, n)], name) == i
  {
    FindAgrees(s, name);
    var r := s[i := Slot(name, n)];
    assert r[i].name == name;
    assert forall j :: 0 <= j < |s| && j != i ==> r[j].name != name;
  }

  lemma RestoredSlots(dir: seq<byte>, i: nat, name: CString, n: int)
    requires i < EntryCapacity(|dir|) && |name| < MAX_FILE_NAME && -0x8000_0000 <= n < 0x8000_0000
    requires Slots(dir)[i] == Slot([], -1)
    ensures |FillSlot(dir, i, name, n)| == |dir|
    ensures |Restored(dir, i, name, n)| == |dir| && Slots(Restored(dir, i, name, n)) == Slots(dir)
  {
    FillSlotEffect(dir, i, name, n);
    FillSlotEffect(FillSlot(dir, i, name, n), i, [], -1);
    assert Slots(dir)[i := Slot(name, n)][i := Slot([], -1)] == Slots(dir);
  }

  /** A hard link to a symbolic link is refused and the directory is as before. */
  lemma LinkRefused(t: Tables, n: int, name: CString)
    requires Shape(t) && 0 < t.p.blocks && WellFormed(Dir(t)) && AddDirEntry(t, name, n).1
    ensures var i := FreeIndex(Dir(t));
      && i >= 0 && |FillSlot(t.data[0], i, name, n)| == t.p.blockSize
      && var dir := Restored(t.data[0], i, name, n);
      && |dir| == t.p.blockSize && Slots(dir) == Dir(t)
      && Shape(AddDirEntry(t, name, n).0)
      && ClearDirEntry(AddDirEntry(t, name, n).0, name) == (t.(data := t.data[0 := dir]), true)
  {
    hide FillSlot, Slots, SlotAt, IndexByName, IndexInUse, FreeIndex;
    var i := FreeIndex(Dir(t));
    var d := FillSlot(t.data[0], i, name, n);
    FillSlotEffect(t.data[0], i, name, n);
    RestoredSlots(t.data[0], i, name, n);
    OnlyThatName(Dir(t), i, name, n);
    var u := t.(data := t.data[0 := d]);
    assert AddDirEntry(t, name, n).0 == u && Shape(u) && Dir(u) == Slots(d);
    assert u.data[0 := Restored(t.data[0], i, name, n)] == t.data[0 := Restored(t.data[0], i, name, n)];
  }

  lemma RefusedStep(t: Tables, dir: seq<byte>)
    requires Core(t) && |dir| == t.p.blockSize && Slots(dir) == Dir(t)
    ensures Core(t.(data := t.data[0 := dir])) && Abs(t.(data := t.data[0 := dir])) == Abs(t)
  {
    var u := t.(data := t.data[0 := dir]);
    assert Owner(t, ROOT);
    assert forall m :: Owner(u, m) <==> Owner(t, m);
    assert OwnedBlocks(u) == OwnedBlocks(t);
    assert Dir(u) == Dir(t);
    assert Core(u);
    forall m | LiveNode(t, m)
      ensures NodeOf(t, m) == NodeOf(u, m)
    {
      assert Owner(t, m) == Owns(t.inodes[m]);
      SameNode(t, u, m);
    }
    SameNodes(t, u);
  }

  lemma LinkIs(t: Tables, n: int, name: CString)
    requires Core(t) && LiveNode(t, n) && A.CanBind(Abs(t), name)
    ensures var u := AddDirEntry(t, name, n).0; var i := FreeIndex(Dir(t));
      && AddDirEntry(t, name, n).1 && i >= 0 && |u.inodes| == |t.inodes| && u.inodes[n] == t.inodes[n]
      && u.(inodes := u.inodes[n := u.inodes[n].(links := u.inodes[n].links + 1)])
      == Redirect(t, FillSlot(t.data[0], i, name, n), n, t.inodes[n].links + 1)
  {
    BindAgrees(t, name, n);
  }

  lemma DirectoryWellFormed(t: Tables)
    requires Core(t)
    ensures WellFormed(Dir(t))
  {
  }

  lemma LinkStep(t: Tables, target: CString, link: CString)
    requires Core(t)
    ensures Core(Link(t, target, link).0)
    ensures (Abs(Link(t, target, link).0), Link(t, target, link).1) == A.HardLink(Abs(t), target, link)
  {
    hide DirOk, LinksOk, HandlesOk, BlocksOk, ContentsOk, NodesOf, HandlesOf, Names, LostBlocks, AddDirEntry, ClearDirEntry,
         WellFormed, Restored, NodeOf, FillSlot, Slots, IndexInUse, FreeIndex, Redirect;
    FindAgreesPath(t, target);
    var n := Lookup(t, target);
    if ValidPath(link) && n != -1 {
      var name := link[1..];
      NodeFacts(t, n);
      BindAgrees(t, name, n);
      SameDirectory(t, t, name, n);
      if A.CanBind(Abs(t), name) {
        LinkIs(t, n, name);
        if t.inodes[n].kind == SymbolicLink {
          DirectoryWellFormed(t);
          LinkRefused(t, n, name);
          RefusedStep(t, Restored(t.data[0], FreeIndex(Dir(t)), name, n));
        } else {
          BindStep(t, n, FreeIndex(Dir(t)), name);
        }
      }
    }
  }

  lemma UnlinkIs(t: Tables, path: CString)
    requires Core(t) && ValidPath(path) && Lookup(t, path) != -1
    ensures var n := Lookup(t, path); var i := IndexInUse(Dir(t), path[1..]);
      && i >= 0 && Dir(t)[i] == Slot(path[1..], n) && LiveNode(t, n) && t.inodes[n].links > 0
      && var (u, ok) := ClearDirEntry(t, path[1..]);
      && ok && |u.inodes| == |t.inodes| && u.inodes[n] == t.inodes[n]
      && u.(inodes := u.inodes[n := u.inodes[n].(links := Decrement(u.inodes[n].links))])
      == Redirect(t, FillSlot(t.data[0], i, [], -1), n, t.inodes[n].links - 1)
  {
    var i := IndexInUse(Dir(t), path[1..]);
    FindAgrees(Dir(t), path[1..]);
    UnbindReady(t, Lookup(t, path), i);
  }

  lemma UnlinkStep(t: Tables, path: CString)
    requires Core(t)
    ensures Core(Unlink(t, path).0)
    ensures (Abs(Unlink(t, path).0), Unlink(t, path).1) == A.Unlink(Abs(t), path)
  {
    hide DirOk, LinksOk, HandlesOk, BlocksOk, ContentsOk, NodesOf, HandlesOf, Names, LostBlocks, ClearDirEntry;
    FindAgreesPath(t, path);
    var n := Lookup(t, path);
    if n != -1 {
      UnlinkIs(t, path);
      var i := IndexInUse(Dir(t), path[1..]);
      UnbindStep(t, n, i);
      ReapStep(Redirect(t, FillSlot(t.data[0], i, [], -1), n, t.inodes[n].links - 1), n);
    }
  }
}
