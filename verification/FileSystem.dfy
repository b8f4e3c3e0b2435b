/** The file system as it runs: fixed tables updated in place by scanning loops. */
module FileSystem {
  import opened Bytes
  import opened Directory
  import opened FsTypes
  import opened FsTables
  import opened FsSteps
  import opened FsRefinement
  import opened FsRuns
  import LinkChains
  import A = AbstractFs

  // ---- Block addressing in the flat data area ----

  /** Where block b starts. */
  function Addr(size: nat, b: nat): nat {
    b * size
  }

  function BlockOf(flat: seq<byte>, size: nat, b: nat): seq<byte> {
    if Addr(size, b) + size <= |flat| then flat[Addr(size, b)..Addr(size, b) + size] else []
  }

  function Blocks(flat: seq<byte>, size: nat, count: nat): (r: seq<seq<byte>>)
    ensures |r| == count && forall b :: 0 <= b < count ==> r[b] == BlockOf(flat, size, b)
  {
    seq(count, b requires 0 <= b < count => BlockOf(flat, size, b))
  }

  lemma {:induction false} AddrMonotone(size: nat, a: nat, b: nat)
    requires a <= b
    ensures Addr(size, a) <= Addr(size, b)
    decreases b
  {
  }

  lemma BlockBounds(size: nat, count: nat, b: nat)
    requires b < count
    ensures Addr(size, b) + size <= Addr(size, count)
  {
    AddrMonotone(size, b + 1, count);
    assert Addr(size, b + 1) == Addr(size, b) + size;
  }

  lemma BlocksApart(size: nat, b: nat, c: nat)
    requires b != c
    ensures Addr(size, b) + size <= Addr(size, c) || Addr(size, c) + size <= Addr(size, b)
  {
    if b < c {
      BlockBounds(size, c, b);
    } else {
      BlockBounds(size, b, c);
    }
  }

  lemma BlockSizes(flat: seq<byte>, size: nat, count: nat)
    requires |flat| == Addr(size, count)
    ensures forall b :: 0 <= b < count ==> |Blocks(flat, size, count)[b]| == size
  {
    hide Addr;
    forall b | 0 <= b < count
      ensures |BlockOf(flat, size, b)| == size
    {
      BlockBounds(size, count, b);
    }
  }

  lemma SpliceInside(flat: seq<byte>, base: nat, size: nat, off: nat, src: seq<byte>)
    requires base + size <= |flat| && off + |src| <= size
    ensures Splice(flat, base + off, src)[base..base + size] == Splice(flat[base..base + size], off, src)
  {
  }

  lemma SpliceBlockAt(flat: seq<byte>, size: nat, count: nat, b: nat, off: nat, src: seq<byte>, c: nat)
    requires |flat| == Addr(size, count) && b < count && off + |src| <= size && c < count
    ensures Addr(size, b) + off + |src| <= |flat| && |BlockOf(flat, size, b)| == size
    ensures BlockOf(Splice(flat, Addr(size, b) + off, src), size, c)
         == if c == b then Splice(BlockOf(flat, size, b), off, src) else BlockOf(flat, size, c)
  {
    hide Addr, Splice;
    BlockBounds(size, count, b);
    BlockBounds(size, count, c);
    if c == b {
      SpliceInside(flat, Addr(size, b), size, off, src);
    } else {
      BlocksApart(size, b, c);
      SpliceOutside(flat, Addr(size, b) + off, src, Addr(size, c), Addr(size, c) + size);
    }
  }

  /** A copy at Addr(b) + off lands in block b and in no other. */
  lemma SpliceBlock(flat: seq<byte>, size: nat, count: nat, b: nat, off: nat, src: seq<byte>)
    requires |flat| == Addr(size, count) && b < count && off + |src| <= size
    ensures Addr(size, b) + off + |src| <= |flat| && |Blocks(flat, size, count)[b]| == size
    ensures Blocks(Splice(flat, Addr(size, b) + off, src), size, count)
         == Blocks(flat, size, count)[b := Splice(Blocks(flat, size, count)[b], off, src)]
  {
    hide Addr, BlockOf, Splice;
    SpliceBlockAt(flat, size, count, b, off, src, b);
    forall c: nat | c < count
      ensures BlockOf(Splice(flat, Addr(size, b) + off, src), size, c)
           == if c == b then Splice(BlockOf(flat, size, b), off, src) else BlockOf(flat, size, c)
    {
      SpliceBlockAt(flat, size, count, b, off, src, c);
    }
  }

  /** Tables on which nothing but the root inode and its block is taken. */
  ghost predicate OnlyRoot(t: Tables) {
    && Shape(t) && RootOk(t)
    && (forall n :: 0 < n < t.p.inodes ==> !t.inodeTaken[n])
    && (forall b :: 0 < b < t.p.blocks ==> !t.blockTaken[b])
    && (forall h :: 0 <= h < t.p.handles ==> !t.fileTaken[h])
    && (forall i :: 0 <= i < |Dir(t)| ==> Dir(t)[i] == Slot([], -1))
  }

  lemma OnlyRootEmpty(t: Tables)
    requires OnlyRoot(t)
    ensures Inv(t) && Abs(t) == A.Empty(t.p)
  {
    assert forall n :: Owner(t, n) ==> n == ROOT;
    assert Core(t);
    assert NameSet(Dir(t)) == {};
    assert Names(Dir(t)) == map[];
    assert NodesOf(t) == map[];
    assert HandlesOf(t) == map[];
    assert Owner(t, ROOT);
    assert TakenBlocks(t) == {0} && 0 in OwnedBlocks(t);
    assert LostBlocks(t) == {};
  }

  lemma ZeroNames(dir: seq<byte>)
    requires forall k :: 0 <= k < |dir| ==> dir[k] == 0
    ensures forall i :: 0 <= i < |Slots(dir)| ==> Slots(dir)[i].name == []
  {
  }

  lemma OwnerBlock(t: Tables, n: int)
    requires Core(t) && LiveNode(t, n) && Owns(t.inodes[n])
    ensures Owner(t, n) && 0 <= t.inodes[n].block < t.p.blocks
  {
  }

  /** Recording the new block before the copy or with it comes to the same. */
  lemma BlockGiven(t: Tables, u: Tables, h: int, n: int, b: int, off: nat, src: seq<byte>)
    requires Shape(t) && 0 <= n < t.p.inodes && 0 <= b < t.p.blocks && off + |src| <= t.p.blockSize && ValidHandle(t, h)
    requires u == t.(blockTaken := t.blockTaken[b := true], inodes := t.inodes[n := t.inodes[n].(block := b)])
    ensures WriteAt(u, h, n, b, off, src) == WriteAt(t.(blockTaken := t.blockTaken[b := true]), h, n, b, off, src)
  {
  }

  lemma TruncateKeeps(t: Tables, n: int)
    requires Core(t) && LiveNode(t, n)
    ensures Shape(Truncate(t, n))
  {
  }

  lemma StoreKeeps(t: Tables, b: int, off: nat, src: seq<byte>)
    requires Shape(t) && 0 <= b < t.p.blocks && off + |src| <= t.p.blockSize
    ensures var u := Store(t, b, off, src);
      && Shape(u) && u.p == t.p && u.inodes == t.inodes && u.inodeTaken == t.inodeTaken && u.blockTaken == t.blockTaken
  {
  }

  class TecnicoFs {
    const p: Params
    const inodes: array<Inode>
    const inodeTaken: array<bool>
    const data: array<byte>
    const blockTaken: array<bool>
    const files: array<OpenFile>
    const fileTaken: array<bool>

    /** The tables have the sizes the parameters give them and do not overlap. */
    ghost predicate Allocated() {
      && 0 < p.blockSize && p.inodes < 0x8000_0000
      && inodes.Length == p.inodes && inodeTaken.Length == p.inodes
      && data.Length == Addr(p.blockSize, p.blocks) && blockTaken.Length == p.blocks
      && files.Length == p.handles && fileTaken.Length == p.handles
      && inodeTaken != blockTaken && inodeTaken != fileTaken && blockTaken != fileTaken
    }

    ghost function View(): Tables
      reads inodes, inodeTaken, data, blockTaken, files, fileTaken
    {
      Tables(p, inodes[..], inodeTaken[..], Blocks(data[..], p.blockSize, p.blocks), blockTaken[..], files[..], fileTaken[..])
    }

    ghost predicate Valid()
      reads inodes, inodeTaken, data, blockTaken, files, fileTaken
    {
      Allocated() && Inv(View())
    }

    /** The file system as its users see it. */
    ghost function Contents(): A.Fs
      requires Valid()
      reads inodes, inodeTaken, data, blockTaken, files, fileTaken
    {
      Abs(View())
    }

    lemma ViewShape()
      requires Allocated()
      ensures Shape(View())
    {
      BlockSizes(data[..], p.blockSize, p.blocks);
    }

    // ---- state_init and tfs_init ----

    /** state_init: every entry FREE. Fresh memory is taken to read as zero. */
    constructor (params: Params)
      requires 0 < params.blockSize && params.inodes < 0x8000_0000
      ensures Allocated() && p == params
      ensures fresh(inodes) && fresh(inodeTaken) && fresh(data) && fresh(blockTaken) && fresh(files) && fresh(fileTaken)
      ensures forall i :: 0 <= i < p.inodes ==> !inodeTaken[i]
      ensures forall b :: 0 <= b < p.blocks ==> !blockTaken[b]
      ensures forall h :: 0 <= h < p.handles ==> !fileTaken[h]
      ensures forall k :: 0 <= k < data.Length ==> data[k] == 0
    {
      p := params;
      inodes := new Inode[params.inodes];
      inodeTaken := new bool[params.inodes](_ => false);
      data := new byte[Addr(params.blockSize, params.blocks)](_ => 0);
      blockTaken := new bool[params.blocks](_ => false);
      files := new OpenFile[params.handles];
      fileTaken := new bool[params.handles](_ => false);
    }

    /** The rest of tfs_init: the root inode, its block and its empty entries. */
    method Mount() returns (ok: bool)
      requires Allocated()
      requires forall i :: 0 <= i < p.inodes ==> !inodeTaken[i]
      requires forall b :: 0 <= b < p.blocks ==> !blockTaken[b]
      requires forall h :: 0 <= h < p.handles ==> !fileTaken[h]
      requires forall k :: 0 <= k < data.Length ==> data[k] == 0
      modifies inodes, inodeTaken, data, blockTaken
      ensures ok <==> p.inodes > 0 && p.blocks > 0
      ensures ok ==> Valid() && Contents() == A.Empty(p)
    {
      ViewShape();
      var n := InodeAlloc();
      if n == -1 {
        return false;
      }
      inodes[n] := inodes[n].(kind := DirectoryFile);
      var b := DataBlockAlloc();
      if b == -1 {
        inodes[n] := inodes[n].(size := 0, block := -1);
        ViewShape();
        InodeDelete(n);
        return false;
      }
      inodes[n] := Inode(DirectoryFile, p.blockSize, b, 1);
      ViewShape();
      BlockBounds(p.blockSize, p.blocks, 0);
      ZeroNames(View().data[0]);
      InitEntries();
      OnlyRootEmpty(View());
      return n == ROOT;
    }

    /** Labels every entry of the root directory as free. */
    method InitEntries()
      requires Allocated() && Shape(View()) && 0 < p.blocks && |Dir(View())| == EntryCapacity(p.blockSize)
      requires forall i :: 0 <= i < |Dir(View())| ==> Dir(View())[i].name == []
      modifies data
      ensures Shape(View()) && View() == old(View()).(data := View().data)
      ensures forall i :: 0 <= i < |Dir(View())| ==> Dir(View())[i] == Slot([], -1)
    {
      hide Slots, SlotAt, Blocks, Splice, Shape;
      for i := 0 to EntryCapacity(p.blockSize)
        invariant Shape(View()) && View() == old(View()).(data := View().data)
        invariant |Dir(View())| == EntryCapacity(p.blockSize)
        invariant forall j :: 0 <= j < |Dir(View())| ==> Dir(View())[j].name == []
        invariant forall j :: 0 <= j < i ==> Dir(View())[j].inum == -1
      {
        ghost var before := Dir(View());
        FreeEntry(i);
        assert Dir(View()) == before[i := Slot([], -1)];
      }
    }

    method FreeEntry(i: nat)
      requires Allocated() && Shape(View()) && 0 < p.blocks && i < EntryCapacity(p.blockSize)
      modifies data
      ensures Shape(View()) && View() == old(View()).(data := View().data)
      ensures Dir(View()) == old(Dir(View()))[i := Slot(old(Dir(View())[i].name), -1)]
    {
      hide Slots, SlotAt, Blocks, Splice;
      SetInumEffect(View().data[0], i, -1);
      StoreBytes(0, i * ENTRY_SIZE + MAX_FILE_NAME, WriteInt32(-1));
    }

    // ---- Allocators ----

    method InodeAlloc() returns (n: int)
      requires Allocated()
      modifies inodeTaken
      ensures n == FirstFree(old(inodeTaken[..]))
      ensures inodeTaken[..] == if n < 0 then old(inodeTaken[..]) else old(inodeTaken[..])[n := true]
    {
      n := ScanFree(inodeTaken);
      if n >= 0 {
        inodeTaken[n] := true;
      }
    }

    method DataBlockAlloc() returns (b: int)
      requires Allocated()
      modifies blockTaken
      ensures b == FirstFree(old(blockTaken[..]))
      ensures blockTaken[..] == if b < 0 then old(blockTaken[..]) else old(blockTaken[..])[b := true]
    {
      b := ScanFree(blockTaken);
      if b >= 0 {
        blockTaken[b] := true;
      }
    }

    /** The scan for the first FREE entry that all three tables use. */
    static method ScanFree(taken: array<bool>) returns (r: int)
      ensures r == FirstFree(taken[..])
    {
      for i := 0 to taken.Length
        invariant forall j :: 0 <= j < i ==> taken[j]
      {
        if !taken[i] {
          return i;
        }
      }
      return -1;
    }

    method StoreBytes(b: int, off: nat, src: seq<byte>)
      requires Allocated() && 0 <= b < p.blocks && off + |src| <= p.blockSize && Shape(View())
      modifies data
      ensures Shape(View()) && View() == Store(old(View()), b, off, src)
    {
      BlockBounds(p.blockSize, p.blocks, b);
      var base := Addr(p.blockSize, b) + off;
      ghost var before := data[..];
      for i := 0 to |src|
        invariant data[..] == before[..base] + src[..i] + before[base + i..]
      {
        data[base + i] := src[i];
      }
      assert data[..] == Splice(before, base, src);
      SpliceBlock(before, p.blockSize, p.blocks, b, off, src);
      ViewShape();
    }

    method LoadBlock(b: int) returns (block: seq<byte>)
      requires Allocated() && 0 <= b < p.blocks
      ensures |block| == p.blockSize && block == View().data[b]
    {
      BlockBounds(p.blockSize, p.blocks, b);
      block := data[Addr(p.blockSize, b)..Addr(p.blockSize, b) + p.blockSize];
    }

    // ---- Inodes ----

    /** inode_create for regular files and symbolic links. */
    method InodeCreate(kind: Kind) returns (n: int)
      requires Allocated() && Shape(View()) && kind != DirectoryFile
      modifies inodes, inodeTaken
      ensures Shape(View()) && (View(), n) == CreateNode(old(View()), kind)
    {
      n := InodeAlloc();
      if n == -1 {
        return;
      }
      inodes[n] := Inode(kind, 0, -1, 1);
    }

    method DataBlockFree(b: int)
      requires Allocated() && Shape(View())
      requires 0 <= b < p.blocks  // ALWAYS_ASSERT(valid_block_number)
      modifies blockTaken
      ensures Shape(View()) && View() == FreeBlock(old(View()), b)
    {
      blockTaken[b] := false;
    }

    method InodeDelete(n: int)
      requires Allocated() && Shape(View())
      requires 0 <= n < p.inodes && inodeTaken[n]  // ALWAYS_ASSERT(valid_inumber), ALWAYS_ASSERT(TAKEN)
      requires inodes[n].size > 0 ==> 0 <= inodes[n].block < p.blocks
      modifies inodes, inodeTaken, blockTaken
      ensures Shape(View()) && View() == DeleteNode(old(View()), n)
    {
      if inodes[n].size > 0 {
        DataBlockFree(inodes[n].block);
      }
      inodes[n] := inodes[n].(size := 0, block := -1, links := 1);
      inodeTaken[n] := false;
    }

    // ---- Directory ----

    method FindInDir(name: CString) returns (n: int)
      requires Allocated() && Shape(View()) && RootOk(View())
      ensures n == FsTables.FindInDir(View(), name)
    {
      hide FillSlot, SlotAt, Blocks, IndexInUse, FreeIndex;
      if !ValidName(name) {
        return -1;
      }
      var dir := LoadBlock(inodes[ROOT].block);
      for i := 0 to EntryCapacity(p.blockSize)
        invariant forall j :: 0 <= j < i ==> Slots(dir)[j].inum == -1 || Slots(dir)[j].name != name
      {
        var slot := SlotAt(dir, i);
        assert Slots(dir)[i] == slot;
        if slot.inum != -1 && slot.name == name {
          return slot.inum;
        }
      }
      return -1;
    }

    method AddDirEntry(name: CString, n: int) returns (ok: bool)
      requires Allocated() && Shape(View()) && RootOk(View())
      modifies data
      ensures Shape(View()) && (View(), ok) == FsTables.AddDirEntry(old(View()), name, n)
    {
      hide FillSlot, SlotAt, Blocks, IndexInUse, FreeIndex;
      if !ValidName(name) || !(0 <= n < p.inodes) {
        return false;
      }
      var dir := LoadBlock(inodes[ROOT].block);
      for i := 0 to EntryCapacity(p.blockSize)
        invariant forall j :: 0 <= j < i ==> Slots(dir)[j].inum == -1 || Slots(dir)[j].name != name
      {
        var slot := SlotAt(dir, i);
        assert Slots(dir)[i] == slot;
        if slot.inum != -1 && slot.name == name {
          return false;
        }
      }
      for i := 0 to EntryCapacity(p.blockSize)
        invariant forall j :: 0 <= j < i ==> Slots(dir)[j].inum != -1
        invariant data[..] == old(data[..])
      {
        assert Slots(dir)[i] == SlotAt(dir, i);
        if SlotAt(dir, i).inum == -1 {
          WriteSlot(inodes[ROOT].block, i, name, n);
          return true;
        }
      }
      return false;
    }

    method WriteSlot(b: int, i: nat, name: CString, n: int)
      requires Allocated() && Shape(View()) && 0 <= b < p.blocks && i < EntryCapacity(p.blockSize)
      requires |name| < MAX_FILE_NAME && -1 <= n < p.inodes
      modifies data
      ensures Shape(View())
      ensures View() == old(View()).(data := old(View()).data[b := FillSlot(old(View()).data[b], i, name, n)])
    {
      StoreBytes(b, i * ENTRY_SIZE + MAX_FILE_NAME, WriteInt32(n));
      StoreBytes(b, i * ENTRY_SIZE, NameField(name));
    }

    method ClearDirEntry(name: CString) returns (ok: bool)
      requires Allocated() && Shape(View()) && RootOk(View())
      modifies data
      ensures Shape(View()) && (View(), ok) == FsTables.ClearDirEntry(old(View()), name)
    {
      hide FillSlot, SlotAt, Blocks, IndexByName;
      if !ValidName(name) {
        return false;
      }
      var dir := LoadBlock(inodes[ROOT].block);
      for i := 0 to EntryCapacity(p.blockSize)
        invariant forall j :: 0 <= j < i ==> Slots(dir)[j].name != name
        invariant data[..] == old(data[..])
      {
        assert Slots(dir)[i] == SlotAt(dir, i);
        if SlotAt(dir, i).name == name {
          WriteSlot(inodes[ROOT].block, i, [], -1);
          return true;
        }
      }
      return false;
    }

    method Lookup(path: CString) returns (n: int)
      requires Allocated() && Shape(View()) && RootOk(View())
      ensures n == FsTables.Lookup(View(), path)
    {
      if inodes[ROOT].block != 0 || !ValidPath(path) {
        return -1;
      }
      n := FindInDir(path[1..]);
    }

    // ---- Open-file table ----

    method IsFileOpen(n: int) returns (r: bool)
      requires Allocated()
      ensures r == (0 <= n < p.inodes && IsOpen(View(), n))
    {
      if !(0 <= n < p.inodes) {
        return false;
      }
      for h := 0 to p.handles
        invariant forall j :: 0 <= j < h ==> !(fileTaken[j] && files[j].inum == n)
      {
        if fileTaken[h] && files[h].inum == n {
          return true;
        }
      }
      return false;
    }

    method AddToOpenFileTable(n: int, offset: nat) returns (h: int)
      requires Allocated() && Shape(View())
      modifies files, fileTaken
      ensures Shape(View()) && (View(), h) == AddHandle(old(View()), n, offset)
    {
      if !(0 <= n < p.inodes) || !inodeTaken[n] {
        return -1;
      }
      h := ScanFree(fileTaken);
      if h >= 0 {
        fileTaken[h] := true;
        files[h] := OpenFile(n, offset);
      }
    }

    // ---- Operations ----

    method TruncateFile(n: int)
      requires Allocated() && Core(View()) && LiveNode(View(), n)
      modifies inodes, blockTaken
      ensures View() == Truncate(old(View()), n)
    {
      if inodes[n].size > 0 {
        OwnerBlock(View(), n);
        DataBlockFree(inodes[n].block);
        inodes[n] := inodes[n].(size := 0);
      }
    }

    /** tfs_open, recursing on the path a symbolic link stores. */
    method OpenPath(path: CString, mode: Mode, ghost hops: nat) returns (h: int)
      requires Allocated() && Core(View()) && Resolves(View(), path, hops)
      modifies inodes, inodeTaken, data, blockTaken, files, fileTaken
      ensures (View(), h) == FsTables.Open(old(View()), path, mode, hops)
      decreases hops
    {
      hide DirOk, LinksOk, HandlesOk, BlocksOk, ContentsOk, Blocks, FsTables.AddDirEntry, Truncate, Slots;
      ghost var t := View();
      if !ValidPath(path) {
        return -1;
      }
      var n := Lookup(path);
      LookupLive(t, path);
      var offset := 0;
      if n >= 0 {
        NodeFacts(t, n);
        assert inodes[n].kind != DirectoryFile;  // ALWAYS_ASSERT
        if inodes[n].kind == SymbolicLink {
          OwnerBlock(t, n);
          var block := LoadBlock(inodes[n].block);
          h := OpenPath(Str(block), mode, hops - 1);
          return;
        }
        TruncateKeeps(t, n);
        if mode.truncate {
          TruncateFile(n);
        }
        if mode.append {
          offset := inodes[n].size;
        }
      } else if mode.create {
        n := InodeCreate(RegularFile);
        if n == -1 {
          return -1;
        }
        ghost var t1 := View();
        var ok := AddDirEntry(path[1..], n);
        if !ok {
          SameDirectory(t1, t1, path[1..], n);
          InodeDelete(n);
          return -1;
        }
      } else {
        return -1;
      }
      h := AddToOpenFileTable(n, offset);
    }

    method RemoveFromOpenFileTable(h: int) returns (r: int)
      requires Allocated() && Core(View())
      modifies inodes, inodeTaken, blockTaken, fileTaken
      ensures (View(), r) == FsTables.Close(old(View()), h)
    {
      ghost var t := View();
      if !(0 <= h < p.handles) || !fileTaken[h] {
        return -1;
      }
      var n := files[h].inum;
      assert 0 <= n < p.inodes && inodeTaken[n];  // ALWAYS_ASSERT: content not deleted before closing
      fileTaken[h] := false;
      var open := IsFileOpen(n);
      if inodes[n].links == 0 && !open {
        assert inodes[n].size > 0 ==> Owner(t, n);
        InodeDelete(n);
      }
      assert View() == FsTables.Close(t, h).0;
      return 0;
    }

    /** The memcpy of a write and the offset and size it leaves. */
    method CopyIn(h: int, n: int, off: nat, src: seq<byte>)
      requires Allocated() && Shape(View()) && ValidHandle(View(), h) && 0 <= n < p.inodes
      requires 0 <= inodes[n].block < p.blocks && off + |src| <= p.blockSize
      modifies inodes, data, files
      ensures View() == WriteAt(old(View()), h, n, old(inodes[n].block), off, src)
    {
      hide Blocks, Splice;
      StoreBytes(inodes[n].block, off, src);
      files[h] := files[h].(offset := off + |src|);
      if files[h].offset > inodes[n].size {
        inodes[n] := inodes[n].(size := files[h].offset);
      }
    }

    method WriteToOpenFile(h: int, buffer: seq<byte>) returns (r: int)
      requires Allocated() && Core(View())
      modifies inodes, data, blockTaken, files
      ensures (View(), r) == FsTables.Write(old(View()), h, buffer)
    {
      hide DirOk, LinksOk, HandlesOk, BlocksOk, ContentsOk, Blocks, Splice, WriteAt;
      ghost var t := View();
      if !(0 <= h < p.handles) || !fileTaken[h] {
        return -1;
      }
      var n := files[h].inum;
      HandleLive(t, h);
      if files[h].offset > inodes[n].size {
        files[h] := files[h].(offset := inodes[n].size);
      }
      var off := files[h].offset;
      ghost var t0 := View();
      assert t0 == SetOffset(t, h, off);
      var toWrite := |buffer|;
      if toWrite + off > p.blockSize {
        toWrite := p.blockSize - off;
      }
      if toWrite > 0 {
        if inodes[n].size == 0 {
          var b := DataBlockAlloc();
          if b == -1 {
            return -1;
          }
          inodes[n] := inodes[n].(block := b);
          ghost var t1 := View();
          CopyIn(h, n, off, buffer[..toWrite]);
          BlockGiven(t0, t1, h, n, b, off, buffer[..toWrite]);
        } else {
          OwnerBlock(t, n);
          CopyIn(h, n, off, buffer[..toWrite]);
        }
      }
      return toWrite;
    }

    method ReadFromOpenFile(h: int, len: nat) returns (r: int, bytes: seq<byte>)
      requires Allocated() && Core(View())
      modifies files
      ensures (View(), Outcome(r, bytes)) == FsTables.Read(old(View()), h, len)
    {
      ghost var t := View();
      if !(0 <= h < p.handles) || !fileTaken[h] {
        return -1, [];
      }
      var n := files[h].inum;
      HandleLive(t, h);
      if files[h].offset > inodes[n].size {
        files[h] := files[h].(offset := inodes[n].size);
      }
      var off := files[h].offset;
      var toRead := inodes[n].size - off;
      if toRead > len {
        toRead := len;
      }
      bytes := [];
      if toRead > 0 {
        assert Owner(t, n);
        var block := LoadBlock(inodes[n].block);
        bytes := block[off..off + toRead];
        files[h] := files[h].(offset := off + toRead);
      }
      assert View() == FsTables.Read(t, h, len).0;
      return toRead, bytes;
    }

    method MakeSymLink(target: CString, link: CString) returns (r: int)
      requires Allocated() && Core(View()) && |target| < p.blockSize
      modifies inodes, inodeTaken, data, blockTaken
      ensures (View(), r) == FsTables.SymLink(old(View()), target, link)
    {
      hide DirOk, LinksOk, HandlesOk, BlocksOk, ContentsOk, Blocks, Splice, FsTables.AddDirEntry, Store;
      ghost var t := View();
      if !ValidPath(target) || !ValidPath(link) || target == link {
        return -1;
      }
      var n := InodeCreate(SymbolicLink);
      if n == -1 {
        return -1;
      }
      ghost var t1 := View();
      var b := DataBlockAlloc();
      if b == -1 {
        InodeDelete(n);
        return -1;
      }
      assert View() == AllocBlock(t1).0;
      inodes[n] := inodes[n].(block := b);
      ViewShape();
      ghost var t3 := View();
      assert RootOk(t3);
      StoreBytes(b, 0, target + [0]);
      ghost var t4 := View();
      StoreKeeps(t3, b, 0, target + [0]);
      var ok := AddDirEntry(link[1..], n);
      if !ok {
        SameDirectory(t4, t4, link[1..], n);
        InodeDelete(n);
        return -1;
      }
      return 0;
    }

    method MakeLink(target: CString, link: CString) returns (r: int)
      requires Allocated() && Core(View())
      modifies inodes, data
      ensures (View(), r) == FsTables.Link(old(View()), target, link)
    {
      hide LinksOk, HandlesOk, BlocksOk, ContentsOk, DirOk, FsTables.ClearDirEntry, FsTables.Lookup, FillSlot;
      ghost var t := View();
      if !ValidPath(target) || !ValidPath(link) {
        return -1;
      }
      var n := Lookup(target);
      LookupLive(t, target);
      if n == -1 {
        return -1;
      }
      var ok := AddDirEntry(link[1..], n);
      if !ok {
        return -1;
      }
      if inodes[n].kind == SymbolicLink {
        ok := ClearDirEntry(link[1..]);
        return -1;
      }
      inodes[n] := inodes[n].(links := inodes[n].links + 1);
      assert View() == FsTables.Link(t, target, link).0;
      return 0;
    }

    method RemoveLink(path: CString) returns (r: int)
      requires Allocated() && Core(View())
      modifies inodes, inodeTaken, data, blockTaken
      ensures (View(), r) == FsTables.Unlink(old(View()), path)
    {
      ghost var t := View();
      if !ValidPath(path) {
        return -1;
      }
      var n := Lookup(path);
      LookupLive(t, path);
      if n == -1 {
        return -1;
      }
      assert inodes[n].kind != DirectoryFile;  // ALWAYS_ASSERT
      var ok := ClearDirEntry(path[1..]);
      if !ok {
        return -1;
      }
      inodes[n] := inodes[n].(links := Decrement(inodes[n].links));
      var open := IsFileOpen(n);
      if inodes[n].links == 0 && !open {
        assert t.inodes[n].size > 0 ==> Owner(t, n);
        InodeDelete(n);
      }
      assert View() == FsTables.Unlink(t, path).0;
      return 0;
    }

    // ---- The operations against the abstract file system ----

    method Open(path: CString, mode: Mode) returns (h: int)
      requires Valid() && A.Terminates(Contents(), path)
      modifies inodes, inodeTaken, data, blockTaken, files, fileTaken
      ensures Valid() && (Contents(), h) == A.Open(old(Contents()), path, mode)
    {
      hide Core, Referenced, FsTables.Open, A.Open;
      ghost var t := View();
      ghost var hops := |A.LinkNames(Abs(t))|;
      LinkChains.TerminatesIff(Abs(t), path);
      ResolvesAgrees(t, path, hops);
      h := OpenPath(path, mode, hops);
      CallRefines(t, Call.Open(path, mode));
    }

    method Close(h: int) returns (r: int)
      requires Valid()
      modifies inodes, inodeTaken, blockTaken, fileTaken
      ensures Valid() && (Contents(), r) == A.Close(old(Contents()), h)
    {
      hide Core, Referenced, FsTables.Close, A.Close;
      ghost var t := View();
      r := RemoveFromOpenFileTable(h);
      CallRefines(t, Call.Close(h));
    }

    method Write(h: int, buffer: seq<byte>) returns (r: int)
      requires Valid()
      modifies inodes, data, blockTaken, files
      ensures Valid() && (Contents(), r) == A.Write(old(Contents()), h, buffer)
    {
      hide Core, Referenced, FsTables.Write, A.Write;
      ghost var t := View();
      r := WriteToOpenFile(h, buffer);
      CallRefines(t, Call.Write(h, buffer));
    }

    method Read(h: int, len: nat) returns (r: int, bytes: seq<byte>)
      requires Valid()
      modifies files
      ensures Valid() && (Contents(), Outcome(r, bytes)) == A.Read(old(Contents()), h, len)
    {
      hide Core, Referenced, FsTables.Read, A.Read;
      ghost var t := View();
      r, bytes := ReadFromOpenFile(h, len);
      CallRefines(t, Call.Read(h, len));
    }

    method SymLink(target: CString, link: CString) returns (r: int)
      requires Valid() && |target| < p.blockSize
      modifies inodes, inodeTaken, data, blockTaken
      ensures Valid() && (Contents(), r) == A.SymLink(old(Contents()), target, link)
    {
      hide Core, Referenced, FsTables.SymLink, A.SymLink;
      ghost var t := View();
      r := MakeSymLink(target, link);
      CallRefines(t, Call.SymLink(target, link));
    }

    method Link(target: CString, link: CString) returns (r: int)
      requires Valid()
      modifies inodes, data
      ensures Valid() && (Contents(), r) == A.HardLink(old(Contents()), target, link)
    {
      hide Core, Referenced, FsTables.Link, A.HardLink;
      ghost var t := View();
      r := MakeLink(target, link);
      CallRefines(t, Call.Link(target, link));
    }

    method Unlink(path: CString) returns (r: int)
      requires Valid()
      modifies inodes, inodeTaken, data, blockTaken
      ensures Valid() && (Contents(), r) == A.Unlink(old(Contents()), path)
    {
      hide Core, Referenced, FsTables.Unlink, A.Unlink;
      ghost var t := View();
      r := RemoveLink(path);
      CallRefines(t, Call.Unlink(path));
    }
  }
}
