/**
 The persistent and volatile tables of TecnicoFS as one value, the invariant that ties
 them together, and every operation of fs/state.c and fs/operations.c as a function from
 tables to tables, step by step as the C code updates them.
 */
module FsTables {
  import opened Bytes
  import opened Directory
  import opened FsTypes

  const ROOT: nat := 0

  datatype Kind = RegularFile | DirectoryFile | SymbolicLink
  datatype Inode = Inode(kind: Kind, size: nat, block: int, links: nat)
  datatype OpenFile = OpenFile(inum: int, offset: nat)

  datatype Tables = Tables(
    p: Params,
    inodes: seq<Inode>, inodeTaken: seq<bool>,
    data: seq<seq<byte>>, blockTaken: seq<bool>,
    files: seq<OpenFile>, fileTaken: seq<bool>)

  // ---- Invariant ----

  ghost predicate Shape(t: Tables) {
    && 0 < t.p.blockSize && t.p.inodes < 0x8000_0000
    && |t.inodes| == t.p.inodes && |t.inodeTaken| == t.p.inodes
    && |t.data| == t.p.blocks && |t.blockTaken| == t.p.blocks
    && |t.files| == t.p.handles && |t.fileTaken| == t.p.handles
    && forall b :: 0 <= b < |t.data| ==> |t.data[b]| == t.p.blockSize
  }

  ghost predicate RootOk(t: Tables)
    requires Shape(t)
  {
    && 0 < t.p.inodes && 0 < t.p.blocks
    && t.inodeTaken[ROOT] && t.blockTaken[0]
    && t.inodes[ROOT].kind == DirectoryFile && t.inodes[ROOT].block == 0 && t.inodes[ROOT].size == t.p.blockSize
  }

  function Dir(t: Tables): seq<Slot>
    requires 0 < |t.data|
  {
    Slots(t.data[0])
  }

  ghost predicate LiveNode(t: Tables, n: int) {
    0 < n < |t.inodeTaken| && t.inodeTaken[n]
  }

  /** Every used entry names a live inode other than the root. */
  ghost predicate SlotsLive(t: Tables, s: seq<Slot>) {
    forall i :: 0 <= i < |s| && s[i].inum != -1 ==> LiveNode(t, s[i].inum)
  }

  ghost predicate DirOk(t: Tables)
    requires Shape(t) && RootOk(t)
  {
    WellFormed(Dir(t)) && SlotsLive(t, Dir(t))
  }

  ghost predicate LinksOk(t: Tables)
    requires Shape(t) && RootOk(t)
  {
    forall n :: LiveNode(t, n) ==>
      t.inodes[n].kind != DirectoryFile && t.inodes[n].links == |EntriesOf(Dir(t), n)|
  }

  ghost predicate HandlesOk(t: Tables)
    requires Shape(t)
  {
    forall h :: 0 <= h < |t.fileTaken| && t.fileTaken[h] ==>
      LiveNode(t, t.files[h].inum) && t.inodes[t.files[h].inum].kind == RegularFile
  }

  /** An inode owns its data block when it is a symbolic link or is not empty. */
  predicate Owns(i: Inode) {
    i.kind == SymbolicLink || i.size > 0
  }

  ghost predicate Owner(t: Tables, n: int)
    requires Shape(t)
  {
    0 <= n < |t.inodeTaken| && t.inodeTaken[n] && Owns(t.inodes[n])
  }

  ghost predicate BlocksOk(t: Tables)
    requires Shape(t)
  {
    && (forall n :: Owner(t, n) ==> 0 <= t.inodes[n].block < t.p.blocks && t.blockTaken[t.inodes[n].block])
    && (forall n, m :: Owner(t, n) && Owner(t, m) && n != m ==> t.inodes[n].block != t.inodes[m].block)
  }

  ghost predicate ContentsOk(t: Tables)
    requires Shape(t) && BlocksOk(t)
  {
    && (forall n :: LiveNode(t, n) ==> t.inodes[n].size <= t.p.blockSize)
    && (forall n :: Owner(t, n) && t.inodes[n].kind == SymbolicLink ==>
          && t.inodes[n].size == 0
          && StrLen(t.data[t.inodes[n].block]) < t.p.blockSize
          && ValidPath(Str(t.data[t.inodes[n].block])))
  }

  /** Everything but reclamation: holds also between dropping a reference and reaping the inode. */
  ghost predicate Core(t: Tables) {
    Shape(t) && RootOk(t) && DirOk(t) && LinksOk(t) && HandlesOk(t) && BlocksOk(t) && ContentsOk(t)
  }

  ghost predicate Referenced(t: Tables, n: int)
    requires Shape(t) && RootOk(t)
  {
    EntriesOf(Dir(t), n) != {} || IsOpen(t, n)
  }

  /** Core, and no live inode without a name or an open handle. */
  ghost predicate Inv(t: Tables) {
    Core(t) && forall n :: LiveNode(t, n) ==> Referenced(t, n)
  }

  // ---- Allocators ----

  /** Index of the first false; -1 if there is none. */
  function FirstFree(s: seq<bool>): (r: int)
    ensures -1 <= r < |s|
    ensures r >= 0 ==> !s[r] && forall j :: 0 <= j < r ==> s[j]
    ensures r < 0 ==> forall j :: 0 <= j < |s| ==> s[j]
  {
    if s == [] then -1
    else if !s[0] then 0
    else
      var r := FirstFree(s[1..]);
      if r < 0 then -1 else r + 1
  }

  /** inode_create for files and symbolic links. */
  function CreateNode(t: Tables, kind: Kind): (Tables, int)
    requires Shape(t)
  {
    var n := FirstFree(t.inodeTaken);
    if n < 0 then (t, -1)
    else (t.(inodeTaken := t.inodeTaken[n := true], inodes := t.inodes[n := Inode(kind, 0, -1, 1)]), n)
  }

  function AllocBlock(t: Tables): (Tables, int)
    requires Shape(t)
  {
    var b := FirstFree(t.blockTaken);
    if b < 0 then (t, -1) else (t.(blockTaken := t.blockTaken[b := true]), b)
  }

  function FreeBlock(t: Tables, b: int): Tables
    requires Shape(t) && 0 <= b < t.p.blocks
  {
    t.(blockTaken := t.blockTaken[b := false])
  }

  /** inode_delete. */
  function DeleteNode(t: Tables, n: int): Tables
    requires Shape(t) && 0 <= n < t.p.inodes
    requires t.inodes[n].size > 0 ==> 0 <= t.inodes[n].block < t.p.blocks
  {
    var t1 := if t.inodes[n].size > 0 then FreeBlock(t, t.inodes[n].block) else t;
    t1.(inodes := t1.inodes[n := t1.inodes[n].(size := 0, block := -1, links := 1)],
        inodeTaken := t1.inodeTaken[n := false])
  }

  /** memcpy into block b at an offset. */
  function Store(t: Tables, b: int, off: nat, src: seq<byte>): Tables
    requires Shape(t) && 0 <= b < t.p.blocks && off + |src| <= t.p.blockSize
  {
    t.(data := t.data[b := Splice(t.data[b], off, src)])
  }

  // ---- Directory ----

  function FillSlot(dir: seq<byte>, i: nat, name: CString, n: int): seq<byte>
    requires i < EntryCapacity(|dir|) && |name| < MAX_FILE_NAME && -0x8000_0000 <= n < 0x8000_0000
  {
    SetName(SetInum(dir, i, n), i, name)
  }

  function AddDirEntry(t: Tables, name: CString, n: int): (Tables, bool)
    requires Shape(t) && 0 < t.p.blocks
  {
    if !ValidName(name) || !(0 <= n < t.p.inodes) then (t, false)
    else if IndexInUse(Dir(t), name) >= 0 then (t, false)
    else
      var i := FreeIndex(Dir(t));
      if i < 0 then (t, false)
      else (t.(data := t.data[0 := FillSlot(t.data[0], i, name, n)]), true)
  }

  function ClearDirEntry(t: Tables, name: CString): (Tables, bool)
    requires Shape(t) && 0 < t.p.blocks
  {
    if !ValidName(name) then (t, false)
    else
      var i := IndexByName(Dir(t), name);
      if i < 0 then (t, false)
      else (t.(data := t.data[0 := FillSlot(t.data[0], i, [], -1)]), true)
  }

  function FindInDir(t: Tables, name: CString): int
    requires 0 < |t.data|
  {
    if !ValidName(name) then -1
    else
      var i := IndexInUse(Dir(t), name);
      if i < 0 then -1 else Dir(t)[i].inum
  }

  /** tfs_lookup: the path without its leading slash, looked up in the root. */
  function Lookup(t: Tables, path: CString): int
    requires 0 < |t.data|
  {
    if !ValidPath(path) then -1 else FindInDir(t, path[1..])
  }

  // ---- Open-file table ----

  predicate IsOpen(t: Tables, n: int)
    requires |t.files| == |t.fileTaken|
  {
    exists h :: 0 <= h < |t.fileTaken| && t.fileTaken[h] && t.files[h].inum == n
  }

  function AddHandle(t: Tables, n: int, offset: nat): (Tables, int)
    requires Shape(t)
  {
    if !(0 <= n < t.p.inodes) || !t.inodeTaken[n] then (t, -1)
    else
      var h := FirstFree(t.fileTaken);
      if h < 0 then (t, -1)
      else (t.(fileTaken := t.fileTaken[h := true], files := t.files[h := OpenFile(n, offset)]), h)
  }

  predicate ValidHandle(t: Tables, h: int)
    requires |t.files| == |t.fileTaken|
  {
    0 <= h < |t.fileTaken| && t.fileTaken[h]
  }

  lemma LookupLive(t: Tables, path: CString)
    requires Core(t)
    ensures Lookup(t, path) == -1 || LiveNode(t, Lookup(t, path))
  {
  }

  // ---- tfs_open ----

  /** The path stored in the symbolic link a path names, if it names one. */
  function Target(t: Tables, path: CString): Option<CString>
    requires Core(t)
  {
    LookupLive(t, path);
    var n := Lookup(t, path);
    if n >= 0 && t.inodes[n].kind == SymbolicLink then
      assert Owner(t, n);
      Some(Str(t.data[t.inodes[n].block]))
    else None
  }

  /** Following k symbolic links is enough to leave the chain that starts at a path. */
  predicate Resolves(t: Tables, path: CString, k: nat)
    requires Core(t)
    decreases k
  {
    match Target(t, path)
    case None => true
    case Some(next) => k > 0 && Resolves(t, next, k - 1)
  }

  function Truncate(t: Tables, n: int): Tables
    requires Core(t) && LiveNode(t, n)
  {
    if t.inodes[n].size > 0 then
      assert Owner(t, n);
      var t1 := FreeBlock(t, t.inodes[n].block);
      t1.(inodes := t1.inodes[n := t1.inodes[n].(size := 0)])
    else t
  }

  /** tfs_open on a path that is not a symbolic link. */
  function OpenHere(t: Tables, path: CString, mode: Mode): (Tables, int)
    requires Core(t)
  {
    if !ValidPath(path) then (t, -1)
    else
      LookupLive(t, path);
      var n := Lookup(t, path);
      if n >= 0 then
        var t1 := if mode.truncate then Truncate(t, n) else t;
        AddHandle(t1, n, if mode.append then t1.inodes[n].size else 0)
      else if mode.create then
        var (t1, n) := CreateNode(t, RegularFile);
        if n == -1 then (t, -1)
        else
          var (t2, ok) := AddDirEntry(t1, path[1..], n);
          if ok then AddHandle(t2, n, 0) else (DeleteNode(t2, n), -1)
      else (t, -1)
  }

  /** tfs_open: a symbolic link is opened by opening the path it stores. */
  function Open(t: Tables, path: CString, mode: Mode, hops: nat): (Tables, int)
    requires Core(t) && Resolves(t, path, hops)
    decreases hops
  {
    match Target(t, path)
    case Some(next) => Open(t, next, mode, hops - 1)
    case None => OpenHere(t, path, mode)
  }

  // ---- tfs_close, tfs_write, tfs_read ----

  /** The reaping test shared by tfs_close and tfs_unlink. */
  function Reap(t: Tables, n: int): Tables
    requires Core(t) && LiveNode(t, n)
  {
    assert t.inodes[n].size > 0 ==> Owner(t, n);
    if t.inodes[n].links == 0 && !IsOpen(t, n) then DeleteNode(t, n) else t
  }

  function Close(t: Tables, h: int): (Tables, int)
    requires Core(t)
  {
    if !ValidHandle(t, h) then (t, -1)
    else
      var n := t.files[h].inum;
      var t1 := t.(fileTaken := t.fileTaken[h := false]);
      assert Core(t1);
      (Reap(t1, n), 0)
  }

  function SetOffset(t: Tables, h: int, offset: nat): Tables
    requires Shape(t) && ValidHandle(t, h)
  {
    t.(files := t.files[h := t.files[h].(offset := offset)])
  }

  function Write(t: Tables, h: int, buffer: seq<byte>): (Tables, int)
    requires Core(t)
  {
    if !ValidHandle(t, h) then (t, -1)
    else
      var n := t.files[h].inum;
      var size := t.inodes[n].size;
      var off := Min(t.files[h].offset, size);
      var t0 := SetOffset(t, h, off);
      var len := Min(|buffer|, t.p.blockSize - off);
      if len == 0 then (t0, 0)
      else if size > 0 then
        assert Owner(t, n);
        (WriteAt(t0, h, n, t0.inodes[n].block, off, buffer[..len]), len)
      else
        var (t1, b) := AllocBlock(t0);
        if b == -1 then (t0, -1)
        else (WriteAt(t1, h, n, b, off, buffer[..len]), len)
  }

  /** The copy itself, and the new offset and size. */
  function WriteAt(t: Tables, h: int, n: int, b: int, off: nat, src: seq<byte>): Tables
    requires Shape(t) && ValidHandle(t, h) && 0 <= n < t.p.inodes
    requires 0 <= b < t.p.blocks && off + |src| <= t.p.blockSize
  {
    var end := off + |src|;
    var t1 := SetOffset(Store(t, b, off, src), h, end);
    var i := t1.inodes[n];
    t1.(inodes := t1.inodes[n := i.(block := b, size := if end > i.size then end else i.size)])
  }

  function Read(t: Tables, h: int, len: nat): (Tables, Outcome)
    requires Core(t)
  {
    if !ValidHandle(t, h) then (t, Outcome(-1, []))
    else
      var n := t.files[h].inum;
      var size := t.inodes[n].size;
      var off := Min(t.files[h].offset, size);
      var count := Min(len, size - off);
      if count == 0 then (SetOffset(t, h, off), Outcome(0, []))
      else
        assert Owner(t, n);
        (SetOffset(t, h, off + count), Outcome(count, t.data[t.inodes[n].block][off..off + count]))
  }

  // ---- tfs_sym_link, tfs_link, tfs_unlink ----

  function SymLink(t: Tables, target: CString, link: CString): (Tables, int)
    requires Core(t) && |target| < t.p.blockSize
  {
    if !ValidPath(target) || !ValidPath(link) || target == link then (t, -1)
    else
      var (t1, n) := CreateNode(t, SymbolicLink);
      if n == -1 then (t, -1)
      else
        var (t2, b) := AllocBlock(t1);
        if b == -1 then (DeleteNode(t1, n), -1)
        else
          var t3 := t2.(inodes := t2.inodes[n := t2.inodes[n].(block := b)]);
          var t4 := Store(t3, b, 0, target + [0]);
          var (t5, ok) := AddDirEntry(t4, link[1..], n);
          if ok then (t5, 0) else (DeleteNode(t5, n), -1)
  }

  function Link(t: Tables, target: CString, link: CString): (Tables, int)
    requires Core(t)
  {
    if !ValidPath(target) || !ValidPath(link) then (t, -1)
    else
      LookupLive(t, target);
      var n := Lookup(t, target);
      if n == -1 then (t, -1)
      else
        var (t1, ok) := AddDirEntry(t, link[1..], n);
        if !ok then (t, -1)
        else if t1.inodes[n].kind == SymbolicLink then (ClearDirEntry(t1, link[1..]).0, -1)
        else (t1.(inodes := t1.inodes[n := t1.inodes[n].(links := t1.inodes[n].links + 1)]), 0)
  }

  function Unlink(t: Tables, path: CString): (Tables, int)
    requires Core(t)
  {
    if !ValidPath(path) then (t, -1)
    else
      LookupLive(t, path);
      var n := Lookup(t, path);
      if n == -1 then (t, -1)
      else
        var (t1, ok) := ClearDirEntry(t, path[1..]);
        if !ok then (t, -1)
        else
          var t2 := t1.(inodes := t1.inodes[n := t1.inodes[n].(links := Decrement(t1.inodes[n].links))]);
          var reap := t2.inodes[n].links == 0 && !IsOpen(t2, n);
          assert t.inodes[n].size > 0 ==> Owner(t, n);
          (if reap then DeleteNode(t2, n) else t2, 0)
  }
}
