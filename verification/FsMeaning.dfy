/**
 What the calls of the file system mean to a caller, in terms of the bytes of paths and contents:
 which paths are refused for their shape, what is read after a write, what names share, what
 truncation and appending do.
 */
module FsMeaning {
  import opened Bytes
  import opened FsTypes
  import opened FsTables
  import opened FsSteps
  import Directory
  import A = AbstractFs

  /** A slash and a name of 1 to 39 bytes. */
  predicate GoodShape(path: CString) {
    2 <= |path| <= 40 && path[0] == 47
  }

  /** At least two bytes, the first of them a slash. */
  predicate LooksAbsolute(path: CString) {
    2 <= |path| && path[0] == 47
  }

  /** The path's name is in the directory. */
  predicate Taken(a: A.Fs, path: CString) {
    path != [] && path[1..] in a.names
  }

  /** Names have 1 to 39 bytes and lead to nodes. */
  ghost predicate Ordinary(a: A.Fs) {
    && -1 !in a.nodes
    && forall x :: x in a.names ==> 1 <= |x| <= 39 && a.names[x] in a.nodes
  }

  /** Every reachable file system is ordinary. */
  lemma ReachableIsOrdinary(t: Tables)
    requires Core(t)
    ensures Ordinary(Abs(t))
  {
    forall x | x in Abs(t).names
      ensures 1 <= |x| <= 39 && Abs(t).names[x] in Abs(t).nodes
    {
      Directory.FindAgrees(Dir(t), x);
    }
  }

  /** An inode, a handle and a directory entry of 44 bytes are free. */
  ghost predicate HasRoom(a: A.Fs) {
    && (exists n :: 1 <= n < a.p.inodes && n !in a.nodes)
    && (exists h :: 0 <= h < a.p.handles && h !in a.handles)
    && |a.names| < a.p.blockSize / 44
  }

  // ---- Shapes of paths ----

  /** Where there is room, opening a new path with create succeeds exactly when it is a slash and a name of 1 to 39 bytes. */
  lemma CreateIff(a: A.Fs, path: CString, mode: Mode) returns (n: int)
    requires Ordinary(a) && HasRoom(a) && !Taken(a, path) && mode.create
    ensures var (b, h) := A.Open(a, path, mode);
      if GoodShape(path) then
        && 0 <= h < a.p.handles && h !in a.handles && 1 <= n < a.p.inodes && n !in a.nodes
        && b == a.(names := a.names[path[1..] := n], nodes := a.nodes[n := A.File([])],
                   handles := a.handles[h := A.Handle(n, 0)])
      else (b, h) == (a, -1)
  {
    n := A.LeastFree(a.nodes.Keys, 1, a.p.inodes);
    assert A.Find(a, path) == -1;
    assert A.Destination(a, path) == path;
  }

  /** Where there is room, a new symbolic link is made exactly when both paths look absolute, differ, and the link's name fits. */
  lemma SymLinkIff(a: A.Fs, target: CString, link: CString) returns (n: int)
    requires Ordinary(a) && HasRoom(a) && !A.OutOfBlocks(a) && !Taken(a, link)
    ensures var (b, r) := A.SymLink(a, target, link);
      if LooksAbsolute(target) && GoodShape(link) && target != link then
        && r == 0 && n !in a.nodes
        && b == a.(names := a.names[link[1..] := n], nodes := a.nodes[n := A.Link(target)])
      else r == -1 && b.names == a.names && b.nodes == a.nodes
  {
    hide A.OutOfBlocks;
    n := A.LeastFree(a.nodes.Keys, 1, a.p.inodes);
  }

  /** Where there is an entry left, a new hard link is made exactly when its target names a file and its own name fits; both then name that file. */
  lemma HardLinkIff(a: A.Fs, target: CString, link: CString)
    requires Ordinary(a) && |a.names| < a.p.blockSize / 44 && !Taken(a, link)
    ensures var (b, r) := A.HardLink(a, target, link);
      if LooksAbsolute(target) && Taken(a, target) && a.nodes[a.names[target[1..]]].File? && GoodShape(link) then
        && r == 0 && b == a.(names := a.names[link[1..] := a.names[target[1..]]])
        && A.Find(b, link) == A.Find(b, target) == a.names[target[1..]]
      else (b, r) == (a, -1)
  {
  }

  /** A path is unlinked exactly when it looks absolute and its name is in the directory, and then it is not. */
  lemma UnlinkIff(a: A.Fs, path: CString)
    requires Ordinary(a)
    ensures var (b, r) := A.Unlink(a, path);
      if LooksAbsolute(path) && Taken(a, path) then r == 0 && b.names == a.names - {path[1..]}
      else (b, r) == (a, -1)
  {
  }

  /** A path that names a file is opened, wherever a handle is free, at its beginning, or at its end to append. */
  lemma OpenExisting(a: A.Fs, path: CString, mode: Mode)
    requires Ordinary(a) && LooksAbsolute(path) && Taken(a, path) && a.nodes[a.names[path[1..]]].File?
    requires exists h :: 0 <= h < a.p.handles && h !in a.handles
    ensures var (b, h) := A.Open(a, path, mode); var n := a.names[path[1..]];
      var content := if mode.truncate then [] else a.nodes[n].content;
      && 0 <= h < a.p.handles && h !in a.handles
      && b == a.(nodes := a.nodes[n := A.File(content)],
                 handles := a.handles[h := A.Handle(n, if mode.append then |content| else 0)])
  {
    assert A.Find(a, path) == a.names[path[1..]];
    assert A.Destination(a, path) == path;
  }

  // ---- Contents ----

  /** Handle h leads to a file, and there its next byte is number off. */
  ghost predicate Stands(a: A.Fs, h: int, off: nat) {
    && h in a.handles && a.handles[h].node in a.nodes && a.nodes[a.handles[h].node].File?
    && var size := |a.nodes[a.handles[h].node].content|;
    size <= a.p.blockSize && off == if a.handles[h].offset < size then a.handles[h].offset else size
  }

  /** As much is written as fits the block; another handle that stands at the same place then reads just that. */
  lemma ReadAfterWrite(a: A.Fs, h: int, k: int, off: nat, buffer: seq<byte>)
    requires Stands(a, h, off) && Stands(a, k, off) && h != k && a.handles[h].node == a.handles[k].node
    requires a.handles[k].offset == off
    requires !A.OutOfBlocks(a)
    ensures var (b, r) := A.Write(a, h, buffer);
      && r == (if off + |buffer| <= a.p.blockSize then |buffer| else a.p.blockSize - off)
      && A.Read(b, k, r).1 == Outcome(r, buffer[..r])
      && Stands(b, h, off + r)
  {
    hide A.OutOfBlocks;
    var (b, r) := A.Write(a, h, buffer);
    var n := a.handles[h].node;
    var content := a.nodes[n].content;
    if r > 0 {
      var after := A.Overwrite(content, off, buffer[..r]);
      assert b.nodes[n].content == after;
      assert after[off..off + r] == buffer[..r];
    } else {
      assert buffer[..r] == [];
      assert content[off..off] == [];
    }
  }

  /** A file opened to append grows by what is written. */
  lemma AppendAfterOpen(a: A.Fs, path: CString, buffer: seq<byte>)
    requires Ordinary(a) && LooksAbsolute(path) && Taken(a, path) && a.nodes[a.names[path[1..]]].File?
    requires exists h :: 0 <= h < a.p.handles && h !in a.handles
    requires |a.nodes[a.names[path[1..]]].content| + |buffer| <= a.p.blockSize && !A.OutOfBlocks(a)
    ensures var n := a.names[path[1..]];
      var (b, h) := A.Open(a, path, Mode(false, false, true));
      var (c, r) := A.Write(b, h, buffer);
      r == |buffer| && n in c.nodes && c.nodes[n] == A.File(a.nodes[n].content + buffer)
  {
    OpenExisting(a, path, Mode(false, false, true));
    var n := a.names[path[1..]];
    var content := a.nodes[n].content;
    var b := A.Open(a, path, Mode(false, false, true)).0;
    assert b.nodes == a.nodes;
    SameBlocks(a, b);
    hide A.Open, A.OutOfBlocks;
    assert buffer[..|buffer|] == buffer;
    assert content[..|content|] == content;
    assert buffer == [] ==> content + buffer == content;
  }

  lemma SameBlocks(a: A.Fs, b: A.Fs)
    requires b.nodes == a.nodes && b.lost == a.lost && b.p == a.p
    ensures A.OutOfBlocks(a) == A.OutOfBlocks(b)
  {
    assert A.BlockUsers(a) == A.BlockUsers(b);
  }

  /** A file opened with truncation is empty. */
  lemma TruncateEmpties(a: A.Fs, path: CString, append: bool)
    requires Ordinary(a) && LooksAbsolute(path) && Taken(a, path) && a.nodes[a.names[path[1..]]].File?
    requires exists h :: 0 <= h < a.p.handles && h !in a.handles
    ensures var (b, h) := A.Open(a, path, Mode(false, true, append));
      Stands(b, h, 0) && b.nodes[b.handles[h].node] == A.File([]) && b.handles[h].offset == 0
  {
    OpenExisting(a, path, Mode(false, true, append));
    hide A.Open;
  }
}
