/**
 TecnicoFS as its users see it: names bound to nodes, nodes holding bytes or a link target,
 and handles with an offset. Limits of the tables appear only as capacities. Nothing here
 mentions tables, blocks, directory slots or link counts.
 */
module AbstractFs {
  import opened Bytes
  import opened FsTypes
  import Directory

  datatype Node = File(content: seq<byte>) | Link(target: CString)
  datatype Handle = Handle(node: int, offset: nat)

  /** lost counts the blocks that removed or refused symbolic links never gave back. */
  datatype Fs = Fs(
    p: Params,
    names: map<CString, int>,
    nodes: map<int, Node>,
    handles: map<int, Handle>,
    lost: nat)

  /** A file system that was just initialised. */
  function Empty(p: Params): Fs {
    Fs(p, map[], map[], map[], 0)
  }

  // ---- Capacities ----

  /** The least number from lo up to hi that is not in use; -1 if there is none. */
  function LeastFree(used: set<int>, lo: int, hi: int): (r: int)
    ensures r == -1 || lo <= r < hi
    ensures lo >= 0 && r >= 0 ==> r !in used && forall j :: lo <= j < r ==> j in used
    ensures lo >= 0 && r < 0 ==> forall j :: lo <= j < hi ==> j in used
    decreases hi - lo
  {
    if lo >= hi then -1 else if lo !in used then lo else LeastFree(used, lo + 1, hi)
  }

  /** A node needs a block when it is a link or a non-empty file. */
  predicate NeedsBlock(x: Node) {
    x.Link? || x.content != []
  }

  ghost function BlockUsers(a: Fs): set<int> {
    set n | n in a.nodes && NeedsBlock(a.nodes[n])
  }

  /** Every block is the root's, some node's, or lost. */
  ghost predicate OutOfBlocks(a: Fs) {
    1 + |BlockUsers(a)| + a.lost >= a.p.blocks
  }

  ghost predicate CanBind(a: Fs, name: CString) {
    ValidName(name) && name !in a.names && |a.names| < Directory.EntryCapacity(a.p.blockSize)
  }

  predicate HasHandle(a: Fs, n: int) {
    exists h :: h in a.handles && a.handles[h].node == n
  }

  // ---- Path resolution ----

  function Find(a: Fs, path: CString): int {
    if ValidPath(path) && ValidName(path[1..]) && path[1..] in a.names then a.names[path[1..]] else -1
  }

  function Next(a: Fs, path: CString): Option<CString> {
    var n := Find(a, path);
    if n != -1 && n in a.nodes && a.nodes[n].Link? then Some(a.nodes[n].target) else None
  }

  /** Path after following k links, or as many as there are. */
  function Follow(a: Fs, path: CString, k: nat): CString
    decreases k
  {
    match Next(a, path)
    case None => path
    case Some(next) => if k == 0 then path else Follow(a, next, k - 1)
  }

  /** The names that are symbolic links. */
  ghost function LinkNames(a: Fs): set<CString> {
    set x | x in a.names && a.names[x] in a.nodes && a.nodes[a.names[x]].Link?
  }

  /** Where a path leads when every link on the way is followed at most once. */
  ghost function Destination(a: Fs, path: CString): CString {
    Follow(a, path, |LinkNames(a)|)
  }

  /** The chain of links that starts at a path comes to an end. */
  ghost predicate Terminates(a: Fs, path: CString) {
    Next(a, Destination(a, path)) == None
  }

  // ---- Operations ----

  function NewHandle(a: Fs, n: int, offset: nat): (Fs, int) {
    var h := LeastFree(a.handles.Keys, 0, a.p.handles);
    if h == -1 then (a, -1) else (a.(handles := a.handles[h := Handle(n, offset)]), h)
  }

  ghost function OpenAt(a: Fs, path: CString, mode: Mode): (Fs, int) {
    if !ValidPath(path) then (a, -1)
    else
      var n := Find(a, path);
      if n in a.nodes then
        if a.nodes[n].Link? then (a, -1)
        else
          var content := if mode.truncate then [] else a.nodes[n].content;
          NewHandle(a.(nodes := a.nodes[n := File(content)]), n, if mode.append then |content| else 0)
      else if mode.create then
        var m := LeastFree(a.nodes.Keys, 1, a.p.inodes);
        if m == -1 || !CanBind(a, path[1..]) then (a, -1)
        else NewHandle(a.(names := a.names[path[1..] := m], nodes := a.nodes[m := File([])]), m, 0)
      else (a, -1)
  }

  /** Opening a path opens the name its links lead to. */
  ghost function Open(a: Fs, path: CString, mode: Mode): (Fs, int) {
    OpenAt(a, Destination(a, path), mode)
  }

  /** A node lives as long as a name or a handle refers to it. */
  function Collect(a: Fs, n: int): Fs {
    if n in a.names.Values || HasHandle(a, n) || n !in a.nodes then a
    else a.(nodes := a.nodes - {n}, lost := a.lost + if a.nodes[n].Link? then 1 else 0)
  }

  function Close(a: Fs, h: int): (Fs, int) {
    if h !in a.handles then (a, -1)
    else (Collect(a.(handles := a.handles - {h}), a.handles[h].node), 0)
  }

  function Overwrite(content: seq<byte>, off: nat, src: seq<byte>): seq<byte>
    requires off <= |content|
  {
    content[..off] + src + if off + |src| < |content| then content[off + |src|..] else []
  }

  ghost function Write(a: Fs, h: int, buffer: seq<byte>): (Fs, int) {
    if h !in a.handles || a.handles[h].node !in a.nodes || a.nodes[a.handles[h].node].Link? then (a, -1)
    else
      var n := a.handles[h].node;
      var content := a.nodes[n].content;
      var off := Min(a.handles[h].offset, |content|);
      var count := Min(|buffer|, a.p.blockSize - off);
      var clamped := a.(handles := a.handles[h := Handle(n, off)]);
      if count <= 0 then (clamped, 0)
      else if content == [] && OutOfBlocks(a) then (clamped, -1)
      else
        (a.(handles := a.handles[h := Handle(n, off + count)],
            nodes := a.nodes[n := File(Overwrite(content, off, buffer[..count]))]), count)
  }

  function Read(a: Fs, h: int, len: nat): (Fs, Outcome) {
    if h !in a.handles || a.handles[h].node !in a.nodes || a.nodes[a.handles[h].node].Link? then (a, Outcome(-1, []))
    else
      var n := a.handles[h].node;
      var content := a.nodes[n].content;
      var off := Min(a.handles[h].offset, |content|);
      var count := Min(len, |content| - off);
      (a.(handles := a.handles[h := Handle(n, off + count)]), Outcome(count, content[off..off + count]))
  }

  ghost function SymLink(a: Fs, target: CString, link: CString): (Fs, int) {
    if !ValidPath(target) || !ValidPath(link) || target == link then (a, -1)
    else
      var n := LeastFree(a.nodes.Keys, 1, a.p.inodes);
      if n == -1 || OutOfBlocks(a) then (a, -1)
      else if !CanBind(a, link[1..]) then (a.(lost := a.lost + 1), -1)
      else (a.(names := a.names[link[1..] := n], nodes := a.nodes[n := Link(target)]), 0)
  }

  ghost function HardLink(a: Fs, target: CString, link: CString): (Fs, int) {
    var n := Find(a, target);
    if !ValidPath(link) || n !in a.nodes || a.nodes[n].Link? || !CanBind(a, link[1..]) then (a, -1)
    else (a.(names := a.names[link[1..] := n]), 0)
  }

  function Unlink(a: Fs, path: CString): (Fs, int) {
    var n := Find(a, path);
    if n == -1 then (a, -1)
    else (Collect(a.(names := a.names - {path[1..]}), n), 0)
  }
}
