/**
 The broker on top of the file system. Each request and each file operation of a session is one
 step on the abstract file system; a worker serves at most one session and holds at most one
 handle. The table of boxes has as many slots as the file system has inodes.
 */
module BrokerFiles {
  import opened Bytes
  import opened FsTypes
  import A = AbstractFs
  import BrokerSessions
  import Protocol

  const FRAME: nat := Protocol.MESSAGE_LEN

  /**
   A slot holds the path of its box, with its slash; a worker that serves a session holds the
   handle of its file.
   */
  datatype Broker = Broker(fs: A.Fs, slots: seq<Option<CString>>, workers: seq<Option<int>>)

  // ---- Invariant ----

  ghost predicate NodeOk(a: A.Fs, n: int)
    requires n in a.nodes
  {
    && 1 <= n < a.p.inodes && a.nodes[n].File?
    && |a.nodes[n].content| % FRAME == 0 && |a.nodes[n].content| <= a.p.blockSize
  }

  ghost predicate HandleOk(a: A.Fs, h: int)
    requires h in a.handles
  {
    0 <= h < a.p.handles && a.handles[h].node in a.nodes && a.handles[h].offset % FRAME == 0
  }

  ghost predicate NamesOk(a: A.Fs) {
    && (forall x :: x in a.names ==> ValidName(x) && a.names[x] in a.nodes)
    && forall x, y :: x in a.names && y in a.names && a.names[x] == a.names[y] ==> x == y
  }

  /** Only files, in whole frames, each under at most one name; offsets in whole frames. */
  ghost predicate Tidy(a: A.Fs) {
    && a.p.blockSize % FRAME == 0 && a.lost == 0
    && (forall n :: n in a.nodes ==> NodeOk(a, n))
    && (forall h :: h in a.handles ==> HandleOk(a, h))
    && NamesOk(a)
  }

  /** A path the file system accepts whose name is in the directory. */
  predicate Bound(a: A.Fs, path: CString) {
    ValidPath(path) && path[1..] in a.names
  }

  /** Nothing is held twice. */
  ghost predicate Once<T>(s: seq<Option<T>>) {
    forall i, j :: 0 <= i < j < |s| && s[i].Some? ==> s[i] != s[j]
  }

  /** The boxes are exactly the names in the directory, each in one slot. */
  ghost predicate IndexAgrees(s: Broker) {
    (forall path :: Some(path) in s.slots <==> Bound(s.fs, path)) && Once(s.slots)
  }

  /** The open handles are exactly those of the workers, each of one worker. */
  ghost predicate HandlesOwned(s: Broker) {
    (forall h :: Some(h) in s.workers <==> h in s.fs.handles) && Once(s.workers)
  }

  ghost predicate Inv(s: Broker) {
    && Tidy(s.fs) && IndexAgrees(s) && HandlesOwned(s)
    && 0 < s.fs.p.inodes <= s.fs.p.blocks
    && |s.slots| == s.fs.p.inodes && |s.workers| == s.fs.p.handles
  }

  // ---- Counting ----

  function Values<T>(s: seq<Option<T>>): set<T> {
    if s == [] then {} else (if s[0].Some? then {s[0].value} else {}) + Values(s[1..])
  }

  function Used<T>(s: seq<Option<T>>): nat {
    if s == [] then 0 else (if s[0].Some? then 1 else 0) + Used(s[1..])
  }

  lemma {:induction false} ValuesSize<T>(s: seq<Option<T>>)
    requires Once(s)
    ensures forall x :: x in Values(s) <==> Some(x) in s
    ensures |Values(s)| == Used(s) <= |s|
    ensures Used(s) < |s| <==> None in s
    decreases |s|
  {
    if s != [] {
      OnceTail(s);
      hide Once;
      ValuesSize(s[1..]);
      assert s == [s[0]] + s[1..];
    }
  }

  lemma OnceTail<T>(s: seq<Option<T>>)
    requires Once(s) && s != []
    ensures Once(s[1..]) && (s[0].Some? ==> s[0] !in s[1..])
  {
  }

  lemma OnceAdd<T>(s: seq<Option<T>>, i: nat, x: T)
    requires Once(s) && i < |s| && s[i].None? && Some(x) !in s
    ensures Once(s[i := Some(x)]) && forall y :: Some(y) in s[i := Some(x)] <==> y == x || Some(y) in s
  {
    var u := s[i := Some(x)];
    forall y
      ensures Some(y) in u <==> y == x || Some(y) in s
    {
      if k :| 0 <= k < |s| && s[k] == Some(y) {
        assert u[k] == s[k];
      }
      assert u[i] == Some(x);
    }
  }

  lemma OnceDrop<T>(s: seq<Option<T>>, i: nat, x: T)
    requires Once(s) && i < |s| && s[i] == Some(x)
    ensures Once(s[i := None]) && forall y :: Some(y) in s[i := None] <==> y != x && Some(y) in s
  {
    var u := s[i := None];
    forall y
      ensures Some(y) in u <==> y != x && Some(y) in s
    {
      if k :| 0 <= k < |s| && s[k] == Some(y) {
        assert k != i ==> u[k] == s[k];
      }
    }
  }

  lemma {:induction false} RangeSize(lo: int, hi: int, all: set<int>)
    requires lo <= hi && forall x :: lo <= x < hi ==> x in all
    ensures hi - lo <= |all|
    decreases hi - lo
  {
    if lo < hi {
      RangeSize(lo + 1, hi, all - {lo});
    }
  }

  lemma {:induction false} WithinRange(all: set<int>, lo: int, hi: int)
    requires lo <= hi && forall x :: x in all ==> lo <= x < hi
    ensures |all| <= hi - lo
    decreases hi - lo
  {
    if lo < hi {
      WithinRange(all - {lo}, lo + 1, hi);
    } else {
      assert all == {};
    }
  }

  /** Open handles are as many as busy workers, so with a worker to spare the table has room. */
  lemma HandleForReady(s: Broker)
    requires Inv(s)
    ensures |s.fs.handles| == Used(s.workers)
    ensures None in s.workers ==> A.LeastFree(s.fs.handles.Keys, 0, s.fs.p.handles) >= 0
  {
    hide Tidy, IndexAgrees, Used, Values, A.LeastFree;
    var held := s.fs.handles.Keys;
    ValuesSize(s.workers);
    forall h
      ensures h in held <==> h in Values(s.workers)
    {
      assert Some(h) in s.workers <==> h in s.fs.handles;
    }
    assert held == Values(s.workers);
    if None in s.workers && A.LeastFree(held, 0, s.fs.p.handles) < 0 {
      RangeSize(0, s.fs.p.handles, held);
    }
  }

  lemma {:induction false} NamesAtMostNodes(names: map<CString, int>, nodes: set<int>)
    requires forall x :: x in names ==> names[x] in nodes
    requires forall x, y :: x in names && y in names && names[x] == names[y] ==> x == y
    ensures |names| <= |nodes|
    decreases |names|
  {
    if x :| x in names {
      var rest := names - {x};
      assert names.Keys == rest.Keys + {x};
      NamesAtMostNodes(rest, nodes - {names[x]});
      assert |rest.Keys| == |rest| && |names.Keys| == |names|;
    } else {
      assert names.Keys == {};
    }
  }

  /** Paths are no more than names. */
  lemma {:induction false} PathsAtMostNames(paths: set<CString>, names: set<CString>)
    requires forall path :: path in paths ==> ValidPath(path) && path[1..] in names
    ensures |paths| <= |names|
    decreases |paths|
  {
    if path :| path in paths {
      forall other | other in paths - {path}
        ensures other[1..] in names - {path[1..]}
      {
        assert other == [other[0]] + other[1..] && path == [path[0]] + path[1..];
      }
      PathsAtMostNames(paths - {path}, names - {path[1..]});
    } else {
      assert paths == {};
    }
  }

  /** There is always a free slot: a file needs an inode, and one inode is the root's. */
  lemma SlotForNew(s: Broker)
    requires Inv(s)
    ensures None in s.slots
  {
    hide HandlesOwned, Values, Used;
    var names, nodes := s.fs.names, s.fs.nodes;
    ValuesSize(s.slots);
    PathsAtMostNames(Values(s.slots), names.Keys);
    NamesAtMostNodes(names, nodes.Keys);
    assert forall n :: n in nodes.Keys ==> NodeOk(s.fs, n);
    WithinRange(nodes.Keys, 1, s.fs.p.inodes);
    assert |names.Keys| == |names| && |nodes.Keys| == |nodes|;
  }

  // ---- The file system as the broker uses it ----

  const PLAIN := Mode(false, false, false)
  const APPENDING := Mode(false, false, true)
  const CREATING := Mode(true, false, false)

  /** Without links a path is opened where it points. */
  lemma OpensDirectly(a: A.Fs, path: CString, mode: Mode)
    requires Tidy(a)
    ensures A.Terminates(a, path) && A.Open(a, path, mode) == A.OpenAt(a, path, mode)
  {
  }

  /** Opening a box's file takes the first free handle and changes nothing else. */
  lemma OpenBound(a: A.Fs, path: CString, mode: Mode)
    requires Tidy(a) && Bound(a, path) && !mode.truncate
    requires A.LeastFree(a.handles.Keys, 0, a.p.handles) >= 0
    ensures var h := A.LeastFree(a.handles.Keys, 0, a.p.handles);
      var n := a.names[path[1..]];
      && h !in a.handles && n in a.nodes && a.nodes[n].File?
      && A.Open(a, path, mode)
         == (a.(handles := a.handles[h := A.Handle(n, if mode.append then |a.nodes[n].content| else 0)]), h)
  {
    hide A.Open, A.LeastFree;
    var n := a.names[path[1..]];
    OpensDirectly(a, path, mode);
    assert NodeOk(a, n);
    assert a.nodes[n := A.File(a.nodes[n].content)] == a.nodes;
  }

  lemma OpenMissing(a: A.Fs, path: CString)
    requires Tidy(a) && !Bound(a, path)
    ensures A.Open(a, path, PLAIN) == (a, -1)
  {
  }

  /** A new file can be made: valid path, an inode and a directory entry to spare. */
  ghost predicate CanCreate(a: A.Fs, path: CString) {
    && ValidPath(path) && A.CanBind(a, path[1..])
    && A.LeastFree(a.nodes.Keys, 1, a.p.inodes) >= 0
  }

  /** In numbers: a slash and a new name of 1 to 39 bytes, an inode from 1 on, and a directory entry of 44 bytes. */
  lemma CanCreateIff(a: A.Fs, path: CString)
    ensures CanCreate(a, path) <==>
      && 2 <= |path| <= 40 && path[0] == 47 && path[1..] !in a.names
      && |a.names| < a.p.blockSize / 44
      && exists n :: 1 <= n < a.p.inodes && n !in a.nodes
  {
  }

  ghost function WithFile(a: A.Fs, path: CString): A.Fs
    requires ValidPath(path)
  {
    var m := A.LeastFree(a.nodes.Keys, 1, a.p.inodes);
    a.(names := a.names[path[1..] := m], nodes := a.nodes[m := A.File([])])
  }

  lemma OpenNew(a: A.Fs, path: CString)
    requires Tidy(a) && !Bound(a, path)
    requires A.LeastFree(a.handles.Keys, 0, a.p.handles) >= 0
    ensures !CanCreate(a, path) ==> A.Open(a, path, CREATING) == (a, -1)
    ensures CanCreate(a, path) ==>
      var m, h := A.LeastFree(a.nodes.Keys, 1, a.p.inodes), A.LeastFree(a.handles.Keys, 0, a.p.handles);
      var b := WithFile(a, path);
      A.Open(a, path, CREATING) == (b.(handles := b.handles[h := A.Handle(m, 0)]), h) && h !in a.handles
  {
  }

  /** Closing a handle that was just opened on a named file leaves no trace. */
  lemma CloseNew(a: A.Fs, h: int, n: int, off: nat)
    requires h !in a.handles && n in a.names.Values
    ensures A.Close(a.(handles := a.handles[h := A.Handle(n, off)]), h) == (a, 0)
  {
    assert a.handles[h := A.Handle(n, off)] - {h} == a.handles;
  }

  // ---- Requests ----

  /** The first slot that holds x; -1 if there is none. */
  function FirstSlot(slots: seq<Option<CString>>, x: Option<CString>): (r: int)
    ensures -1 <= r < |slots|
    ensures r >= 0 ==> slots[r] == x
    ensures r < 0 <==> x !in slots
  {
    if slots == [] then -1
    else if slots[0] == x then 0
    else
      var r := FirstSlot(slots[1..], x);
      if r < 0 then -1 else r + 1
  }

  /** workers_handle_manager_create: test, create, take a slot, close. */
  ghost function CreateBox(s: Broker, path: CString): (Broker, int) {
    var (fs1, f) := A.Open(s.fs, path, PLAIN);
    if f >= 0 then (s.(fs := A.Close(fs1, f).0), -1)
    else
      var (fs2, g) := A.Open(fs1, path, CREATING);
      var i := FirstSlot(s.slots, None);
      if g < 0 || i < 0 then (s.(fs := A.Close(fs2, g).0), -1)
      else (s.(fs := A.Close(fs2, g).0, slots := s.slots[i := Some(path)]), 0)
  }

  /** workers_handle_manager_remove: free the slot, then unlink the file. */
  ghost function RemoveBox(s: Broker, path: CString): (Broker, int) {
    var i := FirstSlot(s.slots, Some(path));
    if i < 0 then (s, -1)
    else
      var (fs, r) := A.Unlink(s.fs, path);
      (s.(fs := fs, slots := s.slots[i := None]), if r == 0 then 0 else -1)
  }

  /** A worker's session starts: the box is found and its file opened. */
  ghost function Start(s: Broker, w: nat, path: CString, mode: Mode): (Broker, int)
    requires w < |s.workers|
  {
    if FirstSlot(s.slots, Some(path)) < 0 then (s, -1)
    else
      var (fs, h) := A.Open(s.fs, path, mode);
      if h < 0 then (s.(fs := fs), -1) else (s.(fs := fs, workers := s.workers[w := Some(h)]), h)
  }

  lemma CreateBoxEffect(s: Broker, path: CString)
    requires Inv(s) && None in s.workers
    ensures !CanCreate(s.fs, path) ==> CreateBox(s, path) == (s, -1)
    ensures CanCreate(s.fs, path) ==>
      FirstSlot(s.slots, None) >= 0 &&
      CreateBox(s, path)
      == (s.(fs := WithFile(s.fs, path), slots := s.slots[FirstSlot(s.slots, None) := Some(path)]), 0)
  {
    hide A.Open, A.Close, A.LeastFree, IndexAgrees, HandlesOwned, A.CanBind;
    var a := s.fs;
    HandleForReady(s);
    var h := A.LeastFree(a.handles.Keys, 0, a.p.handles);
    if Bound(a, path) {
      OpenBound(a, path, PLAIN);
      CloseNew(a, h, a.names[path[1..]], 0);
      NotCreatable(a, path);
    } else {
      OpenMissing(a, path);
      OpenNew(a, path);
      SlotForNew(s);
      if CanCreate(a, path) {
        assert WithFile(a, path).names[path[1..]] in WithFile(a, path).names.Values;
        CloseNew(WithFile(a, path), h, A.LeastFree(a.nodes.Keys, 1, a.p.inodes), 0);
      } else {
        CloseNone(a);
      }
    }
  }

  lemma NotCreatable(a: A.Fs, path: CString)
    requires Bound(a, path)
    ensures !CanCreate(a, path)
  {
  }

  lemma CloseNone(a: A.Fs)
    requires Tidy(a)
    ensures A.Close(a, -1) == (a, -1)
  {
  }

  lemma RemoveBoxEffect(s: Broker, path: CString)
    requires Inv(s)
    ensures !Bound(s.fs, path) ==> RemoveBox(s, path) == (s, -1)
    ensures Bound(s.fs, path) ==>
      var i := FirstSlot(s.slots, Some(path));
      var a := s.fs.(names := s.fs.names - {path[1..]});
      && i >= 0
      && RemoveBox(s, path) == (s.(fs := A.Collect(a, s.fs.names[path[1..]]), slots := s.slots[i := None]), 0)
  {
  }

  lemma StartEffect(s: Broker, w: nat, path: CString, mode: Mode)
    requires Inv(s) && w < |s.workers| && s.workers[w].None? && !mode.truncate
    ensures !Bound(s.fs, path) ==> Start(s, w, path, mode) == (s, -1)
    ensures Bound(s.fs, path) ==>
      var a := s.fs;
      var h, n := A.LeastFree(a.handles.Keys, 0, a.p.handles), a.names[path[1..]];
      && 0 <= h && h !in a.handles && n in a.nodes && a.nodes[n].File?
      && var fs := a.(handles := a.handles[h := A.Handle(n, if mode.append then |a.nodes[n].content| else 0)]);
      Start(s, w, path, mode) == (s.(fs := fs, workers := s.workers[w := Some(h)]), h)
  {
    hide A.Open, A.LeastFree, HandlesOwned;
    assert Some(path) in s.slots <==> Bound(s.fs, path);
    assert None in s.workers;
    HandleForReady(s);
    if Bound(s.fs, path) {
      OpenBound(s.fs, path, mode);
    }
  }

  // ---- Preservation ----

  lemma TidyHandle(a: A.Fs, h: int, x: A.Handle)
    requires Tidy(a) && 0 <= h < a.p.handles && x.node in a.nodes && x.offset % FRAME == 0
    ensures Tidy(a.(handles := a.handles[h := x]))
  {
  }

  lemma TidyLess(a: A.Fs, b: A.Fs)
    requires Tidy(a) && b.nodes == a.nodes && b.p == a.p && b.lost == 0
    requires b.handles.Keys <= a.handles.Keys && forall h :: h in b.handles ==> b.handles[h] == a.handles[h]
    requires b.names.Keys <= a.names.Keys && forall x :: x in b.names ==> b.names[x] == a.names[x]
    ensures Tidy(b)
  {
  }

  lemma TidyCollect(a: A.Fs, n: int)
    requires Tidy(a)
    ensures Tidy(A.Collect(a, n)) && A.Collect(a, n) == a.(nodes := A.Collect(a, n).nodes)
  {
  }

  lemma TidyWithFile(a: A.Fs, path: CString)
    requires Tidy(a) && CanCreate(a, path)
    ensures Tidy(WithFile(a, path))
  {
  }

  /** New contents in whole frames for one file. */
  lemma TidyContent(a: A.Fs, n: int, content: seq<byte>)
    requires Tidy(a) && n in a.nodes && |content| % FRAME == 0 && |content| <= a.p.blockSize
    ensures Tidy(a.(nodes := a.nodes[n := A.File(content)]))
  {
  }

  // ---- Whole frames ----

  /** The messages in a file. */
  function Frames(content: seq<byte>): (r: seq<seq<byte>>)
    ensures |r| == |content| / FRAME
  {
    seq(|content| / FRAME, k requires 0 <= k < |content| / FRAME => content[k * FRAME..k * FRAME + FRAME])
  }

  /** A box of 1 MiB has room for 1024 messages of 1024 bytes. */
  lemma BoxHolds(content: seq<byte>)
    requires |content| == 1024 * 1024
    ensures |Frames(content)| == 1024 && forall k :: 0 <= k < 1024 ==> |Frames(content)[k]| == 1024
  {
  }

  /** Writing a message at a frame boundary replaces or appends exactly that message. */
  lemma FramesWrite(content: seq<byte>, off: nat, message: seq<byte>)
    requires |content| % FRAME == 0 && off % FRAME == 0 && off <= |content| && |message| == FRAME
    ensures var after := A.Overwrite(content, off, message);
      && |after| % FRAME == 0 && |after| == (if off < |content| then |content| else off + FRAME)
      && Frames(after) == BrokerSessions.Put(Frames(content), off / FRAME, message)
  {
    var after := A.Overwrite(content, off, message);
    var i := off / FRAME;
    assert off == i * FRAME;
    assert off < |content| ==> off + FRAME <= |content|;
    hide A.Overwrite;
    forall k | 0 <= k < |after| / FRAME
      ensures Frames(after)[k] == if k == i then message else content[k * FRAME..k * FRAME + FRAME]
    {
      FrameAt(content, i, message, k);
    }
  }

  lemma FrameAt(content: seq<byte>, i: nat, message: seq<byte>, k: nat)
    requires i * FRAME <= |content| && |message| == FRAME
    ensures k == i ==>
      var after := A.Overwrite(content, i * FRAME, message);
      k * FRAME + FRAME <= |after| && after[k * FRAME..k * FRAME + FRAME] == message
    ensures k != i && k * FRAME + FRAME <= |content| ==>
      var after := A.Overwrite(content, i * FRAME, message);
      k * FRAME + FRAME <= |after| && after[k * FRAME..k * FRAME + FRAME] == content[k * FRAME..k * FRAME + FRAME]
  {
  }

  /** An empty file can always get its first block: there are enough for every inode. */
  lemma EnoughBlocks(a: A.Fs, n: int)
    requires Tidy(a) && 0 < a.p.inodes <= a.p.blocks && n in a.nodes && a.nodes[n] == A.File([])
    ensures !A.OutOfBlocks(a)
  {
    forall m | m in a.nodes.Keys
      ensures 1 <= m < a.p.inodes
    {
      assert NodeOk(a, m);
    }
    WithinRange(a.nodes.Keys, 1, a.p.inodes);
    var users := A.BlockUsers(a);
    assert a.nodes.Keys == users + {n} + (a.nodes.Keys - users - {n});
  }

  /** Where a session reads and writes: whole frames before the end of its file. */
  lemma SessionFile(a: A.Fs, h: int) returns (n: int, content: seq<byte>, off: nat)
    requires Tidy(a) && h in a.handles
    ensures n == a.handles[h].node && n in a.nodes && a.nodes[n] == A.File(content)
    ensures off == Min(a.handles[h].offset, |content|) && off % FRAME == 0 && |content| % FRAME == 0
    ensures 0 <= h < a.p.handles && |content| <= a.p.blockSize
    ensures off < a.p.blockSize ==> off + FRAME <= a.p.blockSize
    ensures off < |content| ==> off + FRAME <= |content|
  {
    hide NamesOk;
    n := a.handles[h].node;
    assert HandleOk(a, h) && NodeOk(a, n);
    content := a.nodes[n].content;
    off := Min(a.handles[h].offset, |content|);
  }

  /** From a to b a handle put one message into the frame at its offset, or found its block full; nothing else changed. */
  ghost predicate WroteFrame(a: A.Fs, h: int, message: seq<byte>, b: A.Fs, r: int)
    requires h in a.handles && |message| == FRAME
  {
    var n := a.handles[h].node;
    && n in a.nodes && a.nodes[n].File? && n in b.nodes && b.nodes[n].File?
    && var before, after := a.nodes[n].content, b.nodes[n].content;
    var off := Min(a.handles[h].offset, |before|);
    && off % FRAME == 0
    && r == (if off == a.p.blockSize then 0 else FRAME)
    && b == a.(nodes := a.nodes[n := A.File(after)], handles := a.handles[h := A.Handle(n, off + r)])
    && (r == 0 ==> after == before)
    && off / FRAME <= |Frames(before)|
    && (r == FRAME ==> Frames(after) == BrokerSessions.Put(Frames(before), off / FRAME, message))
  }

  /** From a to b a handle moved past the message at its offset and returned it, or was at the end; nothing else changed. */
  ghost predicate GotFrame(a: A.Fs, h: int, b: A.Fs, r: Outcome)
    requires h in a.handles
  {
    var n := a.handles[h].node;
    && n in a.nodes && a.nodes[n].File?
    && var content := a.nodes[n].content;
    var off := Min(a.handles[h].offset, |content|);
    && off % FRAME == 0
    && r.code == (if off == |content| then 0 else FRAME)
    && b == a.(handles := a.handles[h := A.Handle(n, off + r.code)])
    && (r.code == FRAME ==> off / FRAME < |Frames(content)| && r.bytes == Frames(content)[off / FRAME])
  }

  /** tfs_write of a message is all or nothing: one frame, or none exactly when the block is full. */
  lemma WriteEffect(a: A.Fs, h: int, message: seq<byte>)
    requires Tidy(a) && 0 < a.p.inodes <= a.p.blocks && h in a.handles && |message| == FRAME
    ensures Tidy(A.Write(a, h, message).0)
    ensures var (b, r) := A.Write(a, h, message); WroteFrame(a, h, message, b, r)
  {
    hide Tidy, Frames, A.OutOfBlocks;
    var n, content, off := SessionFile(a, h);
    assert message[..FRAME] == message;
    if off == a.p.blockSize {
      TidyHandle(a, h, A.Handle(n, off));
    } else {
      if content == [] {
        EnoughBlocks(a, n);
      }
      FramesWrite(content, off, message);
      var c := A.Overwrite(content, off, message);
      TidyContent(a, n, c);
      TidyHandle(a.(nodes := a.nodes[n := A.File(c)]), h, A.Handle(n, off + FRAME));
    }
  }

  /** tfs_read returns the next whole message, or nothing exactly at the end of the file. */
  lemma ReadEffect(a: A.Fs, h: int)
    requires Tidy(a) && h in a.handles
    ensures Tidy(A.Read(a, h, FRAME).0)
    ensures var (b, r) := A.Read(a, h, FRAME); GotFrame(a, h, b, r)
  {
  }

  // ---- Runs ----

  datatype Step =
    | Create(path: CString)
    | Remove(path: CString)
    | Begin(w: nat, path: CString, append: bool)
    | Publish(w: nat, message: seq<byte>)
    | Deliver(w: nat)
    | End(w: nat)

  /** A request needs a worker without a session; a message has its fixed length. */
  predicate Enabled(s: Broker, e: Step) {
    match e
    case Create(_) => None in s.workers
    case Remove(_) => None in s.workers
    case Begin(w, _, _) => w < |s.workers| && s.workers[w].None?
    case Publish(w, message) => w < |s.workers| && s.workers[w].Some? && |message| == FRAME
    case Deliver(w) => w < |s.workers| && s.workers[w].Some?
    case End(w) => w < |s.workers| && s.workers[w].Some?
  }

  ghost function Apply(s: Broker, e: Step): (Broker, Outcome)
    requires Enabled(s, e)
  {
    match e
    case Create(path) => var (t, r) := CreateBox(s, path); (t, Outcome(r, []))
    case Remove(path) => var (t, r) := RemoveBox(s, path); (t, Outcome(r, []))
    case Begin(w, path, append) =>
      var (t, r) := Start(s, w, path, if append then APPENDING else PLAIN); (t, Outcome(r, []))
    case Publish(w, message) =>
      var (fs, r) := A.Write(s.fs, s.workers[w].value, message); (s.(fs := fs), Outcome(r, []))
    case Deliver(w) =>
      var (fs, r) := A.Read(s.fs, s.workers[w].value, FRAME); (s.(fs := fs), r)
    case End(w) =>
      var (fs, r) := A.Close(s.fs, s.workers[w].value);
      (s.(fs := fs, workers := s.workers[w := None]), Outcome(r, []))
  }

  lemma IndexAdd(s: Broker, u: Broker, path: CString, i: nat)
    requires IndexAgrees(s) && ValidPath(path) && path[1..] !in s.fs.names && i < |s.slots| && s.slots[i].None?
    requires u.slots == s.slots[i := Some(path)] && u.fs.names.Keys == s.fs.names.Keys + {path[1..]}
    ensures IndexAgrees(u)
  {
    assert Some(path) in s.slots <==> Bound(s.fs, path);
    OnceAdd(s.slots, i, path);
    forall q
      ensures Some(q) in u.slots <==> Bound(u.fs, q)
    {
      assert Some(q) in s.slots <==> Bound(s.fs, q);
      SamePath(q, path);
    }
  }

  lemma IndexDrop(s: Broker, u: Broker, path: CString, i: nat)
    requires IndexAgrees(s) && ValidPath(path) && i < |s.slots| && s.slots[i] == Some(path)
    requires u.slots == s.slots[i := None] && u.fs.names.Keys == s.fs.names.Keys - {path[1..]}
    ensures IndexAgrees(u)
  {
    OnceDrop(s.slots, i, path);
    forall q
      ensures Some(q) in u.slots <==> Bound(u.fs, q)
    {
      assert Some(q) in s.slots <==> Bound(s.fs, q);
      SamePath(q, path);
    }
  }

  lemma SamePath(q: CString, path: CString)
    requires ValidPath(path)
    ensures ValidPath(q) && q[1..] == path[1..] ==> q == path
  {
  }

  lemma CreateKeeps(s: Broker, path: CString)
    requires Inv(s) && None in s.workers
    ensures Inv(CreateBox(s, path).0)
  {
    hide A.LeastFree, Tidy, Once, CreateBox;
    CreateBoxEffect(s, path);
    if CanCreate(s.fs, path) {
      TidyWithFile(s.fs, path);
      IndexAdd(s, CreateBox(s, path).0, path, FirstSlot(s.slots, None));
    }
  }

  lemma RemoveKeeps(s: Broker, path: CString)
    requires Inv(s)
    ensures Inv(RemoveBox(s, path).0)
  {
    hide Tidy, Once, RemoveBox, A.Collect;
    RemoveBoxEffect(s, path);
    if Bound(s.fs, path) {
      var a := s.fs.(names := s.fs.names - {path[1..]});
      NotLost(s.fs);
      TidyLess(s.fs, a);
      TidyCollect(a, s.fs.names[path[1..]]);
      IndexDrop(s, RemoveBox(s, path).0, path, FirstSlot(s.slots, Some(path)));
    }
  }

  lemma NotLost(a: A.Fs)
    requires Tidy(a)
    ensures a.lost == 0
  {
  }

  lemma StartKeeps(s: Broker, w: nat, path: CString, mode: Mode)
    requires Inv(s) && w < |s.workers| && s.workers[w].None? && !mode.truncate
    ensures Inv(Start(s, w, path, mode).0)
  {
    hide Tidy, Once, Start, A.LeastFree;
    StartEffect(s, w, path, mode);
    if Bound(s.fs, path) {
      var u := Start(s, w, path, mode).0;
      var h, n := A.LeastFree(s.fs.handles.Keys, 0, s.fs.p.handles), s.fs.names[path[1..]];
      FileInFrames(s.fs, n);
      TidyHandle(s.fs, h, u.fs.handles[h]);
      assert Some(h) in s.workers <==> h in s.fs.handles;
      OnceAdd(s.workers, w, h);
      SameIndex(s, u);
    }
  }

  lemma FileInFrames(a: A.Fs, n: int)
    requires Tidy(a) && n in a.nodes
    ensures a.nodes[n].File? && |a.nodes[n].content| % FRAME == 0
  {
  }

  lemma SameIndex(s: Broker, u: Broker)
    requires IndexAgrees(s) && u.slots == s.slots && u.fs.names.Keys == s.fs.names.Keys
    ensures IndexAgrees(u)
  {
  }

  lemma TransferKeeps(s: Broker, fs: A.Fs, h: int)
    requires Inv(s) && h in s.fs.handles && Tidy(fs) && fs.p == s.fs.p
    requires fs.names == s.fs.names && fs.handles.Keys == s.fs.handles.Keys
    ensures Inv(s.(fs := fs))
  {
  }

  lemma EndKeeps(s: Broker, w: nat)
    requires Inv(s) && w < |s.workers| && s.workers[w].Some?
    ensures Inv(Apply(s, End(w)).0) && Apply(s, End(w)).1.code == 0
  {
    hide Tidy, Once, A.Collect;
    var h := s.workers[w].value;
    assert Some(h) in s.workers;
    var a := s.fs.(handles := s.fs.handles - {h});
    NotLost(s.fs);
    TidyLess(s.fs, a);
    TidyCollect(a, s.fs.handles[h].node);
    var u := Apply(s, End(w)).0;
    OnceDrop(s.workers, w, h);
    forall k
      ensures Some(k) in u.workers <==> k in u.fs.handles
    {
      assert Some(k) in s.workers <==> k in s.fs.handles;
    }
    SameIndex(s, u);
  }

  lemma StepInv(s: Broker, e: Step)
    requires Inv(s) && Enabled(s, e)
    ensures Inv(Apply(s, e).0)
  {
    hide CreateBox, RemoveBox, Start, A.Write, A.Read, A.Close, IndexAgrees, Once, Frames, A.Overwrite;
    match e
    case Create(path) => CreateKeeps(s, path);
    case Remove(path) => RemoveKeeps(s, path);
    case Begin(w, path, append) => StartKeeps(s, w, path, if append then APPENDING else PLAIN);
    case Publish(w, message) =>
      var h := s.workers[w].value;
      assert Some(h) in s.workers;
      WriteEffect(s.fs, h, message);
      TransferKeeps(s, A.Write(s.fs, h, message).0, h);
    case Deliver(w) =>
      var h := s.workers[w].value;
      assert Some(h) in s.workers;
      ReadEffect(s.fs, h);
      TransferKeeps(s, A.Read(s.fs, h, FRAME).0, h);
    case End(w) => EndKeeps(s, w);
  }

  ghost predicate CanRun(s: Broker, run: seq<Step>)
    decreases |run|
  {
    run == [] || (Enabled(s, run[0]) && CanRun(Apply(s, run[0]).0, run[1..]))
  }

  ghost function After(s: Broker, run: seq<Step>): Broker
    requires CanRun(s, run)
    decreases |run|
  {
    if run == [] then s else After(Apply(s, run[0]).0, run[1..])
  }

  /** A broker that was just initialised. */
  ghost function Fresh(p: Params): Broker {
    Broker(A.Empty(p), seq(p.inodes, _ => None), seq(p.handles, _ => None))
  }

  lemma {:induction false} RunInv(s: Broker, run: seq<Step>)
    requires Inv(s) && CanRun(s, run)
    ensures Inv(After(s, run))
    decreases |run|
  {
    hide Inv, Apply, Enabled;
    if run != [] {
      StepInv(s, run[0]);
      RunInv(Apply(s, run[0]).0, run[1..]);
    }
  }

  /** What each step does, and exactly when it is refused. */
  ghost predicate Exact(s: Broker, e: Step)
    requires Enabled(s, e)
  {
    var (u, r) := Apply(s, e);
    match e
    case Create(path) =>
      && r.code == (if CanCreate(s.fs, path) then 0 else -1) && (r.code == -1 ==> u == s)
      && (r.code == 0 ==> u.fs == WithFile(s.fs, path))
    case Remove(path) =>
      && r.code == (if Bound(s.fs, path) then 0 else -1) && (r.code == -1 ==> u == s)
      && (r.code == 0 ==> u.fs.names == s.fs.names - {path[1..]} && u.fs.handles == s.fs.handles)
    case Begin(w, path, append) =>
      && (r.code >= 0 <==> Bound(s.fs, path)) && (r.code < 0 ==> u == s)
      && (r.code >= 0 ==>
            && u.workers == s.workers[w := Some(r.code)] && r.code !in s.fs.handles
            && var n := s.fs.names[path[1..]];
            n in s.fs.nodes && s.fs.nodes[n].File?
            && u.fs == s.fs.(handles := s.fs.handles[r.code := A.Handle(n, if append then |s.fs.nodes[n].content| else 0)]))
    case Publish(w, message) => s.workers[w].value in s.fs.handles && WroteFrame(s.fs, s.workers[w].value, message, u.fs, r.code)
    case Deliver(w) => s.workers[w].value in s.fs.handles && GotFrame(s.fs, s.workers[w].value, u.fs, r)
    case End(w) => r.code == 0 && u.workers == s.workers[w := None] && u.fs.handles == s.fs.handles - {s.workers[w].value}
  }

  lemma StepExact(s: Broker, e: Step)
    requires Inv(s) && Enabled(s, e)
    ensures Exact(s, e)
  {
    hide CreateBox, RemoveBox, Start, A.Write, A.Read, IndexAgrees, Once, Frames, A.Overwrite, A.LeastFree;
    match e
    case Create(path) => CreateBoxEffect(s, path);
    case Remove(path) => RemoveBoxEffect(s, path);
    case Begin(w, path, append) => StartEffect(s, w, path, if append then APPENDING else PLAIN);
    case Publish(w, message) =>
      assert Some(s.workers[w].value) in s.workers;
      WriteEffect(s.fs, s.workers[w].value, message);
    case Deliver(w) =>
      assert Some(s.workers[w].value) in s.workers;
      ReadEffect(s.fs, s.workers[w].value);
    case End(w) => EndKeeps(s, w);
  }

  /**
   After any run of requests: the boxes are exactly the names in the directory, open handles are
   as many as busy workers, every file and offset is in whole messages, and the next step does
   what it should or changes nothing.
   */
  lemma EveryRun(p: Params, run: seq<Step>, e: Step)
    requires p.blockSize % FRAME == 0 && 0 < p.inodes <= p.blocks
    requires CanRun(Fresh(p), run) && Enabled(After(Fresh(p), run), e)
    ensures var u := After(Fresh(p), run);
      && IndexAgrees(u) && Tidy(u.fs) && |u.fs.handles| == Used(u.workers)
      && Exact(u, e)
  {
    FreshInv(p);
    RunInv(Fresh(p), run);
    var u := After(Fresh(p), run);
    hide Fresh, CanRun, After, Exact, Enabled;
    HandleForReady(u);
    StepExact(u, e);
  }

  lemma FreshInv(p: Params)
    requires p.blockSize % FRAME == 0 && 0 < p.inodes <= p.blocks
    ensures Inv(Fresh(p))
  {
  }
}
