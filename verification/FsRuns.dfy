/**
 Whole sequential runs of the file system: refinement, exact reclamation and block accounting
 after any sequence of calls.
 */
module FsRuns {
  import opened Bytes
  import opened Directory
  import opened FsTypes
  import opened FsTables
  import opened FsSteps
  import opened FsRefinement
  import opened LinkChains
  import A = AbstractFs

  datatype Call =
    | Open(path: CString, mode: Mode)
    | Close(handle: int)
    | Write(handle: int, buffer: seq<byte>)
    | Read(handle: int, len: nat)
    | SymLink(target: CString, link: CString)
    | Link(target: CString, link: CString)
    | Unlink(path: CString)

  // ---- tfs_open through links ----

  lemma NextAgrees(t: Tables, path: CString)
    requires Core(t)
    ensures A.Next(Abs(t), path) == Target(t, path)
  {
  }

  lemma {:induction false} ResolvesAgrees(t: Tables, path: CString, k: nat)
    requires Core(t)
    ensures Resolves(t, path, k) <==> Ends(Abs(t), path, k)
    decreases k
  {
    NextAgrees(t, path);
    if k > 0 && Target(t, path).Some? {
      ResolvesAgrees(t, Target(t, path).value, k - 1);
    }
  }

  /** Links are followed without changing anything: the last name is what gets opened. */
  lemma {:induction false} OpenFollows(t: Tables, path: CString, mode: Mode, hops: nat)
    requires Core(t) && Resolves(t, path, hops)
    ensures FsTables.Open(t, path, mode, hops) == OpenHere(t, A.Follow(Abs(t), path, hops), mode)
    ensures Target(t, A.Follow(Abs(t), path, hops)) == None
    decreases hops
  {
    hide Core, OpenHere, Abs;
    NextAgrees(t, path);
    if Target(t, path).Some? {
      OpenFollows(t, Target(t, path).value, mode, hops - 1);
    }
  }

  /** Opening through links equals opening the final name directly, creation included. */
  lemma OpenStep(t: Tables, path: CString, mode: Mode, hops: nat)
    requires Core(t) && Resolves(t, path, hops)
    ensures Core(FsTables.Open(t, path, mode, hops).0)
    ensures (Abs(FsTables.Open(t, path, mode, hops).0), FsTables.Open(t, path, mode, hops).1) == A.Open(Abs(t), path, mode)
    ensures A.Terminates(Abs(t), path)
  {
    hide Core, Abs, OpenHere;
    ResolvesAgrees(t, path, hops);
    HopBound(Abs(t), path, hops);
    OpenFollows(t, path, mode, hops);
    OpenHereStep(t, A.Destination(Abs(t), path), mode);
  }

  // ---- No garbage ----

  /** Every node has a name or an open handle. */
  ghost predicate NoGarbage(a: A.Fs) {
    forall n :: n in a.nodes ==> n in a.names.Values || A.HasHandle(a, n)
  }

  lemma InvIff(t: Tables)
    requires Core(t)
    ensures Inv(t) <==> NoGarbage(Abs(t))
  {
    forall n
      ensures LiveNode(t, n) <==> n in Abs(t).nodes
      ensures LiveNode(t, n) ==> (Referenced(t, n) <==> n in Abs(t).names.Values || A.HasHandle(Abs(t), n))
    {
      hide DirOk, LinksOk, HandlesOk, BlocksOk, ContentsOk, HandlesOf, NodesOf, Names, LostBlocks;
      NodeFacts(t, n);
      if LiveNode(t, n) {
        ReferencedIff(t, n);
        DirectoryWellFormed(t);
        EntriesAreNames(Dir(t), n);
      }
    }
  }

  /** More references to the same nodes leave no garbage. */
  lemma MoreReferences(a: A.Fs, b: A.Fs)
    requires NoGarbage(a)
    requires a.names.Values <= b.names.Values
    requires forall n :: A.HasHandle(a, n) ==> A.HasHandle(b, n)
    requires forall n :: n in b.nodes && n !in a.nodes ==> n in b.names.Values || A.HasHandle(b, n)
    ensures NoGarbage(b)
  {
  }

  lemma NewName(names: map<CString, int>, x: CString, n: int)
    requires x !in names
    ensures names[x := n].Values == names.Values + {n}
  {
    var r := names[x := n];
    assert r[x] == n;
    forall v | v in names.Values
      ensures v in r.Values
    {
      var y :| y in names && names[y] == v;
      assert r[y] == v;
    }
  }

  lemma HandlesGrow(a: A.Fs, b: A.Fs, h: int, x: A.Handle, n: int)
    requires b.handles == a.handles[h := x] && (h in a.handles ==> a.handles[h].node == x.node)
    ensures A.HasHandle(a, n) ==> A.HasHandle(b, n)
  {
    if A.HasHandle(a, n) {
      var k :| k in a.handles && a.handles[k].node == n;
      assert b.handles[k].node == n;
    }
  }

  lemma NewHandleKeeps(a: A.Fs, n: int, offset: nat)
    requires NoGarbage(a)
    ensures NoGarbage(A.NewHandle(a, n, offset).0)
  {
    var (b, h) := A.NewHandle(a, n, offset);
    if h != -1 {
      forall m
        ensures A.HasHandle(a, m) ==> A.HasHandle(b, m)
      {
        HandlesGrow(a, b, h, A.Handle(n, offset), m);
      }
      MoreReferences(a, b);
    }
  }

  lemma OpenKeeps(a: A.Fs, path: CString, mode: Mode)
    requires NoGarbage(a)
    ensures NoGarbage(A.OpenAt(a, path, mode).0)
  {
    if ValidPath(path) {
      var n := A.Find(a, path);
      if n in a.nodes {
        if a.nodes[n].File? {
          var content := if mode.truncate then [] else a.nodes[n].content;
          var b := a.(nodes := a.nodes[n := A.File(content)]);
          MoreReferences(a, b);
          NewHandleKeeps(b, n, if mode.append then |content| else 0);
        }
      } else if mode.create {
        var m := A.LeastFree(a.nodes.Keys, 1, a.p.inodes);
        if m != -1 && A.CanBind(a, path[1..]) {
          var b := a.(names := a.names[path[1..] := m], nodes := a.nodes[m := A.File([])]);
          NewName(a.names, path[1..], m);
          MoreReferences(a, b);
          NewHandleKeeps(b, m, 0);
        }
      }
    }
  }

  /** Only the node that may have lost its last reference can be garbage, and Collect removes it. */
  lemma CollectKeeps(a: A.Fs, n: int)
    requires forall m :: m in a.nodes && m != n ==> m in a.names.Values || A.HasHandle(a, m)
    ensures NoGarbage(A.Collect(a, n))
  {
  }

  lemma CloseKeeps(a: A.Fs, h: int)
    requires NoGarbage(a)
    ensures NoGarbage(A.Close(a, h).0)
  {
    if h in a.handles {
      var b := a.(handles := a.handles - {h});
      var n := a.handles[h].node;
      forall m | m in b.nodes && m != n
        ensures m in b.names.Values || A.HasHandle(b, m)
      {
        if m !in a.names.Values {
          var k :| k in a.handles && a.handles[k].node == m;
          assert k in b.handles && b.handles[k].node == m;
        }
      }
      CollectKeeps(b, n);
    }
  }

  lemma UnlinkKeeps(a: A.Fs, path: CString)
    requires NoGarbage(a)
    ensures NoGarbage(A.Unlink(a, path).0)
  {
    var n := A.Find(a, path);
    if n != -1 {
      var b := a.(names := a.names - {path[1..]});
      forall m | m in b.nodes && m != n
        ensures m in b.names.Values || A.HasHandle(b, m)
      {
        if m in a.names.Values {
          var y :| y in a.names && a.names[y] == m;
          assert y in b.names && b.names[y] == m;
        } else {
          assert A.HasHandle(a, m);
          assert b.handles == a.handles;
        }
      }
      CollectKeeps(b, n);
    }
  }

  lemma WriteKeeps(a: A.Fs, h: int, buffer: seq<byte>)
    requires NoGarbage(a)
    ensures NoGarbage(A.Write(a, h, buffer).0)
  {
    var b := A.Write(a, h, buffer).0;
    if h in a.handles && a.handles[h].node in a.nodes && a.nodes[a.handles[h].node].File? {
      forall m
        ensures A.HasHandle(a, m) ==> A.HasHandle(b, m)
      {
        HandlesGrow(a, b, h, b.handles[h], m);
      }
      MoreReferences(a, b);
    }
  }

  lemma ReadKeeps(a: A.Fs, h: int, len: nat)
    requires NoGarbage(a)
    ensures NoGarbage(A.Read(a, h, len).0)
  {
    var b := A.Read(a, h, len).0;
    if h in a.handles && a.handles[h].node in a.nodes && a.nodes[a.handles[h].node].File? {
      forall m
        ensures A.HasHandle(a, m) ==> A.HasHandle(b, m)
      {
        HandlesGrow(a, b, h, b.handles[h], m);
      }
      MoreReferences(a, b);
    }
  }

  lemma SymLinkKeeps(a: A.Fs, target: CString, link: CString)
    requires NoGarbage(a)
    ensures NoGarbage(A.SymLink(a, target, link).0)
  {
    var b := A.SymLink(a, target, link).0;
    if b.nodes != a.nodes || b.names != a.names {
      NewName(a.names, link[1..], A.LeastFree(a.nodes.Keys, 1, a.p.inodes));
    }
    MoreReferences(a, b);
  }

  lemma LinkKeeps(a: A.Fs, target: CString, link: CString)
    requires NoGarbage(a)
    ensures NoGarbage(A.HardLink(a, target, link).0)
  {
    var b := A.HardLink(a, target, link).0;
    if b.names != a.names {
      NewName(a.names, link[1..], A.Find(a, target));
    }
    MoreReferences(a, b);
  }

  // ---- Calls and runs ----

  /** Calls on which the source returns: no endless chain of links, no target longer than a block. */
  ghost predicate Enabled(a: A.Fs, c: Call) {
    && (c.Open? ==> A.Terminates(a, c.path))
    && (c.SymLink? ==> |c.target| < a.p.blockSize)
  }

  ghost function AbstractCall(a: A.Fs, c: Call): (A.Fs, Outcome) {
    match c
    case Open(path, mode) => var (b, r) := A.Open(a, path, mode); (b, Outcome(r, []))
    case Close(h) => var (b, r) := A.Close(a, h); (b, Outcome(r, []))
    case Write(h, buffer) => var (b, r) := A.Write(a, h, buffer); (b, Outcome(r, []))
    case Read(h, len) => A.Read(a, h, len)
    case SymLink(target, link) => var (b, r) := A.SymLink(a, target, link); (b, Outcome(r, []))
    case Link(target, link) => var (b, r) := A.HardLink(a, target, link); (b, Outcome(r, []))
    case Unlink(path) => var (b, r) := A.Unlink(a, path); (b, Outcome(r, []))
  }

  ghost function ConcreteCall(t: Tables, c: Call): (Tables, Outcome)
    requires Core(t) && Enabled(Abs(t), c)
  {
    match c
    case Open(path, mode) =>
      TerminatesIff(Abs(t), path);
      var hops := |A.LinkNames(Abs(t))|;
      ResolvesAgrees(t, path, hops);
      var (u, r) := FsTables.Open(t, path, mode, hops); (u, Outcome(r, []))
    case Close(h) => var (u, r) := FsTables.Close(t, h); (u, Outcome(r, []))
    case Write(h, buffer) => var (u, r) := FsTables.Write(t, h, buffer); (u, Outcome(r, []))
    case Read(h, len) => FsTables.Read(t, h, len)
    case SymLink(target, link) => var (u, r) := FsTables.SymLink(t, target, link); (u, Outcome(r, []))
    case Link(target, link) => var (u, r) := FsTables.Link(t, target, link); (u, Outcome(r, []))
    case Unlink(path) => var (u, r) := FsTables.Unlink(t, path); (u, Outcome(r, []))
  }

  lemma AbstractKeeps(a: A.Fs, c: Call)
    requires NoGarbage(a)
    ensures NoGarbage(AbstractCall(a, c).0)
  {
    hide NoGarbage, A.OpenAt, A.Close, A.Write, A.Read, A.SymLink, A.HardLink, A.Unlink;
    match c
    case Open(path, mode) => OpenKeeps(a, A.Destination(a, path), mode);
    case Close(h) => CloseKeeps(a, h);
    case Write(h, buffer) => WriteKeeps(a, h, buffer);
    case Read(h, len) => ReadKeeps(a, h, len);
    case SymLink(target, link) => SymLinkKeeps(a, target, link);
    case Link(target, link) => LinkKeeps(a, target, link);
    case Unlink(path) => UnlinkKeeps(a, path);
  }

  /** Every call, on every path through it, refines the abstract call and keeps the invariant. */
  lemma CallRefines(t: Tables, c: Call)
    requires Inv(t) && Enabled(Abs(t), c)
    ensures Inv(ConcreteCall(t, c).0)
    ensures (Abs(ConcreteCall(t, c).0), ConcreteCall(t, c).1) == AbstractCall(Abs(t), c)
  {
    CallSimulates(t, c);
    InvIff(t);
    AbstractKeeps(Abs(t), c);
    InvIff(ConcreteCall(t, c).0);
  }

  lemma SameParams(t: Tables)
    requires Core(t)
    ensures Abs(t).p == t.p
  {
  }

  lemma CallSimulates(t: Tables, c: Call)
    requires Core(t) && Enabled(Abs(t), c)
    ensures Core(ConcreteCall(t, c).0)
    ensures (Abs(ConcreteCall(t, c).0), ConcreteCall(t, c).1) == AbstractCall(Abs(t), c)
  {
    hide Core, Abs, A.OpenAt, A.Close, A.Write, A.Read, A.SymLink, A.HardLink, A.Unlink,
         FsTables.Close, FsTables.Write, FsTables.Read, FsTables.SymLink, FsTables.Link, FsTables.Unlink;
    match c
    case Open(path, mode) =>
      TerminatesIff(Abs(t), path);
      ResolvesAgrees(t, path, |A.LinkNames(Abs(t))|);
      OpenStep(t, path, mode, |A.LinkNames(Abs(t))|);
    case Close(h) => CloseStep(t, h);
    case Write(h, buffer) => WriteStep(t, h, buffer);
    case Read(h, len) => ReadStep(t, h, len);
    case SymLink(target, link) =>
      SameParams(t);
      SymLinkStep(t, target, link);
    case Link(target, link) => LinkStep(t, target, link);
    case Unlink(path) => UnlinkStep(t, path);
  }

  ghost predicate CanRun(a: A.Fs, calls: seq<Call>)
    decreases |calls|
  {
    calls == [] || (Enabled(a, calls[0]) && CanRun(AbstractCall(a, calls[0]).0, calls[1..]))
  }

  ghost function AbstractRun(a: A.Fs, calls: seq<Call>): (A.Fs, seq<Outcome>)
    decreases |calls|
  {
    if calls == [] then (a, [])
    else
      var (b, r) := AbstractCall(a, calls[0]);
      var (c, rest) := AbstractRun(b, calls[1..]);
      (c, [r] + rest)
  }

  ghost function ConcreteRun(t: Tables, calls: seq<Call>): (Tables, seq<Outcome>)
    requires Inv(t) && CanRun(Abs(t), calls)
    decreases |calls|
  {
    if calls == [] then (t, [])
    else
      CallRefines(t, calls[0]);
      var (u, r) := ConcreteCall(t, calls[0]);
      var (v, rest) := ConcreteRun(u, calls[1..]);
      (v, [r] + rest)
  }

  /** Any run of calls keeps the invariant, returns what the abstract run returns and ends where it ends. */
  lemma {:induction false} RunRefines(t: Tables, calls: seq<Call>)
    requires Inv(t) && CanRun(Abs(t), calls)
    ensures Inv(ConcreteRun(t, calls).0)
    ensures (Abs(ConcreteRun(t, calls).0), ConcreteRun(t, calls).1) == AbstractRun(Abs(t), calls)
    decreases |calls|
  {
    hide Core, Abs, Referenced, AbstractCall, ConcreteCall, Enabled;
    if calls != [] {
      CallRefines(t, calls[0]);
      RunRefines(ConcreteCall(t, calls[0]).0, calls[1..]);
    }
  }

  // ---- What holds after every run ----

  /** An inode is TAKEN exactly when it is the root, is named or is open, and counts its names. */
  lemma Reclamation(t: Tables)
    requires Inv(t)
    ensures forall n :: 0 <= n < t.p.inodes ==>
      (t.inodeTaken[n] <==> n == ROOT || (exists i :: 0 <= i < |Dir(t)| && Dir(t)[i].inum == n) || IsOpen(t, n))
    ensures forall n :: 0 < n < t.p.inodes && t.inodeTaken[n] ==> t.inodes[n].links == |EntriesOf(Dir(t), n)|
  {
    forall n | 0 <= n < t.p.inodes
      ensures t.inodeTaken[n] <==> n == ROOT || (exists i :: 0 <= i < |Dir(t)| && Dir(t)[i].inum == n) || IsOpen(t, n)
    {
      if LiveNode(t, n) && EntriesOf(Dir(t), n) != {} {
        var i :| i in EntriesOf(Dir(t), n);
        assert Dir(t)[i].inum == n;
      }
    }
  }

  /** Reclamation is exact after every run. */
  lemma RunReclaims(t: Tables, calls: seq<Call>)
    requires Inv(t) && CanRun(Abs(t), calls)
    ensures var u := ConcreteRun(t, calls).0;
      && Shape(u) && RootOk(u)
      && forall n :: 0 <= n < u.p.inodes ==>
        (u.inodeTaken[n] <==> n == ROOT || (exists i :: 0 <= i < |Dir(u)| && Dir(u)[i].inum == n) || IsOpen(u, n))
  {
    RunRefines(t, calls);
    Reclamation(ConcreteRun(t, calls).0);
  }

  /** A symbolic link is refused after its inode and block were taken. */
  ghost predicate RefusesLink(a: A.Fs, target: CString, link: CString) {
    && ValidPath(target) && ValidPath(link) && target != link
    && A.LeastFree(a.nodes.Keys, 1, a.p.inodes) != -1 && !A.OutOfBlocks(a) && !A.CanBind(a, link[1..])
  }

  /** The one way to lose a block: removing a symbolic link, or being refused one after its block was taken. */
  ghost predicate LosesBlock(a: A.Fs, c: Call) {
    match c
    case SymLink(target, link) => RefusesLink(a, target, link)
    case Unlink(path) =>
      var n := A.Find(a, path);
      && n != -1 && n in a.nodes && a.nodes[n].Link?
      && n !in (a.names - {path[1..]}).Values && !A.HasHandle(a, n)
    case Close(h) =>
      && h in a.handles && a.handles[h].node in a.nodes && a.nodes[a.handles[h].node].Link?
      && a.handles[h].node !in a.names.Values && !A.HasHandle(a.(handles := a.handles - {h}), a.handles[h].node)
    case _ => false
  }

  ghost function Losses(a: A.Fs, calls: seq<Call>): nat
    decreases |calls|
  {
    if calls == [] then 0
    else (if LosesBlock(a, calls[0]) then 1 else 0) + Losses(AbstractCall(a, calls[0]).0, calls[1..])
  }

  lemma CallLosses(a: A.Fs, c: Call)
    ensures AbstractCall(a, c).0.p == a.p
    ensures AbstractCall(a, c).0.lost == a.lost + if LosesBlock(a, c) then 1 else 0
  {
    hide A.OpenAt, A.Write, A.Read, A.OutOfBlocks, A.CanBind, A.LeastFree;
    match c
    case Open(path, mode) => OpenLosesNone(a, A.Destination(a, path), mode);
    case Write(h, buffer) => WriteLosesNone(a, h, buffer);
    case Read(h, len) => ReadLosesNone(a, h, len);
    case _ =>
  }

  lemma OpenLosesNone(a: A.Fs, path: CString, mode: Mode)
    ensures A.OpenAt(a, path, mode).0.lost == a.lost && A.OpenAt(a, path, mode).0.p == a.p
  {
  }

  lemma WriteLosesNone(a: A.Fs, h: int, buffer: seq<byte>)
    ensures A.Write(a, h, buffer).0.lost == a.lost && A.Write(a, h, buffer).0.p == a.p
  {
  }

  lemma ReadLosesNone(a: A.Fs, h: int, len: nat)
    ensures A.Read(a, h, len).0.lost == a.lost && A.Read(a, h, len).0.p == a.p
  {
  }

  lemma {:induction false} RunLosses(a: A.Fs, calls: seq<Call>)
    ensures AbstractRun(a, calls).0.lost == a.lost + Losses(a, calls)
    decreases |calls|
  {
    hide AbstractCall, LosesBlock;
    if calls != [] {
      CallLosses(a, calls[0]);
      RunLosses(AbstractCall(a, calls[0]).0, calls[1..]);
    }
  }

  /** After any run the TAKEN blocks are the root's, one for each link and non-empty file, and the lost ones. */
  lemma RunAccounting(t: Tables, calls: seq<Call>)
    requires Inv(t) && CanRun(Abs(t), calls)
    ensures var u := ConcreteRun(t, calls).0;
      && Core(u)
      && |TakenBlocks(u)| == 1 + |A.BlockUsers(Abs(u))| + |LostBlocks(t)| + Losses(Abs(t), calls)
  {
    RunRefines(t, calls);
    BlockAccounting(ConcreteRun(t, calls).0);
    RunLosses(Abs(t), calls);
  }

  ghost predicate NoLinks(a: A.Fs) {
    forall n :: n in a.nodes ==> a.nodes[n].File?
  }

  lemma CallNoLinks(a: A.Fs, c: Call)
    requires NoLinks(a) && !c.SymLink?
    ensures NoLinks(AbstractCall(a, c).0) && !LosesBlock(a, c)
  {
  }

  /** Without symbolic links nothing leaks. */
  lemma {:induction false} NoLinksNoLoss(a: A.Fs, calls: seq<Call>)
    requires NoLinks(a) && forall i :: 0 <= i < |calls| ==> !calls[i].SymLink?
    ensures Losses(a, calls) == 0 && NoLinks(AbstractRun(a, calls).0)
    decreases |calls|
  {
    hide AbstractCall, LosesBlock, NoLinks;
    if calls != [] {
      CallNoLinks(a, calls[0]);
      NoLinksNoLoss(AbstractCall(a, calls[0]).0, calls[1..]);
    }
  }

  // ---- A write touches one file only ----

  /** From t to u, r bytes of the buffer were stored at off in file n, and nothing else changed. */
  ghost predicate WroteOnly(t: Tables, u: Tables, n: int, off: nat, buffer: seq<byte>, r: nat)
    requires Core(t) && Core(u) && LiveNode(t, n) && LiveNode(u, n)
  {
    && (forall m :: m != n ==> (LiveNode(t, m) <==> LiveNode(u, m)))
    && (forall m :: m != n && LiveNode(t, m) ==> NodeOf(u, m) == NodeOf(t, m))
    && Names(Dir(u)) == Names(Dir(t))
    && var before, after := Content(t, n), Content(u, n);
    && r <= |buffer| && |after| == (if off + r > |before| then off + r else |before|)
    && (forall k :: off <= k < off + r ==> after[k] == buffer[k - off])
    && (forall k :: 0 <= k < |before| && !(off <= k < off + r) ==> after[k] == before[k])
  }

  /**
   A write through a handle stores the first min(len, room) bytes of the buffer at the offset of
   that one file; every other byte of it, every other file, every link target and the directory
   stay as they were. It fails exactly when an empty file needs a block and there is none.
   */
  lemma WriteTouchesOneFile(t: Tables, h: int, buffer: seq<byte>)
    requires Core(t) && ValidHandle(t, h) && LiveNode(t, t.files[h].inum)
    ensures var (u, r) := FsTables.Write(t, h, buffer); var n := t.files[h].inum;
      var off := Min(t.files[h].offset, t.inodes[n].size);
      && Core(u) && LiveNode(u, n)
      && (r == -1 <==> t.inodes[n].size == 0 && buffer != [] && A.OutOfBlocks(Abs(t)))
      && (r != -1 ==> r == Min(|buffer|, t.p.blockSize - off) && r >= 0)
      && WroteOnly(t, u, n, off, buffer, if r == -1 then 0 else r)
  {
    hide DirOk, LinksOk, HandlesOk, BlocksOk, ContentsOk, NodesOf, HandlesOf, Names, LostBlocks, Content, FsTables.Write, NodeOf;
    WriteStep(t, h, buffer);
    HandleFacts(t, h);
    var (u, r) := FsTables.Write(t, h, buffer);
    forall m
      ensures LiveNode(t, m) <==> m in Abs(t).nodes
      ensures LiveNode(u, m) <==> m in Abs(u).nodes
      ensures LiveNode(t, m) ==> NodeOf(t, m) == Abs(t).nodes[m]
      ensures LiveNode(u, m) ==> NodeOf(u, m) == Abs(u).nodes[m]
    {
      NodeFacts(t, m);
      NodeFacts(u, m);
    }
    var n := t.files[h].inum;
    FileNode(t, n);
    FileNode(u, n);
  }

  lemma FileNode(t: Tables, n: int)
    requires Core(t) && LiveNode(t, n)
    ensures NodeOf(t, n).File? ==> NodeOf(t, n) == A.File(Content(t, n))
  {
  }
}
