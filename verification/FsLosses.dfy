/**
 Where calls go wrong for good: chains of links that never end and blocks that are never given
 back. Both start from a file system that was just initialised.
 */
module FsLosses {
  import opened Bytes
  import opened Directory
  import opened FsTypes
  import opened FsTables
  import opened FsSteps
  import opened FsRuns
  import opened LinkChains
  import A = AbstractFs

  // ---- A symbolic link has one name and no handle ----

  /** Names and handles lead to nodes, handles to files only, and no link has two names. */
  ghost predicate LinksSimple(a: A.Fs) {
    && -1 !in a.nodes
    && (forall x :: x in a.names ==> a.names[x] in a.nodes)
    && (forall h :: h in a.handles ==> a.handles[h].node in a.nodes && a.nodes[a.handles[h].node].File?)
    && (forall x, y :: x in a.names && y in a.names && a.names[x] == a.names[y] && a.nodes[a.names[x]].Link? ==> x == y)
  }

  lemma NewHandleSimple(a: A.Fs, n: int, offset: nat)
    requires LinksSimple(a) && n in a.nodes && a.nodes[n].File?
    ensures LinksSimple(A.NewHandle(a, n, offset).0)
  {
  }

  lemma NewFileSimple(a: A.Fs, name: CString, n: int)
    requires LinksSimple(a) && n !in a.nodes && n != -1
    ensures LinksSimple(a.(names := a.names[name := n], nodes := a.nodes[n := A.File([])]))
  {
  }

  lemma NewContentSimple(a: A.Fs, n: int, content: seq<byte>)
    requires LinksSimple(a) && n in a.nodes && a.nodes[n].File?
    ensures LinksSimple(a.(nodes := a.nodes[n := A.File(content)]))
  {
  }

  lemma OpenSimple(a: A.Fs, path: CString, mode: Mode)
    requires LinksSimple(a)
    ensures LinksSimple(A.OpenAt(a, path, mode).0)
  {
    hide LinksSimple, A.NewHandle, A.LeastFree, A.CanBind;
    var n := A.Find(a, path);
    if ValidPath(path) && n in a.nodes && a.nodes[n].File? {
      var content := if mode.truncate then [] else a.nodes[n].content;
      NewContentSimple(a, n, content);
      NewHandleSimple(a.(nodes := a.nodes[n := A.File(content)]), n, if mode.append then |content| else 0);
    } else if ValidPath(path) && n !in a.nodes && mode.create {
      var m := A.LeastFree(a.nodes.Keys, 1, a.p.inodes);
      if m != -1 && A.CanBind(a, path[1..]) {
        NewFileSimple(a, path[1..], m);
        NewHandleSimple(a.(names := a.names[path[1..] := m], nodes := a.nodes[m := A.File([])]), m, 0);
      }
    }
  }

  lemma CollectSimple(a: A.Fs, n: int)
    requires LinksSimple(a)
    ensures LinksSimple(A.Collect(a, n))
  {
  }

  lemma CloseSimple(a: A.Fs, h: int)
    requires LinksSimple(a)
    ensures LinksSimple(A.Close(a, h).0)
  {
    if h in a.handles {
      CollectSimple(a.(handles := a.handles - {h}), a.handles[h].node);
    }
  }

  lemma UnlinkSimple(a: A.Fs, path: CString)
    requires LinksSimple(a)
    ensures LinksSimple(A.Unlink(a, path).0)
  {
    if A.Find(a, path) != -1 {
      CollectSimple(a.(names := a.names - {path[1..]}), A.Find(a, path));
    }
  }

  lemma WriteSimple(a: A.Fs, h: int, buffer: seq<byte>)
    requires LinksSimple(a)
    ensures LinksSimple(A.Write(a, h, buffer).0)
  {
  }

  lemma SymLinkSimple(a: A.Fs, target: CString, link: CString)
    requires LinksSimple(a)
    ensures LinksSimple(A.SymLink(a, target, link).0)
  {
  }

  lemma HardLinkSimple(a: A.Fs, target: CString, link: CString)
    requires LinksSimple(a)
    ensures LinksSimple(A.HardLink(a, target, link).0)
  {
  }

  lemma ReadSimple(a: A.Fs, h: int, len: nat)
    requires LinksSimple(a)
    ensures LinksSimple(A.Read(a, h, len).0)
  {
  }

  lemma CallSimple(a: A.Fs, c: Call)
    requires LinksSimple(a)
    ensures LinksSimple(AbstractCall(a, c).0)
  {
    hide LinksSimple, A.OpenAt, A.Close, A.Write, A.Read, A.SymLink, A.HardLink, A.Unlink;
    match c
    case Open(path, mode) => OpenSimple(a, A.Destination(a, path), mode);
    case Close(h) => CloseSimple(a, h);
    case Write(h, buffer) => WriteSimple(a, h, buffer);
    case Read(h, len) => ReadSimple(a, h, len);
    case SymLink(target, link) => SymLinkSimple(a, target, link);
    case Link(target, link) => HardLinkSimple(a, target, link);
    case Unlink(path) => UnlinkSimple(a, path);
  }

  lemma {:induction false} RunSimple(a: A.Fs, calls: seq<Call>)
    requires LinksSimple(a) && NoGarbage(a)
    ensures LinksSimple(AbstractRun(a, calls).0) && NoGarbage(AbstractRun(a, calls).0)
    decreases |calls|
  {
    hide LinksSimple, NoGarbage, AbstractCall;
    if calls != [] {
      CallSimple(a, calls[0]);
      AbstractKeeps(a, calls[0]);
      RunSimple(AbstractCall(a, calls[0]).0, calls[1..]);
    }
  }

  /** After every run a symbolic link is open nowhere and has exactly one name. */
  lemma LinkHasOneName(p: Params, calls: seq<Call>, n: int) returns (x: CString)
    requires var a := AbstractRun(A.Empty(p), calls).0; n in a.nodes && a.nodes[n].Link?
    ensures var a := AbstractRun(A.Empty(p), calls).0;
      && !A.HasHandle(a, n)
      && forall y :: y in a.names && a.names[y] == n <==> y == x
  {
    RunSimple(A.Empty(p), calls);
    var a := AbstractRun(A.Empty(p), calls).0;
    x :| x in a.names && a.names[x] == n;
  }

  // ---- Lost blocks ----

  /** Loses a block: unlinking a symbolic link, or one refused by the directory after its block was taken. */
  ghost predicate LosesLink(a: A.Fs, c: Call) {
    match c
    case SymLink(target, link) => RefusesLink(a, target, link)
    case Unlink(path) => A.Find(a, path) in a.nodes && a.nodes[A.Find(a, path)].Link?
    case _ => false
  }

  ghost function LinkLosses(a: A.Fs, calls: seq<Call>): nat
    decreases |calls|
  {
    if calls == [] then 0
    else (if LosesLink(a, calls[0]) then 1 else 0) + LinkLosses(AbstractCall(a, calls[0]).0, calls[1..])
  }

  lemma LosesOnlyLinks(a: A.Fs, c: Call)
    requires LinksSimple(a)
    ensures LosesBlock(a, c) <==> LosesLink(a, c)
  {
    hide A.LeastFree, A.OutOfBlocks, A.CanBind;
  }

  lemma {:induction false} RunLosesOnlyLinks(a: A.Fs, calls: seq<Call>)
    requires LinksSimple(a)
    ensures Losses(a, calls) == LinkLosses(a, calls)
    decreases |calls|
  {
    hide LinksSimple, AbstractCall, LosesBlock, LosesLink;
    if calls != [] {
      LosesOnlyLinks(a, calls[0]);
      CallSimple(a, calls[0]);
      RunLosesOnlyLinks(AbstractCall(a, calls[0]).0, calls[1..]);
    }
  }

  /**
   After every run from a fresh file system the TAKEN blocks are the root's, one for each link and
   non-empty file, and one for each symbolic link that was unlinked or refused after it got a block.
   */
  lemma FreshAccounting(t: Tables, calls: seq<Call>)
    requires Inv(t) && Abs(t) == A.Empty(t.p) && CanRun(Abs(t), calls)
    ensures var u := ConcreteRun(t, calls).0;
      && Core(u)
      && |TakenBlocks(u)| == 1 + |A.BlockUsers(Abs(u))| + LinkLosses(A.Empty(t.p), calls)
  {
    hide *;
    RunAccounting(t, calls);
    FreshIsSimple(t);
    RunLosesOnlyLinks(Abs(t), calls);
  }

  lemma FreshIsSimple(t: Tables)
    requires Inv(t) && Abs(t) == A.Empty(t.p)
    ensures Core(t) && LinksSimple(Abs(t)) && |LostBlocks(t)| == 0
  {
    assert Abs(t).lost == |LostBlocks(t)|;
  }

  // ---- Two symbolic links ----

  /** A link name that fits a directory entry. */
  predicate Nameable(path: CString) {
    ValidPath(path) && ValidName(path[1..])
  }

  ghost function WithLink(p: Params, x: CString, y: CString): A.Fs
    requires Nameable(y)
  {
    A.Fs(p, map[y[1..] := 1], map[1 := A.Link(x)], map[], 0)
  }

  lemma FirstLink(p: Params, x: CString, y: CString)
    requires Nameable(x) && Nameable(y) && x != y
    requires p.inodes >= 2 && p.blocks >= 2 && EntryCapacity(p.blockSize) >= 1
    ensures A.SymLink(A.Empty(p), x, y) == (WithLink(p, x, y), 0)
  {
    var a := A.Empty(p);
    assert A.BlockUsers(a) == {};
    assert a.names[y[1..] := 1] == map[y[1..] := 1];
    assert a.nodes[1 := A.Link(x)] == map[1 := A.Link(x)];
  }

  lemma TailsDiffer(x: CString, y: CString)
    requires ValidPath(x) && ValidPath(y) && x != y
    ensures x[1..] != y[1..]
  {
    assert x == [x[0]] + x[1..] && y == [y[0]] + y[1..];
  }

  lemma SecondLink(p: Params, x: CString, y: CString)
    requires Nameable(x) && Nameable(y) && x != y
    requires p.inodes >= 3 && p.blocks >= 3 && EntryCapacity(p.blockSize) >= 2
    ensures var (b, r) := A.SymLink(WithLink(p, x, y), y, x);
      && r == 0 && A.Next(b, x) == Some(y) && A.Next(b, y) == Some(x)
  {
    var a := WithLink(p, x, y);
    TailsDiffer(x, y);
    assert A.BlockUsers(a) == {1};
    assert a.nodes.Keys == {1};
    assert A.LeastFree(a.nodes.Keys, 1, p.inodes) == 2;
    assert |a.names| == 1 by { assert a.names.Keys == {y[1..]}; }
  }

  /**
   tfs_sym_link accepts two links to each other on any fresh file system with room for them, and
   then tfs_open of either has no end.
   */
  lemma CycleIsAccepted(p: Params, x: CString, y: CString)
    requires Nameable(x) && Nameable(y) && x != y
    requires p.inodes >= 3 && p.blocks >= 3 && p.blockSize >= 2 * ENTRY_SIZE
    ensures var calls := [SymLink(x, y), SymLink(y, x)];
      && CanRun(A.Empty(p), calls)
      && var (a, results) := AbstractRun(A.Empty(p), calls);
      && results == [Outcome(0, []), Outcome(0, [])]
      && !A.Terminates(a, x) && !A.Terminates(a, y)
  {
    var calls := [SymLink(x, y), SymLink(y, x)];
    FirstLink(p, x, y);
    SecondLink(p, x, y);
    TwoCalls(A.Empty(p), calls[0], calls[1]);
    var a := AbstractRun(A.Empty(p), calls).0;
    hide A.SymLink, AbstractRun, A.Next, A.LinkNames;
    CycleNeverEnds(a, x, y, |A.LinkNames(a)|);
    TerminatesIff(a, x);
    TerminatesIff(a, y);
  }

  lemma TwoCalls(a: A.Fs, c: Call, d: Call)
    requires Enabled(a, c) && Enabled(AbstractCall(a, c).0, d)
    ensures CanRun(a, [c, d])
    ensures var (b, r) := AbstractCall(a, c); var (e, q) := AbstractCall(b, d);
      && AbstractRun(a, [c, d]) == (e, [r, q])
      && Losses(a, [c, d]) == (if LosesBlock(a, c) then 1 else 0) + (if LosesBlock(b, d) then 1 else 0)
  {
    hide AbstractCall, Enabled, LosesBlock;
    assert [c, d][1..] == [d] && [d][1..] == [];
    var b := AbstractCall(a, c).0;
    assert CanRun(b, [d]);
    var (e, q) := AbstractCall(b, d);
    assert AbstractRun(e, []) == (e, []) && [q] + [] == [q];
    assert AbstractRun(b, [d]) == (e, [q]);
    var r := AbstractCall(a, c).1;
    assert [r] + [q] == [r, q];
    assert AbstractRun(a, [c, d]) == (e, [r] + [q]);
    assert Losses(b, [d]) == if LosesBlock(b, d) then 1 else 0;
  }

  lemma UnlinksIt(p: Params, x: CString, y: CString)
    requires Nameable(y)
    ensures A.Unlink(WithLink(p, x, y), y) == (A.Empty(p).(lost := 1), 0)
    ensures LosesBlock(WithLink(p, x, y), Unlink(y))
  {
    var a := WithLink(p, x, y);
    assert a.names - {y[1..]} == map[];
    assert a.nodes - {1} == map[];
    assert A.Find(a, y) == 1;
    assert !A.HasHandle(a, 1);
  }

  /** A link made and unlinked leaves nothing behind but a lost block. */
  lemma LinkLosesItsBlock(p: Params, x: CString, y: CString)
    requires Nameable(x) && Nameable(y) && x != y
    requires p.inodes >= 2 && p.blocks >= 2 && p.blockSize >= ENTRY_SIZE
    ensures var calls := [SymLink(x, y), Unlink(y)];
      && CanRun(A.Empty(p), calls)
      && AbstractRun(A.Empty(p), calls) == (A.Empty(p).(lost := 1), [Outcome(0, []), Outcome(0, [])])
      && Losses(A.Empty(p), calls) == 1
  {
    var a := WithLink(p, x, y);
    FirstLink(p, x, y);
    UnlinksIt(p, x, y);
    TwoCalls(A.Empty(p), SymLink(x, y), Unlink(y));
  }
}
