/**
 tfs_link, tfs_unlink and tfs_close run by any number of threads, one lock-protected section
 at a time: link_lock (readers and a writer), the mutex of the open-file table, and the short
 sections under the directory lock and the inode lock, each of which is one step. Handles were
 opened beforehand and each is closed once.
 */
module LinkProtocol {
  import opened Bytes
  import opened FsTypes
  import opened Counting

  datatype Call = Link(target: CString, link: CString) | Unlink(path: CString) | Close(handle: int)

  datatype Thread =
    | Idle
    // tfs_link
    | LinkWant(target: CString, link: CString)
    | LinkLookup(target: CString, link: CString)
    | LinkAdd(n: int, link: CString)          // looked up the inode
    | LinkAdded(n: int, link: CString)        // the entry is in the directory, the count not yet raised
    | LinkEnd
    // tfs_unlink
    | UnlinkWant(path: CString)
    | UnlinkLookup(path: CString)
    | UnlinkClear(n: int, path: CString)
    | UnlinkCleared(n: int)                   // the entry is gone, waiting for the table mutex
    | UnlinkCount(n: int)                     // holds the table mutex, about to lower the count
    | UnlinkDelete(n: int)
    | UnlinkUnlock
    | UnlinkEnd
    // tfs_close
    | CloseWant(handle: int)
    | CloseFree(handle: int)                  // holds the table mutex
    | CloseTest(n: int)                       // the handle is free, about to test count and handles
    | CloseDelete(n: int)
    | CloseEnd

  datatype State = State(
    capacity: nat,
    symlinks: set<int>,            // inodes that are symbolic links
    names: map<CString, int>,      // the directory
    links: map<int, nat>,          // i_hard_links
    taken: set<int>,               // inodes marked TAKEN
    handles: map<int, int>,        // open handles
    deletions: multiset<int>,      // every run of inode_delete
    threads: seq<Thread>)

  // ---- Locks ----

  predicate Reads(t: Thread) {
    t.LinkLookup? || t.LinkAdd? || t.LinkAdded? || t.LinkEnd?
  }

  predicate Writes(t: Thread) {
    t.UnlinkLookup? || t.UnlinkClear? || t.UnlinkCleared? || t.UnlinkCount? || t.UnlinkDelete? || t.UnlinkUnlock? || t.UnlinkEnd?
  }

  predicate HoldsTable(t: Thread) {
    t.UnlinkCount? || t.UnlinkDelete? || t.UnlinkUnlock? || t.CloseFree? || t.CloseTest? || t.CloseDelete? || t.CloseEnd?
  }

  predicate NoWriter(s: State) {
    forall j :: 0 <= j < |s.threads| ==> !Writes(s.threads[j])
  }

  predicate NoReader(s: State) {
    forall j :: 0 <= j < |s.threads| ==> !Reads(s.threads[j])
  }

  predicate TableFree(s: State) {
    forall j :: 0 <= j < |s.threads| ==> !HoldsTable(s.threads[j])
  }

  // ---- Steps ----

  datatype Step = Begin(i: nat, call: Call) | Advance(i: nat)

  predicate IsOpen(s: State, n: int) {
    exists h :: h in s.handles && s.handles[h] == n
  }

  predicate Enabled(s: State, e: Step) {
    match e
    case Begin(i, call) =>
      && i < |s.threads| && s.threads[i].Idle?
      && (call.Close? ==> forall j :: 0 <= j < |s.threads| ==>
            s.threads[j] != CloseWant(call.handle) && s.threads[j] != CloseFree(call.handle))
    case Advance(i) =>
      && i < |s.threads| && !s.threads[i].Idle?
      && match s.threads[i]
         case LinkWant(_, _) => NoWriter(s)
         case UnlinkWant(_) => NoReader(s) && NoWriter(s)
         case UnlinkCleared(_) => TableFree(s)
         case CloseWant(_) => TableFree(s)
         case _ => true
  }

  function Links(s: State, n: int): nat {
    if n in s.links then s.links[n] else 0
  }

  function Delete(s: State, n: int): State {
    s.(taken := s.taken - {n}, deletions := s.deletions + multiset{n})
  }

  /** Where a thread goes next. */
  function Next(s: State, t: Thread): Thread {
    match t
    case LinkWant(target, link) => LinkLookup(target, link)
    case LinkLookup(target, link) => if target in s.names then LinkAdd(s.names[target], link) else LinkEnd
    case LinkAdd(n, link) => if CanAdd(s, link) then LinkAdded(n, link) else LinkEnd
    case LinkAdded(_, _) => LinkEnd
    case LinkEnd => Idle
    case UnlinkWant(path) => UnlinkLookup(path)
    case UnlinkLookup(path) => if path in s.names then UnlinkClear(s.names[path], path) else UnlinkEnd
    case UnlinkClear(n, path) => if path in s.names then UnlinkCleared(n) else UnlinkEnd
    case UnlinkCleared(n) => UnlinkCount(n)
    case UnlinkCount(n) => if Decrement(Links(s, n)) == 0 && !IsOpen(s, n) then UnlinkDelete(n) else UnlinkUnlock
    case UnlinkDelete(_) => UnlinkUnlock
    case UnlinkUnlock => UnlinkEnd
    case UnlinkEnd => Idle
    case CloseWant(h) => CloseFree(h)
    case CloseFree(h) => if h in s.handles then CloseTest(s.handles[h]) else CloseEnd
    case CloseTest(n) => if Links(s, n) == 0 && !IsOpen(s, n) then CloseDelete(n) else CloseEnd
    case CloseDelete(_) => CloseEnd
    case CloseEnd => Idle
    case Idle => Idle
  }

  predicate CanAdd(s: State, link: CString) {
    ValidName(link) && link !in s.names && |s.names| < s.capacity
  }

  /** What the thread's section does to the tables. */
  function Effect(s: State, t: Thread): State {
    match t
    case LinkAdd(n, link) => if CanAdd(s, link) then s.(names := s.names[link := n]) else s
    case LinkAdded(n, link) =>
      if n in s.symlinks then s.(names := s.names - {link}) else s.(links := s.links[n := Links(s, n) + 1])
    case UnlinkClear(_, path) => s.(names := s.names - {path})
    case UnlinkCount(n) => s.(links := s.links[n := Decrement(Links(s, n))])
    case UnlinkDelete(n) => Delete(s, n)
    case CloseFree(h) => s.(handles := s.handles - {h})
    case CloseDelete(n) => Delete(s, n)
    case _ => s
  }

  function Entry(s: State, call: Call): Thread {
    match call
    case Link(target, link) => LinkWant(target, link)
    case Unlink(path) => UnlinkWant(path)
    case Close(h) => if h in s.handles then CloseWant(h) else Idle
  }

  function Apply(s: State, e: Step): State
    requires Enabled(s, e)
  {
    match e
    case Begin(i, call) => s.(threads := s.threads[i := Entry(s, call)])
    case Advance(i) => Effect(s, s.threads[i]).(threads := s.threads[i := Next(s, s.threads[i])])
  }

  // ---- Counting ----

  ghost function Entries(s: State, n: int): set<CString> {
    set x | x in s.names && s.names[x] == n
  }

  datatype Class = Adding(n: int) | Clearing(n: int)

  predicate In(t: Thread, c: Class) {
    match c
    case Adding(n) => t.LinkAdded? && t.n == n
    case Clearing(n) => (t.UnlinkCleared? || t.UnlinkCount?) && t.n == n
  }

  function Is(c: Class): Thread -> bool {
    t => In(t, c)
  }

  // ---- Invariant ----

  ghost predicate LocksOk(s: State) {
    forall i, j :: 0 <= i < |s.threads| && 0 <= j < |s.threads| && i != j ==>
      && (Writes(s.threads[i]) ==> !Writes(s.threads[j]) && !Reads(s.threads[j]))
      && (HoldsTable(s.threads[i]) ==> !HoldsTable(s.threads[j]))
  }

  /** Names and handles lead to inodes that are TAKEN. */
  ghost predicate RefsOk(s: State) {
    && (forall x :: x in s.names ==> s.names[x] in s.taken)
    && (forall h :: h in s.handles ==> s.handles[h] in s.taken)
  }

  /** Directory entries equal the count plus links still to raise it minus unlinks still to lower it. */
  ghost predicate CountOk(s: State, n: int) {
    |Entries(s, n)| + Number(s.threads, Is(Clearing(n))) == Links(s, n) + Number(s.threads, Is(Adding(n)))
  }

  /** What each thread in flight can rely on. */
  ghost predicate ThreadOk(s: State, t: Thread) {
    match t
    case LinkAdd(n, _) => n in s.taken && Links(s, n) >= 1
    case LinkAdded(n, link) => n in s.taken && Links(s, n) >= 1 && link in s.names && s.names[link] == n
    case UnlinkClear(n, path) => path in s.names && s.names[path] == n
    case UnlinkCleared(n) => n in s.taken
    case UnlinkCount(n) => n in s.taken
    case UnlinkDelete(n) => n in s.taken && Links(s, n) == 0 && !IsOpen(s, n)
    case CloseWant(h) => h in s.handles
    case CloseFree(h) => h in s.handles
    case CloseTest(n) => n in s.taken
    case CloseDelete(n) => n in s.taken && Links(s, n) == 0 && !IsOpen(s, n)
    case _ => true
  }

  /** Two links in flight never share a name, two closes never share a handle. */
  ghost predicate Distinct(s: State) {
    forall i, j :: 0 <= i < |s.threads| && 0 <= j < |s.threads| && i != j ==>
      && (s.threads[i].LinkAdded? && s.threads[j].LinkAdded? ==> s.threads[i].link != s.threads[j].link)
      && (Closing(s.threads[i]) && Closing(s.threads[j]) ==> s.threads[i].handle != s.threads[j].handle)
  }

  predicate Closing(t: Thread) {
    t.CloseWant? || t.CloseFree?
  }

  predicate Reaps(t: Thread, n: int) {
    (t.UnlinkDelete? || t.CloseTest? || t.CloseDelete?) && t.n == n
  }

  /** An inode with no name counted and no handle is about to be deleted by some thread. */
  ghost predicate PendingDelete(s: State, n: int) {
    n in s.taken && Links(s, n) == 0 && !IsOpen(s, n) ==> exists i :: 0 <= i < |s.threads| && Reaps(s.threads[i], n)
  }

  ghost predicate DeletedOnce(s: State, all: set<int>) {
    && s.taken <= all
    && forall n :: s.deletions[n] == if n in all && n !in s.taken then 1 else 0
  }

  ghost predicate Inv(s: State, all: set<int>) {
    && LocksOk(s) && RefsOk(s) && Distinct(s) && DeletedOnce(s, all)
    && (forall i :: 0 <= i < |s.threads| ==> ThreadOk(s, s.threads[i]))
    && (forall n :: CountOk(s, n))
    && (forall n :: PendingDelete(s, n))
  }

  // ---- Preservation ----

  lemma EntriesAdd(s: State, u: State, x: CString, m: int, n: int)
    requires x !in s.names && u.names == s.names[x := m]
    ensures |Entries(u, n)| == |Entries(s, n)| + One(n == m)
  {
    if n == m {
      assert Entries(u, n) == Entries(s, n) + {x};
    } else {
      assert Entries(u, n) == Entries(s, n);
    }
  }

  lemma EntriesRemove(s: State, u: State, x: CString, n: int)
    requires x in s.names && u.names == s.names - {x}
    ensures |Entries(u, n)| == |Entries(s, n)| - One(n == s.names[x])
  {
    if n == s.names[x] {
      assert Entries(u, n) == Entries(s, n) - {x};
    } else {
      assert Entries(u, n) == Entries(s, n);
    }
  }

  lemma Named(s: State, x: CString)
    requires x in s.names
    ensures |Entries(s, s.names[x])| >= 1
  {
    assert x in Entries(s, s.names[x]);
  }

  /** A name a linker finds belongs to an inode whose count is already positive. */
  lemma FoundIsCounted(s: State, all: set<int>, i: nat, x: CString)
    requires Inv(s, all) && i < |s.threads| && Reads(s.threads[i]) && x in s.names
    ensures Links(s, s.names[x]) >= 1
  {
    var n := s.names[x];
    Named(s, x);
    assert CountOk(s, n);
    NumberZero(s.threads, Is(Adding(n)));
    NumberZero(s.threads, Is(Clearing(n)));
    assert forall t :: In(t, Clearing(n)) ==> Writes(t);
    if Number(s.threads, Is(Adding(n))) > 0 {
      var k :| 0 <= k < |s.threads| && In(s.threads[k], Adding(n));
      assert ThreadOk(s, s.threads[k]);
    }
  }

  /** An unlink past its clear has at least its own count to take back. */
  lemma ClearedIsCounted(s: State, all: set<int>, i: nat)
    requires Inv(s, all) && i < |s.threads| && (s.threads[i].UnlinkCleared? || s.threads[i].UnlinkCount?)
    ensures Links(s, s.threads[i].n) >= 1
  {
    var n := s.threads[i].n;
    assert CountOk(s, n);
    assert In(s.threads[i], Clearing(n));
    NumberZero(s.threads, Is(Clearing(n)));
    assert Writes(s.threads[i]);
    assert forall t :: In(t, Adding(n)) ==> Reads(t);
    NumberZero(s.threads, Is(Adding(n)));
  }

  /** An inode a thread may still use. */
  predicate Uses(t: Thread, n: int) {
    (t.LinkAdd? || t.LinkAdded? || t.UnlinkClear? || t.UnlinkCleared? || t.UnlinkCount?) && t.n == n
  }

  /** inode_delete runs only on an inode that is TAKEN and that no name, handle or call in flight refers to. */
  lemma DeleteIsSafe(s: State, all: set<int>, i: nat)
    requires Inv(s, all) && i < |s.threads| && (s.threads[i].UnlinkDelete? || s.threads[i].CloseDelete?)
    ensures var n := s.threads[i].n;
      && n in s.taken && n in all && s.deletions[n] == 0
      && (forall x :: x in s.names ==> s.names[x] != n)
      && !IsOpen(s, n)
      && (forall k :: 0 <= k < |s.threads| ==> !Uses(s.threads[k], n))
      && (forall k :: 0 <= k < |s.threads| && k != i ==> !Reaps(s.threads[k], n))
  {
    var n := s.threads[i].n;
    assert ThreadOk(s, s.threads[i]);
    assert CountOk(s, n);
    forall k | 0 <= k < |s.threads|
      ensures !In(s.threads[k], Adding(n))
    {
      assert ThreadOk(s, s.threads[k]);
    }
    NumberZero(s.threads, Is(Adding(n)));
    NumberZero(s.threads, Is(Clearing(n)));
    forall x | x in s.names
      ensures s.names[x] != n
    {
      if s.names[x] == n {
        Named(s, x);
      }
    }
    forall k | 0 <= k < |s.threads|
      ensures !Uses(s.threads[k], n)
    {
      assert ThreadOk(s, s.threads[k]);
      assert !In(s.threads[k], Clearing(n));
    }
    assert HoldsTable(s.threads[i]);
    assert forall t :: Reaps(t, n) ==> HoldsTable(t);
  }

  /** A step moves one thread. */
  lemma StepMoves(s: State, e: Step)
    requires Enabled(s, e)
    ensures |Apply(s, e).threads| == |s.threads|
    ensures Apply(s, e).threads == s.threads[e.i := Apply(s, e).threads[e.i]]
  {
  }

  lemma LocksUpdate(s: State, u: State, i: nat, t: Thread)
    requires LocksOk(s) && i < |s.threads| && u.threads == s.threads[i := t]
    requires Writes(t) && !Writes(s.threads[i]) ==> NoReader(s) && NoWriter(s)
    requires Reads(t) && !Reads(s.threads[i]) ==> NoWriter(s)
    requires HoldsTable(t) && !HoldsTable(s.threads[i]) ==> TableFree(s)
    ensures LocksOk(u)
  {
  }

  lemma StepLocks(s: State, e: Step)
    requires LocksOk(s) && Enabled(s, e)
    ensures LocksOk(Apply(s, e))
  {
    hide LocksOk, NoReader, NoWriter, TableFree;
    StepMoves(s, e);
    NewLocks(s, e);
    hide Apply;
    LocksUpdate(s, Apply(s, e), e.i, Apply(s, e).threads[e.i]);
  }

  /** A lock is gained only by the step that waits for it. */
  lemma NewLocks(s: State, e: Step)
    requires Enabled(s, e)
    ensures var t, u := s.threads[e.i], Apply(s, e).threads;
      && |u| == |s.threads|
      && (Writes(u[e.i]) && !Writes(t) ==> NoReader(s) && NoWriter(s))
      && (Reads(u[e.i]) && !Reads(t) ==> NoWriter(s))
      && (HoldsTable(u[e.i]) && !HoldsTable(t) ==> TableFree(s))
  {
  }

  lemma DistinctUpdate(s: State, u: State, i: nat, t: Thread)
    requires Distinct(s) && i < |s.threads| && u.threads == s.threads[i := t]
    requires t.LinkAdded? ==> forall k :: 0 <= k < |s.threads| && s.threads[k].LinkAdded? ==> s.threads[k].link != t.link
    requires Closing(t) && !(Closing(s.threads[i]) && s.threads[i].handle == t.handle) ==>
      forall k :: 0 <= k < |s.threads| && Closing(s.threads[k]) ==> s.threads[k].handle != t.handle
    ensures Distinct(u)
  {
  }

  lemma StepDistinct(s: State, all: set<int>, e: Step)
    requires Inv(s, all) && Enabled(s, e)
    ensures Distinct(Apply(s, e))
  {
    hide LocksOk, RefsOk, DeletedOnce, CountOk, PendingDelete, Distinct;
    StepMoves(s, e);
    var t := Apply(s, e).threads[e.i];
    if t.LinkAdded? {
      forall k | 0 <= k < |s.threads| && s.threads[k].LinkAdded?
        ensures s.threads[k].link != t.link
      {
        assert ThreadOk(s, s.threads[k]);
      }
    }
    DistinctUpdate(s, Apply(s, e), e.i, t);
  }

  lemma StepRefs(s: State, all: set<int>, e: Step)
    requires Inv(s, all) && Enabled(s, e)
    ensures RefsOk(Apply(s, e))
  {
    if e.Advance? {
      assert ThreadOk(s, s.threads[e.i]);
      if s.threads[e.i].UnlinkDelete? || s.threads[e.i].CloseDelete? {
        DeleteIsSafe(s, all, e.i);
      }
    }
  }

  lemma StepDeleted(s: State, all: set<int>, e: Step)
    requires Inv(s, all) && Enabled(s, e)
    ensures DeletedOnce(Apply(s, e), all)
  {
  }

  /** Steps that leave names, counts and the two windows alone. */
  lemma QuietCount(s: State, u: State, i: nat, n: int)
    requires CountOk(s, n) && i < |s.threads| == |u.threads| && u.threads == s.threads[i := u.threads[i]]
    requires u.names == s.names && u.links == s.links
    requires forall c :: In(u.threads[i], c) <==> In(s.threads[i], c)
    ensures CountOk(u, n)
  {
    NumberUpdate(s.threads, i, u.threads[i], Is(Adding(n)));
    NumberUpdate(s.threads, i, u.threads[i], Is(Clearing(n)));
    assert Entries(u, n) == Entries(s, n);
  }

  predicate Touches(t: Thread) {
    t.LinkAdd? || t.LinkAdded? || t.UnlinkClear? || t.UnlinkCount?
  }

  lemma TouchCount(s: State, all: set<int>, i: nat, n: int)
    requires Inv(s, all) && i < |s.threads| && Touches(s.threads[i]) && Enabled(s, Advance(i))
    ensures CountOk(Apply(s, Advance(i)), n)
  {
    hide LocksOk, RefsOk, DeletedOnce, PendingDelete, Distinct, Number, Entries;
    var u := Apply(s, Advance(i));
    var t := s.threads[i];
    assert CountOk(s, n) && ThreadOk(s, t);
    NumberUpdate(s.threads, i, u.threads[i], Is(Adding(n)));
    NumberUpdate(s.threads, i, u.threads[i], Is(Clearing(n)));
    StepMoves(s, Advance(i));
    match t
    case LinkAdd(_, link) =>
      if CanAdd(s, link) {
        EntriesAdd(s, u, link, t.n, n);
      } else {
        EntriesSame(s, u, n);
      }
    case LinkAdded(_, link) =>
      if t.n in s.symlinks {
        EntriesRemove(s, u, link, n);
      } else {
        EntriesSame(s, u, n);
      }
    case UnlinkClear(_, path) => EntriesRemove(s, u, path, n);
    case UnlinkCount(_) =>
      EntriesSame(s, u, n);
      ClearedIsCounted(s, all, i);
  }

  lemma EntriesSame(s: State, u: State, n: int)
    requires u.names == s.names
    ensures Entries(u, n) == Entries(s, n)
  {
  }

  lemma StepCount(s: State, all: set<int>, e: Step, n: int)
    requires Inv(s, all) && Enabled(s, e)
    ensures CountOk(Apply(s, e), n)
  {
    hide LocksOk, RefsOk, DeletedOnce, PendingDelete, Distinct, Number, Entries, ThreadOk;
    StepMoves(s, e);
    assert CountOk(s, n);
    if e.Advance? && Touches(s.threads[e.i]) {
      TouchCount(s, all, e.i, n);
    } else {
      QuietCount(s, Apply(s, e), e.i, n);
    }
  }

  // ---- Threads and pending deletes ----

  lemma SameOpen(s: State, u: State, n: int)
    requires u.handles == s.handles
    ensures IsOpen(u, n) == IsOpen(s, n)
  {
  }

  /** A linker finds an inode that is TAKEN and counted, and goes on with it. */
  lemma LinkMover(s: State, all: set<int>, i: nat)
    requires Inv(s, all) && Enabled(s, Advance(i)) && (s.threads[i].LinkWant? || Reads(s.threads[i]))
    ensures var u := Apply(s, Advance(i)); |u.threads| == |s.threads| && ThreadOk(u, u.threads[i])
  {
    hide LocksOk, DeletedOnce, PendingDelete, Distinct, CountOk, NoReader, NoWriter, TableFree, IsOpen;
    var t := s.threads[i];
    assert ThreadOk(s, t);
    if t.LinkLookup? && t.target in s.names {
      FoundIsCounted(s, all, i, t.target);
    }
  }

  lemma UnlinkMover(s: State, all: set<int>, i: nat)
    requires Inv(s, all) && Enabled(s, Advance(i)) && (s.threads[i].UnlinkWant? || Writes(s.threads[i]))
    ensures var u := Apply(s, Advance(i)); |u.threads| == |s.threads| && ThreadOk(u, u.threads[i])
  {
    hide LocksOk, DeletedOnce, PendingDelete, Distinct, CountOk, NoReader, NoWriter, TableFree, IsOpen;
    var t := s.threads[i];
    assert ThreadOk(s, t);
    if t.UnlinkCount? {
      SameOpen(s, Apply(s, Advance(i)), t.n);
    }
  }

  lemma CloseMover(s: State, all: set<int>, i: nat)
    requires Inv(s, all) && Enabled(s, Advance(i))
    requires Closing(s.threads[i]) || s.threads[i].CloseTest? || s.threads[i].CloseDelete? || s.threads[i].CloseEnd?
    ensures var u := Apply(s, Advance(i)); |u.threads| == |s.threads| && ThreadOk(u, u.threads[i])
  {
    hide LocksOk, DeletedOnce, PendingDelete, Distinct, CountOk, NoReader, NoWriter, TableFree, IsOpen;
    var t := s.threads[i];
    assert ThreadOk(s, t);
    if t.CloseTest? {
      SameOpen(s, Apply(s, Advance(i)), t.n);
    }
  }

  lemma AdvanceMover(s: State, all: set<int>, i: nat)
    requires Inv(s, all) && Enabled(s, Advance(i))
    ensures var u := Apply(s, Advance(i)); |u.threads| == |s.threads| && ThreadOk(u, u.threads[i])
  {
    hide Inv, Apply, ThreadOk;
    var t := s.threads[i];
    if t.LinkWant? || Reads(t) {
      LinkMover(s, all, i);
    } else if t.UnlinkWant? || Writes(t) {
      UnlinkMover(s, all, i);
    } else {
      CloseMover(s, all, i);
    }
  }

  lemma OthersAfterLink(s: State, all: set<int>, i: nat, k: nat)
    requires Inv(s, all) && i < |s.threads| && (s.threads[i].LinkAdd? || s.threads[i].LinkAdded?) && k < |s.threads| && k != i
    ensures ThreadOk(Effect(s, s.threads[i]), s.threads[k])
  {
  }

  lemma OthersAfterUnlink(s: State, all: set<int>, i: nat, k: nat)
    requires Inv(s, all) && i < |s.threads| && (s.threads[i].UnlinkClear? || s.threads[i].UnlinkCount?) && k < |s.threads| && k != i
    ensures ThreadOk(Effect(s, s.threads[i]), s.threads[k])
  {
  }

  lemma OthersAfterDelete(s: State, all: set<int>, i: nat, k: nat)
    requires Inv(s, all) && i < |s.threads| && (s.threads[i].UnlinkDelete? || s.threads[i].CloseDelete?) && k < |s.threads| && k != i
    ensures ThreadOk(Effect(s, s.threads[i]), s.threads[k])
  {
    hide LocksOk, Distinct, DeletedOnce, PendingDelete, CountOk;
    assert ThreadOk(s, s.threads[k]);
    DeleteIsSafe(s, all, i);
  }

  lemma OthersAfterClose(s: State, all: set<int>, i: nat, k: nat)
    requires Inv(s, all) && i < |s.threads| && s.threads[i].CloseFree? && k < |s.threads| && k != i
    ensures ThreadOk(Effect(s, s.threads[i]), s.threads[k])
  {
  }

  /** Nothing a thread relies on is disturbed by a step of another thread. */
  lemma AdvanceOthers(s: State, all: set<int>, i: nat, k: nat)
    requires Inv(s, all) && Enabled(s, Advance(i)) && k < |s.threads| && k != i
    ensures var u := Apply(s, Advance(i)); |u.threads| == |s.threads| && u.threads[k] == s.threads[k] && ThreadOk(u, s.threads[k])
  {
    hide LocksOk, Distinct, DeletedOnce, PendingDelete, CountOk, NoReader, NoWriter, TableFree;
    var t := s.threads[i];
    assert ThreadOk(s, s.threads[k]);
    if t.LinkAdd? || t.LinkAdded? {
      OthersAfterLink(s, all, i, k);
    } else if t.UnlinkClear? || t.UnlinkCount? {
      OthersAfterUnlink(s, all, i, k);
    } else if t.UnlinkDelete? || t.CloseDelete? {
      OthersAfterDelete(s, all, i, k);
    } else if t.CloseFree? {
      OthersAfterClose(s, all, i, k);
    } else {
      assert Effect(s, t) == s;
    }
    SameTables(Effect(s, t), Apply(s, Advance(i)), s.threads[k]);
  }

  lemma SameTables(s: State, u: State, t: Thread)
    requires u == s.(threads := u.threads) && ThreadOk(s, t)
    ensures ThreadOk(u, t)
  {
  }

  lemma StepThreads(s: State, all: set<int>, e: Step, k: nat)
    requires Inv(s, all) && Enabled(s, e) && k < |s.threads|
    ensures var u := Apply(s, e); |u.threads| == |s.threads| && ThreadOk(u, u.threads[k])
  {
    hide LocksOk, DeletedOnce, PendingDelete, Distinct, CountOk;
    match e
    case Begin(i, call) =>
      assert ThreadOk(s, s.threads[k]);
    case Advance(i) =>
      if k == i {
        AdvanceMover(s, all, i);
      } else {
        AdvanceOthers(s, all, i, k);
      }
  }

  /** The step that takes away the last counted name or the last handle is the one that goes on to reap. */
  lemma BecomesPending(s: State, all: set<int>, e: Step, n: int)
    requires Inv(s, all) && Enabled(s, e)
    requires n in s.taken && (Links(s, n) > 0 || IsOpen(s, n))
    ensures var u := Apply(s, e);
      n in u.taken && Links(u, n) == 0 && !IsOpen(u, n) ==> |u.threads| == |s.threads| && Reaps(u.threads[e.i], n)
  {
    hide LocksOk, Distinct, CountOk, PendingDelete, DeletedOnce;
    var u := Apply(s, e);
    if e.Advance? && s.threads[e.i].CloseFree? && IsOpen(s, n) {
      var h :| h in s.handles && s.handles[h] == n;
      assert h != s.threads[e.i].handle ==> h in u.handles && u.handles[h] == n;
    } else if IsOpen(s, n) {
      SameHandles(s, e);
    }
  }

  lemma SameHandles(s: State, e: Step)
    requires Enabled(s, e) && !(e.Advance? && s.threads[e.i].CloseFree?)
    ensures Apply(s, e).handles == s.handles
  {
  }

  /** A pending delete stays pending until it is carried out. */
  lemma StaysPending(s: State, all: set<int>, e: Step, n: int, r: nat)
    requires Inv(s, all) && Enabled(s, e) && r < |s.threads| && Reaps(s.threads[r], n)
    requires Links(s, n) == 0 && !IsOpen(s, n)
    ensures var u := Apply(s, e); n in u.taken ==> |u.threads| == |s.threads| && Reaps(u.threads[r], n)
  {
  }

  lemma StepPending(s: State, all: set<int>, e: Step, n: int)
    requires Inv(s, all) && Enabled(s, e)
    ensures PendingDelete(Apply(s, e), n)
  {
    hide LocksOk, Distinct, CountOk, DeletedOnce, ThreadOk, RefsOk, Apply, IsOpen;
    var u := Apply(s, e);
    assert PendingDelete(s, n);
    TakenShrinks(s, e);
    if n in s.taken {
      if Links(s, n) == 0 && !IsOpen(s, n) {
        var r :| 0 <= r < |s.threads| && Reaps(s.threads[r], n);
        StaysPending(s, all, e, n, r);
      } else {
        BecomesPending(s, all, e, n);
      }
    }
  }

  lemma TakenShrinks(s: State, e: Step)
    requires Enabled(s, e)
    ensures Apply(s, e).taken <= s.taken
  {
  }

  lemma StepInv(s: State, all: set<int>, e: Step)
    requires Inv(s, all) && Enabled(s, e)
    ensures Inv(Apply(s, e), all)
  {
    hide LocksOk, RefsOk, Distinct, DeletedOnce, ThreadOk, CountOk, PendingDelete, Apply;
    StepLocks(s, e);
    StepRefs(s, all, e);
    StepDistinct(s, all, e);
    StepDeleted(s, all, e);
    var u := Apply(s, e);
    StepMoves(s, e);
    forall k | 0 <= k < |u.threads|
      ensures ThreadOk(u, u.threads[k])
    {
      StepThreads(s, all, e, k);
    }
    forall n
      ensures CountOk(u, n) && PendingDelete(u, n)
    {
      StepCount(s, all, e, n);
      StepPending(s, all, e, n);
    }
  }

  // ---- Runs ----

  /** Nobody in a call, every TAKEN inode named or open, counts equal to entries. */
  ghost predicate Initial(s: State) {
    && (forall i :: 0 <= i < |s.threads| ==> s.threads[i].Idle?)
    && RefsOk(s) && s.deletions == multiset{}
    && (forall n :: |Entries(s, n)| == Links(s, n))
    && (forall n :: n in s.taken ==> Links(s, n) > 0 || IsOpen(s, n))
  }

  lemma InitialInv(s: State)
    requires Initial(s)
    ensures Inv(s, s.taken)
  {
    forall n
      ensures CountOk(s, n)
    {
      NumberZero(s.threads, Is(Adding(n)));
      NumberZero(s.threads, Is(Clearing(n)));
    }
  }

  ghost predicate CanRun(s: State, run: seq<Step>)
    decreases |run|
  {
    run == [] || (Enabled(s, run[0]) && CanRun(Apply(s, run[0]), run[1..]))
  }

  ghost function After(s: State, run: seq<Step>): State
    requires CanRun(s, run)
    decreases |run|
  {
    if run == [] then s else After(Apply(s, run[0]), run[1..])
  }

  lemma {:induction false} RunInv(s: State, all: set<int>, run: seq<Step>)
    requires Inv(s, all) && CanRun(s, run)
    ensures Inv(After(s, run), all)
    decreases |run|
  {
    hide Inv, Apply, Enabled;
    if run != [] {
      StepInv(s, all, run[0]);
      RunInv(Apply(s, run[0]), all, run[1..]);
    }
  }

  /**
   In every interleaving no inode is deleted twice, a TAKEN inode that lost its last counted name
   and its last handle has a thread about to delete it, and names, handles and calls in flight
   only ever refer to TAKEN inodes.
   */
  lemma DeleteAtMostOnce(s: State, run: seq<Step>)
    requires Initial(s) && CanRun(s, run)
    ensures var u := After(s, run);
      && (forall n :: u.deletions[n] <= 1)
      && (forall n :: u.deletions[n] == 1 <==> n in s.taken && n !in u.taken)
      && (forall n :: n !in u.taken ==> n !in u.names.Values && !IsOpen(u, n))
      && (forall n, i :: 0 <= i < |u.threads| && n !in u.taken ==> !Uses(u.threads[i], n) && !Reaps(u.threads[i], n))
      && (forall n :: PendingDelete(u, n))
  {
    InitialInv(s);
    RunInv(s, s.taken, run);
    var u := After(s, run);
    forall n, i | 0 <= i < |u.threads| && n !in u.taken
      ensures !Uses(u.threads[i], n) && !Reaps(u.threads[i], n)
    {
      assert ThreadOk(u, u.threads[i]);
    }
  }

  /** Once every call has returned, an inode survives exactly if it is named or open, and its count is its number of names. */
  lemma QuietIsExact(s: State, run: seq<Step>)
    requires Initial(s) && CanRun(s, run)
    requires forall i :: 0 <= i < |After(s, run).threads| ==> After(s, run).threads[i].Idle?
    ensures var u := After(s, run);
      && (forall n :: Links(u, n) == |Entries(u, n)|)
      && (forall n :: n in s.taken ==> (n in u.taken <==> Entries(u, n) != {} || IsOpen(u, n)))
      && (forall n :: n in s.taken ==> u.deletions[n] == if Entries(u, n) != {} || IsOpen(u, n) then 0 else 1)
  {
    InitialInv(s);
    RunInv(s, s.taken, run);
    var u := After(s, run);
    forall n
      ensures Links(u, n) == |Entries(u, n)|
      ensures n in s.taken ==> (n in u.taken <==> Entries(u, n) != {} || IsOpen(u, n))
    {
      assert CountOk(u, n) && PendingDelete(u, n);
      NumberZero(u.threads, Is(Adding(n)));
      NumberZero(u.threads, Is(Clearing(n)));
      if Entries(u, n) != {} {
        var x :| x in Entries(u, n);
        assert u.names[x] == n;
      }
    }
  }

  /** An unlink that just obtained link_lock for writing sees count and entries agree for every inode. */
  lemma WriterSeesExactCounts(s: State, run: seq<Step>, i: nat, n: int)
    requires Initial(s) && CanRun(s, run)
    requires i < |After(s, run).threads| && (After(s, run).threads[i].UnlinkLookup? || After(s, run).threads[i].UnlinkClear?)
    ensures Links(After(s, run), n) == |Entries(After(s, run), n)|
  {
    InitialInv(s);
    RunInv(s, s.taken, run);
    var u := After(s, run);
    assert CountOk(u, n);
    assert Writes(u.threads[i]);
    assert forall t :: In(t, Adding(n)) ==> Reads(t);
    assert forall t :: In(t, Clearing(n)) ==> Writes(t);
    NumberZero(u.threads, Is(Adding(n)));
    NumberZero(u.threads, Is(Clearing(n)));
  }

  /** Every step that runs inode_delete or frees a handle finds what its ALWAYS_ASSERT demands. */
  lemma NoPanic(s: State, run: seq<Step>, i: nat)
    requires Initial(s) && CanRun(s, run) && i < |After(s, run).threads|
    ensures var u := After(s, run); var t := u.threads[i];
      && (t.UnlinkDelete? || t.CloseDelete? ==> t.n in u.taken)
      && (t.CloseFree? ==> t.handle in u.handles && u.handles[t.handle] in u.taken)
      && (t.UnlinkCount? ==> Links(u, t.n) > 0)
  {
    InitialInv(s);
    RunInv(s, s.taken, run);
    var u := After(s, run);
    assert ThreadOk(u, u.threads[i]);
    if u.threads[i].UnlinkCount? {
      ClearedIsCounted(u, s.taken, i);
    }
  }
}
