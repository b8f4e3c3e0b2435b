/**
 What the calls of the link protocol achieve: alone, exactly what the abstract file system says;
 among others, what they promise at the moment they return; and every call does return.
 */
module LinkCalls {
  import opened Bytes
  import opened FsTypes
  import opened LinkProtocol
  import opened Counting
  import Directory
  import A = AbstractFs

  // ---- Every call returns ----

  /** Some call in flight can always take its next step. */
  lemma SomeStep(s: State) returns (k: nat)
    requires exists i :: 0 <= i < |s.threads| && !s.threads[i].Idle?
    ensures Enabled(s, Advance(k))
  {
    if i :| 0 <= i < |s.threads| && HoldsTable(s.threads[i]) {
      k := i;
    } else if i :| 0 <= i < |s.threads| && (Writes(s.threads[i]) || Reads(s.threads[i]) || s.threads[i].CloseWant?) {
      k := i;
    } else {
      k :| k < |s.threads| && !s.threads[k].Idle?;
    }
  }

  /** A call that cannot step waits for link_lock or the table of open files, and somebody holds it: links wait for no other link. */
  lemma WaitsFor(s: State, i: nat) returns (j: nat)
    requires i < |s.threads| && !s.threads[i].Idle? && !Enabled(s, Advance(i))
    ensures j < |s.threads|
    ensures var t, o := s.threads[i], s.threads[j];
      || (t.LinkWant? && Writes(o))
      || (t.UnlinkWant? && (Reads(o) || Writes(o)))
      || ((t.UnlinkCleared? || t.CloseWant?) && HoldsTable(o))
  {
    var t := s.threads[i];
    if t.LinkWant? {
      j :| j < |s.threads| && Writes(s.threads[j]);
    } else if t.UnlinkWant? {
      j :| j < |s.threads| && (Reads(s.threads[j]) || Writes(s.threads[j]));
    } else {
      j :| j < |s.threads| && HoldsTable(s.threads[j]);
    }
  }

  function StepsLeft(t: Thread): nat {
    match t
    case Idle => 0
    case LinkWant(_, _) => 5
    case LinkLookup(_, _) => 4
    case LinkAdd(_, _) => 3
    case LinkAdded(_, _) => 2
    case LinkEnd => 1
    case UnlinkWant(_) => 8
    case UnlinkLookup(_) => 7
    case UnlinkClear(_, _) => 6
    case UnlinkCleared(_) => 5
    case UnlinkCount(_) => 4
    case UnlinkDelete(_) => 3
    case UnlinkUnlock => 2
    case UnlinkEnd => 1
    case CloseWant(_) => 5
    case CloseFree(_) => 4
    case CloseTest(_) => 3
    case CloseDelete(_) => 2
    case CloseEnd => 1
  }

  lemma StepShortens(s: State, i: nat)
    requires Enabled(s, Advance(i))
    ensures var u := Apply(s, Advance(i));
      |u.threads| == |s.threads| && Sum(u.threads, StepsLeft) < Sum(s.threads, StepsLeft)
  {
    hide Sum, IsOpen, CanAdd, NoReader, NoWriter, TableFree;
    StepMoves(s, Advance(i));
    SumUpdate(s.threads, i, Apply(s, Advance(i)).threads[i], StepsLeft);
  }

  ghost predicate AllIdle(s: State) {
    forall i :: 0 <= i < |s.threads| ==> s.threads[i].Idle?
  }

  /** Nobody can step. */
  ghost predicate AtRest(s: State) {
    forall k: nat :: !Enabled(s, Advance(k))
  }

  /** When nobody can step everybody has returned. */
  lemma RestIsIdle(s: State)
    requires AtRest(s)
    ensures AllIdle(s)
  {
    if !AllIdle(s) {
      var k := SomeStep(s);
      assert false;
    }
  }

  /** Every schedule of calls already begun ends, and it rests only where every call has returned. */
  lemma {:induction false} EveryCallReturns(s: State, run: seq<Step>)
    requires CanRun(s, run) && forall k :: 0 <= k < |run| ==> run[k].Advance?
    ensures |run| <= Sum(s.threads, StepsLeft)
    ensures AtRest(After(s, run)) ==> AllIdle(After(s, run))
    decreases |run|
  {
    hide Sum, AtRest, AllIdle;
    if run == [] {
      if AtRest(s) {
        RestIsIdle(s);
      }
    } else {
      StepShortens(s, run[0].i);
      hide Enabled, Apply;
      EveryCallReturns(Apply(s, run[0]), run[1..]);
    }
  }

  // ---- What a call achieves among others ----

  lemma Prepend(s: State, e: Step, run: seq<Step>)
    requires Enabled(s, e) && CanRun(Apply(s, e), run)
    ensures CanRun(s, [e] + run) && After(s, [e] + run) == After(Apply(s, e), run)
  {
    hide Enabled, Apply;
    assert ([e] + run)[1..] == run;
  }

  /** A position in the rest of a run is one in the run. */
  lemma Position(s: State, run: seq<Step>, k: nat)
    requires run != [] && k < |run| && Enabled(s, run[0]) && CanRun(Apply(s, run[0]), run[1..][..k])
    ensures CanRun(s, run[..k + 1]) && After(s, run[..k + 1]) == After(Apply(s, run[0]), run[1..][..k])
  {
    hide Enabled, Apply;
    Prepend(s, run[0], run[1..][..k]);
    assert run[..k + 1] == [run[0]] + run[1..][..k];
  }

  lemma Unroll(s: State, run: seq<Step>)
    requires CanRun(s, run) && run != []
    ensures Enabled(s, run[0]) && CanRun(Apply(s, run[0]), run[1..])
    ensures After(s, run) == After(Apply(s, run[0]), run[1..])
  {
  }

  lemma Nothing(s: State, run: seq<Step>)
    ensures CanRun(s, run[..0]) && After(s, run[..0]) == s
  {
    assert run[..0] == [];
  }

  /** No new call of thread i. */
  predicate SameCall(run: seq<Step>, i: nat) {
    forall k :: 0 <= k < |run| ==> !(run[k].Begin? && run[k].i == i)
  }

  /** Only links being added or refused and unlinks change names. */
  lemma NamesStep(s: State, e: Step)
    requires Enabled(s, e)
    ensures var u := Apply(s, e); var t := s.threads[e.i];
      u.names == s.names
      || (e.Advance? && t.LinkAdd? && CanAdd(s, t.link) && u.names == s.names[t.link := t.n])
      || (e.Advance? && t.LinkAdded? && t.n in s.symlinks && u.names == s.names - {t.link})
      || (e.Advance? && t.UnlinkClear? && u.names == s.names - {t.path})
    ensures Apply(s, e).symlinks == s.symlinks && Apply(s, e).capacity == s.capacity
    ensures Apply(s, e).handles.Keys <= s.handles.Keys
  {
    hide IsOpen, CanAdd, NoReader, NoWriter, TableFree, Links, Decrement;
  }

  /** A thread moves only by its own steps. */
  lemma OthersStay(s: State, e: Step, i: nat)
    requires Enabled(s, e) && i < |s.threads| && i != e.i
    ensures |Apply(s, e).threads| == |s.threads| && Apply(s, e).threads[i] == s.threads[i]
  {
    StepMoves(s, e);
  }

  /** An unlink whose path is bound, from looking it up to releasing link_lock. */
  ghost predicate UnlinkOn(s: State, t: Thread, path: CString) {
    match t
    case UnlinkLookup(p) => p == path && path in s.names
    case UnlinkClear(n, p) => p == path && path in s.names && s.names[path] == n
    case UnlinkCleared(_) => path !in s.names
    case UnlinkCount(_) => path !in s.names
    case UnlinkDelete(_) => path !in s.names
    case UnlinkUnlock => path !in s.names
    case UnlinkEnd => path !in s.names
    case _ => false
  }

  lemma UnlinkStays(s: State, all: set<int>, e: Step, i: nat, path: CString)
    requires Inv(s, all) && Enabled(s, e) && i < |s.threads| && UnlinkOn(s, s.threads[i], path)
    requires !(e.Begin? && e.i == i) && !(e == Advance(i) && s.threads[i].UnlinkEnd?)
    ensures |Apply(s, e).threads| == |s.threads|
    ensures UnlinkOn(Apply(s, e), Apply(s, e).threads[i], path)
  {
    hide RefsOk, Distinct, DeletedOnce, ThreadOk, CountOk, PendingDelete;
    if e.i != i {
      OthersStay(s, e, i);
      NamesStep(s, e);
      hide Apply, Enabled;
    } else {
      hide IsOpen, CanAdd, NoReader, NoWriter, TableFree, Links, Decrement;
    }
  }

  /**
   In every interleaving an unlink whose path is bound when it holds link_lock has removed that
   binding when it releases the lock.
   */
  lemma {:induction false} UnlinkReturns(s: State, all: set<int>, run: seq<Step>, i: nat, path: CString) returns (k: nat)
    requires Inv(s, all) && CanRun(s, run) && i < |s.threads| && UnlinkOn(s, s.threads[i], path) && SameCall(run, i)
    requires i < |After(s, run).threads| && After(s, run).threads[i].Idle?
    ensures k < |run| && run[k] == Advance(i) && CanRun(s, run[..k])
    ensures var u := After(s, run[..k]); i < |u.threads| && u.threads[i] == UnlinkEnd && path !in u.names
    decreases |run|
  {
    assert run != [];
    Unroll(s, run);
    hide CanRun, After;
    var e := run[0];
    if e == Advance(i) && s.threads[i].UnlinkEnd? {
      k := 0;
      Nothing(s, run);
    } else {
      assert !(e.Begin? && e.i == i);
      UnlinkStays(s, all, e, i, path);
      StepInv(s, all, e);
      hide Inv, Enabled, Apply, UnlinkOn;
      assert SameCall(run[1..], i);
      k := UnlinkReturns(Apply(s, e), all, run[1..], i, path);
      Position(s, run, k);
      k := k + 1;
    }
  }

  /** A close, from waiting for the table to releasing it. */
  ghost predicate CloseOn(s: State, t: Thread, h: int) {
    match t
    case CloseWant(x) => x == h
    case CloseFree(x) => x == h
    case CloseTest(_) => h !in s.handles
    case CloseDelete(_) => h !in s.handles
    case CloseEnd => h !in s.handles
    case _ => false
  }

  lemma CloseStays(s: State, all: set<int>, e: Step, i: nat, h: int)
    requires Inv(s, all) && Enabled(s, e) && i < |s.threads| && CloseOn(s, s.threads[i], h)
    requires !(e.Begin? && e.i == i) && !(e == Advance(i) && s.threads[i].CloseEnd?)
    ensures |Apply(s, e).threads| == |s.threads|
    ensures CloseOn(Apply(s, e), Apply(s, e).threads[i], h)
  {
    hide RefsOk, Distinct, DeletedOnce, LocksOk, CountOk, PendingDelete;
    assert ThreadOk(s, s.threads[i]);
    NamesStep(s, e);
    if e.i != i {
      OthersStay(s, e, i);
      hide Apply, Enabled;
    } else {
      hide IsOpen, CanAdd, NoReader, NoWriter, TableFree, Links, Decrement;
    }
  }

  /** In every interleaving a close has freed its handle when it releases the table. */
  lemma {:induction false} CloseReturns(s: State, all: set<int>, run: seq<Step>, i: nat, h: int) returns (k: nat)
    requires Inv(s, all) && CanRun(s, run) && i < |s.threads| && CloseOn(s, s.threads[i], h) && SameCall(run, i)
    requires i < |After(s, run).threads| && After(s, run).threads[i].Idle?
    ensures k < |run| && run[k] == Advance(i) && CanRun(s, run[..k])
    ensures var u := After(s, run[..k]); i < |u.threads| && u.threads[i] == CloseEnd && h !in u.handles
    decreases |run|
  {
    assert run != [];
    Unroll(s, run);
    hide CanRun, After;
    var e := run[0];
    if e == Advance(i) && s.threads[i].CloseEnd? {
      k := 0;
      Nothing(s, run);
    } else {
      assert !(e.Begin? && e.i == i);
      CloseStays(s, all, e, i, h);
      StepInv(s, all, e);
      hide Inv, Enabled, Apply, CloseOn;
      assert SameCall(run[1..], i);
      k := CloseReturns(Apply(s, e), all, run[1..], i, h);
      Position(s, run, k);
      k := k + 1;
    }
  }

  /** A link to file n, from looking up its target to releasing link_lock, as long as it is not refused. */
  ghost predicate LinkOn(s: State, t: Thread, target: CString, link: CString, n: int) {
    match t
    case LinkLookup(x, l) => x == target && l == link && target in s.names && s.names[target] == n
    case LinkAdd(m, l) => m == n && l == link
    case LinkAdded(m, l) => m == n && l == link && link in s.names && s.names[link] == n
    case LinkEnd => link in s.names && s.names[link] == n
    case _ => false
  }

  /** The directory refuses a new name: it is empty or too long, in use, or there is no entry left. */
  predicate Refuses(s: State, link: CString) {
    link == [] || |link| > 39 || link in s.names || |s.names| >= s.capacity
  }

  lemma LinkStays(s: State, all: set<int>, e: Step, i: nat, target: CString, link: CString, n: int)
    requires Inv(s, all) && Enabled(s, e) && i < |s.threads| && LinkOn(s, s.threads[i], target, link, n) && n !in s.symlinks
    requires !(e.Begin? && e.i == i) && !(e == Advance(i) && s.threads[i].LinkEnd?)
    requires !(e == Advance(i) && s.threads[i].LinkAdd? && Refuses(s, link))
    ensures |Apply(s, e).threads| == |s.threads| && n !in Apply(s, e).symlinks
    ensures LinkOn(Apply(s, e), Apply(s, e).threads[i], target, link, n)
  {
    hide RefsOk, DeletedOnce, CountOk, PendingDelete;
    assert ThreadOk(s, s.threads[i]) && ThreadOk(s, s.threads[e.i]);
    NamesStep(s, e);
    if e.i != i {
      OthersStay(s, e, i);
      hide Apply, Enabled;
    } else {
      hide IsOpen, NoReader, NoWriter, TableFree, Links, Decrement;
    }
  }

  /**
   In every interleaving a link to a file has bound its name to that file when it releases link_lock,
   unless the directory refused the name at the moment j when the link came to add it.
   */
  lemma {:induction false} LinkReturns(
    s: State, all: set<int>, run: seq<Step>, i: nat, target: CString, link: CString, n: int) returns (j: nat, k: nat)
    requires Inv(s, all) && CanRun(s, run) && i < |s.threads| && LinkOn(s, s.threads[i], target, link, n)
    requires n !in s.symlinks && SameCall(run, i)
    requires i < |After(s, run).threads| && After(s, run).threads[i].Idle?
    ensures j < |run| && k < |run| && CanRun(s, run[..j]) && CanRun(s, run[..k])
    ensures var u, v := After(s, run[..k]), After(s, run[..j]);
      || (run[k] == Advance(i) && i < |u.threads| && u.threads[i] == LinkEnd && link in u.names && u.names[link] == n)
      || (run[j] == Advance(i) && i < |v.threads| && v.threads[i] == LinkAdd(n, link) && Refuses(v, link))
    decreases |run|
  {
    assert run != [];
    Unroll(s, run);
    hide CanRun, After;
    var e := run[0];
    if e == Advance(i) && (s.threads[i].LinkEnd? || (s.threads[i].LinkAdd? && Refuses(s, link))) {
      j, k := 0, 0;
      Nothing(s, run);
    } else {
      assert !(e.Begin? && e.i == i);
      LinkStays(s, all, e, i, target, link, n);
      StepInv(s, all, e);
      hide Inv, Enabled, Apply, LinkOn, Refuses;
      assert SameCall(run[1..], i);
      j, k := LinkReturns(Apply(s, e), all, run[1..], i, target, link, n);
      Position(s, run, k);
      Position(s, run, j);
      j, k := j + 1, k + 1;
    }
  }

  // ---- What a call does alone ----

  /** The tables of a step-model state and an abstract file system say the same. */
  ghost predicate Matches(s: State, a: A.Fs) {
    && a.names == s.names && a.nodes.Keys == s.taken
    && (forall n :: n in s.taken ==> (a.nodes[n].Link? <==> n in s.symlinks))
    && a.handles.Keys == s.handles.Keys
    && (forall h :: h in s.handles ==> a.handles[h].node == s.handles[h])
    && Directory.EntryCapacity(a.p.blockSize) == s.capacity
  }

  /** Nobody is in a call, and names and inodes are ordinary. */
  ghost predicate Quiet(s: State, all: set<int>) {
    && Inv(s, all) && AllIdle(s) && -1 !in s.taken
    && forall x :: x in s.names ==> ValidName(x)
  }

  /** Only thread i is in a call. */
  ghost predicate Only(s: State, i: nat) {
    i < |s.threads| && forall j :: 0 <= j < |s.threads| && j != i ==> s.threads[j].Idle?
  }

  /** By its own steps thread i gets idle, with the tables of u. */
  ghost predicate Ends(s: State, i: nat, u: State) {
    exists run :: CanRun(s, run) && (forall k :: 0 <= k < |run| ==> run[k] == Advance(i)) && After(s, run) == u
  }

  lemma EndsNow(s: State, i: nat)
    ensures Ends(s, i, s)
  {
    assert CanRun(s, []) && After(s, []) == s;
  }

  lemma EndsNext(s: State, i: nat, u: State)
    requires Enabled(s, Advance(i)) && Ends(Apply(s, Advance(i)), i, u)
    ensures Ends(s, i, u)
  {
    hide Enabled, Apply;
    var v := Apply(s, Advance(i));
    var run :| CanRun(v, run) && (forall k :: 0 <= k < |run| ==> run[k] == Advance(i)) && After(v, run) == u;
    Prepend(s, Advance(i), run);
    assert CanRun(s, [Advance(i)] + run);
  }

  function At(s: State, i: nat, t: Thread): State
    requires i < |s.threads|
  {
    s.(threads := s.threads[i := t])
  }

  /** The last step of a call. */
  lemma Released(s: State, i: nat)
    requires Only(s, i) && (s.threads[i].LinkEnd? || s.threads[i].UnlinkEnd? || s.threads[i].CloseEnd?)
    ensures Ends(s, i, At(s, i, Idle))
  {
    assert Apply(s, Advance(i)) == At(s, i, Idle);
    EndsNow(At(s, i, Idle), i);
    EndsNext(s, i, At(s, i, Idle));
  }

  /** An inode whose count is 0 and that is not open is deleted. */
  ghost function Reaped(s: State, n: int): State {
    if Links(s, n) == 0 && !IsOpen(s, n) then Delete(s, n) else s
  }

  ghost function Lowered(s: State, n: int): State {
    s.(links := s.links[n := Decrement(Links(s, n))])
  }

  lemma UnlockEnds(s: State, i: nat)
    requires Only(s, i) && s.threads[i].UnlinkUnlock?
    ensures Ends(s, i, At(s, i, Idle))
  {
    var v := Apply(s, Advance(i));
    assert v == At(s, i, UnlinkEnd);
    Released(v, i);
    assert At(v, i, Idle) == At(s, i, Idle);
    EndsNext(s, i, At(s, i, Idle));
  }

  lemma CountEnds(s: State, i: nat, n: int)
    requires Only(s, i) && s.threads[i] == UnlinkCount(n)
    ensures Ends(s, i, At(Reaped(Lowered(s, n), n), i, Idle))
  {
    var v := Apply(s, Advance(i));
    var t := Lowered(s, n);
    var u := At(Reaped(t, n), i, Idle);
    assert IsOpen(t, n) == IsOpen(s, n) && Links(t, n) == Decrement(Links(s, n));
    if Links(t, n) == 0 && !IsOpen(t, n) {
      assert v == At(t, i, UnlinkDelete(n));
      var w := Apply(v, Advance(i));
      assert w == At(Delete(t, n), i, UnlinkUnlock);
      UnlockEnds(w, i);
      assert At(w, i, Idle) == u;
      EndsNext(v, i, u);
    } else {
      assert v == At(t, i, UnlinkUnlock);
      UnlockEnds(v, i);
      assert At(v, i, Idle) == u;
    }
    EndsNext(s, i, u);
  }

  lemma MissedEnds(s: State, i: nat, path: CString)
    requires Only(s, i) && s.threads[i] == UnlinkLookup(path) && path !in s.names
    ensures Ends(s, i, At(s, i, Idle))
  {
    var w := At(s, i, UnlinkEnd);
    assert Apply(s, Advance(i)) == w;
    hide Enabled, Apply, Ends;
    Released(w, i);
    assert At(w, i, Idle) == At(s, i, Idle);
    EndsNext(s, i, At(s, i, Idle));
  }

  /** What an unlink does to the tables. */
  ghost function Unlinked(s: State, path: CString): State {
    if path in s.names then Reaped(Lowered(s.(names := s.names - {path}), s.names[path]), s.names[path]) else s
  }

  lemma SameUnlinked(v: State, s: State, i: nat, path: CString)
    requires i < |s.threads| && i < |v.threads| && v == At(s, i, v.threads[i])
    ensures At(Unlinked(v, path), i, Idle) == At(Unlinked(s, path), i, Idle)
  {
    if path in s.names {
      var n := s.names[path];
      assert IsOpen(Lowered(v.(names := v.names - {path}), n), n) == IsOpen(Lowered(s.(names := s.names - {path}), n), n);
    }
  }

  lemma UnlinkEnds(s: State, i: nat, path: CString)
    requires Only(s, i) && s.threads[i] == UnlinkWant(path)
    ensures Ends(s, i, At(Unlinked(s, path), i, Idle))
  {
    var v := At(s, i, UnlinkLookup(path));
    assert Apply(s, Advance(i)) == v;
    hide Enabled, Apply, Ends, Reaped, Lowered;
    if path in s.names {
      LookedUpEnds(v, i, path);
    } else {
      MissedEnds(v, i, path);
    }
    SameUnlinked(v, s, i, path);
    EndsNext(s, i, At(Unlinked(s, path), i, Idle));
  }

  lemma ClearedEnds(s: State, i: nat, n: int)
    requires Only(s, i) && s.threads[i] == UnlinkCleared(n)
    ensures Ends(s, i, At(Reaped(Lowered(s, n), n), i, Idle))
  {
    var x := At(s, i, UnlinkCount(n));
    assert Apply(s, Advance(i)) == x;
    hide Enabled, Apply, Ends;
    CountEnds(x, i, n);
    SameReaped(Lowered(x, n), Lowered(s, n), i, n);
    EndsNext(s, i, At(Reaped(Lowered(s, n), n), i, Idle));
  }

  lemma LookedUpEnds(s: State, i: nat, path: CString)
    requires Only(s, i) && s.threads[i] == UnlinkLookup(path) && path in s.names
    ensures var n := s.names[path];
      Ends(s, i, At(Reaped(Lowered(s.(names := s.names - {path}), n), n), i, Idle))
  {
    var n := s.names[path];
    var t := s.(names := s.names - {path});
    var v := At(s, i, UnlinkClear(n, path));
    assert Apply(s, Advance(i)) == v;
    var w := At(t, i, UnlinkCleared(n));
    assert Apply(v, Advance(i)) == w;
    hide Enabled, Apply, Ends;
    ClearedEnds(w, i, n);
    SameReaped(Lowered(w, n), Lowered(t, n), i, n);
    Twice(s, i, v, w, At(Reaped(Lowered(t, n), n), i, Idle));
  }

  lemma TestEnds(s: State, i: nat, n: int)
    requires Only(s, i) && s.threads[i] == CloseTest(n)
    ensures Ends(s, i, At(Reaped(s, n), i, Idle))
  {
    var reaps := Links(s, n) == 0 && !IsOpen(s, n);
    var x := At(s, i, if reaps then CloseDelete(n) else CloseEnd);
    assert Apply(s, Advance(i)) == x;
    hide Enabled, Apply, Ends;
    if reaps {
      DeleteEnds(x, i, n);
      assert At(Delete(x, n), i, Idle) == At(Reaped(s, n), i, Idle);
    } else {
      Released(x, i);
      assert At(x, i, Idle) == At(Reaped(s, n), i, Idle);
    }
    EndsNext(s, i, At(Reaped(s, n), i, Idle));
  }

  lemma DeleteEnds(s: State, i: nat, n: int)
    requires Only(s, i) && s.threads[i] == CloseDelete(n)
    ensures Ends(s, i, At(Delete(s, n), i, Idle))
  {
    var y := At(Delete(s, n), i, CloseEnd);
    assert Apply(s, Advance(i)) == y;
    Released(y, i);
    assert At(y, i, Idle) == At(Delete(s, n), i, Idle);
    EndsNext(s, i, At(Delete(s, n), i, Idle));
  }

  lemma CloseEnds(s: State, i: nat, h: int)
    requires Only(s, i) && s.threads[i] == CloseWant(h) && h in s.handles
    ensures Ends(s, i, At(Reaped(s.(handles := s.handles - {h}), s.handles[h]), i, Idle))
  {
    var n := s.handles[h];
    var t := s.(handles := s.handles - {h});
    var u := At(Reaped(t, n), i, Idle);
    var v := At(s, i, CloseFree(h));
    assert Apply(s, Advance(i)) == v;
    var w := At(t, i, CloseTest(n));
    assert Apply(v, Advance(i)) == w;
    hide Enabled, Apply;
    TestEnds(w, i, n);
    SameReaped(w, t, i, n);
    Twice(s, i, v, w, u);
  }

  lemma SameReaped(w: State, t: State, i: nat, n: int)
    requires i < |t.threads| && i < |w.threads| && w == At(t, i, w.threads[i])
    ensures At(Reaped(w, n), i, Idle) == At(Reaped(t, n), i, Idle)
  {
    assert IsOpen(w, n) == IsOpen(t, n);
  }

  /** Two steps. */
  lemma Twice(s: State, i: nat, v: State, w: State, u: State)
    requires Enabled(s, Advance(i)) && Apply(s, Advance(i)) == v
    requires Enabled(v, Advance(i)) && Apply(v, Advance(i)) == w && Ends(w, i, u)
    ensures Ends(s, i, u)
  {
    hide Ends;
    EndsNext(v, i, u);
    EndsNext(s, i, u);
  }

  /** What a link does to the tables: nothing, or a name and a count. */
  ghost function Bound(s: State, n: int, link: CString): State {
    if Refuses(s, link) || n in s.symlinks then s
    else s.(names := s.names[link := n], links := s.links[n := Links(s, n) + 1])
  }

  lemma AddedEnds(s: State, i: nat, n: int, link: CString)
    requires Only(s, i) && s.threads[i] == LinkAdded(n, link)
    ensures Ends(s, i, At(if n in s.symlinks then s.(names := s.names - {link})
                          else s.(links := s.links[n := Links(s, n) + 1]), i, Idle))
  {
    var r := if n in s.symlinks then s.(names := s.names - {link}) else s.(links := s.links[n := Links(s, n) + 1]);
    var w := At(r, i, LinkEnd);
    assert Apply(s, Advance(i)) == w;
    Released(w, i);
    assert At(w, i, Idle) == At(r, i, Idle);
    EndsNext(s, i, At(r, i, Idle));
  }

  lemma RefusedEnds(s: State, i: nat, n: int, link: CString)
    requires Only(s, i) && s.threads[i] == LinkAdd(n, link) && Refuses(s, link)
    ensures Ends(s, i, At(s, i, Idle))
  {
    var v := At(s, i, LinkEnd);
    assert Apply(s, Advance(i)) == v;
    hide Enabled, Apply, Ends;
    Released(v, i);
    assert At(v, i, Idle) == At(s, i, Idle);
    EndsNext(s, i, At(s, i, Idle));
  }

  lemma AcceptedEnds(s: State, i: nat, n: int, link: CString)
    requires Only(s, i) && s.threads[i] == LinkAdd(n, link) && !Refuses(s, link)
    ensures Ends(s, i, At(Bound(s, n, link), i, Idle))
  {
    var v := At(s.(names := s.names[link := n]), i, LinkAdded(n, link));
    assert Apply(s, Advance(i)) == v;
    hide Enabled, Apply, Ends;
    AddedEnds(v, i, n, link);
    AddedIsBound(s, v, i, n, link);
    EndsNext(s, i, At(Bound(s, n, link), i, Idle));
  }

  lemma AddedIsBound(s: State, v: State, i: nat, n: int, link: CString)
    requires i < |s.threads| && !Refuses(s, link)
    requires v == At(s.(names := s.names[link := n]), i, LinkAdded(n, link))
    ensures At(if n in v.symlinks then v.(names := v.names - {link})
               else v.(links := v.links[n := Links(v, n) + 1]), i, Idle) == At(Bound(s, n, link), i, Idle)
  {
    assert s.names[link := n] - {link} == s.names;
  }

  lemma AddEnds(s: State, i: nat, n: int, link: CString)
    requires Only(s, i) && s.threads[i] == LinkAdd(n, link)
    ensures Ends(s, i, At(Bound(s, n, link), i, Idle))
  {
    hide Ends;
    if Refuses(s, link) {
      RefusedEnds(s, i, n, link);
    } else {
      AcceptedEnds(s, i, n, link);
    }
  }

  ghost function LinkedTo(s: State, target: CString, link: CString): State {
    if target in s.names then Bound(s, s.names[target], link) else s
  }

  lemma LookupEnds(s: State, i: nat, target: CString, link: CString)
    requires Only(s, i) && s.threads[i] == LinkLookup(target, link)
    ensures Ends(s, i, At(LinkedTo(s, target, link), i, Idle))
  {
    var u := At(LinkedTo(s, target, link), i, Idle);
    if target in s.names {
      var w := At(s, i, LinkAdd(s.names[target], link));
      assert Apply(s, Advance(i)) == w;
      hide Enabled, Apply;
      AddEnds(w, i, s.names[target], link);
      SameBound(w, s, i, s.names[target], link);
      EndsNext(s, i, u);
    } else {
      var w := At(s, i, LinkEnd);
      assert Apply(s, Advance(i)) == w;
      Released(w, i);
      assert At(w, i, Idle) == u;
      EndsNext(s, i, u);
    }
  }

  lemma SameBound(w: State, s: State, i: nat, n: int, link: CString)
    requires i < |s.threads| && i < |w.threads| && w == At(s, i, w.threads[i])
    ensures At(Bound(w, n, link), i, Idle) == At(Bound(s, n, link), i, Idle)
  {
  }

  lemma LinkEnds(s: State, i: nat, target: CString, link: CString)
    requires Only(s, i) && s.threads[i] == LinkWant(target, link)
    ensures Ends(s, i, At(LinkedTo(s, target, link), i, Idle))
  {
    var v := At(s, i, LinkLookup(target, link));
    assert Apply(s, Advance(i)) == v;
    hide Enabled, Apply, Ends;
    LookupEnds(v, i, target, link);
    if target in s.names {
      SameBound(v, s, i, s.names[target], link);
    }
    assert At(LinkedTo(v, target, link), i, Idle) == At(LinkedTo(s, target, link), i, Idle);
    EndsNext(s, i, At(LinkedTo(s, target, link), i, Idle));
  }

  // ---- The same as the abstract file system ----

  function PathTo(name: CString): CString {
    ['/' as byte] + name
  }

  ghost function AbstractResult(a: A.Fs, c: Call): A.Fs {
    match c
    case Link(target, link) => A.HardLink(a, PathTo(target), PathTo(link)).0
    case Unlink(path) => A.Unlink(a, PathTo(path)).0
    case Close(h) => A.Close(a, h).0
  }

  lemma Finds(s: State, all: set<int>, a: A.Fs, name: CString)
    requires Quiet(s, all) && Matches(s, a)
    ensures A.Find(a, PathTo(name)) == if name in s.names then s.names[name] else -1
    ensures name in s.names ==> s.names[name] in s.taken && s.names[name] != -1
  {
    hide LocksOk, Distinct, DeletedOnce, CountOk, PendingDelete;
    assert PathTo(name)[1..] == name;
  }

  /** In a quiet state counts are numbers of names. */
  lemma QuietCounts(s: State, all: set<int>, n: int)
    requires Quiet(s, all)
    ensures Links(s, n) == |Entries(s, n)|
  {
    assert CountOk(s, n);
    NumberZero(s.threads, Is(Adding(n)));
    NumberZero(s.threads, Is(Clearing(n)));
  }

  lemma OpenIff(s: State, a: A.Fs, n: int)
    requires Matches(s, a)
    ensures IsOpen(s, n) <==> A.HasHandle(a, n)
  {
    if h :| h in s.handles && s.handles[h] == n {
      assert h in a.handles && a.handles[h].node == n;
    }
  }

  lemma NoOther(s: State, x: CString)
    requires x in s.names
    ensures |Entries(s, s.names[x])| == 1 <==> s.names[x] !in (s.names - {x}).Values
    ensures |Entries(s, s.names[x])| >= 1
  {
    var n := s.names[x];
    var rest := Entries(s, n) - {x};
    assert Entries(s, n) == rest + {x};
    if n in (s.names - {x}).Values {
      var y :| y in s.names - {x} && (s.names - {x})[y] == n;
      assert y in rest;
    }
    if y :| y in rest {
      assert y in s.names - {x} && (s.names - {x})[y] == n;
    } else {
      assert rest == {};
    }
  }

  lemma UnlinkMatches(s: State, all: set<int>, a: A.Fs, path: CString)
    requires Quiet(s, all) && Matches(s, a) && path in s.names
    ensures var n := s.names[path];
      Matches(Reaped(Lowered(s.(names := s.names - {path}), n), n), A.Unlink(a, PathTo(path)).0)
  {
    var n := s.names[path];
    Finds(s, all, a, path);
    QuietCounts(s, all, n);
    NoOther(s, path);
    var t := Lowered(s.(names := s.names - {path}), n);
    var b := a.(names := a.names - {path});
    assert PathTo(path)[1..] == path;
    hide Quiet, Entries;
    assert Matches(t, b);
    OpenIff(t, b, n);
    assert Links(t, n) == 0 <==> n !in b.names.Values;
  }

  lemma CloseMatches(s: State, all: set<int>, a: A.Fs, h: int)
    requires Quiet(s, all) && Matches(s, a) && h in s.handles
    ensures Matches(Reaped(s.(handles := s.handles - {h}), s.handles[h]), A.Close(a, h).0)
  {
    var n := s.handles[h];
    QuietCounts(s, all, n);
    assert n in s.taken;
    hide Quiet;
    var t := s.(handles := s.handles - {h});
    var b := a.(handles := a.handles - {h});
    assert Matches(t, b);
    OpenIff(t, b, n);
    NamedIff(s, n);
  }

  lemma NamedIff(s: State, n: int)
    ensures |Entries(s, n)| == 0 <==> n !in s.names.Values
  {
    if n in s.names.Values {
      var x :| x in s.names && s.names[x] == n;
      assert x in Entries(s, n);
    } else {
      assert Entries(s, n) == {};
    }
  }

  lemma LinkMatches(s: State, all: set<int>, a: A.Fs, target: CString, link: CString)
    requires Quiet(s, all) && Matches(s, a)
    ensures Matches(LinkedTo(s, target, link), A.HardLink(a, PathTo(target), PathTo(link)).0)
  {
    Finds(s, all, a, target);
    hide Quiet;
    assert PathTo(link)[1..] == link;
  }

  /** What a call does to the tables. */
  ghost function Done(s: State, c: Call): State {
    match c
    case Link(target, link) => LinkedTo(s, target, link)
    case Unlink(path) => Unlinked(s, path)
    case Close(h) => if h in s.handles then Reaped(s.(handles := s.handles - {h}), s.handles[h]) else s
  }

  lemma CallEnds(s: State, i: nat, c: Call)
    requires AllIdle(s) && i < |s.threads|
    ensures Enabled(s, Begin(i, c)) && Ends(Apply(s, Begin(i, c)), i, Done(s, c))
  {
    var v := Apply(s, Begin(i, c));
    assert v == At(s, i, Entry(s, c));
    DoneAlone(s, v, i, c);
    hide Ends, Done, LinkedTo, Unlinked, Reaped;
    match c
    case Link(target, link) => LinkEnds(v, i, target, link);
    case Unlink(path) => UnlinkEnds(v, i, path);
    case Close(h) =>
      if h in s.handles {
        CloseEnds(v, i, h);
      } else {
        EndsNow(v, i);
      }
  }

  lemma DoneAlone(s: State, v: State, i: nat, c: Call)
    requires AllIdle(s) && i < |s.threads| && v == At(s, i, Entry(s, c))
    ensures match c
      case Link(target, link) => At(LinkedTo(v, target, link), i, Idle) == Done(s, c)
      case Unlink(path) => At(Unlinked(v, path), i, Idle) == Done(s, c)
      case Close(h) =>
        if h in s.handles then At(Reaped(v.(handles := v.handles - {h}), v.handles[h]), i, Idle) == Done(s, c)
        else v == Done(s, c)
  {
    assert s.threads[i := Idle] == s.threads;
    match c
    case Link(target, link) =>
    case Unlink(path) => SameUnlinked(v, s, i, path);
    case Close(h) =>
      if h in s.handles {
        SameReaped(v.(handles := v.handles - {h}), s.(handles := s.handles - {h}), i, s.handles[h]);
      }
  }

  lemma DoneMatches(s: State, all: set<int>, a: A.Fs, c: Call)
    requires Quiet(s, all) && Matches(s, a)
    ensures Matches(Done(s, c), AbstractResult(a, c))
  {
    hide Quiet, Matches, A.HardLink, A.Unlink, A.Close, LinkedTo, Reaped, Lowered;
    match c
    case Link(target, link) => LinkMatches(s, all, a, target, link);
    case Unlink(path) =>
      if path in s.names {
        UnlinkMatches(s, all, a, path);
      } else {
        UnlinkNothing(s, all, a, path);
      }
    case Close(h) =>
      if h in s.handles {
        CloseMatches(s, all, a, h);
      } else {
        CloseNothing(s, a, h);
      }
  }

  /**
   A call that runs alone from a quiet state returns, and leaves the names, inodes and handles that the
   abstract file system has after that call.
   */
  lemma AloneIsAbstract(s: State, all: set<int>, a: A.Fs, i: nat, c: Call) returns (u: State)
    requires Quiet(s, all) && Matches(s, a) && i < |s.threads|
    ensures Enabled(s, Begin(i, c)) && Ends(Apply(s, Begin(i, c)), i, u)
    ensures AllIdle(u) && Matches(u, AbstractResult(a, c))
    ensures forall n :: Links(u, n) == |Entries(u, n)|
  {
    CallEnds(s, i, c);
    DoneMatches(s, all, a, c);
    u := Done(s, c);
    EndInv(s, all, i, c, u);
  }

  lemma EndInv(s: State, all: set<int>, i: nat, c: Call, u: State)
    requires Quiet(s, all) && i < |s.threads| && Enabled(s, Begin(i, c)) && Ends(Apply(s, Begin(i, c)), i, u)
    requires u.threads == s.threads
    ensures AllIdle(u) && forall n :: Links(u, n) == |Entries(u, n)|
  {
    var v := Apply(s, Begin(i, c));
    StepInv(s, all, Begin(i, c));
    var run :| CanRun(v, run) && (forall k :: 0 <= k < |run| ==> run[k] == Advance(i)) && After(v, run) == u;
    RunInv(v, all, run);
    forall n
      ensures Links(u, n) == |Entries(u, n)|
    {
      assert CountOk(u, n);
      NumberZero(u.threads, Is(Adding(n)));
      NumberZero(u.threads, Is(Clearing(n)));
    }
  }

  lemma UnlinkNothing(s: State, all: set<int>, a: A.Fs, path: CString)
    requires Quiet(s, all) && Matches(s, a) && path !in s.names
    ensures A.Unlink(a, PathTo(path)).0 == a
  {
    Finds(s, all, a, path);
  }

  lemma CloseNothing(s: State, a: A.Fs, h: int)
    requires Matches(s, a) && h !in s.handles
    ensures A.Close(a, h).0 == a
  {
  }
}
