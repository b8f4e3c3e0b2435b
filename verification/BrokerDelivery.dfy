/**
 What the messages sent to a subscriber have to do with the messages written to its box, in every
 run. Three events decide it: a write behind the end of a file, a subscriber that passes a slot it
 saw free, and a broadcast on another slot than the one a subscriber waits on.
 */
module BrokerDelivery {
  import opened BrokerSessions

  ghost predicate Prefix(sent: seq<Message>, all: seq<Message>) {
    |sent| <= |all| && sent == all[..|sent|]
  }

  /** The file holds every message ever written to it, in order. */
  ghost predicate Intact(file: BoxFile) {
    file.messages == file.written
  }

  /** What a subscriber sent and, in some phases, what its buffer holds ready to send. */
  ghost function Output(t: Thread): seq<Message>
    requires t.Sub?
  {
    t.sent + if t.phase == Got || t.phase == Send then [t.buffer] else []
  }

  predicate Announcing(t: Thread, f: nat) {
    t.PubAnnounce? && t.f == f
  }

  // ---- Invariant ----

  ghost predicate WriterOk(file: BoxFile, b: nat, off: nat) {
    (!file.shared ==> off == |file.messages|) && (!file.strayed ==> file.home == b)
  }

  ghost predicate ReaderOk(file: BoxFile, t: Thread)
    requires t.Sub?
  {
    && t.off <= |file.messages| && |Output(t)| == t.off + t.passes
    && (Intact(file) && t.passes == 0 ==> Output(t) == file.messages[..t.off])
    && (t.phase == Wait || t.phase == Asleep ==> On(file, t.b) <= t.off)
  }

  ghost predicate SessionOk(s: State, t: Thread) {
    match t
    case PubRun(b, f, off) => f < |s.files| && WriterOk(s.files[f], b, off)
    case PubWrite(b, f, off, _) => f < |s.files| && WriterOk(s.files[f], b, off)
    case PubAnnounce(b, f, off) => f < |s.files| && WriterOk(s.files[f], b, off)
    case Sub(_, f, _, _, _, _, _) => f < |s.files| && ReaderOk(s.files[f], t)
    case SubEnd(_, f, sent, passes) =>
      f < |s.files| && (Intact(s.files[f]) && passes == 0 ==> Prefix(sent, s.files[f].messages))
    case _ => true
  }

  ghost predicate SessionsOk(s: State) {
    forall i :: 0 <= i < |s.threads| ==> SessionOk(s, s.threads[i])
  }

  /** Sessions that have one file open for writing at the same time share it. */
  ghost predicate SharingSeen(s: State) {
    forall i, j, f: nat :: 0 <= i < j < |s.threads| && f < |s.files| && Writes(s.threads[i], f) && Writes(s.threads[j], f)
      ==> s.files[f].shared
  }

  /** The last message was broadcast on some slot, or its publisher is about to. */
  ghost predicate LastHeard(s: State, f: nat)
    requires f < |s.files|
  {
    var file := s.files[f];
    || file.messages == []
    || (exists b :: b in file.on && file.on[b] == |file.messages|)
    || (exists i :: 0 <= i < |s.threads| && AboutTo(s.threads[i], f, |file.messages|))
  }

  predicate AboutTo(t: Thread, f: nat, n: nat) {
    Announcing(t, f) && t.off == n
  }

  /** A file that lost a message is shared, and a shared file was strayed to. */
  ghost predicate CausesOk(file: BoxFile) {
    && |file.messages| <= |file.written|
    && (|file.messages| == |file.written| ==> Intact(file))
    && (!file.shared ==> Intact(file))
    && (file.shared ==> file.strayed)
  }

  ghost predicate BroadcastsOk(file: BoxFile) {
    && (forall b :: b in file.on ==> file.on[b] <= |file.messages|)
    && (!file.strayed ==> forall b :: b in file.on ==> b == file.home)
  }

  ghost predicate FileOk(s: State, f: nat)
    requires f < |s.files|
  {
    var file := s.files[f];
    && file.home < |s.boxes| && f <= s.boxes[file.home].file < |s.files|
    && CausesOk(file) && BroadcastsOk(file)
  }

  ghost predicate FilesOk(s: State) {
    forall f :: 0 <= f < |s.files| ==> FileOk(s, f) && LastHeard(s, f)
  }

  ghost predicate Inv(s: State) {
    Always(s) && SessionsOk(s) && SharingSeen(s) && FilesOk(s)
  }

  // ---- Preservation ----

  lemma SubStepOk(s: State, t: Thread)
    requires t.Sub? && t.b < |s.boxes| && t.f < |s.files| && t.phase != Asleep && SessionOk(s, t)
    requires BroadcastsOk(s.files[t.f])
    ensures SessionOk(s, SubStep(s, t))
  {
  }

  /** Ending or waking a session changes nothing it sent. */
  lemma StopOk(s: State, t: Thread)
    requires t.Sub? && SessionOk(s, t)
    ensures SessionOk(s, SubEnd(t.b, t.f, t.sent, t.passes))
    ensures t.phase == Asleep ==> SessionOk(s, t.(phase := Woken))
  {
  }

  lemma OpenOk(s: State, b: nat, f: nat)
    requires f < |s.files|
    ensures SessionOk(s, Sub(b, f, 0, [], [], Top, 0))
  {
  }

  /** The thread that steps. */
  lemma MoverOk(s: State, e: Step)
    requires Inv(s) && Enabled(s, e)
    ensures |Apply(s, e).threads| == |s.threads| && SessionOk(Apply(s, e), Apply(s, e).threads[e.i])
  {
    hide SinglePublisher, SleepsOnTaken, Exclusive, Free, SubStep, ReaderOk, Prefix, SharingSeen, OtherWrites,
         LastHeard, CausesOk, BroadcastsOk;
    var t := s.threads[e.i];
    assert SessionOk(s, t) && SlotInRange(s, t);
    if t.Sub? {
      assert FileOk(s, t.f);
      if e.Advance? {
        SubStepOk(s, t);
      } else {
        StopOk(s, t);
      }
    } else if t.SubOpen? && t.name in s.names {
      OpenOk(s, t.b, s.names[t.name]);
    }
  }

  /** A message written at the end is one more to read; one written behind it breaks the file. */
  lemma WriteKeeps(s: State, u: State, f: nat, off: nat, m: Message, t: Thread)
    requires f < |s.files| && SessionOk(s, t) && u.boxes == s.boxes
    requires off <= |s.files[f].messages| <= |s.files[f].written|
    requires u.files == s.files[f := s.files[f].(messages := Put(s.files[f].messages, off, m), written := s.files[f].written + [m])]
    requires !s.files[f].shared ==> !Writes(t, f)
    ensures SessionOk(u, t)
  {
    PutIntact(s.files[f], off, m);
  }

  lemma PutIntact(file: BoxFile, off: nat, m: Message)
    requires off <= |file.messages| <= |file.written|
    ensures Intact(file.(messages := Put(file.messages, off, m), written := file.written + [m]))
        <==> Intact(file) && off == |file.messages|
  {
    var after := file.(messages := Put(file.messages, off, m), written := file.written + [m]);
    if Intact(after) {
      assert |after.messages| == |after.written|;
      assert file.messages == after.messages[..|file.messages|] == after.written[..|file.written|] == file.written;
    }
  }

  lemma AnnounceKeeps(s: State, u: State, b: nat, f: nat, off: nat, t: Thread)
    requires f < |s.files| && SessionOk(s, t) && !Holds(t, b) && u.boxes == s.boxes
    requires u.files == s.files[f := Broadcast(s.files[f], b, off)]
    ensures SessionOk(u, Wake(t, b))
  {
  }

  /** Steps that leave messages and broadcasts alone. */
  lemma QuietKeeps(s: State, u: State, t: Thread)
    requires SessionOk(s, t) && |s.files| <= |u.files|
    requires forall f :: 0 <= f < |s.files| ==> Marked(s.files[f], u.files[f])
    ensures SessionOk(u, t)
    ensures forall b :: SessionOk(u, Wake(t, b))
  {
  }

  /** The same file, possibly marked as shared or strayed to. */
  ghost predicate Marked(file: BoxFile, after: BoxFile) {
    && after == file.(shared := after.shared, strayed := after.strayed)
    && (file.shared ==> after.shared) && (file.strayed ==> after.strayed)
  }

  lemma OtherOk(s: State, e: Step, j: nat)
    requires Inv(s) && Enabled(s, e) && j < |s.threads| && j != e.i
    ensures |Apply(s, e).threads| == |s.threads| && SessionOk(Apply(s, e), Apply(s, e).threads[j])
  {
    var i, t, x := e.i, s.threads[e.i], s.threads[j];
    assert SessionOk(s, t) && SessionOk(s, x) && SlotInRange(s, t) && SlotInRange(s, x);
    hide Always, SessionOk, FilesOk, SharingSeen;
    if e.Advance? && t.PubWrite? {
      WriteOk(s, i, j);
    } else if e.Advance? && t.PubAnnounce? {
      AnnounceOk(s, i, j);
    } else {
      QuietOk(s, e, j);
    }
  }

  lemma WriteOk(s: State, i: nat, j: nat)
    requires Inv(s) && Enabled(s, Advance(i)) && j < |s.threads| && j != i && s.threads[i].PubWrite?
    ensures SessionOk(Act(s, i), Act(s, i).threads[j])
  {
    hide Always, LastHeard, BroadcastsOk, ReaderOk;
    var t, x := s.threads[i], s.threads[j];
    assert SessionOk(s, t) && SessionOk(s, x) && FileOk(s, t.f);
    WriteKeeps(s, Act(s, i), t.f, t.off, t.message, x);
  }

  lemma AnnounceOk(s: State, i: nat, j: nat)
    requires Inv(s) && Enabled(s, Advance(i)) && j < |s.threads| && j != i && s.threads[i].PubAnnounce?
    ensures SessionOk(Act(s, i), Act(s, i).threads[j])
  {
    hide FilesOk, Always, ReaderOk, SharingSeen;
    var t, x := s.threads[i], s.threads[j];
    assert SessionOk(s, t) && SessionOk(s, x);
    AnnounceKeeps(s, Act(s, i), t.b, t.f, t.off, x);
  }

  lemma QuietOk(s: State, e: Step, j: nat)
    requires Enabled(s, e) && j < |s.threads| && j != e.i && SessionOk(s, s.threads[j])
    requires !(e.Advance? && (s.threads[e.i].PubWrite? || s.threads[e.i].PubAnnounce?))
    ensures |Apply(s, e).threads| == |s.threads| && SessionOk(Apply(s, e), Apply(s, e).threads[j])
  {
    hide SessionOk, Free, SubStep, Put, OtherWrites;
    QuietKeeps(s, Apply(s, e), s.threads[j]);
  }

  // ---- Files ----

  /** Who opens a shared file strayed to it: two sessions counted on one slot are the same. */
  lemma SharedStrays(s: State, i: nat, f: nat)
    requires Inv(s) && i < |s.threads| && s.threads[i].PubOpen? && f < |s.files| && OtherWrites(s, i, f)
    ensures s.files[f].strayed || s.files[f].home != s.threads[i].b
  {
    hide Always, FilesOk, SharingSeen;
    var j :| 0 <= j < |s.threads| && j != i && Writes(s.threads[j], f);
    assert SessionOk(s, s.threads[j]);
    if !s.files[f].strayed && s.files[f].home == s.threads[i].b {
      OneOnSlot(s, i, j, s.threads[i].b);
    }
  }

  lemma WriteCauses(file: BoxFile, off: nat, m: Message)
    requires CausesOk(file) && BroadcastsOk(file) && off <= |file.messages|
    requires !file.shared ==> off == |file.messages|
    ensures var after := file.(messages := Put(file.messages, off, m), written := file.written + [m]);
      CausesOk(after) && BroadcastsOk(after)
  {
  }

  lemma FileStep(s: State, e: Step, f: nat)
    requires Inv(s) && Enabled(s, e) && f < |s.files|
    ensures f < |Apply(s, e).files| && FileOk(Apply(s, e), f)
  {
    hide SinglePublisher, SleepsOnTaken, Exclusive, Free, SubStep, SharingSeen, OtherWrites, LastHeard, Put, ReaderOk;
    var u := Apply(s, e);
    var t := s.threads[e.i];
    SameSlots(s, e);
    assert FileOk(s, f) && SessionOk(s, t) && SlotInRange(s, t);
    if e.Advance? && t.PubWrite? && t.f == f {
      WriteCauses(s.files[f], t.off, t.message);
      hide CausesOk, BroadcastsOk;
    } else if e.Advance? && t.PubOpen? && OtherWrites(s, e.i, f) {
      SharedStrays(s, e.i, f);
    }
  }

  lemma SharingStep(s: State, e: Step)
    requires Inv(s) && Enabled(s, e)
    ensures SharingSeen(Apply(s, e))
  {
    var u := Apply(s, e);
    SameSlots(s, e);
    forall i: nat, j: nat, f: nat | i < j < |u.threads| && f < |u.files| && Writes(u.threads[i], f) && Writes(u.threads[j], f)
      ensures u.files[f].shared
    {
      hide SessionsOk, FilesOk, Always;
      PairStep(s, e, i, j, f);
    }
  }

  /** A session writes a file because it did before or has just opened it. */
  lemma WritesStep(s: State, e: Step, i: nat, f: nat)
    requires InRange(s) && Enabled(s, e) && i < |s.threads|
    ensures |Apply(s, e).threads| == |s.threads|
    ensures Writes(Apply(s, e).threads[i], f) ==>
      f < |s.files| && (Writes(s.threads[i], f) || (e == Advance(i) && s.threads[i].PubOpen?))
  {
    assert SlotInRange(s, s.threads[i]);
    if i != e.i {
      OnlyWoken(s, e, i);
      hide Apply;
    } else {
      hide Free, SubStep, Put, OtherWrites;
    }
  }

  lemma MarkStep(s: State, e: Step, f: nat)
    requires Enabled(s, e) && f < |s.files|
    ensures f < |Apply(s, e).files| && (s.files[f].shared ==> Apply(s, e).files[f].shared)
    ensures e.Advance? && s.threads[e.i].PubOpen? && OtherWrites(s, e.i, f) && |Apply(s, e).threads| == |s.threads| ==>
      (Writes(Apply(s, e).threads[e.i], f) ==> Apply(s, e).files[f].shared)
  {
    hide Free, SubStep, Put, OtherWrites;
  }

  lemma PairStep(s: State, e: Step, i: nat, j: nat, f: nat)
    requires InRange(s) && SharingSeen(s) && Enabled(s, e) && i < j < |s.threads| == |Apply(s, e).threads|
    requires f < |Apply(s, e).files| && Writes(Apply(s, e).threads[i], f) && Writes(Apply(s, e).threads[j], f)
    ensures Apply(s, e).files[f].shared
  {
    WritesStep(s, e, i, f);
    WritesStep(s, e, j, f);
    MarkStep(s, e, f);
    hide Apply, Enabled, InRange;
    if Writes(s.threads[i], f) && Writes(s.threads[j], f) {
      assert s.files[f].shared;
    }
  }

  /** A publisher about to announce stays so until it does. */
  lemma StaysAbout(s: State, e: Step, j: nat, f: nat, n: nat)
    requires Enabled(s, e) && j < |s.threads| && AboutTo(s.threads[j], f, n) && e != Advance(j)
    ensures |Apply(s, e).threads| == |s.threads| && AboutTo(Apply(s, e).threads[j], f, n)
  {
    if j != e.i {
      OnlyWoken(s, e, j);
      hide Apply;
    }
  }

  /** Only writes and broadcasts change the messages and broadcasts of a file. */
  lemma FileUntouched(s: State, e: Step, f: nat)
    requires Enabled(s, e) && f < |s.files|
    requires !(e.Advance? && (s.threads[e.i].PubWrite? || s.threads[e.i].PubAnnounce?) && s.threads[e.i].f == f)
    ensures f < |Apply(s, e).files| && Marked(s.files[f], Apply(s, e).files[f])
  {
    hide Free, SubStep, Put, OtherWrites;
  }

  lemma QuietHeard(s: State, e: Step, f: nat)
    requires Enabled(s, e) && f < |s.files| && LastHeard(s, f)
    requires !(e.Advance? && (s.threads[e.i].PubWrite? || s.threads[e.i].PubAnnounce?) && s.threads[e.i].f == f)
    ensures f < |Apply(s, e).files| && LastHeard(Apply(s, e), f)
  {
    var n := |s.files[f].messages|;
    FileUntouched(s, e, f);
    if j :| 0 <= j < |s.threads| && AboutTo(s.threads[j], f, n) {
      StaysAbout(s, e, j, f, n);
    }
    hide Apply;
  }

  lemma WriteHeard(s: State, i: nat, f: nat)
    requires Enabled(s, Advance(i)) && f < |s.files| && LastHeard(s, f)
    requires s.threads[i].PubWrite? && s.threads[i].f == f
    ensures LastHeard(Act(s, i), f)
  {
    var t, u, n := s.threads[i], Act(s, i), |s.files[f].messages|;
    if t.off == n {
      assert AboutTo(u.threads[i], f, n + 1);
    } else if j :| 0 <= j < |s.threads| && AboutTo(s.threads[j], f, n) {
      assert AboutTo(u.threads[j], f, n);
    }
  }

  lemma AnnounceHeard(s: State, i: nat, f: nat)
    requires Enabled(s, Advance(i)) && f < |s.files| && LastHeard(s, f) && BroadcastsOk(s.files[f])
    requires s.threads[i].PubAnnounce? && s.threads[i].f == f && s.threads[i].off <= |s.files[f].messages|
    ensures LastHeard(Act(s, i), f)
  {
    var t, u, n := s.threads[i], Act(s, i), |s.files[f].messages|;
    if b :| b in s.files[f].on && s.files[f].on[b] == n {
      assert b in u.files[f].on && u.files[f].on[b] == n;
    } else if j :| 0 <= j < |s.threads| && AboutTo(s.threads[j], f, n) {
      if j == i {
        assert n > 0 ==> t.b in u.files[f].on && u.files[f].on[t.b] == n;
      } else {
        StaysAbout(s, Advance(i), j, f, n);
      }
    }
  }

  lemma HeardStep(s: State, e: Step, f: nat)
    requires Inv(s) && Enabled(s, e) && f < |s.files|
    ensures f < |Apply(s, e).files| && LastHeard(Apply(s, e), f)
  {
    var t := s.threads[e.i];
    assert FileOk(s, f) && LastHeard(s, f) && SlotInRange(s, t);
    hide Inv, LastHeard, FileOk, Enabled, SlotInRange;
    if e.Advance? && t.PubWrite? && t.f == f {
      WriteHeard(s, e.i, f);
    } else if e.Advance? && t.PubAnnounce? && t.f == f {
      AnnounceHeard(s, e.i, f);
    } else {
      QuietHeard(s, e, f);
    }
  }

  lemma NewFileOk(s: State, e: Step, f: nat)
    requires InRange(s) && Enabled(s, e) && |s.files| <= f < |Apply(s, e).files|
    ensures FileOk(Apply(s, e), f) && LastHeard(Apply(s, e), f)
  {
    hide Free, SubStep, Put, OtherWrites, SlotInRange;
  }

  lemma StepFiles(s: State, e: Step)
    requires Inv(s) && Enabled(s, e)
    ensures FilesOk(Apply(s, e))
  {
    var u := Apply(s, e);
    forall f | 0 <= f < |u.files|
      ensures FileOk(u, f) && LastHeard(u, f)
    {
      hide SessionsOk, FilesOk, SharingSeen, SinglePublisher, SleepsOnTaken, Exclusive, FileOk, LastHeard, Apply, Enabled, InRange;
      if f < |s.files| {
        FileStep(s, e, f);
        HeardStep(s, e, f);
      } else {
        NewFileOk(s, e, f);
      }
    }
  }

  lemma StepInv(s: State, e: Step)
    requires Inv(s) && Enabled(s, e)
    ensures Inv(Apply(s, e))
  {
    var u := Apply(s, e);
    StepAlways(s, e);
    StepFiles(s, e);
    SharingStep(s, e);
    SameSlots(s, e);
    hide Always, FilesOk, SharingSeen, SessionOk, Apply, Enabled;
    forall j | 0 <= j < |u.threads|
      ensures SessionOk(u, u.threads[j])
    {
      if j == e.i {
        MoverOk(s, e);
      } else {
        OtherOk(s, e, j);
      }
    }
  }

  lemma InitialInv(s: State)
    requires Initial(s)
    ensures Inv(s)
  {
    InitialAlways(s);
  }

  lemma {:induction false} RunInv(s: State, run: seq<Step>)
    requires Inv(s) && CanRun(s, run)
    ensures Inv(After(s, run))
    decreases |run|
  {
    hide Inv, Apply, Enabled;
    if run != [] {
      StepInv(s, run[0]);
      RunInv(Apply(s, run[0]), run[1..]);
    }
  }

  // ---- Every run, nothing excluded ----

  /** A subscriber's output is as long as what it read plus one message for each pass. */
  ghost predicate OutputExact(s: State, t: Thread) {
    && (t.Sub? ==>
          && t.f < |s.files| && t.off <= |s.files[t.f].messages|
          && |Output(t)| == t.off + t.passes
          && (Intact(s.files[t.f]) ==> (Output(t) == s.files[t.f].messages[..t.off] <==> t.passes == 0)))
    && (t.SubEnd? || t.Sub? ==>
          && t.f < |s.files|
          && (Intact(s.files[t.f]) && t.passes == 0 ==> Prefix(t.sent, s.files[t.f].messages)))
  }

  /**
   A sleeper read every message broadcast on its slot. With nobody about to announce, it misses one
   only if the last message was broadcast on another slot and not on its own.
   */
  ghost predicate SleepExact(s: State, t: Thread) {
    t.Sub? && t.phase == Asleep ==>
      && t.b < |s.boxes| && s.boxes[t.b].taken && t.f < |s.files|
      && (s.files[t.f].home == t.b ==> t.f <= s.boxes[t.b].file)
      && var file := s.files[t.f];
      && On(file, t.b) <= t.off <= |file.messages|
      && (NobodyAnnounces(s, t.f) && t.off < |file.messages| ==>
            On(file, t.b) < |file.messages| && exists c :: c != t.b && c in file.on && file.on[c] == |file.messages|)
  }

  ghost predicate NobodyAnnounces(s: State, f: nat) {
    forall i :: 0 <= i < |s.threads| ==> !Announcing(s.threads[i], f)
  }

  /** A message is lost only in a shared file, and only a file that was strayed to is shared. */
  ghost predicate CausesExact(s: State) {
    && SharingSeen(s)
    && forall f :: 0 <= f < |s.files| ==>
      && (|s.files[f].messages| == |s.files[f].written| <==> Intact(s.files[f]))
      && (!Intact(s.files[f]) ==> s.files[f].shared)
      && (s.files[f].shared ==> s.files[f].strayed)
  }

  lemma SessionExact(s: State, i: nat)
    requires Inv(s) && i < |s.threads|
    ensures OutputExact(s, s.threads[i]) && SleepExact(s, s.threads[i])
  {
    hide SinglePublisher, Exclusive, SharingSeen;
    var t := s.threads[i];
    assert SessionOk(s, t) && SleepOk(s, t) && SlotInRange(s, t);
    if t.Sub? {
      assert FileOk(s, t.f) && LastHeard(s, t.f);
      StopOk(s, t);
    }
  }

  lemma InvIsExact(s: State)
    requires Inv(s)
    ensures forall i :: 0 <= i < |s.threads| ==> OutputExact(s, s.threads[i]) && SleepExact(s, s.threads[i])
    ensures CausesExact(s)
  {
    assert SharingSeen(s);
    forall f | 0 <= f < |s.files|
      ensures CausesOk(s.files[f])
    {
      assert FileOk(s, f);
    }
    hide Inv, OutputExact, SleepExact, SharingSeen;
    forall i | 0 <= i < |s.threads|
      ensures OutputExact(s, s.threads[i]) && SleepExact(s, s.threads[i])
    {
      SessionExact(s, i);
    }
  }

  /**
   In every run: on a file that holds all messages written to it, a session puts out exactly what it
   read, a gap-free in-order prefix, if and only if it never passed a slot that was taken anew; a
   sleeper read every message broadcast on its slot; a message is lost only in a file that two
   sessions had open for writing, and only if a publisher counted on another slot opened it.
   */
  lemma EveryRunIsExact(s: State, run: seq<Step>)
    requires Initial(s) && CanRun(s, run)
    ensures var u := After(s, run);
      && (forall i :: 0 <= i < |u.threads| ==> OutputExact(u, u.threads[i]) && SleepExact(u, u.threads[i]))
      && CausesExact(u)
  {
    InitialInv(s);
    RunInv(s, run);
    InvIsExact(After(s, run));
  }

  // ---- Lost messages ----

  /** A publisher writes behind the end of a file, over a message. */
  predicate Overwrites(s: State, e: Step, f: nat) {
    && e.Advance? && e.i < |s.threads| && s.threads[e.i].PubWrite? && s.threads[e.i].f == f
    && f < |s.files| && s.threads[e.i].off < |s.files[f].messages|
  }

  /** How often a run overwrites a message of a file. */
  ghost function Overwritten(s: State, run: seq<Step>, f: nat): nat
    requires CanRun(s, run)
    decreases |run|
  {
    if run == [] then 0
    else (if Overwrites(s, run[0], f) then 1 else 0) + Overwritten(Apply(s, run[0]), run[1..], f)
  }

  /** How many messages written to a file are not in it. */
  function Lost(s: State, f: nat): int {
    if f < |s.files| then |s.files[f].written| - |s.files[f].messages| else 0
  }

  /** A step appends what it writes unless it writes behind the end; then the file stays as long as it was. */
  lemma AppendStep(s: State, e: Step, f: nat)
    requires Enabled(s, e)
    ensures Lost(Apply(s, e), f) == Lost(s, f) + if Overwrites(s, e, f) then 1 else 0
    ensures f < |s.files| ==> f < |Apply(s, e).files| && s.files[f].written <= Apply(s, e).files[f].written
    ensures f < |s.files| && !Overwrites(s, e, f) ==>
      Apply(s, e).files[f].messages == s.files[f].messages + Apply(s, e).files[f].written[|s.files[f].written|..]
  {
    hide Free, SubStep, OtherWrites;
  }

  lemma ThenAppend(a: seq<Message>, b: seq<Message>, c: seq<Message>, x: seq<Message>, y: seq<Message>)
    requires a <= b <= c && y == x + b[|a|..]
    ensures y + c[|b|..] == x + c[|a|..]
  {
    assert c[|a|..] == b[|a|..] + c[|b|..];
  }

  /**
   In every run a file loses exactly as many messages as are overwritten, and if none is, exactly the
   messages written are appended to it, in order.
   */
  lemma {:induction false} OnlyAppends(s: State, run: seq<Step>, f: nat)
    requires CanRun(s, run)
    ensures Lost(After(s, run), f) == Lost(s, f) + Overwritten(s, run, f)
    ensures f < |s.files| ==> f < |After(s, run).files| && s.files[f].written <= After(s, run).files[f].written
    ensures f < |s.files| && Overwritten(s, run, f) == 0 ==>
      After(s, run).files[f].messages == s.files[f].messages + After(s, run).files[f].written[|s.files[f].written|..]
    decreases |run|
  {
    hide Apply, Enabled, Overwrites;
    if run != [] {
      var t, u := Apply(s, run[0]), After(s, run);
      AppendStep(s, run[0], f);
      OnlyAppends(t, run[1..], f);
      if f < |s.files| && Overwritten(s, run, f) == 0 {
        ThenAppend(s.files[f].written, t.files[f].written, u.files[f].written, s.files[f].messages, t.files[f].messages);
      }
    }
  }

  /** A file holds every message written to it, in order, exactly when the run overwrote none. */
  lemma IntactIff(s: State, run: seq<Step>, f: nat)
    requires Initial(s) && CanRun(s, run) && f < |After(s, run).files|
    ensures Intact(After(s, run).files[f]) <==> Overwritten(s, run, f) == 0
  {
    EveryRunIsExact(s, run);
    OnlyAppends(s, run, f);
    hide After, CanRun, Overwritten;
  }

  // ---- Events ----

  predicate OpensElsewhere(s: State, t: Thread) {
    && (t.PubOpen? || t.SubOpen?) && t.name in s.names && s.names[t.name] < |s.files|
    && s.files[s.names[t.name]].home != t.b
  }

  /** A publisher opens a file whose box is not the one of the slot it is counted on. */
  predicate Strays(s: State, e: Step) {
    e.Advance? && e.i < |s.threads| && s.threads[e.i].PubOpen? && OpensElsewhere(s, s.threads[e.i])
  }

  /** A subscriber opens a file whose box is not the one of the slot it will wait on. */
  predicate Misplaces(s: State, e: Step) {
    e.Advance? && e.i < |s.threads| && s.threads[e.i].SubOpen? && OpensElsewhere(s, s.threads[e.i])
  }

  /** A subscriber that saw its slot free looks again and finds it in use. */
  predicate Passes(s: State, e: Step) {
    && e.Advance? && e.i < |s.threads|
    && var t := s.threads[e.i];
    t.Sub? && t.phase == Left && t.b < |s.boxes| && s.boxes[t.b].taken
  }

  /** A slot is taken anew while a subscriber that saw it free is about to look again. */
  predicate Retakes(s: State, e: Step) {
    e.Create? && exists j :: 0 <= j < |s.threads| && SawFree(s.threads[j], e.b)
  }

  predicate SawFree(t: Thread, b: nat) {
    t.Sub? && t.phase == Left && t.b == b
  }

  ghost predicate Never(s: State, run: seq<Step>, bad: (State, Step) -> bool)
    requires CanRun(s, run)
    decreases |run|
  {
    run == [] || (!bad(s, run[0]) && Never(Apply(s, run[0]), run[1..], bad))
  }

  ghost predicate NoneStrayed(s: State) {
    forall f :: 0 <= f < |s.files| ==> !s.files[f].strayed
  }

  lemma StrayStep(s: State, e: Step)
    requires Enabled(s, e)
    ensures NoneStrayed(Apply(s, e)) <==> NoneStrayed(s) && !Strays(s, e)
  {
    hide Free, SubStep, Put, OtherWrites;
    var u := Apply(s, e);
    assert forall f :: 0 <= f < |s.files| ==> f < |u.files| && (s.files[f].strayed ==> u.files[f].strayed);
    if e.Advance? && s.threads[e.i].PubOpen? && s.threads[e.i].name in s.names {
      var f := s.names[s.threads[e.i].name];
      assert u.files[f].strayed <==> s.files[f].strayed || Strays(s, e);
    }
  }

  /** A file is marked exactly when some publisher strayed. */
  lemma {:induction false} RunStrays(s: State, run: seq<Step>)
    requires CanRun(s, run)
    ensures NoneStrayed(After(s, run)) <==> NoneStrayed(s) && Never(s, run, Strays)
    decreases |run|
  {
    hide NoneStrayed, Apply, Enabled, Strays;
    if run != [] {
      StrayStep(s, run[0]);
      RunStrays(Apply(s, run[0]), run[1..]);
    }
  }

  /** A publisher opens a file that another session has open for writing. */
  predicate Shares(s: State, e: Step, f: nat) {
    && e.Advance? && e.i < |s.threads| && s.threads[e.i].PubOpen? && s.threads[e.i].name in s.names
    && s.names[s.threads[e.i].name] == f && OtherWrites(s, e.i, f)
  }

  predicate IsShared(s: State, f: nat) {
    f < |s.files| && s.files[f].shared
  }

  lemma ShareStep(s: State, e: Step, f: nat)
    requires Enabled(s, e)
    ensures IsShared(Apply(s, e), f) <==> IsShared(s, f) || Shares(s, e, f)
  {
    hide Free, SubStep, Put, OtherWrites;
  }

  /** A file is shared exactly when some publisher opened it beside another writer. */
  lemma {:induction false} RunShares(s: State, run: seq<Step>, f: nat)
    requires CanRun(s, run)
    ensures !IsShared(After(s, run), f) <==> !IsShared(s, f) && Never(s, run, (t: State, e: Step) => Shares(t, e, f))
    decreases |run|
  {
    hide IsShared, Apply, Enabled, Shares;
    if run != [] {
      ShareStep(s, run[0], f);
      RunShares(Apply(s, run[0]), run[1..], f);
    }
  }

  ghost predicate NonePassed(s: State) {
    forall i :: 0 <= i < |s.threads| && (s.threads[i].Sub? || s.threads[i].SubEnd?) ==> s.threads[i].passes == 0
  }

  lemma PassStep(s: State, e: Step)
    requires NonePassed(s) && Enabled(s, e) && !Passes(s, e)
    ensures NonePassed(Apply(s, e))
  {
    hide Free, Put, OtherWrites;
    SameSlots(s, e);
  }

  lemma {:induction false} RunPasses(s: State, run: seq<Step>)
    requires NonePassed(s) && CanRun(s, run) && Never(s, run, Passes)
    ensures NonePassed(After(s, run))
    decreases |run|
  {
    hide NonePassed, Apply, Enabled, Passes;
    if run != [] {
      PassStep(s, run[0]);
      RunPasses(Apply(s, run[0]), run[1..]);
    }
  }

  /** Who saw its slot free will see it free. */
  ghost predicate LeftIsFree(s: State) {
    forall i :: 0 <= i < |s.threads| ==> StillFree(s, s.threads[i])
  }

  ghost predicate StillFree(s: State, t: Thread) {
    t.Sub? && t.phase == Left && t.b < |s.boxes| ==> !s.boxes[t.b].taken
  }

  lemma RetakeStep(s: State, e: Step)
    requires LeftIsFree(s) && Enabled(s, e) && !Retakes(s, e)
    ensures !Passes(s, e) && LeftIsFree(Apply(s, e))
  {
    var u := Apply(s, e);
    SameSlots(s, e);
    forall j | 0 <= j < |u.threads|
      ensures StillFree(u, u.threads[j])
    {
      assert StillFree(s, s.threads[j]);
      hide Free, Put, OtherWrites;
      assert e.Create? ==> !SawFree(s.threads[j], e.b);
    }
    assert StillFree(s, s.threads[e.i]);
  }

  /** No subscriber passes a slot unless it was taken anew under one that saw it free. */
  lemma {:induction false} RetakesComeFirst(s: State, run: seq<Step>)
    requires LeftIsFree(s) && CanRun(s, run) && Never(s, run, Retakes)
    ensures Never(s, run, Passes)
    decreases |run|
  {
    hide LeftIsFree, Apply, Enabled, Retakes, Passes;
    if run != [] {
      RetakeStep(s, run[0]);
      RetakesComeFirst(Apply(s, run[0]), run[1..]);
    }
  }

  /** Every subscriber waits on the slot of its own box. */
  ghost predicate AllPlaced(s: State) {
    forall i :: 0 <= i < |s.threads| ==> Placed(s, s.threads[i])
  }

  ghost predicate Placed(s: State, t: Thread) {
    t.Sub? ==> t.f < |s.files| && s.files[t.f].home == t.b
  }

  lemma PlaceStep(s: State, e: Step)
    requires InRange(s) && AllPlaced(s) && Enabled(s, e) && !Misplaces(s, e)
    ensures AllPlaced(Apply(s, e))
  {
    hide Free, Put, SubStep, SlotInRange, OtherWrites;
    var u := Apply(s, e);
    SameSlots(s, e);
    assert forall f :: 0 <= f < |s.files| ==> f < |u.files| && u.files[f].home == s.files[f].home;
    forall j | 0 <= j < |u.threads|
      ensures Placed(u, u.threads[j])
    {
      assert Placed(s, s.threads[j]);
    }
  }

  lemma {:induction false} RunPlaces(s: State, run: seq<Step>)
    requires Always(s) && AllPlaced(s) && CanRun(s, run) && Never(s, run, Misplaces)
    ensures AllPlaced(After(s, run))
    decreases |run|
  {
    if run != [] {
      PlaceStep(s, run[0]);
      StepAlways(s, run[0]);
      hide Always, AllPlaced, Apply, Enabled, Misplaces;
      RunPlaces(Apply(s, run[0]), run[1..]);
    }
  }

  // ---- Runs without these events ----

  predicate IsSession(t: Thread) {
    t.Sub? || t.SubEnd?
  }

  ghost predicate Served(s: State, t: Thread) {
    IsSession(t) ==> t.f < |s.files| && Prefix(t.sent, s.files[t.f].messages)
  }

  /**
   In every run, every session that never passed a slot, on a file with no message overwritten, was
   sent a gap-free, duplicate-free, in-order prefix of the messages written to its box.
   */
  lemma EveryRunDelivers(s: State, run: seq<Step>)
    requires Initial(s) && CanRun(s, run)
    ensures var u := After(s, run);
      forall i :: 0 <= i < |u.threads| && IsSession(u.threads[i]) && u.threads[i].passes == 0 ==>
        (Overwritten(s, run, u.threads[i].f) == 0 ==>
          Served(u, u.threads[i]) && Prefix(u.threads[i].sent, u.files[u.threads[i].f].written))
  {
    EveryRunIsExact(s, run);
    var u := After(s, run);
    forall i | 0 <= i < |u.threads| && IsSession(u.threads[i]) && u.threads[i].passes == 0
        && Overwritten(s, run, u.threads[i].f) == 0
      ensures Served(u, u.threads[i]) && Prefix(u.threads[i].sent, u.files[u.threads[i].f].written)
    {
      assert OutputExact(u, u.threads[i]);
      IntactIff(s, run, u.threads[i].f);
    }
  }

  lemma InitialQuiet(s: State)
    requires Initial(s)
    ensures Always(s) && NonePassed(s) && LeftIsFree(s) && AllPlaced(s) && NoneStrayed(s)
  {
    InitialAlways(s);
  }

  /**
   Without straying publishers and without a slot taken anew under a subscriber that saw it free, every
   session was served.
   */
  lemma UnstrayedRunDelivers(s: State, run: seq<Step>)
    requires Initial(s) && CanRun(s, run) && Never(s, run, Strays) && Never(s, run, Retakes)
    ensures var u := After(s, run); forall i :: 0 <= i < |u.threads| ==> Served(u, u.threads[i])
  {
    InitialQuiet(s);
    EveryRunIsExact(s, run);
    RunStrays(s, run);
    RetakesComeFirst(s, run);
    RunPasses(s, run);
    var u := After(s, run);
    hide After, CanRun, Never, SleepExact;
    forall i | 0 <= i < |u.threads|
      ensures Served(u, u.threads[i])
    {
      assert OutputExact(u, u.threads[i]);
    }
  }

  /** A sleeper was sent every message broadcast anywhere, and all messages if none is about to be. */
  ghost predicate CaughtUp(s: State, t: Thread)
    requires t.Sub?
  {
    && t.b < |s.boxes| && s.boxes[t.b].taken && t.f < |s.files|
    && (forall b :: b in s.files[t.f].on ==> s.files[t.f].on[b] <= |t.sent|)
    && Prefix(t.sent, s.files[t.f].messages)
    && (NobodyAnnounces(s, t.f) ==> t.sent == s.files[t.f].messages)
  }

  /** If moreover no subscriber opens a box that moved, every sleeper is caught up. */
  lemma UnstrayedRunWakes(s: State, run: seq<Step>)
    requires Initial(s) && CanRun(s, run)
    requires Never(s, run, Strays) && Never(s, run, Retakes) && Never(s, run, Misplaces)
    ensures var u := After(s, run);
      forall i :: 0 <= i < |u.threads| && u.threads[i].Sub? && u.threads[i].phase == Asleep ==>
        CaughtUp(u, u.threads[i])
  {
    InitialQuiet(s);
    InitialInv(s);
    RunInv(s, run);
    RunStrays(s, run);
    RetakesComeFirst(s, run);
    RunPasses(s, run);
    RunPlaces(s, run);
    var u := After(s, run);
    hide After, CanRun, Never, Inv;
    forall i | 0 <= i < |u.threads| && u.threads[i].Sub? && u.threads[i].phase == Asleep
      ensures CaughtUp(u, u.threads[i])
    {
      SleeperCaughtUp(u, i);
    }
  }

  lemma SleeperCaughtUp(s: State, i: nat)
    requires Inv(s) && NoneStrayed(s) && NonePassed(s) && AllPlaced(s)
    requires i < |s.threads| && s.threads[i].Sub? && s.threads[i].phase == Asleep
    ensures CaughtUp(s, s.threads[i])
  {
    var t := s.threads[i];
    SessionExact(s, i);
    assert Placed(s, t) && FileOk(s, t.f);
    assert Output(t) == t.sent;
  }

  // ---- The box of a sleeping subscriber ----

  lemma SlotKeepsBox(s: State, e: Step, b: nat)
    requires Enabled(s, e) && b < |s.boxes|
    ensures |Apply(s, e).boxes| == |s.boxes|
    ensures Apply(s, e).boxes[b].file != s.boxes[b].file ==> e.Create? && e.b == b
  {
    hide Free, SubStep, Put;
  }

  predicate SleepsOn(t: Thread, b: nat, f: nat) {
    t.Sub? && t.phase == Asleep && t.b == b && t.f == f
  }

  /** While its slot is not taken anew, a session that sleeps has its box: the slot is in use and still holds it. */
  lemma {:induction false} SleeperHasItsBox(s: State, run: seq<Step>, f: nat, b: nat)
    requires Inv(s) && CanRun(s, run) && b < |s.boxes| && s.boxes[b].file == f
    requires forall k :: 0 <= k < |run| ==> !(run[k].Create? && run[k].b == b)
    ensures var u := After(s, run);
      && |u.boxes| == |s.boxes| && u.boxes[b].file == f
      && ((exists i :: 0 <= i < |u.threads| && SleepsOn(u.threads[i], b, f)) ==> u.boxes[b].taken)
    decreases |run|
  {
    if run == [] {
      hide SessionsOk, FilesOk, SinglePublisher, InRange, Exclusive;
      if i :| 0 <= i < |s.threads| && SleepsOn(s.threads[i], b, f) {
        assert SleepOk(s, s.threads[i]);
      }
    } else {
      StepInv(s, run[0]);
      SlotKeepsBox(s, run[0], b);
      hide Inv, Apply, Enabled;
      SleeperHasItsBox(Apply(s, run[0]), run[1..], f, b);
    }
  }
}
