/**
 What broker requests achieve: when sessions end and when they are admitted, that a published
 message is stored and broadcast, that an unread message is sent, and that someone can always go on.
 */
module BrokerCalls {
  import opened Bytes
  import opened BrokerSessions

  // ---- When sessions begin, end and return ----

  /**
   A subscriber session ends exactly because its client hung up, or because after leaving its loop it
   tested the slot again and found it free.
   */
  lemma SubEndsIff(s: State, e: Step, i: nat)
    requires Enabled(s, e) && i < |s.threads| && !s.threads[i].SubEnd?
    ensures |Apply(s, e).threads| == |s.threads|
    ensures var t := s.threads[i];
      Apply(s, e).threads[i].SubEnd? <==>
        t.Sub? && ((e == Stop(i) && t.phase == Send)
                   || (e == Advance(i) && (t.phase == Got || t.phase == Left) && !s.boxes[t.b].taken))
  {
    if i != e.i {
      OnlyWoken(s, e, i);
      hide Apply;
    }
  }

  /** A publisher session ends exactly because its client hung up or its box was full, or its slot was free. */
  lemma PubEndsIff(s: State, e: Step, i: nat)
    requires Enabled(s, e) && i < |s.threads| && !s.threads[i].PubEnd?
    ensures |Apply(s, e).threads| == |s.threads|
    ensures var t := s.threads[i];
      Apply(s, e).threads[i].PubEnd? <==>
        || (e == Stop(i) && (t.PubRun? || t.PubWrite?))
        || (e.Receive? && e.i == i && t.PubRun? && !s.boxes[t.b].taken)
  {
    if i != e.i {
      OnlyWoken(s, e, i);
      hide Apply;
    }
  }

  /** A request returns exactly at its end, or when a publisher is refused because of another or a gone name. */
  lemma ReturnsIff(s: State, e: Step, i: nat)
    requires Enabled(s, e) && i < |s.threads| && !s.threads[i].Idle?
    ensures |Apply(s, e).threads| == |s.threads|
    ensures var t := s.threads[i];
      Apply(s, e).threads[i].Idle? <==>
        e == Advance(i) && (t.SubEnd? || t.PubEnd? || t.Naming? || t.Unlinking?
                            || (t.PubFound? && s.boxes[t.b].publishers > 0)
                            || (t.PubOpen? && t.name !in s.names))
  {
    if i != e.i {
      OnlyWoken(s, e, i);
      hide Apply;
    } else {
      hide Free, Put, OtherWrites;
    }
  }

  // ---- Admission ----

  /** A publisher that finds nobody counted on its slot and its name bound is counted and writes at the end. */
  lemma PublisherAdmitted(s: State, i: nat)
    requires i < |s.threads| && s.threads[i].PubFound? && s.threads[i].b < |s.boxes| && Free(s, s.threads[i].b)
    requires s.boxes[s.threads[i].b].publishers <= 0
    requires s.threads[i].name in s.names && s.names[s.threads[i].name] < |s.files|
    ensures var run := [Advance(i), Advance(i)];
      && CanRun(s, run)
      && var t, u, f := s.threads[i], After(s, run), s.names[s.threads[i].name];
      && |u.threads| == |s.threads| && u.threads[i] == PubRun(t.b, f, |s.files[f].messages|)
      && |u.boxes| == |s.boxes| && u.boxes[t.b].publishers == s.boxes[t.b].publishers + 1
  {
    var t := s.threads[i];
    var v := Apply(s, Advance(i));
    assert v.threads[i] == PubOpen(t.b, t.name);
    var u := Apply(v, Advance(i));
    TwoSteps(s, Advance(i), Advance(i));
  }

  lemma TwoSteps(s: State, e: Step, d: Step)
    requires Enabled(s, e) && Enabled(Apply(s, e), d)
    ensures CanRun(s, [e, d]) && After(s, [e, d]) == Apply(Apply(s, e), d)
  {
    hide Enabled, Apply;
    var v := Apply(s, e);
    assert [e, d][1..] == [d] && [d][1..] == [];
    assert CanRun(v, [d]) && After(v, [d]) == Apply(v, d);
  }

  /** A subscriber whose name is bound reads its file from the beginning. */
  lemma SubscriberAdmitted(s: State, i: nat)
    requires i < |s.threads| && s.threads[i].SubFound? && Free(s, s.threads[i].b) && s.threads[i].name in s.names
    ensures var run := [Advance(i), Advance(i)];
      && CanRun(s, run)
      && var t, u := s.threads[i], After(s, run);
      |u.threads| == |s.threads| && u.threads[i] == Sub(t.b, s.names[t.name], 0, [], [], Top, 0)
  {
    var t := s.threads[i];
    var v := Apply(s, Advance(i));
    assert v.threads[i] == SubOpen(t.b, t.name);
    TwoSteps(s, Advance(i), Advance(i));
  }

  // ---- Boxes ----

  /** A created box has a slot of its name and a new, empty file under that name. */
  lemma BoxCreated(s: State, i: nat, name: CString, b: nat)
    requires Enabled(s, Create(i, name, b)) && Free(s, b)
    ensures var run := [Create(i, name, b), Advance(i)];
      && CanRun(s, run)
      && var u := After(s, run);
      && |u.threads| == |s.threads| && u.threads[i].Idle?
      && |u.boxes| == |s.boxes| && u.boxes[b].taken && u.boxes[b].name == name
      && name in u.names && u.names[name] == |s.files| && u.files == s.files + [NewFile(b)]
      && forall other :: other != name ==> (other in u.names <==> other in s.names)
  {
    var v := Apply(s, Create(i, name, b));
    assert v.threads[i] == Naming(b, name);
    forall j | 0 <= j < |v.threads|
      ensures !Holds(v.threads[j], b)
    {
      assert !Holds(s.threads[j], b);
    }
    TwoSteps(s, Create(i, name, b), Advance(i));
  }

  /** A removed box has neither slot nor name, and nobody sleeps on its slot. */
  lemma BoxRemoved(s: State, i: nat, b: nat)
    requires Enabled(s, Remove(i, b))
    ensures var run := [Remove(i, b), Advance(i)];
      && CanRun(s, run)
      && var u := After(s, run);
      && |u.threads| == |s.threads| && u.threads[i].Idle?
      && |u.boxes| == |s.boxes| && !u.boxes[b].taken && u.names == s.names - {s.boxes[b].name}
      && NobodySleeps(u, b)
  {
    var v := Apply(s, Remove(i, b));
    assert v.threads[i] == Unlinking(s.boxes[b].name);
    assert NobodySleeps(v, b);
    TwoSteps(s, Remove(i, b), Advance(i));
  }

  ghost predicate NobodySleeps(s: State, b: nat) {
    forall j :: 0 <= j < |s.threads| ==> !(s.threads[j].Sub? && s.threads[j].phase == Asleep && s.threads[j].b == b)
  }

  // ---- Messages ----

  ghost predicate OthersWoken(s: State, u: State, i: nat, b: nat) {
    && |u.threads| == |s.threads|
    && forall k :: 0 <= k < |s.threads| && k != i ==> u.threads[k] == Wake(s.threads[k], b)
  }

  /** A message received for a box in use is written and broadcast, and wakes everybody who sleeps on the slot. */
  lemma MessagePublished(s: State, i: nat, m: Message)
    requires InRange(s) && i < |s.threads| && s.threads[i].PubRun? && s.boxes[s.threads[i].b].taken
    requires Free(s, s.threads[i].b)
    ensures var run := [Receive(i, m), Advance(i), Advance(i)];
      && CanRun(s, run)
      && var t, u := s.threads[i], After(s, run);
      && |u.threads| == |s.threads| && u.threads[i] == PubRun(t.b, t.f, t.off + 1)
      && t.f < |s.files| == |u.files|
      && u.files[t.f].written == s.files[t.f].written + [m]
      && t.off < |u.files[t.f].messages| && u.files[t.f].messages[t.off] == m
      && On(u.files[t.f], t.b) > t.off && NobodySleeps(u, t.b)
      && u.boxes == s.boxes && OthersWoken(s, u, i, t.b)
  {
    var t := s.threads[i];
    assert SlotInRange(s, t);
    var v := Apply(s, Receive(i, m));
    assert v.threads[i] == PubWrite(t.b, t.f, t.off, m) && v.files == s.files;
    MessageWritten(v, i);
    var run := [Receive(i, m), Advance(i), Advance(i)];
    assert run[1..] == [Advance(i), Advance(i)];
    StillFree(s, v, i, t.b);
  }

  lemma StillFree(s: State, v: State, i: nat, b: nat)
    requires Free(s, b) && i < |s.threads| == |v.threads| && v.threads == s.threads[i := v.threads[i]]
    requires !Holds(v.threads[i], b)
    ensures Free(v, b)
  {
  }

  lemma MessageWritten(s: State, i: nat)
    requires i < |s.threads| && s.threads[i].PubWrite? && s.threads[i].f < |s.files|
    requires s.threads[i].off <= |s.files[s.threads[i].f].messages| && Free(s, s.threads[i].b)
    ensures var run := [Advance(i), Advance(i)];
      && CanRun(s, run)
      && var t, u := s.threads[i], After(s, run);
      && |u.threads| == |s.threads| && u.threads[i] == PubRun(t.b, t.f, t.off + 1)
      && |u.files| == |s.files| && u.files[t.f].written == s.files[t.f].written + [t.message]
      && t.off < |u.files[t.f].messages| && u.files[t.f].messages[t.off] == t.message
      && On(u.files[t.f], t.b) > t.off && NobodySleeps(u, t.b)
      && u.boxes == s.boxes && OthersWoken(s, u, i, t.b)
  {
    var t := s.threads[i];
    var v := Apply(s, Advance(i));
    assert v.threads[i] == PubAnnounce(t.b, t.f, t.off + 1);
    StillFree(s, v, i, t.b);
    var u := Apply(v, Advance(i));
    TwoSteps(s, Advance(i), Advance(i));
    assert NobodySleeps(u, t.b);
  }

  /** What a subscriber will have sent when it next looks for more without the lock. */
  ghost function Owed(t: Thread): seq<Message>
    requires t.Sub?
  {
    t.sent + if t.phase == Got || t.phase == Send || t.phase == Left then [t.buffer] else []
  }

  /** How many of its own steps take a subscriber with something to read to its next message sent. */
  function StepsToSend(t: Thread): nat
    requires t.Sub?
  {
    match t.phase
    case Top => 5
    case Woken => 5
    case Check => 4
    case Reading => 3
    case Wait => 0
    case Asleep => 0
    case Got => 4
    case Left => 4
    case Send => 3
    case More => 2
  }

  /** A subscriber that neither sleeps nor is about to, with its slot in use and a message unread. */
  ghost predicate HasUnread(s: State, i: nat) {
    && i < |s.threads| && s.threads[i].Sub? && s.threads[i].phase != Wait && s.threads[i].phase != Asleep
    && s.threads[i].b < |s.boxes| && s.boxes[s.threads[i].b].taken
    && s.threads[i].f < |s.files| && s.threads[i].off < |s.files[s.threads[i].f].messages|
    && (s.threads[i].phase == Top || s.threads[i].phase == Woken ==> Free(s, s.threads[i].b))
  }

  lemma UnreadStep(s: State, i: nat)
    requires HasUnread(s, i)
    ensures Enabled(s, Advance(i))
    ensures var t, u := s.threads[i], Act(s, i);
      && u == s.(threads := s.threads[i := u.threads[i]]) && |u.threads| == |s.threads|
      && var v := u.threads[i];
      && v.Sub? && v.b == t.b && v.f == t.f && v.phase != Asleep && v.phase != Wait
      && (v.off == t.off ==> HasUnread(u, i) && Owed(v) == Owed(t) && StepsToSend(v) < StepsToSend(t))
      && (v.off != t.off ==>
            (v.phase == Got ==> StepsToSend(t) >= 3) &&
            v.off == t.off + 1 && Owed(v) == Owed(t) + [s.files[t.f].messages[t.off]] && (v.phase == Got || v.phase == Send))
  {
  }

  lemma SentStep(s: State, i: nat)
    requires i < |s.threads| && s.threads[i].Sub? && (s.threads[i].phase == Got || s.threads[i].phase == Send)
    requires s.threads[i].b < |s.boxes| && s.boxes[s.threads[i].b].taken && s.threads[i].f < |s.files|
    ensures Enabled(s, Advance(i))
    ensures var t, u := s.threads[i], Act(s, i);
      && u == s.(threads := s.threads[i := u.threads[i]]) && |u.threads| == |s.threads|
      && u.threads[i] == if t.phase == Got then t.(phase := Send) else t.(sent := Owed(t), phase := More)
  {
  }

  predicate OwnSteps(run: seq<Step>, i: nat) {
    forall k :: 0 <= k < |run| ==> run[k] == Advance(i)
  }

  lemma Prepend(s: State, e: Step, run: seq<Step>)
    requires Enabled(s, e) && CanRun(Apply(s, e), run)
    ensures CanRun(s, [e] + run) && After(s, [e] + run) == After(Apply(s, e), run)
  {
    hide Enabled, Apply;
    assert ([e] + run)[1..] == run;
  }

  lemma NoSteps(s: State)
    ensures CanRun(s, []) && After(s, []) == s
  {
  }

  /** From holding a message to send to having sent it. */
  lemma HeldIsSent(s: State, i: nat) returns (run: seq<Step>)
    requires i < |s.threads| && s.threads[i].Sub? && (s.threads[i].phase == Got || s.threads[i].phase == Send)
    requires s.threads[i].b < |s.boxes| && s.boxes[s.threads[i].b].taken && s.threads[i].f < |s.files|
    ensures OwnSteps(run, i) && |run| == (if s.threads[i].phase == Got then 2 else 1) && CanRun(s, run)
    ensures After(s, run) == s.(threads := s.threads[i := s.threads[i].(sent := Owed(s.threads[i]), phase := More)])
  {
    var t := s.threads[i];
    SentStep(s, i);
    var u := Act(s, i);
    if t.phase == Got {
      SentStep(u, i);
      NoSteps(Act(u, i));
      Prepend(u, Advance(i), []);
      run := [Advance(i)] + [];
    } else {
      NoSteps(u);
      run := [];
    }
    assert run == [] || run == [Advance(i)];
    Prepend(s, Advance(i), run);
    run := [Advance(i)] + run;
  }

  /**
   From every state in which a subscriber can get its slot, its slot is in use and its file has a
   message it did not read, at most five of its own steps send that message, after what it owed before.
   */
  lemma {:induction false} MessageSent(s: State, i: nat) returns (run: seq<Step>)
    requires HasUnread(s, i)
    ensures OwnSteps(run, i) && |run| <= StepsToSend(s.threads[i]) && CanRun(s, run)
    ensures var t := s.threads[i];
      && |After(s, run).threads| == |s.threads|
      && After(s, run) == s.(threads := s.threads[i := After(s, run).threads[i]])
      && var v := After(s, run).threads[i];
      v.Sub? && v.phase == More && v.b == t.b && v.f == t.f && v.off == t.off + 1
      && v.sent == Owed(t) + [s.files[t.f].messages[t.off]]
    decreases StepsToSend(s.threads[i])
  {
    UnreadStep(s, i);
    var u := Act(s, i);
    if u.threads[i].off == s.threads[i].off {
      run := MessageSent(u, i);
    } else {
      run := HeldIsSent(u, i);
    }
    hide HasUnread, Owed, Enabled, Act;
    Prepend(s, Advance(i), run);
    run := [Advance(i)] + run;
  }

  lemma NothingOwed(t: Thread)
    requires t.Sub? && t.phase == More
    ensures Owed(t) == t.sent
  {
  }

  /** And then, two steps for each, every message that is in the file. */
  lemma {:induction false} AllSent(s: State, i: nat) returns (run: seq<Step>)
    requires i < |s.threads| && s.threads[i].Sub? && s.threads[i].phase == More
    requires s.threads[i].b < |s.boxes| && s.boxes[s.threads[i].b].taken
    requires s.threads[i].f < |s.files| && s.threads[i].off <= |s.files[s.threads[i].f].messages|
    ensures OwnSteps(run, i) && CanRun(s, run)
    ensures |run| <= 2 * (|s.files[s.threads[i].f].messages| - s.threads[i].off)
    ensures var t := s.threads[i]; var messages := s.files[t.f].messages;
      && |After(s, run).threads| == |s.threads|
      && After(s, run) == s.(threads := s.threads[i := After(s, run).threads[i]])
      && var v := After(s, run).threads[i];
      && v.Sub? && v.phase == More && v.b == t.b && v.f == t.f
      && v.off == |messages| && v.sent == t.sent + messages[t.off..]
    decreases |s.files[s.threads[i].f].messages| - s.threads[i].off
  {
    hide CanRun, After, Enabled, Apply, Owed;
    var t := s.threads[i];
    var messages := s.files[t.f].messages;
    if t.off == |messages| {
      NoSteps(s);
      run := [];
      assert t.sent + messages[t.off..] == t.sent;
      assert s.threads[i := t] == s.threads;
    } else {
      NothingOwed(t);
      var first := MessageSent(s, i);
      var u := After(s, first);
      var rest := AllSent(u, i);
      Both(s, first, rest);
      run := first + rest;
      assert t.sent + [messages[t.off]] + messages[t.off + 1..] == t.sent + messages[t.off..];
    }
  }

  lemma {:induction false} Both(s: State, run: seq<Step>, more: seq<Step>)
    requires CanRun(s, run) && CanRun(After(s, run), more)
    ensures CanRun(s, run + more) && After(s, run + more) == After(After(s, run), more)
    decreases |run|
  {
    hide Enabled, Apply;
    if run == [] {
      assert run + more == more;
    } else {
      Both(Apply(s, run[0]), run[1..], more);
      Prepend(s, run[0], run[1..] + more);
      assert run + more == [run[0]] + (run[1..] + more);
    }
  }

  /** Who sleeps on a slot with all of its file read gets the next message that is published there. */
  lemma SleeperGetsIt(s: State, i: nat, j: nat, m: Message) returns (run: seq<Step>)
    requires InRange(s) && i < |s.threads| && s.threads[i].PubRun? && s.boxes[s.threads[i].b].taken
    requires Free(s, s.threads[i].b) && j < |s.threads| && s.threads[j].Sub? && s.threads[j].phase == Asleep
    requires s.threads[j].b == s.threads[i].b && s.threads[j].f == s.threads[i].f && s.threads[j].off == s.threads[i].off
    ensures |run| <= 8 && CanRun(s, run)
    ensures var u := After(s, run); j < |u.threads| && u.threads[j].Sub? && u.threads[j].sent == s.threads[j].sent + [m]
  {
    var first := [Receive(i, m), Advance(i), Advance(i)];
    MessagePublished(s, i, m);
    var u := After(s, first);
    WokenByIt(s, i, j, m);
    var rest := MessageSent(u, j);
    Both(s, first, rest);
    run := first + rest;
  }

  lemma WokenByIt(s: State, i: nat, j: nat, m: Message)
    requires InRange(s) && i < |s.threads| && s.threads[i].PubRun? && s.boxes[s.threads[i].b].taken
    requires Free(s, s.threads[i].b) && j < |s.threads| && s.threads[j].Sub? && s.threads[j].phase == Asleep
    requires s.threads[j].b == s.threads[i].b
    ensures var run := [Receive(i, m), Advance(i), Advance(i)];
      && CanRun(s, run)
      && var u := After(s, run);
      && |u.threads| == |s.threads| && u.threads[j] == s.threads[j].(phase := Woken)
      && u.boxes == s.boxes && Free(u, s.threads[j].b)
  {
    MessagePublished(s, i, m);
    var u := After(s, [Receive(i, m), Advance(i), Advance(i)]);
    hide After, CanRun, Apply, Enabled, NobodySleeps;
    forall k | 0 <= k < |u.threads|
      ensures !Holds(u.threads[k], s.threads[i].b)
    {
      assert k != i ==> u.threads[k] == Wake(s.threads[k], s.threads[i].b);
    }
  }

  // ---- Somebody can go on ----

  /** Wants to step: in a request, not asleep and not waiting for its client. */
  predicate Pending(t: Thread) {
    !t.Idle? && !t.PubRun? && !t.Leaked? && !(t.Sub? && t.phase == Asleep)
  }

  /** Whoever wants to step can, or its slot is locked by somebody who can or who leaked it. */
  lemma CanGoOn(s: State, i: nat) returns (j: nat)
    requires InRange(s) && i < |s.threads| && Pending(s.threads[i])
    ensures j < |s.threads| && (Enabled(s, Advance(j)) || s.threads[j].Leaked?)
    ensures j == i || (!s.threads[i].Unlinking? && Holds(s.threads[j], s.threads[i].b))
  {
    assert SlotInRange(s, s.threads[i]);
    if Enabled(s, Advance(i)) {
      j := i;
    } else {
      j :| 0 <= j < |s.threads| && Holds(s.threads[j], s.threads[i].b);
      assert SlotInRange(s, s.threads[j]);
    }
  }
}
