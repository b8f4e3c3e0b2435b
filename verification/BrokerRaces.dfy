/**
 Reachable states in which the broker fails its clients, each with the disturbance that leads
 there. Four threads are enough: a manager, two publishers and a subscriber.
 */
module BrokerRaces {
  import opened Bytes
  import opened BrokerSessions

  lemma {:induction false} Extend(s: State, run: seq<Step>, e: Step)
    requires CanRun(s, run) && Enabled(After(s, run), e)
    ensures CanRun(s, run + [e]) && After(s, run + [e]) == Apply(After(s, run), e)
    decreases |run|
  {
    hide Enabled, Apply;
    if run == [] {
      assert run + [e] == [e] && [e][1..] == [];
    } else {
      Extend(Apply(s, run[0]), run[1..], e);
      assert (run + [e])[1..] == run[1..] + [e];
    }
  }

  /** Reached from an initial state. */
  ghost predicate Reachable(s: State) {
    exists start, run :: Initial(start) && CanRun(start, run) && After(start, run) == s
  }

  lemma Reach(s: State, e: Step)
    requires Reachable(s) && Enabled(s, e)
    ensures Reachable(Apply(s, e))
  {
    hide Enabled, Apply;
    var start, run :| Initial(start) && CanRun(start, run) && After(start, run) == s;
    Extend(start, run, e);
  }

  lemma ReachStart(s: State)
    requires Initial(s)
    ensures Reachable(s)
  {
    assert CanRun(s, []) && After(s, []) == s;
  }

  const BOX_A: CString := [97]
  const BOX_B: CString := [98]

  /** A file with one message, broadcast on its own slot. */
  function FirstMessage(home: nat, m: Message): BoxFile {
    NewFile(home).(messages := [m], written := [m], on := map[home := 1])
  }

  lemma Do(s: State, e: Step) returns (u: State)
    requires Reachable(s) && Enabled(s, e)
    ensures u == Apply(s, e) && Reachable(u)
  {
    Reach(s, e);
    u := Apply(s, e);
  }

  /** The first box of a broker with no boxes. */
  lemma FirstBox(rest: seq<Slot>, others: seq<Thread>) returns (s: State)
    requires forall b :: 0 <= b < |rest| ==> rest[b] == Slot(false, [], 0, -1)
    requires forall i :: 0 <= i < |others| ==> others[i].Idle?
    ensures Reachable(s)
    ensures s == State([Slot(true, BOX_A, 0, 0)] + rest, map[BOX_A := 0], [NewFile(0)], [Idle, Idle, Idle] + others)
  {
    hide Reachable;
    s := State([Slot(false, [], 0, -1)] + rest, map[], [], [Idle, Idle, Idle] + others);
    ReachStart(s);
    s := Do(s, Create(0, BOX_A, 0));
    assert s.threads == [Naming(0, BOX_A), Idle, Idle] + others;
    s := Do(s, Advance(0));
  }

  /** It has a publisher. */
  lemma Admitted() returns (s: State)
    ensures Reachable(s)
    ensures s == State([Slot(true, BOX_A, 1, 0)], map[BOX_A := 0], [NewFile(0)], [Idle, PubRun(0, 0, 0), Idle])
  {
    hide Reachable;
    s := FirstBox([], []);
    s := Do(s, Publish(1, 0));
    assert s.threads == [Idle, PubFound(0, BOX_A), Idle];
    s := Do(s, Advance(1));
    assert s.threads == [Idle, PubOpen(0, BOX_A), Idle];
    s := Do(s, Advance(1));
  }

  /** One message is in it. */
  lemma Published(m: Message) returns (s: State)
    ensures Reachable(s)
    ensures s == State([Slot(true, BOX_A, 1, 0)], map[BOX_A := 0], [FirstMessage(0, m)], [Idle, PubRun(0, 0, 1), Idle])
  {
    hide Reachable;
    s := Admitted();
    s := Do(s, Receive(1, m));
    assert s.threads == [Idle, PubWrite(0, 0, 0, m), Idle];
    assert Put([], 0, m) == [m];
    s := Do(s, Advance(1));
    assert s.files == [NewFile(0).(messages := [m], written := [m])] && s.threads == [Idle, PubAnnounce(0, 0, 1), Idle];
    s := Do(s, Advance(1));
  }

  /** A subscriber opened it. */
  lemma Subscribed(m: Message) returns (s: State)
    ensures Reachable(s)
    ensures s == State([Slot(true, BOX_A, 1, 0)], map[BOX_A := 0], [FirstMessage(0, m)],
                       [Idle, PubRun(0, 0, 1), Sub(0, 0, 0, [], [], Reading, 0)])
  {
    hide Reachable;
    s := Published(m);
    s := Do(s, Subscribe(2, 0));
    assert s.threads == [Idle, PubRun(0, 0, 1), SubFound(0, BOX_A)];
    s := Do(s, Advance(2));
    assert s.threads == [Idle, PubRun(0, 0, 1), SubOpen(0, BOX_A)];
    s := Do(s, Advance(2));
    assert s.threads == [Idle, PubRun(0, 0, 1), Sub(0, 0, 0, [], [], Top, 0)];
    s := Do(s, Advance(2));
    assert s.threads == [Idle, PubRun(0, 0, 1), Sub(0, 0, 0, [], [], Check, 0)];
    s := Do(s, Advance(2));
  }

  /** It read the message and is about to send it. */
  lemma ReadOnce(m: Message) returns (s: State)
    ensures Reachable(s)
    ensures s == State([Slot(true, BOX_A, 1, 0)], map[BOX_A := 0], [FirstMessage(0, m)],
                       [Idle, PubRun(0, 0, 1), Sub(0, 0, 1, [], m, Send, 0)])
  {
    hide Reachable;
    s := Subscribed(m);
    s := Do(s, Advance(2));
    assert s.threads == [Idle, PubRun(0, 0, 1), Sub(0, 0, 1, [], m, Got, 0)];
    s := Do(s, Advance(2));
  }

  /** It sent the message and is back at the top of its loop. */
  lemma SentOnce(m: Message) returns (s: State)
    ensures Reachable(s)
    ensures s == State([Slot(true, BOX_A, 1, 0)], map[BOX_A := 0], [FirstMessage(0, m)],
                       [Idle, PubRun(0, 0, 1), Sub(0, 0, 1, [m], m, Top, 0)])
  {
    hide Reachable;
    s := ReadOnce(m);
    assert [] + [m] == [m];
    s := Do(s, Advance(2));
    assert s.threads == [Idle, PubRun(0, 0, 1), Sub(0, 0, 1, [m], m, More, 0)];
    s := Do(s, Advance(2));
  }

  /** The box is removed. */
  lemma Removed(m: Message) returns (s: State)
    ensures Reachable(s)
    ensures s == State([Slot(false, BOX_A, 1, 0)], map[], [FirstMessage(0, m)],
                       [Idle, PubRun(0, 0, 1), Sub(0, 0, 1, [m], m, Top, 0)])
  {
    hide Reachable;
    s := SentOnce(m);
    s := Do(s, Remove(0, 0));
    assert s.threads == [Unlinking(BOX_A), PubRun(0, 0, 1), Sub(0, 0, 1, [m], m, Top, 0)];
    assert map[BOX_A := 0] - {BOX_A} == map[];
    s := Do(s, Advance(0));
  }

  /** The subscriber saw its slot free. */
  lemma SlotSeenFree(m: Message) returns (s: State)
    ensures Reachable(s)
    ensures s == State([Slot(false, BOX_A, 1, 0)], map[], [FirstMessage(0, m)],
                       [Idle, PubRun(0, 0, 1), Sub(0, 0, 1, [m], m, Left, 0)])
  {
    hide Reachable;
    s := Removed(m);
    s := Do(s, Advance(2));
    assert s.threads == [Idle, PubRun(0, 0, 1), Sub(0, 0, 1, [m], m, Check, 0)];
    s := Do(s, Advance(2));
  }

  /**
   A slot freed and taken again while a subscriber of the old box is between its two tests of the
   slot: the old message, still in its buffer, is sent a second time.
   */
  lemma SentTwice(m: Message) returns (s: State)
    ensures Reachable(s)
    ensures |s.threads| == 3 && s.threads[2] == Sub(0, 0, 1, [m, m], m, More, 1)
    ensures |s.files| == 2 && s.files[0] == FirstMessage(0, m)
  {
    hide Reachable;
    s := SlotSeenFree(m);
    s := Do(s, Create(0, BOX_B, 0));
    assert s.threads == [Naming(0, BOX_B), PubRun(0, 0, 1), Sub(0, 0, 1, [m], m, Left, 0)];
    assert |s.boxes| == 1 && s.boxes[0].taken && |s.files| == 2 && s.files[0] == FirstMessage(0, m);
    s := Do(s, Advance(2));
    assert s.threads == [Naming(0, BOX_B), PubRun(0, 0, 1), Sub(0, 0, 1, [m], m, Send, 1)];
    assert [m] + [m] == [m, m];
    s := Do(s, Advance(2));
  }

  // ---- A box that moved between box_find and tfs_open ----

  /** A publisher and a subscriber found box A, which was removed before they were admitted. */
  lemma FoundAndGone() returns (s: State)
    ensures Reachable(s)
    ensures s == State([Slot(false, BOX_A, 0, 0), Slot(false, [], 0, -1)], map[], [NewFile(0)],
                       [Idle, PubFound(0, BOX_A), SubFound(0, BOX_A), Idle])
  {
    hide Reachable;
    var none := Slot(false, [], 0, -1);
    s := FirstBox([none], [Idle]);
    s := Do(s, Publish(1, 0));
    assert s.threads == [Idle, PubFound(0, BOX_A), Idle, Idle];
    s := Do(s, Subscribe(2, 0));
    assert s.threads == [Idle, PubFound(0, BOX_A), SubFound(0, BOX_A), Idle];
    s := Do(s, Remove(0, 0));
    assert s.boxes == [Slot(false, BOX_A, 0, 0), none];
    assert s.threads == [Unlinking(BOX_A), PubFound(0, BOX_A), SubFound(0, BOX_A), Idle];
    assert map[BOX_A := 0] - {BOX_A} == map[];
    s := Do(s, Advance(0));
  }

  /** The subscriber finds the name gone and returns with its slot locked. */
  lemma LeakReached() returns (s: State)
    ensures Reachable(s)
    ensures |s.threads| == 4 && s.threads[2] == Leaked(0)
  {
    hide Reachable;
    s := FoundAndGone();
    s := Do(s, Advance(2));
    assert s.threads == [Idle, PubFound(0, BOX_A), SubOpen(0, BOX_A), Idle];
    s := Do(s, Advance(2));
  }

  /** Their slot now holds box B, and A was made again in the other slot. */
  lemma FoundTooEarly() returns (s: State)
    ensures Reachable(s)
    ensures s == State([Slot(true, BOX_B, 0, 1), Slot(true, BOX_A, 0, 2)], map[BOX_A := 2, BOX_B := 1],
                       [NewFile(0), NewFile(0), NewFile(1)],
                       [Idle, PubFound(0, BOX_A), SubFound(0, BOX_A), Idle])
  {
    hide Reachable;
    s := FoundAndGone();
    s := Do(s, Create(0, BOX_B, 0));
    s := Do(s, Advance(0));
    assert s.boxes == [Slot(true, BOX_B, 0, 1), Slot(false, [], 0, -1)];
    assert s.threads == [Idle, PubFound(0, BOX_A), SubFound(0, BOX_A), Idle];
    assert s.files == [NewFile(0), NewFile(0)];
    s := Do(s, Create(0, BOX_A, 1));
    s := Do(s, Advance(0));
  }

  /** Both that publisher and one that finds A now are admitted. */
  lemma BothAdmitted() returns (s: State)
    ensures Reachable(s)
    ensures |s.boxes| == 2 && s.boxes[0].taken && s.boxes[1].taken
    ensures |s.files| == 3 && s.files[2].messages == [] && s.files[2].written == []
    ensures s.threads == [Idle, PubRun(0, 2, 0), SubFound(0, BOX_A), PubRun(1, 2, 0)]
  {
    hide Reachable;
    s := FoundTooEarly();
    s := Do(s, Advance(1));
    assert s.threads == [Idle, PubOpen(0, BOX_A), SubFound(0, BOX_A), Idle];
    s := Do(s, Advance(1));
    assert s.threads == [Idle, PubRun(0, 2, 0), SubFound(0, BOX_A), Idle];
    s := Do(s, Publish(3, 1));
    assert s.threads == [Idle, PubRun(0, 2, 0), SubFound(0, BOX_A), PubFound(1, BOX_A)];
    s := Do(s, Advance(3));
    assert s.threads == [Idle, PubRun(0, 2, 0), SubFound(0, BOX_A), PubOpen(1, BOX_A)];
    s := Do(s, Advance(3));
  }

  /**
   A publisher that found box A before it moved to another slot is counted on the old slot, so a
   second one is admitted and overwrites its message.
   */
  lemma TwoWriters(m: Message, n: Message) returns (s: State)
    ensures Reachable(s)
    ensures s.threads == [Idle, PubAnnounce(0, 2, 1), SubFound(0, BOX_A), PubAnnounce(1, 2, 1)]
    ensures |s.files| == 3 && s.files[2].messages == [n] && s.files[2].written == [m, n]
  {
    hide Reachable;
    s := BothAdmitted();
    s := Do(s, Receive(1, m));
    s := Do(s, Advance(1));
    assert s.threads == [Idle, PubAnnounce(0, 2, 1), SubFound(0, BOX_A), PubRun(1, 2, 0)];
    assert |s.files| == 3 && s.files[2].messages == [m] && s.files[2].written == [m];
    assert [m] + [n] == [m, n];
    s := Do(s, Receive(3, n));
    s := Do(s, Advance(3));
  }

  /** The subscriber opens A's new file and finds it empty. */
  lemma WaitsElsewhere() returns (s: State)
    ensures Reachable(s)
    ensures s == FoundState([Idle, PubFound(0, BOX_A), Sub(0, 2, 0, [], [], Wait, 0), Idle])
  {
    hide Reachable;
    s := FoundTooEarly();
    s := Do(s, Advance(2));
    assert s.threads == [Idle, PubFound(0, BOX_A), SubOpen(0, BOX_A), Idle];
    s := Do(s, Advance(2));
    assert s.threads == [Idle, PubFound(0, BOX_A), Sub(0, 2, 0, [], [], Top, 0), Idle];
    s := Do(s, Advance(2));
    assert s.threads == [Idle, PubFound(0, BOX_A), Sub(0, 2, 0, [], [], Check, 0), Idle];
    s := Do(s, Advance(2));
    assert s.threads == [Idle, PubFound(0, BOX_A), Sub(0, 2, 0, [], [], Reading, 0), Idle];
    s := Do(s, Advance(2));
  }

  ghost function FoundState(threads: seq<Thread>): State {
    State([Slot(true, BOX_B, 0, 1), Slot(true, BOX_A, 0, 2)], map[BOX_A := 2, BOX_B := 1],
          [NewFile(0), NewFile(0), NewFile(1)], threads)
  }

  /** It sleeps on the slot of B, while a publisher of A is admitted. */
  lemma SleepsElsewhere() returns (s: State)
    ensures Reachable(s)
    ensures |s.boxes| == 2 && s.boxes[1].taken && |s.files| == 3 && s.files[2] == NewFile(1)
    ensures s.threads == [Idle, PubFound(0, BOX_A), Sub(0, 2, 0, [], [], Asleep, 0), PubRun(1, 2, 0)]
  {
    hide Reachable;
    s := WaitsElsewhere();
    s := Do(s, Advance(2));
    assert s.threads == [Idle, PubFound(0, BOX_A), Sub(0, 2, 0, [], [], Asleep, 0), Idle];
    s := Do(s, Publish(3, 1));
    assert s.threads == [Idle, PubFound(0, BOX_A), Sub(0, 2, 0, [], [], Asleep, 0), PubFound(1, BOX_A)];
    s := Do(s, Advance(3));
    assert s.threads == [Idle, PubFound(0, BOX_A), Sub(0, 2, 0, [], [], Asleep, 0), PubOpen(1, BOX_A)];
    s := Do(s, Advance(3));
  }

  /**
   A subscriber that found box A before it moved waits on the old slot: a message is written and its
   broadcast complete, and the subscriber sleeps on without it.
   */
  lemma SleepsThrough(m: Message) returns (s: State)
    ensures Reachable(s)
    ensures |s.files| == 3 && s.files[2] == FirstMessage(1, m)
    ensures s.threads == [Idle, PubFound(0, BOX_A), Sub(0, 2, 0, [], [], Asleep, 0), PubRun(1, 2, 1)]
  {
    hide Reachable;
    s := SleepsElsewhere();
    s := Do(s, Receive(3, m));
    assert s.threads == [Idle, PubFound(0, BOX_A), Sub(0, 2, 0, [], [], Asleep, 0), PubWrite(1, 2, 0, m)];
    assert Put([], 0, m) == [m];
    s := Do(s, Advance(3));
    assert s.threads == [Idle, PubFound(0, BOX_A), Sub(0, 2, 0, [], [], Asleep, 0), PubAnnounce(1, 2, 1)];
    s := Do(s, Advance(3));
  }
}
