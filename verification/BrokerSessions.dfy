/**
 Publisher and subscriber sessions of the broker, with boxes created and removed meanwhile, by
 any number of threads, one critical section, file operation or wait at a time. A session keeps
 the slot that box_find returned and the file it opened; nothing ties the two together later.

 A file is never forgotten here and never truncated: its node lives while a handle refers to it.
 A file operation on a message is one step that moves a whole message.
 */
module BrokerSessions {
  import opened Bytes

  type Message = seq<byte>

  /** publishers is n_publishers; file is the file created together with the slot's latest box. */
  datatype Slot = Slot(taken: bool, name: CString, publishers: int, file: int)

  /**
   home is the slot taken for the file's box. The rest is history: written lists every message
   written to the file in order, on counts for each slot the messages broadcast there, shared records
   whether a publisher opened the file while another session had it open for writing, and strayed
   whether one counted on another slot than home ever opened it.
   */
  datatype BoxFile = BoxFile(
    home: nat, messages: seq<Message>,
    written: seq<Message>, on: map<nat, nat>, shared: bool, strayed: bool)

  function NewFile(home: nat): BoxFile {
    BoxFile(home, [], [], map[], false, false)
  }

  /** How many messages of a file were broadcast on a slot. */
  function On(file: BoxFile, b: nat): nat {
    if b in file.on then file.on[b] else 0
  }

  function Broadcast(file: BoxFile, b: nat, off: nat): BoxFile {
    if off <= On(file, b) then file else file.(on := file.on[b := off])
  }

  datatype Phase =
    | Top          // about to lock the slot
    | Check        // holds it, about to test the slot
    | Reading      // holds it, about to read
    | Wait         // holds it, read nothing, about to wait
    | Asleep
    | Woken        // about to lock the slot again
    | Got          // released it with a message, about to test the slot again
    | Left         // released it because the slot was free, about to test the slot again
    | Send         // about to send what the buffer holds
    | More         // about to read without the lock

  datatype Thread =
    | Idle
    | PubFound(b: nat, name: CString)
    | PubOpen(b: nat, name: CString)               // holds the slot, counted
    | PubRun(b: nat, f: nat, off: nat)
    | PubWrite(b: nat, f: nat, off: nat, message: Message)
    | PubAnnounce(b: nat, f: nat, off: nat)        // written, about to broadcast
    | PubEnd(b: nat)
    | SubFound(b: nat, name: CString)
    | SubOpen(b: nat, name: CString)               // holds the slot
    | Leaked(b: nat)                               // returned without releasing the slot
    // passes counts how often it saw its slot free and then, looking again, in use
    | Sub(b: nat, f: nat, off: nat, sent: seq<Message>, buffer: Message, phase: Phase, passes: nat)
    | SubEnd(b: nat, f: nat, sent: seq<Message>, passes: nat)
    | Naming(b: nat, name: CString)                // took the slot for a new box, yet to name it
    | Unlinking(name: CString)                     // freed the slot of a box, yet to unlink its file

  datatype State = State(boxes: seq<Slot>, names: map<CString, nat>, files: seq<BoxFile>, threads: seq<Thread>)

  predicate Holds(t: Thread, b: nat) {
    match t
    case PubOpen(c, _) => c == b
    case SubOpen(c, _) => c == b
    case Leaked(c) => c == b
    case Sub(c, _, _, _, _, phase, _) => c == b && (phase == Check || phase == Reading || phase == Wait)
    case _ => false
  }

  predicate Free(s: State, b: nat) {
    forall i :: 0 <= i < |s.threads| ==> !Holds(s.threads[i], b)
  }

  /** Counted in n_publishers of a slot. */
  predicate PublishesOn(t: Thread, b: nat) {
    (t.PubOpen? || t.PubRun? || t.PubWrite? || t.PubAnnounce? || t.PubEnd?) && t.b == b
  }

  /** Has a file open for writing. */
  predicate Writes(t: Thread, f: nat) {
    (t.PubRun? || t.PubWrite? || t.PubAnnounce?) && t.f == f
  }

  predicate OtherWrites(s: State, i: nat, f: nat) {
    exists j :: 0 <= j < |s.threads| && j != i && Writes(s.threads[j], f)
  }

  // ---- Steps ----

  datatype Step =
    | Publish(i: nat, b: nat)                   // box_find returned b
    | Subscribe(i: nat, b: nat)
    | Create(i: nat, name: CString, b: nat)     // the file is new and b is free
    | Remove(i: nat, b: nat)
    | Receive(i: nat, message: Message)         // a publisher's client sends a message
    | Stop(i: nat)                              // a client hangs up, or the box is full
    | Advance(i: nat)
    | Spurious(i: nat)

  predicate Enabled(s: State, e: Step) {
    && e.i < |s.threads|
    && var t := s.threads[e.i];
    match e
    case Publish(_, b) => t.Idle? && b < |s.boxes| && s.boxes[b].taken
    case Subscribe(_, b) => t.Idle? && b < |s.boxes| && s.boxes[b].taken
    case Create(_, name, b) => t.Idle? && name !in s.names && b < |s.boxes| && !s.boxes[b].taken
    case Remove(_, b) => t.Idle? && b < |s.boxes| && s.boxes[b].taken && Free(s, b)
    case Receive(_, _) => t.PubRun? && t.b < |s.boxes|
    case Stop(_) => t.PubRun? || t.PubWrite? || (t.Sub? && t.phase == Send)
    case Spurious(_) => t.Sub? && t.phase == Asleep
    case Advance(_) =>
      match t
      case PubFound(b, _) => b < |s.boxes| && Free(s, b)
      case PubOpen(b, name) => b < |s.boxes| && (name in s.names ==> s.names[name] < |s.files|)
      case PubWrite(_, f, off, _) => f < |s.files| && off <= |s.files[f].messages|
      case PubAnnounce(b, f, _) => f < |s.files| && Free(s, b)
      case PubEnd(b) => b < |s.boxes| && Free(s, b)
      case SubFound(b, _) => Free(s, b)
      case SubOpen(_, _) => true
      case Sub(b, f, off, _, _, phase, _) =>
        && b < |s.boxes| && f < |s.files| && phase != Asleep
        && (phase == Top || phase == Woken ==> Free(s, b))
      case SubEnd(b, _, _, _) => Free(s, b)
      case Naming(b, _) => b < |s.boxes| && Free(s, b)
      case Unlinking(_) => true
      case _ => false
  }

  function Wake(t: Thread, b: nat): Thread {
    if t.Sub? && t.phase == Asleep && t.b == b then t.(phase := Woken) else t
  }

  /** cond_broadcast on a slot. */
  function WakeAll(threads: seq<Thread>, b: nat): (r: seq<Thread>)
    ensures |r| == |threads| && forall i :: 0 <= i < |r| ==> r[i] == Wake(threads[i], b)
  {
    seq(|threads|, i requires 0 <= i < |threads| => Wake(threads[i], b))
  }

  function Goto(s: State, i: nat, t: Thread): State
    requires i < |s.threads|
  {
    s.(threads := s.threads[i := t])
  }

  function AddPublisher(s: State, b: nat, n: int): State
    requires b < |s.boxes|
  {
    s.(boxes := s.boxes[b := s.boxes[b].(publishers := s.boxes[b].publishers + n)])
  }

  /** tfs_write of one message at an offset: over what is there, or at the end. */
  function Put(messages: seq<Message>, off: nat, m: Message): seq<Message>
    requires off <= |messages|
  {
    if off < |messages| then messages[off := m] else messages + [m]
  }

  function SubStep(s: State, t: Thread): (r: Thread)
    requires t.Sub? && t.b < |s.boxes| && t.f < |s.files| && t.phase != Asleep
    ensures (r.Sub? || r.SubEnd?) && r.b == t.b && r.f == t.f
  {
    var messages := s.files[t.f].messages;
    var read := t.off < |messages|;
    match t.phase
    case Top => t.(phase := Check)
    case Woken => t.(phase := Check)
    case Check => t.(phase := if s.boxes[t.b].taken then Reading else Left)
    case Reading =>
      if read then t.(off := t.off + 1, buffer := messages[t.off], phase := Got) else t.(phase := Wait)
    case Wait => t.(phase := Asleep)
    case Got => if s.boxes[t.b].taken then t.(phase := Send) else SubEnd(t.b, t.f, t.sent, t.passes)
    case Left =>
      if s.boxes[t.b].taken then t.(phase := Send, passes := t.passes + 1) else SubEnd(t.b, t.f, t.sent, t.passes)
    case Send => t.(sent := t.sent + [t.buffer], phase := More)
    case More => if read then t.(off := t.off + 1, buffer := messages[t.off], phase := Send) else t.(phase := Top)
  }

  function Act(s: State, i: nat): State
    requires Enabled(s, Advance(i))
  {
    var t := s.threads[i];
    match t
    case PubFound(b, name) =>
      if s.boxes[b].publishers > 0 then Goto(s, i, Idle) else AddPublisher(Goto(s, i, PubOpen(b, name)), b, 1)
    case PubOpen(b, name) =>
      if name in s.names then
        var f := s.names[name];
        var file := s.files[f];
        Goto(s, i, PubRun(b, f, |file.messages|))
        .(files := s.files[f := file.(strayed := file.strayed || file.home != b,
                                      shared := file.shared || OtherWrites(s, i, f))])
      else AddPublisher(Goto(s, i, Idle), b, -1)
    case PubWrite(b, f, off, m) =>
      var file := s.files[f];
      Goto(s, i, PubAnnounce(b, f, off + 1))
      .(files := s.files[f := file.(messages := Put(file.messages, off, m), written := file.written + [m])])
    case PubAnnounce(b, f, off) =>
      s.(threads := WakeAll(s.threads, b)[i := PubRun(b, f, off)], files := s.files[f := Broadcast(s.files[f], b, off)])
    case PubEnd(b) => AddPublisher(Goto(s, i, Idle), b, -1)
    case SubFound(b, name) => Goto(s, i, SubOpen(b, name))
    case SubOpen(b, name) =>
      Goto(s, i, if name in s.names then Sub(b, s.names[name], 0, [], [], Top, 0) else Leaked(b))
    case Sub(_, _, _, _, _, _, _) => Goto(s, i, SubStep(s, t))
    case SubEnd(_, _, _, _) => Goto(s, i, Idle)
    case Naming(b, name) => Goto(s, i, Idle).(boxes := s.boxes[b := s.boxes[b].(name := name)])
    case Unlinking(name) => Goto(s, i, Idle).(names := s.names - {name})
    case _ => s
  }

  function Apply(s: State, e: Step): State
    requires Enabled(s, e)
  {
    var t := s.threads[e.i];
    match e
    case Publish(i, b) => Goto(s, i, PubFound(b, s.boxes[b].name))
    case Subscribe(i, b) => Goto(s, i, SubFound(b, s.boxes[b].name))
    case Create(i, name, b) =>
      State(s.boxes[b := s.boxes[b].(taken := true, file := |s.files|)], s.names[name := |s.files|],
            s.files + [NewFile(b)], s.threads[i := Naming(b, name)])
    case Remove(i, b) =>
      s.(boxes := s.boxes[b := s.boxes[b].(taken := false)],
         threads := WakeAll(s.threads, b)[i := Unlinking(s.boxes[b].name)])
    case Receive(i, m) =>
      Goto(s, i, if s.boxes[t.b].taken then PubWrite(t.b, t.f, t.off, m) else PubEnd(t.b))
    case Stop(i) => Goto(s, i, if t.Sub? then SubEnd(t.b, t.f, t.sent, t.passes) else PubEnd(t.b))
    case Advance(i) => Act(s, i)
    case Spurious(i) => Goto(s, i, t.(phase := Woken))
  }

  // ---- Every run: admission and sleep ----

  /** The sessions counted on a slot. */
  ghost function Publishers(s: State, b: nat): set<int> {
    set i | 0 <= i < |s.threads| && PublishesOn(s.threads[i], b)
  }

  /** n_publishers is the number of publisher sessions live on the slot, and at most 1. */
  ghost predicate SinglePublisher(s: State) {
    forall b :: 0 <= b < |s.boxes| ==> s.boxes[b].publishers == |Publishers(s, b)| <= 1
  }

  /** Slots, files and offsets that threads hold are in range, so the range conditions in Enabled hold nobody back. */
  ghost predicate InRange(s: State) {
    && (forall i :: 0 <= i < |s.threads| ==> SlotInRange(s, s.threads[i]))
    && forall name :: name in s.names ==> s.names[name] < |s.files|
  }

  ghost predicate SlotInRange(s: State, t: Thread) {
    && (!t.Idle? && !t.Unlinking? ==> t.b < |s.boxes|)
    && (t.Sub? || t.SubEnd? ==> t.f < |s.files|)
    && (t.PubRun? || t.PubWrite? || t.PubAnnounce? ==> t.f < |s.files| && t.off <= |s.files[t.f].messages|)
  }

  /** A subscriber that decided to read or sleeps does so on a slot in use. */
  ghost predicate SleepsOnTaken(s: State) {
    forall i :: 0 <= i < |s.threads| ==> SleepOk(s, s.threads[i])
  }

  ghost predicate SleepOk(s: State, t: Thread) {
    t.Sub? && t.b < |s.boxes| && (t.phase == Reading || t.phase == Wait || t.phase == Asleep) ==> s.boxes[t.b].taken
  }

  /** No slot is locked by two threads. */
  ghost predicate Exclusive(s: State) {
    forall i, j, b: nat :: 0 <= i < |s.threads| && 0 <= j < |s.threads| && i != j && Holds(s.threads[i], b)
      ==> !Holds(s.threads[j], b)
  }

  ghost predicate Always(s: State) {
    InRange(s) && SinglePublisher(s) && SleepsOnTaken(s) && Exclusive(s)
  }

  ghost predicate Initial(s: State) {
    && (forall i :: 0 <= i < |s.threads| ==> s.threads[i].Idle?)
    && (forall b :: 0 <= b < |s.boxes| ==> s.boxes[b] == Slot(false, [], 0, -1))
    && s.names == map[] && s.files == []
  }

  lemma SameSlots(s: State, e: Step)
    requires Enabled(s, e)
    ensures |Apply(s, e).boxes| == |s.boxes| && |Apply(s, e).threads| == |s.threads|
  {
  }

  /** Files are never lost and never shrink. */
  lemma FilesGrow(s: State, e: Step, f: nat)
    requires Enabled(s, e) && f < |s.files|
    ensures f < |Apply(s, e).files| && |s.files[f].messages| <= |Apply(s, e).files[f].messages|
  {
    hide Free, SubStep;
  }

  lemma OtherStaysInRange(s: State, e: Step, j: nat)
    requires InRange(s) && Enabled(s, e) && j < |s.threads| && j != e.i
    ensures |Apply(s, e).threads| == |s.threads| && SlotInRange(Apply(s, e), Apply(s, e).threads[j])
  {
    var t, u := s.threads[j], Apply(s, e);
    assert SlotInRange(s, t);
    SameSlots(s, e);
    if t.PubRun? || t.PubWrite? || t.PubAnnounce? || t.Sub? || t.SubEnd? {
      FilesGrow(s, e, t.f);
    }
    OnlyWoken(s, e, j);
    hide Apply;
  }

  lemma OnlyWoken(s: State, e: Step, j: nat)
    requires Enabled(s, e) && j < |s.threads| && j != e.i
    ensures |Apply(s, e).threads| == |s.threads|
    ensures var t, u := s.threads[j], Apply(s, e).threads[j]; u == t || (t.Sub? && u == t.(phase := Woken))
  {
    hide Free, SubStep, Put;
  }

  lemma ActInRange(s: State, i: nat)
    requires InRange(s) && Enabled(s, Advance(i))
    ensures |Act(s, i).threads| == |s.threads| && SlotInRange(Act(s, i), Act(s, i).threads[i])
  {
    hide Free, SubStep;
    assert SlotInRange(s, s.threads[i]);
  }

  lemma MoverInRange(s: State, e: Step)
    requires InRange(s) && Enabled(s, e)
    ensures |Apply(s, e).threads| == |s.threads| && SlotInRange(Apply(s, e), Apply(s, e).threads[e.i])
  {
    hide Free, Act;
    assert SlotInRange(s, s.threads[e.i]);
    if e.Advance? {
      ActInRange(s, e.i);
    }
  }

  lemma StepInRange(s: State, e: Step)
    requires InRange(s) && Enabled(s, e)
    ensures InRange(Apply(s, e))
  {
    hide Free, SubStep, SlotInRange;
    var u := Apply(s, e);
    SameSlots(s, e);
    MoverInRange(s, e);
    forall j | 0 <= j < |u.threads|
      ensures SlotInRange(u, u.threads[j])
    {
      if j != e.i {
        OtherStaysInRange(s, e, j);
      }
    }
  }

  /** Who counts on a slot after a thread changed; waking sleepers changes nothing here. */
  lemma PublishersUpdate(s: State, u: State, i: nat, b: nat)
    requires i < |s.threads| == |u.threads|
    requires forall j :: 0 <= j < |s.threads| && j != i ==> PublishesOn(u.threads[j], b) == PublishesOn(s.threads[j], b)
    ensures Publishers(u, b) ==
      if PublishesOn(u.threads[i], b) then Publishers(s, b) + {i as int} else Publishers(s, b) - {i as int}
  {
  }

  lemma OthersPublish(s: State, e: Step, j: nat, b: nat)
    requires Enabled(s, e) && j < |s.threads| && j != e.i
    ensures |Apply(s, e).threads| == |s.threads|
    ensures PublishesOn(Apply(s, e).threads[j], b) == PublishesOn(s.threads[j], b)
  {
  }

  ghost predicate CounterFollows(s: State, u: State, i: nat, b: nat)
    requires i < |s.threads| && b < |s.boxes|
  {
    && |u.threads| == |s.threads| && |u.boxes| == |s.boxes|
    && var was, now := PublishesOn(s.threads[i], b), PublishesOn(u.threads[i], b);
    && (was == now ==> u.boxes[b].publishers == s.boxes[b].publishers)
    && (was && !now ==> u.boxes[b].publishers == s.boxes[b].publishers - 1)
    && (!was && now ==> s.boxes[b].publishers <= 0 && u.boxes[b].publishers == s.boxes[b].publishers + 1)
  }

  /** The counter moves exactly when the thread starts or stops counting, and it starts only from 0. */
  lemma StepCounter(s: State, e: Step, b: nat)
    requires Enabled(s, e) && b < |s.boxes|
    ensures CounterFollows(s, Apply(s, e), e.i, b)
  {
  }

  lemma StepSinglePublisher(s: State, e: Step)
    requires SinglePublisher(s) && Enabled(s, e)
    ensures SinglePublisher(Apply(s, e))
  {
    var u := Apply(s, e);
    hide Apply, Enabled, PublishesOn;
    forall b | 0 <= b < |u.boxes|
      ensures u.boxes[b].publishers == |Publishers(u, b)| <= 1
    {
      StepSlot(s, e, b);
    }
  }

  lemma StepSlot(s: State, e: Step, b: nat)
    requires SinglePublisher(s) && Enabled(s, e) && b < |Apply(s, e).boxes|
    ensures Apply(s, e).boxes[b].publishers == |Publishers(Apply(s, e), b)| <= 1
  {
    var u := Apply(s, e);
    SameSlots(s, e);
    StepCounter(s, e, b);
    hide Apply, Enabled, PublishesOn;
    forall j | 0 <= j < |s.threads| && j != e.i
      ensures PublishesOn(u.threads[j], b) == PublishesOn(s.threads[j], b)
    {
      OthersPublish(s, e, j, b);
    }
    PublishersUpdate(s, u, e.i, b);
    assert e.i in Publishers(s, b) <==> PublishesOn(s.threads[e.i], b);
    hide Publishers;
    if PublishesOn(u.threads[e.i], b) {
      assert e.i in Publishers(s, b) ==> Publishers(s, b) + {e.i as int} == Publishers(s, b);
    } else {
      assert e.i !in Publishers(s, b) ==> Publishers(s, b) - {e.i as int} == Publishers(s, b);
    }
  }

  lemma StepSleeps(s: State, e: Step)
    requires InRange(s) && SleepsOnTaken(s) && Enabled(s, e)
    ensures SleepsOnTaken(Apply(s, e))
  {
  }

  /** A slot is locked only by a thread that found it free. */
  lemma NewHolder(s: State, e: Step, b: nat)
    requires Enabled(s, e)
    ensures |Apply(s, e).threads| == |s.threads|
    ensures Holds(Apply(s, e).threads[e.i], b) && !Holds(s.threads[e.i], b) ==> Free(s, b)
  {
    hide Put;
  }

  lemma StepExclusive(s: State, e: Step)
    requires Exclusive(s) && Enabled(s, e)
    ensures Exclusive(Apply(s, e))
  {
    var u := Apply(s, e);
    SameSlots(s, e);
    hide Apply, Enabled;
    forall j: nat, b: nat | j < |s.threads| && j != e.i && Holds(u.threads[j], b)
      ensures Holds(s.threads[j], b)
    {
      OnlyWoken(s, e, j);
    }
    forall b: nat
      ensures Holds(u.threads[e.i], b) && !Holds(s.threads[e.i], b) ==> Free(s, b)
    {
      NewHolder(s, e, b);
    }
  }

  lemma StepAlways(s: State, e: Step)
    requires Always(s) && Enabled(s, e)
    ensures Always(Apply(s, e))
  {
    StepInRange(s, e);
    StepSinglePublisher(s, e);
    StepSleeps(s, e);
    StepExclusive(s, e);
  }

  // ---- Runs ----

  ghost predicate CanRun(s: State, run: seq<Step>)
    decreases |run|
  {
    run == [] || (Enabled(s, run[0]) && CanRun(Apply(s, run[0]), run[1..]))
  }

  ghost function After(s: State, run: seq<Step>): State
    requires CanRun(s, run)
    decreases |run|
  {
    if run == [] then s else After(Apply(s, run[0]), run[1..])
  }

  lemma InitialAlways(s: State)
    requires Initial(s)
    ensures Always(s)
  {
    assert forall b :: Publishers(s, b) == {};
  }

  lemma {:induction false} RunAlways(s: State, run: seq<Step>)
    requires Always(s) && CanRun(s, run)
    ensures Always(After(s, run))
    decreases |run|
  {
    hide Always, Apply, Enabled;
    if run != [] {
      StepAlways(s, run[0]);
      RunAlways(Apply(s, run[0]), run[1..]);
    }
  }

  lemma AtMostOne(p: set<int>, i: int, j: int)
    requires i in p && j in p && |p| <= 1
    ensures i == j
  {
    assert p == {i} + (p - {i});
  }

  /** Two sessions counted on one slot are the same. */
  lemma OneOnSlot(s: State, i: nat, j: nat, b: nat)
    requires Always(s) && i < |s.threads| && j < |s.threads|
    requires PublishesOn(s.threads[i], b) && PublishesOn(s.threads[j], b)
    ensures i == j
  {
    hide SleepsOnTaken, Exclusive;
    assert SlotInRange(s, s.threads[i]);
    assert i in Publishers(s, b) && j in Publishers(s, b) && |Publishers(s, b)| <= 1;
    hide *;
    AtMostOne(Publishers(s, b), i, j);
  }

  /**
   In every run, with slots freed and taken again: n_publishers counts exactly the publisher
   sessions live on the slot and never exceeds 1, whoever sleeps does so on a slot in use, and
   two sessions that have one file open for writing are counted on different slots.
   */
  lemma EveryRunAdmitsOne(s: State, run: seq<Step>)
    requires Initial(s) && CanRun(s, run)
    ensures var u := After(s, run);
      && SinglePublisher(u) && SleepsOnTaken(u)
      && WritersApart(u)
  {
    InitialAlways(s);
    RunAlways(s, run);
    var u := After(s, run);
    AlwaysApart(u);
  }

  /** Sessions that have one file open for writing are counted on different slots. */
  ghost predicate WritersApart(s: State) {
    forall i, j, f: nat :: 0 <= i < j < |s.threads| && Writes(s.threads[i], f) && Writes(s.threads[j], f)
      ==> s.threads[i].b != s.threads[j].b
  }

  lemma AlwaysApart(s: State)
    requires Always(s)
    ensures WritersApart(s)
  {
    hide Always;
    forall i, j, f: nat | 0 <= i < j < |s.threads| && Writes(s.threads[i], f) && Writes(s.threads[j], f)
      ensures s.threads[i].b != s.threads[j].b
    {
      if s.threads[i].b == s.threads[j].b {
        OneOnSlot(s, i, j, s.threads[i].b);
      }
    }
  }

  // ---- The path that keeps its lock ----

  /** A thread leaks its slot exactly by opening for a subscriber a name that is gone. */
  lemma LeaksIff(s: State, e: Step, i: nat)
    requires Enabled(s, e) && i < |s.threads|
    ensures |Apply(s, e).threads| == |s.threads|
    ensures Apply(s, e).threads[i].Leaked? <==>
      s.threads[i].Leaked? || (e == Advance(i) && s.threads[i].SubOpen? && s.threads[i].name !in s.names)
  {
    if i != e.i {
      OnlyWoken(s, e, i);
      hide Apply;
    } else {
      hide Free, Put, SubStep;
    }
  }

  /** The step takes the mutex of slot b. */
  predicate Locks(s: State, e: Step, b: nat)
    requires e.i < |s.threads|
  {
    var t := s.threads[e.i];
    || (e.Remove? && e.b == b)
    || (e.Advance? && (t.PubFound? || t.PubAnnounce? || t.PubEnd? || t.SubFound? || t.SubEnd? || t.Naming?) && t.b == b)
    || (e.Advance? && t.Sub? && (t.phase == Top || t.phase == Woken) && t.b == b)
  }

  /** Once a thread leaked a slot, in every run nobody ever locks it again. */
  lemma {:induction false} LeakedForGood(s: State, run: seq<Step>, i: nat)
    requires i < |s.threads| && s.threads[i].Leaked? && CanRun(s, run)
    ensures var u := After(s, run); var b := s.threads[i].b;
      && |u.threads| == |s.threads| && u.threads[i] == Leaked(b) && !Free(u, b)
      && forall e: Step :: e.i < |u.threads| && Locks(u, e, b) ==> !Enabled(u, e)
    decreases |run|
  {
    if run == [] {
      assert Holds(s.threads[i], s.threads[i].b);
    } else {
      StaysLeaked(s, run[0], i);
      hide Apply, Enabled, Locks, Free;
      LeakedForGood(Apply(s, run[0]), run[1..], i);
    }
  }

  lemma StaysLeaked(s: State, e: Step, i: nat)
    requires Enabled(s, e) && i < |s.threads| && s.threads[i].Leaked?
    ensures |Apply(s, e).threads| == |s.threads| && Apply(s, e).threads[i] == s.threads[i]
  {
    hide Free, Put, SubStep;
  }

  /** How many of its own steps a holder needs at most to release its slot. */
  function StepsLeft(t: Thread): nat {
    if t.Sub? && t.phase == Check then 3 else if t.Sub? && t.phase == Reading then 2 else 1
  }

  lemma HolderSteps(s: State, i: nat, b: nat)
    requires InRange(s) && i < |s.threads| && Holds(s.threads[i], b) && !s.threads[i].Leaked?
    requires s.threads[i].SubOpen? ==> s.threads[i].name in s.names
    ensures Enabled(s, Advance(i)) && |Act(s, i).threads| == |s.threads|
    ensures var t, u := s.threads[i], Act(s, i).threads[i];
      !Holds(u, b) || (u.Sub? && StepsLeft(u) < StepsLeft(t))
    ensures forall j :: 0 <= j < |s.threads| && j != i ==> Act(s, i).threads[j] == s.threads[j]
  {
    assert SlotInRange(s, s.threads[i]);
  }

  /** A holder that has not leaked and is not about to frees its slot by at most three steps of its own. */
  lemma {:induction false} HolderReleases(s: State, i: nat, b: nat) returns (run: seq<Step>)
    requires Always(s) && i < |s.threads| && Holds(s.threads[i], b)
    requires !s.threads[i].Leaked? && (s.threads[i].SubOpen? ==> s.threads[i].name in s.names)
    ensures |run| <= StepsLeft(s.threads[i]) && (forall k :: 0 <= k < |run| ==> run[k] == Advance(i))
    ensures CanRun(s, run) && Free(After(s, run), b)
    decreases StepsLeft(s.threads[i])
  {
    hide SinglePublisher, SleepsOnTaken, SlotInRange, Act;
    HolderSteps(s, i, b);
    StepAlways(s, Advance(i));
    var u := Act(s, i);
    if Holds(u.threads[i], b) {
      run := HolderReleases(u, i, b);
      run := [Advance(i)] + run;
    } else {
      run := [Advance(i)];
      assert CanRun(u, []) && run[1..] == [];
    }
  }
}
