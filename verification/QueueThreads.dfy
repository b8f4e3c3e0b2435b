/**
 Any number of threads inside pcq_enqueue and pcq_dequeue, one lock or condition-variable
 action at a time. A lock is held by the threads whose position says so; an acquisition is
 enabled only when nobody holds it. cond_wait releases its mutex and sleeps in one step, and
 a sleeper may also wake for no reason (pthread_cond_wait in POSIX.1-2008).
 */
module QueueThreads {
  import opened Queue
  import opened Counting

  /** Enqueuers push, dequeuers pop; each side has its own condition variable and lock. */
  datatype Side = Push | Pop

  function Other(d: Side): Side {
    if d == Push then Pop else Push
  }

  datatype Phase =
    | Start                   // before locking the side's condvar lock
    | Locked(woken: bool)     // holds it, about to lock the size
    | Check(woken: bool)      // holds both, about to test the loop condition
    | Wait                    // released the size lock, about to wait
    | Asleep
    | Woken                   // signalled, about to take the condvar lock again
    | Ready                   // passed the test, holds both locks
    | Moved                   // the element is in or out of the buffer, size not updated
    | Counted                 // size updated and its lock released
    | Signal                  // holds nothing, about to lock the other side's condvar lock
    | Signalling              // holds it, about to signal
    | Done                    // signalled, about to release it

  datatype Thread = Idle | Run(side: Side, phase: Phase, elem: int)

  /** pushed and popped record every element that went into and came out of the buffer. */
  datatype State = State(threads: seq<Thread>, ring: Ring, pushed: seq<int>, popped: seq<int>)

  datatype Lock = Cond(side: Side) | Size

  predicate Holds(t: Thread, l: Lock) {
    t.Run? && match t.phase
    case Locked(_) => l == Cond(t.side)
    case Check(_) => l == Cond(t.side) || l == Size
    case Wait => l == Cond(t.side)
    case Ready => l == Cond(t.side) || l == Size
    case Moved => l == Cond(t.side) || l == Size
    case Counted => l == Cond(t.side)
    case Signalling => l == Cond(Other(t.side))
    case Done => l == Cond(Other(t.side))
    case _ => false
  }

  predicate Free(s: State, l: Lock) {
    forall i :: 0 <= i < |s.threads| ==> !Holds(s.threads[i], l)
  }

  predicate IsAsleep(t: Thread, d: Side) {
    t.Run? && t.side == d && t.phase == Asleep
  }

  /** How many more operations of a side the queue has room for. */
  function Room(s: State, d: Side): int {
    if d == Push then |s.ring.buffer| - s.ring.size else s.ring.size
  }

  // ---- Steps ----

  datatype Step =
    | Begin(i: nat, side: Side, elem: int)
    | Advance(i: nat)
    | Wake(i: nat, j: nat)    // thread i signals and sleeper j is the one that wakes
    | Spurious(j: nat)

  predicate Enabled(s: State, e: Step) {
    match e
    case Begin(i, _, _) => i < |s.threads| && s.threads[i].Idle?
    case Advance(i) =>
      && i < |s.threads| && s.threads[i].Run?
      && var t := s.threads[i];
      (match t.phase
       case Start => Free(s, Cond(t.side))
       case Locked(_) => Free(s, Size)
       case Asleep => false
       case Woken => Free(s, Cond(t.side))
       case Signal => Free(s, Cond(Other(t.side)))
       case Signalling => forall j :: 0 <= j < |s.threads| ==> !IsAsleep(s.threads[j], Other(t.side))
       case _ => true)
    case Wake(i, j) =>
      && i < |s.threads| && s.threads[i].Run? && s.threads[i].phase == Signalling
      && j < |s.threads| && IsAsleep(s.threads[j], Other(s.threads[i].side))
    case Spurious(j) => j < |s.threads| && s.threads[j].Run? && s.threads[j].phase == Asleep
  }

  function Goto(s: State, i: nat, phase: Phase): State
    requires i < |s.threads| && s.threads[i].Run?
  {
    s.(threads := s.threads[i := s.threads[i].(phase := phase)])
  }

  /** The tail or head critical section. */
  function Move(s: State, i: nat): State
    requires i < |s.threads| && s.threads[i].Run? && InRange(s.ring)
  {
    var t := s.threads[i];
    if t.side == Push then
      Goto(s, i, Moved).(ring := Put(s.ring, t.elem), pushed := s.pushed + [t.elem])
    else
      var elem := s.ring.buffer[s.ring.head];
      s.(threads := s.threads[i := t.(phase := Moved, elem := elem)], ring := Take(s.ring), popped := s.popped + [elem])
  }

  function Count(s: State, i: nat): State
    requires i < |s.threads| && s.threads[i].Run?
  {
    var size :=
      if s.threads[i].side == Push then s.ring.size + 1
      else if s.ring.size > 0 then s.ring.size - 1
      else 0xFFFF_FFFF_FFFF_FFFF;  // size_t wraps; RoomKept rules it out
    Goto(s, i, Counted).(ring := s.ring.(size := size))
  }

  function Apply(s: State, e: Step): State
    requires Enabled(s, e) && InRange(s.ring)
  {
    match e
    case Begin(i, side, elem) => s.(threads := s.threads[i := Run(side, Start, elem)])
    case Advance(i) =>
      var t := s.threads[i];
      (match t.phase
       case Start => Goto(s, i, Locked(false))
       case Locked(woken) => Goto(s, i, Check(woken))
       case Check(_) => Goto(s, i, if Room(s, t.side) == 0 then Wait else Ready)
       case Wait => Goto(s, i, Asleep)
       case Asleep => s
       case Woken => Goto(s, i, Locked(true))
       case Ready => Move(s, i)
       case Moved => Count(s, i)
       case Counted => Goto(s, i, Signal)
       case Signal => Goto(s, i, Signalling)
       case Signalling => Goto(s, i, Done)
       case Done => s.(threads := s.threads[i := Idle]))
    case Wake(i, j) => Goto(Goto(s, i, Done), j, Woken)
    case Spurious(j) => Goto(s, j, Woken)
  }

  // ---- Counting threads ----

  datatype Class =
    | Waiting(d: Side)     // decided to wait, or asleep
    | Rechecking(d: Side)  // woken and yet to test again, or passed the test and yet to update the size
    | Notifying(d: Side)   // updated the size and yet to signal
    | Moving(d: Side)      // between buffer and size update

  predicate In(t: Thread, c: Class) {
    t.Run? && t.side == c.d && match c
    case Waiting(_) => t.phase == Wait || t.phase == Asleep
    case Rechecking(_) =>
      t.phase == Woken || t.phase == Locked(true) || t.phase == Check(true) || t.phase == Ready || t.phase == Moved
    case Notifying(_) => t.phase == Counted || t.phase == Signal || t.phase == Signalling
    case Moving(_) => t.phase == Moved
  }

  function Is(c: Class): Thread -> bool {
    t => In(t, c)
  }

  // ---- Invariant ----

  /** No lock is held twice. */
  ghost predicate Exclusive(s: State) {
    forall i, j, l :: 0 <= i < |s.threads| && 0 <= j < |s.threads| && i != j && Holds(s.threads[i], l)
      ==> !Holds(s.threads[j], l)
  }

  /** Elements in the buffer: the size, except between moving an element and counting it. */
  ghost function Stored(s: State): int {
    s.ring.size + Number(s.threads, Is(Moving(Push))) - Number(s.threads, Is(Moving(Pop)))
  }

  /** The thread that passed the test still has room, since it holds the size lock. */
  ghost predicate RoomKept(s: State) {
    forall i :: 0 <= i < |s.threads| && s.threads[i].Run? && (s.threads[i].phase == Ready || s.threads[i].phase == Moved)
      ==> Room(s, s.threads[i].side) > 0
  }

  /** What went in is what came out followed by what is in the buffer, in order. */
  ghost predicate Fifo(s: State) {
    && 0 <= Stored(s)
    && Holding(s.ring, Stored(s)) && s.ring.size <= |s.ring.buffer|
    && s.pushed == s.popped + Stretch(s.ring.buffer, s.ring.head, Stored(s))
  }

  /** If anyone on a side waits, every operation it has room for is announced or about to be taken. */
  ghost predicate NoLostWakeup(s: State, d: Side) {
    Number(s.threads, Is(Waiting(d))) > 0 ==>
      Room(s, d) <= Number(s.threads, Is(Notifying(Other(d)))) + Number(s.threads, Is(Rechecking(d)))
  }

  ghost predicate Inv(s: State) {
    Exclusive(s) && RoomKept(s) && Fifo(s) && NoLostWakeup(s, Push) && NoLostWakeup(s, Pop)
  }

  ghost predicate Initial(s: State) {
    && (forall i :: 0 <= i < |s.threads| ==> s.threads[i].Idle?)
    && 0 < |s.ring.buffer| && s.ring.head == 0 && s.ring.tail == 0 && s.ring.size == 0
    && s.pushed == [] && s.popped == []
  }

  lemma InitialInv(s: State)
    requires Initial(s)
    ensures Inv(s)
  {
    NumberZero(s.threads, Is(Moving(Push)));
    NumberZero(s.threads, Is(Moving(Pop)));
    NumberZero(s.threads, Is(Waiting(Push)));
    NumberZero(s.threads, Is(Waiting(Pop)));
  }

  // ---- Preservation ----

  lemma ExclusiveUpdate(s: State, i: nat, t: Thread)
    requires Exclusive(s) && i < |s.threads|
    requires forall l :: Holds(t, l) && !Holds(s.threads[i], l) ==> Free(s, l)
    ensures Exclusive(s.(threads := s.threads[i := t]))
  {
  }

  lemma StepExclusive(s: State, e: Step)
    requires Exclusive(s) && InRange(s.ring) && Enabled(s, e)
    ensures Exclusive(Apply(s, e))
  {
    match e
    case Begin(i, side, elem) => ExclusiveUpdate(s, i, Run(side, Start, elem));
    case Advance(i) =>
      ExclusiveUpdate(s, i, Apply(s, e).threads[i]);
    case Wake(i, j) =>
      ExclusiveUpdate(s, i, s.threads[i].(phase := Done));
      ExclusiveUpdate(Goto(s, i, Done), j, s.threads[j].(phase := Woken));
    case Spurious(j) => ExclusiveUpdate(s, j, s.threads[j].(phase := Woken));
  }

  lemma StepRoomKept(s: State, e: Step)
    requires Exclusive(s) && RoomKept(s) && InRange(s.ring) && s.ring.size <= |s.ring.buffer| && Enabled(s, e)
    ensures RoomKept(Apply(s, e))
  {
    var u := Apply(s, e);
    forall k | 0 <= k < |u.threads| && u.threads[k].Run? && (u.threads[k].phase == Ready || u.threads[k].phase == Moved)
      ensures Room(u, u.threads[k].side) > 0
    {
      assert Holds(u.threads[k], Size);
      if e.Advance? && s.threads[e.i].phase == Moved {
        assert Holds(s.threads[e.i], Size);
      }
    }
  }

  /** Steps that do not touch the buffer or the size keep the order of elements. */
  lemma QuietFifo(s: State, u: State)
    requires Fifo(s) && u == s.(threads := u.threads)
    requires Number(u.threads, Is(Moving(Push))) == Number(s.threads, Is(Moving(Push)))
    requires Number(u.threads, Is(Moving(Pop))) == Number(s.threads, Is(Moving(Pop)))
    ensures Fifo(u)
  {
  }

  lemma {:induction false} AtMostOneMoving(threads: seq<Thread>, c: Class, i: nat)
    requires c.Moving? && i < |threads| && Holds(threads[i], Size)
    requires forall j :: 0 <= j < |threads| && j != i ==> !Holds(threads[j], Size)
    ensures Number(threads, Is(c)) == One(In(threads[i], c))
  {
    NumberUpdate(threads, i, Idle, Is(c));
    NumberZero(threads[i := Idle], Is(c));
  }

  lemma MoveStored(s: State, i: nat)
    requires Exclusive(s) && InRange(s.ring) && i < |s.threads| && s.threads[i].Run? && s.threads[i].phase == Ready
    ensures Stored(s) == s.ring.size
    ensures Stored(Move(s, i)) == s.ring.size + if s.threads[i].side == Push then 1 else -1
  {
    hide Number;
    var u := Move(s, i);
    assert Holds(s.threads[i], Size);
    AtMostOneMoving(s.threads, Moving(Push), i);
    AtMostOneMoving(s.threads, Moving(Pop), i);
    NumberUpdate(s.threads, i, u.threads[i], Is(Moving(Push)));
    NumberUpdate(s.threads, i, u.threads[i], Is(Moving(Pop)));
  }

  lemma MoveFifo(s: State, i: nat)
    requires Exclusive(s) && RoomKept(s) && Fifo(s)
    requires i < |s.threads| && s.threads[i].Run? && s.threads[i].phase == Ready
    ensures Fifo(Move(s, i))
  {
    hide Number, Exclusive, Stored, Wrap;
    var t := s.threads[i];
    var u := Move(s, i);
    MoveStored(s, i);
    if t.side == Push {
      PutAppends(s.ring, Stored(s), t.elem);
    } else {
      TakeRemoves(s.ring, Stored(s));
      PopOrder(s.pushed, s.popped, s.ring.buffer[s.ring.head], Stretch(s.ring.buffer, u.ring.head, Stored(u)));
    }
  }

  lemma PopOrder(pushed: seq<int>, popped: seq<int>, x: int, rest: seq<int>)
    requires pushed == popped + ([x] + rest)
    ensures pushed == popped + [x] + rest
  {
  }

  lemma CountFifo(s: State, i: nat)
    requires Inv(s) && i < |s.threads| && s.threads[i].Run? && s.threads[i].phase == Moved
    ensures Fifo(Count(s, i))
  {
    hide NoLostWakeup, Number;
    var u := Count(s, i);
    assert Holds(s.threads[i], Size);
    NumberUpdate(s.threads, i, u.threads[i], Is(Moving(Push)));
    NumberUpdate(s.threads, i, u.threads[i], Is(Moving(Pop)));
    assert Stored(u) == Stored(s);
  }

  lemma StepFifo(s: State, e: Step)
    requires Inv(s) && Enabled(s, e)
    ensures Fifo(Apply(s, e))
  {
    var u := Apply(s, e);
    if e.Advance? && s.threads[e.i].phase == Ready {
      MoveFifo(s, e.i);
    } else if e.Advance? && s.threads[e.i].phase == Moved {
      CountFifo(s, e.i);
    } else {
      StepNumbers(s, e, Moving(Push));
      StepNumbers(s, e, Moving(Pop));
      QuietFifo(s, u);
    }
  }

  /** How a step changes the number of threads in a class. */
  lemma StepNumbers(s: State, e: Step, c: Class)
    requires InRange(s.ring) && Enabled(s, e)
    ensures var u := Apply(s, e);
      && |u.threads| == |s.threads|
      && if e.Wake? then
        Number(u.threads, Is(c)) == Number(s.threads, Is(c)) - One(In(s.threads[e.i], c)) + One(In(u.threads[e.i], c))
                                                     - One(In(s.threads[e.j], c)) + One(In(u.threads[e.j], c))
      else
        var k := if e.Spurious? then e.j else e.i;
        Number(u.threads, Is(c)) == Number(s.threads, Is(c)) - One(In(s.threads[k], c)) + One(In(u.threads[k], c))
  {
    match e
    case Begin(i, side, elem) => NumberUpdate(s.threads, i, Run(side, Start, elem), Is(c));
    case Advance(i) =>
      NumberUpdate(s.threads, i, Apply(s, e).threads[i], Is(c));
      assert Apply(s, e).threads == s.threads[i := Apply(s, e).threads[i]];
    case Wake(i, j) =>
      NumberUpdate(s.threads, i, s.threads[i].(phase := Done), Is(c));
      NumberUpdate(Goto(s, i, Done).threads, j, s.threads[j].(phase := Woken), Is(c));
    case Spurious(j) => NumberUpdate(s.threads, j, s.threads[j].(phase := Woken), Is(c));
  }

  /** A signaller that found nobody asleep: nobody is about to sleep either, since that needs its lock. */
  lemma NobodyWaits(s: State, i: nat)
    requires Exclusive(s) && Enabled(s, Advance(i)) && s.threads[i].phase == Signalling
    ensures Number(s.threads, Is(Waiting(Other(s.threads[i].side)))) == 0
  {
    var d := Other(s.threads[i].side);
    assert Holds(s.threads[i], Cond(d));
    forall k | 0 <= k < |s.threads|
      ensures !In(s.threads[k], Waiting(d))
    {
      if In(s.threads[k], Waiting(d)) && s.threads[k].phase == Wait {
        assert Holds(s.threads[k], Cond(d));
      }
    }
    NumberZero(s.threads, Is(Waiting(d)));
  }

  lemma StepWakeup(s: State, e: Step, d: Side)
    requires Exclusive(s) && RoomKept(s) && NoLostWakeup(s, d) && InRange(s.ring) && Enabled(s, e)
    ensures NoLostWakeup(Apply(s, e), d)
  {
    hide Number, Holds, Exclusive, Is;
    var u := Apply(s, e);
    StepNumbers(s, e, Waiting(d));
    StepNumbers(s, e, Notifying(Other(d)));
    StepNumbers(s, e, Rechecking(d));
    if e.Advance? && s.threads[e.i].phase == Signalling {
      NobodyWaits(s, e.i);
    }
  }

  lemma StepInv(s: State, e: Step)
    requires Inv(s) && Enabled(s, e)
    ensures Inv(Apply(s, e))
  {
    StepExclusive(s, e);
    StepRoomKept(s, e);
    StepFifo(s, e);
    StepWakeup(s, e, Push);
    StepWakeup(s, e, Pop);
  }

  // ---- Runs ----

  ghost predicate CanRun(s: State, run: seq<Step>)
    decreases |run|
  {
    run == [] || (Enabled(s, run[0]) && InRange(s.ring) && CanRun(Apply(s, run[0]), run[1..]))
  }

  ghost function After(s: State, run: seq<Step>): State
    requires CanRun(s, run)
    decreases |run|
  {
    if run == [] then s else After(Apply(s, run[0]), run[1..])
  }

  lemma {:induction false} RunInv(s: State, run: seq<Step>)
    requires Inv(s) && CanRun(s, run)
    ensures Inv(After(s, run))
    decreases |run|
  {
    hide Inv, Apply, Enabled;
    if run != [] {
      StepInv(s, run[0]);
      RunInv(Apply(s, run[0]), run[1..]);
    }
  }

  /**
   In every interleaving: what was enqueued is what was dequeued followed by the ring read from
   head, size and indices agree, and no wakeup is lost on either side.
   */
  lemma EveryRun(s: State, run: seq<Step>)
    requires Initial(s) && CanRun(s, run)
    ensures var u := After(s, run);
      Exclusive(u) && Fifo(u) && NoLostWakeup(u, Push) && NoLostWakeup(u, Pop)
  {
    InitialInv(s);
    RunInv(s, run);
  }

  // ---- Progress ----

  /** Neither between calls nor asleep. */
  predicate Active(t: Thread) {
    t.Run? && t.phase != Asleep
  }

  predicate Genuine(e: Step) {
    e.Advance? || e.Wake?
  }

  lemma CanMove(s: State, i: nat) returns (e: Step)
    requires i < |s.threads| && s.threads[i].Run?
    requires !s.threads[i].phase.Start? && !s.threads[i].phase.Locked? && !s.threads[i].phase.Asleep?
          && !s.threads[i].phase.Woken? && !s.threads[i].phase.Signal?
    ensures Genuine(e) && Enabled(s, e)
  {
    e := Advance(i);
    if s.threads[i].phase == Signalling && !Enabled(s, e) {
      var j :| 0 <= j < |s.threads| && IsAsleep(s.threads[j], Other(s.threads[i].side));
      e := Wake(i, j);
    }
  }

  /** No deadlock: as long as some thread is active, some step other than a spurious wakeup can happen. */
  lemma Progress(s: State) returns (e: Step)
    requires exists i :: 0 <= i < |s.threads| && Active(s.threads[i])
    ensures Genuine(e) && Enabled(s, e)
  {
    if k :| 0 <= k < |s.threads| && Holds(s.threads[k], Size) {
      e := CanMove(s, k);
    } else if k :| 0 <= k < |s.threads| && s.threads[k].Run? && s.threads[k].phase.Locked? {
      assert Free(s, Size);
      e := Advance(k);
    } else if k, l :| 0 <= k < |s.threads| && Holds(s.threads[k], l) {
      e := CanMove(s, k);
    } else {
      var i :| 0 <= i < |s.threads| && Active(s.threads[i]);
      assert Free(s, Cond(s.threads[i].side)) && Free(s, Cond(Other(s.threads[i].side)));
      e := Advance(i);
    }
  }

  /** When nobody is active, consumers sleep only on an empty queue and producers only on a full one. */
  lemma RestIsJustified(s: State)
    requires Inv(s) && forall i :: 0 <= i < |s.threads| ==> !Active(s.threads[i])
    ensures (exists i :: 0 <= i < |s.threads| && IsAsleep(s.threads[i], Pop)) ==> s.ring.size == 0
    ensures (exists i :: 0 <= i < |s.threads| && IsAsleep(s.threads[i], Push)) ==> s.ring.size == |s.ring.buffer|
    ensures !((exists i :: 0 <= i < |s.threads| && IsAsleep(s.threads[i], Pop))
           && (exists j :: 0 <= j < |s.threads| && IsAsleep(s.threads[j], Push)))
  {
    AsleepNeedsRoom(s, Push);
    AsleepNeedsRoom(s, Pop);
  }

  lemma AsleepNeedsRoom(s: State, d: Side)
    requires NoLostWakeup(s, d) && forall i :: 0 <= i < |s.threads| ==> !Active(s.threads[i])
    ensures (exists i :: 0 <= i < |s.threads| && IsAsleep(s.threads[i], d)) ==> Room(s, d) <= 0
  {
    NumberZero(s.threads, Is(Notifying(Other(d))));
    NumberZero(s.threads, Is(Rechecking(d)));
    if i :| 0 <= i < |s.threads| && IsAsleep(s.threads[i], d) {
      assert In(s.threads[i], Waiting(d));
      NumberZero(s.threads, Is(Waiting(d)));
    }
  }

  function Weight(t: Thread): nat {
    match t
    case Idle => 0
    case Run(_, phase, _) =>
      match phase
      case Start => 28
      case Woken => 28
      case Locked(_) => 27
      case Check(_) => 26
      case Wait => 25
      case Asleep => 24
      case Ready => 24
      case Moved => 23
      case Counted => 22
      case Signal => 21
      case Signalling => 20
      case Done => 1
  }

  function Work(threads: seq<Thread>): nat {
    Sum(threads, Weight)
  }

  lemma WorkDecreases(s: State, e: Step)
    requires InRange(s.ring) && Genuine(e) && Enabled(s, e)
    ensures Work(Apply(s, e).threads) < Work(s.threads)
  {
    hide Sum, Put, Take, Free;
    var u := Apply(s, e);
    match e
    case Advance(i) =>
      SumUpdate(s.threads, i, u.threads[i], Weight);
      assert u.threads == s.threads[i := u.threads[i]];
    case Wake(i, j) =>
      SumUpdate(s.threads, i, s.threads[i].(phase := Done), Weight);
      SumUpdate(Goto(s, i, Done).threads, j, s.threads[j].(phase := Woken), Weight);
  }

  /**
   Without new calls and spurious wakeups every schedule comes to rest within Work steps, and it
   can only rest with consumers asleep on an empty queue or producers asleep on a full one.
   */
  lemma {:induction false} ComesToRest(s: State, run: seq<Step>)
    requires Inv(s) && CanRun(s, run) && forall k :: 0 <= k < |run| ==> Genuine(run[k])
    ensures |run| <= Work(s.threads)
    ensures var u := After(s, run);
      Inv(u) && ((forall e :: Genuine(e) ==> !Enabled(u, e)) ==> forall i :: 0 <= i < |u.threads| ==> !Active(u.threads[i]))
    decreases |run|
  {
    if run == [] {
      if i :| 0 <= i < |s.threads| && Active(s.threads[i]) {
        var e := Progress(s);
      }
    } else {
      WorkDecreases(s, run[0]);
      StepInv(s, run[0]);
      ComesToRest(Apply(s, run[0]), run[1..]);
    }
  }
}
