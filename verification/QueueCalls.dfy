/**
 What calls of the queue achieve: every element offered is stored once by its call, every call that
 asks for one takes one, and what calls return is what came out of the buffer.
 */
module QueueCalls {
  import opened Queue
  import opened QueueThreads
  import opened Counting

  /** The call moved its element into or out of the buffer. */
  predicate PastMove(t: Thread) {
    t.Run? && (t.phase == Moved || t.phase == Counted || t.phase == Signal || t.phase == Signalling || t.phase == Done)
  }

  datatype Account =
    | Unstored(x: int)    // a push that is still to store x
    | Unserved            // a pop that is still to take an element
    | Taken(x: int)       // a pop that is about to return x

  predicate Owes(t: Thread, a: Account) {
    t.Run? && match a
    case Unstored(x) => t.side == Push && !PastMove(t) && t.elem == x
    case Unserved => t.side == Pop && !PastMove(t)
    case Taken(x) => t.side == Pop && PastMove(t) && t.elem == x
  }

  function Owing(a: Account): Thread -> bool {
    t => Owes(t, a)
  }

  // ---- What calls ask for and return ----

  predicate Offers(e: Step, x: int) {
    e.Begin? && e.side == Push && e.elem == x
  }

  predicate Asks(e: Step) {
    e.Begin? && e.side == Pop
  }

  /** A pop returns x to its caller. */
  predicate Returns(s: State, e: Step, x: int) {
    && e.Advance? && e.i < |s.threads| && s.threads[e.i].Run?
    && s.threads[e.i].side == Pop && s.threads[e.i].phase == Done && s.threads[e.i].elem == x
  }

  /** How often a run offers x. */
  function Offered(run: seq<Step>, x: int): nat {
    if run == [] then 0 else One(Offers(run[0], x)) + Offered(run[1..], x)
  }

  /** How many calls of pcq_dequeue a run begins. */
  function Asked(run: seq<Step>): nat {
    if run == [] then 0 else One(Asks(run[0])) + Asked(run[1..])
  }

  /** How often calls of pcq_dequeue return x in a run. */
  ghost function Returned(s: State, run: seq<Step>, x: int): nat
    requires CanRun(s, run)
    decreases |run|
  {
    if run == [] then 0 else One(Returns(s, run[0], x)) + Returned(Apply(s, run[0]), run[1..], x)
  }

  // ---- Accounts ----

  /** The thread whose account a step can change; in Wake neither does. */
  function Mover(e: Step): nat {
    if e.Spurious? then e.j else e.i
  }

  lemma StepNumber(s: State, e: Step, a: Account)
    requires InRange(s.ring) && Enabled(s, e)
    ensures var u, i := Apply(s, e), Mover(e);
      && i < |s.threads| == |u.threads|
      && Number(u.threads, Owing(a)) + One(Owes(s.threads[i], a)) == Number(s.threads, Owing(a)) + One(Owes(u.threads[i], a))
  {
    hide Number, Free, Put, Take;
    var u := Apply(s, e);
    match e
    case Begin(i, side, elem) => NumberUpdate(s.threads, i, u.threads[i], Owing(a));
    case Advance(i) =>
      NumberUpdate(s.threads, i, u.threads[i], Owing(a));
      assert u.threads == s.threads[i := u.threads[i]];
    case Wake(i, j) =>
      NumberUpdate(s.threads, i, s.threads[i].(phase := Done), Owing(a));
      NumberUpdate(Goto(s, i, Done).threads, j, s.threads[j].(phase := Woken), Owing(a));
    case Spurious(j) => NumberUpdate(s.threads, j, u.threads[j], Owing(a));
  }

  /** A push stops owing x exactly by pushing it. */
  lemma StorePays(s: State, e: Step, x: int)
    requires InRange(s.ring) && Enabled(s, e) && Mover(e) < |s.threads| == |Apply(s, e).threads|
    ensures var u, i := Apply(s, e), Mover(e);
      multiset(u.pushed)[x] + One(Owes(u.threads[i], Unstored(x)))
      == multiset(s.pushed)[x] + One(Owes(s.threads[i], Unstored(x))) + One(Offers(e, x))
  {
    hide Free, Put, Take;
  }

  /** A pop stops owing an element exactly by popping one. */
  lemma TakePays(s: State, e: Step)
    requires InRange(s.ring) && Enabled(s, e) && Mover(e) < |s.threads| == |Apply(s, e).threads|
    ensures var u, i := Apply(s, e), Mover(e);
      |u.popped| + One(Owes(u.threads[i], Unserved)) == |s.popped| + One(Owes(s.threads[i], Unserved)) + One(Asks(e))
  {
    hide Free, Put, Take;
  }

  /** A pop returns what it popped. */
  lemma ReturnPays(s: State, e: Step, x: int)
    requires InRange(s.ring) && Enabled(s, e) && Mover(e) < |s.threads| == |Apply(s, e).threads|
    ensures var u, i := Apply(s, e), Mover(e);
      multiset(u.popped)[x] + One(Owes(s.threads[i], Taken(x)))
      == multiset(s.popped)[x] + One(Owes(u.threads[i], Taken(x))) + One(Returns(s, e, x))
  {
    hide Free, Put, Take;
  }

  lemma {:induction false} RunAccounts(s: State, run: seq<Step>, x: int)
    requires CanRun(s, run)
    ensures var u := After(s, run);
      && multiset(u.pushed)[x] + Number(u.threads, Owing(Unstored(x)))
         == multiset(s.pushed)[x] + Number(s.threads, Owing(Unstored(x))) + Offered(run, x)
      && |u.popped| + Number(u.threads, Owing(Unserved)) == |s.popped| + Number(s.threads, Owing(Unserved)) + Asked(run)
      && multiset(u.popped)[x] + Number(s.threads, Owing(Taken(x)))
         == multiset(s.popped)[x] + Number(u.threads, Owing(Taken(x))) + Returned(s, run, x)
    decreases |run|
  {
    hide Apply, Enabled, Number, Owing, Owes, Offers, Asks, Returns;
    if run != [] {
      StepNumber(s, run[0], Unstored(x));
      StepNumber(s, run[0], Unserved);
      StepNumber(s, run[0], Taken(x));
      StorePays(s, run[0], x);
      TakePays(s, run[0]);
      ReturnPays(s, run[0], x);
      RunAccounts(Apply(s, run[0]), run[1..], x);
    }
  }

  /**
   In every interleaving, for every x: it was offered to pcq_enqueue as often as it was pushed plus the
   calls that are still to store it; as many elements were popped as pcq_dequeue was asked for, less the
   calls still to take one; and x was popped as often as calls returned it plus those about to.
   */
  lemma EveryCallCounts(s: State, run: seq<Step>, x: int)
    requires Initial(s) && CanRun(s, run)
    ensures var u := After(s, run);
      && Offered(run, x) == multiset(u.pushed)[x] + Number(u.threads, Owing(Unstored(x)))
      && Asked(run) == |u.popped| + Number(u.threads, Owing(Unserved))
      && multiset(u.popped)[x] == Returned(s, run, x) + Number(u.threads, Owing(Taken(x)))
  {
    RunAccounts(s, run, x);
    NumberZero(s.threads, Owing(Unstored(x)));
    NumberZero(s.threads, Owing(Unserved));
    NumberZero(s.threads, Owing(Taken(x)));
    assert multiset(s.pushed) == multiset{} && multiset(s.popped) == multiset{};
    hide After, CanRun, Number;
  }

  /** Once every call returned: everything offered was pushed and everything popped was returned. */
  lemma AllReturned(s: State, run: seq<Step>, x: int)
    requires Initial(s) && CanRun(s, run) && forall i :: 0 <= i < |After(s, run).threads| ==> After(s, run).threads[i].Idle?
    ensures var u := After(s, run);
      Offered(run, x) == multiset(u.pushed)[x] && Asked(run) == |u.popped| && Returned(s, run, x) == multiset(u.popped)[x]
  {
    var u := After(s, run);
    EveryCallCounts(s, run, x);
    NumberZero(u.threads, Owing(Unstored(x)));
    NumberZero(u.threads, Owing(Unserved));
    NumberZero(u.threads, Owing(Taken(x)));
  }

  // ---- Who waits ----

  /** The lock a thread is about to take. */
  predicate Wants(t: Thread, l: Lock) {
    t.Run? && match t.phase
    case Start => l == Cond(t.side)
    case Woken => l == Cond(t.side)
    case Locked(_) => l == Size
    case Signal => l == Cond(Other(t.side))
    case _ => false
  }

  lemma SignallerGoes(s: State, i: nat)
    requires i < |s.threads| && s.threads[i].Run? && s.threads[i].phase == Signalling
    ensures Enabled(s, Advance(i)) || exists k: nat :: Enabled(s, Wake(i, k))
  {
    if !Enabled(s, Advance(i)) {
      var k: nat :| k < |s.threads| && IsAsleep(s.threads[k], Other(s.threads[i].side));
      assert Enabled(s, Wake(i, k));
    }
  }

  /** A call that neither sleeps nor can step waits for one lock, and another thread holds it. */
  lemma WaitsFor(s: State, i: nat) returns (j: nat, l: Lock)
    requires i < |s.threads| && Active(s.threads[i])
    requires !Enabled(s, Advance(i)) && forall k: nat :: !Enabled(s, Wake(i, k))
    ensures j < |s.threads| && Wants(s.threads[i], l) && Holds(s.threads[j], l)
  {
    var Run(side, phase, _) := s.threads[i];
    if phase == Signalling {
      SignallerGoes(s, i);
      assert false;
    }
    l := if phase == Signal then Cond(Other(side)) else if phase.Locked? then Size else Cond(side);
    j :| j < |s.threads| && Holds(s.threads[j], l);
  }

  /** A call counts as rechecking only after it slept: its first test of the condition is not one. */
  lemma FirstTest(s: State, i: nat, d: Side, x: int)
    requires InRange(s.ring) && i < |s.threads| && s.threads[i] == Run(d, Start, x) && Free(s, Cond(d)) && Free(s, Size)
    ensures CanRun(s, [Advance(i), Advance(i)])
    ensures var u := After(s, [Advance(i), Advance(i)]);
      i < |u.threads| && Holds(u.threads[i], Size) && !In(u.threads[i], Rechecking(d)) && u.ring == s.ring
  {
    var v := Apply(s, Advance(i));
    assert v.threads[i] == Run(d, Locked(false), x);
    var u := Apply(v, Advance(i));
    assert u.threads[i] == Run(d, Check(false), x);
    assert [Advance(i), Advance(i)][1..] == [Advance(i)] && [Advance(i)][1..] == [];
    assert CanRun(u, []) && After(u, []) == u;
    assert CanRun(v, [Advance(i)]) && After(v, [Advance(i)]) == u;
  }
}
