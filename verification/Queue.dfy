/** The ring buffer of the producer-consumer queue, as a value and as the object that updates it in place. */
module Queue {
  import opened Bytes

  datatype Ring = Ring(buffer: seq<int>, head: nat, tail: nat, size: nat)

  predicate InRange(r: Ring) {
    0 < |r.buffer| && r.head < |r.buffer| && r.tail < |r.buffer|
  }

  /** An index one round further at most, brought back into the buffer: i % capacity. */
  function Wrap(i: nat, capacity: nat): (r: nat)
    requires i < 2 * capacity
    ensures r < capacity
    ensures i < capacity ==> r == i
    ensures i >= capacity ==> r == i - capacity
  {
    ModSmall(i, capacity);
    i % capacity
  }

  lemma ModSmall(i: nat, c: nat)
    requires i < 2 * c
    ensures i % c == if i < c then i else i - c
  {
  }

  /** buffer[tail] = elem; tail = (tail + 1) % capacity. */
  function Put(r: Ring, elem: int): Ring
    requires InRange(r)
  {
    r.(buffer := r.buffer[r.tail := elem], tail := Wrap(r.tail + 1, |r.buffer|))
  }

  /** head = (head + 1) % capacity; the element is read before it. */
  function Take(r: Ring): Ring
    requires InRange(r)
  {
    r.(head := Wrap(r.head + 1, |r.buffer|))
  }

  /** The n elements read from index i on, wrapping around. */
  function Stretch(buffer: seq<int>, i: nat, n: nat): (s: seq<int>)
    requires i < |buffer|
    ensures |s| == n
    decreases n
  {
    if n == 0 then [] else [buffer[i]] + Stretch(buffer, Wrap(i + 1, |buffer|), n - 1)
  }

  /** Storing at the slot just past a stretch appends to it, as long as there is room. */
  lemma {:induction false} StretchAppend(buffer: seq<int>, i: nat, n: nat, elem: int)
    requires i < |buffer| && n < |buffer|
    ensures Wrap(i + n, |buffer|) < |buffer|
    ensures Stretch(buffer[Wrap(i + n, |buffer|) := elem], i, n + 1) == Stretch(buffer, i, n) + [elem]
    decreases n
  {
    var c := |buffer|;
    var at := Wrap(i + n, c);
    if n == 0 {
      assert at == i;
    } else {
      StretchAppend(buffer, Wrap(i + 1, c), n - 1, elem);
      assert Wrap(Wrap(i + 1, c) + n - 1, c) == at && at != i;
    }
  }

  /** head, tail and count agree; head == tail both when empty and when full. */
  ghost predicate Holding(r: Ring, n: nat) {
    InRange(r) && n <= |r.buffer| && r.tail == Wrap(r.head + n, |r.buffer|)
  }

  lemma PutAppends(r: Ring, n: nat, elem: int)
    requires Holding(r, n) && n < |r.buffer|
    ensures Holding(Put(r, elem), n + 1)
    ensures Stretch(Put(r, elem).buffer, r.head, n + 1) == Stretch(r.buffer, r.head, n) + [elem]
  {
    StretchAppend(r.buffer, r.head, n, elem);
  }

  lemma TakeRemoves(r: Ring, n: nat)
    requires Holding(r, n) && 0 < n
    ensures Holding(Take(r), n - 1)
    ensures Stretch(r.buffer, r.head, n) == [r.buffer[r.head]] + Stretch(r.buffer, Take(r).head, n - 1)
  {
  }

  class PcQueue {
    const buffer: array<int>
    var head: nat
    var tail: nat
    var size: nat

    ghost function View(): Ring
      reads this, buffer
    {
      Ring(buffer[..], head, tail, size)
    }

    ghost predicate Valid()
      reads this, buffer
    {
      Holding(View(), size)
    }

    ghost function Contents(): seq<int>
      requires Valid()
      reads this, buffer
    {
      Stretch(buffer[..], head, size)
    }

    /** pcq_create, which refuses a capacity of 0. */
    static method Create(capacity: nat) returns (q: Option<PcQueue>)
      ensures q.Some? <==> capacity > 0
      ensures q.Some? ==> fresh(q.value) && fresh(q.value.buffer) && q.value.Valid()
      ensures q.Some? ==> q.value.Contents() == [] && q.value.buffer.Length == capacity
    {
      if capacity <= 0 {
        return None;
      }
      var created := new PcQueue(capacity);
      q := Some(created);
    }

    constructor (capacity: nat)
      requires 0 < capacity
      ensures Valid() && Contents() == [] && fresh(buffer) && buffer.Length == capacity
    {
      buffer := new int[capacity];
      head, tail, size := 0, 0, 0;
    }

    /** The critical section of pcq_enqueue, entered once the queue is not full. */
    method Enqueue(elem: int)
      requires Valid() && size < buffer.Length
      modifies this, buffer
      ensures Valid() && Contents() == old(Contents()) + [elem]
    {
      PutAppends(View(), size, elem);
      buffer[tail] := elem;
      tail := Wrap(tail + 1, buffer.Length);
      size := size + 1;
    }

    /** The critical section of pcq_dequeue, entered once the queue is not empty. */
    method Dequeue() returns (elem: int)
      requires Valid() && 0 < size
      modifies this
      ensures Valid() && [elem] + Contents() == old(Contents())
    {
      TakeRemoves(View(), size);
      elem := buffer[head];
      head := Wrap(head + 1, buffer.Length);
      size := size - 1;
    }
  }
}
