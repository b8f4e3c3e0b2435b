/**
 The manager's side of a listing: it reads packets until one is marked as last and keeps the
 boxes sorted by name with an in-place insertion.
 */
module Listing {
  import opened Bytes
  import opened Protocol
  import opened BoxTable

  // ---- Order of names ----

  /** strcmp(a, b) > 0 */
  predicate Greater(a: CString, b: CString) {
    a != [] && (b == [] || a[0] > b[0] || (a[0] == b[0] && Greater(a[1..], b[1..])))
  }

  lemma {:induction false} GreaterIsOrder(a: CString, b: CString, c: CString)
    ensures !(Greater(a, b) && Greater(b, a))
    ensures !Greater(a, b) && !Greater(b, a) ==> a == b
    ensures !Greater(a, b) && !Greater(b, c) ==> !Greater(a, c)
    decreases |a| + |b| + |c|
  {
    if a != [] && b != [] && c != [] {
      GreaterIsOrder(a[1..], b[1..], c[1..]);
    } else if a != [] && b != [] {
      GreaterIsOrder(a[1..], b[1..], []);
    }
    if a != [] && b != [] && a[0] == b[0] && a[1..] == b[1..] {
      assert a == [a[0]] + a[1..] && b == [b[0]] + b[1..];
    }
  }

  /** a comes after b byte by byte: after a common start it goes on where b ends, or with a greater byte. */
  ghost predicate AfterInBytes(a: CString, b: CString) {
    exists k :: Differ(a, b, k)
  }

  predicate Differ(a: CString, b: CString, k: nat) {
    && k < |a| && k <= |b| && a[..k] == b[..k]
    && (k == |b| || a[k] > b[k])
  }

  /** strcmp compares unsigned bytes. */
  lemma {:induction false} GreaterIff(a: CString, b: CString)
    ensures Greater(a, b) <==> AfterInBytes(a, b)
    decreases |a|
  {
    if a != [] && b != [] && a[0] == b[0] {
      GreaterIff(a[1..], b[1..]);
      if k: nat :| Differ(a[1..], b[1..], k) {
        assert a[..k + 1] == [a[0]] + a[1..][..k] && b[..k + 1] == [b[0]] + b[1..][..k];
        assert Differ(a, b, k + 1);
      }
      if k: nat :| Differ(a, b, k) {
        assert k > 0;
        assert a[1..][..k - 1] == a[..k][1..] && b[1..][..k - 1] == b[..k][1..];
        assert Differ(a[1..], b[1..], k - 1);
      }
    } else {
      if Greater(a, b) {
        assert Differ(a, b, 0);
      }
      if k: nat :| Differ(a, b, k) && k > 0 {
        assert a[..k][0] == b[..k][0];
      }
    }
  }

  predicate Before(x: Box, y: Box) {
    !Greater(Str(x.name), Str(y.name))
  }

  ghost predicate Sorted(s: seq<Box>) {
    forall i, j :: 0 <= i < j < |s| ==> Before(s[i], s[j])
  }

  /** No name comes after a later one byte by byte. */
  ghost predicate InByteOrder(s: seq<Box>) {
    forall i, j :: 0 <= i < j < |s| ==> !AfterInBytes(Str(s[i].name), Str(s[j].name))
  }

  lemma SortedIff(s: seq<Box>)
    ensures Sorted(s) <==> InByteOrder(s)
  {
    hide Greater, AfterInBytes;
    forall i, j | 0 <= i < j < |s|
      ensures Before(s[i], s[j]) <==> !AfterInBytes(Str(s[i].name), Str(s[j].name))
    {
      GreaterIff(Str(s[i].name), Str(s[j].name));
    }
  }

  // ---- Insertion ----

  /** x placed after every box at the end of s that is not greater. */
  function Insert(s: seq<Box>, x: Box): (r: seq<Box>)
    ensures |r| == |s| + 1
  {
    if s == [] || Before(s[|s| - 1], x) then s + [x]
    else Insert(s[..|s| - 1], x) + [s[|s| - 1]]
  }

  function InsertAll(s: seq<Box>): (r: seq<Box>)
    ensures |r| == |s|
  {
    if s == [] then [] else Insert(InsertAll(s[..|s| - 1]), s[|s| - 1])
  }

  lemma {:induction false} InsertPermutes(s: seq<Box>, x: Box)
    ensures multiset(Insert(s, x)) == multiset(s) + multiset{x}
    decreases |s|
  {
    if s != [] && !Before(s[|s| - 1], x) {
      InsertPermutes(s[..|s| - 1], x);
      assert s == s[..|s| - 1] + [s[|s| - 1]];
    }
  }

  /** Appending a box that is not before any other keeps a sequence sorted. */
  lemma SortedAppend(s: seq<Box>, x: Box)
    requires Sorted(s) && forall y :: y in s ==> Before(y, x)
    ensures Sorted(s + [x])
  {
  }

  lemma {:induction false} InsertSorted(s: seq<Box>, x: Box)
    requires Sorted(s)
    ensures Sorted(Insert(s, x))
    decreases |s|
  {
    if s == [] {
    } else {
      hide Before, Sorted;
      var z := s[|s| - 1];
      SortedParts(s);
      if Before(z, x) {
        forall y | y in s
          ensures Before(y, x)
        {
          BeforeIsOrder(y, z, x);
        }
        SortedAppend(s, x);
      } else {
        InsertSorted(s[..|s| - 1], x);
        InsertPermutes(s[..|s| - 1], x);
        BeforeIsOrder(x, z, z);
        forall y | y in Insert(s[..|s| - 1], x)
          ensures Before(y, z)
        {
          assert y in multiset(Insert(s[..|s| - 1], x));
        }
        SortedAppend(Insert(s[..|s| - 1], x), z);
      }
    }
  }

  lemma SortedParts(s: seq<Box>)
    requires Sorted(s) && s != []
    ensures Sorted(s[..|s| - 1])
    ensures forall y :: y in s ==> Before(y, s[|s| - 1])
  {
    forall y | y in s
      ensures Before(y, s[|s| - 1])
    {
      GreaterIsOrder(Str(y.name), Str(y.name), []);
    }
  }

  lemma BeforeIsOrder(x: Box, y: Box, z: Box)
    ensures Before(x, y) || Before(y, x)
    ensures Before(x, y) && Before(y, z) ==> Before(x, z)
  {
    GreaterIsOrder(Str(x.name), Str(y.name), Str(z.name));
  }

  lemma {:induction false} InsertAllSorts(s: seq<Box>)
    ensures Sorted(InsertAll(s)) && multiset(InsertAll(s)) == multiset(s)
    decreases |s|
  {
    hide Sorted;
    if s == [] {
      NoneSorted();
    } else {
      InsertAllSorts(s[..|s| - 1]);
      InsertSorted(InsertAll(s[..|s| - 1]), s[|s| - 1]);
      InsertPermutes(InsertAll(s[..|s| - 1]), s[|s| - 1]);
      assert s == s[..|s| - 1] + [s[|s| - 1]];
    }
  }

  lemma NoneSorted()
    ensures Sorted([])
  {
  }

  /** sorted_insert: shifts greater boxes one place to the right and puts the new box into the gap. */
  method SortedInsert(boxes: array<Box>, right: int, box: Box)
    requires right + 1 < boxes.Length
    modifies boxes
    ensures right < -1 ==> boxes[..] == old(boxes[..])
    ensures right >= -1 ==> boxes[..right + 2] == Insert(old(boxes[..right + 1]), box)
    ensures right >= -1 ==> boxes[right + 2..] == old(boxes[right + 2..])
  {
    if right < -1 {
      return;
    }
    hide Insert, Greater, Str, Gap;
    ghost var was := boxes[..];
    var r := right;
    GapStart(was, right);
    while r >= 0 && Greater(Str(boxes[r].name), Str(box.name))
      invariant -1 <= r <= right
      invariant boxes[..] == Gap(was, r, right, boxes[r + 1])
      invariant AllGreater(was[r + 1..right + 1], box)
    {
      GapLeft(was, r, right, boxes[r + 1]);
      assert boxes[r] == boxes[..][r];
      assert was[r..right + 1] == [was[r]] + was[r + 1..right + 1];
      boxes[r + 1] := boxes[r];
      r := r - 1;
    }
    if r >= 0 {
      GapLeft(was, r, right, boxes[r + 1]);
      assert boxes[r] == boxes[..][r];
    }
    GapFill(was, r, right, boxes[r + 1], box);
    boxes[r + 1] := box;
  }

  ghost predicate AllGreater(s: seq<Box>, box: Box) {
    forall y :: y in s ==> Greater(Str(y.name), Str(box.name))
  }

  /** The array with the boxes after r, up to right, one place further, and x in between. */
  ghost function Gap(was: seq<Box>, r: int, right: int, x: Box): (now: seq<Box>)
    requires -1 <= r <= right && right + 1 < |was|
    ensures |now| == |was|
  {
    was[..r + 1] + [x] + was[r + 1..right + 1] + was[right + 2..]
  }

  lemma GapStart(was: seq<Box>, right: int)
    requires -1 <= right && right + 1 < |was|
    ensures was == Gap(was, right, right, was[right + 1])
  {
  }

  lemma GapLeft(was: seq<Box>, r: nat, right: int, x: Box)
    requires r <= right && right + 1 < |was|
    ensures Gap(was, r, right, x)[r] == was[r]
    ensures Gap(was, r, right, x)[r + 1 := was[r]] == Gap(was, r - 1, right, was[r])
  {
  }

  /** Filling the gap left by shifting exactly the greater boxes is an insertion. */
  lemma GapFill(was: seq<Box>, r: int, right: int, x: Box, box: Box)
    requires -1 <= r <= right && right + 1 < |was|
    requires r >= 0 ==> !Greater(Str(was[r].name), Str(box.name))
    requires AllGreater(was[r + 1..right + 1], box)
    ensures Gap(was, r, right, x)[r + 1 := box][..right + 2] == Insert(was[..right + 1], box)
    ensures Gap(was, r, right, x)[r + 1 := box][right + 2..] == was[right + 2..]
  {
    hide Insert, Greater, Str, AllGreater;
    Refill(was[..r + 1], x, was[r + 1..right + 1], was[right + 2..], box);
    InsertPlace(was[..r + 1], was[r + 1..right + 1], box);
    Rejoin(was, r + 1, right + 1);
  }

  lemma Refill<T>(a: seq<T>, x: T, b: seq<T>, c: seq<T>, y: T)
    ensures (a + [x] + b + c)[|a| := y][..|a| + 1 + |b|] == a + [y] + b
    ensures (a + [x] + b + c)[|a| := y][|a| + 1 + |b|..] == c
  {
  }

  lemma Rejoin<T>(s: seq<T>, i: nat, j: nat)
    requires i <= j <= |s|
    ensures s[..i] + s[i..j] == s[..j]
  {
  }

  lemma SplitLast<T>(a: seq<T>, b: seq<T>)
    requires b != []
    ensures (a + b)[..|a + b| - 1] == a + b[..|b| - 1]
    ensures forall x :: (a + [x] + b[..|b| - 1]) + [b[|b| - 1]] == a + [x] + b
  {
  }

  lemma {:induction false} InsertPlace(low: seq<Box>, high: seq<Box>, box: Box)
    requires low != [] ==> !Greater(Str(low[|low| - 1].name), Str(box.name))
    requires AllGreater(high, box)
    ensures Insert(low + high, box) == low + [box] + high
    decreases |high|
  {
    hide Greater, Str;
    if high == [] {
      assert low + high == low;
    } else {
      SplitLast(low, high);
      InsertPlace(low, high[..|high| - 1], box);
      assert (low + high)[|low + high| - 1] == high[|high| - 1];
    }
  }

  // ---- Receiving ----

  /** The boxes a stream makes the manager insert, and whether it reached the last packet. */
  datatype Received = Received(boxes: seq<Box>, ok: bool)

  /** A packet as the manager's reads fill its fields. */
  function Parse(packet: seq<byte>): Box
    requires |packet| == LIST_PACKET_LEN
  {
    Box(packet[2..34], Word(packet[34..42]), Word(packet[42..50]), Word(packet[50..58]))
  }

  function Word(b: seq<byte>): uint64
    requires |b| == 8
  {
    ValueBound(b);
    Value(b)
  }

  lemma {:induction false} ValueBelow(b: seq<byte>)
    ensures Value(b) < Bound(|b|)
    decreases |b|
  {
    if b != [] {
      ValueBelow(b[1..]);
    }
  }

  lemma ValueBound(b: seq<byte>)
    requires |b| == 8
    ensures Value(b) < 0x1_0000_0000_0000_0000
  {
    ValueBelow(b);
    assert Bound(4) == 0x1_0000_0000;
    assert Bound(8) == 0x1_0000_0000_0000_0000;
  }

  function Receive(stream: seq<byte>): Received
    decreases |stream|
  {
    if |stream| < LIST_PACKET_LEN || stream[0] != LIST_ANSWER then Received([], false)
    else
      var box := Parse(stream[..LIST_PACKET_LEN]);
      if stream[1] == 1 && box.name[0] == 0 then Received([], true)
      else if stream[1] != 0 then Received([box], true)
      else
        var rest := Receive(stream[LIST_PACKET_LEN..]);
        Received([box] + rest.boxes, rest.ok)
  }

  const MAX_BOXES: nat := 64

  /** The receive loop of manager_handle_box_listing over the bytes of the session pipe. */
  method ReceiveListing(stream: seq<byte>) returns (result: int, boxes: array<Box>, size: int)
    requires |Receive(stream).boxes| <= MAX_BOXES
    ensures fresh(boxes) && boxes.Length == MAX_BOXES
    ensures result == if Receive(stream).ok then 0 else -1
    ensures result == 0 ==> size + 1 == |Receive(stream).boxes|
    ensures result == 0 ==> boxes[..size + 1] == InsertAll(Receive(stream).boxes)
  {
    hide Insert, InsertAll, Parse, Receive, SoFar;
    Nothing(stream);
    boxes := new Box[MAX_BOXES](_ => Box(seq(32, _ => 0), 0, 0, 0));
    size := -1;
    var last: byte := 0;
    var pos := 0;
    ghost var got: seq<Box> := [];
    assert InsertAll([]) == [];
    while last == 0
      invariant -1 <= size < MAX_BOXES && 0 <= pos <= |stream|
      invariant size + 1 == |got| && boxes[..size + 1] == InsertAll(got)
      invariant last == 0 ==> SoFar(stream, pos, got)
      invariant last != 0 ==> Receive(stream) == Received(got, true)
      decreases if last == 0 then 1 else 0, |stream| - pos
    {
      Turn(stream, pos, got);
      if |stream| - pos < LIST_PACKET_LEN || stream[pos] != LIST_ANSWER {
        return -1, boxes, size;
      }
      var packet := stream[pos..pos + LIST_PACKET_LEN];
      last := packet[1];
      var box := Parse(packet);
      pos := pos + LIST_PACKET_LEN;
      if last == 1 && box.name[0] == 0 {
        break;
      }
      SortedInsert(boxes, size, box);
      InsertNext(got, box);
      got := got + [box];
      size := size + 1;
    }
    result := 0;
  }

  /** What the next packet adds to what is received. */
  lemma ReceiveNext(stream: seq<byte>)
    ensures |stream| < LIST_PACKET_LEN || stream[0] != LIST_ANSWER ==> Receive(stream) == Received([], false)
    ensures |stream| >= LIST_PACKET_LEN && stream[0] == LIST_ANSWER ==>
      var box := Parse(stream[..LIST_PACKET_LEN]);
      var rest := Receive(stream[LIST_PACKET_LEN..]);
      Receive(stream) ==
        if stream[1] == 1 && box.name[0] == 0 then Received([], true)
        else if stream[1] != 0 then Received([box], true)
        else Received([box] + rest.boxes, rest.ok)
  {
  }

  /** got was received from the first pos bytes and the rest is still to come. */
  ghost predicate SoFar(stream: seq<byte>, pos: nat, got: seq<Box>)
    requires pos <= |stream|
  {
    var rest := Receive(stream[pos..]);
    Receive(stream) == Received(got + rest.boxes, rest.ok)
  }

  /** What one turn of the receive loop does. */
  lemma Turn(stream: seq<byte>, pos: nat, got: seq<Box>)
    requires pos <= |stream| && SoFar(stream, pos, got)
    ensures |stream| - pos < LIST_PACKET_LEN || stream[pos] != LIST_ANSWER ==> !Receive(stream).ok
    ensures |stream| - pos >= LIST_PACKET_LEN && stream[pos] == LIST_ANSWER ==>
      var box := Parse(stream[pos..pos + LIST_PACKET_LEN]);
      if stream[pos + 1] == 1 && box.name[0] == 0 then Receive(stream) == Received(got, true)
      else
        && |got| < |Receive(stream).boxes|
        && if stream[pos + 1] != 0 then Receive(stream) == Received(got + [box], true)
           else SoFar(stream, pos + LIST_PACKET_LEN, got + [box])
  {
    hide Parse, Receive;
    ReceiveNext(stream[pos..]);
    if |stream| - pos >= LIST_PACKET_LEN {
      assert stream[pos..][..LIST_PACKET_LEN] == stream[pos..pos + LIST_PACKET_LEN];
      assert stream[pos..][LIST_PACKET_LEN..] == stream[pos + LIST_PACKET_LEN..];
    }
  }

  lemma Nothing(stream: seq<byte>)
    ensures SoFar(stream, 0, [])
  {
  }

  lemma InsertNext(got: seq<Box>, box: Box)
    ensures InsertAll(got + [box]) == Insert(InsertAll(got), box)
  {
  }

  // ---- End to end ----

  /** A box as the manager shows it: its name without the slash. */
  function Shown(b: Box): Box {
    b.(name := SentName(b))
  }

  function ShownAll(bs: seq<Box>): seq<Box> {
    seq(|bs|, i requires 0 <= i < |bs| => Shown(bs[i]))
  }

  lemma ParseReadsBack(last: byte, b: Box)
    ensures Parse(ListPacket(last, b)) == Shown(b)
  {
    hide Encode64;
    var packet := ListPacket(last, b);
    Read64(b.size);
    Read64(b.publishers);
    Read64(b.subscribers);
    assert packet[2..34] == SentName(b);
    assert packet[34..42] == Encode64(b.size);
    assert packet[42..50] == Encode64(b.publishers);
    assert packet[50..58] == Encode64(b.subscribers);
  }

  /** The low byte of the size that follows a name is never shown as part of it. */
  lemma ShownName(b: Box)
    requires BoxName(Str(b.name))
    ensures Str(b.name) == [SLASH] + Str(Shown(b).name)
  {
    var n := StrLen(b.name);
    var tail := Str(b.name)[1..];
    assert b.name[1..n] == tail && b.name[n] == 0;
    assert SentName(b) == tail + [0] + SentName(b)[n..];
    StrTerminated(tail, SentName(b)[n..]);
  }

  lemma {:induction false} ReceivesFrom(bs: seq<Box>, k: nat)
    requires k < |bs|
    ensures Receive(PacketsFrom(bs, k))
         == Received(ShownAll(if bs[|bs| - 1].name[1] == 0 then bs[k..|bs| - 1] else bs[k..]), true)
    decreases |bs| - k
  {
    hide Parse, SentName, ListPacket, Receive;
    var last := if k + 1 == |bs| then 1 else 0;
    var packet := ListPacket(last, bs[k]);
    var stream := PacketsFrom(bs, k);
    PacketHead(last, bs[k]);
    ParseReadsBack(last, bs[k]);
    assert stream[..LIST_PACKET_LEN] == packet;
    assert stream[LIST_PACKET_LEN..] == PacketsFrom(bs, k + 1);
    ReceiveNext(stream);
    if k + 1 < |bs| {
      ReceivesFrom(bs, k + 1);
    }
  }

  lemma PacketHead(last: byte, b: Box)
    ensures ListPacket(last, b)[0] == LIST_ANSWER && ListPacket(last, b)[1] == last
    ensures Shown(b).name[0] == b.name[1]
  {
  }

  /**
   The manager receives exactly the boxes in use, unless the last one has nothing after its
   first character: that one reads as the packet that says there are none.
   */
  lemma ListingIsExact(bs: seq<Box>)
    ensures Receive(Announce(bs)).ok
    ensures Receive(Announce(bs)).boxes == ShownAll(bs) <==> (bs == [] || bs[|bs| - 1].name[1] != 0)
  {
    hide Parse;
    if bs == [] {
      assert Announce(bs)[..LIST_PACKET_LEN] == NoBoxesPacket();
      ParseNoBoxes();
    } else {
      ReceivesFrom(bs, 0);
      assert bs[0..] == bs;
    }
  }

  lemma ParseNoBoxes()
    ensures Parse(NoBoxesPacket()).name[0] == 0
  {
  }

  /** Every listing of a table the manager can hold ends up as its boxes, sorted by name. */
  lemma ListingEndToEnd(bs: seq<Box>)
    requires forall i :: 0 <= i < |bs| ==> BoxName(Str(bs[i].name))
    ensures var got := Receive(Announce(bs));
      && got.ok && got.boxes == ShownAll(bs)
      && InByteOrder(InsertAll(got.boxes)) && multiset(InsertAll(got.boxes)) == multiset(ShownAll(bs))
    ensures forall i :: 0 <= i < |bs| ==> Str(bs[i].name) == [SLASH] + Str(ShownAll(bs)[i].name)
  {
    hide Receive, Announce, Sorted, SentName, InsertAll;
    ListingIsExact(bs);
    InsertAllSorts(Receive(Announce(bs)).boxes);
    SortedIff(InsertAll(Receive(Announce(bs)).boxes));
    hide InByteOrder;
    forall i | 0 <= i < |bs|
      ensures Str(bs[i].name) == [SLASH] + Str(ShownAll(bs)[i].name)
    {
      ShownName(bs[i]);
    }
  }

  /** A whole listing: the table's packets, received and sorted by the manager. */
  method ListBoxes(table: Table) returns (boxes: array<Box>, size: int)
    requires table.Valid() && table.boxes.Length <= 64
    ensures 0 <= size + 1 <= boxes.Length == 64
    ensures InByteOrder(boxes[..size + 1])
    ensures multiset(boxes[..size + 1]) == multiset(ShownAll(table.InUse()))
  {
    var sent := table.List();
    ghost var live := table.InUse();
    forall i | 0 <= i < |live|
      ensures BoxName(Str(live[i].name))
    {
      LiveIff(table.boxes[..], table.taken[..], live[i]);
    }
    ListingEndToEnd(live);
    var result;
    result, boxes, size := ReceiveListing(sent);
    SortedIff(boxes[..size + 1]);
  }
}
