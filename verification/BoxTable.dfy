/**
 The broker's table of boxes and the listing it sends. The table is a pair of parallel arrays
 with a separate counter, and the listing loop relies on the counter to tell the last packet.
 */
module BoxTable {
  import opened Bytes
  import opened Protocol
  import FsTables

  type uint64 = x: int | 0 <= x < 0x1_0000_0000_0000_0000

  /** A name in a field of 32 bytes. */
  type NameField = f: seq<byte> | |f| == 32 witness seq(32, _ => 0)

  datatype Box = Box(name: NameField, size: uint64, publishers: uint64, subscribers: uint64)

  /** A path that the file system accepts and the name field can hold. */
  predicate BoxName(name: CString) {
    1 < |name| < BOX_NAME_LEN && name[0] == SLASH
  }

  // ---- Tables as values ----

  /** The boxes in use, in slot order. */
  function Live(boxes: seq<Box>, taken: seq<bool>): (live: seq<Box>)
    requires |boxes| == |taken|
    ensures |live| <= |boxes|
  {
    if boxes == [] then [] else (if taken[0] then [boxes[0]] else []) + Live(boxes[1..], taken[1..])
  }

  /** The first slot in use by a box of this name; -1 if there is none. */
  function Locate(boxes: seq<Box>, taken: seq<bool>, name: CString): (r: int)
    requires |boxes| == |taken|
    ensures -1 <= r < |boxes|
    ensures r >= 0 ==> taken[r] && Str(boxes[r].name) == name
    ensures forall j :: 0 <= j < (if r >= 0 then r else |boxes|) && taken[j] ==> Str(boxes[j].name) != name
  {
    if boxes == [] then -1
    else if taken[0] && Str(boxes[0].name) == name then 0
    else
      var r := Locate(boxes[1..], taken[1..], name);
      if r < 0 then -1 else r + 1
  }

  lemma {:induction false} LiveSplit(boxes: seq<Box>, taken: seq<bool>, i: nat)
    requires |boxes| == |taken| && i <= |boxes|
    ensures Live(boxes, taken) == Live(boxes[..i], taken[..i]) + Live(boxes[i..], taken[i..])
    decreases i
  {
    if i == 0 {
      assert boxes[0..] == boxes && taken[0..] == taken;
    } else {
      LiveSplit(boxes[1..], taken[1..], i - 1);
      assert boxes[1..][..i - 1] == boxes[..i][1..] && taken[1..][..i - 1] == taken[..i][1..];
      assert boxes[1..][i - 1..] == boxes[i..] && taken[1..][i - 1..] == taken[i..];
    }
  }

  /** One slot's share of the boxes in use. */
  lemma LiveAt(boxes: seq<Box>, taken: seq<bool>, i: nat)
    requires |boxes| == |taken| && i < |boxes|
    ensures Live(boxes, taken)
         == Live(boxes[..i], taken[..i]) + (if taken[i] then [boxes[i]] else []) + Live(boxes[i + 1..], taken[i + 1..])
  {
    LiveSplit(boxes, taken, i);
    assert boxes[i..][1..] == boxes[i + 1..] && taken[i..][1..] == taken[i + 1..];
  }

  /** Taking a free slot adds its box to those in use and nothing else. */
  lemma LiveTake(boxes: seq<Box>, taken: seq<bool>, i: nat, b: Box)
    requires |boxes| == |taken| && i < |boxes| && !taken[i]
    ensures multiset(Live(boxes[i := b], taken[i := true])) == multiset(Live(boxes, taken)) + multiset{b}
    ensures |Live(boxes[i := b], taken[i := true])| == |Live(boxes, taken)| + 1
  {
    hide Live;
    LiveAt(boxes, taken, i);
    LiveAt(boxes[i := b], taken[i := true], i);
    assert boxes[i := b][..i] == boxes[..i] && taken[i := true][..i] == taken[..i];
    assert boxes[i := b][i + 1..] == boxes[i + 1..] && taken[i := true][i + 1..] == taken[i + 1..];
  }

  /** Freeing a slot removes its box from those in use and nothing else. */
  lemma LiveFree(boxes: seq<Box>, taken: seq<bool>, i: nat)
    requires |boxes| == |taken| && i < |boxes| && taken[i]
    ensures multiset(Live(boxes, taken)) == multiset(Live(boxes, taken[i := false])) + multiset{boxes[i]}
    ensures |Live(boxes, taken[i := false])| == |Live(boxes, taken)| - 1
  {
    LiveTake(boxes, taken[i := false], i, boxes[i]);
    assert boxes[i := boxes[i]] == boxes;
    assert taken[i := false][i := true] == taken;
  }

  lemma {:induction false} LiveIff(boxes: seq<Box>, taken: seq<bool>, b: Box)
    requires |boxes| == |taken|
    ensures b in Live(boxes, taken) <==> exists i :: 0 <= i < |boxes| && taken[i] && boxes[i] == b
    decreases |boxes|
  {
    if boxes != [] {
      LiveIff(boxes[1..], taken[1..], b);
      if i :| 0 <= i < |boxes| && taken[i] && boxes[i] == b && i > 0 {
        assert boxes[1..][i - 1] == b && taken[1..][i - 1];
      }
    }
  }

  /** A table without boxes in use, and one whose every slot is in use. */
  lemma {:induction false} LiveBounds(boxes: seq<Box>, taken: seq<bool>)
    requires |boxes| == |taken|
    ensures Live(boxes, taken) == [] <==> forall i :: 0 <= i < |taken| ==> !taken[i]
    ensures |Live(boxes, taken)| == |boxes| <==> forall i :: 0 <= i < |taken| ==> taken[i]
    decreases |boxes|
  {
    if boxes != [] {
      LiveBounds(boxes[1..], taken[1..]);
      assert forall i :: 0 <= i < |taken| - 1 ==> taken[1..][i] == taken[i + 1];
      assert forall i :: 0 < i < |taken| ==> taken[i] == taken[1..][i - 1];
    }
  }

  // ---- Listing packets ----

  /** The n low bytes of a number, lowest first. */
  function LittleEndian(x: nat, n: nat): (b: seq<byte>)
    ensures |b| == n
  {
    if n == 0 then [] else [x % 256] + LittleEndian(x / 256, n - 1)
  }

  function Value(b: seq<byte>): nat {
    if b == [] then 0 else b[0] + 256 * Value(b[1..])
  }

  function Bound(n: nat): nat {
    if n == 0 then 1 else 256 * Bound(n - 1)
  }

  lemma {:induction false} ValueReadsBack(x: nat, n: nat)
    requires x < Bound(n)
    ensures Value(LittleEndian(x, n)) == x
    decreases n
  {
    if n > 0 {
      ValueReadsBack(x / 256, n - 1);
      assert LittleEndian(x, n)[1..] == LittleEndian(x / 256, n - 1);
    }
  }

  function Encode64(x: uint64): (b: seq<byte>)
    ensures |b| == 8
  {
    LittleEndian(x, 8)
  }

  lemma Read64(x: uint64)
    ensures Value(Encode64(x)) == x
  {
    assert Bound(4) == 0x1_0000_0000;
    assert Bound(8) == 0x1_0000_0000_0000_0000;
    ValueReadsBack(x, 8);
  }

  const LIST_PACKET_LEN: nat := 58

  /** What the 32 bytes from the second of the name on hold: the last is the low byte of the size. */
  function SentName(b: Box): NameField {
    b.name[1..] + [Encode64(b.size)[0]]
  }

  function ListPacket(last: byte, b: Box): (packet: seq<byte>)
    ensures |packet| == LIST_PACKET_LEN
  {
    [LIST_ANSWER, last] + SentName(b) + Encode64(b.size) + Encode64(b.publishers) + Encode64(b.subscribers)
  }

  function NoBoxesPacket(): (packet: seq<byte>)
    ensures |packet| == LIST_PACKET_LEN
  {
    [LIST_ANSWER, 1] + Zeros(56)
  }

  /** The packets of bs from position k on; only the final one is marked as last. */
  function PacketsFrom(bs: seq<Box>, k: nat): seq<byte>
    requires k <= |bs|
    decreases |bs| - k
  {
    if k == |bs| then []
    else ListPacket(if k + 1 == |bs| then 1 else 0, bs[k]) + PacketsFrom(bs, k + 1)
  }

  /** What a listing sends. */
  function Announce(bs: seq<Box>): seq<byte> {
    if bs == [] then NoBoxesPacket() else PacketsFrom(bs, 0)
  }

  /** A listing is 58 bytes for each box, at least once; each packet starts with code 8 and says whether it is the last. */
  lemma AnnounceLayout(bs: seq<Box>)
    ensures |Announce(bs)| == 58 * (if bs == [] then 1 else |bs|)
    ensures bs == [] ==> Announce(bs)[0] == 8 && Announce(bs)[1] == 1
    ensures forall k :: 0 <= k < |bs| ==>
      Announce(bs)[58 * k] == 8 && Announce(bs)[58 * k + 1] == if k == |bs| - 1 then 1 else 0
  {
    if bs != [] {
      PacketAt(bs, 0, 0);
      forall k | 0 <= k < |bs|
        ensures Announce(bs)[58 * k] == 8 && Announce(bs)[58 * k + 1] == if k == |bs| - 1 then 1 else 0
      {
        PacketAt(bs, 0, k);
      }
    }
  }

  lemma PacketStart(last: byte, b: Box)
    ensures ListPacket(last, b)[0] == 8 && ListPacket(last, b)[1] == last
  {
  }

  lemma {:induction false} PacketAt(bs: seq<Box>, from: nat, k: nat)
    requires from <= k < |bs|
    ensures var stream := PacketsFrom(bs, from);
      && |stream| == 58 * (|bs| - from)
      && stream[58 * (k - from)] == 8 && stream[58 * (k - from) + 1] == if k == |bs| - 1 then 1 else 0
    decreases |bs| - from
  {
    PacketStart(if from + 1 == |bs| then 1 else 0, bs[from]);
    hide ListPacket;
    if from < k {
      PacketAt(bs, from + 1, k);
    } else if k + 1 < |bs| {
      PacketAt(bs, k + 1, k + 1);
    }
  }

  // ---- The table ----

  class Table {
    const boxes: array<Box>
    const taken: array<bool>
    var count: int

    ghost predicate Valid()
      reads this, boxes, taken
    {
      && boxes.Length == taken.Length > 0
      && count == |Live(boxes[..], taken[..])|
      && forall i :: 0 <= i < boxes.Length && taken[i] ==> BoxName(Str(boxes[i].name))
    }

    /** The boxes in use, in slot order. */
    ghost function InUse(): seq<Box>
      requires boxes.Length == taken.Length
      reads boxes, taken
    {
      Live(boxes[..], taken[..])
    }

    /** The box part of mbroker_init; the memory of new boxes is taken to be zero. */
    constructor (slots: nat)
      requires slots > 0
      ensures Valid() && fresh(boxes) && fresh(taken) && boxes.Length == slots && InUse() == []
    {
      boxes := new Box[slots](_ => Box(seq(32, _ => 0), 0, 0, 0));
      taken := new bool[slots](_ => false);
      count := 0;
      new;
      LiveBounds(boxes[..], taken[..]);
    }

    /** box_create: the first free slot; the number of publishers is not reset. */
    method Create(name: CString) returns (result: int)
      requires Valid() && BoxName(name)
      modifies this, boxes, taken
      ensures Valid()
      ensures result == (if old(|InUse()| == boxes.Length) then -1 else 0)
      ensures result == -1 ==> boxes[..] == old(boxes[..]) && taken[..] == old(taken[..])
      ensures result == 0 ==>
        var i := FsTables.FirstFree(old(taken[..]));
        && 0 <= i < boxes.Length
        && boxes[..] == old(boxes[..])[i := Box(Field(name, BOX_NAME_LEN), 0, old(boxes[..])[i].publishers, 0)]
        && taken[..] == old(taken[..])[i := true]
        && multiset(InUse()) == old(multiset(InUse())) + multiset{boxes[i]}
    {
      hide Str, Live, FsTables.FirstFree;
      ghost var bs, ts := boxes[..], taken[..];
      LiveBounds(bs, ts);
      for i := 0 to boxes.Length
        invariant boxes[..] == bs && taken[..] == ts && count == |Live(bs, ts)|
        invariant forall j :: 0 <= j < i ==> taken[j]
      {
        if !taken[i] {
          taken[i] := true;
          count := count + 1;
          var b := Box(Field(name, BOX_NAME_LEN), 0, boxes[i].publishers, 0);
          boxes[i] := b;
          FieldReadsBack(name, BOX_NAME_LEN);
          LiveTake(bs, ts, i, b);
          assert boxes[..] == bs[i := b] && taken[..] == ts[i := true];
          return 0;
        }
      }
      return -1;
    }

    /** box_delete: the first box of that name. */
    method Delete(name: CString) returns (result: int)
      requires Valid()
      modifies this, taken
      ensures Valid()
      ensures result == (if Locate(boxes[..], old(taken[..]), name) == -1 then -1 else 0)
      ensures result == -1 ==> taken[..] == old(taken[..])
      ensures result == 0 ==>
        var i := Locate(boxes[..], old(taken[..]), name);
        && taken[..] == old(taken[..])[i := false]
        && old(multiset(InUse())) == multiset(InUse()) + multiset{boxes[i]}
    {
      hide Live, Locate;
      ghost var ts := taken[..];
      for i := 0 to boxes.Length
        invariant taken[..] == ts && count == |Live(boxes[..], ts)|
        invariant forall j :: 0 <= j < i && taken[j] ==> Str(boxes[j].name) != name
      {
        if taken[i] && Str(boxes[i].name) == name {
          taken[i] := false;
          count := count - 1;
          LiveFree(boxes[..], ts, i);
          assert taken[..] == ts[i := false];
          return 0;
        }
      }
      return -1;
    }

    /** box_find */
    method Find(name: CString) returns (result: int)
      requires Valid()
      ensures result == Locate(boxes[..], taken[..], name)
    {
      hide Live, Locate;
      for i := 0 to boxes.Length
        invariant forall j :: 0 <= j < i && taken[j] ==> Str(boxes[j].name) != name
      {
        if taken[i] && Str(boxes[i].name) == name {
          return i;
        }
      }
      return -1;
    }

    /** One listing packet, filled through a moving offset. */
    method FillPacket(last: byte, i: nat) returns (packet: array<byte>)
      requires i < boxes.Length
      ensures fresh(packet)
      ensures packet[..] == if count > 0 then ListPacket(last, boxes[i]) else [LIST_ANSWER, last] + Zeros(56)
    {
      hide Encode64;
      packet := new byte[LIST_PACKET_LEN](_ => 0);
      assert packet[..] == [] + Zeros(LIST_PACKET_LEN);
      var offset := PacketWrite(packet, 0, [LIST_ANSWER]);
      Fills([], LIST_PACKET_LEN, [LIST_ANSWER]);
      offset := PacketWrite(packet, offset, [last]);
      Fills([] + [LIST_ANSWER], 57, [last]);
      if count > 0 {
        var b := boxes[i];
        ghost var filled := [] + [LIST_ANSWER] + [last];
        offset := PacketWrite(packet, offset, SentName(b));
        Fills(filled, 56, SentName(b));
        filled := filled + SentName(b);
        offset := PacketWrite(packet, offset, Encode64(b.size));
        Fills(filled, 24, Encode64(b.size));
        filled := filled + Encode64(b.size);
        offset := PacketWrite(packet, offset, Encode64(b.publishers));
        Fills(filled, 16, Encode64(b.publishers));
        filled := filled + Encode64(b.publishers);
        offset := PacketWrite(packet, offset, Encode64(b.subscribers));
        Fills(filled, 8, Encode64(b.subscribers));
      }
    }

    /** The loop of workers_handle_manager_listing: exactly one packet per box, or one saying there are none. */
    method List() returns (sent: seq<byte>)
      requires Valid()
      ensures sent == Announce(InUse())
    {
      hide Live, Str, ListPacket, PacketsFrom;
      SendsAll(InUse());
      ghost var live := InUse();
      LiveBounds(boxes[..], taken[..]);
      LiveBounds(boxes[..0], taken[..0]);
      sent := [];
      var i, listed := 0, 0;
      var last: byte := 0;
      while listed <= count && i < boxes.Length
        invariant 0 <= i <= boxes.Length && 0 <= listed
        invariant count > 0 ==> listed == |Live(boxes[..i], taken[..i])| <= count
        invariant count > 0 ==> last == if listed == count then 1 else 0
        invariant count > 0 ==> sent + PacketsFrom(live, listed) == PacketsFrom(live, 0)
        invariant count == 0 ==> i == listed <= 1 && sent == if listed == 0 then [] else NoBoxesPacket()
      {
        LiveStep(boxes[..], taken[..], i);
        if count > 0 && !taken[i] {
          i := i + 1;
        } else {
          if count == 0 || listed + 1 == count {
            last := 1;
          }
          var packet := FillPacket(last, i);
          if count > 0 {
            SendsNext(sent, live, listed);
          }
          sent := sent + packet[..];
          listed := listed + 1;
          i := i + 1;
        }
      }
      if count > 0 {
        assert boxes[..i] == boxes[..] && taken[..i] == taken[..];
      }
    }
  }

  lemma SendsNext(sent: seq<byte>, bs: seq<Box>, k: nat)
    requires k < |bs|
    ensures sent + PacketsFrom(bs, k)
         == (sent + ListPacket(if k + 1 == |bs| then 1 else 0, bs[k])) + PacketsFrom(bs, k + 1)
  {
  }

  lemma SendsAll(bs: seq<Box>)
    ensures PacketsFrom(bs, |bs|) == []
  {
  }

  /** The listing loop's next slot, if in use, holds the next box of the listing. */
  lemma LiveStep(boxes: seq<Box>, taken: seq<bool>, i: nat)
    requires |boxes| == |taken| && i < |boxes|
    ensures var k := |Live(boxes[..i], taken[..i])|;
      if taken[i] then
        && k < |Live(boxes, taken)| && Live(boxes, taken)[k] == boxes[i]
        && |Live(boxes[..i + 1], taken[..i + 1])| == k + 1
      else
        k <= |Live(boxes, taken)| && |Live(boxes[..i + 1], taken[..i + 1])| == k
  {
    LiveAt(boxes, taken, i);
    LiveAt(boxes[..i + 1], taken[..i + 1], i);
    assert boxes[..i + 1][..i] == boxes[..i] && taken[..i + 1][..i] == taken[..i];
    assert boxes[..i + 1][i + 1..] == [] && taken[..i + 1][i + 1..] == [];
  }
}
