/**
 Packets of the register pipe: how a client fills one through a moving offset, and how the
 broker splits the bytes of all clients back into requests. A list request is shorter than
 the others, so where a packet ends depends on its first byte.
 */
module Protocol {
  import opened Bytes

  const PIPE_NAME_LEN: nat := 256
  const BOX_NAME_LEN: nat := 32
  const MESSAGE_LEN: nat := 1024

  const PUB_REGISTER: byte := 1
  const SUB_REGISTER: byte := 2
  const CREATE_REQUEST: byte := 3
  const REMOVE_REQUEST: byte := 5
  const LIST_REQUEST: byte := 7
  const LIST_ANSWER: byte := 8

  const SLASH: byte := 47

  predicate Known(code: byte) {
    code == PUB_REGISTER || code == SUB_REGISTER || code == CREATE_REQUEST || code == REMOVE_REQUEST || code == LIST_REQUEST
  }

  /** box is None exactly in list requests. */
  datatype Request = Request(code: byte, pipe: CString, box: Option<CString>)

  /** What clients send: a registration code, a session pipe and, except to list, a box. */
  predicate Sendable(r: Request) {
    && Known(r.code) && |r.pipe| < PIPE_NAME_LEN
    && (r.box.None? <==> r.code == LIST_REQUEST)
    && (r.box.Some? ==> |r.box.value| + 1 < BOX_NAME_LEN)
  }

  /** The same request as the broker keeps it. */
  function Rooted(r: Request): Request {
    if r.box.Some? then r.(box := Some([SLASH] + r.box.value)) else r
  }

  /** A string in a zeroed field. */
  function Field(s: CString, n: nat): (f: seq<byte>)
    requires |s| <= n
    ensures |f| == n
  {
    s + Zeros(n - |s|)
  }

  function Encode(r: Request): seq<byte>
    requires Sendable(r)
  {
    [r.code] + Field(r.pipe, PIPE_NAME_LEN) + if r.box.Some? then Field(r.box.value, BOX_NAME_LEN) else []
  }

  function EncodeAll(rs: seq<Request>): seq<byte>
    requires forall r :: r in rs ==> Sendable(r)
  {
    if rs == [] then [] else Encode(rs[0]) + EncodeAll(rs[1..])
  }

  function RootedAll(rs: seq<Request>): seq<Request> {
    seq(|rs|, i requires 0 <= i < |rs| => Rooted(rs[i]))
  }

  // ---- The broker's side ----

  /** How the listener loop ends: at the end of the bytes, at a short packet, or where the C code is undefined. */
  datatype End =
    | AllRead
    | Short
    | Spins       // an unknown code is compared again and again without reading on
    | Overruns    // a field without a terminator, or a box name too long for its slash

  datatype Decoded = Decoded(requests: seq<Request>, end: End)

  function PacketLen(code: byte): (n: nat)
    ensures n > 0
  {
    1 + PIPE_NAME_LEN + if code == LIST_REQUEST then 0 else BOX_NAME_LEN
  }

  /** The fields of a packet fit the request they are copied to. */
  predicate Fits(packet: seq<byte>)
    requires |packet| > 0 && |packet| == PacketLen(packet[0])
  {
    && StrLen(packet[1..257]) < PIPE_NAME_LEN
    && (packet[0] != LIST_REQUEST ==> StrLen(packet[257..289]) + 1 < BOX_NAME_LEN)
  }

  function DecodeOne(packet: seq<byte>): Request
    requires |packet| > 0 && |packet| == PacketLen(packet[0])
  {
    Request(packet[0], Str(packet[1..257]),
            if packet[0] == LIST_REQUEST then None else Some([SLASH] + Str(packet[257..289])))
  }

  function Decode(stream: seq<byte>): Decoded
    decreases |stream|
  {
    if stream == [] then Decoded([], AllRead)
    else if !Known(stream[0]) then Decoded([], Spins)
    else if |stream| < PacketLen(stream[0]) then Decoded([], Short)
    else
      var packet := stream[..PacketLen(stream[0])];
      if !Fits(packet) then Decoded([], Overruns)
      else
        var rest := Decode(stream[PacketLen(stream[0])..]);
        Decoded([DecodeOne(packet)] + rest.requests, rest.end)
  }

  // ---- Round trip ----

  lemma FieldReadsBack(s: CString, n: nat)
    requires |s| < n
    ensures Str(Field(s, n)) == s && StrLen(Field(s, n)) == |s|
  {
    assert Field(s, n) == s + [0] + Zeros(n - |s| - 1);
    StrTerminated(s, Zeros(n - |s| - 1));
  }

  /** Where the fields of a packet are. */
  lemma PacketLayout(r: Request)
    requires Sendable(r)
    ensures |Encode(r)| == PacketLen(r.code) && Encode(r)[0] == r.code
    ensures Encode(r)[1..257] == Field(r.pipe, PIPE_NAME_LEN)
    ensures r.box.Some? ==> Encode(r)[257..289] == Field(r.box.value, BOX_NAME_LEN)
  {
  }

  lemma PacketReadsBack(r: Request)
    requires Sendable(r)
    ensures |Encode(r)| == PacketLen(r.code) && Encode(r)[0] == r.code
    ensures Fits(Encode(r)) && DecodeOne(Encode(r)) == Rooted(r)
  {
    hide Encode, Field, Str;
    PacketLayout(r);
    FieldReadsBack(r.pipe, PIPE_NAME_LEN);
    if r.box.Some? {
      FieldReadsBack(r.box.value, BOX_NAME_LEN);
    }
  }

  /** One packet is split off exactly, whatever bytes follow it. */
  lemma SplitsOff(r: Request, tail: seq<byte>)
    requires Sendable(r)
    ensures Decode(Encode(r) + tail) == Decoded([Rooted(r)] + Decode(tail).requests, Decode(tail).end)
  {
    PacketReadsBack(r);
    var stream := Encode(r) + tail;
    assert stream[..PacketLen(r.code)] == Encode(r);
    assert stream[PacketLen(r.code)..] == tail;
  }

  lemma NoneRooted()
    ensures RootedAll([]) == []
  {
  }

  lemma RootedFirst(rs: seq<Request>, rest: seq<Request>)
    requires rs != []
    ensures [Rooted(rs[0])] + (RootedAll(rs[1..]) + rest) == RootedAll(rs) + rest
  {
  }

  lemma {:induction false} RoundTripThen(rs: seq<Request>, tail: seq<byte>)
    requires forall r :: r in rs ==> Sendable(r)
    ensures Decode(EncodeAll(rs) + tail) == Decoded(RootedAll(rs) + Decode(tail).requests, Decode(tail).end)
    decreases |rs|
  {
    hide Decode, Encode, RootedAll, Rooted;
    if rs == [] {
      assert EncodeAll(rs) + tail == tail;
      NoneRooted();
    } else {
      RoundTripThen(rs[1..], tail);
      SplitsOff(rs[0], EncodeAll(rs[1..]) + tail);
      Concat(Encode(rs[0]), EncodeAll(rs[1..]), tail);
      RootedFirst(rs, Decode(tail).requests);
    }
  }

  lemma Concat(a: seq<byte>, b: seq<byte>, c: seq<byte>)
    ensures (a + b) + c == a + (b + c)
  {
  }

  /** Whatever requests clients send, the broker reads the same list, each box with a slash before it. */
  lemma RoundTrip(rs: seq<Request>)
    requires forall r :: r in rs ==> Sendable(r)
    ensures Decode(EncodeAll(rs)) == Decoded(RootedAll(rs), AllRead)
  {
    hide Encode, Rooted, EncodeAll;
    RoundTripThen(rs, []);
    assert EncodeAll(rs) + [] == EncodeAll(rs);
  }

  /** A request as its numbers: one of five codes, a pipe of fewer than 256 bytes, a box of at most 30 unless listing. */
  predicate InNumbers(r: Request) {
    && (r.code == 1 || r.code == 2 || r.code == 3 || r.code == 5 || r.code == 7)
    && |r.pipe| < 256
    && match r.box
       case None => r.code == 7
       case Some(box) => r.code != 7 && |box| <= 30
  }

  /** The round trip for these numbers: publishers 1, subscribers 2, create 3, remove 5 and list 7. */
  lemma RoundTripInNumbers(rs: seq<Request>)
    requires forall r :: r in rs ==> InNumbers(r)
    ensures forall r :: r in rs ==> Sendable(r)
    ensures Decode(EncodeAll(rs)) == Decoded(RootedAll(rs), AllRead)
    ensures forall i :: 0 <= i < |rs| ==>
      RootedAll(rs)[i] == if rs[i].box.None? then rs[i] else rs[i].(box := Some([47] + rs[i].box.value))
  {
    forall r | r in rs
      ensures Sendable(r)
    {
      SendableIff(r);
    }
    hide Decode, EncodeAll, Sendable, InNumbers;
    RoundTrip(rs);
  }

  /** Nothing else can be sent. */
  lemma SendableIff(r: Request)
    ensures Sendable(r) <==> InNumbers(r)
  {
  }

  /** Distinct lists of requests have distinct encodings. */
  lemma EncodingInjective(rs: seq<Request>, qs: seq<Request>)
    requires forall r :: r in rs ==> Sendable(r)
    requires forall q :: q in qs ==> Sendable(q)
    requires EncodeAll(rs) == EncodeAll(qs)
    ensures rs == qs
  {
    hide Decode, EncodeAll, Sendable, Rooted;
    RoundTrip(rs);
    RoundTrip(qs);
    assert |rs| == |RootedAll(rs)| == |RootedAll(qs)| == |qs|;
    forall i | 0 <= i < |rs|
      ensures rs[i] == qs[i]
    {
      assert RootedAll(rs)[i] == Rooted(rs[i]) && RootedAll(qs)[i] == Rooted(qs[i]);
      RootedInjective(rs[i], qs[i]);
    }
  }

  lemma RootedInjective(r: Request, q: Request)
    requires Sendable(r) && Sendable(q) && Rooted(r) == Rooted(q)
    ensures r == q
  {
    if r.box.Some? {
      assert r.box.value == ([SLASH] + r.box.value)[1..];
      assert q.box.value == ([SLASH] + q.box.value)[1..];
    }
  }

  // ---- The code ----

  /** packet_write: copies data into the packet at the offset and moves the offset past it. */
  method PacketWrite(packet: array<byte>, offset: nat, data: seq<byte>) returns (next: nat)
    requires offset + |data| <= packet.Length
    modifies packet
    ensures next == offset + |data|
    ensures packet[..] == Splice(old(packet[..]), offset, data)
  {
    forall i | 0 <= i < |data| {
      packet[offset + i] := data[i];
    }
    next := offset + |data|;
  }

  /** Writing at the end of what is filled leaves the rest of a zeroed packet zero. */
  lemma Fills(filled: seq<byte>, room: nat, data: seq<byte>)
    requires |data| <= room
    ensures Splice(filled + Zeros(room), |filled|, data) == filled + data + Zeros(room - |data|)
  {
  }

  /**
   The packet client_request_connection builds; session is the client's whole 256-byte buffer
   and box is NULL exactly when listing.
   */
  method RequestPacket(code: byte, session: seq<byte>, box: Option<CString>) returns (packet: array<byte>)
    requires |session| == PIPE_NAME_LEN
    requires box.Some? ==> |box.value| <= BOX_NAME_LEN
    ensures fresh(packet)
    ensures packet[..] == [code] + session + if box.Some? then Field(box.value, BOX_NAME_LEN) else []
    ensures forall r :: Sendable(r) && r.code == code && r.box == box && session == Field(r.pipe, PIPE_NAME_LEN)
                     ==> packet[..] == Encode(r)
  {
    var len := 1 + PIPE_NAME_LEN + if box.Some? then BOX_NAME_LEN else 0;
    packet := new byte[len](_ => 0);
    assert packet[..] == [] + Zeros(len);
    var offset := PacketWrite(packet, 0, [code]);
    Fills([], len, [code]);
    offset := PacketWrite(packet, offset, session);
    Fills([] + [code], len - 1, session);
    if box.Some? {
      offset := PacketWrite(packet, offset, box.value);
      Fills([] + [code] + session, BOX_NAME_LEN, box.value);
    }
  }

  lemma PacketFields(stream: seq<byte>)
    requires stream != [] && |stream| >= PacketLen(stream[0])
    ensures var box := if stream[0] == LIST_REQUEST then None else Some([SLASH] + Str(stream[257..289]));
      DecodeOne(stream[..PacketLen(stream[0])]) == Request(stream[0], Str(stream[1..257]), box)
  {
    var packet := stream[..PacketLen(stream[0])];
    assert packet[1..257] == stream[1..257];
    assert stream[0] != LIST_REQUEST ==> packet[257..289] == stream[257..289];
  }

  lemma NothingLeft()
    ensures Decode([]) == Decoded([], AllRead)
  {
  }

  /** What the next packet of a well-behaved stream is, field by field. */
  lemma NextPacket(stream: seq<byte>)
    requires stream != [] && Decode(stream).end != Spins && Decode(stream).end != Overruns
    ensures |stream| < PacketLen(stream[0]) ==> Decode(stream) == Decoded([], Short)
    ensures |stream| >= PacketLen(stream[0]) ==>
      var box := if stream[0] == LIST_REQUEST then None else Some([SLASH] + Str(stream[257..289]));
      var rest := Decode(stream[PacketLen(stream[0])..]);
      Decode(stream) == Decoded([Request(stream[0], Str(stream[1..257]), box)] + rest.requests, rest.end)
  {
    hide DecodeOne, Fits, Str, PacketLen;
    if |stream| >= PacketLen(stream[0]) {
      PacketFields(stream);
    }
  }

  /** The listener loop of main with mbroker_receive_connection, over the bytes of the register pipe. */
  method Listen(stream: seq<byte>) returns (queued: seq<Request>, ok: bool)
    requires Decode(stream).end != Spins && Decode(stream).end != Overruns
    ensures queued == Decode(stream).requests
    ensures ok <==> Decode(stream).end == AllRead
  {
    hide Decode, Str;
    NothingLeft();
    var pos := 0;
    queued, ok := [], true;
    assert stream[0..] == stream;
    while pos < |stream|
      invariant 0 <= pos <= |stream| && ok
      invariant Decode(stream).requests == queued + Decode(stream[pos..]).requests
      invariant Decode(stream).end == Decode(stream[pos..]).end
    {
      ghost var rest := stream[pos..];
      NextPacket(rest);
      var code := stream[pos];
      pos := pos + 1;
      if pos + PIPE_NAME_LEN > |stream| {
        return queued, false;
      }
      var pipe := stream[pos..pos + PIPE_NAME_LEN];
      pos := pos + PIPE_NAME_LEN;
      assert pipe == rest[1..257];
      var request := Request(code, Str(pipe), None);
      if code != LIST_REQUEST {
        if pos + BOX_NAME_LEN > |stream| {
          return queued, false;
        }
        var box := stream[pos..pos + BOX_NAME_LEN];
        pos := pos + BOX_NAME_LEN;
        assert box == rest[257..289];
        request := request.(box := Some([SLASH] + Str(box)));
      }
      queued := queued + [request];
      assert rest[PacketLen(code)..] == stream[pos..];
    }
    assert stream[pos..] == [];
  }
}
