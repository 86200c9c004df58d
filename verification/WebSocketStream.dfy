/** Message delivery over a byte stream that arrives in arbitrary pieces. */
module WebSocketStream {
  import opened Wrappers
  import opened Bytes
  import opened WebSocketFrames

  // --- what one `_ws_recv` does to the bytes still to come ---

  datatype Delivery =
    | Delivered(payload: bytes, rest: bytes)
    | PeerClosed(rest: bytes)
    | StreamEnded

  /** Skip frames until a text or binary frame, a close frame, or the end of the stream. */
  function Receive(s: bytes): (d: Delivery)
    ensures d.Delivered? ==> |d.rest| + 2 <= |s|
    decreases |s|
  {
    match ReadFrame(s)
    case Closed => StreamEnded
    case Got(frame, rest) =>
      if frame.opcode == 8 then PeerClosed(rest)
      else if frame.opcode != 1 && frame.opcode != 2 then Receive(rest)
      else Delivered(frame.payload, rest)
  }

  predicate DataFrame(f: Frame) {
    f.Opcode() == 1 || f.Opcode() == 2
  }

  predicate CloseFrame(f: Frame) {
    f.Opcode() == 8
  }

  predicate SkippedFrame(f: Frame) {
    !DataFrame(f) && !CloseFrame(f)
  }

  predicate AllSkipped(fs: seq<Frame>) {
    forall i :: 0 <= i < |fs| ==> SkippedFrame(fs[i])
  }

  lemma {:induction false} StreamConcat(fs: seq<Frame>, gs: seq<Frame>)
    requires AllValid(fs) && AllValid(gs)
    ensures Stream(fs + gs) == Stream(fs) + Stream(gs)
  {
    assert Encodings(fs + gs) == Encodings(fs) + Encodings(gs);
    FlattenConcat(Encodings(fs), Encodings(gs));
  }

  lemma {:induction false} StreamOfOne(f: Frame)
    requires f.Valid()
    ensures Stream([f]) == Encode(f)
  {
    assert Encodings([f]) == [Encode(f)];
    assert Flatten([Encode(f)]) == Encode(f) + Flatten([]);
  }

  lemma {:induction false} Associate(a: bytes, b: bytes, c: bytes)
    ensures (a + b) + c == a + (b + c)
  {
  }

  lemma {:induction false} StreamHead(f: Frame, fs: seq<Frame>, tail: bytes)
    requires f.Valid() && AllValid(fs)
    ensures Stream([f] + fs) + tail == Encode(f) + (Stream(fs) + tail)
  {
    StreamConcat([f], fs);
    StreamOfOne(f);
    Associate(Encode(f), Stream(fs), tail);
  }

  lemma {:induction false} StreamStep(fs: seq<Frame>, tail: bytes)
    requires AllValid(fs) && fs != []
    ensures Stream(fs) + tail == Encode(fs[0]) + (Stream(fs[1..]) + tail)
  {
    assert fs == [fs[0]] + fs[1..];
    StreamHead(fs[0], fs[1..], tail);
  }

  lemma {:induction false} EmptyStream(tail: bytes)
    ensures Stream([]) + tail == tail
  {
    assert Encodings([]) == [];
  }

  lemma {:induction false} StreamLast(fs: seq<Frame>, f: Frame, tail: bytes)
    requires f.Valid() && AllValid(fs)
    ensures Stream(fs + [f]) + tail == Stream(fs) + (Encode(f) + tail)
  {
    StreamConcat(fs, [f]);
    StreamOfOne(f);
    Associate(Stream(fs), Encode(f), tail);
  }

  /** Reading frame after frame from `s` yields `fs` and leaves `rest`. */
  predicate Reads(s: bytes, fs: seq<Frame>, rest: bytes)
    decreases |fs|
  {
    if fs == [] then s == rest
    else
      match ReadFrame(s)
      case Closed => false
      case Got(frame, more) => frame == Received(fs[0].Opcode(), fs[0].payload) && Reads(more, fs[1..], rest)
  }

  /** Encoded frames read back as those frames, one after the other. */
  lemma {:induction false} StreamReads(fs: seq<Frame>, tail: bytes)
    requires AllValid(fs)
    ensures Reads(Stream(fs) + tail, fs, tail)
  {
    if fs == [] {
      EmptyStream(tail);
    } else {
      StreamStep(fs, tail);
      ReadEncoded(fs[0], Stream(fs[1..]) + tail);
      StreamReads(fs[1..], tail);
    }
  }

  /** What reception does next is decided by the frame it reads. */
  lemma {:induction false} FrameDecidesDelivery(s: bytes, f: Frame, rest: bytes)
    requires ReadFrame(s) == Got(Received(f.Opcode(), f.payload), rest)
    ensures Receive(s) == if SkippedFrame(f) then Receive(rest)
                          else if DataFrame(f) then Delivered(f.payload, rest)
                          else PeerClosed(rest)
  {
  }

  /** Reception skips whatever is neither data nor close and stays on frame boundaries. */
  lemma {:induction false} SkippedFramesVanish(s: bytes, fs: seq<Frame>, rest: bytes)
    requires Reads(s, fs, rest) && AllSkipped(fs)
    ensures Receive(s) == Receive(rest)
    decreases |fs|
  {
    if fs != [] {
      FrameDecidesDelivery(s, fs[0], ReadFrame(s).rest);
      SkippedFramesVanish(ReadFrame(s).rest, fs[1..], rest);
    }
  }

  lemma {:induction false} DataFrameIsDelivered(f: Frame, tail: bytes)
    requires f.Valid()
    ensures DataFrame(f) ==> Receive(Encode(f) + tail) == Delivered(f.payload, tail)
    ensures CloseFrame(f) ==> Receive(Encode(f) + tail) == PeerClosed(tail)
  {
    ReadEncoded(f, tail);
    FrameDecidesDelivery(Encode(f) + tail, f, tail);
  }

  /** The low four bits of the first byte decide: 8 closes, 1 and 2 deliver, everything else is skipped. */
  lemma {:induction false} OpcodeDecides(f: Frame, tail: bytes)
    requires f.Valid()
    ensures Receive(Encode(f) + tail)
            == if f.first & 0x0F == 8 then PeerClosed(tail)
               else if f.first & 0x0F == 1 || f.first & 0x0F == 2 then Delivered(f.payload, tail)
               else Receive(tail)
  {
    ReadEncoded(f, tail);
    FrameDecidesDelivery(Encode(f) + tail, f, tail);
  }

  /** After any skipped frames the next data payload is delivered, or the close reported, and what remains
      is exactly what followed that frame. */
  lemma {:induction false} ReceiveSynchronises(skipped: seq<Frame>, f: Frame, tail: bytes)
    requires AllValid(skipped) && AllSkipped(skipped) && f.Valid() && !SkippedFrame(f)
    ensures Receive(Stream(skipped + [f]) + tail)
            == if DataFrame(f) then Delivered(f.payload, tail) else PeerClosed(tail)
  {
    StreamLast(skipped, f, tail);
    StreamReads(skipped, Encode(f) + tail);
    SkippedFramesVanish(Stream(skipped) + (Encode(f) + tail), skipped, Encode(f) + tail);
    DataFrameIsDelivered(f, tail);
  }

  /** The frames in front of `rest` are `fs`. */
  ghost predicate FramedBy(s: bytes, fs: seq<Frame>, rest: bytes) {
    AllValid(fs) && s == Stream(fs) + rest
  }

  lemma {:induction false} FramedFurther(s: bytes, g: Frame, s': bytes, fs: seq<Frame>, f: Frame, rest: bytes)
    requires g.Valid() && s == Encode(g) + s' && FramedBy(s', fs + [f], rest)
    ensures FramedBy(s, ([g] + fs) + [f], rest)
  {
    StreamHead(g, fs + [f], rest);
    assert ([g] + fs) + [f] == [g] + (fs + [f]);
  }

  lemma {:induction false} FramedAtOnce(s: bytes, f: Frame, rest: bytes)
    requires f.Valid() && s == Encode(f) + rest
    ensures FramedBy(s, [] + [f], rest)
  {
    StreamOfOne(f);
    assert [] + [f] == [f];
  }

  lemma {:induction false} FirstFrame(s: bytes) returns (g: Frame, rest: bytes)
    requires ReadFrame(s).Got?
    ensures g.Valid() && s == Encode(g) + rest && |rest| < |s|
    ensures ReadFrame(s) == Got(Received(g.Opcode(), g.payload), rest)
  {
    ReadIsEncoded(s);
    g, rest := FrameAt(s), ReadFrame(s).rest;
  }

  /** One step of reception, seen from the frame it read. */
  lemma {:induction false} ReceiveStep(s: bytes) returns (g: Frame, rest: bytes)
    requires !Receive(s).StreamEnded?
    ensures g.Valid() && s == Encode(g) + rest && |rest| < |s|
    ensures Receive(s) == if SkippedFrame(g) then Receive(rest)
                          else if DataFrame(g) then Delivered(g.payload, rest)
                          else PeerClosed(rest)
  {
    g, rest := FirstFrame(s);
    FrameDecidesDelivery(s, g, rest);
  }

  /** The delivery is that of data or close frame `f`, and exactly the skipped frames and `f` were consumed. */
  ghost predicate DeliveredBy(s: bytes, d: Delivery, skipped: seq<Frame>, f: Frame) {
    match d
    case Delivered(payload, rest) =>
      AllSkipped(skipped) && FramedBy(s, skipped + [f], rest) && DataFrame(f) && f.payload == payload
    case PeerClosed(rest) => AllSkipped(skipped) && FramedBy(s, skipped + [f], rest) && CloseFrame(f)
    case StreamEnded => false
  }

  lemma {:induction false} DeliveredAtOnce(s: bytes, f: Frame, rest: bytes)
    requires f.Valid() && s == Encode(f) + rest && !SkippedFrame(f)
    ensures DeliveredBy(s, if DataFrame(f) then Delivered(f.payload, rest) else PeerClosed(rest), [], f)
  {
    FramedAtOnce(s, f, rest);
  }

  lemma {:induction false} DeliveredLater(s: bytes, d: Delivery, g: Frame, s': bytes, skipped: seq<Frame>, f: Frame)
    requires g.Valid() && s == Encode(g) + s' && SkippedFrame(g)
    requires DeliveredBy(s', d, skipped, f)
    ensures DeliveredBy(s, d, [g] + skipped, f)
  {
    FramedFurther(s, g, s', skipped, f, d.rest);
  }

  /** Conversely, whatever is delivered was a data frame behind skipped frames, and nothing else was consumed. */
  lemma {:induction false} DeliveredIsFramed(s: bytes) returns (skipped: seq<Frame>, f: Frame)
    requires !Receive(s).StreamEnded?
    ensures DeliveredBy(s, Receive(s), skipped, f)
    decreases |s|
  {
    var g, rest := ReceiveStep(s);
    if SkippedFrame(g) {
      var more, last := DeliveredIsFramed(rest);
      DeliveredLater(s, Receive(s), g, rest, more, last);
      skipped, f := [g] + more, last;
    } else {
      DeliveredAtOnce(s, g, rest);
      skipped, f := [], g;
    }
  }

  /** A stream that ends before the first data or close frame is complete reports that the connection closed. */
  lemma {:induction false} ShortStreamEnds(skipped: seq<Frame>, f: Frame, cut: bytes)
    requires AllValid(skipped) && AllSkipped(skipped) && f.Valid() && cut < Encode(f)
    ensures Receive(Stream(skipped) + cut) == StreamEnded
  {
    StreamReads(skipped, cut);
    SkippedFramesVanish(Stream(skipped) + cut, skipped, cut);
    ShortFrameIsClosed(f, cut);
  }

  /** What the client sends, any receiver of this kind gets back, payload and boundary. */
  lemma {:induction false} SendReceiveRoundTrip(data: bytes, mask: bytes, tail: bytes)
    requires |mask| == 4 && |data| < 0x1_0000_0000_0000_0000
    ensures Receive(Encode(ClientFrame(data, mask)) + tail) == Delivered(data, tail)
  {
    DataFrameIsDelivered(ClientFrame(data, mask), tail);
  }

  // --- fragmented messages, section 5.4 of RFC 6455 ---

  predicate Continuation(f: Frame) {
    f.Opcode() == 0
  }

  /** The rest of a message whose first fragment was not final: continuation payloads up to the final one,
      with control frames in between; nothing if the frames do not form one. */
  function Continued(fs: seq<Frame>): Option<bytes> {
    if fs == [] then None
    else if fs[0].Opcode() >= 8 then Continued(fs[1..])
    else if !Continuation(fs[0]) then None
    else if fs[0].Final() then Some(fs[0].payload)
    else
      match Continued(fs[1..])
      case None => None
      case Some(more) => Some(fs[0].payload + more)
  }

  /** The message that starts with data frame `f` and goes on in `fs`. */
  function MessageOf(f: Frame, fs: seq<Frame>): Option<bytes> {
    if f.Final() then Some(f.payload)
    else
      match Continued(fs)
      case None => None
      case Some(more) => Some(f.payload + more)
  }

  /** The final bit is never looked at: the whole message is delivered if and only if its first frame is final or
      all that follows in it is empty. */
  lemma {:induction false} FragmentsAreCut(f: Frame, fs: seq<Frame>, tail: bytes)
    requires f.Valid() && AllValid(fs) && DataFrame(f) && MessageOf(f, fs).Some?
    ensures Receive(Stream([f] + fs) + tail).Delivered?
    ensures Receive(Stream([f] + fs) + tail).payload == MessageOf(f, fs).value
            <==> f.Final() || Continued(fs) == Some([])
  {
    StreamHead(f, fs, tail);
    DataFrameIsDelivered(f, Stream(fs) + tail);
    if !f.Final() {
      var more := Continued(fs).value;
      assert f.payload + more == f.payload <==> more == [];
    }
  }

  /** A two-frame text message "ab", of which only "a" arrives. */
  lemma {:induction false} FragmentedMessageExample()
    ensures var f := Frame(0x01, None, Short, [0x61]); var g := Frame(0x80, None, Short, [0x62]);
            && MessageOf(f, [g]) == Some([0x61, 0x62])
            && Receive(Stream([f] + [g])).Delivered? && Receive(Stream([f] + [g])).payload == [0x61]
  {
    var f, g := Frame(0x01, None, Short, [0x61]), Frame(0x80, None, Short, [0x62]);
    StreamHead(f, [g], []);
    assert Stream([f] + [g]) + [] == Stream([f] + [g]);
    DataFrameIsDelivered(f, Stream([g]) + []);
    assert Continued([g]) == Some(g.payload);
    assert f.payload + g.payload == [0x61, 0x62];
  }

  // --- the socket and the procedures that use it ---

  datatype WsError = ConnectionClosed | ClosedByPeer | TooLong

  type Mask = m: bytes | |m| == 4 witness [0, 0, 0, 0]

  /** A connected socket. `incoming` is all that will still arrive; how much of it one `recv` returns, and which
      four bytes `os.urandom` yields, is decided outside. */
  class Socket {
    var incoming: bytes
    var outgoing: bytes
    var readCount: nat
    var draws: nat
    const piece: nat -> nat
    const random: nat -> Mask

    constructor (incoming: bytes, piece: nat -> nat, random: nat -> Mask)
      ensures this.incoming == incoming && outgoing == [] && readCount == 0 && draws == 0
      ensures this.piece == piece && this.random == random
    {
      this.incoming, this.piece, this.random := incoming, piece, random;
      outgoing, readCount, draws := [], 0, 0;
    }

    /** At least one byte and at most `size`, unless the stream has ended. */
    method Recv(size: nat) returns (chunk: bytes)
      requires size > 0
      modifies this`incoming, this`readCount
      ensures old(incoming) == chunk + incoming
      ensures |chunk| <= size && (chunk == [] <==> old(incoming) == [])
    {
      var available := if |incoming| < size then |incoming| else size;
      var count := if available == 0 then 0 else 1 + piece(readCount) % available;
      chunk, incoming := incoming[..count], incoming[count..];
      readCount := readCount + 1;
    }

    method SendAll(data: bytes)
      modifies this`outgoing
      ensures outgoing == old(outgoing) + data
    {
      outgoing := outgoing + data;
    }

    method DrawMask() returns (mask: Mask)
      modifies this`draws
      ensures mask == random(old(draws)) && draws == old(draws) + 1
    {
      mask := random(draws);
      draws := draws + 1;
    }
  }

  /** Exactly `size` bytes however the stream is cut up; a short stream is drained and reported. */
  method RecvExact(sock: Socket, size: nat) returns (r: Result<bytes, WsError>)
    modifies sock`incoming, sock`readCount
    ensures match TakeExact(old(sock.incoming), size)
            case Got(chunk, rest) => r == Ok(chunk) && sock.incoming == rest
            case Closed => r == Err(ConnectionClosed) && sock.incoming == []
  {
    ghost var all := sock.incoming;
    var chunks: bytes := [];
    while |chunks| < size
      invariant all == chunks + sock.incoming && |chunks| <= size
      decreases size - |chunks|
    {
      var chunk := sock.Recv(size - |chunks|);
      if chunk == [] {
        return Err(ConnectionClosed);
      }
      chunks := chunks + chunk;
    }
    return Ok(chunks);
  }

  /** The payload of the next data frame. The result and the position in the stream depend on the bytes alone,
      so any two ways of cutting the same bytes into chunks give the same messages. */
  method WsRecv(sock: Socket) returns (r: Result<bytes, WsError>)
    modifies sock`incoming, sock`readCount
    ensures match Receive(old(sock.incoming))
            case Delivered(payload, rest) => r == Ok(payload) && sock.incoming == rest
            case PeerClosed(rest) => r == Err(ClosedByPeer) && sock.incoming == rest
            case StreamEnded => r == Err(ConnectionClosed) && sock.incoming == []
    decreases |sock.incoming|
  {
    var frame := RecvFrame(sock);
    match frame
    case Err(error) => return Err(error);
    case Ok(Received(opcode, payload)) =>
      if opcode == 8 {
        return Err(ClosedByPeer);
      }
      if opcode != 1 && opcode != 2 {
        r := WsRecv(sock);
      } else {
        return Ok(payload);
      }
  }

  method RecvLength(sock: Socket, second: bv8) returns (r: Result<nat, WsError>)
    modifies sock`incoming, sock`readCount
    ensures match ReadLength(second, old(sock.incoming))
            case Got(length, rest) => r == Ok(length) && sock.incoming == rest
            case Closed => r == Err(ConnectionClosed) && sock.incoming == []
  {
    var length := (second & 0x7F) as nat;
    if length == 126 {
      var extended := RecvExact(sock, 2);
      if extended.Err? {
        return Err(extended.error);
      }
      length := FromBigEndian(extended.value);
    } else if length == 127 {
      var extended := RecvExact(sock, 8);
      if extended.Err? {
        return Err(extended.error);
      }
      length := FromBigEndian(extended.value);
    }
    return Ok(length);
  }

  method RecvMask(sock: Socket, second: bv8) returns (r: Result<Option<bytes>, WsError>)
    modifies sock`incoming, sock`readCount
    ensures match ReadMask(second, old(sock.incoming))
            case Got(mask, rest) => r == Ok(mask) && sock.incoming == rest
            case Closed => r == Err(ConnectionClosed) && sock.incoming == []
  {
    if second & 0x80 == 0 {
      return Ok(None);
    }
    var mask := RecvExact(sock, 4);
    match mask
    case Err(error) => return Err(error);
    case Ok(mask) => return Ok(Some(mask));
  }

  /** Header, extended length, mask and payload of one frame, read piece by piece. */
  method RecvFrame(sock: Socket) returns (r: Result<Received, WsError>)
    modifies sock`incoming, sock`readCount
    ensures match ReadFrame(old(sock.incoming))
            case Got(frame, rest) => r == Ok(frame) && sock.incoming == rest
            case Closed => r == Err(ConnectionClosed) && sock.incoming == []
  {
    var head := RecvExact(sock, 2);
    if head.Err? {
      return Err(head.error);
    }
    var first, second := head.value[0], head.value[1];
    var length := RecvLength(sock, second);
    if length.Err? {
      return Err(length.error);
    }
    var mask := RecvMask(sock, second);
    if mask.Err? {
      return Err(mask.error);
    }
    var payload := RecvExact(sock, length.value);
    if payload.Err? {
      return Err(payload.error);
    }
    return Ok(Received(first & 0x0F, Masked(mask.value, payload.value)));
  }

  /** One masked, final text frame in the shortest length form; a payload of 2^64 bytes or more cannot be packed. */
  method WsSend(sock: Socket, data: bytes) returns (r: Result<(), WsError>)
    modifies sock`outgoing, sock`draws
    ensures r.Ok? <==> |data| < 0x1_0000_0000_0000_0000
    ensures r.Err? ==> r.error == TooLong && sock.outgoing == old(sock.outgoing)
    ensures r.Ok? ==> sock.outgoing == old(sock.outgoing) + Encode(ClientFrame(data, sock.random(old(sock.draws))))
  {
    var header: bytes := [0x81];
    var length := |data|;
    if length < 126 {
      header := header + [0x80 | (length as bv8)];
    } else if length < 0x1_0000 {
      header := header + [0x80 | 126];
      header := header + BigEndian(length, 2);
    } else if length < 0x1_0000_0000_0000_0000 {
      header := header + [0x80 | 127];
      header := header + BigEndian(length, 8);
    } else {
      return Err(TooLong);
    }
    var mask := sock.DrawMask();
    ghost var f := ClientFrame(data, mask);
    assert header == [f.first] + LengthField(f);
    header := header + mask;
    var masked := Xored(data, mask);
    sock.SendAll(header + masked);
    assert header + masked == Encode(f);
    return Ok(());
  }
}
