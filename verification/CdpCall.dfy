/** A DevTools call: send one request, then wait for the message that bears its id. */
module CdpCall {
  import opened Wrappers
  import opened Bytes
  import opened Json
  import opened WebSocketFrames
  import opened WebSocketStream

  /** Decoding and parsing of a payload; nothing if either raises. */
  type Parser = bytes -> Option<Json>

  /** Whether the clock still reads less than the deadline at its n-th reading. */
  type Clock = nat -> bool

  datatype CdpOutcome =
    | Answered(result: Json)
    | RemoteError(error: Json)
    | BadMessage
    | Broken(failure: WsError)
    | TimedOut

  /** Python's `value == number`: reals and booleans compare as numbers too. */
  predicate EqualsNumber(value: Json, number: int) {
    match value
    case JInt(n) => n == number
    case JReal(r) => r == number as real
    case JBool(b) => (if b then 1 else 0) == number
    case _ => false
  }

  predicate BearsId(message: Json, id: int) {
    message.Get("id").Some? && EqualsNumber(message.Get("id").value, id)
  }

  /** What a message with the right id makes of the call. */
  function Verdict(message: Json): CdpOutcome {
    if message.Get("error").Some? then RemoteError(message.Get("error").value)
    else Answered(message.Get("result").GetOr(JObject(map[])))
  }

  /** Outcome of waiting, bytes left in the stream, and clock readings used up. */
  datatype Waited = Waited(outcome: CdpOutcome, rest: bytes, tick: nat)

  function Await(parse: Parser, clock: Clock, tick: nat, s: bytes, id: int): Waited
    decreases |s|
  {
    if !clock(tick) then Waited(TimedOut, s, tick + 1)
    else
      match Receive(s)
      case StreamEnded => Waited(Broken(ConnectionClosed), [], tick + 1)
      case PeerClosed(rest) => Waited(Broken(ClosedByPeer), rest, tick + 1)
      case Delivered(payload, rest) =>
        match parse(payload)
        case Some(JObject(fields)) =>
          if BearsId(JObject(fields), id) then Waited(Verdict(JObject(fields)), rest, tick + 1)
          else Await(parse, clock, tick + 1, rest, id)
        case _ => Waited(BadMessage, rest, tick + 1)
  }

  // --- the frames a call consumes ---

  predicate Concluded(outcome: CdpOutcome) {
    outcome.Answered? || outcome.RemoteError?
  }

  predicate Concludes(w: Waited) {
    Concluded(w.outcome)
  }

  /** A data frame whose payload parses to an object. */
  predicate IsMessage(parse: Parser, f: Frame) {
    DataFrame(f) && parse(f.payload).Some? && parse(f.payload).value.JObject?
  }

  predicate IsReply(parse: Parser, f: Frame, id: int) {
    IsMessage(parse, f) && BearsId(parse(f.payload).value, id)
  }

  /** Frames that a call with this id passes over: control frames and messages with other ids or none. */
  predicate Quiet(parse: Parser, fs: seq<Frame>, id: int) {
    forall i :: 0 <= i < |fs| ==> PassedOver(parse, fs[i], id)
  }

  predicate PassedOver(parse: Parser, f: Frame, id: int) {
    f.Valid() && (SkippedFrame(f) || (IsMessage(parse, f) && !IsReply(parse, f, id)))
  }

  function MessageCount(fs: seq<Frame>): nat {
    if fs == [] then 0 else (if DataFrame(fs[0]) then 1 else 0) + MessageCount(fs[1..])
  }

  /** The clock does not run out while the frames and the reply behind them are read. */
  predicate InTime(clock: Clock, tick: nat, fs: seq<Frame>) {
    forall k :: tick <= k <= tick + MessageCount(fs) ==> clock(k)
  }

  /** The clock reading after a frame. */
  function After(tick: nat, f: Frame): nat {
    if DataFrame(f) then tick + 1 else tick
  }

  lemma {:induction false} InTimeStep(clock: Clock, tick: nat, fs: seq<Frame>)
    requires InTime(clock, tick, fs)
    ensures clock(tick)
    ensures fs != [] ==> InTime(clock, After(tick, fs[0]), fs[1..])
                         && tick + MessageCount(fs) == After(tick, fs[0]) + MessageCount(fs[1..])
  {
  }

  /** Waiting looks at the bytes only through what the next reception makes of them. */
  lemma {:induction false} AwaitSeesDeliveries(parse: Parser, clock: Clock, tick: nat, s: bytes, s': bytes, id: int)
    requires clock(tick) && Receive(s) == Receive(s')
    ensures Await(parse, clock, tick, s, id) == Await(parse, clock, tick, s', id)
  {
  }

  lemma {:induction false} AwaitDropsMessage(parse: Parser, clock: Clock, tick: nat, s: bytes, payload: bytes,
                                             rest: bytes, id: int)
    requires clock(tick) && Receive(s) == Delivered(payload, rest)
    requires parse(payload).Some? && parse(payload).value.JObject? && !BearsId(parse(payload).value, id)
    ensures Await(parse, clock, tick, s, id) == Await(parse, clock, tick + 1, rest, id)
  {
  }

  lemma {:induction false} AwaitPassesOver(parse: Parser, clock: Clock, tick: nat, s: bytes, f: Frame, rest: bytes,
                                           id: int)
    requires ReadFrame(s) == Got(Received(f.Opcode(), f.payload), rest)
    requires PassedOver(parse, f, id) && clock(tick)
    ensures Await(parse, clock, tick, s, id) == Await(parse, clock, After(tick, f), rest, id)
  {
    FrameDecidesDelivery(s, f, rest);
    if SkippedFrame(f) {
      AwaitSeesDeliveries(parse, clock, tick, s, rest, id);
    } else {
      AwaitDropsMessage(parse, clock, tick, s, f.payload, rest, id);
    }
  }

  lemma {:induction false} AwaitMeetsReply(parse: Parser, clock: Clock, tick: nat, s: bytes, f: Frame, rest: bytes,
                                           id: int)
    requires ReadFrame(s) == Got(Received(f.Opcode(), f.payload), rest)
    requires IsReply(parse, f, id) && clock(tick)
    ensures Await(parse, clock, tick, s, id) == Waited(Verdict(parse(f.payload).value), rest, tick + 1)
  {
    FrameDecidesDelivery(s, f, rest);
  }

  lemma {:induction false} AwaitEndsAtTheClock(parse: Parser, clock: Clock, tick: nat, s: bytes, id: int)
    requires !clock(tick)
    ensures Await(parse, clock, tick, s, id) == Waited(TimedOut, s, tick + 1)
  {
  }

  lemma {:induction false} QuietIsValid(parse: Parser, fs: seq<Frame>, id: int)
    requires Quiet(parse, fs, id)
    ensures AllValid(fs)
  {
    assert forall i :: 0 <= i < |fs| ==> PassedOver(parse, fs[i], id);
  }

  lemma {:induction false} FirstReplyAt(parse: Parser, clock: Clock, tick: nat, s: bytes, fs: seq<Frame>, reply: Frame,
                                        rest: bytes, id: int)
    requires Reads(s, fs + [reply], rest)
    requires Quiet(parse, fs, id) && IsReply(parse, reply, id) && InTime(clock, tick, fs)
    ensures Await(parse, clock, tick, s, id)
            == Waited(Verdict(parse(reply.payload).value), rest, tick + MessageCount(fs) + 1)
    decreases |fs|
  {
    var more := ReadFrame(s).rest;
    InTimeStep(clock, tick, fs);
    if fs == [] {
      AwaitMeetsReply(parse, clock, tick, s, reply, more, id);
    } else {
      assert PassedOver(parse, fs[0], id);
      assert (fs + [reply])[1..] == fs[1..] + [reply];
      AwaitPassesOver(parse, clock, tick, s, fs[0], more, id);
      FirstReplyAt(parse, clock, After(tick, fs[0]), more, fs[1..], reply, rest, id);
    }
  }

  /** In time, a call gets the first message that bears its id and consumes exactly up to it, whatever events,
      other replies and control frames come before. */
  lemma {:induction false} FirstReplyAnswers(parse: Parser, clock: Clock, tick: nat, fs: seq<Frame>, reply: Frame,
                                             tail: bytes, id: int)
    requires Quiet(parse, fs, id) && reply.Valid() && IsReply(parse, reply, id) && InTime(clock, tick, fs)
    ensures AllValid(fs + [reply])
    ensures Await(parse, clock, tick, Stream(fs + [reply]) + tail, id)
            == Waited(Verdict(parse(reply.payload).value), tail, tick + MessageCount(fs) + 1)
  {
    QuietIsValid(parse, fs, id);
    StreamReads(fs + [reply], tail);
    FirstReplyAt(parse, clock, tick, Stream(fs + [reply]) + tail, fs, reply, tail, id);
  }

  lemma {:induction false} QuietToTheEnd(parse: Parser, clock: Clock, tick: nat, s: bytes, fs: seq<Frame>, id: int)
    requires Reads(s, fs, []) && Quiet(parse, fs, id)
    ensures !Concludes(Await(parse, clock, tick, s, id))
    decreases |fs|
  {
    if !clock(tick) {
      AwaitEndsAtTheClock(parse, clock, tick, s, id);
    } else if fs != [] {
      assert PassedOver(parse, fs[0], id);
      var more := ReadFrame(s).rest;
      AwaitPassesOver(parse, clock, tick, s, fs[0], more, id);
      QuietToTheEnd(parse, clock, After(tick, fs[0]), more, fs[1..], id);
    }
  }

  /** Without a reply among the frames, and nothing behind them, no call concludes. */
  lemma {:induction false} NoReplyNoAnswer(parse: Parser, clock: Clock, tick: nat, fs: seq<Frame>, id: int)
    requires Quiet(parse, fs, id)
    ensures AllValid(fs) && !Concludes(Await(parse, clock, tick, Stream(fs), id))
  {
    QuietIsValid(parse, fs, id);
    StreamReads(fs, []);
    assert Stream(fs) + [] == Stream(fs);
    QuietToTheEnd(parse, clock, tick, Stream(fs), fs, id);
  }

  lemma {:induction false} AwaitSees(parse: Parser, clock: Clock, tick: nat, s: bytes, g: Frame, rest: bytes, id: int)
    requires Concludes(Await(parse, clock, tick, s, id))
    requires g.Valid() && ReadFrame(s) == Got(Received(g.Opcode(), g.payload), rest)
    ensures IsReply(parse, g, id) || PassedOver(parse, g, id)
    ensures Await(parse, clock, tick, s, id)
            == if IsReply(parse, g, id) then Waited(Verdict(parse(g.payload).value), rest, tick + 1)
               else Await(parse, clock, After(tick, g), rest, id)
  {
    if IsReply(parse, g, id) {
      AwaitMeetsReply(parse, clock, tick, s, g, rest, id);
    } else {
      AwaitPassesOver(parse, clock, tick, s, g, rest, id);
    }
  }

  /** Whatever concludes has read the clock in time. */
  lemma {:induction false} ConcludingIsInTime(parse: Parser, clock: Clock, tick: nat, s: bytes, id: int)
    requires Concludes(Await(parse, clock, tick, s, id))
    ensures clock(tick)
  {
  }

  lemma {:induction false} InTimeFurther(clock: Clock, tick: nat, g: Frame, fs: seq<Frame>)
    requires clock(tick) && InTime(clock, After(tick, g), fs)
    ensures InTime(clock, tick, [g] + fs)
    ensures tick + MessageCount([g] + fs) == After(tick, g) + MessageCount(fs)
  {
    assert ([g] + fs)[1..] == fs;
  }

  /** One step of waiting, seen from the frame it read. */
  lemma {:induction false} AwaitStep(parse: Parser, clock: Clock, tick: nat, s: bytes, id: int)
    returns (g: Frame, rest: bytes)
    requires Concludes(Await(parse, clock, tick, s, id))
    ensures g.Valid() && s == Encode(g) + rest && |rest| < |s|
    ensures IsReply(parse, g, id) || PassedOver(parse, g, id)
    ensures Await(parse, clock, tick, s, id)
            == if IsReply(parse, g, id) then Waited(Verdict(parse(g.payload).value), rest, tick + 1)
               else Await(parse, clock, After(tick, g), rest, id)
  {
    g, rest := FirstFrame(s);
    AwaitSees(parse, clock, tick, s, g, rest, id);
  }

  lemma {:induction false} QuietFurther(parse: Parser, g: Frame, fs: seq<Frame>, id: int)
    requires PassedOver(parse, g, id) && Quiet(parse, fs, id)
    ensures Quiet(parse, [g] + fs, id)
  {
    forall i | 0 <= i < |[g] + fs| ensures PassedOver(parse, ([g] + fs)[i], id) {
      assert i > 0 ==> PassedOver(parse, fs[i - 1], id);
    }
  }

  /** The result is that of the first message bearing the id, read in time, and exactly the frames up to it were
      consumed. */
  ghost predicate AnsweredBy(parse: Parser, clock: Clock, tick: nat, s: bytes, id: int, w: Waited, fs: seq<Frame>,
                             reply: Frame) {
    && Quiet(parse, fs, id) && reply.Valid() && IsReply(parse, reply, id) && InTime(clock, tick, fs)
    && FramedBy(s, fs + [reply], w.rest)
    && w.outcome == Verdict(parse(reply.payload).value) && w.tick == tick + MessageCount(fs) + 1
  }

  lemma {:induction false} AnsweredAtOnce(parse: Parser, clock: Clock, tick: nat, s: bytes, id: int, reply: Frame,
                                          rest: bytes)
    requires reply.Valid() && s == Encode(reply) + rest && IsReply(parse, reply, id) && clock(tick)
    ensures AnsweredBy(parse, clock, tick, s, id,
                       Waited(Verdict(parse(reply.payload).value), rest, tick + 1), [], reply)
  {
    FramedAtOnce(s, reply, rest);
  }

  lemma {:induction false} AnsweredLater(parse: Parser, clock: Clock, tick: nat, s: bytes, id: int, w: Waited, g: Frame,
                                         s': bytes, fs: seq<Frame>, reply: Frame)
    requires g.Valid() && s == Encode(g) + s' && PassedOver(parse, g, id) && clock(tick)
    requires AnsweredBy(parse, clock, After(tick, g), s', id, w, fs, reply)
    ensures AnsweredBy(parse, clock, tick, s, id, w, [g] + fs, reply)
  {
    FramedFurther(s, g, s', fs, reply, w.rest);
    QuietFurther(parse, g, fs, id);
    InTimeFurther(clock, tick, g, fs);
  }

  /** Whatever the bytes are, a call that concludes did so in time on the first message bearing its id, and
      consumed exactly the frames up to it. */
  lemma {:induction false} AnswerIsFirstReply(parse: Parser, clock: Clock, tick: nat, s: bytes, id: int)
    returns (fs: seq<Frame>, reply: Frame)
    requires Concludes(Await(parse, clock, tick, s, id))
    ensures AnsweredBy(parse, clock, tick, s, id, Await(parse, clock, tick, s, id), fs, reply)
    decreases |s|
  {
    var g, rest := AwaitStep(parse, clock, tick, s, id);
    ConcludingIsInTime(parse, clock, tick, s, id);
    if IsReply(parse, g, id) {
      AnsweredAtOnce(parse, clock, tick, s, id, g, rest);
      fs, reply := [], g;
    } else {
      var more, last := AnswerIsFirstReply(parse, clock, After(tick, g), rest, id);
      AnsweredLater(parse, clock, tick, s, id, Await(parse, clock, tick, s, id), g, rest, more, last);
      fs, reply := [g] + more, last;
    }
  }

  // --- what a reply says ---

  /** The field `id` of a message is this number: as an integer, as a real, or as a boolean for zero and one. */
  predicate IdIs(fields: map<string, Json>, id: int) {
    && "id" in fields
    && (|| fields["id"] == JInt(id) || fields["id"] == JReal(id as real)
        || (fields["id"] == JBool(true) && id == 1) || (fields["id"] == JBool(false) && id == 0))
  }

  lemma {:induction false} IdsCompareAsNumbers(fields: map<string, Json>, id: int)
    ensures BearsId(JObject(fields), id) <==> IdIs(fields, id)
  {
  }

  /** An error under "error" is raised with its value; otherwise the value under "result" is the answer, and the empty
      object if there is none. */
  predicate Says(fields: map<string, Json>, outcome: CdpOutcome) {
    if "error" in fields then outcome == RemoteError(fields["error"])
    else outcome == Answered(if "result" in fields then fields["result"] else JObject(map[]))
  }

  lemma {:induction false} VerdictSays(fields: map<string, Json>)
    ensures Says(fields, Verdict(JObject(fields)))
  {
  }

  /** The first message in time whose id is that of the call decides the outcome by what it says under "error" and
      "result"; the messages before it have other ids, or none. */
  lemma {:induction false} ReplyDecides(parse: Parser, clock: Clock, tick: nat, fs: seq<Frame>, reply: Frame,
                                        tail: bytes, id: int, fields: map<string, Json>)
    requires forall i :: 0 <= i < |fs| ==> Unrelated(parse, fs[i], id)
    requires reply.Valid() && DataFrame(reply) && parse(reply.payload) == Some(JObject(fields)) && IdIs(fields, id)
    requires InTime(clock, tick, fs)
    ensures AllValid(fs + [reply])
    ensures var w := Await(parse, clock, tick, Stream(fs + [reply]) + tail, id);
            Says(fields, w.outcome) && w.rest == tail
  {
    forall i | 0 <= i < |fs| ensures PassedOver(parse, fs[i], id) {
      assert Unrelated(parse, fs[i], id);
      UnrelatedIsPassedOver(parse, fs[i], id);
    }
    IdsCompareAsNumbers(fields, id);
    VerdictSays(fields);
    FirstReplyAnswers(parse, clock, tick, fs, reply, tail, id);
  }

  /** A frame with an opcode that carries no message, or a message without this id. */
  predicate Unrelated(parse: Parser, f: Frame, id: int) {
    && f.Valid() && f.Opcode() != 8
    && (f.Opcode() == 1 || f.Opcode() == 2 ==>
          match parse(f.payload)
          case Some(JObject(fields)) => !IdIs(fields, id)
          case _ => false)
  }

  lemma {:induction false} UnrelatedIsPassedOver(parse: Parser, f: Frame, id: int)
    requires Unrelated(parse, f, id)
    ensures PassedOver(parse, f, id)
  {
    if DataFrame(f) {
      IdsCompareAsNumbers(parse(f.payload).value.fields, id);
    }
  }

  /** What waiting at `rest` comes to is what waiting in front of the frames comes to. */
  lemma {:induction false} AwaitSkips(parse: Parser, clock: Clock, tick: nat, s: bytes, fs: seq<Frame>, rest: bytes,
                                      id: int, late: nat, w: Waited)
    requires Reads(s, fs, rest) && Quiet(parse, fs, id) && InTime(clock, tick, fs)
    requires late == tick + MessageCount(fs) && Await(parse, clock, late, rest, id) == w
    ensures Await(parse, clock, tick, s, id) == w
    decreases |fs|
  {
    InTimeStep(clock, tick, fs);
    if fs != [] {
      var more := ReadFrame(s).rest;
      assert PassedOver(parse, fs[0], id);
      AwaitSkips(parse, clock, After(tick, fs[0]), more, fs[1..], rest, id, late, w);
      AwaitPassesOver(parse, clock, tick, s, fs[0], more, id);
    }
  }

  lemma {:induction false} UnrelatedAreQuiet(parse: Parser, fs: seq<Frame>, tail: bytes, id: int)
    requires forall i :: 0 <= i < |fs| ==> Unrelated(parse, fs[i], id)
    ensures AllValid(fs) && Quiet(parse, fs, id) && Reads(Stream(fs) + tail, fs, tail)
  {
    forall i | 0 <= i < |fs| ensures PassedOver(parse, fs[i], id) {
      assert Unrelated(parse, fs[i], id);
      UnrelatedIsPassedOver(parse, fs[i], id);
    }
    QuietIsValid(parse, fs, id);
    StreamReads(fs, tail);
  }

  lemma {:induction false} FailsAt(parse: Parser, clock: Clock, tick: nat, f: Frame, tail: bytes, id: int)
    requires clock(tick) && f.Valid()
    ensures f.Opcode() == 8 ==>
              Await(parse, clock, tick, Encode(f) + tail, id) == Waited(Broken(ClosedByPeer), tail, tick + 1)
    ensures DataFrame(f) && !IsMessage(parse, f) ==>
              Await(parse, clock, tick, Encode(f) + tail, id) == Waited(BadMessage, tail, tick + 1)
  {
    OpcodeDecides(f, tail);
  }

  lemma {:induction false} FailsInside(parse: Parser, clock: Clock, tick: nat, f: Frame, cut: bytes, id: int)
    requires clock(tick) && f.Valid() && cut < Encode(f)
    ensures Await(parse, clock, tick, cut, id) == Waited(Broken(ConnectionClosed), [], tick + 1)
  {
    ShortFrameIsClosed(f, cut);
  }

  /** A call fails in time, behind messages that are not for it, on a close frame or on a message that is no object. */
  lemma {:induction false} FailureDecides(parse: Parser, clock: Clock, tick: nat, fs: seq<Frame>, f: Frame, tail: bytes,
                                          s: bytes, id: int)
    requires (forall i :: 0 <= i < |fs| ==> Unrelated(parse, fs[i], id)) && InTime(clock, tick, fs)
    requires f.Valid() && s == Encode(f) + tail
    requires f.Opcode() == 8 || (DataFrame(f) && !IsMessage(parse, f))
    ensures AllValid(fs)
    ensures Await(parse, clock, tick, Stream(fs) + s, id)
            == Waited(if f.Opcode() == 8 then Broken(ClosedByPeer) else BadMessage, tail, tick + MessageCount(fs) + 1)
  {
    var late := tick + MessageCount(fs);
    var w := Waited(if f.Opcode() == 8 then Broken(ClosedByPeer) else BadMessage, tail, late + 1);
    UnrelatedAreQuiet(parse, fs, s, id);
    FailsAt(parse, clock, late, f, tail, id);
    AwaitSkips(parse, clock, tick, Stream(fs) + s, fs, s, id, late, w);
  }

  /** And so it does on a stream that ends inside a frame. */
  lemma {:induction false} CutStreamFails(parse: Parser, clock: Clock, tick: nat, fs: seq<Frame>, f: Frame, cut: bytes,
                                          id: int)
    requires (forall i :: 0 <= i < |fs| ==> Unrelated(parse, fs[i], id)) && InTime(clock, tick, fs)
    requires f.Valid() && cut < Encode(f)
    ensures AllValid(fs)
    ensures Await(parse, clock, tick, Stream(fs) + cut, id)
            == Waited(Broken(ConnectionClosed), [], tick + MessageCount(fs) + 1)
  {
    var late := tick + MessageCount(fs);
    UnrelatedAreQuiet(parse, fs, cut, id);
    FailsInside(parse, clock, late, f, cut, id);
    AwaitSkips(parse, clock, tick, Stream(fs) + cut, fs, cut, id, late, Waited(Broken(ConnectionClosed), [], late + 1));
  }

  lemma {:induction false} ClockRunsOut(parse: Parser, clock: Clock, tick: nat, s: bytes, fs: seq<Frame>, rest: bytes,
                                        id: int)
    requires Reads(s, fs, rest) && Quiet(parse, fs, id)
    requires !clock(tick + MessageCount(fs))
    ensures Await(parse, clock, tick, s, id).outcome == TimedOut
    decreases |fs|
  {
    if !clock(tick) {
      AwaitEndsAtTheClock(parse, clock, tick, s, id);
    } else if fs != [] {
      assert PassedOver(parse, fs[0], id);
      AwaitPassesOver(parse, clock, tick, s, fs[0], ReadFrame(s).rest, id);
      ClockRunsOut(parse, clock, After(tick, fs[0]), ReadFrame(s).rest, fs[1..], rest, id);
    }
  }

  /** A call whose time is up behind messages that are not for it gives up, whatever would come next. */
  lemma {:induction false} TimeIsUp(parse: Parser, clock: Clock, tick: nat, fs: seq<Frame>, tail: bytes, id: int)
    requires (forall i :: 0 <= i < |fs| ==> Unrelated(parse, fs[i], id)) && !clock(tick + MessageCount(fs))
    ensures AllValid(fs) && Await(parse, clock, tick, Stream(fs) + tail, id).outcome == TimedOut
  {
    UnrelatedAreQuiet(parse, fs, tail, id);
    ClockRunsOut(parse, clock, tick, Stream(fs) + tail, fs, tail, id);
  }

  /** Conversely, on any bytes: a call that concludes says what its first reply says. */
  lemma {:induction false} ConclusionIsSaid(parse: Parser, clock: Clock, tick: nat, s: bytes, id: int)
    returns (fs: seq<Frame>, reply: Frame, fields: map<string, Json>)
    requires Concludes(Await(parse, clock, tick, s, id))
    ensures FramedBy(s, fs + [reply], Await(parse, clock, tick, s, id).rest) && Quiet(parse, fs, id)
    ensures DataFrame(reply) && parse(reply.payload) == Some(JObject(fields)) && IdIs(fields, id)
    ensures Says(fields, Await(parse, clock, tick, s, id).outcome)
  {
    fs, reply := AnswerIsFirstReply(parse, clock, tick, s, id);
    fields := parse(reply.payload).value.fields;
    IdsCompareAsNumbers(fields, id);
    VerdictSays(fields);
  }

  // --- several calls on one connection ---

  /** The part of the stream that one call should consume. */
  datatype Turn = Turn(id: int, before: seq<Frame>, reply: Frame)

  predicate Fits(parse: Parser, t: Turn) {
    Quiet(parse, t.before, t.id) && t.reply.Valid() && IsReply(parse, t.reply, t.id)
  }

  function FramesOf(turns: seq<Turn>): seq<Frame> {
    if turns == [] then [] else turns[0].before + [turns[0].reply] + FramesOf(turns[1..])
  }

  function IdsOf(turns: seq<Turn>): seq<int> {
    if turns == [] then [] else [turns[0].id] + IdsOf(turns[1..])
  }

  /** What the calls with these replies return. */
  function Verdicts(parse: Parser, turns: seq<Turn>): seq<CdpOutcome>
    requires AllFit(parse, turns)
  {
    if turns == [] then []
    else
      assert Fits(parse, turns[0]);
      [Verdict(parse(turns[0].reply.payload).value)] + Verdicts(parse, turns[1..])
  }

  predicate AllFit(parse: Parser, turns: seq<Turn>) {
    forall i :: 0 <= i < |turns| ==> Fits(parse, turns[i])
  }

  /** How often the calls read the clock. */
  function Readings(turns: seq<Turn>): nat {
    if turns == [] then 0 else MessageCount(turns[0].before) + 1 + Readings(turns[1..])
  }

  /** The clock does not run out while the calls read their messages. */
  predicate AllInTime(clock: Clock, tick: nat, turns: seq<Turn>) {
    forall k :: tick <= k < tick + Readings(turns) ==> clock(k)
  }

  /** Outcomes of the calls, bytes left in the stream, and clock readings used up. */
  datatype Session = Session(outcomes: seq<CdpOutcome>, rest: bytes, tick: nat)

  /** Make the calls one after the other and collect what they return. */
  function AwaitAll(parse: Parser, clock: Clock, tick: nat, s: bytes, ids: seq<int>): (r: Session)
    ensures |r.outcomes| == |ids|
    decreases |ids|
  {
    if ids == [] then Session([], s, tick)
    else
      var w := Await(parse, clock, tick, s, ids[0]);
      var more := AwaitAll(parse, clock, w.tick, w.rest, ids[1..]);
      Session([w.outcome] + more.outcomes, more.rest, more.tick)
  }

  predicate AllConclude(outcomes: seq<CdpOutcome>) {
    forall i :: 0 <= i < |outcomes| ==> Concluded(outcomes[i])
  }

  /** The stream holds, in time, the replies in the order of the calls, each behind frames its call passes over. */
  ghost predicate RepliesInOrder(parse: Parser, clock: Clock, tick: nat, s: bytes, ids: seq<int>, turns: seq<Turn>,
                                 rest: bytes) {
    && IdsOf(turns) == ids && AllFit(parse, turns) && AllInTime(clock, tick, turns)
    && FramedBy(s, FramesOf(turns), rest)
  }

  lemma {:induction false} FitsIsValid(parse: Parser, t: Turn)
    requires Fits(parse, t)
    ensures AllValid(t.before + [t.reply])
  {
    QuietIsValid(parse, t.before, t.id);
  }

  lemma {:induction false} FramesAreValid(parse: Parser, turns: seq<Turn>)
    requires AllFit(parse, turns)
    ensures AllValid(FramesOf(turns))
  {
    if turns != [] {
      FitsIsValid(parse, turns[0]);
      FramesAreValid(parse, turns[1..]);
    }
  }

  /** The frames of a first turn and of the turns behind it, and the bytes between them. */
  lemma {:induction false} StreamOfTurns(parse: Parser, t: Turn, turns: seq<Turn>, rest: bytes)
    requires Fits(parse, t) && AllFit(parse, turns)
    ensures AllValid(t.before + [t.reply]) && AllValid(FramesOf(turns)) && AllValid(FramesOf([t] + turns))
    ensures Stream(FramesOf([t] + turns)) + rest == Stream(t.before + [t.reply]) + (Stream(FramesOf(turns)) + rest)
  {
    FitsIsValid(parse, t);
    FramesAreValid(parse, turns);
    assert ([t] + turns)[1..] == turns;
    assert FramesOf([t] + turns) == t.before + [t.reply] + FramesOf(turns);
    StreamConcat(t.before + [t.reply], FramesOf(turns));
    Associate(Stream(t.before + [t.reply]), Stream(FramesOf(turns)), rest);
  }

  lemma {:induction false} FirstInTime(clock: Clock, tick: nat, turns: seq<Turn>)
    requires turns != [] && AllInTime(clock, tick, turns)
    ensures InTime(clock, tick, turns[0].before)
    ensures AllInTime(clock, tick + MessageCount(turns[0].before) + 1, turns[1..])
  {
  }

  lemma {:induction false} ReadsSplit(s: bytes, a: seq<Frame>, b: seq<Frame>, rest: bytes) returns (mid: bytes)
    requires Reads(s, a + b, rest)
    ensures Reads(s, a, mid) && Reads(mid, b, rest)
    decreases |a|
  {
    if a == [] {
      assert a + b == b;
      mid := s;
    } else {
      assert (a + b)[1..] == a[1..] + b;
      mid := ReadsSplit(ReadFrame(s).rest, a[1..], b, rest);
    }
  }

  lemma {:induction false} AwaitOneMore(parse: Parser, clock: Clock, tick: nat, s: bytes, id: int, ids: seq<int>,
                                        w: Waited)
    requires Await(parse, clock, tick, s, id) == w
    ensures var more := AwaitAll(parse, clock, w.tick, w.rest, ids);
            AwaitAll(parse, clock, tick, s, [id] + ids) == Session([w.outcome] + more.outcomes, more.rest, more.tick)
  {
    assert ([id] + ids)[1..] == ids;
  }

  lemma {:induction false} FirstCallAnswered(parse: Parser, clock: Clock, tick: nat, s: bytes, t: Turn, rest: bytes)
    returns (w: Waited)
    requires Fits(parse, t) && InTime(clock, tick, t.before)
    requires Reads(s, t.before + [t.reply], rest)
    ensures Await(parse, clock, tick, s, t.id) == w
    ensures w == Waited(Verdict(parse(t.reply.payload).value), rest, tick + MessageCount(t.before) + 1)
  {
    FirstReplyAt(parse, clock, tick, s, t.before, t.reply, rest, t.id);
    w := Waited(Verdict(parse(t.reply.payload).value), rest, tick + MessageCount(t.before) + 1);
  }

  lemma {:induction false} AnsweredInTurn(parse: Parser, clock: Clock, tick: nat, s: bytes, turns: seq<Turn>,
                                          tail: bytes)
    requires AllFit(parse, turns) && AllInTime(clock, tick, turns) && Reads(s, FramesOf(turns), tail)
    ensures AwaitAll(parse, clock, tick, s, IdsOf(turns))
            == Session(Verdicts(parse, turns), tail, tick + Readings(turns))
    decreases |turns|
  {
    if turns != [] {
      FirstInTime(clock, tick, turns);
      var rest := ReadsSplit(s, turns[0].before + [turns[0].reply], FramesOf(turns[1..]), tail);
      var w := FirstCallAnswered(parse, clock, tick, s, turns[0], rest);
      AnsweredInTurn(parse, clock, w.tick, rest, turns[1..], tail);
      AwaitOneMore(parse, clock, tick, s, turns[0].id, IdsOf(turns[1..]), w);
    }
  }

  /** When replies come in time and in the order of the calls, every call gets its own, however many events, late
      replies and control frames are interleaved; and the calls together consume exactly those frames. */
  lemma {:induction false} EveryCallGetsItsReply(parse: Parser, clock: Clock, tick: nat, turns: seq<Turn>, tail: bytes)
    requires AllFit(parse, turns) && AllInTime(clock, tick, turns)
    ensures AllValid(FramesOf(turns))
    ensures AwaitAll(parse, clock, tick, Stream(FramesOf(turns)) + tail, IdsOf(turns))
            == Session(Verdicts(parse, turns), tail, tick + Readings(turns))
  {
    FramesAreValid(parse, turns);
    StreamReads(FramesOf(turns), tail);
    AnsweredInTurn(parse, clock, tick, Stream(FramesOf(turns)) + tail, turns, tail);
  }

  /** Whatever the bytes are, if all calls conclude then the replies came in time and in the order of the calls. */
  lemma {:induction false} ConcludingCallsWereInOrder(parse: Parser, clock: Clock, tick: nat, s: bytes, ids: seq<int>)
    returns (turns: seq<Turn>)
    requires AllConclude(AwaitAll(parse, clock, tick, s, ids).outcomes)
    ensures RepliesInOrder(parse, clock, tick, s, ids, turns, AwaitAll(parse, clock, tick, s, ids).rest)
    decreases |ids|
  {
    if ids == [] {
      turns := [];
      EmptyStream(s);
    } else {
      var all := AwaitAll(parse, clock, tick, s, ids);
      var w := Await(parse, clock, tick, s, ids[0]);
      var later := AwaitAll(parse, clock, w.tick, w.rest, ids[1..]);
      assert all.outcomes[0] == w.outcome;
      assert AllConclude(later.outcomes) by {
        forall i | 0 <= i < |later.outcomes| ensures Concluded(later.outcomes[i]) {
          assert all.outcomes[i + 1] == later.outcomes[i];
        }
      }
      var before, reply := AnswerIsFirstReply(parse, clock, tick, s, ids[0]);
      var more := ConcludingCallsWereInOrder(parse, clock, w.tick, w.rest, ids[1..]);
      FirstTurnAdded(parse, clock, tick, s, Turn(ids[0], before, reply), w.rest, ids[1..], more, all.rest);
      turns := [Turn(ids[0], before, reply)] + more;
      assert ids == [ids[0]] + ids[1..];
    }
  }

  lemma {:induction false} FirstTurnAdded(parse: Parser, clock: Clock, tick: nat, s: bytes, t: Turn, s': bytes,
                                          ids: seq<int>, turns: seq<Turn>, rest: bytes)
    requires Fits(parse, t) && InTime(clock, tick, t.before) && FramedBy(s, t.before + [t.reply], s')
    requires RepliesInOrder(parse, clock, tick + MessageCount(t.before) + 1, s', ids, turns, rest)
    ensures RepliesInOrder(parse, clock, tick, s, [t.id] + ids, [t] + turns, rest)
  {
    assert ([t] + turns)[1..] == turns;
    StreamOfTurns(parse, t, turns, rest);
  }

  /** All calls of a connection conclude if and only if their replies come in time and in the order of the calls. */
  lemma {:induction false} CallsConcludeExactlyInOrder(parse: Parser, clock: Clock, tick: nat, s: bytes, ids: seq<int>)
    ensures AllConclude(AwaitAll(parse, clock, tick, s, ids).outcomes)
            <==> exists turns, rest :: RepliesInOrder(parse, clock, tick, s, ids, turns, rest)
  {
    if AllConclude(AwaitAll(parse, clock, tick, s, ids).outcomes) {
      var turns := ConcludingCallsWereInOrder(parse, clock, tick, s, ids);
    }
    if exists turns, rest :: RepliesInOrder(parse, clock, tick, s, ids, turns, rest) {
      var turns, rest :| RepliesInOrder(parse, clock, tick, s, ids, turns, rest);
      EveryCallGetsItsReply(parse, clock, tick, turns, rest);
      VerdictsConclude(parse, turns);
    }
  }

  lemma {:induction false} VerdictsConclude(parse: Parser, turns: seq<Turn>)
    requires AllFit(parse, turns)
    ensures AllConclude(Verdicts(parse, turns))
  {
    if turns != [] {
      VerdictsConclude(parse, turns[1..]);
    }
  }

  /** Out of order, a reply is lost: the first call passes over it, and the second, finding no other message
      with its id in what is left, never concludes. */
  lemma {:induction false} OvertakenReplyIsLost(parse: Parser, clock: Clock, tick: nat, first: Frame, second: Frame,
                                                later: seq<Frame>, id1: int, id2: int)
    requires first.Valid() && IsReply(parse, first, id1)
    requires second.Valid() && IsReply(parse, second, id2) && !IsReply(parse, second, id1)
    requires Quiet(parse, later, id2) && InTime(clock, tick, [second])
    ensures AllValid([second] + [first] + later)
    ensures var all := AwaitAll(parse, clock, tick, Stream([second] + [first] + later), [id1, id2]);
            && all.outcomes[0] == Verdict(parse(first.payload).value)
            && !Concluded(all.outcomes[1])
  {
    var s, ids := Stream([second] + [first] + later), [id1, id2];
    QuietIsValid(parse, later, id2);
    StreamConcat([second] + [first], later);
    FirstReplyAnswers(parse, clock, tick, [second], first, Stream(later), id1);
    var w := Await(parse, clock, tick, s, id1);
    NoReplyNoAnswer(parse, clock, w.tick, later, id2);
    assert ids[1..] == [id2];
    assert AwaitAll(parse, clock, w.tick, w.rest, [id2]).outcomes[0]
           == Await(parse, clock, w.tick, w.rest, id2).outcome;
  }

  /** Two replies that come in the wrong order: the first call is answered, the second is not. */
  lemma {:induction false} OvertakenReplyExample()
    ensures var parse: Parser := (payload: bytes) =>
              if |payload| == 1 then Some(JObject(map["id" := JInt(payload[0] as int)])) else None;
            var first, second := Frame(0x81, None, Short, [1]), Frame(0x81, None, Short, [2]);
            var all := AwaitAll(parse, (k: nat) => true, 0, Stream([second] + [first]), [1, 2]);
            all.outcomes[0] == Answered(JObject(map[])) && !Concluded(all.outcomes[1])
  {
    var parse: Parser := (payload: bytes) =>
      if |payload| == 1 then Some(JObject(map["id" := JInt(payload[0] as int)])) else None;
    var first, second := Frame(0x81, None, Short, [1]), Frame(0x81, None, Short, [2]);
    assert first.Valid() && second.Valid();
    assert IsReply(parse, first, 1) && IsReply(parse, second, 2) && !IsReply(parse, second, 1);
    assert [second] + [first] + [] == [second] + [first];
    OvertakenReplyIsLost(parse, (k: nat) => true, 0, first, second, [], 1, 2);
  }

  // --- the procedure ---

  class Stopwatch {
    const before: Clock
    var readings: nat

    constructor (before: Clock)
      ensures this.before == before && readings == 0
    {
      this.before := before;
      readings := 0;
    }

    method InTime() returns (b: bool)
      modifies this`readings
      ensures b == before(old(readings)) && readings == old(readings) + 1
    {
      b := before(readings);
      readings := readings + 1;
    }
  }

  /** Send the request, then read messages until one bears the id, the time is up or reading fails. */
  method Call(sock: Socket, watch: Stopwatch, parse: Parser, request: bytes, id: int) returns (outcome: CdpOutcome)
    modifies sock`incoming, sock`readCount, sock`outgoing, sock`draws, watch`readings
    ensures if |request| >= 0x1_0000_0000_0000_0000 then
              outcome == Broken(TooLong) && sock.incoming == old(sock.incoming) && sock.outgoing == old(sock.outgoing)
            else
              && sock.outgoing == old(sock.outgoing) + Encode(ClientFrame(request, sock.random(old(sock.draws))))
              && Waited(outcome, sock.incoming, watch.readings)
                 == Await(parse, watch.before, old(watch.readings), old(sock.incoming), id)
  {
    var sent := WsSend(sock, request);
    if sent.Err? {
      return Broken(sent.error);
    }
    ghost var expected := Await(parse, watch.before, watch.readings, sock.incoming, id);
    var inTime := watch.InTime();
    while inTime
      invariant inTime ==> watch.readings > 0 && watch.before(watch.readings - 1)
                           && expected == Await(parse, watch.before, watch.readings - 1, sock.incoming, id)
      invariant !inTime ==> expected == Waited(TimedOut, sock.incoming, watch.readings)
      invariant sock.outgoing == old(sock.outgoing) + Encode(ClientFrame(request, sock.random(old(sock.draws))))
      decreases |sock.incoming|, inTime
    {
      var payload := WsRecv(sock);
      if payload.Err? {
        return Broken(payload.error);
      }
      var message := parse(payload.value);
      if message.None? || !message.value.JObject? {
        return BadMessage;
      }
      if BearsId(message.value, id) {
        if message.value.Get("error").Some? {
          return RemoteError(message.value.Get("error").value);
        }
        return Answered(message.value.Get("result").GetOr(JObject(map[])));
      }
      inTime := watch.InTime();
    }
    return TimedOut;
  }
}
