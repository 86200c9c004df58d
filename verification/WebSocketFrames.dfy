/** WebSocket frames as bytes: sections 5.2 and 5.3 of RFC 6455 as `_ws_send` writes and `_ws_recv` reads them. */
module WebSocketFrames {
  import opened Wrappers
  import opened Bytes

  // --- the frame grammar ---

  datatype LengthForm = Short | Medium | Long

  datatype Frame = Frame(first: bv8, mask: Option<bytes>, form: LengthForm, payload: bytes) {
    predicate Valid() {
      && (mask.Some? ==> |mask.value| == 4)
      && match form
         case Short => |payload| < 126
         case Medium => |payload| < 0x1_0000
         case Long => |payload| < 0x1_0000_0000_0000_0000
    }

    function Opcode(): bv8 {
      first & 0x0F
    }

    predicate Final() {
      first & 0x80 != 0
    }
  }

  function Xored(data: bytes, mask: bytes): (r: bytes)
    requires |mask| == 4
    ensures |r| == |data|
  {
    seq(|data|, i requires 0 <= i < |data| => data[i] ^ mask[i % 4])
  }

  lemma {:induction false} XorTwice(data: bytes, mask: bytes)
    requires |mask| == 4
    ensures Xored(Xored(data, mask), mask) == data
  {
    forall i | 0 <= i < |data| ensures Xored(Xored(data, mask), mask)[i] == data[i] {
      assert (data[i] ^ mask[i % 4]) ^ mask[i % 4] == data[i];
    }
  }

  function Masked(mask: Option<bytes>, data: bytes): bytes
    requires mask.Some? ==> |mask.value| == 4
  {
    match mask
    case None => data
    case Some(m) => Xored(data, m)
  }

  function MaskBit(mask: Option<bytes>): bv8 {
    if mask.Some? then 0x80 else 0
  }

  /** The second byte and the extended length. */
  function LengthField(f: Frame): bytes
    requires f.Valid()
  {
    match f.form
    case Short => [MaskBit(f.mask) | (|f.payload| as bv8)]
    case Medium => [MaskBit(f.mask) | 126] + BigEndian(|f.payload|, 2)
    case Long => [MaskBit(f.mask) | 127] + BigEndian(|f.payload|, 8)
  }

  /** The bytes of a frame. */
  function Encode(f: Frame): bytes
    requires f.Valid()
  {
    [f.first] + LengthField(f) + f.mask.GetOr([]) + Masked(f.mask, f.payload)
  }

  function Flatten(parts: seq<bytes>): bytes {
    if parts == [] then [] else parts[0] + Flatten(parts[1..])
  }

  lemma {:induction false} FlattenConcat(a: seq<bytes>, b: seq<bytes>)
    ensures Flatten(a + b) == Flatten(a) + Flatten(b)
  {
    if a == [] {
      assert a + b == b;
    } else {
      FlattenConcat(a[1..], b);
      assert (a + b)[1..] == a[1..] + b;
    }
  }

  predicate AllValid(fs: seq<Frame>) {
    forall i :: 0 <= i < |fs| ==> fs[i].Valid()
  }

  function Encodings(fs: seq<Frame>): seq<bytes>
    requires AllValid(fs)
  {
    seq(|fs|, i requires 0 <= i < |fs| => Encode(fs[i]))
  }

  /** The bytes of several frames. */
  function Stream(fs: seq<Frame>): bytes
    requires AllValid(fs)
  {
    Flatten(Encodings(fs))
  }

  // --- reading ---

  datatype Read<+T> = Got(value: T, rest: bytes) | Closed

  function TakeExact(s: bytes, size: nat): Read<bytes> {
    if size <= |s| then Got(s[..size], s[size..]) else Closed
  }

  datatype Received = Received(opcode: bv8, payload: bytes)

  function ReadLength(second: bv8, s: bytes): Read<nat> {
    var length := (second & 0x7F) as nat;
    var size := if length == 126 then 2 else if length == 127 then 8 else 0;
    match TakeExact(s, size)
    case Closed => Closed
    case Got(extended, rest) => Got(if size == 0 then length else FromBigEndian(extended), rest)
  }

  function ReadMask(second: bv8, s: bytes): (r: Read<Option<bytes>>)
    ensures r.Got? && r.value.Some? ==> |r.value.value| == 4
  {
    if second & 0x80 == 0 then Got(None, s)
    else
      match TakeExact(s, 4)
      case Closed => Closed
      case Got(mask, rest) => Got(Some(mask), rest)
  }

  function ReadBody(first: bv8, second: bv8, s: bytes): Read<Received> {
    match ReadLength(second, s)
    case Closed => Closed
    case Got(length, afterLength) =>
      match ReadMask(second, afterLength)
      case Closed => Closed
      case Got(mask, afterMask) =>
        match TakeExact(afterMask, length)
        case Closed => Closed
        case Got(payload, rest) => Got(Received(first & 0x0F, Masked(mask, payload)), rest)
  }

  /** Read one frame off the front of the bytes. */
  function ReadFrame(s: bytes): (r: Read<Received>)
    ensures r.Got? ==> |r.rest| + 2 <= |s|
  {
    match TakeExact(s, 2)
    case Closed => Closed
    case Got(head, rest) => ReadBody(head[0], head[1], rest)
  }

  // --- reading and writing are inverse ---

  lemma {:induction false} SecondByte(mask: Option<bytes>, n: nat)
    requires n < 128
    ensures ((MaskBit(mask) | (n as bv8)) & 0x7F) as nat == n
    ensures (MaskBit(mask) | (n as bv8)) & 0x80 == MaskBit(mask)
  {
    var b := n as bv8;
    ByteRoundTrip(n);
    assert b < 128;
    assert (MaskBit(mask) | b) & 0x7F == b;
    assert (MaskBit(mask) | b) & 0x80 == MaskBit(mask);
  }

  lemma {:induction false} SplitAt(a: bytes, b: bytes)
    ensures TakeExact(a + b, |a|) == Got(a, b)
  {
  }

  /** The value of the low seven bits of the second byte. */
  function LengthCode(f: Frame): nat {
    match f.form
    case Short => |f.payload|
    case Medium => 126
    case Long => 127
  }

  function Extended(f: Frame): bytes {
    match f.form
    case Short => []
    case Medium => BigEndian(|f.payload|, 2)
    case Long => BigEndian(|f.payload|, 8)
  }

  lemma {:induction false} LengthIsRead(f: Frame, tail: bytes)
    requires f.Valid()
    ensures LengthField(f) == [LengthField(f)[0]] + Extended(f)
    ensures LengthField(f)[0] == MaskBit(f.mask) | (LengthCode(f) as bv8)
    ensures ReadLength(LengthField(f)[0], Extended(f) + tail) == Got(|f.payload|, tail)
  {
    SecondByte(f.mask, LengthCode(f));
    Pow256Values();
    if f.form != Short {
      UnpackPack(|f.payload|, |Extended(f)|);
    }
    SplitAt(Extended(f), tail);
  }

  lemma {:induction false} MaskIsRead(f: Frame, tail: bytes)
    requires f.Valid()
    ensures ReadMask(LengthField(f)[0], f.mask.GetOr([]) + tail) == Got(f.mask, tail)
  {
    LengthIsRead(f, []);
    SecondByte(f.mask, LengthCode(f));
    var mask := f.mask.GetOr([]);
    assert (mask + tail)[..|mask|] == mask && (mask + tail)[|mask|..] == tail;
  }

  lemma {:induction false} Regroup(a: bytes, b: bytes, c: bytes, d: bytes, e: bytes)
    ensures a + b + c + d + e == a + (b + (c + (d + e)))
  {
  }

  lemma {:induction false} EncodeSplits(f: Frame, tail: bytes)
    requires f.Valid()
    ensures Encode(f) + tail
            == [f.first, LengthField(f)[0]] + (Extended(f) + (f.mask.GetOr([]) + (Masked(f.mask, f.payload) + tail)))
  {
    LengthIsRead(f, []);
    var head := [f.first, LengthField(f)[0]];
    assert [f.first] + LengthField(f) == head + Extended(f);
    Regroup(head, Extended(f), f.mask.GetOr([]), Masked(f.mask, f.payload), tail);
  }

  /** Whatever follows, reading an encoded frame gives its opcode and payload and stops exactly behind it. */
  lemma {:induction false} ReadEncoded(f: Frame, tail: bytes)
    requires f.Valid()
    ensures ReadFrame(Encode(f) + tail) == Got(Received(f.Opcode(), f.payload), tail)
  {
    var second, mask, body := LengthField(f)[0], f.mask.GetOr([]), Masked(f.mask, f.payload);
    var afterMask := body + tail;
    var afterLength := mask + afterMask;
    EncodeSplits(f, tail);
    SplitAt([f.first, second], Extended(f) + afterLength);
    LengthIsRead(f, afterLength);
    MaskIsRead(f, afterMask);
    SplitAt(body, tail);
    assert Masked(f.mask, body) == f.payload by {
      if f.mask.Some? {
        XorTwice(f.payload, f.mask.value);
      }
    }
  }

  function FormOf(second: bv8): LengthForm {
    var code := (second & 0x7F) as nat;
    if code == 126 then Medium else if code == 127 then Long else Short
  }

  /** The frame that the reader saw at the front of the bytes. */
  function FrameAt(s: bytes): Frame
    requires ReadFrame(s).Got?
  {
    var afterLength := ReadLength(s[1], s[2..]).rest;
    Frame(s[0], ReadMask(s[1], afterLength).value, FormOf(s[1]), ReadFrame(s).value.payload)
  }

  lemma {:induction false} SecondByteSplits(second: bv8)
    ensures second == (second & 0x80) | (second & 0x7F)
    ensures second & 0x80 == 0 || second & 0x80 == 0x80
    ensures (second & 0x7F) as nat < 128
    ensures ((second & 0x7F) as nat) as bv8 == second & 0x7F
  {
    var low := second & 0x7F;
    assert low < 128;
  }

  /** A frame whose payload has the length that was read has the length bytes that were read. */
  lemma {:induction false} LengthRoundTrip(second: bv8, s: bytes, f: Frame)
    requires ReadLength(second, s).Got? && f.form == FormOf(second) && |f.payload| == ReadLength(second, s).value
    requires f.mask.Some? ==> |f.mask.value| == 4
    ensures f.Valid() && LengthCode(f) == (second & 0x7F) as nat
    ensures s == Extended(f) + ReadLength(second, s).rest
  {
    SecondByteSplits(second);
    Pow256Values();
    if f.form != Short {
      var size := |Extended(f)|;
      PackUnpack(s[..size]);
      assert s == s[..size] + s[size..];
    }
  }

  lemma {:induction false} HeadByte(second: bv8, f: Frame)
    requires f.Valid() && MaskBit(f.mask) == second & 0x80 && LengthCode(f) == (second & 0x7F) as nat
    ensures LengthField(f)[0] == second
  {
    SecondByteSplits(second);
    LengthIsRead(f, []);
  }

  lemma {:induction false} MaskRoundTrip(second: bv8, s: bytes)
    requires ReadMask(second, s).Got?
    ensures var mask := ReadMask(second, s).value;
            second & 0x80 == MaskBit(mask) && s == mask.GetOr([]) + ReadMask(second, s).rest
  {
    SecondByteSplits(second);
    if second & 0x80 != 0 {
      assert s == s[..4] + s[4..];
    }
  }

  lemma {:induction false} BodyRoundTrip(mask: Option<bytes>, s: bytes, size: nat)
    requires size <= |s| && (mask.Some? ==> |mask.value| == 4)
    ensures |Masked(mask, s[..size])| == size
    ensures s == Masked(mask, Masked(mask, s[..size])) + s[size..]
  {
    if mask.Some? {
      XorTwice(s[..size], mask.value);
    }
  }

  /** What a successful read found behind the two head bytes. */
  lemma {:induction false} ReadParts(s: bytes)
    requires ReadFrame(s).Got?
    ensures var f := FrameAt(s);
            && f.Valid()
            && s[1] == LengthField(f)[0]
            && s[2..] == Extended(f) + (f.mask.GetOr([]) + (Masked(f.mask, f.payload) + ReadFrame(s).rest))
  {
    var f := FrameAt(s);
    var length := ReadLength(s[1], s[2..]);
    var mask := ReadMask(s[1], length.rest);
    var body := TakeExact(mask.rest, length.value);
    BodyRoundTrip(mask.value, mask.rest, length.value);
    LengthRoundTrip(s[1], s[2..], f);
    MaskRoundTrip(s[1], length.rest);
    HeadByte(s[1], f);
  }

  /** Whatever is read as a frame is an encoded frame: the reader accepts the grammar and nothing else. */
  lemma {:induction false} ReadIsEncoded(s: bytes)
    requires ReadFrame(s).Got?
    ensures FrameAt(s).Valid()
    ensures s == Encode(FrameAt(s)) + ReadFrame(s).rest
    ensures ReadFrame(s).value == Received(FrameAt(s).Opcode(), FrameAt(s).payload)
  {
    ReadParts(s);
    EncodeSplits(FrameAt(s), ReadFrame(s).rest);
    assert s == [s[0], s[1]] + s[2..];
  }

  lemma {:induction false} HeadCode(f: Frame)
    requires f.Valid()
    ensures (LengthField(f)[0] & 0x7F) as nat == LengthCode(f) && LengthField(f)[0] & 0x80 == MaskBit(f.mask)
  {
    LengthIsRead(f, []);
    SecondByte(f.mask, LengthCode(f));
  }

  lemma {:induction false} HeadTellsForm(f: Frame, g: Frame)
    requires f.Valid() && g.Valid() && LengthField(f)[0] == LengthField(g)[0]
    ensures f.mask.Some? == g.mask.Some? && f.form == g.form
  {
    HeadCode(f);
    HeadCode(g);
  }

  lemma {:induction false} HeadOf(f: Frame, tail: bytes)
    requires f.Valid()
    ensures |Encode(f) + tail| >= 2
    ensures (Encode(f) + tail)[0] == f.first && (Encode(f) + tail)[1] == LengthField(f)[0]
    ensures (Encode(f) + tail)[2..] == Extended(f) + (f.mask.GetOr([]) + (Masked(f.mask, f.payload) + tail))
  {
    EncodeSplits(f, tail);
  }

  lemma {:induction false} SameStart(a: bytes, b: bytes, a': bytes, b': bytes)
    requires |a| == |a'| && a + b == a' + b'
    ensures a == a' && b == b'
  {
    assert (a + b)[..|a|] == a && (a' + b')[..|a|] == a';
    assert (a + b)[|a|..] == b && (a' + b')[|a|..] == b';
  }

  /** Frames are encoded injectively, and no frame is a proper prefix of another, whatever forms, masks and opcodes
      they use. */
  lemma {:induction false} FramesArePrefixFree(f: Frame, g: Frame, tail: bytes)
    requires f.Valid() && g.Valid()
    requires Encode(f) + tail == Encode(g)
    ensures tail == [] && f == g
  {
    ReadEncoded(f, tail);
    ReadEncoded(g, []);
    assert Encode(g) + [] == Encode(g);
    HeadOf(f, tail);
    HeadOf(g, []);
    HeadTellsForm(f, g);
    SameStart(Extended(f), f.mask.GetOr([]) + (Masked(f.mask, f.payload) + tail),
              Extended(g), g.mask.GetOr([]) + (Masked(g.mask, g.payload) + []));
    SameStart(f.mask.GetOr([]), Masked(f.mask, f.payload) + tail, g.mask.GetOr([]), Masked(g.mask, g.payload) + []);
  }

  lemma {:induction false} Extend(a: bytes, b: bytes, c: bytes, ab: bytes, abc: bytes)
    requires ab == a + b && ab <= abc && c == abc[|ab|..]
    ensures a + (b + c) == abc
  {
  }

  /** A frame cut short anywhere reads as a closed connection. */
  lemma {:induction false} ShortFrameIsClosed(f: Frame, cut: bytes)
    requires f.Valid() && cut < Encode(f)
    ensures ReadFrame(cut) == Closed
  {
    if ReadFrame(cut).Got? {
      ReadIsEncoded(cut);
      var g, rest, missing := FrameAt(cut), ReadFrame(cut).rest, Encode(f)[|cut|..];
      Extend(Encode(g), rest, missing, cut, Encode(f));
      FramesArePrefixFree(g, f, ReadFrame(cut).rest + missing);
    }
  }

  // --- what the client sends ---

  function ClientForm(length: nat): LengthForm {
    if length < 126 then Short else if length < 0x1_0000 then Medium else Long
  }

  /** The frame `_ws_send` emits: final, text, masked. */
  function ClientFrame(data: bytes, mask: bytes): (f: Frame)
    requires |mask| == 4 && |data| < 0x1_0000_0000_0000_0000
    ensures f.Valid()
  {
    Frame(0x81, Some(mask), ClientForm(|data|), data)
  }

  /** No masked frame with as long a payload has fewer bytes than the one the client emits. */
  lemma {:induction false} ClientFrameIsShortest(data: bytes, mask: bytes, f: Frame)
    requires |mask| == 4 && |data| < 0x1_0000_0000_0000_0000
    requires f.Valid() && f.mask.Some? && |f.payload| == |data|
    ensures |Encode(ClientFrame(data, mask))| <= |Encode(f)|
    ensures |Encode(ClientFrame(data, mask))| == |Encode(f)| ==> f.form == ClientForm(|data|)
  {
  }

  /** How many bytes stand before the mask and the payload. */
  function HeadSize(form: LengthForm): nat {
    match form
    case Short => 2
    case Medium => 4
    case Long => 10
  }

  /** The length among the bytes `e`: in the second byte, or announced there by 126 or 127 and following in two or eight
      bytes, the most significant first. */
  predicate LengthStands(e: bytes, form: LengthForm, length: nat) {
    && |e| >= HeadSize(form)
    && (e[1] & 0x7F) as nat == (match form case Short => length case Medium => 126 case Long => 127)
    && forall k :: 2 <= k < HeadSize(form) ==> e[k] as nat == ShiftRight(length, HeadSize(form) - 1 - k) % 256
  }

  /** The bit before the length tells whether there is a mask. */
  predicate MaskBitStands(e: bytes, mask: Option<bytes>) {
    |e| >= 2 && e[1] & 0x80 == (if mask.Some? then 0x80 else 0)
  }

  /** The mask, if any, and behind it the payload, each byte combined with a byte of the mask. */
  predicate PayloadStands(e: bytes, h: nat, mask: Option<bytes>, payload: bytes) {
    h <= |e| &&
    match mask
    case None => e[h..] == payload
    case Some(mask) =>
      && |mask| == 4 && |e| == h + 4 + |payload| && e[h..h + 4] == mask
      && forall i :: 0 <= i < |payload| ==> e[h + 4 + i] == payload[i] ^ mask[i % 4]
  }

  lemma {:induction false} LengthLayout(f: Frame, tail: bytes)
    requires f.Valid()
    ensures |[f.first] + LengthField(f)| == HeadSize(f.form)
    ensures LengthStands([f.first] + LengthField(f) + tail, f.form, |f.payload|)
    ensures MaskBitStands([f.first] + LengthField(f) + tail, f.mask)
  {
    var e := [f.first] + LengthField(f) + tail;
    HeadCode(f);
    LengthIsRead(f, []);
    forall k | 2 <= k < HeadSize(f.form)
      ensures e[k] as nat == ShiftRight(|f.payload|, HeadSize(f.form) - 1 - k) % 256
    {
      PackedDigits(|f.payload|, HeadSize(f.form) - 2, k - 2);
      assert e[k] == Extended(f)[k - 2];
    }
  }

  lemma {:induction false} PayloadLayout(head: bytes, mask: Option<bytes>, payload: bytes)
    requires mask.Some? ==> |mask.value| == 4
    ensures PayloadStands(head + mask.GetOr([]) + Masked(mask, payload), |head|, mask, payload)
  {
    var e := head + mask.GetOr([]) + Masked(mask, payload);
    match mask
    case None => assert e[|head|..] == payload;
    case Some(m) =>
      assert e[|head|..|head| + 4] == m;
      forall i | 0 <= i < |payload| ensures e[|head| + 4 + i] == payload[i] ^ m[i % 4] {
        assert e[|head| + 4 + i] == Xored(payload, m)[i];
      }
  }

  /** Where everything stands in a frame: first byte, mask bit, length, mask, payload byte by byte. */
  lemma {:induction false} FrameLayout(f: Frame)
    requires f.Valid()
    ensures var e := Encode(f);
            && LengthStands(e, f.form, |f.payload|) && e[0] == f.first && MaskBitStands(e, f.mask)
            && PayloadStands(e, HeadSize(f.form), f.mask, f.payload)
  {
    var head, tail := [f.first] + LengthField(f), f.mask.GetOr([]) + Masked(f.mask, f.payload);
    LengthLayout(f, tail);
    PayloadLayout(head, f.mask, f.payload);
    assert Encode(f) == head + tail;
  }

  /** What the client sends is one final text frame: its first byte has the final bit, no reserved bit and opcode 1. */
  lemma {:induction false} ClientFrameIsFinalText(data: bytes, mask: bytes)
    requires |mask| == 4 && |data| < 0x1_0000_0000_0000_0000
    ensures var f := ClientFrame(data, mask);
            f.first == 0x80 | 0x01 && f.Final() && f.Opcode() == 1 && f.mask == Some(mask) && f.payload == data
  {
  }

  /** The masked text message "Hello" of section 5.7 of RFC 6455. */
  lemma {:induction false} MaskedHello()
    ensures Encode(ClientFrame([0x48, 0x65, 0x6c, 0x6c, 0x6f], [0x37, 0xfa, 0x21, 0x3d]))
            == [0x81, 0x85, 0x37, 0xfa, 0x21, 0x3d, 0x7f, 0x9f, 0x4d, 0x51, 0x58]
  {
    var data: bytes, mask: bytes := [0x48, 0x65, 0x6c, 0x6c, 0x6f], [0x37, 0xfa, 0x21, 0x3d];
    assert Xored(data, mask) == [0x7f, 0x9f, 0x4d, 0x51, 0x58];
  }

  /** The unmasked header of a 256-byte binary message in the same section. */
  lemma {:induction false} UnmaskedMediumHeader(payload: bytes)
    requires |payload| == 256
    ensures Encode(Frame(0x82, None, Medium, payload)) == [0x82, 0x7E, 0x01, 0x00] + payload
  {
    PackedPair(256);
  }

  /** And that of a 64 KiB one. */
  lemma {:induction false} UnmaskedLongHeader(payload: bytes)
    requires |payload| == 0x1_0000
    ensures Encode(Frame(0x82, None, Long, payload)) == [0x82, 0x7F, 0, 0, 0, 0, 0, 1, 0, 0] + payload
  {
    PackedLong();
  }

  lemma {:induction false} PackedLong()
    ensures BigEndian(0x1_0000, 8) == [0, 0, 0, 0, 0, 1, 0, 0]
  {
    assert BigEndian(1, 6) == BigEndian(0, 5) + [1];
    assert BigEndian(0, 5) == [0, 0, 0, 0, 0];
    assert BigEndian(256, 7) == BigEndian(1, 6) + [0];
  }

  lemma {:induction false} PackedPair(n: nat)
    requires n < 0x1_0000
    ensures BigEndian(n, 2) == [(n / 256) as bv8, (n % 256) as bv8]
  {
    assert BigEndian(n / 256, 1) == BigEndian(0, 0) + [(n / 256) as bv8];
  }
}
