/**
 * The wire format (libavproto/src/serialization.cpp) and the reader that cuts a byte stream back
 * into frames (libavproto/src/avjackif.cpp). A frame is a big-endian length, a big-endian type-name
 * length, the type name and the serialized message; the first length counts everything after itself.
 */
module Framing {
  import opened Std
  import opened Cipher

  const TWO_TO_THE_31: nat := 0x8000_0000
  const TWO_TO_THE_32: nat := 0x1_0000_0000

  /** A protobuf type name; the source casts its length to `int32_t`. */
  type TypeName = s: Bytes | |s| < 0x8000_0000

  datatype Message = Message(name: TypeName, body: Bytes)

  // ----- 32-bit arithmetic -----

  /** Conversion to `uint32_t`. */
  function U32(x: int): (r: nat)
    ensures r < TWO_TO_THE_32
  {
    if 0 <= x < TWO_TO_THE_32 then x else x % TWO_TO_THE_32
  }

  /** Conversion to `int32_t`. */
  function I32(x: int): int {
    if U32(x) < TWO_TO_THE_31 then U32(x) else U32(x) - TWO_TO_THE_32
  }

  /** The four bytes of `htonl(x)` in memory order. */
  function BigEndian(x: nat): (b: Bytes)
    requires x < TWO_TO_THE_32
    ensures |b| == 4
  {
    [x / 256 / 256 / 256, x / 256 / 256 % 256, x / 256 % 256, x % 256]
  }

  /** `ntohl` of the first four bytes. */
  function ReadBigEndian(b: Bytes): (x: nat)
    requires |b| >= 4
    ensures x < TWO_TO_THE_32
  {
    ((b[0] as int * 256 + b[1] as int) * 256 + b[2] as int) * 256 + b[3] as int
  }

  /** Most significant byte first. */
  lemma BigEndianValue(x: nat)
    requires x < TWO_TO_THE_32
    ensures var b := BigEndian(x);
            b[0] as int * 16777216 + b[1] as int * 65536 + b[2] as int * 256 + b[3] as int == x
  {
    SplitByte(x);
    SplitByte(x / 256);
    SplitByte(x / 256 / 256);
  }

  /** Conversions keep the value modulo 2 to the 32, and bring it into range. */
  lemma ConversionsWrap(x: int)
    ensures (x - U32(x)) % 4294967296 == 0 && (x - I32(x)) % 4294967296 == 0
    ensures 0 <= U32(x) < 4294967296 && -2147483648 <= I32(x) < 2147483648
  {
  }

  lemma SplitByte(x: nat)
    ensures x == x / 256 * 256 + x % 256 && 0 <= x % 256 < 256
  {
  }

  lemma JoinByte(q: nat, r: byte)
    ensures (q * 256 + r) / 256 == q && (q * 256 + r) % 256 == r
  {
  }

  lemma ReadUndoesBigEndian(x: nat, tail: Bytes)
    requires x < TWO_TO_THE_32
    ensures ReadBigEndian(BigEndian(x) + tail) == x
  {
    SplitByte(x);
    SplitByte(x / 256);
    SplitByte(x / 256 / 256);
  }

  lemma BigEndianUndoesRead(b: Bytes)
    requires |b| >= 4
    ensures BigEndian(ReadBigEndian(b)) == b[..4]
  {
    var y: nat := b[0] as int * 256 + b[1] as int;
    var z: nat := y * 256 + b[2] as int;
    JoinByte(b[0], b[1]);
    JoinByte(y, b[2]);
    JoinByte(z, b[3]);
  }

  // ----- Encoding -----

  /** The frame that stands for a message. */
  function Frame(m: Message): (r: Bytes)
    ensures |r| == 8 + |m.name| + |m.body|
  {
    BigEndian(U32(4 + |m.name| + |m.body|)) + (BigEndian(|m.name|) + m.name + m.body)
  }

  /**
   * `encode`: the body is absent when protobuf cannot serialize the message. The first four bytes
   * are reserved and filled in once the length of the rest is known.
   */
  method Encode(name: TypeName, body: Option<Bytes>) returns (result: Bytes)
    ensures result == if body.Some? then Frame(Message(name, body.value)) else []
  {
    result := seq(4, _ => 0);
    result := result + BigEndian(|name|);
    result := result + name;
    if body.Some? {
      result := result + body.value;
      var len := BigEndian(U32(|result| - 4));
      for i := 0 to 4
        invariant |result| == 8 + |name| + |body.value|
        invariant result[4..] == BigEndian(|name|) + name + body.value
        invariant result[..i] == len[..i]
      {
        result := result[i := len[i]];
      }
      assert result == result[..4] + result[4..];
    } else {
      result := [];
    }
  }

  // ----- Decoding -----

  /** `Unguarded` marks the inputs on which the source reads or copies outside the buffer. */
  datatype Decoded = Accepted(message: Message) | Rejected | Unguarded

  /**
   * `decode`. `known` stands for the message registry and the protobuf parser: whether a type of
   * that name exists and accepts that body.
   */
  function Decode(buf: Bytes, known: Message -> bool): Decoded {
    var len := I32(|buf|);
    if |buf| < 4 then Unguarded
    else if U32(len) != U32(ReadBigEndian(buf) + 4) then Rejected
    else if |buf| < 8 then Unguarded
    else
      var nameLen := I32(ReadBigEndian(buf[4..]));
      if nameLen >= len - 8 then Rejected
      else if nameLen < 0 then Unguarded
      else
        assert len <= |buf|;
        var m := Message(buf[8..8 + nameLen], buf[8 + nameLen..len]);
        if known(m) then Accepted(m) else Rejected
  }

  lemma FrameParts(m: Message)
    ensures var r := Frame(m);
            && ReadBigEndian(r) == U32(4 + |m.name| + |m.body|)
            && ReadBigEndian(r[4..]) == |m.name|
            && r[8..8 + |m.name|] == m.name
            && r[8 + |m.name|..] == m.body
  {
    var inner := BigEndian(|m.name|) + m.name + m.body;
    ReadUndoesBigEndian(U32(4 + |m.name| + |m.body|), inner);
    assert Frame(m)[4..] == BigEndian(|m.name|) + (m.name + m.body);
    ReadUndoesBigEndian(|m.name|, m.name + m.body);
  }

  /** A message survives the wire exactly when it has a body and the frame stays below 2 GiB. */
  predicate Framable(m: Message) {
    m.body != [] && 8 + |m.name| + |m.body| < TWO_TO_THE_31
  }

  lemma DecodeUndoesFrame(m: Message, known: Message -> bool)
    requires known(m)
    ensures Decode(Frame(m), known) == Accepted(m) <==> Framable(m)
  {
    FrameParts(m);
    var r := Frame(m);
    if Framable(m) {
      assert I32(|r|) == |r|;
      assert r[8 + |m.name|..|r|] == r[8 + |m.name|..];
    }
  }

  /** Below 4 GiB an accepted buffer is the one frame of what it decodes to; above, it never is. */
  lemma AcceptedIsFrame(buf: Bytes, known: Message -> bool)
    requires Decode(buf, known).Accepted?
    ensures Frame(Decode(buf, known).message) == buf <==> |buf| < TWO_TO_THE_32
    ensures Framable(Decode(buf, known).message)
  {
    var m := Decode(buf, known).message;
    var len := I32(|buf|);
    var nameLen := |m.name|;
    assert ReadBigEndian(buf[4..]) == nameLen;
    assert |Frame(m)| == len;
    if |buf| < TWO_TO_THE_32 {
      assert len == |buf|;
      BigEndianUndoesRead(buf);
      BigEndianUndoesRead(buf[4..]);
      assert buf[4..][..4] == buf[4..8];
      assert U32(4 + |m.name| + |m.body|) == ReadBigEndian(buf);
      assert buf == buf[..4] + (buf[4..8] + buf[8..8 + nameLen] + buf[8 + nameLen..]);
    }
  }

  /** A message of an unknown name, or with a body that does not parse, is never accepted. */
  lemma AcceptedIsKnown(buf: Bytes, known: Message -> bool)
    ensures Decode(buf, known).Accepted? ==> known(Decode(buf, known).message)
  {
  }

  /** Below 4 GiB: accepted are exactly the frames of known messages with a body and below 2 GiB. */
  lemma AcceptedExactly(buf: Bytes, known: Message -> bool, m: Message)
    requires |buf| < TWO_TO_THE_32
    ensures Decode(buf, known) == Accepted(m) <==> buf == Frame(m) && Framable(m) && known(m)
  {
    if Decode(buf, known) == Accepted(m) {
      AcceptedIsFrame(buf, known);
    }
    if buf == Frame(m) && Framable(m) && known(m) {
      DecodeUndoesFrame(m, known);
    }
  }

  /** The frame of an unknown message is rejected. */
  lemma UnknownIsRejected(m: Message, known: Message -> bool)
    requires Framable(m) && !known(m)
    ensures Decode(Frame(m), known) == Rejected
  {
    FrameParts(m);
    var r := Frame(m);
    assert I32(|r|) == |r|;
    assert r[8 + |m.name|..|r|] == r[8 + |m.name|..];
  }

  // ----- Cutting the stream -----

  /** What the reader finds at the front of the bytes received so far. */
  datatype Cut = NeedMore | Whole(buf: Bytes, rest: Bytes) | Overrun

  /**
   * `async_read_packet` up to the call of `decode`: four length bytes, a buffer of that length plus
   * four (in 32-bit arithmetic), then the rest. `Overrun` is the length for which that sum wraps.
   */
  function TakeFrame(stream: Bytes): (c: Cut)
    ensures c.Whole? ==> stream == c.buf + c.rest && 4 <= |c.buf| < TWO_TO_THE_32
  {
    if |stream| < 4 then NeedMore
    else
      var size := ReadBigEndian(stream) + 4;
      if size >= TWO_TO_THE_32 then Overrun
      else if |stream| < size then NeedMore
      else Whole(stream[..size], stream[size..])
  }

  /**
   * The frames that the reader cuts off and on which `decode` reads or copies outside the buffer: those
   * of a length below four, and those whose name length is negative and not rejected first.
   */
  lemma UnguardedExactly(stream: Bytes, known: Message -> bool)
    requires TakeFrame(stream).Whole?
    ensures var buf := TakeFrame(stream).buf;
            Decode(buf, known).Unguarded? <==>
            |buf| < 8 || (I32(ReadBigEndian(buf[4..])) < 0 && I32(ReadBigEndian(buf[4..])) < I32(|buf|) - 8)
  {
    var buf := TakeFrame(stream).buf;
    assert ReadBigEndian(buf) == ReadBigEndian(stream);
  }

  /** And for any buffer: too short to hold a length; or, with the right length, too short for a name length too. */
  lemma UnguardedAnywhere(buf: Bytes, known: Message -> bool)
    ensures Decode(buf, known).Unguarded? <==>
            || |buf| < 4
            || (U32(I32(|buf|)) == U32(ReadBigEndian(buf) + 4)
                && (|buf| < 8
                    || (I32(ReadBigEndian(buf[4..])) < 0 && I32(ReadBigEndian(buf[4..])) < I32(|buf|) - 8)))
  {
  }

  /** Below 2 GiB these are the frames of a length below four or a name length with the high bit set. */
  lemma UnguardedBelowTwoGiB(stream: Bytes, known: Message -> bool)
    requires TakeFrame(stream).Whole? && |TakeFrame(stream).buf| < TWO_TO_THE_31
    ensures var buf := TakeFrame(stream).buf;
            Decode(buf, known).Unguarded? <==> |buf| < 8 || ReadBigEndian(buf[4..]) >= TWO_TO_THE_31
  {
    UnguardedExactly(stream, known);
  }

  /** An empty frame, for one. */
  lemma EmptyFrameIsUnguarded(known: Message -> bool)
    ensures TakeFrame([0, 0, 0, 0]).Whole? && Decode(TakeFrame([0, 0, 0, 0]).buf, known).Unguarded?
  {
    var stream: Bytes := [0, 0, 0, 0];
    assert ReadBigEndian(stream) == 0;
    UnguardedExactly(stream, known);
  }

  /** A frame is whole exactly when as many bytes have come as its length says, and four. */
  lemma TakesExactly(stream: Bytes, buf: Bytes, rest: Bytes)
    ensures TakeFrame(stream) == Whole(buf, rest) <==>
            stream == buf + rest && |buf| >= 4 && ReadBigEndian(buf) + 4 == |buf| < TWO_TO_THE_32
    ensures TakeFrame(stream).Overrun? <==> |stream| >= 4 && ReadBigEndian(stream) + 4 >= TWO_TO_THE_32
  {
    if stream == buf + rest && |buf| >= 4 && ReadBigEndian(buf) + 4 == |buf| < TWO_TO_THE_32 {
      TakeWhole(buf, rest);
    }
    if TakeFrame(stream) == Whole(buf, rest) {
      assert ReadBigEndian(buf) == ReadBigEndian(stream);
    }
  }

  /** Messages read, bytes left over, and whether a bad frame has ended the reading. */
  datatype Reading = Reading(messages: seq<Message>, rest: Bytes, stopped: bool)

  /** What `interface_runner` reads from a stream; it stops at the first null packet. */
  function Split(stream: Bytes, known: Message -> bool): Reading
    decreases |stream|
  {
    var c := TakeFrame(stream);
    match c
    case NeedMore => Reading([], stream, false)
    case Overrun => Reading([], stream, true)
    case Whole(buf, rest) =>
      var d := Decode(buf, known);
      if d.Accepted? then Cons(d.message, Split(rest, known)) else Reading([], rest, true)
  }

  function Cons(m: Message, r: Reading): Reading {
    r.(messages := [m] + r.messages)
  }

  function FrameAll(ms: seq<Message>): Bytes {
    if ms == [] then [] else Frame(ms[0]) + FrameAll(ms[1..])
  }

  lemma TakeWhole(buf: Bytes, rest: Bytes)
    requires |buf| >= 4 && ReadBigEndian(buf) + 4 == |buf| < TWO_TO_THE_32
    ensures TakeFrame(buf + rest) == Whole(buf, rest)
  {
    assert ReadBigEndian(buf + rest) == ReadBigEndian(buf);
    assert (buf + rest)[..|buf|] == buf && (buf + rest)[|buf|..] == rest;
  }

  lemma TakeOwnFrame(m: Message, rest: Bytes)
    requires Framable(m)
    ensures TakeFrame(Frame(m) + rest) == Whole(Frame(m), rest)
  {
    FrameParts(m);
    TakeWhole(Frame(m), rest);
  }

  lemma SplitOwnFrame(m: Message, rest: Bytes, known: Message -> bool)
    requires known(m) && Framable(m)
    ensures Split(Frame(m) + rest, known) == Cons(m, Split(rest, known))
  {
    TakeOwnFrame(m, rest);
    DecodeUndoesFrame(m, known);
  }

  /** Messages read earlier come before those read from the rest of the stream. */
  function Join(first: seq<Message>, r: Reading): Reading {
    r.(messages := first + r.messages)
  }

  lemma JoinCons(m: Message, first: seq<Message>, r: Reading)
    ensures Cons(m, Join(first, r)) == Join([m] + first, r)
  {
    assert [m] + (first + r.messages) == [m] + first + r.messages;
  }

  lemma FirstFrame(ms: seq<Message>, tail: Bytes)
    requires ms != []
    ensures FrameAll(ms) + tail == Frame(ms[0]) + (FrameAll(ms[1..]) + tail)
  {
  }

  lemma JoinNothing(r: Reading)
    ensures Join([], r) == r
  {
    assert [] + r.messages == r.messages;
  }

  /** The first message comes off, and the reading goes on behind its frame. */
  lemma OneMoreFrame(ms: seq<Message>, tail: Bytes, known: Message -> bool)
    requires ms != [] && known(ms[0]) && Framable(ms[0])
    ensures Split(FrameAll(ms) + tail, known) == Cons(ms[0], Split(FrameAll(ms[1..]) + tail, known))
  {
    FirstFrame(ms, tail);
    SplitOwnFrame(ms[0], FrameAll(ms[1..]) + tail, known);
  }

  lemma ConsJoin(ms: seq<Message>, r: Reading)
    requires ms != []
    ensures Cons(ms[0], Join(ms[1..], r)) == Join(ms, r)
  {
    JoinCons(ms[0], ms[1..], r);
    assert [ms[0]] + ms[1..] == ms;
  }

  lemma NoFrames(tail: Bytes)
    ensures FrameAll([]) + tail == tail
  {
  }

  /** Reading any list of encoded messages off the front of a stream yields exactly that list. */
  lemma {:induction false} SplitFrames(ms: seq<Message>, tail: Bytes, known: Message -> bool)
    requires forall m :: m in ms ==> known(m) && Framable(m)
    ensures Split(FrameAll(ms) + tail, known) == Join(ms, Split(tail, known))
    decreases |ms|
  {
    if ms == [] {
      NoFrames(tail);
      JoinNothing(Split(tail, known));
    } else {
      SplitFrames(ms[1..], tail, known);
      HeadIsIn(ms);
      OneMoreFrame(ms, tail, known);
      ConsJoin(ms, Split(tail, known));
    }
  }

  /** Everything read is known. */
  lemma {:induction false} ReadsOnlyKnown(stream: Bytes, known: Message -> bool)
    ensures forall m :: m in Split(stream, known).messages ==> known(m)
    decreases |stream|
  {
    var c := TakeFrame(stream);
    if c.Whole? {
      AcceptedIsKnown(c.buf, known);
      ReadsOnlyKnown(c.rest, known);
    }
  }

  /** An unknown message ends the reading: those before it are read, and nothing behind it. */
  lemma UnknownStops(ms: seq<Message>, m: Message, tail: Bytes, known: Message -> bool)
    requires (forall x :: x in ms ==> known(x) && Framable(x)) && Framable(m) && !known(m)
    ensures Split(FrameAll(ms) + (Frame(m) + tail), known) == Reading(ms, tail, true)
  {
    TakeOwnFrame(m, tail);
    UnknownIsRejected(m, known);
    SplitFrames(ms, Frame(m) + tail, known);
    assert ms + [] == ms;
  }

  /** More bytes do not change what has already been cut off. */
  lemma TakeExtends(a: Bytes, b: Bytes)
    ensures TakeFrame(a).Whole? ==> TakeFrame(a + b) == Whole(TakeFrame(a).buf, TakeFrame(a).rest + b)
    ensures TakeFrame(a).Overrun? ==> TakeFrame(a + b).Overrun?
  {
    var c := TakeFrame(a);
    if c.Whole? {
      assert a + b == c.buf + (c.rest + b);
      assert ReadBigEndian(c.buf) == ReadBigEndian(a);
      TakeWhole(c.buf, c.rest + b);
    } else if c.Overrun? {
      assert ReadBigEndian(a + b) == ReadBigEndian(a);
    }
  }

  lemma SplitStep(stream: Bytes, known: Message -> bool, buf: Bytes, rest: Bytes)
    requires TakeFrame(stream) == Whole(buf, rest)
    ensures Split(stream, known) ==
            match Decode(buf, known)
            case Accepted(m) => Cons(m, Split(rest, known))
            case _ => Reading([], rest, true)
  {
  }

  /** Where the segment boundaries fall does not matter: reading resumes from the left-over bytes. */
  lemma {:induction false} SplitResumes(a: Bytes, b: Bytes, known: Message -> bool)
    ensures var first := Split(a, known);
            if first.stopped
            then Split(a + b, known).messages == first.messages && Split(a + b, known).stopped
            else Split(a + b, known) == Join(first.messages, Split(first.rest + b, known))
    decreases |a|
  {
    TakeExtends(a, b);
    match TakeFrame(a)
    case Whole(buf, rest) =>
      SplitStep(a, known, buf, rest);
      SplitStep(a + b, known, buf, rest + b);
      var d := Decode(buf, known);
      if d.Accepted? {
        SplitResumes(rest, b, known);
        var first := Split(rest, known);
        JoinCons(d.message, first.messages, Split(first.rest + b, known));
      }
    case Overrun =>
    case NeedMore =>
      JoinNothing(Split(a + b, known));
  }

  /** One round of the reader: the next message joins those read before, or the reading ends. */
  lemma ReadOne(before: seq<Message>, stream: Bytes, known: Message -> bool, buf: Bytes, rest: Bytes)
    requires TakeFrame(stream) == Whole(buf, rest)
    ensures Join(before, Split(stream, known)) ==
            match Decode(buf, known)
            case Accepted(m) => Join(before + [m], Split(rest, known))
            case _ => Reading(before, rest, true)
  {
    SplitStep(stream, known, buf, rest);
    var d := Decode(buf, known);
    if d.Accepted? {
      var later := Split(rest, known).messages;
      assert before + ([d.message] + later) == before + [d.message] + later;
    } else {
      assert before + [] == before;
    }
  }

  /** Any received prefix of an encoded list decodes to a prefix of that list. */
  lemma ReceivedIsPrefix(ms: seq<Message>, part: Bytes, known: Message -> bool)
    requires forall m :: m in ms ==> known(m) && Framable(m)
    requires part <= FrameAll(ms)
    ensures Split(part, known).messages <= ms
    ensures part == FrameAll(ms) ==> Split(part, known) == Reading(ms, [], false)
    ensures !Split(part, known).stopped
  {
    var all, later := FrameAll(ms), FrameAll(ms)[|part|..];
    SplitFrames(ms, [], known);
    assert all + [] == all && ms + [] == ms;
    SplitResumes(part, later, known);
    assert part + later == all;
  }

  /** The byte stream determines the list of messages. */
  lemma UniquelyDecodable(ms: seq<Message>, ns: seq<Message>)
    requires forall m :: m in ms + ns ==> Framable(m)
    requires FrameAll(ms) == FrameAll(ns)
    ensures ms == ns
  {
    var known := (m: Message) => true;
    forall m | m in ms || m in ns
      ensures known(m) && Framable(m)
    {
      assert m in ms + ns;
    }
    ReceivedIsPrefix(ms, FrameAll(ms), known);
    ReceivedIsPrefix(ns, FrameAll(ns), known);
  }

  /** The receiving end of one interface: bytes in, messages out, until the first null packet. */
  class PacketReader {
    const known: Message -> bool
    var pending: Bytes
    var quitting: bool
    ghost var received: Bytes
    ghost var delivered: seq<Message>

    /** What has been delivered is what the whole stream received so far contains. */
    ghost predicate Valid()
      reads this
    {
      var r := Split(received, known);
      && delivered == r.messages && quitting == r.stopped
      && (!quitting ==> pending == r.rest && TakeFrame(pending).NeedMore?)
    }

    constructor (known: Message -> bool)
      ensures Valid() && received == [] && delivered == [] && this.known == known
    {
      this.known := known;
      pending, quitting, received, delivered := [], false, [], [];
    }

    /** `interface_runner` while more bytes arrive: reads every packet that has become complete. */
    method Arrive(chunk: Bytes) returns (packets: seq<Message>)
      requires Valid()
      modifies this
      ensures Valid()
      ensures forall m :: m in delivered ==> known(m)
      ensures received == old(received) + chunk && delivered == old(delivered) + packets
    {
      packets := [];
      SplitResumes(received, chunk, known);
      received := received + chunk;
      ReadsOnlyKnown(received, known);
      if quitting {
        return;
      }
      pending := pending + chunk;
      ghost var start := pending;
      JoinNothing(Split(start, known));
      while !quitting && !TakeFrame(pending).NeedMore?
        invariant Split(start, known) ==
                  if quitting then Reading(packets, Split(start, known).rest, true)
                  else Join(packets, Split(pending, known))
        invariant delivered == old(delivered) && received == old(received) + chunk
        decreases |pending|, !quitting
      {
        match TakeFrame(pending)
        case Whole(buf, rest) =>
          ReadOne(packets, pending, known, buf, rest);
          var d := Decode(buf, known);
          if d.Accepted? {
            packets := packets + [d.message];
            pending := rest;
          } else {
            quitting := true;
          }
        case Overrun =>
          quitting := true;
      }
      delivered := delivered + packets;
      ReadsOnlyKnown(received, known);
    }
  }
}
