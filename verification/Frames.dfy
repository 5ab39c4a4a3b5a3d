/**
 DBal frames inside a D-Bus-2 request or response message: sender, protocol type
 and sequence id, then any number of frames of type, payload length, service id,
 command id and payload.
 */
module Frames {
  import opened Bytes

  datatype Kind = Cmd | CmdAck | Query | QueryAck | Event | EventAck | Unknown

  /** What a length byte can announce. */
  type Payload = s: seq<byte> | |s| < 256

  datatype Frame = Frame(kind: Kind, service: word, command: word, payload: Payload)

  const FRAME_OFFSET: nat := 3
  const DATA_OFFSET: nat := 6

  function KindByte(k: Kind): byte {
    match k
    case Cmd => 0
    case CmdAck => 1
    case Query => 2
    case QueryAck => 3
    case Event => 4
    case EventAck => 5
    case Unknown => 6
  }

  /** DBAL_convertUint8ToDBalType. */
  function KindOf(b: byte): Kind {
    match b
    case 0 => Cmd
    case 1 => CmdAck
    case 2 => Query
    case 3 => QueryAck
    case 4 => Event
    case 5 => EventAck
    case _ => Unknown
  }

  /** A response is expected. */
  predicate ToRepeat(k: Kind) {
    k.Cmd? || k.Query? || k.Event?
  }

  predicate IsAck(k: Kind) {
    k.CmdAck? || k.QueryAck? || k.EventAck?
  }

  /** DBAL_getResponseDBalType. */
  function ResponseTo(k: Kind): Kind {
    match k
    case Cmd => CmdAck
    case Query => QueryAck
    case Event => EventAck
    case _ => Unknown
  }

  // ---------------------------------------------------------------- writing

  predicate WellFormed(f: Frame) {
    !f.kind.Unknown?
  }

  function Encode(f: Frame): (e: seq<byte>)
    ensures |e| == DATA_OFFSET + |f.payload|
  {
    [KindByte(f.kind), |f.payload|, f.service / 256, f.service % 256, f.command / 256, f.command % 256] + f.payload
  }

  function EncodeAll(fs: seq<Frame>): seq<byte> {
    if fs == [] then [] else EncodeAll(fs[..|fs| - 1]) + Encode(fs[|fs| - 1])
  }

  // ---------------------------------------------------------------- reading

  /** A frame as cut out of a message; whole tells whether its payload is completely inside. */
  datatype Cut = Cut(offset: nat, frame: Frame, whole: bool)

  function WordOf(high: byte, low: byte): word {
    high as int * 256 + low as int
  }

  /** The frame header at off; the payload ends with the message at the latest. */
  function CutAt(bytes: seq<byte>, off: nat): (c: Cut)
    requires off + DATA_OFFSET <= |bytes|
    ensures c.offset == off
  {
    var whole := Next(bytes, off) <= |bytes|;
    Cut(off,
        Frame(KindOf(bytes[off]), WordOf(bytes[off + 2], bytes[off + 3]), WordOf(bytes[off + 4], bytes[off + 5]),
              bytes[off + DATA_OFFSET..if whole then Next(bytes, off) else |bytes|]),
        whole)
  }

  /** The offset behind the frame at off. */
  function Next(bytes: seq<byte>, off: nat): (n: nat)
    requires off + DATA_OFFSET <= |bytes|
    ensures n > off
  {
    off + DATA_OFFSET + bytes[off + 1]
  }

  /** All frames from off on, in order. */
  function Parse(bytes: seq<byte>, off: nat): seq<Cut>
    decreases |bytes| - off
  {
    if off + DATA_OFFSET <= |bytes| then [CutAt(bytes, off)] + Parse(bytes, Next(bytes, off)) else []
  }

  /** Where the scan ends. */
  function End(bytes: seq<byte>, off: nat): (e: nat)
    ensures e + DATA_OFFSET > |bytes| && e >= off
    decreases |bytes| - off
  {
    if off + DATA_OFFSET <= |bytes| then End(bytes, Next(bytes, off)) else off
  }

  /** The declared lengths keep the 8-bit scan offset from wrapping. */
  predicate Fits8(bytes: seq<byte>, off: nat)
    decreases |bytes| - off
  {
    off + DATA_OFFSET <= |bytes| ==> Next(bytes, off) < 256 && Fits8(bytes, Next(bytes, off))
  }

  /** The frames of a message whose payloads are completely inside. */
  function FramesOf(cuts: seq<Cut>): seq<Frame> {
    if cuts == [] then []
    else if cuts[0].whole then [cuts[0].frame] + FramesOf(cuts[1..])
    else FramesOf(cuts[1..])
  }

  /** The frames in a message buffer; an empty buffer has none. */
  function Content(bytes: seq<byte>): seq<Frame> {
    FramesOf(Parse(bytes, FRAME_OFFSET))
  }

  // ---------------------------------------------------------------- the bytes

  /** The type bytes, 0 to 5, as the specification of the protocol numbers them. */
  const TYPES: seq<Kind> := [Cmd, CmdAck, Query, QueryAck, Event, EventAck]

  /** A frame on the bus: type, length of the payload, service id and command id with the high byte first, payload. */
  lemma FrameBytes(f: Frame)
    requires WellFormed(f)
    ensures var e := Encode(f);
      && |e| == 6 + |f.payload| && e[0] < 6 && TYPES[e[0]] == f.kind && e[1] == |f.payload|
      && 256 * e[2] as int + e[3] as int == f.service && 256 * e[4] as int + e[5] as int == f.command
      && e[6..] == f.payload
  {
  }

  /** What is read at an offset, of any bytes: the payload ends with the message if it announces more than there is. */
  lemma CutBytes(bytes: seq<byte>, off: nat)
    requires off + 6 <= |bytes|
    ensures var c := CutAt(bytes, off);
      var rest := |bytes| - off - 6;
      && c.frame.kind == (if bytes[off] < 6 then TYPES[bytes[off]] else Unknown)
      && c.frame.service == 256 * bytes[off + 2] as int + bytes[off + 3] as int
      && c.frame.command == 256 * bytes[off + 4] as int + bytes[off + 5] as int
      && (c.whole <==> bytes[off + 1] as int <= rest)
      && |c.frame.payload| == (if c.whole then bytes[off + 1] as int else rest)
      && off + 6 + |c.frame.payload| <= |bytes| && c.frame.payload == bytes[off + 6..off + 6 + |c.frame.payload|]
  {
  }

  // ---------------------------------------------------------------- round trip

  lemma CutOfEncoded(bytes: seq<byte>, f: Frame)
    requires WellFormed(f)
    ensures CutAt(bytes + Encode(f), |bytes|) == Cut(|bytes|, f, true)
    ensures Next(bytes + Encode(f), |bytes|) == |bytes| + |Encode(f)|
  {
  }

  lemma CutKept(bytes: seq<byte>, off: nat, more: seq<byte>)
    requires off + DATA_OFFSET <= |bytes| && Next(bytes, off) <= |bytes|
    ensures CutAt(bytes + more, off) == CutAt(bytes, off) && Next(bytes + more, off) == Next(bytes, off)
  {
  }

  /** Appending a frame to a message whose scan ends exactly at its length appends that frame to the scan. */
  lemma {:induction false} ParseAppend(bytes: seq<byte>, off: nat, f: Frame)
    requires End(bytes, off) == |bytes| && WellFormed(f)
    ensures Parse(bytes + Encode(f), off) == Parse(bytes, off) + [Cut(|bytes|, f, true)]
    ensures End(bytes + Encode(f), off) == |bytes| + |Encode(f)|
    decreases |bytes| - off
  {
    hide Encode, CutAt, Next;
    if off + DATA_OFFSET <= |bytes| {
      CutKept(bytes, off, Encode(f));
      ParseAppend(bytes, Next(bytes, off), f);
    } else {
      CutOfEncoded(bytes, f);
    }
  }

  lemma {:induction false} FramesOfAppend(cuts: seq<Cut>, c: Cut)
    ensures FramesOf(cuts + [c]) == FramesOf(cuts) + (if c.whole then [c.frame] else [])
  {
    if cuts == [] {
      assert [] + [c] == [c];
    } else {
      assert (cuts + [c])[1..] == cuts[1..] + [c];
      FramesOfAppend(cuts[1..], c);
    }
  }

  /** One more frame in the buffer is one more frame in its content. */
  lemma ContentAppend(bytes: seq<byte>, f: Frame)
    requires |bytes| >= FRAME_OFFSET && End(bytes, FRAME_OFFSET) == |bytes| && WellFormed(f)
    ensures Content(bytes + Encode(f)) == Content(bytes) + [f]
    ensures End(bytes + Encode(f), FRAME_OFFSET) == |bytes + Encode(f)|
  {
    hide Encode, Parse, End;
    ParseAppend(bytes, FRAME_OFFSET, f);
    FramesOfAppend(Parse(bytes, FRAME_OFFSET), Cut(|bytes|, f, true));
  }

  lemma EmptyContent(header: seq<byte>)
    requires |header| == FRAME_OFFSET
    ensures Content(header) == [] && End(header, FRAME_OFFSET) == FRAME_OFFSET && Parse(header, FRAME_OFFSET) == []
  {
  }

  /** Any list of frames, packed behind any message header, is parsed back in order, up to exactly the data length. */
  lemma {:induction false} PackParse(header: seq<byte>, fs: seq<Frame>)
    requires |header| == FRAME_OFFSET && forall f :: f in fs ==> WellFormed(f)
    ensures var bytes := header + EncodeAll(fs);
      && Content(bytes) == fs && End(bytes, FRAME_OFFSET) == |bytes|
      && |Parse(bytes, FRAME_OFFSET)| == |fs|
  {
    hide Encode, Parse, FramesOf, End;
    if fs == [] {
      EmptyContent(header);
      assert header + [] == header;
    } else {
      var init, f := fs[..|fs| - 1], fs[|fs| - 1];
      PackParse(header, init);
      var bytes := header + EncodeAll(init);
      assert header + EncodeAll(fs) == bytes + Encode(f);
      ContentAppend(bytes, f);
      ParseAppend(bytes, FRAME_OFFSET, f);
      assert init + [f] == fs;
    }
  }
}
