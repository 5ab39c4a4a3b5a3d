/**
 Packing of DBal frames into one bus message, with a second buffer that holds the
 message being sent, so that frames may be appended while it is repeated.
 */
module Outbox {
  import opened Bytes
  import opened Frames

  const PROTOCOL: byte := 3

  /**
   tx: the filled part of TransmitBuffer, frames: DbalFrames2TransmitCnt, rep: the filled part of
   TxRepeatBuffer, entryLen and target: the transmit table entry, flag: its transmit bit,
   retries: SendRetryCounter of the response message.
   */
  datatype Outbox = Outbox(tx: seq<byte>, frames: nat, rep: seq<byte>, entryLen: nat, target: byte,
                           flag: bool, retries: byte)

  /** Own address and buffer size. */
  datatype Config = Config(own: byte, size: nat)

  predicate ValidConfig(cfg: Config) {
    cfg.own != 0 && 9 < cfg.size < 250
  }

  /** Frames that travel in a response message. */
  predicate Response(k: Kind) {
    k.CmdAck? || k.QueryAck? || k.Event? || k.EventAck?
  }

  // ---------------------------------------------------------------- operations

  /** DBAL_prepareHeaderAndSeqId */
  function Header(cfg: Config, o: Outbox, seqId: byte): Outbox {
    if o.frames == 0 then o.(tx := [cfg.own, PROTOCOL, seqId]) else o
  }

  predicate Fits(cfg: Config, o: Outbox, f: Frame) {
    |o.tx| + DATA_OFFSET + |f.payload| < cfg.size
  }

  /** The message becomes due for transmission with its present content. */
  function Trigger(o: Outbox, partner: byte): Outbox {
    o.(entryLen := |o.tx|, target := partner, flag := true)
  }

  /** A frame that fits is appended, and the message triggered unless an earlier one is still being sent. */
  function Append(o: Outbox, f: Frame, partner: byte): Outbox {
    var a := o.(tx := o.tx + Encode(f), frames := o.frames + 1);
    if (a.flag || a.frames == 1) && a.rep == [] then Trigger(a, partner).(retries := 0) else a
  }

  /** DBAL_writeReqRespInDbus2Buffer: the bytes handed to the link layer; none when the lengths disagree. */
  function Write(o: Outbox): (Outbox, Option<seq<byte>>) {
    if o.entryLen != |o.tx| && o.entryLen != |o.rep| then (o, None)
    else
      var w := if o.rep == [] then o.(rep := o.tx, tx := [], frames := 0) else o;
      (w, Some(w.rep))
  }

  /** DBAL_reqRespTxPostAction, on a positive acknowledge. */
  function Confirmed(o: Outbox, partner: byte): Outbox {
    var c := o.(rep := []);
    if c.tx != [] then Trigger(c, partner) else c
  }

  function ClearBoth(o: Outbox): Outbox {
    o.(tx := [], frames := 0, rep := [])
  }

  // ---------------------------------------------------------------- a run between connection resets

  /** Where the response message is: not on the bus, under way, or waiting for the bus layer's retry. */
  datatype Air = Ground | Flying | Retrying

  datatype Event =
    | Send(frame: Frame, seqId: byte, saved: bool)
    | Pick(accepted: bool)
    | Acknowledge
    | Failure
    | Undeliverable

  /** accepted: frames for which send returned true; acknowledged: messages; wire: what was last handed over. */
  datatype History = History(accepted: seq<Frame>, acknowledged: seq<seq<byte>>, wire: Option<seq<byte>>)

  datatype State = State(o: Outbox, air: Air, h: History)

  /** What the layers below make possible. */
  predicate Enabled(s: State, e: Event) {
    match e
    case Send(f, _, _) => Response(f.kind)
    case Pick(_) => s.air.Retrying? || (s.air.Ground? && s.o.flag)
    case Acknowledge => s.air.Flying?
    case Failure => s.air.Flying?
    case Undeliverable => s.air.Flying?
  }

  /** One event; saved tells whether the repeat queue took the frame, where it has to. */
  function Step(cfg: Config, partner: byte, s: State, e: Event): State
    requires Enabled(s, e)
  {
    match e
    case Send(f, seqId, saved) =>
      var o := Header(cfg, s.o, seqId);
      if Fits(cfg, o, f) && saved then
        s.(o := Append(o, f, partner), h := s.h.(accepted := s.h.accepted + [f]))
      else
        s.(o := o)
    case Pick(accepted) =>
      var (o, bytes) := Write(s.o);
      State(if accepted then o.(flag := false) else o, if accepted then Flying else s.air, s.h.(wire := bytes))
    case Acknowledge =>
      State(Confirmed(s.o, partner), Ground,
            s.h.(acknowledged := s.h.acknowledged + [if s.h.wire.Some? then s.h.wire.value else []], wire := None))
    case Failure => s.(air := Retrying)
    case Undeliverable => s.(air := Ground, o := s.o.(flag := true, retries := Low8(s.o.retries + 1)))
  }

  /** All frames of a list of messages, in order. */
  function AllFrames(messages: seq<seq<byte>>): seq<Frame> {
    if messages == [] then []
    else AllFrames(messages[..|messages| - 1]) + Content(messages[|messages| - 1])
  }

  // ---------------------------------------------------------------- what every step keeps

  /** A buffer is empty or a well formed message of this node. */
  predicate Message(cfg: Config, m: seq<byte>) {
    m == [] || (|m| >= FRAME_OFFSET && m[0] == cfg.own && Frames.End(m, FRAME_OFFSET) == |m|)
  }

  predicate Shape(cfg: Config, s: State) {
    && Message(cfg, s.o.tx) && Message(cfg, s.o.rep)
    && |s.o.tx| <= cfg.size && |s.o.rep| <= cfg.size
    && (s.o.frames == 0 ==> s.o.tx == [] || |s.o.tx| == FRAME_OFFSET)
    && (s.o.frames > 0 ==> |s.o.tx| > FRAME_OFFSET)
    && (s.o.rep != [] ==> s.o.entryLen == |s.o.rep|)
    && (s.o.rep == [] && s.o.flag ==> s.o.entryLen == |s.o.tx| > 0)
    && (!s.air.Ground? ==> s.o.rep != [] && s.h.wire.Some?)
    && (s.air.Flying? ==> !s.o.flag)
    && (s.h.wire.Some? ==> s.o.rep == s.h.wire.value != [])
    && (s.o.rep != [] ==> s.h.wire.Some?)
  }

  /** Pending frames always have a set transmit flag or a message on its way. */
  predicate NotForgotten(s: State) {
    && (s.o.frames > 0 ==> s.o.flag || s.o.rep != [])
    && (s.o.rep != [] ==> s.o.flag || !s.air.Ground?)
  }

  /** Nothing lost, duplicated or reordered: acknowledged, sent and waiting frames together are the accepted ones. */
  predicate Conserved(s: State) {
    AllFrames(s.h.acknowledged) + Content(s.o.rep) + Content(s.o.tx) == s.h.accepted
  }

  predicate Good(cfg: Config, s: State) {
    ValidConfig(cfg) && Shape(cfg, s) && NotForgotten(s) && Conserved(s)
  }

  lemma EmptyHasNone(cfg: Config, m: seq<byte>)
    requires |m| <= FRAME_OFFSET
    ensures Content(m) == []
    ensures |m| == FRAME_OFFSET ==> Frames.End(m, FRAME_OFFSET) == FRAME_OFFSET
  {
  }

  lemma SendGood(cfg: Config, partner: byte, s: State, e: Event)
    requires Good(cfg, s) && e.Send? && Enabled(s, e)
    ensures Good(cfg, Step(cfg, partner, s, e))
  {
    hide Content, AllFrames, Encode, Frames.End;
    var f := e.frame;
    var o := Header(cfg, s.o, e.seqId);
    if s.o.frames == 0 {
      EmptyHasNone(cfg, s.o.tx);
      EmptyHasNone(cfg, o.tx);
    }
    if Fits(cfg, o, f) && e.saved {
      ContentAppend(o.tx, f);
      assert (AllFrames(s.h.acknowledged) + Content(o.rep)) + (Content(o.tx) + [f])
          == (AllFrames(s.h.acknowledged) + Content(o.rep) + Content(o.tx)) + [f];
    }
  }

  lemma PickGood(cfg: Config, partner: byte, s: State, e: Event)
    requires Good(cfg, s) && e.Pick? && Enabled(s, e)
    ensures Good(cfg, Step(cfg, partner, s, e))
    ensures Step(cfg, partner, s, e).h.wire.Some?
  {
  }

  lemma AcknowledgeGood(cfg: Config, partner: byte, s: State)
    requires Good(cfg, s) && s.air.Flying?
    ensures Good(cfg, Step(cfg, partner, s, Acknowledge))
  {
  }

  /** Every event keeps the shape of the buffers, the pending trigger and the conservation of frames. */
  lemma StepGood(cfg: Config, partner: byte, s: State, e: Event)
    requires Good(cfg, s) && Enabled(s, e)
    ensures Good(cfg, Step(cfg, partner, s, e))
  {
    hide Content, AllFrames, Frames.End;
    match e
    case Send(_, _, _) => SendGood(cfg, partner, s, e);
    case Pick(_) => PickGood(cfg, partner, s, e);
    case Acknowledge => AcknowledgeGood(cfg, partner, s);
    case Failure =>
    case Undeliverable =>
  }

  /** Every repetition of a message puts the same bytes on the bus, whatever was appended meanwhile. */
  lemma RepetitionsIdentical(cfg: Config, partner: byte, s: State, accepted: bool)
    requires Good(cfg, s) && Enabled(s, Pick(accepted)) && s.h.wire.Some?
    ensures Step(cfg, partner, s, Pick(accepted)).h.wire == s.h.wire
  {
  }

  // ---------------------------------------------------------------- whole runs

  predicate Possible(cfg: Config, partner: byte, s: State, es: seq<Event>)
    decreases |es|
  {
    es == [] || (Enabled(s, es[0]) && Possible(cfg, partner, Step(cfg, partner, s, es[0]), es[1..]))
  }

  function Run(cfg: Config, partner: byte, s: State, es: seq<Event>): State
    requires Possible(cfg, partner, s, es)
    decreases |es|
  {
    if es == [] then s else Run(cfg, partner, Step(cfg, partner, s, es[0]), es[1..])
  }

  /** Freshly connected: both buffers empty, nothing under way. */
  const CONNECTED := State(Outbox([], 0, [], 0, 0, false, 0), Ground, History([], [], None))

  lemma {:induction false} RunGood(cfg: Config, partner: byte, s: State, es: seq<Event>)
    requires Good(cfg, s) && Possible(cfg, partner, s, es)
    ensures Good(cfg, Run(cfg, partner, s, es))
    decreases |es|
  {
    hide Good, Step, Enabled;
    if es == [] {
    } else {
      StepGood(cfg, partner, s, es[0]);
      RunGood(cfg, partner, Step(cfg, partner, s, es[0]), es[1..]);
    }
  }

  /**
   While the connection stays up, over every run: the frames of the acknowledged messages are exactly
   the accepted frames in order, up to those still in a buffer; and when none is, they are all of them.
   */
  lemma NothingLost(cfg: Config, partner: byte, es: seq<Event>)
    requires ValidConfig(cfg) && Possible(cfg, partner, CONNECTED, es)
    ensures var s := Run(cfg, partner, CONNECTED, es);
      && AllFrames(s.h.acknowledged) <= s.h.accepted
      && (s.o.tx == [] && s.o.rep == [] ==> AllFrames(s.h.acknowledged) == s.h.accepted)
      && (s.h.accepted != AllFrames(s.h.acknowledged) ==> s.o.flag || !s.air.Ground?)
  {
    hide Run, Possible, Parse;
    EmptyHasNone(cfg, []);
    RunGood(cfg, partner, CONNECTED, es);
    var s := Run(cfg, partner, CONNECTED, es);
    if s.o.frames == 0 {
      EmptyHasNone(cfg, s.o.tx);
    }
  }
}
