/**
 What the link layer puts on the bus for a response message: the bytes written for it into the one transmit buffer of
 the node, or, after a reset at the wrong moment, those left there by the message before.
 */
module Leftover {
  import opened Bytes
  import opened Frames
  import opened Instance
  import C = Connection
  import Ends = InstanceEnds
  import L = HandshakeLag
  import Line = InstanceLine
  import O = Outbox
  import R = RepeatQueue
  import Runs = InstanceRuns
  import Scan
  import SequenceId
  import W = Witnesses

  /** The transmit buffer of the link layer after a message has been written into it, or nothing has. */
  function Written(data: seq<byte>, bytes: Option<seq<byte>>): (d: seq<byte>)
    requires bytes.Some? ==> |bytes.value| <= |data|
    ensures |d| == |data|
  {
    if bytes.None? then data else bytes.value + data[|bytes.value|..]
  }

  /** As many bytes are sent as were announced, or as the buffer has. */
  function OnBus(data: seq<byte>, o: O.Outbox): seq<byte>
    requires O.Write(o).1.Some? ==> |O.Write(o).1.value| <= |data|
  {
    var d := Written(data, O.Write(o).1);
    d[..if o.entryLen <= |d| then o.entryLen else |d|]
  }

  /** With the buffers in order what goes on the bus is the message, whatever was in the transmit buffer before. */
  lemma MessageSent(cfg: O.Config, l: O.State, partner: byte, data: seq<byte>)
    requires O.Good(cfg, l) && O.Enabled(l, O.Event.Pick(true)) && |data| >= cfg.size
    ensures O.Write(l.o).1.Some? && |O.Write(l.o).1.value| <= |data|
    ensures O.Step(cfg, partner, l, O.Event.Pick(true)).h.wire == Some(OnBus(data, l.o))
  {
    hide O.Conserved, O.Message;
  }

  /**
   In every state a run from initialisation can reach: a transmission that is due when the buffers are reset sends what
   the message before has left, in the length of the message that was thrown away.
   */
  lemma LeftoverSent(cfg: O.Config, partner: byte, size: nat, es: seq<Event>, data: seq<byte>)
    requires O.ValidConfig(cfg) && Runs.AllPossible(cfg, Initial(partner, size), es)
    ensures var s := Runs.Run(cfg, Initial(partner, size), es);
      var o := ResetLine(s).line.o;
      (s.line.o.flag || !s.line.air.Ground?) && o.entryLen <= |data| ==>
        O.Write(o).1 == None && o.entryLen == s.line.o.entryLen && OnBus(data, o) == data[..o.entryLen]
  {
    hide Runs.Run, Runs.AllPossible;
    Line.ResetExact(cfg, partner, size, es);
  }

  // ---------------------------------------------------------------- what the partner makes of it

  function MessageByte(m: C.Message): byte {
    match m
    case EnableRequest => 0
    case EnableResponse => 1
    case DisableRequest => 2
    case DisableResponse => 3
    case PingRequest => 4
    case PingResponse => 5
    case TempEnableRequest => 6
    case TempEnableResponse => 7
    case TempDisableRequest => 8
    case TempDisableResponse => 9
  }

  /** DBAL_PROTOCOL_VERSION */
  const VERSION: byte := 4

  /** A connection message on the bus: its type stands where a request or response message has its sequence id. */
  function ConBytes(own: byte, m: C.Message): seq<byte> {
    [own, O.PROTOCOL, MessageByte(m), VERSION]
  }

  /** A partner's last id after the left-over bytes of a connection message. */
  function Disturbed(recv: byte, m: C.Message): byte {
    if SequenceId.Accepted(MessageByte(m), recv) then MessageByte(m) else recv
  }

  /**
   The partner takes what a connection message has left for a response message if and only if its type is a newer id.
   */
  lemma LeftoverTaken(cfg: O.Config, r: State, own: byte, m: C.Message, rest: seq<byte>, length: nat)
    requires r.con.partner == own && C.ValidAddress(own) && r.con.ready
    requires FRAME_OFFSET <= length <= |ConBytes(own, m) + rest| && length < 256
    ensures var bytes := (ConBytes(own, m) + rest)[..length];
      && (Taken(r, bytes) <==> SequenceId.Accepted(MessageByte(m), r.con.seqRecv))
      && ReceiveResponse(cfg, r, bytes).con.seqRecv == Disturbed(r.con.seqRecv, m)
  {
    hide AckEvents, Scan.Cuts, R.MarkAll, R.MarkAllHistory, R.Compacted, R.Occupied, R.Frees, R.WaitingFrames,
      SequenceId.Accepted;
    var bytes := (ConBytes(own, m) + rest)[..length];
    assert bytes[0] == own && bytes[1] == O.PROTOCOL && bytes[2] == MessageByte(m);
    if Taken(r, bytes) {
      var cuts := Scan.Cuts(bytes);
      Ends.AcksKeepReceived(cfg, AnswerDisable(Organize(Match(WithId(r, bytes[2]), cuts))), cuts, []);
    }
  }

  /**
   How many of the sender's next messages that costs, exactly. A partner that was in step loses as many messages as the
   type is ahead of the last id, and none if it is not ahead.
   */
  lemma LeftoverCosts(sent: byte, recv: byte, m: C.Message, n: nat)
    ensures var now := Disturbed(recv, m);
      SequenceId.Accepted(L.IdAfter(sent, n + 1), L.RecvAfter(sent, now, n)) <==> n >= L.Lag(sent, now)
    ensures recv == sent ==>
              L.Lag(sent, Disturbed(recv, m))
              == if SequenceId.Accepted(MessageByte(m), sent) then Low8(MessageByte(m) - sent) as nat else 0
  {
    L.LagDecides(sent, Disturbed(recv, m), n);
  }

  /**
   A run from initialisation: both nodes enable, an answer is accepted under id 0, and the partner's enable response
   throws the answer away. The message this node sent last is its own enable response, so what goes out in place of the
   answer has that type where the id is. A partner that has just connected takes it, and then ignores exactly the next
   real message.
   */
  lemma NextMessageLost(cfg: O.Config, partner: byte, size: nat, f: Frame, rest: seq<byte>, r: State)
    requires O.ValidConfig(cfg) && C.ValidAddress(partner) && C.ValidAddress(cfg.own) && W.Small(cfg, f)
    requires |ConBytes(cfg.own, C.EnableResponse) + rest| >= cfg.size
    requires r.con.partner == cfg.own && r.con.ready && r.con.seqRecv == 255
    ensures var es := W.BothEnable(partner) + [Send(f)];
      && Runs.AllPossible(cfg, Initial(partner, size), es)
      && var t := ReceiveConnection(Runs.Run(cfg, Initial(partner, size), es), W.From(partner, C.EnableResponse));
        && t.line.o.flag && t.con.seqSend == 0 && O.Write(t.line.o).1 == None
        && var bytes := OnBus(ConBytes(cfg.own, C.EnableResponse) + rest, t.line.o);
          && |bytes| < 256 && Taken(r, bytes)
          && L.Lag(t.con.seqSend, ReceiveResponse(cfg, r, bytes).con.seqRecv) == 1
  {
    hide Runs.Run, Runs.AllPossible, ReceiveConnection, ReceiveResponse, Taken;
    W.SimultaneousEnableLoses(cfg, partner, size, f);
    LeftoverTaken(cfg, r, cfg.own, C.EnableResponse, rest, FRAME_OFFSET + DATA_OFFSET + |f.payload|);
  }
}
