/**
 The acknowledge byte on its way up: from the event on the bus through the report of the data link layer to what the
 bus application layer makes of it.
 */
module Acknowledges {
  import opened Bytes
  import B = Bal
  import Crc
  import Ring
  import opened Link
  import opened LinkFifo
  import opened LinkFrames
  import opened LinkReports

  /**
   The limit that a failure with this acknowledge takes: aborted, not acknowledged at all, or acknowledged negatively.
   */
  function LimitOf(limits: B.Limits, acknowledge: byte): byte {
    if acknowledge % 16 == 0xF then limits.collision
    else if acknowledge % 16 == 0 then limits.missing
    else limits.nack
  }

  function AtLeast(a: byte, b: byte): byte {
    if a >= b then a else b
  }

  /**
   For every acknowledge byte: the message is confirmed if and only if the low nibble is 0xA; otherwise it is given up
   if the attempts have used up the larger of the limit in force and the one of this failure, which is from then on
   the one in force, and else tried again.
   */
  lemma OutcomeOfByte(b: B.Bal, limits: B.Limits, acknowledge: byte)
    requires B.Valid(b) && b.inFlight.Some?
    ensures var (r, outcome) := B.Transmitted(b, limits, B.AckOf(acknowledge));
      var limit := AtLeast(b.maxRetries, LimitOf(limits, acknowledge));
      && r.inFlight == None && r.flags == b.flags && r.pending == b.pending && r.current == b.current
      && (acknowledge % 16 == 0xA ==> outcome == B.Confirmed(b.inFlight.value) && r.attempts == r.maxRetries == 0)
      && (acknowledge % 16 != 0xA && b.attempts >= limit ==>
            outcome == B.NonDeliverable(b.inFlight.value) && r.attempts == r.maxRetries == 0)
      && (acknowledge % 16 != 0xA && b.attempts < limit ==>
            outcome == B.WillRetry && r.attempts as int == b.attempts as int + 1 && r.maxRetries == limit)
  {
  }

  /** What the bus application layer makes of a report. */
  function Told(b: B.Bal, limits: B.Limits, confirm: Option<byte>): (B.Bal, B.Outcome)
    requires B.Valid(b) && b.inFlight.Some? && confirm.Some?
  {
    B.Transmitted(b, limits, B.AckOf(confirm.value))
  }

  /** A failure counts against this limit. */
  predicate CountsAgainst(b: B.Bal, limits: B.Limits, confirm: Option<byte>, limit: byte)
    requires B.Valid(b) && b.inFlight.Some? && confirm.Some?
  {
    var (r, outcome) := Told(b, limits, confirm);
    if b.attempts >= AtLeast(b.maxRetries, limit) then outcome == B.NonDeliverable(b.inFlight.value)
    else outcome == B.WillRetry && r.maxRetries == AtLeast(b.maxRetries, limit)
  }

  lemma NibbleDecides(b: B.Bal, limits: B.Limits, confirm: Option<byte>)
    requires B.Valid(b) && b.inFlight.Some? && confirm.Some?
    ensures LowNibble(confirm.value) == 0xA ==> Told(b, limits, confirm).1 == B.Confirmed(b.inFlight.value)
    ensures LowNibble(confirm.value) == 0xF ==> CountsAgainst(b, limits, confirm, limits.collision)
    ensures LowNibble(confirm.value) == 0 ==> CountsAgainst(b, limits, confirm, limits.missing)
    ensures LowNibble(confirm.value) !in {0xA, 0xF, 0} ==> CountsAgainst(b, limits, confirm, limits.nack)
  {
    hide B.Valid, B.Transmitted;
    OutcomeOfByte(b, limits, confirm.value);
  }

  /** A message that arrives in the receiver's queue is confirmed to the sender's user. */
  lemma ArrivedIsConfirmed(b: B.Bal, limits: B.Limits, cfg: Config, s: Link, m: seq<byte>, elapsed: bool,
                           rxOngoing: bool, rxStarted: bool, cfg': Config, r: Link, v: View)
    requires B.Valid(b) && b.inFlight.Some?
    requires Safe(cfg, s) && cfg.node < 16 && Ring.IsMessage(m) && |m| <= 254
    requires Transmit(cfg, s, m, elapsed, rxOngoing, rxStarted).1
    requires Agrees(cfg', r, v) && AtStart(r) && Room(cfg', r.ring, m) && HighNibble(m[1]) == cfg'.node != 0
    ensures var (sender, bus) := Exchange(cfg, Transmit(cfg, s, m, elapsed, rxOngoing, rxStarted).0, Wire(m));
      var receiver := Answer(cfg', Feed(cfg', r, bus));
      && receiver.out.Some? && HandleRx(cfg, sender, receiver.out.value, false).confirm.Some?
      && Told(b, limits, HandleRx(cfg, sender, receiver.out.value, false).confirm).1 == B.Confirmed(b.inFlight.value)
      && Agrees(cfg', HandleRx(cfg', receiver.link, receiver.out.value, false).link,
                View(v.queue + [m], bus + [receiver.out.value], v.held))
  {
    hide Exchange, Wire, Feed, Agrees, HandleRx, Transmit, HandleTx, Room, Safe, B.Valid, B.Transmitted, B.AckOf;
    MessageArrives(cfg, s, m, elapsed, rxOngoing, rxStarted, cfg', r, v);
    PositiveConfirms(b, limits, m[1]);
  }

  lemma PositiveConfirms(b: B.Bal, limits: B.Limits, address: byte)
    requires B.Valid(b) && b.inFlight.Some?
    ensures Told(b, limits, Some(NodeBits(address) + ACK_OK)).1 == B.Confirmed(b.inFlight.value)
  {
    hide B.Valid;
  }

  /** Nobody acknowledges: the failure counts against the limit of missing acknowledges. */
  lemma SilenceIsMissing(b: B.Bal, limits: B.Limits, cfg: Config, s: Link, idle: bool)
    requires B.Valid(b) && b.inFlight.Some?
    requires Safe(cfg, s) && s.status.transmission && (s.mode.Sending? || s.mode.WaitAck? || s.mode.SendAck?)
    ensures var confirm := HandleTask(cfg, s, true, idle).confirm;
      confirm.Some? && CountsAgainst(b, limits, confirm, limits.missing)
  {
    hide B.Valid, B.Transmitted;
    TaskEnds(cfg, s, true, idle);
    NibbleDecides(b, limits, HandleTask(cfg, s, true, idle).confirm);
  }

  /** A byte read back that is not the one sent: the failure counts against the limit of collisions. */
  lemma CollisionIsCounted(b: B.Bal, limits: B.Limits, cfg: Config, s: Link, m: seq<byte>, k: nat, echo: byte)
    requires B.Valid(b) && b.inFlight.Some?
    requires Safe(cfg, s) && cfg.node < 16 && Lockstep(s, m, k) && echo != Wire(m)[k]
    ensures var confirm := HandleRx(cfg, HandleTx(cfg, s, false, false).link, echo, false).confirm;
      confirm.Some? && CountsAgainst(b, limits, confirm, limits.collision)
  {
    hide B.Valid, B.Transmitted, HandleRx, HandleTx, Wire, Lockstep;
    EchoReports(cfg, s, m, k, echo);
    NibbleDecides(b, limits, HandleRx(cfg, HandleTx(cfg, s, false, false).link, echo, false).confirm);
  }

  /**
   An acknowledge of the node addressed other than a positive one, 0xF and 0 aside, counts against the limit of those.
   */
  lemma RefusalIsNegative(b: B.Bal, limits: B.Limits, cfg: Config, s: Link, ack: byte)
    requires B.Valid(b) && b.inFlight.Some?
    requires Safe(cfg, s) && cfg.node < 16 && s.mode.WaitAck? && s.status.transmission
    requires LowNibble(ack) !in {0xA, 0xF, 0}
    ensures var confirm := HandleRx(cfg, s, ack, false).confirm;
      confirm == Some(ack) && CountsAgainst(b, limits, confirm, limits.nack)
  {
    hide B.Valid, B.Transmitted, HandleRx;
    AckReports(cfg, s, ack);
    NibbleDecides(b, limits, Some(ack));
  }

  /**
   What a receiver makes of a frame reaches the sender's user: a frame that did not fit or came with a wrong CRC is
   refused under its address, by a byte that counts against the limit of negative acknowledges, and every other one is
   confirmed.
   */
  lemma VerdictIsTold(b: B.Bal, limits: B.Limits, cfg: Config, s: Link, cfg': Config, r: Link, v: View)
    requires B.Valid(b) && b.inFlight.Some?
    requires Agrees(cfg', r, v) && r.mode.SendAck? && !r.status.transmission
    requires Safe(cfg, s) && cfg.node < 16 && AwaitsAck(s, r.dest)
    ensures var driven := HandleTx(cfg', r, false, false).out;
      && driven.Some? && HighNibble(driven.value) == HighNibble(r.dest)
      && var confirm := HandleRx(cfg, s, driven.value, false).confirm;
        && confirm == driven
        && (if !r.status.overflow && Crc.Accepts(v.frame)
            then Told(b, limits, confirm).1 == B.Confirmed(b.inFlight.value)
            else CountsAgainst(b, limits, confirm, limits.nack))
  {
    hide B.Valid, B.Transmitted, HandleRx, HandleTx, Holds, Crc.Accepts, Ring.Partial, CountsAgainst, Told, SafeRing;
    AcknowledgeDriven(cfg', r, false, false);
    var driven := HandleTx(cfg', r, false, false).out;
    assert LowNibble(driven.value) == if r.status.overflow then 0x3 else if Crc.Accepts(v.frame) then 0xA else 0x7;
    AckReports(cfg, s, driven.value);
    NibbleDecides(b, limits, driven);
  }
}
