/**
 Timeouts of the data link layer, and what it reports to the bus application layer: which
 events report at all, and with which acknowledge.
 */
module LinkReports {
  import opened Bytes
  import Ring
  import opened Link
  import opened LinkFrames

  /** The node as if nothing had been heard since the last frame. */
  function Quiet(s: Link): Link {
    s.(mode := Idle, status := CLEAR)
  }

  /** A report with this acknowledge nibble, in the name of the node addressed. */
  predicate Reports(confirm: Option<byte>, s: Link, nibble: byte) {
    confirm.Some? && LowNibble(confirm.value) == nibble && HighNibble(confirm.value) == HighNibble(s.dest)
  }

  // ---------------------------------------------------------------- interbyte timeouts

  /**
   After an interbyte timeout a byte is the first one of a new frame, whatever was heard before, except while the own
   acknowledge of a received frame is due; and a transmission under way, and only that, is reported as aborted.
   */
  lemma LateByteIsFirst(cfg: Config, s: Link, b: byte)
    requires Safe(cfg, s) && cfg.node < 16 && !s.mode.Offline? && !s.mode.Idle? && !s.mode.Init?
    requires s.mode.SendAck? ==> s.status.transmission
    ensures var r := HandleRx(cfg, s, b, true);
      && r.link == HandleRx(cfg, Quiet(s), b, false).link
      && (if s.status.transmission then Reports(r.confirm, s, 0xF) else r.confirm.None?)
  {
  }

  /** What an idle node makes of a byte: the length of a frame, or a D-Bus-3 frame; nothing is stored or reported. */
  lemma FirstByte(cfg: Config, s: Link, b: byte)
    requires Safe(cfg, s) && cfg.node < 16
    ensures var r := HandleRx(cfg, Quiet(s), b, false);
      && r.confirm.None? && r.link.ring == s.ring
      && r.link.mode == (if b >= 2 then GetRecipient else Receiving)
      && (r.link.status.dbus3 <==> b < 2)
  {
  }

  /** The echo of a received frame's acknowledge is evaluated alike in time and too late. */
  lemma LateEchoCounts(cfg: Config, s: Link, b: byte)
    requires Safe(cfg, s) && cfg.node < 16 && s.mode.SendAck? && !s.status.transmission
    ensures HandleRx(cfg, s, b, true) == HandleRx(cfg, s, b, false)
  {
  }

  // ---------------------------------------------------------------- the task's timeouts

  /**
   A task call after the timeout ends every transmission, sent or waiting for its acknowledge, in idle and with exactly
   one report, that of a missing acknowledge; it ends every reception in idle without a report. In time it changes
   nothing in these states.
   */
  lemma TaskEnds(cfg: Config, s: Link, late: bool, idle: bool)
    requires Safe(cfg, s) && !s.mode.Idle? && !s.mode.Init? && !s.mode.Offline?
    ensures var r := HandleTask(cfg, s, late, idle);
      && (!late ==> r.link == s && r.confirm.None?)
      && (late ==> r.link == Quiet(s).(txEvent := r.link.txEvent))
      && (late && s.status.transmission ==> Reports(r.confirm, s, 0) && !r.link.txEvent)
      && (late && !s.status.transmission ==> r.confirm.None? && r.link.txEvent == s.txEvent)
  {
  }

  /**
   Otherwise it only initialises a node, or notes that the bus was idle for long enough, which nothing else takes
   back.
   */
  lemma TaskReadies(cfg: Config, s: Link, late: bool, idle: bool)
    requires Safe(cfg, s) && (s.mode.Idle? || s.mode.Init? || s.mode.Offline?)
    ensures var r := HandleTask(cfg, s, late, idle);
      && r.confirm.None?
      && (s.mode.Init? ==> r.link == Quiet(s))
      && (s.mode.Offline? ==> r.link == s)
      && (s.mode.Idle? ==> r.link == Quiet(s).(status := r.link.status)
                           && (r.link.status.ready <==> s.status.ready || idle))
  {
  }

  // ---------------------------------------------------------------- reports of received bytes

  /**
   While a frame is sent every byte that is not the one expected ends the transmission with the report of an abort; the
   expected one reports nothing.
   */
  lemma EchoReports(cfg: Config, s: Link, m: seq<byte>, k: nat, b: byte)
    requires Safe(cfg, s) && cfg.node < 16 && Lockstep(s, m, k)
    ensures var sent := HandleTx(cfg, s, false, false);
      var r := HandleRx(cfg, sent.link, b, false);
      && sent.out == Some(Wire(m)[k])
      && (b != Wire(m)[k] ==> Reports(r.confirm, s, 0xF) && r.link.mode == Idle)
      && (b == Wire(m)[k] ==> r.confirm.None? && !r.link.mode.Idle?)
  {
    hide Crc.AddByte, Crc.High, Crc.Low, Crc.Over, Wire;
    SendsByte(s, m, k);
  }

  /**
   The sender of a unicast frame reports the very acknowledge it hears from the node addressed, and a missing one when a
   positive acknowledge comes from another node; then it is idle.
   */
  lemma AckReports(cfg: Config, s: Link, b: byte)
    requires Safe(cfg, s) && cfg.node < 16 && s.mode.WaitAck? && s.status.transmission
    ensures var r := HandleRx(cfg, s, b, false);
      && r.link.mode == Idle && r.link.ring == s.ring
      && (if LowNibble(b) == 0xA && HighNibble(b) != HighNibble(s.dest) then Reports(r.confirm, s, 0)
          else r.confirm == Some(b))
  {
  }

  /**
   The sender of a broadcast reports its own acknowledge once it reads it back, and a missing one for any other byte.
   */
  lemma OwnAckReports(cfg: Config, s: Link, b: byte)
    requires Safe(cfg, s) && 0 < cfg.node < 16 && s.mode.SendAck? && s.status.transmission && s.dest == cfg.node * 16
    ensures var sent := HandleTx(cfg, s, false, false);
      var r := HandleRx(cfg, sent.link, b, false);
      && sent.out == Some(cfg.node * 16 + 0xA) && r.link.mode == Idle && r.link.ring == s.ring
      && Reports(r.confirm, s, if b == cfg.node * 16 + 0xA then 0xA else 0)
  {
  }

  /** A reception never reports anything. */
  lemma ReceptionIsSilent(cfg: Config, s: Link, b: byte, late: bool)
    requires Safe(cfg, s) && cfg.node < 16 && !s.status.transmission
    ensures HandleRx(cfg, s, b, late).confirm.None?
  {
  }

  /**
   No report is positive but that of a byte received in time by the sender waiting for its acknowledge: for a unicast a
   positive acknowledge of the node addressed, for a broadcast the node's own.
   */
  lemma PositiveReport(cfg: Config, s: Link, b: byte, late: bool, idle: bool)
    requires Safe(cfg, s) && cfg.node < 16
    ensures var r := HandleRx(cfg, s, b, late).confirm;
      r.Some? && LowNibble(r.value) == 0xA ==>
        && !late && s.status.transmission
        && (!s.status.broadcast ==>
              s.mode.WaitAck? && LowNibble(b) == 0xA && r.value == b && HighNibble(b) == HighNibble(s.dest))
        && (s.status.broadcast ==> s.mode.SendAck? && r.value == s.counter && (b == s.counter || s.counter == 0xA))
    ensures var t := HandleTask(cfg, s, late, idle).confirm;
      t.Some? ==> LowNibble(t.value) == 0
  {
    hide Crc.AddByte, Ring.Begin, Ring.Put;
  }

  // ---------------------------------------------------------------- starting a transmission

  /**
   A request for a transmission succeeds if and only if the bus is free for the node and nobody else has begun: it has
   noted that the bus was idle for long enough and nothing is being received, or it is not sending or acknowledging and
   the bus has been idle for long enough meanwhile. An idle node that is refused has to wait for the bus anew.
   */
  lemma TransmitExact(cfg: Config, s: Link, m: seq<byte>, elapsed: bool, rxOngoing: bool, rxStarted: bool)
    requires Safe(cfg, s) && Ring.IsMessage(m) && |m| <= 254
    ensures var r := Transmit(cfg, s, m, elapsed, rxOngoing, rxStarted);
      && (r.1 <==> !rxStarted
                   && (if s.mode.Idle? && s.status.ready then !rxOngoing
                       else if s.mode.Init? then elapsed || s.status.ready
                       else elapsed && (s.mode.Idle? || s.mode.GetRecipient? || s.mode.Receiving?)))
      && (!r.1 ==> r.0.mode == s.mode || r.0.mode.Idle?)
      && (!r.1 && s.mode.Idle? ==> !r.0.status.ready)
      && r.0.ring == s.ring
  {
  }

  // ---------------------------------------------------------------- the acknowledge driven

  /**
   A node drives its acknowledge only in time, under the address that was called: 0x3 if the frame did not fit, else 0x7
   if its CRC was wrong, else 0xA; in silent mode only the last. One byte is driven, and nothing else changes.
   */
  lemma AcknowledgeDriven(cfg: Config, s: Link, late: bool, silent: bool)
    requires Safe(cfg, s) && s.mode.SendAck?
    ensures var nibble: byte := if s.status.overflow then 0x3 else if s.status.wrongCrc then 0x7 else 0xA;
      var ack: byte := HighNibble(s.dest) * 16 + nibble;
      var r := HandleTx(cfg, s, late, silent);
      && r.out == (if late || (silent && nibble != 0xA) then None else Some(ack))
      && r.link == s.(counter := ack, txEvent := false)
  {
  }

  // ---------------------------------------------------------------- when the node may drive a byte

  /**
   The transmit interrupt is enabled when a frame is started and when an acknowledge becomes due, stays so exactly as
   long as another byte of the frame is left, and is disabled with the last one, with the acknowledge, and with a
   failed echo.
   */
  lemma TransmitInterrupt(cfg: Config, s: Link, b: byte)
    requires Safe(cfg, s) && cfg.node < 16
    ensures var r := HandleRx(cfg, s, b, false).link;
      r.txEvent <==> if r.mode.SendAck? && !s.mode.SendAck? then true
                     else s.txEvent && !(s.mode.Sending? && r.mode.Idle?)
    ensures forall late, silent :: HandleTx(cfg, s, late, silent).link.txEvent <==> Drives(s)
  {
    hide HandleTx, Safe, HandleRx;
    forall late, silent
      ensures HandleTx(cfg, s, late, silent).link.txEvent <==> Drives(s)
    {
      DrivesMore(cfg, s, late, silent);
    }
    HearsAndEnables(cfg, s, b);
  }

  /** The node is in the middle of its frame and has another byte to send. */
  predicate Drives(s: Link) {
    s.txEvent && s.mode.Sending? && s.counter > 0
  }

  lemma DrivesMore(cfg: Config, s: Link, late: bool, silent: bool)
    requires Safe(cfg, s)
    ensures HandleTx(cfg, s, late, silent).link.txEvent <==> Drives(s)
  {
    hide Crc.AddByte;
  }

  lemma HearsAndEnables(cfg: Config, s: Link, b: byte)
    requires Safe(cfg, s) && cfg.node < 16
    ensures var r := HandleRx(cfg, s, b, false).link;
      r.txEvent <==> if r.mode.SendAck? && !s.mode.SendAck? then true
                     else s.txEvent && !(s.mode.Sending? && r.mode.Idle?)
  {
    hide Safe, Receive, Recipient, Echo, OwnAck, AckSeen;
    match s.mode
    case GetRecipient => RecipientEnables(cfg, s, b);
    case Receiving => ReceiveEnables(cfg, s, b);
    case Sending => EchoEnables(cfg, s, b);
    case SendAck => AckEnables(cfg, s, b);
    case WaitAck => AckEnables(cfg, s, b);
    case _ =>
  }

  lemma RecipientEnables(cfg: Config, s: Link, b: byte)
    requires Safe(cfg, s) && s.mode.GetRecipient?
    ensures Recipient(cfg, s, b).mode.Receiving? && Recipient(cfg, s, b).txEvent == s.txEvent
  {
    hide Crc.AddByte, Ring.Begin;
  }

  lemma ReceiveEnables(cfg: Config, s: Link, b: byte)
    requires Safe(cfg, s) && s.mode.Receiving?
    ensures var r := Receive(cfg, s, b);
      r.txEvent <==> r.mode.SendAck? || s.txEvent
  {
    hide Crc.AddByte, Crc.Word, Ring.Put;
  }

  lemma EchoEnables(cfg: Config, s: Link, b: byte)
    requires Safe(cfg, s) && s.mode.Sending? && cfg.node < 16
    ensures var r := Echo(cfg, s, b).link;
      r.txEvent <==> r.mode.SendAck? || (s.txEvent && !r.mode.Idle?)
  {
    hide Crc.High, Crc.Low;
  }

  lemma AckEnables(cfg: Config, s: Link, b: byte)
    requires Safe(cfg, s) && cfg.node < 16
    ensures s.mode.SendAck? ==>
      var r := OwnAck(cfg, s, b).link;
      r.mode == Idle && r.txEvent == s.txEvent
    ensures s.mode.WaitAck? ==>
      var r := AckSeen(cfg, s, b).link;
      r.mode == Idle && r.txEvent == s.txEvent
  {
    hide Ring.Commit;
  }

  /** A started transmission is due to drive its first byte. */
  lemma StartedIsDue(cfg: Config, s: Link, m: seq<byte>, elapsed: bool, rxOngoing: bool, rxStarted: bool)
    requires Safe(cfg, s) && Ring.IsMessage(m) && |m| <= 254 && Transmit(cfg, s, m, elapsed, rxOngoing, rxStarted).1
    ensures var r := Transmit(cfg, s, m, elapsed, rxOngoing, rxStarted).0;
      r.txEvent && r.mode.Sending? && r.counter as int == |m| + 1
  {
  }

  /** Message 0xF310 is acknowledged by its sender and thrown away: what was stored of it is given up. */
  lemma PowerFailIsDropped(cfg: Config, s: Link, b: byte)
    requires Safe(cfg, s) && cfg.node < 16 && s.mode.WaitAck? && !s.status.transmission && Storing(s)
    requires s.ring.buf[s.ring.wr + 2] == 0xF3 && s.ring.buf[s.ring.wr + 3] == 0x10
    ensures var r := HandleRx(cfg, s, b, false);
      && r.link.mode == Idle && r.confirm.None?
      && r.link.ring == (if b % 16 == 0xA && !s.status.wrongCrc then s.ring.(off := 0) else s.ring)
  {
  }

  /** An offline node hears, sends and reports nothing until it is attached again, and is idle then. */
  lemma OfflineIsMute(cfg: Config, s: Link, b: byte, late: bool, idle: bool, m: seq<byte>, rxOngoing: bool,
                      rxStarted: bool)
    requires Safe(cfg, s) && cfg.node < 16 && Ring.IsMessage(m) && |m| <= 254
    ensures var o := GoOffline(s);
      && Safe(cfg, o) && !o.txEvent && o.ring == s.ring
      && HandleRx(cfg, o, b, late) == Heard(o, None) && HandleTask(cfg, o, late, idle) == Heard(o, None)
      && HandleTx(cfg, o, late, idle) == Sent(o, None)
      && Transmit(cfg, o, m, idle, rxOngoing, rxStarted) == (o, false)
      && GoOnline(o) == Quiet(s).(txEvent := true)
  {
  }
}
