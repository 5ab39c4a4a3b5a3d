/**
 The data link layer of D-Bus-2 as a state machine over its interrupt handlers
 and task calls. Every handler is one step; elapsed time enters as a flag.
 */
module Link {
  import opened Bytes
  import Crc
  import Ring

  datatype Mode = Init | Idle | GetRecipient | Receiving | Sending | SendAck | WaitAck | Offline

  datatype Status = Status(broadcast: bool, overflow: bool, wrongCrc: bool, mine: bool,
                           ready: bool, transmission: bool, dbus3: bool)

  const CLEAR := Status(false, false, false, false, false, false, false)

  const ACK_BUSY: byte := 0x03
  const ACK_WRONG: byte := 0x07
  const ACK_OK: byte := 0x0A
  const ACK_ABORTED: byte := 0x0F
  /** The longest frame whose bytes the 8-bit counter can count. */
  const MAX_LENGTH: byte := 253

  /** Node address and input buffer length. */
  datatype Config = Config(node: byte, size: nat)

  /**
   counter is the union of characters to write, remaining bytes to receive and acknowledge;
   next and check index the message being sent, toCheck counts the echoes still due.
   */
  datatype Link = Link(mode: Mode, status: Status, counter: byte, ring: Ring.Ring, crc: bv16, rxHigh: byte,
                       dest: byte, tx: seq<byte>, next: nat, check: nat, toCheck: byte, txEvent: bool)

  /** A new state, and the acknowledge reported to the bus application layer, if any. */
  datatype Heard = Heard(link: Link, confirm: Option<byte>)

  /** A new state, and the byte put on the bus, if any. */
  datatype Sent = Sent(link: Link, out: Option<byte>)

  // ---------------------------------------------------------------- what every step keeps

  predicate SafeRing(cfg: Config, r: Ring.Ring) {
    Ring.Length(cfg.size) && |r.buf| == cfg.size && r.rd < cfg.size && r.wr <= cfg.size && IsEven(r.wr)
  }

  /** A frame for this node is being stored. */
  predicate Storing(s: Link) {
    s.status.mine && !s.status.overflow
  }

  /** All buffer accesses the handlers may make next are in bounds, and the counters fit their meaning. */
  predicate Safe(cfg: Config, s: Link) {
    && SafeRing(cfg, s.ring)
    && (s.mode.Idle? || s.mode.Init? ==> s.status == CLEAR.(ready := s.status.ready))
    && (s.mode.GetRecipient? ==>
          (4 <= s.counter || s.counter <= 1) && s.status == CLEAR.(overflow := s.counter > cfg.size))
    && (s.mode.Receiving? ==> SafeReceiving(cfg, s))
    && (s.mode.Sending? ==> SafeSending(s))
    && (s.mode.SendAck? || s.mode.WaitAck? ==> SafeAck(cfg, s))
  }

  predicate SafeReceiving(cfg: Config, s: Link) {
    && !s.status.transmission && !s.status.ready && !s.status.wrongCrc
    && (!s.status.mine ==> !s.status.overflow && !s.status.broadcast)
    && (s.status.mine ==> (1 <= s.counter || s.status.overflow) && !s.status.dbus3)
    && (Storing(s) ==> s.ring.wr + s.ring.off + (if s.counter > 2 then s.counter - 2 else 0) <= cfg.size)
    && (Storing(s) ==> s.ring.wr + 4 <= cfg.size)
  }

  predicate SafeSending(s: Link) {
    && s.status.transmission && !s.status.overflow && !s.status.wrongCrc && !s.status.ready
    && 4 <= |s.tx| <= 254
    && s.counter <= |s.tx| + 1 && s.toCheck <= |s.tx| + 1
    && s.next == |s.tx| + 1 - (if s.counter == 0 then 1 else s.counter)
    && s.check + s.toCheck == |s.tx| + 1
  }

  predicate SafeAck(cfg: Config, s: Link) {
    && !s.status.ready
    && (s.status.transmission ==> (s.mode.SendAck? <==> s.status.broadcast) && !s.status.overflow && !s.status.wrongCrc)
    && (!s.status.transmission ==> (s.mode.WaitAck? <==> s.status.broadcast) && s.status.mine)
    && (!s.status.transmission && Storing(s) ==> s.ring.wr + 4 <= cfg.size && s.ring.wr + s.ring.off <= cfg.size)
  }

  // ---------------------------------------------------------------- receive interrupt

  function EnterIdle(s: Link): Link {
    s.(mode := Idle, status := CLEAR)
  }

  /** The reaction to an interbyte timeout noticed by the receive interrupt. */
  function TimedOut(s: Link): Heard {
    if s.status.transmission then Heard(EnterIdle(s), Some(NodeBits(s.dest) + ACK_ABORTED))
    else if s.mode.SendAck? then Heard(s, None)
    else Heard(EnterIdle(s), None)
  }

  /** The state in which the received byte is dispatched. */
  function Before(s: Link, late: bool): Heard {
    if !s.mode.Idle? && late then TimedOut(s) else Heard(s, None)
  }

  predicate AtStart(s: Link) {
    s.mode.Idle? || s.mode.Init?
  }

  function Start(cfg: Config, s: Link, b: byte): (r: Link)
    requires Safe(cfg, s) && AtStart(s)
    ensures Safe(cfg, r)
  {
    if b >= 2 then
      s.(mode := GetRecipient, counter := Low8(b + Ring.OVERHEAD),
         status := CLEAR.(overflow := Low8(b + Ring.OVERHEAD) > cfg.size), crc := Crc.AddByte(Crc.DLL_INIT, b))
    else
      s.(mode := Receiving, status := CLEAR.(dbus3 := true))
  }

  /** Own node or broadcast. */
  predicate Addressed(cfg: Config, b: byte) {
    HighNibble(b) == 0 || HighNibble(b) == cfg.node
  }

  /** A frame for this node: its first two bytes are stored unless overflow is or was found. */
  function Accept(cfg: Config, s: Link, b: byte): (r: Link)
    requires Safe(cfg, s) && s.mode.GetRecipient?
    ensures Safe(cfg, r)
  {
    var status := s.status.(broadcast := s.status.broadcast || HighNibble(b) == 0, mine := true);
    var t := s.(mode := Receiving, dest := b, crc := Crc.AddByte(s.crc, b), status := status);
    if status.overflow then t
    else
      var (ring, overflow) := Ring.Begin(cfg.size, s.ring, s.counter, b);
      t.(ring := ring, status := status.(overflow := overflow))
  }

  function Recipient(cfg: Config, s: Link, b: byte): (r: Link)
    requires Safe(cfg, s) && s.mode.GetRecipient?
    ensures Safe(cfg, r)
  {
    if Addressed(cfg, b) then Accept(cfg, s, b)
    else s.(counter := Low8(s.counter + 1), mode := Receiving, status := CLEAR)
  }

  /** The last byte of a frame for this node has arrived: on to the acknowledge. */
  function ToAck(s: Link): Link {
    if s.status.broadcast then s.(mode := WaitAck) else s.(mode := SendAck, txEvent := true)
  }

  function Receive(cfg: Config, s: Link, b: byte): (r: Link)
    requires Safe(cfg, s) && s.mode.Receiving?
    ensures Safe(cfg, r)
  {
    var t := s.(counter := Low8(s.counter - 1));
    if Storing(s) then
      if t.counter > 1 then
        var (ring, overflow) := Ring.Put(cfg.size, s.ring, b);
        if overflow then t.(status := s.status.(overflow := true))
        else t.(ring := ring, crc := Crc.AddByte(s.crc, b))
      else if t.counter == 0 then
        ToAck(t.(status := s.status.(wrongCrc := s.status.wrongCrc || Crc.Word(s.rxHigh, b) != s.crc)))
      else
        t.(rxHigh := b)
    else if t.counter != 0 then t
    else if s.status.overflow then ToAck(t)
    else if s.status.dbus3 then t
    else EnterIdle(t)
  }

  /** The byte the sender expects to read back next. */
  function Expected(s: Link): byte
    requires SafeSending(s)
  {
    if s.toCheck > 1 then s.tx[s.check]
    else if s.toCheck == 1 then Crc.High(s.crc)
    else Crc.Low(s.crc)
  }

  function Echo(cfg: Config, s: Link, b: byte): (r: Heard)
    requires Safe(cfg, s) && s.mode.Sending? && cfg.node < 16
    ensures Safe(cfg, r.link)
  {
    if b != Expected(s) then
      Heard(EnterIdle(s.(txEvent := false)), Some(NodeBits(s.dest) + ACK_ABORTED))
    else if s.toCheck != 0 then
      Heard(s.(toCheck := s.toCheck - 1, check := s.check + 1), None)
    else if s.status.broadcast then
      Heard(s.(mode := SendAck, dest := cfg.node * 16, txEvent := true), None)
    else
      Heard(s.(mode := WaitAck), None)
  }

  function CommitRing(cfg: Config, r: Ring.Ring): (q: Ring.Ring)
    requires SafeRing(cfg, r) && r.wr + r.off <= cfg.size
    ensures SafeRing(cfg, q)
  {
    Ring.Aligned(cfg.size, r.wr, r.off);
    Ring.Commit(r)
  }

  function OwnAck(cfg: Config, s: Link, b: byte): (r: Heard)
    requires Safe(cfg, s) && s.mode.SendAck? && cfg.node < 16
    ensures Safe(cfg, r.link)
  {
    if b == s.counter || s.counter == ACK_OK then
      if s.status.broadcast then
        Heard(EnterIdle(s), Some(s.counter))
      else if !s.status.wrongCrc && !s.status.overflow then
        Heard(EnterIdle(s.(ring := CommitRing(cfg, s.ring))), None)
      else
        Heard(EnterIdle(s), None)
    else if s.status.broadcast then
      Heard(EnterIdle(s), Some(cfg.node * 16))
    else
      Heard(EnterIdle(s), None)
  }

  /** Message 0xF310, which is noted and then discarded. */
  predicate IsPowerFail(high: byte, low: byte) {
    high == 0xF3 && low == 0x10
  }

  function AckSeen(cfg: Config, s: Link, b: byte): (r: Heard)
    requires Safe(cfg, s) && s.mode.WaitAck?
    ensures Safe(cfg, r.link)
  {
    var ok := LowNibble(b) == ACK_OK;
    if s.status.transmission then
      var ack := if ok && NodeBits(b) != NodeBits(s.dest) then NodeBits(s.dest) else b;
      Heard(EnterIdle(s.(counter := ack)), Some(ack))
    else if ok && !s.status.wrongCrc && Storing(s) then
      var buf, wr := s.ring.buf, s.ring.wr;
      var ring := if IsPowerFail(buf[wr + 2], buf[wr + 3]) then s.ring.(off := 0) else CommitRing(cfg, s.ring);
      Heard(EnterIdle(s.(counter := b, ring := ring)), None)
    else
      Heard(EnterIdle(s.(counter := b)), None)
  }

  /** DLL_vHandleRxEvent for a byte received without a line error. */
  function HandleRx(cfg: Config, s: Link, b: byte, late: bool): (r: Heard)
    requires Safe(cfg, s) && cfg.node < 16
    ensures Safe(cfg, r.link)
  {
    if s.mode.Offline? then Heard(s, None)
    else
      var t := Before(s, late);
      if t.link.mode.GetRecipient? then Heard(Recipient(cfg, t.link, b), t.confirm)
      else if t.link.mode.Receiving? then Heard(Receive(cfg, t.link, b), t.confirm)
      else if t.link.mode.Sending? then Echo(cfg, t.link, b)
      else if t.link.mode.SendAck? then OwnAck(cfg, t.link, b)
      else if t.link.mode.WaitAck? then AckSeen(cfg, t.link, b)
      else Heard(Start(cfg, t.link, b), t.confirm)
  }

  // ---------------------------------------------------------------- transmit interrupt

  function SendNext(s: Link): (r: Sent)
    requires SafeSending(s)
    ensures SafeSending(r.link)
  {
    if s.counter > 1 then
      var b := s.tx[s.next];
      Sent(s.(crc := Crc.AddByte(s.crc, b), next := s.next + 1, counter := s.counter - 1), Some(b))
    else if s.counter == 1 then
      Sent(s.(counter := 0), Some(Crc.High(s.crc)))
    else
      Sent(s.(txEvent := false), Some(Crc.Low(s.crc)))
  }

  /** The acknowledge nibble for the frame just received or sent. */
  function Verdict(s: Link): byte {
    if s.status.overflow then ACK_BUSY else if s.status.wrongCrc then ACK_WRONG else ACK_OK
  }

  function DriveAck(s: Link, late: bool, silent: bool): Sent
  {
    var ack := NodeBits(s.dest) + Verdict(s);
    Sent(s.(counter := ack, txEvent := false),
         if !late && (!silent || Verdict(s) == ACK_OK) then Some(ack) else None)
  }

  /** DLL_vHandleTxEvent. */
  function HandleTx(cfg: Config, s: Link, late: bool, silent: bool): (r: Sent)
    requires Safe(cfg, s)
    ensures Safe(cfg, r.link)
  {
    if s.mode.Sending? then SendNext(s)
    else if s.mode.SendAck? then DriveAck(s, late, silent)
    else Sent(s.(txEvent := false), None)
  }

  // ---------------------------------------------------------------- task level

  /** DLL_HandleTask: late means the interbyte timeout elapsed, idle that the bus was long enough idle. */
  function HandleTask(cfg: Config, s: Link, late: bool, idle: bool): (r: Heard)
    requires Safe(cfg, s)
    ensures Safe(cfg, r.link)
  {
    match s.mode
    case Idle => Heard(if idle || s.status.ready then s.(status := s.status.(ready := true)) else s, None)
    case Init => Heard(EnterIdle(s), None)
    case Offline => Heard(s, None)
    case Sending =>
      if late then Heard(EnterIdle(s.(txEvent := false)), Some(NodeBits(s.dest))) else Heard(s, None)
    case SendAck => if late then AckTimeout(s) else Heard(s, None)
    case WaitAck => if late then AckTimeout(s) else Heard(s, None)
    case _ => Heard(if late then EnterIdle(s) else s, None)
  }

  function AckTimeout(s: Link): Heard {
    if s.status.transmission then Heard(EnterIdle(s.(txEvent := false)), Some(NodeBits(s.dest)))
    else Heard(EnterIdle(s), None)
  }

  /** DLL_bIsBusIdle: elapsed means the collision waiting time and the idle detection time are over. */
  predicate BusIdle(s: Link, elapsed: bool) {
    s.status.ready || (elapsed && (s.mode.Init? || s.mode.Idle? || s.mode.GetRecipient? || s.mode.Receiving?))
  }

  /** DLL_bIsBusReadyForTransmission. */
  function BusReady(s: Link, elapsed: bool, rxOngoing: bool): (Link, bool) {
    if s.mode.Idle? && s.status.ready then
      if rxOngoing then (s.(status := s.status.(ready := false)), false) else (s, true)
    else
      (s, BusIdle(s, elapsed))
  }

  /** While a frame is under way, sent or being acknowledged, the bus is not ready for transmission. */
  lemma NotReadyWhileSending(cfg: Config, s: Link, elapsed: bool, rxOngoing: bool)
    requires Safe(cfg, s) && BusReady(s, elapsed, rxOngoing).1
    ensures !s.mode.Sending? && !s.mode.SendAck? && !s.mode.WaitAck?
  {
  }

  /** The transmission of m is set up, unless somebody else has just started. */
  function Launch(cfg: Config, s: Link, m: seq<byte>, rxStarted: bool): (r: (Link, bool))
    requires SafeRing(cfg, s.ring) && Ring.IsMessage(m) && |m| <= 254
    ensures Safe(cfg, r.0)
  {
    var t := s.(crc := Crc.DLL_INIT, tx := m, next := 0, check := 0, counter := m[0] + 3,
                toCheck := m[0] + 3, dest := m[1]);
    if rxStarted then (EnterIdle(t), false)
    else
      (t.(status := CLEAR.(transmission := true, broadcast := HighNibble(m[1]) == 0),
          mode := Sending, txEvent := true), true)
  }

  /** DLL_bTransmitMessage; rxStarted is the second look at the receiver, after the service function. */
  function Transmit(cfg: Config, s: Link, m: seq<byte>, elapsed: bool, rxOngoing: bool, rxStarted: bool)
    : (r: (Link, bool))
    requires Safe(cfg, s) && Ring.IsMessage(m) && |m| <= 254
    ensures Safe(cfg, r.0)
  {
    var (q, free) := BusReady(s, elapsed, rxOngoing);
    if !free || q.mode.Offline? then (q, false) else Launch(cfg, q, m, rxStarted)
  }

  function GoOffline(s: Link): Link {
    s.(mode := Offline, txEvent := false)
  }

  function GoOnline(s: Link): Link {
    EnterIdle(s).(txEvent := true)
  }
}
