/**
 The connection state machine of one DBal instance: how a connection to the partner
 is opened, closed, taken over by a temporary partner, and given up.
 */
module Connection {
  import opened Bytes

  datatype State = Disconnected | Connecting | Connected | Disconnecting

  datatype Message =
    | EnableRequest | EnableResponse | DisableRequest | DisableResponse | PingRequest | PingResponse
    | TempEnableRequest | TempEnableResponse | TempDisableRequest | TempDisableResponse

  datatype Event =
    | Enable | EnableRequested | Disable | DisableSilent | DisableRequested | Accept | Reject
    | TempEnableRequested | TempDisableRequested

  /** ConMsgTimer: off, or running with the recovery time after a wake-up break or with the response time. */
  datatype Timer = Off | Recovery | Response

  /** DBAL_DBUS_RETRY_MAX */
  const RETRY_MAX: byte := 5
  /** DBAL_PRELIMINARY_PARTNER_ADDR */
  const PRELIMINARY: byte := 0

  /**
   ready: IoCurrentCommState, kind: the type in ConnectTransmitBuffer, flag and target: its transmit bit and
   table entry, repeats: ConRepeatCnt, retries: SendRetryCounter of the connection message,
   notified: what the registered callbacks were told last.
   */
  datatype Conn = Conn(state: State, ready: bool, partner: byte, backup: byte, disableReq: bool, notified: bool,
                       kind: Message, flag: bool, target: byte, repeats: byte, retries: byte,
                       timer: Timer, breakTimer: bool, seqSend: byte, seqRecv: byte)

  function Initial(partner: byte): Conn {
    Conn(Disconnected, false, partner, partner, false, false, EnableRequest, false, 5, 0, 0, Off, false, 255, 255)
  }

  /** DBAL_isValidDbus2Address */
  predicate ValidAddress(a: byte) {
    a >= 0x10
  }

  predicate Temporary(m: Message) {
    m.TempEnableRequest? || m.TempEnableResponse? || m.TempDisableRequest? || m.TempDisableResponse?
  }

  // ---------------------------------------------------------------- the state machine

  /** DBAL_sendConnectionMessage */
  function Tell(c: Conn, m: Message): Conn {
    c.(kind := m, target := c.partner, flag := true)
  }

  function ToConnected(c: Conn): Conn {
    c.(state := Connected, ready := true, seqSend := 255, seqRecv := 255, timer := Off, repeats := 0, notified := true)
  }

  function ToDisconnected(c: Conn): Conn {
    c.(state := Disconnected, ready := false, disableReq := false, timer := Off, notified := false, repeats := 0,
       partner := c.backup)
  }

  /** DBAL_connectionSm */
  function Sm(c: Conn, e: Event): Conn {
    match (c.state, e)
    case (Disconnected, Enable) => Tell(c.(state := Connecting), EnableRequest)
    case (Disconnected, EnableRequested) => ToConnected(Tell(c, EnableResponse)).(breakTimer := false)
    case (Disconnected, TempEnableRequested) => ToConnected(Tell(c, TempEnableResponse))
    case (Connecting, EnableRequested) => ToConnected(Tell(c, EnableResponse))
    case (Connecting, Accept) => ToConnected(c)
    case (Connecting, Reject) => c.(state := Disconnected)
    case (Connecting, TempEnableRequested) => ToConnected(Tell(c, TempEnableResponse))
    case (Connected, EnableRequested) => ToConnected(ToDisconnected(Tell(c, EnableResponse)))
    case (Connected, Disable) => Tell(c.(state := Disconnecting), DisableRequest)
    case (Connected, DisableSilent) => ToDisconnected(c)
    case (Connected, DisableRequested) => ToDisconnected(Tell(c, DisableResponse))
    case (Connected, TempEnableRequested) => ToConnected(Tell(c, TempEnableResponse))
    case (Connected, TempDisableRequested) => ToDisconnected(Tell(c, TempDisableResponse))
    case (Disconnecting, Accept) => ToDisconnected(c)
    case (Disconnecting, Reject) => ToDisconnected(c)
    case _ => c
  }

  // ---------------------------------------------------------------- what drives it

  /** DBAL_enable: false when the partner is unknown or the connection is already up or on its way. */
  function UserEnable(c: Conn): (Conn, bool) {
    if ValidAddress(c.partner) && !c.ready && c.state.Disconnected? then (Sm(c, Enable), true) else (c, false)
  }

  /** DBAL_disable */
  function UserDisable(c: Conn): (Conn, bool) {
    if ValidAddress(c.partner) && c.ready && c.state.Connected? then (Sm(c, Disable), true) else (c, false)
  }

  /** DBAL_isDisablePending */
  predicate DisablePending(c: Conn) {
    c.disableReq || c.state.Disconnecting?
  }

  /** DBAL_handleConMsgTxFail */
  function TxFail(c: Conn): Conn {
    Sm(c.(retries := 0), if c.kind.PingRequest? || c.kind.PingResponse? then DisableSilent else Reject)
  }

  /** An acknowledged request was the last one that may go unanswered. */
  predicate DeliveredFails(c: Conn) {
    (c.kind.EnableRequest? || c.kind.DisableRequest?) && c.repeats >= RETRY_MAX
  }

  /** DbalTransmitPost_appLayerConnection: the connection message was acknowledged. */
  function Delivered(c: Conn): Conn {
    if DeliveredFails(c) then TxFail(c)
    else if c.kind.EnableRequest? || c.kind.DisableRequest? then c.(timer := Response, repeats := c.repeats + 1)
    else c
  }

  /** The connection message is given up; noAck: nobody answered on the bus. */
  predicate UndeliverableFails(c: Conn, noAck: bool) {
    c.target == c.partner && (c.retries >= RETRY_MAX || (noAck && !c.kind.EnableRequest?))
  }

  /** The part of DBAL_nonDeliverableMessage for the connection message. */
  function Undeliverable(c: Conn, noAck: bool): Conn {
    if c.target != c.partner then c
    else if UndeliverableFails(c, noAck) then TxFail(c)
    else
      var r := c.(retries := c.retries + 1);
      if noAck then r.(timer := Recovery) else r.(flag := true)
  }

  /** DBAL_conMsgTimerCallback: the last message once more. */
  function TimerFires(c: Conn): Conn {
    if c.timer.Off? then c else Tell(c.(timer := Off), c.kind)
  }

  /** DBAL_isNodeToBeWokenUp: the partner reported itself after the wake-up break. */
  function WakeUp(c: Conn): Conn {
    if c.timer.Recovery? then Tell(c.(timer := Off), EnableRequest) else c
  }

  function BreakDetected(c: Conn): Conn {
    c.(breakTimer := true)
  }

  /** DBAL_breakProcessTimerCallback: no enable request came after a break. */
  function BreakTimeout(c: Conn): Conn {
    if !c.breakTimer then c
    else
      var b := c.(breakTimer := false);
      if !c.ready || c.state.Disconnecting? then ToDisconnected(b) else b
  }

  /** A received connection message; sound: its length, protocol type and version are right. */
  datatype Received = Received(sender: byte, sound: bool, message: Option<Message>)

  datatype Class = InitPartner | TempMessage | Blocked | Corrupt | Normal

  predicate TempActive(c: Conn) {
    c.partner != c.backup
  }

  /** The decisions of DbalReceive_appLayerConnection, in its order. */
  function Classify(c: Conn, r: Received): Class {
    if r.sender != c.partner && c.partner == PRELIMINARY && !TempActive(c) && ValidAddress(r.sender) && r.sound
      && r.message == Some(EnableRequest) then InitPartner
    else if ValidAddress(r.sender) && r.sound && r.message.Some? && Temporary(r.message.value) then TempMessage
    else if TempActive(c) && c.backup == r.sender then Blocked
    else if r.sender != c.partner || !r.sound || r.message.None? then Corrupt
    else Normal
  }

  /** The connection's part of DBAL_handleConMsg; waiting: messages still wait for their response. */
  function Handle(c: Conn, m: Message, waiting: bool): Conn {
    match m
    case EnableRequest => Sm(c.(retries := 0), EnableRequested)
    case EnableResponse => Sm(c.(retries := 0), Accept)
    case DisableRequest => if waiting then c.(disableReq := true) else Sm(c.(retries := 0), DisableRequested)
    case DisableResponse => Sm(c.(retries := 0), Accept)
    case PingRequest => if c.ready && c.state.Connected? then Tell(c, PingResponse) else c
    case _ => c
  }

  /** A temporary partner takes over: nobody else has, and it is not the partner anyway. */
  predicate TakesOver(c: Conn, sender: byte) {
    c.partner != sender && !TempActive(c)
  }

  /** The connection's part of DBAL_handleTempConMsg. */
  function HandleTemp(c: Conn, sender: byte, m: Message): Conn {
    match m
    case TempEnableRequest =>
      if TakesOver(c, sender) then Sm(c.(partner := sender), TempEnableRequested)
      else if TempActive(c) && c.partner == sender then Sm(c, TempEnableRequested)
      else c
    case TempDisableRequest =>
      if TempActive(c) && c.partner == sender then Sm(c.(retries := 0), TempDisableRequested) else c
    case _ => c
  }

  function Receive(c: Conn, r: Received, waiting: bool): Conn {
    match Classify(c, r)
    case InitPartner => Handle(c.(partner := r.sender, backup := r.sender), EnableRequest, waiting)
    case TempMessage => HandleTemp(c, r.sender, r.message.value)
    case Blocked => c
    case Corrupt => c
    case Normal => Handle(c, r.message.value, waiting)
  }

  // ---------------------------------------------------------------- invariants

  /**
   Communication is up exactly in Connected and Disconnecting, and that is what was last notified;
   outside of those two there is no temporary partner; the counters stay within their limit.
   */
  predicate Inv(c: Conn) {
    && (c.ready <==> c.state.Connected? || c.state.Disconnecting?)
    && c.notified == c.ready
    && (c.state.Disconnected? || c.state.Connecting? ==> c.partner == c.backup)
    && c.repeats <= RETRY_MAX && c.retries <= RETRY_MAX
  }

  /** What can happen to the connection, from above, from below and by time. */
  datatype Step =
    | DoEnable | DoDisable | DoFail(event: Event) | DoDelivered | DoUndeliverable(noAck: bool)
    | DoTimer | DoWakeUp | DoBreak | DoBreakTimeout | DoReceive(received: Received, waiting: bool)
    | DoSequence(seqSend: byte, seqRecv: byte) | DoPick | DoClearRetries

  function After(c: Conn, s: Step): Conn {
    match s
    case DoEnable => UserEnable(c).0
    case DoDisable => UserDisable(c).0
    case DoFail(e) => if e.DisableSilent? || e.DisableRequested? then Sm(c, e) else c
    case DoDelivered => Delivered(c)
    case DoUndeliverable(noAck) => Undeliverable(c, noAck)
    case DoTimer => TimerFires(c)
    case DoWakeUp => WakeUp(c)
    case DoBreak => BreakDetected(c)
    case DoBreakTimeout => BreakTimeout(c)
    case DoReceive(r, waiting) => Receive(c, r, waiting)
    case DoSequence(send, recv) => c.(seqSend := send, seqRecv := recv)
    case DoPick => c.(flag := false)
    case DoClearRetries => c.(retries := 0)
  }

  function Run(c: Conn, steps: seq<Step>): Conn
    decreases |steps|
  {
    if steps == [] then c else Run(After(c, steps[0]), steps[1..])
  }

  lemma SmInv(c: Conn, e: Event)
    requires Inv(c)
    ensures Inv(Sm(c, e))
  {
  }

  /** A new partner before a first or a temporary connection is all right when the connection follows at once. */
  lemma NewPartnerInv(c: Conn, sender: byte)
    requires Inv(c) && c.partner == c.backup
    ensures Inv(Sm(c.(partner := sender), TempEnableRequested))
    ensures Inv(c.(partner := sender, backup := sender))
  {
  }

  lemma ReceiveInv(c: Conn, r: Received, waiting: bool)
    requires Inv(c)
    ensures Inv(Receive(c, r, waiting))
  {
    hide Sm;
    SmInv(c.(retries := 0), EnableRequested);
    SmInv(c.(retries := 0), Accept);
    SmInv(c.(retries := 0), DisableRequested);
    SmInv(c.(retries := 0), TempDisableRequested);
    SmInv(c, TempEnableRequested);
    if !TempActive(c) {
      NewPartnerInv(c, r.sender);
      SmInv(c.(partner := r.sender, backup := r.sender, retries := 0), EnableRequested);
    }
  }

  lemma FailInv(c: Conn)
    requires Inv(c)
    ensures Inv(TxFail(c)) && Inv(Delivered(c))
    ensures forall noAck :: Inv(Undeliverable(c, noAck))
  {
  }

  lemma StepInv(c: Conn, s: Step)
    requires Inv(c)
    ensures Inv(After(c, s))
  {
    hide Sm, TxFail, Receive, Delivered, Undeliverable;
    match s
    case DoEnable => SmInv(c, Enable);
    case DoDisable => SmInv(c, Disable);
    case DoFail(e) => SmInv(c, e);
    case DoDelivered => FailInv(c);
    case DoUndeliverable(noAck) => FailInv(c);
    case DoReceive(r, waiting) => ReceiveInv(c, r, waiting);
    case _ =>
  }

  /** Over every sequence of events. */
  lemma {:induction false} RunInv(c: Conn, steps: seq<Step>)
    requires Inv(c)
    ensures Inv(Run(c, steps))
    decreases |steps|
  {
    hide Inv, After;
    if steps == [] {
    } else {
      StepInv(c, steps[0]);
      RunInv(After(c, steps[0]), steps[1..]);
    }
  }

  /** A temporary partner never outlives its connection: once disconnected, the original partner is back. */
  lemma TemporaryEnds(partner: byte, steps: seq<Step>)
    ensures var c := Run(Initial(partner), steps);
      && Inv(c) && (!c.ready ==> !TempActive(c)) && (TempActive(c) ==> c.notified)
  {
    hide Run;
    RunInv(Initial(partner), steps);
  }

  predicate Fresh(c: Conn) {
    c.seqSend == 255 && c.seqRecv == 255 && c.repeats == 0 && c.timer.Off?
  }

  lemma SmFresh(c: Conn, e: Event)
    requires c.ready <==> c.state.Connected? || c.state.Disconnecting?
    ensures !c.ready && Sm(c, e).ready ==> Fresh(Sm(c, e))
  {
  }

  lemma FailNotFresh(c: Conn)
    requires Inv(c) && !c.ready
    ensures !Delivered(c).ready && forall noAck :: !Undeliverable(c, noAck).ready
  {
  }

  /** Every new connection starts with both sequence ids before zero and no timer running. */
  lemma FreshIds(c: Conn, s: Step)
    requires Inv(c) && !c.ready && After(c, s).ready
    ensures Fresh(After(c, s))
  {
    hide Sm, Fresh, Classify;
    match s
    case DoEnable => SmFresh(c, Enable);
    case DoDisable => SmFresh(c, Disable);
    case DoFail(e) => SmFresh(c, e);
    case DoDelivered => FailNotFresh(c);
    case DoUndeliverable(noAck) => FailNotFresh(c);
    case DoReceive(r, waiting) =>
      SmFresh(c.(retries := 0), EnableRequested);
      SmFresh(c.(retries := 0), Accept);
      SmFresh(c.(retries := 0), DisableRequested);
      SmFresh(c.(retries := 0), TempDisableRequested);
      SmFresh(c, TempEnableRequested);
      SmFresh(c.(partner := r.sender), TempEnableRequested);
      SmFresh(c.(partner := r.sender, backup := r.sender, retries := 0), EnableRequested);
    case _ =>
  }

  // ---------------------------------------------------------------- giving up

  /** n times: the request is acknowledged, no answer comes, the timer sends it again. */
  function Unanswered(c: Conn, n: nat): Conn
    decreases n
  {
    if n == 0 then c else Unanswered(TimerFires(Delivered(c)), n - 1)
  }

  /** An enable request that is acknowledged but never answered is repeated exactly as often as the counter allows. */
  lemma {:induction false} EnableEnds(c: Conn, n: nat)
    requires Inv(c) && c.state.Connecting? && c.kind.EnableRequest?
    requires n + c.repeats <= 5
    ensures var d := Unanswered(c, n);
      && d.state.Connecting? && d.kind.EnableRequest? && d.repeats as int == c.repeats as int + n
      && d == c.(repeats := d.repeats, timer := d.timer, flag := d.flag, target := d.target)
      && (d.repeats == 5 ==> Delivered(d).state.Disconnected?)
    decreases n
  {
    if n == 0 {
    } else {
      EnableEnds(TimerFires(Delivered(c)), n - 1);
    }
  }

  /**
   The counter is not cleared when the attempt ends that way. So an acknowledged enable request leaves the
   machine waiting for the answer if and only if the counter was not yet used up; after a used up attempt every
   further one ends with its first acknowledge, until the partner connects or a break times out.
   */
  lemma EnableNeedsCounter(c: Conn)
    requires Inv(c) && c.state.Disconnected? && ValidAddress(c.partner)
    ensures var d := Delivered(UserEnable(c).0);
      && (d.state.Connecting? && d.timer.Response? <==> c.repeats < RETRY_MAX)
      && (c.repeats == RETRY_MAX ==> d.state.Disconnected? && d.repeats == RETRY_MAX)
  {
  }

  // ---------------------------------------------------------------- what is asked, and what is answered

  /**
   A user's enable succeeds exactly while disconnected from a known partner, and makes the enable request due for it.
   */
  lemma EnableAsks(c: Conn)
    requires Inv(c)
    ensures var (d, ok) := UserEnable(c);
      && (ok <==> c.partner >= 0x10 && c.state.Disconnected?)
      && d == (if ok then c.(state := Connecting, kind := EnableRequest, target := c.partner, flag := true) else c)
  {
  }

  /** A user's disable succeeds exactly while connected to a known partner, and makes the disable request due for it. */
  lemma DisableAsks(c: Conn)
    requires Inv(c)
    ensures var (d, ok) := UserDisable(c);
      && (ok <==> c.partner >= 0x10 && c.state.Connected?)
      && d == (if ok then c.(state := Disconnecting, kind := DisableRequest, target := c.partner, flag := true) else c)
  {
  }

  /** A disable request that is acknowledged but never answered is repeated exactly as often as the counter allows. */
  lemma {:induction false} DisableEnds(c: Conn, n: nat)
    requires Inv(c) && c.state.Disconnecting? && c.kind.DisableRequest?
    requires n + c.repeats <= 5
    ensures var d := Unanswered(c, n);
      && d.state.Disconnecting? && d.kind.DisableRequest? && d.repeats as int == c.repeats as int + n
      && d == c.(repeats := d.repeats, timer := d.timer, flag := d.flag, target := d.target)
      && (n > 0 ==> d.flag && d.target == c.partner)
      && (d.repeats == 5 ==>
            var e := Delivered(d);
            e.state.Disconnected? && !e.ready && !e.notified && e.timer.Off?)
    decreases n
  {
    if n == 0 {
    } else {
      DisableEnds(TimerFires(Delivered(c)), n - 1);
    }
  }

  /** The message that answers a message of the partner; waiting: messages still wait for their response. */
  function Reply(state: State, m: Message, waiting: bool): Option<Message> {
    if m.EnableRequest? && !state.Disconnecting? then Some(EnableResponse)
    else if m.DisableRequest? && state.Connected? && !waiting then Some(DisableResponse)
    else if m.PingRequest? && state.Connected? then Some(PingResponse)
    else None
  }

  /** The state it leads to. */
  function Next(state: State, m: Message, waiting: bool): State {
    if m.EnableRequest? && !state.Disconnecting? then Connected
    else if (m.EnableResponse? || m.DisableResponse?) && state.Connecting? then Connected
    else if (m.EnableResponse? || m.DisableResponse?) && state.Disconnecting? then Disconnected
    else if m.DisableRequest? && state.Connected? && !waiting then Disconnected
    else state
  }

  /** The message, if any, is due for the receiver. */
  predicate Says(c: Conn, d: Conn, reply: Option<Message>, to: byte) {
    if reply.Some? then d.flag && d.kind == reply.value && d.target == to
    else d.flag == c.flag && d.kind == c.kind && d.target == c.target
  }

  /**
   What a message of the partner does, in every state: the answer, the next state, and whether a disable is put off.
   */
  lemma PartnerMessage(c: Conn, m: Message, waiting: bool)
    requires Inv(c) && ValidAddress(c.partner) && !Temporary(m)
    ensures var d := Receive(c, Received(c.partner, true, Some(m)), waiting);
      && Says(c, d, Reply(c.state, m, waiting), c.partner)
      && d.state == Next(c.state, m, waiting)
      && d.backup == c.backup && (d.state != c.state ==> d.repeats == 0 && d.timer.Off?)
      && d.partner == (if (d.state.Disconnected? && c.ready) || (c.state.Connected? && m.EnableRequest?)
                       then c.backup else c.partner)
      && (d.breakTimer <==> c.breakTimer && !(c.state.Disconnected? && m.EnableRequest?))
      && (d.disableReq <==> if m.DisableRequest? then waiting || (c.disableReq && !c.state.Connected?)
                            else c.disableReq && !(d.state.Disconnected? && c.ready)
                                 && !(m.EnableRequest? && c.state.Connected?))
  {
  }

  /**
   Messages of a temporary partner: who may take the connection over, what it is answered, and who is partner then.
   */
  lemma TemporaryMessage(c: Conn, sender: byte, m: Message)
    requires Inv(c) && ValidAddress(sender) && Temporary(m) && !(c.partner == 0 && sender == c.partner)
    ensures var d := Receive(c, Received(sender, true, Some(m)), false);
      var free := c.partner == c.backup && sender != c.partner;
      var holds := c.partner != c.backup && sender == c.partner;
      && d.backup == c.backup
      && (m.TempEnableRequest? && (free || holds) && !c.state.Disconnecting? ==>
            Says(c, d, Some(TempEnableResponse), sender) && d.state.Connected? && d.partner == sender && Fresh(d))
      && (m.TempDisableRequest? && holds && c.state.Connected? ==>
            Says(c, d, Some(TempDisableResponse), sender) && d.state.Disconnected? && d.partner == c.backup)
      && (m.TempEnableRequest? && (free || holds) && c.state.Disconnecting? ==> d == c.(partner := sender))
      && (!(m.TempEnableRequest? && (free || holds)) && !(m.TempDisableRequest? && holds) ==> d == c)
  {
  }

  /**
   Nobody else is heard: a sender that is not the partner, a broken message, or the partner during a temporary
   connection; the last of these is not even worth a note.
   */
  lemma OthersIgnored(c: Conn, r: Received, waiting: bool)
    requires !(r.message.Some? && Temporary(r.message.value) && r.sender >= 0x10 && r.sound)
    requires !(c.partner == 0 && c.backup == 0)
    requires r.sender != c.partner || !r.sound || r.message.None?
    ensures Receive(c, r, waiting) == c
    ensures Classify(c, r).Blocked? <==> c.partner != c.backup && r.sender == c.backup
  {
  }

  /** With no partner known the first node that sends an enable request becomes the partner and is answered. */
  lemma FirstPartner(c: Conn, sender: byte, waiting: bool)
    requires Inv(c) && c.partner == c.backup == 0 && ValidAddress(sender) && !c.ready
    ensures var d := Receive(c, Received(sender, true, Some(EnableRequest)), waiting);
      && d.partner == d.backup == sender && d.state.Connected? && Says(c, d, Some(EnableResponse), sender)
  {
  }

  /** Nothing else that is not for a temporary connection names a partner. */
  lemma NoPartnerYet(c: Conn, r: Received, waiting: bool)
    requires c.partner == c.backup == 0 && r.sender != 0
    requires !(r.message.Some? && Temporary(r.message.value) && r.sender >= 0x10 && r.sound)
    requires !(r.sender >= 0x10 && r.sound && r.message == Some(EnableRequest))
    ensures Receive(c, r, waiting) == c
  {
  }

  // ---------------------------------------------------------------- what cannot be delivered

  /**
   The bus layer gives the message up. One for a former partner is forgotten. With attempts left it is due again at
   once, or, if it is an enable request that nobody answered on the bus, after the time a node needs to wake up.
   Otherwise an attempt to connect or to disconnect ends in DISCONNECTED, a failed ping takes the connection down, any
   other message leaves it as it is, and nothing is said about any of it.
   */
  lemma NotDeliverable(c: Conn, noAck: bool)
    requires Inv(c)
    ensures var d := Undeliverable(c, noAck);
      var ping := c.kind.PingRequest? || c.kind.PingResponse?;
      var ends := if ping then c.state.Connected? else c.state.Connecting? || c.state.Disconnecting?;
      if c.target != c.partner then d == c
      else if c.retries < 5 && !noAck then d == c.(retries := c.retries + 1, flag := true)
      else if c.retries < 5 && c.kind.EnableRequest? then d == c.(retries := c.retries + 1, timer := Recovery)
      else
        && Says(c, d, None, 0) && d.retries == 0 && d.state == (if ends then Disconnected else c.state)
        && d.partner == (if ends && c.ready then c.backup else c.partner) && (d.notified <==> c.notified && !ends)
  {
  }

  /** n times: nobody answers the request on the bus, and after the recovery time it is sent again. */
  function Unheard(c: Conn, n: nat): Conn
    decreases n
  {
    if n == 0 then c else Unheard(TimerFires(Undeliverable(c, true)), n - 1)
  }

  /** An enable request that no node acknowledges is handed to the bus layer six times in all. */
  lemma {:induction false} UnheardEnds(c: Conn, n: nat)
    requires Inv(c) && c.state.Connecting? && c.kind.EnableRequest? && c.target == c.partner && n + c.retries <= 5
    ensures var d := Unheard(c, n);
      && d == c.(retries := d.retries, timer := d.timer, flag := d.flag) && d.retries as int == c.retries as int + n
      && (n > 0 ==> d.flag && d.timer.Off?)
      && (d.retries == 5 ==> Undeliverable(d, true).state.Disconnected? && Undeliverable(d, true).flag == d.flag)
    decreases n
  {
    if n == 0 {
    } else {
      UnheardEnds(TimerFires(Undeliverable(c, true)), n - 1);
    }
  }

  // ---------------------------------------------------------------- breaks

  /** A wake-up break asks once more for the connection, and one that does not come back in time is closed. */
  lemma BreakCloses(c: Conn)
    requires Inv(c)
    ensures var d := BreakTimeout(BreakDetected(c));
      && d.partner == (if c.state.Connected? then c.partner else c.backup)
      && d.state == (if c.state.Connected? then Connected else Disconnected) && !d.breakTimer
    ensures c.timer.Recovery? ==> Says(c, WakeUp(c), Some(EnableRequest), c.partner) && WakeUp(c).timer.Off?
    ensures !c.timer.Recovery? ==> WakeUp(c) == c
  {
  }
}
