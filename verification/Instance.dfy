/**
 One DBal instance, the main one: connection, transmit buffers, queue of unanswered
 messages and sequence ids, under every event from the user, the bus and the timers.
 */
module Instance {
  import opened Bytes
  import opened Frames
  import C = Connection
  import O = Outbox
  import R = RepeatQueue
  import Scan
  import SequenceId

  /**
   line: the transmit buffers with what they have accepted and delivered since the last reset,
   timer: MsgTimer runs, hist: what became of every message ever saved,
   told: what a lost message callback that was registered from the start was called with.
   */
  datatype State = State(con: C.Conn, line: O.State, queue: seq<R.Slot>, timer: bool, hist: R.History, told: seq<Frame>)

  /** After DBAL_init, with the number of queue entries of the configuration. */
  function Initial(partner: byte, size: nat): State {
    State(C.Initial(partner), O.CONNECTED, R.Frees(size), false, R.History([], [], [], []), [])
  }

  // ---------------------------------------------------------------- sending

  /** A new bus message gets the next sequence id, a repetition the present one. */
  function NextIds(s: State, repetition: byte): C.Conn {
    if s.line.o.frames == 0 && repetition == 0 then s.con.(seqSend := Low8(s.con.seqSend + 1)) else s.con
  }

  /** DBAL_ioDbusHandler_send */
  function SendFrame(cfg: O.Config, s: State, f: Frame, repetition: byte): (r: (State, bool))
    requires O.Response(f.kind)
    ensures |r.0.queue| == |s.queue|
  {
    if !s.con.ready then (s, false)
    else
      var con := NextIds(s, repetition);
      if O.Fits(cfg, O.Header(cfg, s.line.o, con.seqSend), f) then
        var (q, ok) := R.Admit(s.queue, f, repetition);
        var added := ok && R.IsNew(s.queue, f);
        (State(con, O.Step(cfg, con.partner, s.line, O.Event.Send(f, con.seqSend, ok)), q, s.timer || added,
               if added then R.SaveHistory(s.hist, f) else s.hist, s.told), ok)
      else
        (s.(con := con, line := O.Step(cfg, con.partner, s.line, O.Event.Send(f, con.seqSend, false))), false)
  }

  // ---------------------------------------------------------------- giving messages up

  /** DBAL_clearMsgs2Repeat */
  function ClearQueue(s: State): State {
    s.(queue := R.Frees(|s.queue|), hist := R.LoseHistory(s.hist), told := s.told + R.WaitingFrames(s.queue))
  }

  /** DBAL_clearRetryCounters */
  function ClearCounters(s: State): State {
    s.(con := s.con.(retries := 0), line := s.line.(o := s.line.o.(retries := 0)))
  }

  /** Everything given up: the queue reported and cleared, the connection closed without a word. */
  function GiveUp(s: State): State {
    var t := ClearCounters(ClearQueue(s));
    t.(con := C.Sm(t.con, C.DisableSilent))
  }

  /** DBAL_organizeMsgs2Repeat, with the timer stopped when nothing is left. */
  function Organize(s: State): State {
    s.(queue := R.Compacted(s.queue), timer := s.timer && R.Occupied(s.queue) != [])
  }

  // ---------------------------------------------------------------- the repetition timer

  /**
   One turn of the loop of DBAL_msgTimerAction. Only events ever wait in the queue of the main instance, which sends
   no commands or queries; that is an invariant, so no other message is left unrepeated here.
   */
  function RepeatAt(cfg: O.Config, s: State, i: nat): (r: State)
    requires i < |s.queue|
    ensures |r.queue| == |s.queue|
  {
    if !s.queue[i].occupied then s
    else if s.queue[i].retries < C.RETRY_MAX then
      var b := s.(queue := R.Bump(s.queue, i), timer := true);
      if b.queue[i].frame.kind.Event? then
        var (t, ok) := SendFrame(cfg, b, b.queue[i].frame, b.queue[i].retries);
        if ok then t else GiveUp(t)
      else b
    else GiveUp(s)
  }

  /** The turns from position i on. */
  function Repeat(cfg: O.Config, s: State, i: nat): (r: State)
    ensures |r.queue| == |s.queue|
    decreases |s.queue| - i
  {
    if i >= |s.queue| then s else Repeat(cfg, RepeatAt(cfg, s, i), i + 1)
  }

  /** DBAL_msgTimerAction, for a timer that runs once. */
  function TimerAction(cfg: O.Config, s: State): State {
    if s.timer then Organize(Repeat(cfg, s.(timer := false), 0)) else s
  }

  // ---------------------------------------------------------------- reception

  /** DBAL_isReceivedReqRespMsgCorrupt and DBAL_isReceivedReqRespMsg2BeIgnored */
  predicate Taken(s: State, bytes: seq<byte>) {
    && |bytes| >= FRAME_OFFSET && bytes[0] == s.con.partner && bytes[1] == O.PROTOCOL
    && s.con.ready && C.ValidAddress(s.con.partner) && SequenceId.Accepted(bytes[2], s.con.seqRecv)
  }

  /** The acknowledges sent by DBAL_look4MsgReception: one for each event the message names, acked being those done. */
  function AckEvents(cfg: O.Config, s: State, cuts: seq<Cut>, acked: seq<(word, word)>): (r: State)
    ensures |r.queue| == |s.queue|
    decreases |cuts|
  {
    if cuts == [] then s
    else
      var f := cuts[0].frame;
      if cuts[0].whole && f.kind.Event? && (f.service, f.command) !in acked then
        AckEvents(cfg, SendFrame(cfg, s, Frame(EventAck, f.service, f.command, []), 0).0, cuts[1..],
                  if |acked| < |s.queue| then acked + [(f.service, f.command)] else acked)
      else AckEvents(cfg, s, cuts[1..], acked)
  }

  function WithId(s: State, id: byte): State {
    s.(con := s.con.(seqRecv := id))
  }

  /** DbalReceive_appLayerRequest */
  function ReceiveRequest(cfg: O.Config, s: State, bytes: Payload): State {
    if Taken(s, bytes) then AckEvents(cfg, WithId(s, bytes[2]), Scan.Cuts(bytes), []) else s
  }

  function Match(s: State, cuts: seq<Cut>): State {
    s.(queue := R.MarkAll(s.queue, cuts), hist := R.MarkAllHistory(s.hist, cuts))
  }

  /** A disable request that had to wait for the queue is answered once nothing is left. */
  function AnswerDisable(s: State): State {
    if R.Occupied(s.queue) == [] && s.con.disableReq then
      var t := ClearCounters(ClearQueue(s));
      t.(con := C.Sm(t.con, C.DisableRequested))
    else s
  }

  /** DbalReceive_appLayerResponse */
  function ReceiveResponse(cfg: O.Config, s: State, bytes: Payload): State {
    if Taken(s, bytes) then
      var cuts := Scan.Cuts(bytes);
      AckEvents(cfg, AnswerDisable(Organize(Match(WithId(s, bytes[2]), cuts))), cuts, [])
    else s
  }

  /** DBAL_clearBothIoTxBuffers; what counts as accepted starts over. */
  function ResetLine(s: State): State {
    s.(line := O.State(O.ClearBoth(s.line.o), s.line.air, O.History([], [], None)))
  }

  /** The connection message makes the instance throw the content of its transmit buffers away. */
  predicate Resets(c: C.Conn, r: C.Received) {
    match C.Classify(c, r)
    case InitPartner => true
    case TempMessage => r.message.value.TempEnableRequest? && C.TakesOver(c, r.sender)
    case Normal => r.message.value.EnableRequest? || r.message.value.EnableResponse?
    case _ => false
  }

  /** The connection message makes the instance give up its unanswered messages. */
  predicate Drops(c: C.Conn, r: C.Received) {
    match C.Classify(c, r)
    case TempMessage => r.message.value.TempDisableRequest? && C.TempActive(c) && c.partner == r.sender
    case Normal => r.message.value.DisableResponse?
    case _ => false
  }

  predicate AsksDisable(c: C.Conn, r: C.Received) {
    C.Classify(c, r).Normal? && r.message.value.DisableRequest?
  }

  /** DbalReceive_appLayerConnection with DBAL_handleConMsg and DBAL_handleTempConMsg. */
  function ReceiveConnection(s: State, r: C.Received): State {
    var waiting := R.Occupied(s.queue) != [];
    var con := C.Receive(s.con, r, waiting);
    if Resets(s.con, r) then
      var t := ResetLine(s);
      var u := if C.Classify(s.con, r).TempMessage? then t else ClearCounters(t);
      u.(con := con)
    else if Drops(s.con, r) then ClearCounters(ClearQueue(s)).(con := con)
    else if AsksDisable(s.con, r) then
      var t := Organize(s);
      if waiting then t.(con := con) else ClearCounters(ClearQueue(t)).(con := con)
    else s.(con := con)
  }

  /** The message is requested once more after the bus layer gave up. */
  predicate Resends(retries: byte, noAck: bool) {
    retries < C.RETRY_MAX && !noAck
  }

  /** The response message's part of DBAL_nonDeliverableMessage, after the bus layer gave up. */
  function Undelivered(cfg: O.Config, s: State, noAck: bool): State
    requires s.line.air.Flying?
  {
    var down := s.(line := s.line.(air := O.Ground));
    if s.line.o.target != s.con.partner then down
    else if Resends(s.line.o.retries, noAck) then
      s.(line := O.Step(cfg, s.con.partner, s.line, O.Event.Undeliverable))
    else GiveUp(down)
  }

  // ---------------------------------------------------------------- all events

  datatype Event =
    | Enable | Disable | Send(frame: Frame)
    | Pick(accepted: bool) | Acknowledge | Failure | Undeliverable(noAck: bool)
    | ConPick | ConAcknowledge | ConUndeliverable(conNoAck: bool) | ConTimeout
    | WakeUp | Break | BreakTimeout | Timeout
    | ConMessage(received: C.Received) | Request(bytes: Payload) | Response(bytes: Payload)

  /** What users may send, and what the layers below make possible. */
  predicate Possible(s: State, e: Event) {
    match e
    case Send(f) => f.kind.CmdAck? || f.kind.QueryAck? || f.kind.Event?
    case Pick(_) => O.Enabled(s.line, O.Event.Pick(e.accepted))
    case Acknowledge => s.line.air.Flying?
    case Failure => s.line.air.Flying?
    case Undeliverable(_) => s.line.air.Flying?
    case _ => true
  }

  function Step(cfg: O.Config, s: State, e: Event): State
    requires Possible(s, e)
  {
    match e
    case Enable => s.(con := C.UserEnable(s.con).0)
    case Disable => s.(con := C.UserDisable(s.con).0)
    case Send(f) => if C.DisablePending(s.con) then s else SendFrame(cfg, s, f, 0).0
    case Pick(accepted) => s.(line := O.Step(cfg, s.con.partner, s.line, O.Event.Pick(accepted)))
    case Acknowledge => s.(line := O.Step(cfg, s.con.partner, s.line, O.Event.Acknowledge))
    case Failure => s.(line := O.Step(cfg, s.con.partner, s.line, O.Event.Failure))
    case Undeliverable(noAck) => Undelivered(cfg, s, noAck)
    case ConPick => s.(con := s.con.(flag := false))
    case ConAcknowledge =>
      (if C.DeliveredFails(s.con) then ClearCounters(s) else s).(con := C.Delivered(s.con))
    case ConUndeliverable(noAck) =>
      (if C.UndeliverableFails(s.con, noAck) then ClearCounters(s) else s).(con := C.Undeliverable(s.con, noAck))
    case ConTimeout => s.(con := C.TimerFires(s.con))
    case WakeUp => s.(con := C.WakeUp(s.con))
    case Break => s.(con := C.BreakDetected(s.con))
    case BreakTimeout => s.(con := C.BreakTimeout(s.con))
    case Timeout => TimerAction(cfg, s)
    case ConMessage(r) => ReceiveConnection(s, r)
    case Request(bytes) => ReceiveRequest(cfg, s, bytes)
    case Response(bytes) => ReceiveResponse(cfg, s, bytes)
  }
}
