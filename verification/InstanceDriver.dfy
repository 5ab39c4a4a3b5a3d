/** One DBal instance in place: connection fields, transmit buffers and repeat queue worked on together. */
module InstanceDriver {
  import opened Bytes
  import opened Frames
  import I = Instance
  import C = Connection
  import O = Outbox
  import R = RepeatQueue
  import Scan
  import opened ConnectionDriver
  import opened OutboxDriver
  import opened RepeatQueueDriver

  /** The state with the header of the bus message in place. */
  function Opened(cfg: O.Config, s: I.State, repetition: byte): I.State {
    var con := I.NextIds(s, repetition);
    s.(con := con, line := s.line.(o := O.Header(cfg, s.line.o, con.seqSend)))
  }

  /** The state and result after a frame behind the header. */
  function Put(cfg: O.Config, s: I.State, f: Frame, repetition: byte): (I.State, bool) {
    if !O.Fits(cfg, s.line.o, f) then (s, false)
    else
      var (q, ok) := R.Admit(s.queue, f, repetition);
      var added := ok && R.IsNew(s.queue, f);
      var h := if ok then s.line.h.(accepted := s.line.h.accepted + [f]) else s.line.h;
      (I.State(s.con, O.State(if ok then O.Append(s.line.o, f, s.con.partner) else s.line.o, s.line.air, h), q,
               s.timer || added, if added then R.SaveHistory(s.hist, f) else s.hist, s.told), ok)
  }

  /** Sending is opening the bus message and putting the frame behind its header. */
  lemma SendIsPut(cfg: O.Config, s: I.State, f: Frame, repetition: byte)
    requires O.Response(f.kind)
    ensures I.SendFrame(cfg, s, f, repetition) ==
            if s.con.ready then Put(cfg, Opened(cfg, s, repetition), f, repetition) else (s, false)
  {
    hide R.Admit, R.IsNew, O.Append, O.Fits;
  }

  /** Unanswered messages given up and counters cleared, then the state machine. */
  function Closed(s: I.State, e: C.Event): I.State {
    var t := I.ClearCounters(I.ClearQueue(s));
    t.(con := C.Sm(t.con, e))
  }

  /** What a connection message of the partner does to buffers, queue and counters. */
  function Prepared(s: I.State, m: C.Message): I.State {
    match m
    case EnableRequest => I.ClearCounters(I.ResetLine(s))
    case EnableResponse => I.ClearCounters(I.ResetLine(s))
    case DisableRequest =>
      if R.Occupied(s.queue) != [] then I.Organize(s) else I.ClearCounters(I.ClearQueue(I.Organize(s)))
    case DisableResponse => I.ClearCounters(I.ClearQueue(s))
    case _ => s
  }

  /** The instance after a connection message of its partner. */
  function Handled(s: I.State, m: C.Message): I.State {
    var t := Prepared(s, m);
    t.(con := C.Handle(t.con, m, R.Occupied(s.queue) != []))
  }

  function PreparedTemp(s: I.State, sender: byte, m: C.Message): I.State {
    if m.TempEnableRequest? && C.TakesOver(s.con, sender) then I.ResetLine(s)
    else if m.TempDisableRequest? && C.TempActive(s.con) && s.con.partner == sender then
      I.ClearCounters(I.ClearQueue(s))
    else s
  }

  /** The instance after a message of a temporary partner. */
  function HandledTemp(s: I.State, sender: byte, m: C.Message): I.State {
    var t := PreparedTemp(s, sender, m);
    t.(con := C.HandleTemp(t.con, sender, m))
  }

  /** Reception is classification and handling. */
  lemma ReceptionIsHandling(s: I.State, r: C.Received)
    ensures I.ReceiveConnection(s, r) ==
            match C.Classify(s.con, r)
            case InitPartner => Handled(s.(con := s.con.(partner := r.sender, backup := r.sender)), C.EnableRequest)
            case TempMessage => HandledTemp(s, r.sender, r.message.value)
            case Normal => Handled(s, r.message.value)
            case _ => s
  {
    hide C.Classify, C.Handle, C.HandleTemp, R.Occupied, R.Compacted, R.Frees, R.WaitingFrames;
    var waiting := R.Occupied(s.queue) != [];
    ClassifiedMessage(s.con, r);
    match C.Classify(s.con, r)
    case InitPartner => HandleCleared(s.con.(partner := r.sender, backup := r.sender), C.EnableRequest, waiting);
    case TempMessage => HandleTempCleared(s.con, r.sender, r.message.value);
    case Normal => HandleCleared(s.con, r.message.value, waiting);
    case _ =>
  }

  lemma ClassifiedMessage(c: C.Conn, r: C.Received)
    ensures C.Classify(c, r).InitPartner? ==> r.message == Some(C.EnableRequest)
    ensures C.Classify(c, r).TempMessage? || C.Classify(c, r).Normal? ==> r.message.Some?
  {
  }

  /** Handling clears the retry counter itself, and with nothing to be done it changes nothing. */
  lemma HandleCleared(c: C.Conn, m: C.Message, waiting: bool)
    ensures Prepares(m) && !(m.DisableRequest? && waiting) ==>
              C.Handle(c.(retries := 0), m, waiting) == C.Handle(c, m, waiting)
  {
    hide C.Sm;
  }

  lemma HandleTempCleared(c: C.Conn, sender: byte, m: C.Message)
    ensures m.TempDisableRequest? && C.TempActive(c) && c.partner == sender ==>
              C.HandleTemp(c.(retries := 0), sender, m) == C.HandleTemp(c, sender, m)
  {
    hide C.Sm;
  }

  /** The messages that have effects outside of the connection state. */
  predicate Prepares(m: C.Message) {
    m.EnableRequest? || m.EnableResponse? || m.DisableRequest? || m.DisableResponse?
  }

  class DbalInstance {
    const con: ConnectionHandling
    const buffers: TransmitBuffers
    const queue: MessagesToRepeat
    var msgTimer: bool
    /** IoMsgLostCbCounter */
    var lostCallbacks: nat
    /** What happens on the bus and to the messages, as far as the claims speak of it. */
    ghost var air: O.Air
    ghost var lineHistory: O.History
    ghost var history: R.History
    ghost var told: seq<Frame>

    ghost predicate Valid()
      reads this, con, buffers, buffers.transmitBuffer, buffers.repeatBuffer, queue.slots, queue.pointers
    {
      buffers.Valid() && queue.Valid()
    }

    ghost function Snapshot(): I.State
      requires Valid()
      reads this, con, buffers, buffers.transmitBuffer, buffers.repeatBuffer, queue.slots, queue.pointers
    {
      I.State(con.Snapshot(), O.State(buffers.Snapshot(), air, lineHistory), queue.View(), msgTimer, history, told)
    }

    constructor (cfg: O.Config, partner: byte, size: nat)
      requires O.ValidConfig(cfg) && 0 < size < 128
      ensures Valid() && buffers.cfg == cfg && Snapshot() == I.Initial(partner, size)
      ensures fresh(con) && fresh(buffers) && fresh(buffers.transmitBuffer) && fresh(buffers.repeatBuffer)
      ensures fresh(queue.slots) && fresh(queue.pointers)
    {
      con := new ConnectionHandling(partner);
      buffers := new TransmitBuffers(cfg);
      queue := new MessagesToRepeat(size);
      msgTimer, lostCallbacks, air, lineHistory := false, 0, O.Ground, O.History([], [], None);
      history, told := R.History([], [], [], []), [];
    }

    /** The queue's part of DBAL_appendDBalFrame2ReqRespFrame. */
    method Admit(f: Frame, repetition: byte) returns (ok: bool)
      requires Valid()
      modifies this`msgTimer, this`history, queue.slots
      ensures Valid()
      ensures (queue.View(), ok) == R.Admit(old(queue.View()), f, repetition)
      ensures msgTimer == (old(msgTimer) || (ok && R.IsNew(old(queue.View()), f)))
      ensures history == if ok && R.IsNew(old(queue.View()), f) then R.SaveHistory(old(history), f) else old(history)
    {
      hide R.Find, R.Save;
      ok := true;
      if ToRepeat(f.kind) {
        var saved, free := queue.IsSaved(f);
        if saved {
          ok := repetition != 0;
        } else {
          ok := queue.Save(f, free);
          if ok {
            msgTimer := true;
            history := R.SaveHistory(history, f);
          }
        }
      }
    }

    /** DBAL_prepareHeaderAndSeqId, where a new bus message starts. */
    method OpenMessage(repetition: byte)
      requires Valid()
      modifies con`seqId2Send, buffers`transmitLen, buffers.transmitBuffer
      ensures Valid() && buffers.transmitLen > 0
      ensures Snapshot() == Opened(buffers.cfg, old(Snapshot()), repetition)
    {
      hide O.Header;
      if buffers.frameCount == 0 && repetition == 0 {
        con.seqId2Send := Low8(con.seqId2Send + 1);
      }
      buffers.PrepareHeader(con.seqId2Send);
    }

    /** DBAL_appendDBalFrame2ReqRespFrame, and the trigger of the transmission. */
    method AppendFrame(f: Frame, repetition: byte) returns (ok: bool)
      requires Valid() && buffers.transmitLen > 0
      modifies this`msgTimer, this`history, this`lineHistory, buffers, buffers.transmitBuffer, queue.slots
      ensures Valid()
      ensures (Snapshot(), ok) == Put(buffers.cfg, old(Snapshot()), f, repetition)
    {
      hide R.Admit, R.IsNew, O.Append, Encode, R.ViewOf, R.Permutation;
      ok := false;
      if buffers.transmitLen + DATA_OFFSET + |f.payload| < buffers.cfg.size {
        ok := Admit(f, repetition);
        if ok {
          buffers.Append(f, con.comPartner);
          lineHistory := lineHistory.(accepted := lineHistory.accepted + [f]);
        }
      }
    }

    /** DBAL_ioDbusHandler_send */
    method Send(f: Frame, repetition: byte) returns (ok: bool)
      requires Valid() && O.Response(f.kind)
      modifies this`msgTimer, this`history, this`lineHistory, con`seqId2Send, buffers,
         buffers.transmitBuffer, queue.slots
      ensures Valid()
      ensures (Snapshot(), ok) == I.SendFrame(buffers.cfg, old(Snapshot()), f, repetition)
    {
      hide I.SendFrame, Put, Opened;
      SendIsPut(buffers.cfg, Snapshot(), f, repetition);
      if !con.ready {
        return false;
      }
      OpenMessage(repetition);
      ok := AppendFrame(f, repetition);
    }

    // -------------------------------------------------------------- giving up

    /** DBAL_clearMsgs2Repeat; reports are the calls of the lost message callbacks. */
    method ClearMsgs2Repeat() returns (reports: seq<(nat, Frame)>)
      requires Valid()
      modifies this`history, this`told, queue.slots
      ensures Valid() && Snapshot() == I.ClearQueue(old(Snapshot()))
      ensures reports == R.Reports(old(queue.View()), lostCallbacks)
    {
      hide R.Reports, R.Frees, R.WaitingFrames, R.ViewOf, R.Permutation;
      told := told + R.WaitingFrames(queue.View());
      history := R.LoseHistory(history);
      reports := queue.Clear(lostCallbacks);
    }

    /** DBAL_clearRetryCounters */
    method ClearRetryCounters()
      requires Valid()
      modifies con`sendRetryCounter, buffers`retryCounter
      ensures Valid() && Snapshot() == I.ClearCounters(old(Snapshot()))
    {
      con.sendRetryCounter := 0;
      buffers.retryCounter := 0;
    }

    /** DBAL_clearMsgs2Repeat and DBAL_clearRetryCounters */
    method GiveMessagesUp()
      requires Valid()
      modifies this`history, this`told, queue.slots, con, buffers`retryCounter
      ensures Valid() && Snapshot() == I.ClearCounters(I.ClearQueue(old(Snapshot())))
    {
      hide I.ClearQueue, R.ViewOf, R.Permutation;
      var _ := ClearMsgs2Repeat();
      ClearRetryCounters();
    }

    method Close(e: C.Event)
      requires Valid()
      modifies this`history, this`told, queue.slots, con, buffers`retryCounter
      ensures Valid() && Snapshot() == Closed(old(Snapshot()), e)
    {
      hide C.Sm, I.ClearQueue, I.ClearCounters, R.ViewOf, R.Permutation;
      GiveMessagesUp();
      con.ConnectionSm(e);
    }

    /** DBAL_handleReqRespMsgTxFail */
    method HandleReqRespMsgTxFail()
      requires Valid()
      modifies this`history, this`told, queue.slots, con, buffers`retryCounter
      ensures Valid() && Snapshot() == I.GiveUp(old(Snapshot()))
    {
      Close(C.DisableSilent);
    }

    /** DBAL_organizeMsgs2Repeat, with the timer; exist tells whether a message is left. */
    method Organize() returns (exist: bool)
      requires Valid()
      modifies this`msgTimer, queue.slots, queue.pointers
      ensures Valid() && Snapshot() == I.Organize(old(Snapshot()))
      ensures exist <==> R.Occupied(old(queue.View())) != []
    {
      hide R.Compacted, R.Occupied, R.ViewOf, R.Permutation;
      exist := queue.Organize();
      if !exist {
        msgTimer := false;
      }
    }

    // -------------------------------------------------------------- the repetition timer

    /** One turn of the loop of DBAL_msgTimerAction. */
    method RepeatMessage(i: nat)
      requires Valid() && i < queue.slots.Length
      modifies this, con, buffers, buffers.transmitBuffer, queue.slots
      ensures Valid() && Snapshot() == I.RepeatAt(buffers.cfg, old(Snapshot()), i)
    {
      hide I.SendFrame, I.GiveUp, R.ViewOf, R.Permutation;
      ghost var q := queue.View();
      var slot := queue.slots[queue.pointers[i]];
      assert slot == q[i];
      if slot.occupied {
        if slot.retries < C.RETRY_MAX {
          queue.CountRetry(i);
          msgTimer := true;
          if slot.frame.kind.Event? {
            var ok := Send(slot.frame, slot.retries + 1);
            if !ok {
              HandleReqRespMsgTxFail();
            }
          }
        } else {
          HandleReqRespMsgTxFail();
        }
      }
    }

    /** DBAL_msgTimerAction, for a timer that runs once. */
    method MsgTimerAction()
      requires Valid()
      modifies this, con, buffers, buffers.transmitBuffer, queue.slots, queue.pointers
      ensures Valid() && Snapshot() == I.TimerAction(buffers.cfg, old(Snapshot()))
    {
      hide I.RepeatAt, I.Organize, R.ViewOf, R.Permutation;
      if msgTimer {
        msgTimer := false;
        ghost var start := Snapshot();
        for i := 0 to queue.slots.Length
          invariant Valid()
          invariant I.Repeat(buffers.cfg, start, 0) == I.Repeat(buffers.cfg, Snapshot(), i)
        {
          RepeatMessage(i);
        }
        var _ := Organize();
      }
    }

    // -------------------------------------------------------------- reception

    /** DBAL_look4MsgReception, with the 8-bit scan offset: every event is acknowledged once. */
    method LookForMessages(bytes: seq<byte>)
      requires Valid() && Scan.Ends(bytes)
      modifies this`msgTimer, this`history, this`lineHistory, con`seqId2Send, buffers,
         buffers.transmitBuffer, queue.slots
      ensures Valid()
      ensures Snapshot() == I.AckEvents(buffers.cfg, old(Snapshot()), Scan.Cuts(bytes), [])
    {
      hide CutAt, I.SendFrame, R.ViewOf, R.Permutation;
      var events2Ack: seq<(word, word)> := [];
      var offset: byte := FRAME_OFFSET;
      ghost var turns := Scan.TURNS;
      while offset + DATA_OFFSET <= |bytes|
        invariant Valid() && Scan.Leaves(bytes, offset, turns)
        invariant I.AckEvents(buffers.cfg, old(Snapshot()), Scan.Cuts(bytes), [])
               == I.AckEvents(buffers.cfg, Snapshot(), Scan.Turns(bytes, offset, turns), events2Ack)
        decreases turns
      {
        turns := turns - 1;
        var c := CutAt(bytes, offset);
        if c.whole && c.frame.kind.Event? {
          if (c.frame.service, c.frame.command) !in events2Ack {
            if |events2Ack| < queue.slots.Length {
              events2Ack := events2Ack + [(c.frame.service, c.frame.command)];
            }
            var _ := Send(Frame(EventAck, c.frame.service, c.frame.command, []), 0);
          }
        }
        offset := Low8(offset + DATA_OFFSET + bytes[offset + 1]);
      }
    }

    /** DBAL_isReceivedReqRespMsgCorrupt and DBAL_isReceivedReqRespMsg2BeIgnored: whether the message is processed. */
    method IsTaken(bytes: seq<byte>) returns (taken: bool)
      requires Valid()
      ensures taken <==> I.Taken(Snapshot(), bytes)
    {
      if |bytes| < FRAME_OFFSET {
        return false;
      }
      taken := bytes[0] == con.comPartner && bytes[1] == O.PROTOCOL && con.ready && C.ValidAddress(con.comPartner)
        && 0 != Low8(bytes[2] - con.lastSeqIdReceived) && Low8(bytes[2] - con.lastSeqIdReceived) <= 127;
    }

    /** DbalReceive_appLayerRequest */
    method ReceiveRequest(bytes: seq<byte>)
      requires Valid() && Scan.Ends(bytes)
      modifies this, con, buffers, buffers.transmitBuffer, queue.slots
      ensures Valid() && Snapshot() == I.ReceiveRequest(buffers.cfg, old(Snapshot()), bytes)
    {
      hide I.AckEvents, I.Taken, Scan.Cuts, Scan.Leaves, R.ViewOf, R.Permutation;
      var taken := IsTaken(bytes);
      if taken {
        TakenHasHeader(Snapshot(), bytes);
        con.lastSeqIdReceived := bytes[2];
        LookForMessages(bytes);
      }
    }

    static lemma TakenHasHeader(s: I.State, bytes: seq<byte>)
      requires I.Taken(s, bytes)
      ensures |bytes| >= FRAME_OFFSET
    {
    }

    /** A deferred disable request is answered when no message is left. */
    method AnswerDisable(exist: bool)
      requires Valid() && (exist <==> R.Occupied(queue.View()) != [])
      modifies this`history, this`told, queue.slots, con, buffers`retryCounter
      ensures Valid() && Snapshot() == I.AnswerDisable(old(Snapshot()))
    {
      hide C.Sm, I.ClearQueue, I.ClearCounters, R.Occupied, R.ViewOf, R.Permutation;
      if !exist && con.disableReqReceived {
        Close(C.DisableRequested);
      }
    }

    /** DBAL_look4AckMsgReception and DBAL_organizeMsgs2Repeat. */
    method MatchResponses(bytes: seq<byte>) returns (exist: bool)
      requires Valid() && Scan.Ends(bytes)
      modifies this`msgTimer, this`history, queue.slots, queue.pointers
      ensures Valid() && Snapshot() == I.Organize(I.Match(old(Snapshot()), Scan.Cuts(bytes)))
      ensures exist <==> R.Occupied(queue.View()) != []
    {
      hide R.MarkAll, R.MarkAllHistory, Scan.Cuts, Scan.Leaves, R.Unexpected,
        R.ViewOf, R.Permutation, R.Occupied, R.Compacted;
      history := R.MarkAllHistory(history, Scan.Cuts(bytes));
      var _ := queue.LookForAcks(bytes);
      R.CompactedKeeps(queue.View());
      exist := Organize();
    }

    /** DbalReceive_appLayerResponse */
    method ReceiveResponse(bytes: seq<byte>)
      requires Valid() && Scan.Ends(bytes)
      modifies this, con, buffers, buffers.transmitBuffer, queue.slots, queue.pointers
      ensures Valid() && Snapshot() == I.ReceiveResponse(buffers.cfg, old(Snapshot()), bytes)
    {
      hide I.AckEvents, I.Taken, Scan.Cuts, Scan.Leaves, I.Match, I.Organize, I.AnswerDisable,
        R.ViewOf, R.Permutation, R.Occupied;
      var taken := IsTaken(bytes);
      if taken {
        TakenHasHeader(Snapshot(), bytes);
        con.lastSeqIdReceived := bytes[2];
        var exist := MatchResponses(bytes);
        AnswerDisable(exist);
        LookForMessages(bytes);
      }
    }

    // -------------------------------------------------------------- connection messages

    /** DBAL_clearBothIoTxBuffers; the history of the line starts over. */
    method ResetBuffers()
      requires Valid()
      modifies this`lineHistory, buffers, buffers.transmitBuffer, buffers.repeatBuffer
      ensures Valid() && Snapshot() == I.ResetLine(old(Snapshot()))
    {
      hide R.ViewOf, R.Permutation;
      buffers.ClearBoth();
      lineHistory := O.History([], [], None);
    }

    /** DBAL_handleConMsg, for a message of the partner. */
    method HandleConMsg(m: C.Message)
      requires Valid()
      modifies this, con, buffers, buffers.transmitBuffer, buffers.repeatBuffer, queue.slots, queue.pointers
      ensures Valid() && Snapshot() == Handled(old(Snapshot()), m)
    {
      hide I.ResetLine, I.ClearQueue, I.Organize, R.ViewOf, R.Permutation, R.Occupied, C.Sm;
      var waiting := false;
      match m {
        case EnableRequest =>
          ResetBuffers();
          ClearRetryCounters();
        case EnableResponse =>
          ResetBuffers();
          ClearRetryCounters();
        case DisableRequest =>
          waiting := Organize();
          if !waiting {
            GiveMessagesUp();
          }
        case DisableResponse => GiveMessagesUp();
        case _ =>
      }
      con.HandleConMsg(m, waiting);
    }

    /** DBAL_handleTempConMsg */
    method HandleTempConMsg(sender: byte, m: C.Message)
      requires Valid()
      modifies this, con, buffers, buffers.transmitBuffer, buffers.repeatBuffer, queue.slots
      ensures Valid() && Snapshot() == HandledTemp(old(Snapshot()), sender, m)
    {
      hide C.HandleTemp, I.ResetLine, I.ClearQueue, R.ViewOf, R.Permutation;
      if m.TempEnableRequest? && con.comPartner != sender && con.comPartner == con.comBackup {
        ResetBuffers();
      } else if m.TempDisableRequest? && con.comPartner != con.comBackup && con.comPartner == sender {
        GiveMessagesUp();
      }
      con.HandleTempConMsg(sender, m);
    }

    /** DbalReceive_appLayerConnection */
    method ReceiveConnection(r: C.Received)
      requires Valid()
      modifies this, con, buffers, buffers.transmitBuffer, buffers.repeatBuffer, queue.slots, queue.pointers
      ensures Valid() && Snapshot() == I.ReceiveConnection(old(Snapshot()), r)
    {
      hide Handled, HandledTemp, I.ReceiveConnection, C.Classify, R.ViewOf, R.Permutation;
      ReceptionIsHandling(Snapshot(), r);
      ClassifiedMessage(Snapshot().con, r);
      var kind := con.ClassOf(r);
      match kind
      case InitPartner =>
        con.TakePartner(r.sender);
        HandleConMsg(C.EnableRequest);
      case TempMessage => HandleTempConMsg(r.sender, r.message.value);
      case Normal => HandleConMsg(r.message.value);
      case _ =>
    }

    // -------------------------------------------------------------- the bus layer's calls for the response message

    /** DbalTransmit_appLayerResponse, as the bus layer takes the message, or only tries to. */
    method Transmit(accepted: bool) returns (bytes: Option<seq<byte>>)
      requires Valid()
      requires O.Enabled(Snapshot().line, O.Event.Pick(accepted))
      modifies this`air, this`lineHistory, buffers, buffers.transmitBuffer, buffers.repeatBuffer
      ensures Valid() && Snapshot() == I.Step(buffers.cfg, old(Snapshot()), I.Pick(accepted))
      ensures bytes == Snapshot().line.h.wire
    {
      hide R.ViewOf, R.Permutation;
      bytes := buffers.WriteInDbus2Buffer();
      lineHistory := lineHistory.(wire := bytes);
      if accepted {
        buffers.txFlag := false;
        air := O.Flying;
      }
    }

    /** DbalTransmitPost_appLayerResponse: the message was acknowledged. */
    method TransmitPost()
      requires Valid() && air.Flying?
      modifies this`air, this`lineHistory, buffers, buffers.repeatBuffer
      ensures Valid() && Snapshot() == I.Step(buffers.cfg, old(Snapshot()), I.Acknowledge)
    {
      hide R.ViewOf, R.Permutation;
      lineHistory := lineHistory.(acknowledged := lineHistory.acknowledged
                       + [if lineHistory.wire.Some? then lineHistory.wire.value else []], wire := None);
      air := O.Ground;
      buffers.PostAction(con.comPartner);
    }

    /** The response message's part of DBAL_nonDeliverableMessage. */
    method NonDeliverable(noAck: bool)
      requires Valid() && air.Flying?
      modifies this, con, buffers, queue.slots
      ensures Valid() && Snapshot() == I.Undelivered(buffers.cfg, old(Snapshot()), noAck)
    {
      hide I.GiveUp, R.ViewOf, R.Permutation;
      air := O.Ground;
      if buffers.targetAddress == con.comPartner {
        if I.Resends(buffers.retryCounter, noAck) {
          buffers.RequestAgain();
        } else {
          HandleReqRespMsgTxFail();
        }
      }
    }
  }
}
