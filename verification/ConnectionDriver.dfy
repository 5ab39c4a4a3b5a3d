/** The connection state machine over the fields of one DBal instance, updated in place. */
module ConnectionDriver {
  import opened Bytes
  import opened Connection

  class ConnectionHandling {
    var connectionState: State
    var ready: bool
    var comPartner: byte
    var comBackup: byte
    var disableReqReceived: bool
    var notified: bool
    var messageType: Message
    var txFlag: bool
    var targetAddress: byte
    var conRepeatCnt: byte
    var sendRetryCounter: byte
    var conMsgTimer: Timer
    var breakProcessTimer: bool
    var seqId2Send: byte
    var lastSeqIdReceived: byte

    ghost function Snapshot(): Conn
      reads this
    {
      Conn(connectionState, ready, comPartner, comBackup, disableReqReceived, notified, messageType, txFlag,
           targetAddress, conRepeatCnt, sendRetryCounter, conMsgTimer, breakProcessTimer, seqId2Send, lastSeqIdReceived)
    }

    constructor (partner: byte)
      ensures Snapshot() == Initial(partner)
    {
      connectionState, ready, comPartner, comBackup := Disconnected, false, partner, partner;
      disableReqReceived, notified, messageType, txFlag, targetAddress := false, false, EnableRequest, false, 5;
      conRepeatCnt, sendRetryCounter, conMsgTimer, breakProcessTimer := 0, 0, Off, false;
      seqId2Send, lastSeqIdReceived := 255, 255;
    }

    /** DBAL_sendConnectionMessage */
    method SendConnectionMessage(m: Message)
      modifies this`messageType, this`targetAddress, this`txFlag
      ensures Snapshot() == Tell(old(Snapshot()), m)
    {
      messageType := m;
      targetAddress := comPartner;
      txFlag := true;
    }

    method ActionToConnected()
      modifies this
      ensures Snapshot() == ToConnected(old(Snapshot()))
    {
      connectionState := Connected;
      ready := true;
      seqId2Send := 255;
      lastSeqIdReceived := 255;
      conMsgTimer := Off;
      conRepeatCnt := 0;
      notified := true;
    }

    method ActionToDisconnected()
      modifies this
      ensures Snapshot() == ToDisconnected(old(Snapshot()))
    {
      connectionState := Disconnected;
      ready := false;
      disableReqReceived := false;
      conMsgTimer := Off;
      notified := false;
      conRepeatCnt := 0;
      if comPartner != comBackup {
        comPartner := comBackup;
      }
    }

    method FromDisconnected(e: Event)
      requires connectionState.Disconnected?
      modifies this
      ensures Snapshot() == Sm(old(Snapshot()), e)
    {
      match e
      case Enable =>
        connectionState := Connecting;
        SendConnectionMessage(EnableRequest);
      case EnableRequested =>
        SendConnectionMessage(EnableResponse);
        ActionToConnected();
        breakProcessTimer := false;
      case TempEnableRequested =>
        SendConnectionMessage(TempEnableResponse);
        ActionToConnected();
      case _ =>
    }

    method FromConnecting(e: Event)
      requires connectionState.Connecting?
      modifies this
      ensures Snapshot() == Sm(old(Snapshot()), e)
    {
      match e
      case EnableRequested =>
        SendConnectionMessage(EnableResponse);
        ActionToConnected();
      case Accept =>
        ActionToConnected();
      case Reject =>
        connectionState := Disconnected;
      case TempEnableRequested =>
        SendConnectionMessage(TempEnableResponse);
        ActionToConnected();
      case _ =>
    }

    method FromConnected(e: Event)
      requires connectionState.Connected?
      modifies this
      ensures Snapshot() == Sm(old(Snapshot()), e)
    {
      match e
      case EnableRequested =>
        SendConnectionMessage(EnableResponse);
        ActionToDisconnected();
        ActionToConnected();
      case Disable =>
        connectionState := Disconnecting;
        SendConnectionMessage(DisableRequest);
      case DisableSilent =>
        ActionToDisconnected();
      case DisableRequested =>
        SendConnectionMessage(DisableResponse);
        ActionToDisconnected();
      case TempEnableRequested =>
        SendConnectionMessage(TempEnableResponse);
        ActionToConnected();
      case TempDisableRequested =>
        SendConnectionMessage(TempDisableResponse);
        ActionToDisconnected();
      case _ =>
    }

    /** DBAL_connectionSm */
    method ConnectionSm(e: Event)
      modifies this
      ensures Snapshot() == Sm(old(Snapshot()), e)
    {
      match connectionState
      case Disconnected => FromDisconnected(e);
      case Connecting => FromConnecting(e);
      case Connected => FromConnected(e);
      case Disconnecting =>
        if e.Accept? || e.Reject? {
          ActionToDisconnected();
        }
    }

    /** DBAL_enable */
    method DoEnable() returns (ok: bool)
      modifies this
      ensures (Snapshot(), ok) == UserEnable(old(Snapshot()))
    {
      hide Sm;
      ok := false;
      if ValidAddress(comPartner) {
        if !ready && connectionState.Disconnected? {
          ConnectionSm(Enable);
          ok := true;
        }
      }
    }

    /** DBAL_disable */
    method DoDisable() returns (ok: bool)
      modifies this
      ensures (Snapshot(), ok) == UserDisable(old(Snapshot()))
    {
      hide Sm;
      ok := false;
      if ValidAddress(comPartner) {
        if ready && connectionState.Connected? {
          ConnectionSm(Disable);
          ok := true;
        }
      }
    }

    /** DBAL_handleConMsgTxFail */
    method HandleConMsgTxFail()
      modifies this
      ensures Snapshot() == TxFail(old(Snapshot()))
    {
      hide Sm;
      var event := if messageType.PingRequest? || messageType.PingResponse? then DisableSilent else Reject;
      sendRetryCounter := 0;
      ConnectionSm(event);
    }

    /** DBAL_conMsgTxPostRepeatTrigger */
    method TxPostRepeatTrigger()
      modifies this
      ensures Snapshot() == Delivered(old(Snapshot()))
    {
      hide TxFail;
      if messageType.EnableRequest? || messageType.DisableRequest? {
        if conRepeatCnt < RETRY_MAX {
          conMsgTimer := Response;
          conRepeatCnt := conRepeatCnt + 1;
        } else {
          HandleConMsgTxFail();
        }
      }
    }

    /** The connection message's part of DBAL_nonDeliverableMessage. */
    method NonDeliverable(noAck: bool) returns (wakeUpBreak: bool)
      modifies this
      ensures Snapshot() == Undeliverable(old(Snapshot()), noAck)
      ensures wakeUpBreak ==> Snapshot().timer.Recovery?
    {
      hide Sm;
      wakeUpBreak := false;
      if targetAddress == comPartner {
        if sendRetryCounter < RETRY_MAX {
          sendRetryCounter := sendRetryCounter + 1;
          if noAck {
            if messageType.EnableRequest? {
              wakeUpBreak := true;
              conMsgTimer := Recovery;
            } else {
              HandleConMsgTxFail();
            }
          } else {
            txFlag := true;
          }
        } else {
          HandleConMsgTxFail();
        }
      }
    }

    /** DBAL_conMsgTimerCallback, for a timer that runs once. */
    method ConMsgTimerCallback()
      modifies this
      ensures Snapshot() == TimerFires(old(Snapshot()))
    {
      if !conMsgTimer.Off? {
        conMsgTimer := Off;
        SendConnectionMessage(messageType);
      }
    }

    /** DBAL_isNodeToBeWokenUp */
    method IsNodeToBeWokenUp()
      modifies this
      ensures Snapshot() == WakeUp(old(Snapshot()))
    {
      if conMsgTimer.Recovery? {
        conMsgTimer := Off;
        SendConnectionMessage(EnableRequest);
      }
    }

    /** DBAL_breakProcessTimerCallback, for a timer that runs once. */
    method BreakProcessTimerCallback()
      modifies this
      ensures Snapshot() == BreakTimeout(old(Snapshot()))
    {
      if breakProcessTimer {
        breakProcessTimer := false;
        if !ready || connectionState.Disconnecting? {
          ActionToDisconnected();
        }
      }
    }

    /** The connection's part of DBAL_handleConMsg. */
    method HandleConMsg(m: Message, waiting: bool)
      modifies this
      ensures Snapshot() == Handle(old(Snapshot()), m, waiting)
    {
      hide Sm;
      match m
      case EnableRequest =>
        sendRetryCounter := 0;
        ConnectionSm(EnableRequested);
      case EnableResponse =>
        sendRetryCounter := 0;
        ConnectionSm(Accept);
      case DisableRequest =>
        if waiting {
          disableReqReceived := true;
        } else {
          sendRetryCounter := 0;
          ConnectionSm(DisableRequested);
        }
      case DisableResponse =>
        sendRetryCounter := 0;
        ConnectionSm(Accept);
      case PingRequest =>
        if ready && connectionState.Connected? {
          SendConnectionMessage(PingResponse);
        }
      case _ =>
    }

    /** The connection's part of DBAL_handleTempConMsg. */
    method HandleTempConMsg(sender: byte, m: Message)
      modifies this
      ensures Snapshot() == HandleTemp(old(Snapshot()), sender, m)
    {
      hide Sm;
      match m
      case TempEnableRequest =>
        if comPartner != sender && comPartner == comBackup {
          comPartner := sender;
          ConnectionSm(TempEnableRequested);
        } else if comPartner != comBackup && comPartner == sender {
          ConnectionSm(TempEnableRequested);
        }
      case TempDisableRequest =>
        if comPartner != comBackup && comPartner == sender {
          sendRetryCounter := 0;
          ConnectionSm(TempDisableRequested);
        }
      case _ =>
    }

    /** The decisions of DbalReceive_appLayerConnection. */
    method ClassOf(r: Received) returns (kind: Class)
      ensures kind == Classify(Snapshot(), r)
    {
      if r.sender != comPartner && comPartner == PRELIMINARY && comPartner == comBackup && ValidAddress(r.sender)
         && r.sound && r.message == Some(EnableRequest) {
        return InitPartner;
      } else if ValidAddress(r.sender) && r.sound && r.message.Some? && Temporary(r.message.value) {
        return TempMessage;
      } else if comPartner != comBackup && comBackup == r.sender {
        return Blocked;
      } else if r.sender != comPartner || !r.sound || r.message.None? {
        return Corrupt;
      } else {
        return Normal;
      }
    }

    /** A partner that was only preliminary is replaced by the first one to ask. */
    method TakePartner(sender: byte)
      modifies this
      ensures Snapshot() == old(Snapshot()).(partner := sender, backup := sender)
    {
      comPartner := sender;
      comBackup := sender;
    }

    /** DbalReceive_appLayerConnection */
    method ReceiveConnection(r: Received, waiting: bool)
      modifies this
      ensures Snapshot() == Receive(old(Snapshot()), r, waiting)
    {
      hide Handle, HandleTemp;
      var kind := ClassOf(r);
      match kind
      case InitPartner =>
        TakePartner(r.sender);
        HandleConMsg(EnableRequest, waiting);
      case TempMessage => HandleTempConMsg(r.sender, r.message.value);
      case Normal => HandleConMsg(r.message.value, waiting);
      case _ =>
    }
  }
}
