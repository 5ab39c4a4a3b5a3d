/** The interrupt handlers and task functions of the data link layer, over the driver's own variables. */
module LinkDriver {
  import opened Bytes
  import Crc
  import Ring
  import L = Link

  class DataLinkLayer {
    const cfg: L.Config

    var mode: L.Mode
    var status: L.Status
    var counter: byte

    var input: array<byte>
    var charactersInBuffer: byte
    var nextToRead: byte
    var messageToWrite: byte
    var charToWrite: byte
    var dataLength: byte

    var crc: bv16
    var receivedCrcHigh: byte
    var receivingNode: byte

    var messageToSend: seq<byte>
    var nextToWrite: nat
    var nextToCheck: nat
    var charactersToCheck: byte
    var txEvent: bool

    ghost function Buffer(): Ring.Ring
      reads this`input, this`charactersInBuffer, this`nextToRead, this`messageToWrite, this`charToWrite,
            this`dataLength, input
    {
      Ring.Ring(input[..], charactersInBuffer, nextToRead, messageToWrite, charToWrite, dataLength)
    }

    ghost function Snapshot(): L.Link
      reads this, input
    {
      L.Link(mode, status, counter, Buffer(), crc, receivedCrcHigh, receivingNode,
             messageToSend, nextToWrite, nextToCheck, charactersToCheck, txEvent)
    }

    ghost predicate Valid()
      reads this, input
    {
      input.Length == cfg.size && cfg.node < 16 && L.Safe(cfg, Snapshot())
    }

    constructor (cfg: L.Config)
      requires Ring.Length(cfg.size) && cfg.node < 16
      ensures Valid() && this.cfg == cfg && fresh(input)
      ensures mode == L.Init && charactersInBuffer == 0
    {
      this.cfg := cfg;
      mode, status, counter := L.Init, L.CLEAR, 0;
      input := new byte[cfg.size](_ => 0);
      charactersInBuffer, nextToRead, messageToWrite, charToWrite, dataLength := 0, 0, 0, 0, 0;
      crc, receivedCrcHigh, receivingNode := Crc.DLL_INIT, 0, 0;
      messageToSend, nextToWrite, nextToCheck, charactersToCheck, txEvent := [], 0, 0, 0, false;
    }

    method EnterIdleState()
      modifies this`mode, this`status
      ensures Snapshot() == L.EnterIdle(old(Snapshot()))
    {
      mode := L.Idle;
      status := L.CLEAR;
    }

    /** DLL_vAddByteToCrcCalculation. */
    method AddByteToCrcCalculation(b: byte)
      modifies this`crc
      ensures crc == Crc.AddByte(old(crc), b)
    {
      crc := Crc.AddByte(crc, b);
    }

    method InterbyteTimeout() returns (confirm: Option<byte>)
      modifies this`mode, this`status
      ensures L.Heard(Snapshot(), confirm) == L.TimedOut(old(Snapshot()))
    {
      confirm := None;
      if status.transmission {
        confirm := Some(NodeBits(receivingNode) + L.ACK_ABORTED);
        EnterIdleState();
      } else if !mode.SendAck? {
        EnterIdleState();
      }
    }

    method StartOfFrame(b: byte)
      requires Valid() && L.AtStart(Snapshot())
      modifies this`mode, this`status, this`counter, this`crc
      ensures Snapshot() == L.Start(cfg, old(Snapshot()), b)
      ensures Valid()
    {
      hide Crc.AddByte, L.SafeReceiving, L.SafeSending, L.SafeAck, L.SafeRing;
      if b >= 2 {
        counter := Low8(b + Ring.OVERHEAD);
        status := L.CLEAR.(overflow := counter > cfg.size);
        crc := Crc.DLL_INIT;
        AddByteToCrcCalculation(b);
        mode := L.GetRecipient;
      } else {
        mode := L.Receiving;
        status := L.CLEAR.(dbus3 := true);
      }
    }

    method WrapBuffer()
      requires input.Length == cfg.size && L.SafeRing(cfg, Buffer()) && (counter <= 1 || 4 <= counter <= cfg.size)
      modifies this`messageToWrite, this`charactersInBuffer, input
      ensures Buffer() == Ring.Wrap(cfg.size, old(Buffer()), counter)
    {
      if counter > cfg.size - messageToWrite {
        if cfg.size - messageToWrite > 0 {
          input[messageToWrite] := Ring.MARKER;
          charactersInBuffer := Low8(charactersInBuffer + (cfg.size - messageToWrite));
        }
        messageToWrite := 0;
      }
    }

    /** The ring buffer part of the address byte: wrap marker, then length and address. */
    method BeginFrame(b: byte) returns (overflow: bool)
      requires input.Length == cfg.size && L.SafeRing(cfg, Buffer()) && (counter <= 1 || 4 <= counter <= cfg.size)
      modifies this`messageToWrite, this`charactersInBuffer, this`charToWrite, input
      ensures (Buffer(), overflow) == Ring.Begin(cfg.size, old(Buffer()), counter, b)
    {
      WrapBuffer();
      charToWrite := 0;
      if charactersInBuffer > cfg.size - Ring.OVERHEAD {
        overflow := true;
      } else {
        var dataLength := Low8(counter - Ring.OVERHEAD);
        overflow := dataLength > cfg.size - messageToWrite;
        if !overflow {
          input[messageToWrite + charToWrite] := dataLength;
          charToWrite := charToWrite + 1;
          input[messageToWrite + charToWrite] := b;
          charToWrite := charToWrite + 1;
        }
      }
    }

    method AcceptFrame(b: byte)
      requires Valid() && mode.GetRecipient?
      modifies this, input
      ensures input == old(input) && Snapshot() == L.Accept(cfg, old(Snapshot()), b)
    {
      hide Crc.AddByte, Ring.Begin, L.SafeReceiving, L.SafeSending, L.SafeAck, IsEven;
      var overflow := status.overflow;
      if !overflow {
        overflow := BeginFrame(b);
      }
      status := status.(broadcast := status.broadcast || HighNibble(b) == 0, mine := true, overflow := overflow);
      receivingNode := b;
      mode := L.Receiving;
      AddByteToCrcCalculation(b);
    }

    method AddressByte(b: byte)
      requires Valid() && mode.GetRecipient?
      modifies this, input
      ensures input == old(input) && Snapshot() == L.Recipient(cfg, old(Snapshot()), b)
      ensures Valid()
    {
      hide L.Accept, L.SafeReceiving, L.SafeSending, L.SafeAck, L.SafeRing;
      if HighNibble(b) == 0 || HighNibble(b) == cfg.node {
        AcceptFrame(b);
      } else {
        counter := Low8(counter + 1);
        mode := L.Receiving;
        status := L.CLEAR;
      }
    }

    method EndOfFrame()
      modifies this`mode, this`txEvent
      ensures Snapshot() == L.ToAck(old(Snapshot()))
    {
      if status.broadcast {
        mode := L.WaitAck;
      } else {
        mode := L.SendAck;
        txEvent := true;
      }
    }

    method StoreByte(b: byte) returns (overflow: bool)
      requires input.Length == cfg.size &&
        (messageToWrite + charToWrite < cfg.size || charactersInBuffer + charToWrite >= cfg.size)
      modifies this`charToWrite, input
      ensures (Buffer(), overflow) == Ring.Put(cfg.size, old(Buffer()), b)
      ensures overflow ==> Buffer() == old(Buffer())
    {
      overflow := charactersInBuffer + charToWrite >= cfg.size;
      if !overflow {
        input[messageToWrite + charToWrite] := b;
        charToWrite := Low8(charToWrite + 1);
      }
    }

    /** One byte of a frame that is being stored. */
    method OwnFrameByte(b: byte)
      requires Valid() && mode.Receiving? && status.mine && !status.overflow
      modifies this, input
      ensures input == old(input) && Snapshot() == L.Receive(cfg, old(Snapshot()), b)
      ensures Valid()
    {
      hide Crc.AddByte, Crc.Word, Ring.Put, L.SafeSending, L.SafeAck, L.ToAck, IsEven;
      counter := Low8(counter - 1);
      if counter > 1 {
        var overflow := StoreByte(b);
        if overflow {
          status := status.(overflow := true);
        } else {
          AddByteToCrcCalculation(b);
        }
      } else if counter == 0 {
        if crc != Crc.Word(receivedCrcHigh, b) {
          status := status.(wrongCrc := true);
        }
        EndOfFrame();
      } else {
        receivedCrcHigh := b;
      }
    }

    method FrameByte(b: byte)
      requires Valid() && mode.Receiving?
      modifies this, input
      ensures input == old(input) && Snapshot() == L.Receive(cfg, old(Snapshot()), b)
      ensures Valid()
    {
      hide Crc.AddByte, Crc.Word, Ring.Put, L.SafeSending, L.SafeAck, L.ToAck, IsEven;
      if status.mine && !status.overflow {
        OwnFrameByte(b);
      } else {
        counter := Low8(counter - 1);
        if counter == 0 {
          if status.overflow {
            EndOfFrame();
          } else if !status.dbus3 {
            EnterIdleState();
          }
        }
      }
    }

    method EchoByte(b: byte) returns (confirm: Option<byte>)
      requires Valid() && mode.Sending?
      modifies this`mode, this`status, this`receivingNode, this`txEvent, this`charactersToCheck, this`nextToCheck
      ensures L.Heard(Snapshot(), confirm) == L.Echo(cfg, old(Snapshot()), b)
      ensures Valid()
    {
      hide Crc.High, Crc.Low, L.SafeReceiving, L.SafeAck, L.SafeRing;
      confirm := None;
      var expected := if charactersToCheck > 1 then messageToSend[nextToCheck]
                      else if charactersToCheck == 1 then Crc.High(crc) else Crc.Low(crc);
      if b == expected {
        if charactersToCheck == 0 {
          if status.broadcast {
            mode := L.SendAck;
            receivingNode := cfg.node * 16;
            txEvent := true;
          } else {
            mode := L.WaitAck;
          }
        } else {
          charactersToCheck := charactersToCheck - 1;
          nextToCheck := nextToCheck + 1;
        }
      } else {
        txEvent := false;
        confirm := Some(NodeBits(receivingNode) + L.ACK_ABORTED);
        EnterIdleState();
      }
    }

    method CommitMessage()
      requires Valid() && messageToWrite + charToWrite <= cfg.size
      modifies this`charToWrite, this`charactersInBuffer, this`messageToWrite
      ensures Snapshot() == old(Snapshot()).(ring := L.CommitRing(cfg, old(Snapshot()).ring))
    {
      hide L.SafeReceiving, L.SafeSending, L.SafeAck;
      IsEvenIsMod2(charToWrite);
      Ring.Aligned(cfg.size, messageToWrite, charToWrite);
      if charToWrite % 2 != 0 {
        charToWrite := charToWrite + 1;
      }
      charactersInBuffer := Low8(charactersInBuffer + charToWrite);
      messageToWrite := Low8(messageToWrite + charToWrite);
    }

    method OwnAcknowledge(b: byte) returns (confirm: Option<byte>)
      requires Valid() && mode.SendAck?
      modifies this
      ensures input == old(input) && L.Heard(Snapshot(), confirm) == L.OwnAck(cfg, old(Snapshot()), b)
      ensures Valid()
    {
      hide L.CommitRing, L.SafeReceiving, L.SafeSending;
      confirm := None;
      if b == counter || counter == L.ACK_OK {
        if status.broadcast {
          confirm := Some(counter);
        } else if !status.wrongCrc {
          if !status.overflow {
            CommitMessage();
          }
        }
      } else if status.broadcast {
        confirm := Some(cfg.node * 16);
      }
      EnterIdleState();
    }

    method ForeignAcknowledge(b: byte) returns (confirm: Option<byte>)
      requires Valid() && mode.WaitAck?
      modifies this
      ensures input == old(input) && L.Heard(Snapshot(), confirm) == L.AckSeen(cfg, old(Snapshot()), b)
      ensures Valid()
    {
      hide L.CommitRing, L.SafeReceiving, L.SafeSending;
      confirm := None;
      counter := b;
      if LowNibble(b) == L.ACK_OK {
        if !status.transmission {
          if !status.wrongCrc && status.mine && !status.overflow {
            if L.IsPowerFail(input[messageToWrite + 2], input[messageToWrite + 3]) {
              charToWrite := 0;
            } else {
              CommitMessage();
            }
          }
        } else if NodeBits(b) != NodeBits(receivingNode) {
          counter := NodeBits(receivingNode);
        }
      }
      if status.transmission {
        confirm := Some(counter);
      }
      EnterIdleState();
    }

    /** DLL_vHandleRxEvent. */
    method HandleRxEvent(b: byte, late: bool) returns (confirm: Option<byte>)
      requires Valid()
      modifies this, input
      ensures input == old(input)
      ensures L.Heard(Snapshot(), confirm) == L.HandleRx(cfg, old(Snapshot()), b, late)
      ensures Valid()
    {
      hide L.Start, L.Recipient, L.Receive, L.Echo, L.OwnAck, L.AckSeen, L.SafeReceiving, L.SafeSending, L.SafeAck;
      confirm := None;
      if mode.Offline? {
        return;
      }
      if !mode.Idle? && late {
        confirm := InterbyteTimeout();
      }
      match mode
      case GetRecipient => AddressByte(b);
      case Receiving => FrameByte(b);
      case Sending => confirm := EchoByte(b);
      case SendAck => confirm := OwnAcknowledge(b);
      case WaitAck => confirm := ForeignAcknowledge(b);
      case Init => StartOfFrame(b);
      case Idle => StartOfFrame(b);
      case Offline =>
    }

    /** DLL_vHandleTxEvent. */
    method HandleTxEvent(late: bool, silent: bool) returns (out: Option<byte>)
      requires Valid()
      modifies this`crc, this`nextToWrite, this`counter, this`txEvent
      ensures L.Sent(Snapshot(), out) == L.HandleTx(cfg, old(Snapshot()), late, silent)
      ensures Valid()
    {
      hide Crc.AddByte, Crc.High, Crc.Low, L.SafeReceiving, L.SafeAck, L.SafeRing;
      out := None;
      if mode.Sending? {
        if counter > 1 {
          out := Some(messageToSend[nextToWrite]);
          AddByteToCrcCalculation(messageToSend[nextToWrite]);
          nextToWrite := nextToWrite + 1;
          counter := counter - 1;
          return;
        } else if counter == 1 {
          out := Some(Crc.High(crc));
          counter := counter - 1;
          return;
        } else {
          out := Some(Crc.Low(crc));
        }
      } else if mode.SendAck? {
        if status.overflow {
          counter := L.ACK_BUSY;
        } else if status.wrongCrc {
          counter := L.ACK_WRONG;
        } else {
          counter := L.ACK_OK;
        }
        var positive := counter == L.ACK_OK;
        counter := NodeBits(receivingNode) + counter;
        if !late && (!silent || positive) {
          out := Some(counter);
        }
      }
      txEvent := false;
    }

    /** DLL_HandleTask, once initialised. */
    method HandleTask(late: bool, idle: bool) returns (confirm: Option<byte>)
      requires Valid()
      modifies this`mode, this`status, this`txEvent
      ensures L.Heard(Snapshot(), confirm) == L.HandleTask(cfg, old(Snapshot()), late, idle)
      ensures Valid()
    {
      hide L.SafeReceiving, L.SafeSending, L.SafeAck, L.SafeRing;
      confirm := None;
      match mode
      case Idle =>
        if idle || status.ready {
          status := status.(ready := true);
        }
      case Init => EnterIdleState();
      case GetRecipient => if late { EnterIdleState(); }
      case Receiving => if late { EnterIdleState(); }
      case Sending =>
        if late {
          txEvent := false;
          confirm := Some(NodeBits(receivingNode));
          EnterIdleState();
        }
      case SendAck => if late { confirm := AcknowledgeTimeout(); }
      case WaitAck => if late { confirm := AcknowledgeTimeout(); }
      case Offline =>
    }

    method AcknowledgeTimeout() returns (confirm: Option<byte>)
      modifies this`mode, this`status, this`txEvent
      ensures L.Heard(Snapshot(), confirm) == L.AckTimeout(old(Snapshot()))
    {
      confirm := None;
      if status.transmission {
        confirm := Some(NodeBits(receivingNode));
        txEvent := false;
      }
      EnterIdleState();
    }

    method BusReadyForTransmission(elapsed: bool, rxOngoing: bool) returns (free: bool)
      requires Valid()
      modifies this`status
      ensures (Snapshot(), free) == L.BusReady(old(Snapshot()), elapsed, rxOngoing)
      ensures Valid()
    {
      hide L.SafeReceiving, L.SafeSending, L.SafeAck, L.SafeRing;
      if mode.Idle? && status.ready {
        if !rxOngoing {
          return true;
        }
        status := status.(ready := false);
        return false;
      }
      free := status.ready || (elapsed && (mode.Init? || mode.Idle? || mode.GetRecipient? || mode.Receiving?));
    }

    /** The message, and the pointers into it. */
    method LoadMessage(m: seq<byte>)
      modifies this`crc, this`messageToSend, this`nextToWrite, this`nextToCheck
      ensures Snapshot() == old(Snapshot()).(crc := Crc.DLL_INIT, tx := m, next := 0, check := 0)
    {
      hide Buffer;
      crc, messageToSend, nextToWrite, nextToCheck := Crc.DLL_INIT, m, 0, 0;
    }

    method SetCounters(characters: byte, node: byte)
      modifies this`counter, this`charactersToCheck, this`receivingNode
      ensures Snapshot() == old(Snapshot()).(counter := characters, toCheck := characters, dest := node)
    {
      hide Buffer;
      counter, charactersToCheck, receivingNode := characters, characters, node;
    }

    method LaunchMessage(m: seq<byte>, rxStarted: bool) returns (started: bool)
      requires L.SafeRing(cfg, Snapshot().ring) && Ring.IsMessage(m) && |m| <= 254
      modifies this
      ensures input == old(input) && (Snapshot(), started) == L.Launch(cfg, old(Snapshot()), m, rxStarted)
    {
      hide L.Safe, Buffer;
      LoadMessage(m);
      SetCounters(m[0] + 3, m[1]);
      if rxStarted {
        EnterIdleState();
        started := false;
      } else {
        status := L.CLEAR.(transmission := true, broadcast := HighNibble(m[1]) == 0);
        mode := L.Sending;
        txEvent := true;
        started := true;
      }
    }

    /** DLL_bTransmitMessage for the bytes m that the identifier and the service function yield. */
    method TransmitMessage(m: seq<byte>, elapsed: bool, rxOngoing: bool, rxStarted: bool) returns (started: bool)
      requires Valid() && Ring.IsMessage(m) && |m| <= 254
      modifies this
      ensures input == old(input)
      ensures (Snapshot(), started) == L.Transmit(cfg, old(Snapshot()), m, elapsed, rxOngoing, rxStarted)
      ensures Valid()
    {
      hide L.SafeReceiving, L.SafeSending, L.SafeAck, L.Launch, L.BusReady, Ring.IsMessage;
      var free := BusReadyForTransmission(elapsed, rxOngoing);
      if !free || mode.Offline? {
        return false;
      }
      started := LaunchMessage(m, rxStarted);
    }

    /** DLL_ptReceiveMessage: the message starts at nextToRead when there is one. */
    method ReceiveMessage() returns (found: bool)
      requires Valid()
      modifies this`charactersInBuffer, this`nextToRead, this`dataLength
      ensures (Buffer(), found) == Ring.Receive(cfg.size, old(Buffer()))
      ensures Snapshot() == old(Snapshot()).(ring := Buffer())
    {
      hide L.SafeReceiving, L.SafeSending, L.SafeAck;
      if charactersInBuffer == 0 {
        return false;
      }
      if input[nextToRead] == Ring.MARKER {
        charactersInBuffer := Low8(charactersInBuffer - (cfg.size - nextToRead));
        nextToRead := 0;
        if charactersInBuffer == 0 {
          return false;
        }
      }
      dataLength := input[nextToRead];
      return true;
    }

    /** DLL_vReleaseDataFromReceivedMessage. */
    method ReleaseDataFromReceivedMessage()
      requires Valid()
      modifies this`charactersInBuffer, this`nextToRead
      ensures Snapshot() == old(Snapshot()).(ring := Ring.Release(cfg.size, old(Snapshot().ring)))
    {
      hide L.SafeReceiving, L.SafeSending, L.SafeAck;
      var size := Low8(dataLength + Ring.OVERHEAD);
      IsEvenIsMod2(size);
      if size % 2 != 0 {
        size := Low8(size as int + 1);
      }
      if charactersInBuffer >= size {
        charactersInBuffer := charactersInBuffer - size;
        nextToRead := Low8(nextToRead + size);
        if nextToRead >= cfg.size {
          nextToRead := 0;
        }
      } else {
        nextToRead := 0;
        charactersInBuffer := 0;
      }
    }
  }
}
