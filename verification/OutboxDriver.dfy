/** The transmit buffer and the repeat buffer of the main connection, filled and copied in place. */
module OutboxDriver {
  import opened Bytes
  import opened Frames
  import O = Outbox

  class TransmitBuffers {
    const cfg: O.Config
    const transmitBuffer: array<byte>
    const repeatBuffer: array<byte>
    var transmitLen: nat
    var frameCount: nat
    var repeatLen: nat
    var entryLen: nat
    var targetAddress: byte
    var txFlag: bool
    var retryCounter: byte

    /** An empty buffer starts with a zero byte, which is how the driver recognises it. */
    ghost predicate Valid()
      reads this, transmitBuffer, repeatBuffer
    {
      && O.ValidConfig(cfg) && transmitBuffer.Length == repeatBuffer.Length == cfg.size
      && transmitBuffer != repeatBuffer
      && transmitLen <= cfg.size && repeatLen <= cfg.size
      && (transmitLen == 0 ==> transmitBuffer[0] == 0 && frameCount == 0)
      && (repeatLen == 0 ==> repeatBuffer[0] == 0)
    }

    ghost function Snapshot(): O.Outbox
      requires Valid()
      reads this, transmitBuffer, repeatBuffer
    {
      O.Outbox(transmitBuffer[..transmitLen], frameCount, repeatBuffer[..repeatLen],
               entryLen, targetAddress, txFlag, retryCounter)
    }

    constructor (cfg: O.Config)
      requires O.ValidConfig(cfg)
      ensures Valid() && this.cfg == cfg && fresh(transmitBuffer) && fresh(repeatBuffer)
      ensures Snapshot() == O.CONNECTED.o
    {
      this.cfg := cfg;
      transmitBuffer := new byte[cfg.size](_ => 0);
      repeatBuffer := new byte[cfg.size](_ => 0);
      transmitLen, frameCount, repeatLen, entryLen, targetAddress := 0, 0, 0, 0, 0;
      txFlag, retryCounter := false, 0;
    }

    /** DBAL_isIoTransmitBufferEmpty */
    method IsTransmitBufferEmpty() returns (empty: bool)
      requires Valid()
      ensures empty <==> Snapshot().tx == []
    {
      empty := transmitLen == 0 && transmitBuffer[0] == 0;
    }

    /** DBAL_isIoTxRepeatBufferEmpty */
    method IsRepeatBufferEmpty() returns (empty: bool)
      requires Valid()
      ensures empty <==> Snapshot().rep == []
    {
      empty := repeatLen == 0 && repeatBuffer[0] == 0;
    }

    method ClearTransmitBuffer()
      requires Valid()
      modifies this`frameCount, this`transmitLen, transmitBuffer
      ensures Valid() && Snapshot() == old(Snapshot()).(tx := [], frames := 0)
    {
      frameCount, transmitLen := 0, 0;
      forall i | 0 <= i < transmitBuffer.Length {
        transmitBuffer[i] := 0;
      }
      assert repeatBuffer[..repeatLen] == old(repeatBuffer[..repeatLen]);
    }

    method ClearRepeatBuffer()
      requires Valid()
      modifies this`repeatLen, repeatBuffer
      ensures Valid() && Snapshot() == old(Snapshot()).(rep := [])
    {
      repeatLen := 0;
      forall i | 0 <= i < repeatBuffer.Length {
        repeatBuffer[i] := 0;
      }
      assert transmitBuffer[..transmitLen] == old(transmitBuffer[..transmitLen]);
    }

    method ClearBoth()
      requires Valid()
      modifies this`frameCount, this`transmitLen, transmitBuffer, this`repeatLen, repeatBuffer
      ensures Valid() && Snapshot() == O.ClearBoth(old(Snapshot()))
    {
      ClearTransmitBuffer();
      ClearRepeatBuffer();
    }

    /** DBAL_prepareHeaderAndSeqId, for a new message. */
    method PrepareHeader(seqId: byte)
      requires Valid()
      modifies this`transmitLen, transmitBuffer
      ensures Valid() && Snapshot() == O.Header(cfg, old(Snapshot()), seqId) && transmitLen > 0
    {
      if frameCount == 0 {
        transmitBuffer[0] := cfg.own;
        transmitBuffer[1] := O.PROTOCOL;
        transmitLen := FRAME_OFFSET;
        transmitBuffer[2] := seqId;
      }
      assert repeatBuffer[..repeatLen] == old(repeatBuffer[..repeatLen]);
    }

    /** DBAL_prepareTxEntry and BAL_vTransmitMessage. */
    method Trigger(partner: byte)
      requires Valid()
      modifies this`entryLen, this`targetAddress, this`txFlag
      ensures Valid() && Snapshot() == O.Trigger(old(Snapshot()), partner)
    {
      entryLen, targetAddress, txFlag := transmitLen, partner, true;
    }

    /** The bytes of one frame behind the filled part of the transmit buffer. */
    method Store(f: Frame)
      requires Valid() && transmitLen > 0 && O.Fits(cfg, Snapshot(), f)
      modifies this`transmitLen, transmitBuffer
      ensures Valid() && Snapshot() == old(Snapshot()).(tx := old(Snapshot()).tx + Encode(f))
    {
      var from := transmitLen;
      ghost var before := transmitBuffer[..from];
      transmitBuffer[from] := KindByte(f.kind);
      transmitBuffer[from + 1] := |f.payload|;
      transmitBuffer[from + 2], transmitBuffer[from + 3] := f.service / 256, f.service % 256;
      transmitBuffer[from + 4], transmitBuffer[from + 5] := f.command / 256, f.command % 256;
      forall i | 0 <= i < |f.payload| {
        transmitBuffer[from + DATA_OFFSET + i] := f.payload[i];
      }
      transmitLen := from + DATA_OFFSET + |f.payload|;
      assert transmitBuffer[..transmitLen] == before + Encode(f);
      assert repeatBuffer[..repeatLen] == old(repeatBuffer[..repeatLen]);
    }

    /** The part of DBAL_ioDbusHandler_send behind a frame that fits and is saved where it has to be. */
    method Append(f: Frame, partner: byte)
      requires Valid() && transmitLen > 0 && O.Fits(cfg, Snapshot(), f)
      modifies this, transmitBuffer
      ensures Valid() && Snapshot() == O.Append(old(Snapshot()), f, partner)
    {
      hide Encode;
      Store(f);
      frameCount := frameCount + 1;
      var free := IsRepeatBufferEmpty();
      if (txFlag || frameCount == 1) && free {
        retryCounter := 0;
        Trigger(partner);
      }
    }

    /** DBAL_writeReqRespInDbus2Buffer */
    method WriteInDbus2Buffer() returns (bytes: Option<seq<byte>>)
      requires Valid()
      modifies this`frameCount, this`transmitLen, this`repeatLen, transmitBuffer, repeatBuffer
      ensures Valid() && (Snapshot(), bytes) == O.Write(old(Snapshot()))
    {
      if entryLen != transmitLen && entryLen != repeatLen {
        return None;
      }
      var free := IsRepeatBufferEmpty();
      if free {
        CopyToRepeat();
        ClearTransmitBuffer();
      }
      bytes := Some(repeatBuffer[..repeatLen]);
    }

    method CopyToRepeat()
      requires Valid() && repeatLen == 0
      modifies this`repeatLen, repeatBuffer
      ensures Valid() && Snapshot() == old(Snapshot()).(rep := old(Snapshot()).tx)
    {
      forall i | 0 <= i < transmitLen {
        repeatBuffer[i] := transmitBuffer[i];
      }
      repeatLen := transmitLen;
      assert transmitBuffer[..transmitLen] == old(transmitBuffer[..transmitLen]);
      assert repeatBuffer[..repeatLen] == transmitBuffer[..transmitLen];
    }

    /** DBAL_reqRespTxPostAction */
    method PostAction(partner: byte)
      requires Valid()
      modifies this`repeatLen, this`entryLen, this`targetAddress, this`txFlag, repeatBuffer
      ensures Valid() && Snapshot() == O.Confirmed(old(Snapshot()), partner)
    {
      ClearRepeatBuffer();
      var empty := IsTransmitBufferEmpty();
      if !empty {
        Trigger(partner);
      }
    }

    /** The message is requested again, for one more round of attempts. */
    method RequestAgain()
      requires Valid() && retryCounter < 255
      modifies this`retryCounter, this`txFlag
      ensures Valid() && Snapshot() == old(Snapshot()).(flag := true, retries := old(Snapshot()).retries + 1)
    {
      retryCounter := retryCounter + 1;
      txFlag := true;
    }
  }
}
