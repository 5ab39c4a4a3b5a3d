/** The bus application layer over its own variables, with the searches as loops. */
module BalDriver {
  import opened Bytes
  import B = Bal

  class BusApplicationLayer {
    /** Subsystem number of every entry of the bus object table. */
    const table: seq<byte>
    const limits: B.Limits

    var transmitFlags: seq<bool>
    var messageBits: seq<seq<bool>>
    var subsystemIndex: nat
    var messageIndex: nat
    var transmissionAttempts: byte
    var maxRetries: byte
    var userCode: Option<B.Code>

    ghost function Snapshot(): B.Bal
      reads this
    {
      B.Bal(transmitFlags, messageBits, B.Code(subsystemIndex, messageIndex), transmissionAttempts,
            maxRetries, userCode)
    }

    ghost predicate Valid()
      reads this
    {
      |table| == |messageBits| > 0 && B.Valid(Snapshot())
    }

    constructor (table: seq<byte>, sizes: seq<nat>, limits: B.Limits)
      requires 0 < |table| == |sizes| <= B.MAX_SUBSYSTEMS
      ensures Valid() && this.table == table && this.limits == limits && B.Work(Snapshot()) == 0
    {
      this.table, this.limits := table, limits;
      transmitFlags := seq(B.MAX_SUBSYSTEMS, _ => false);
      messageBits := seq(|sizes|, i requires 0 <= i < |sizes| => seq(sizes[i], _ => false));
      subsystemIndex, messageIndex, transmissionAttempts, maxRetries, userCode := 0, 0, 0, 0, None;
      new;
      assert forall c :: !B.IsSet(messageBits, c);
      NoBits(messageBits);
    }

    static lemma {:induction false} NoBits(pending: seq<seq<bool>>)
      requires forall i :: 0 <= i < |pending| ==> true !in pending[i]
      ensures B.Bits(pending) == 0
    {
      if pending != [] {
        NoBits(pending[1..]);
      }
    }

    /** BAL_ucGetSubsystemIndex: the first entry for the subsystem of the address, or entry 0. */
    method GetSubsystemIndex(nodeAddress: byte) returns (index: nat)
      requires Valid()
      ensures index < |table|
      ensures LowNibble(nodeAddress) in table ==>
        table[index] == LowNibble(nodeAddress) && LowNibble(nodeAddress) !in table[..index]
      ensures LowNibble(nodeAddress) !in table ==> index == 0
    {
      index := 0;
      while index < |table|
        invariant 0 <= index <= |table|
        invariant LowNibble(nodeAddress) !in table[..index]
      {
        if table[index] == LowNibble(nodeAddress) {
          return;
        }
        index := index + 1;
      }
      index := 0;
    }

    /** BAL_vTransmitMessage for a subsystem index; blocked is the silent or the non operating mode. */
    method TransmitMessage(sub: nat, msg: nat, blocked: bool) returns (known: bool)
      requires Valid() && sub < |table|
      modifies this`transmitFlags, this`messageBits
      ensures Snapshot() == if blocked then old(Snapshot()) else B.Request(old(Snapshot()), B.Code(sub, msg))
      ensures Valid()
      ensures known <==> blocked || B.InTable(messageBits, B.Code(sub, msg))
    {
      known := true;
      if !blocked {
        if msg < |messageBits[sub]| {
          transmitFlags := transmitFlags[sub := true];
          messageBits := B.SetBit(messageBits, B.Code(sub, msg), true);
        } else {
          known := false;
        }
      }
    }

    /** BAL_vCancelTransmitMessage for a subsystem index. */
    method CancelTransmitMessage(sub: nat, msg: nat)
      requires Valid()
      modifies this`transmissionAttempts, this`messageBits
      ensures Snapshot() == B.Cancel(old(Snapshot()), B.Code(sub, msg))
      ensures Valid()
    {
      if transmissionAttempts != 0 {
        if sub == subsystemIndex && msg == messageIndex {
          transmissionAttempts := B.MAX_TRANSMISSION_RETRIES;
        }
      }
      messageBits := B.SetBit(messageBits, B.Code(sub, msg), false);
    }

    /** The lowest set position, or the length when there is none. */
    static method Search(bits: seq<bool>) returns (i: nat)
      ensures i == B.Lowest(bits, 0)
    {
      i := 0;
      while i < |bits| && !bits[i]
        invariant 0 <= i <= |bits|
        invariant B.Lowest(bits, 0) == B.Lowest(bits, i)
      {
        i := i + 1;
      }
    }

    /** BAL_HandleTask. */
    method HandleTask(busReady: bool, locked: bool, accepted: bool) returns (sent: Option<B.Code>)
      requires Valid() && (busReady ==> userCode.None?)
      modifies this
      ensures (Snapshot(), sent) == B.Task(old(Snapshot()), busReady, locked, accepted)
      ensures Valid()
    {
      sent := None;
      if true in transmitFlags {
        if busReady {
          var messageToTransmit := true;
          if transmissionAttempts == 0 {
            subsystemIndex := Search(transmitFlags);
            messageIndex := Search(messageBits[subsystemIndex]);
            messageToTransmit := messageIndex < |messageBits[subsystemIndex]|;
          }
          if !locked {
            if messageToTransmit {
              if accepted {
                userCode := Some(B.Code(subsystemIndex, messageIndex));
                sent := userCode;
                messageBits := B.SetBit(messageBits, B.Code(subsystemIndex, messageIndex), false);
              }
            } else {
              transmitFlags := transmitFlags[subsystemIndex := false];
              messageIndex := 0;
            }
          }
        }
      }
    }

    /** DLL_vMessageTransmitted for a user code of this layer. */
    method MessageTransmitted(acknowledge: byte) returns (outcome: B.Outcome)
      requires Valid() && userCode.Some?
      modifies this`transmissionAttempts, this`maxRetries, this`userCode
      ensures (Snapshot(), outcome) == B.Transmitted(old(Snapshot()), limits, B.AckOf(acknowledge))
      ensures Valid()
    {
      var code := userCode.value;
      userCode := None;
      if LowNibble(acknowledge) == 0x0A {
        outcome := B.Confirmed(code);
      } else {
        if LowNibble(acknowledge) == 0x0F {
          if maxRetries < limits.collision {
            maxRetries := limits.collision;
          }
        } else if LowNibble(acknowledge) == 0x00 {
          if maxRetries < limits.missing {
            maxRetries := limits.missing;
          }
        } else {
          if maxRetries < limits.nack {
            maxRetries := limits.nack;
          }
        }
        if transmissionAttempts >= maxRetries {
          outcome := B.NonDeliverable(code);
        } else {
          transmissionAttempts := transmissionAttempts + 1;
          outcome := B.WillRetry;
          return;
        }
      }
      transmissionAttempts := 0;
      maxRetries := 0;
    }

    /** The table entries before the terminating subsystem 0xF. */
    static function Entries(table: seq<byte>): (n: nat)
      ensures n <= |table| && 0x0F !in table[..n]
      ensures 0x0F in table ==> n < |table| && table[n] == 0x0F
    {
      if table == [] || table[0] == 0x0F then 0 else 1 + Entries(table[1..])
    }

    /** BAL_ClearMessagesToSend: the bits of the terminating entry stay. */
    method ClearMessagesToSend()
      requires Valid() && 0x0F in table
      modifies this`messageBits
      ensures Valid()
      ensures |messageBits| == old(|messageBits|)
      ensures forall i :: 0 <= i < |table| ==> |messageBits[i]| == old(|messageBits[i]|)
      ensures forall c :: B.IsSet(messageBits, c) <==> B.IsSet(old(messageBits), c) && c.sub >= Entries(table)
    {
      ghost var end := Entries(table);
      var i := 0;
      while table[i] != 0x0F
        invariant 0 <= i <= end
        invariant Valid() && |messageBits| == old(|messageBits|)
        invariant forall k :: 0 <= k < |table| ==> |messageBits[k]| == old(|messageBits[k]|)
        invariant forall c :: B.IsSet(messageBits, c) <==> B.IsSet(old(messageBits), c) && c.sub >= i
        decreases end - i
      {
        var j := 0;
        while j < |messageBits[i]|
          invariant i < |table| == |messageBits| && 0 <= j <= |messageBits[i]|
          invariant Valid() && |messageBits| == old(|messageBits|)
          invariant forall k :: 0 <= k < |table| ==> |messageBits[k]| == old(|messageBits[k]|)
          invariant forall c :: B.IsSet(messageBits, c) <==>
            B.IsSet(old(messageBits), c) && (c.sub > i || (c.sub == i && c.msg >= j))
        {
          messageBits := B.SetBit(messageBits, B.Code(i, j), false);
          j := j + 1;
        }
        i := i + 1;
      }
    }
  }
}
