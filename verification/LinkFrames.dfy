/**
 Frames on the wire: where they end for every listener, that what is sent is
 what is stored, and that both ends agree on the acknowledge.
 */
module LinkFrames {
  import opened Bytes
  import Crc
  import Ring
  import opened Link
  import opened LinkFifo

  /** Bytes heard one after the other without a timeout. */
  function Feed(cfg: Config, s: Link, bs: seq<byte>): (r: Link)
    requires Safe(cfg, s) && cfg.node < 16
    ensures Safe(cfg, r)
    decreases |bs|
  {
    if bs == [] then s
    else Feed(cfg, HandleRx(cfg, s, bs[0], false).link, bs[1..])
  }

  // ---------------------------------------------------------------- where a frame ends

  /** Bytes until the receiver leaves the receiving state; the counter of a foreign 253-byte message starts at 256. */
  function Remaining(s: Link): nat {
    if s.counter == 0 then 256 else s.counter
  }

  lemma {:induction false} ReceivingEnds(cfg: Config, s: Link, bs: seq<byte>)
    requires Safe(cfg, s) && cfg.node < 16 && s.mode.Receiving? && !s.status.dbus3 && |bs| <= Remaining(s)
    ensures var r := Feed(cfg, s, bs);
      r.mode == (if |bs| < Remaining(s) then Receiving
                 else if !s.status.mine then Idle
                 else if s.status.broadcast then WaitAck
                 else SendAck)
    decreases |bs|
  {
    hide Crc.AddByte, Crc.Word;
    if bs == [] {
    } else {
      var r := HandleRx(cfg, s, bs[0], false).link;
      if |bs| < Remaining(s) {
        assert r.mode.Receiving? && Remaining(r) == Remaining(s) - 1;
        ReceivingEnds(cfg, r, bs[1..]);
      } else if |bs| > 1 {
        ReceivingEnds(cfg, r, bs[1..]);
      }
    }
  }

  lemma FeedTwo(cfg: Config, s: Link, a: byte, b: byte, bs: seq<byte>)
    requires Safe(cfg, s) && cfg.node < 16 && AtStart(s) && a >= 2
    ensures Feed(cfg, s, [a, b] + bs) == Feed(cfg, Recipient(cfg, Start(cfg, s, a), b), bs)
  {
  }

  /** Identifier, data and CRC; for another node's frame the acknowledge as well. */
  function Expects(cfg: Config, length: byte, address: byte): nat {
    length as int + (if Addressed(cfg, address) then 2 else 3)
  }

  /** What the 8-bit counter makes of it. */
  function Counts(n: nat): nat {
    if n <= 256 then n else n - 256
  }

  /**
   After the length and the address byte a frame for this node takes exactly length + 2 bytes up to the acknowledge
   phase, wherever overflow is raised; a frame for another node takes exactly length + 3 bytes up to idle. That holds
   if and only if that number is at most 256; the listener leaves a longer one 256 bytes early.
   */
  lemma Delineation(cfg: Config, s: Link, length: byte, address: byte, bs: seq<byte>)
    requires Safe(cfg, s) && cfg.node < 16 && AtStart(s) && length >= 2
    requires |bs| <= Counts(Expects(cfg, length, address))
    ensures var r, n := Feed(cfg, s, [length, address] + bs), Counts(Expects(cfg, length, address));
      && (r.mode.Receiving? <==> |bs| < n)
      && (|bs| == n ==> r.mode == if !Addressed(cfg, address) then Idle
                                  else if HighNibble(address) == 0 then WaitAck else SendAck)
      && (n == Expects(cfg, length, address) <==> length <= if Addressed(cfg, address) then 254 else 253)
  {
    hide Crc.AddByte, Ring.Begin;
    FeedTwo(cfg, s, length, address, bs);
    ReceivingEnds(cfg, Recipient(cfg, Start(cfg, s, length), address), bs);
  }

  // ---------------------------------------------------------------- what the sender puts on the bus

  /** Length, address, identifier, data, and the CRC of all that, high byte first. */
  function Wire(m: seq<byte>): (w: seq<byte>)
    ensures |w| == |m| + 2
  {
    var crc := Crc.Over(Crc.DLL_INIT, m);
    m + [Crc.High(crc), Crc.Low(crc)]
  }

  /** k bytes of m are sent and their echoes checked. */
  predicate Lockstep(s: Link, m: seq<byte>, k: nat) {
    && s.mode.Sending? && SafeSending(s) && s.tx == m && k <= |m| + 1
    && s.counter == |m| + 1 - k && s.toCheck == s.counter
    && s.crc == Crc.Over(Crc.DLL_INIT, m[..if k <= |m| then k else |m|])
  }

  lemma TransmitLockstep(cfg: Config, s: Link, m: seq<byte>, elapsed: bool, rxOngoing: bool, rxStarted: bool)
    requires Safe(cfg, s) && Ring.IsMessage(m) && |m| <= 254
    requires Transmit(cfg, s, m, elapsed, rxOngoing, rxStarted).1
    ensures Lockstep(Transmit(cfg, s, m, elapsed, rxOngoing, rxStarted).0, m, 0)
  {
  }

  /** The transmit interrupt sends byte k of the wire format, and the echo check waits for exactly that byte. */
  lemma SendsByte(s: Link, m: seq<byte>, k: nat)
    requires Lockstep(s, m, k)
    ensures var r := SendNext(s);
      && r.out == Some(Wire(m)[k])
      && r.link.mode.Sending? && Expected(r.link) == Wire(m)[k]
      && r.link.crc == Crc.Over(Crc.DLL_INIT, m[..if k < |m| then k + 1 else |m|])
  {
    hide Crc.AddByte, Crc.High, Crc.Low;
    assert m[..|m|] == m;
    if k < |m| {
      Crc.OverAppend(Crc.DLL_INIT, m[..k], m[k]);
      assert m[..k] + [m[k]] == m[..k + 1];
    }
  }

  /** One transmit interrupt, and the byte read back from the bus. */
  function Round(cfg: Config, s: Link, echo: byte): (r: Heard)
    requires Safe(cfg, s) && cfg.node < 16 && s.mode.Sending?
    ensures Safe(cfg, r.link)
  {
    Echo(cfg, HandleTx(cfg, s, false, false).link, echo)
  }

  /** A round goes on exactly when the byte read back is the byte sent. */
  lemma RoundExact(cfg: Config, s: Link, m: seq<byte>, k: nat, echo: byte)
    requires Safe(cfg, s) && cfg.node < 16 && Lockstep(s, m, k)
    ensures var r := Round(cfg, s, echo);
      if echo != Wire(m)[k] then
        r.link.mode == Idle && r.confirm == Some(NodeBits(s.dest) + ACK_ABORTED)
      else
        r.confirm == None && r.link.status == s.status
        && (if k <= |m| then Lockstep(r.link, m, k + 1) && r.link.dest == s.dest
            else r.link.mode == (if s.status.broadcast then SendAck else WaitAck)
                 && r.link.dest == if s.status.broadcast then cfg.node * 16 else s.dest)
  {
    hide Crc.AddByte, Crc.High, Crc.Low, Crc.Over, Wire;
    SendsByte(s, m, k);
  }

  /** Rounds with the given echoes, until one fails: the bytes sent, and whether none failed. */
  function Exchange(cfg: Config, s: Link, echoes: seq<byte>): (r: (Link, seq<byte>))
    requires Safe(cfg, s) && cfg.node < 16
    ensures Safe(cfg, r.0)
    decreases |echoes|
  {
    if echoes == [] || !s.mode.Sending? then (s, [])
    else
      var out := HandleTx(cfg, s, false, false).out;
      var (t, bytes) := Exchange(cfg, Round(cfg, s, echoes[0]).link, echoes[1..]);
      (t, (if out.Some? then [out.value] else []) + bytes)
  }

  /**
   The sender reaches the acknowledge phase exactly when every byte read back is the one it sent,
   and then it has put exactly the wire format of the message on the bus.
   */
  lemma {:induction false} ExchangeExact(cfg: Config, s: Link, m: seq<byte>, k: nat, echoes: seq<byte>)
    requires Safe(cfg, s) && cfg.node < 16 && Lockstep(s, m, k) && |echoes| == |m| + 2 - k
    ensures var (t, bytes) := Exchange(cfg, s, echoes);
      && (t.mode.WaitAck? || t.mode.SendAck? <==> echoes == Wire(m)[k..])
      && (echoes == Wire(m)[k..] ==>
            bytes == Wire(m)[k..] && t.status == s.status && (t.mode.SendAck? <==> s.status.broadcast)
            && t.dest == if s.status.broadcast then cfg.node * 16 else s.dest)
    decreases |echoes|
  {
    hide Wire, Crc.Over;
    RoundExact(cfg, s, m, k, echoes[0]);
    SendsByte(s, m, k);
    var r := Round(cfg, s, echoes[0]).link;
    var rest := Wire(m)[k + 1..];
    assert Wire(m)[k..] == [Wire(m)[k]] + rest;
    assert echoes == [echoes[0]] + echoes[1..];
    if echoes[0] == Wire(m)[k] {
      if k <= |m| {
        ExchangeExact(cfg, r, m, k + 1, echoes[1..]);
      } else {
        assert rest == [] && echoes[1..] == [];
      }
    }
  }

  /** From a successful transmit request on: a clean bus carries length, address, identifier, data and CRC. */
  lemma SendsFrame(cfg: Config, s: Link, m: seq<byte>, elapsed: bool, rxOngoing: bool, rxStarted: bool)
    requires Safe(cfg, s) && cfg.node < 16 && Ring.IsMessage(m) && |m| <= 254
    requires Transmit(cfg, s, m, elapsed, rxOngoing, rxStarted).1
    ensures var t := Transmit(cfg, s, m, elapsed, rxOngoing, rxStarted).0;
      var (r, bytes) := Exchange(cfg, t, Wire(m));
      && bytes == Wire(m)
      && r.status == CLEAR.(transmission := true, broadcast := HighNibble(m[1]) == 0)
      && r.mode == (if HighNibble(m[1]) == 0 then SendAck else WaitAck)
      && r.dest == if HighNibble(m[1]) == 0 then cfg.node * 16 else m[1]
  {
    hide Exchange, Wire, Crc.Over;
    TransmitLockstep(cfg, s, m, elapsed, rxOngoing, rxStarted);
    assert Wire(m)[0..] == Wire(m);
    ExchangeExact(cfg, Transmit(cfg, s, m, elapsed, rxOngoing, rxStarted).0, m, 0, Wire(m));
  }

  // ---------------------------------------------------------------- what the receiver stores

  /** The buffer has room for m behind the marker a wrap may need, and the wrap is not the hazard. */
  predicate Room(cfg: Config, r: Ring.Ring, m: seq<byte>)
    requires SafeRing(cfg, r) && |m| <= 255
  {
    && |m| <= cfg.size && !Ring.Hazard(cfg.size, r, |m|)
    && Ring.Wrap(cfg.size, r, |m|).count + |m| <= cfg.size
  }

  /** Only the cells of a frame of that length behind the write index have changed. */
  predicate OnlyFrame(r: Ring.Ring, q: Ring.Ring, length: nat) {
    && |q.buf| == |r.buf| && q == r.(buf := q.buf, off := q.off)
    && forall i :: 0 <= i < |r.buf| && (i < r.wr || i >= r.wr + length) ==> q.buf[i] == r.buf[i]
  }

  /** With room left, one more byte of a frame is stored. */
  lemma StoresByte(cfg: Config, s: Link, v: View, m: seq<byte>, k: nat)
    requires Agrees(cfg, s, v) && s.mode.Receiving? && Storing(s) && Ring.IsMessage(m)
    requires 2 <= k < |Wire(m)| && v.frame == Wire(m)[..k] && s.ring.count + |m| <= cfg.size
    ensures var r := HandleRx(cfg, s, Wire(m)[k], false).link;
      && Agrees(cfg, r, v.(frame := Wire(m)[..k + 1])) && Storing(r) && !r.status.transmission
      && OnlyFrame(s.ring, r.ring, |m|) && r.status.broadcast == s.status.broadcast && r.dest == s.dest
      && r.mode == (if k + 1 < |Wire(m)| then Receiving else if s.status.broadcast then WaitAck else SendAck)
  {
    hide Crc.AddByte, Crc.Word, Crc.Over, Crc.Accepts, Ring.Stores, Ring.Messages, Wire;
    var b := Wire(m)[k];
    assert Wire(m)[..k] + [b] == Wire(m)[..k + 1];
    WireStart(m, k);
    RxAgrees(cfg, s, v, b, false);
  }

  lemma WireStart(m: seq<byte>, k: nat)
    requires Ring.IsMessage(m) && 2 <= k <= |Wire(m)|
    ensures Wire(m)[..k][0] == m[0] && Body(Wire(m)[..k]) == (if k <= |m| then m[..k] else m)
    ensures |Wire(m)| == Announced(Wire(m)[..k]) + 2
  {
    hide Crc.High, Crc.Low, Crc.Over;
  }

  lemma {:induction false} FeedStores(cfg: Config, s: Link, v: View, m: seq<byte>, k: nat)
    requires Agrees(cfg, s, v) && s.mode.Receiving? && Storing(s) && Ring.IsMessage(m)
    requires 2 <= k < |Wire(m)| && v.frame == Wire(m)[..k] && s.ring.count + |m| <= cfg.size
    ensures var r := Feed(cfg, s, Wire(m)[k..]);
      && Agrees(cfg, r, v.(frame := Wire(m))) && Storing(r) && !r.status.transmission
      && OnlyFrame(s.ring, r.ring, |m|)
      && r.dest == s.dest && r.mode == (if s.status.broadcast then WaitAck else SendAck)
    decreases |Wire(m)| - k
  {
    hide Wire, Tracks, Holds, HandleRx;
    StoresByte(cfg, s, v, m, k);
    var bs := Wire(m)[k..];
    assert bs[1..] == Wire(m)[k + 1..];
    var r := HandleRx(cfg, s, Wire(m)[k], false).link;
    if k + 1 < |Wire(m)| {
      FeedStores(cfg, r, v.(frame := Wire(m)[..k + 1]), m, k + 1);
    } else {
      assert Wire(m)[..k + 1] == Wire(m) && bs[1..] == [];
    }
  }

  /** Length and address of a frame with room are stored. */
  lemma OpensFrame(cfg: Config, s: Link, v: View, m: seq<byte>)
    requires Agrees(cfg, s, v) && AtStart(s) && Ring.IsMessage(m) && Addressed(cfg, m[1]) && Room(cfg, s.ring, m)
    ensures var r := Recipient(cfg, Start(cfg, s, m[0]), m[1]);
      && Agrees(cfg, r, v.(frame := Wire(m)[..2])) && r.mode.Receiving? && Storing(r)
      && r.ring.count + |m| <= cfg.size && r.dest == m[1] && (r.status.broadcast <==> HighNibble(m[1]) == 0)
      && OnlyFrame(Ring.Wrap(cfg.size, s.ring, |m|), r.ring, |m|)
  {
    OpensRing(cfg, s, m);
    OpensAgrees(cfg, s, v, m);
    hide Agrees, Start, Recipient, Wire, Ring.Wrap, OnlyFrame, Storing;
    assert Wire(m)[..2] == [m[0]] + [m[1]] by {
      WireBytes(m);
    }
  }

  lemma OpensRing(cfg: Config, s: Link, m: seq<byte>)
    requires Safe(cfg, s) && AtStart(s) && Ring.IsMessage(m) && Addressed(cfg, m[1]) && Room(cfg, s.ring, m)
    ensures var r := Recipient(cfg, Start(cfg, s, m[0]), m[1]);
      && r.mode.Receiving? && Storing(r)
      && r.ring.count + |m| <= cfg.size && r.dest == m[1] && (r.status.broadcast <==> HighNibble(m[1]) == 0)
      && OnlyFrame(Ring.Wrap(cfg.size, s.ring, |m|), r.ring, |m|)
  {
    hide Crc.AddByte, Ring.Hazard;
  }

  lemma OpensAgrees(cfg: Config, s: Link, v: View, m: seq<byte>)
    requires Agrees(cfg, s, v) && AtStart(s) && Ring.IsMessage(m) && Addressed(cfg, m[1]) && Room(cfg, s.ring, m)
    ensures Agrees(cfg, Recipient(cfg, Start(cfg, s, m[0]), m[1]), v.(frame := [m[0]] + [m[1]]))
  {
    hide Crc.AddByte, Crc.Accepts, Ring.Stores, Ring.Messages, Ring.Hazard, Wire, Crc.Over, Ring.Begin, Accept;
    RxAgrees(cfg, s, v, m[0], false);
    RxAgrees(cfg, Start(cfg, s, m[0]), v.(frame := [m[0]]), m[1], false);
  }

  lemma WireBytes(m: seq<byte>)
    requires Ring.IsMessage(m)
    ensures Wire(m)[0] == m[0] && Wire(m)[1] == m[1] && Wire(m)[..|m|] == m
  {
  }

  /**
   The wire format of a message for this node, with room left, brings the receiver to the acknowledge phase with the
   whole message stored.
   */
  lemma ReceivesFrame(cfg: Config, s: Link, v: View, m: seq<byte>)
    requires Agrees(cfg, s, v) && AtStart(s) && Ring.IsMessage(m) && Addressed(cfg, m[1]) && Room(cfg, s.ring, m)
    ensures var r := Feed(cfg, s, Wire(m));
      && Agrees(cfg, r, v.(frame := Wire(m))) && Storing(r) && !r.status.transmission && !r.status.wrongCrc
      && r.dest == m[1] && r.mode == (if HighNibble(m[1]) == 0 then WaitAck else SendAck)
      && OnlyFrame(Ring.Wrap(cfg.size, s.ring, |m|), r.ring, |m|)
  {
    hide Ring.Wrap, Wire, HandleRx, Recipient, Room, Holds, Crc.AddByte, Feed, FrameStored, Crc.Accepts;
    OpensFrame(cfg, s, v, m);
    WireBytes(m);
    assert Wire(m) == [m[0], m[1]] + Wire(m)[2..];
    FeedTwo(cfg, s, m[0], m[1], Wire(m)[2..]);
    FeedStores(cfg, Recipient(cfg, Start(cfg, s, m[0]), m[1]), v.(frame := Wire(m)[..2]), m, 2);
    WireAccepted(m);
  }

  lemma WireAccepted(m: seq<byte>)
    ensures Crc.Accepts(Wire(m))
  {
    Crc.OwnCrcAccepted(m);
  }

  /**
   Frame round trip: the wire format of a unicast message, fed to an idle addressed receiver with room,
   makes it drive a positive acknowledge; once that is read back, exactly that message is in the queue.
   */
  lemma UnicastRoundTrip(cfg: Config, s: Link, v: View, m: seq<byte>)
    requires Agrees(cfg, s, v) && AtStart(s) && Ring.IsMessage(m) && Room(cfg, s.ring, m)
    requires HighNibble(m[1]) == cfg.node != 0
    ensures var t := HandleTx(cfg, Feed(cfg, s, Wire(m)), false, false);
      var ack := NodeBits(m[1]) + ACK_OK;
      && t.out == Some(ack) && t.link.mode == SendAck
      && Agrees(cfg, HandleRx(cfg, t.link, ack, false).link,
                View(v.queue + [m], Wire(m) + [ack], v.held))
  {
    hide Wire, Feed, Crc.Accepts, Tracks, Holds, Room, SafeReceiving, SafeSending;
    ReceivesFrame(cfg, s, v, m);
    var r := Feed(cfg, s, Wire(m));
    var v' := v.(frame := Wire(m));
    OtherAgrees(cfg, r, v', Tx(false, false));
    OwnAckDelivers(cfg, HandleTx(cfg, r, false, false).link, v', m);
  }

  lemma OwnAckDelivers(cfg: Config, t: Link, v: View, m: seq<byte>)
    requires Agrees(cfg, t, v) && t.mode.SendAck? && !t.status.transmission && Storing(t)
    requires Ring.IsMessage(m) && v.frame == Wire(m)
    ensures Agrees(cfg, HandleRx(cfg, t, t.counter, false).link, View(v.queue + [m], Wire(m) + [t.counter], v.held))
  {
    hide Wire, Crc.Accepts, Tracks, Holds, SafeReceiving, SafeSending, HandleRx;
    WireAccepted(m);
    WireStart(m, |Wire(m)|);
    assert Wire(m)[..|Wire(m)|] == Wire(m);
    RxAgrees(cfg, t, v, t.counter, false);
  }

  /**
   The same for a broadcast, which the sender acknowledges itself: any positive acknowledge
   puts the message into the queue, unless it is the power fail message.
   */
  lemma BroadcastRoundTrip(cfg: Config, s: Link, v: View, m: seq<byte>, ack: byte)
    requires Agrees(cfg, s, v) && AtStart(s) && Ring.IsMessage(m) && Room(cfg, s.ring, m)
    requires HighNibble(m[1]) == 0 && LowNibble(ack) == ACK_OK
    ensures var r := Feed(cfg, s, Wire(m));
      && r.mode == WaitAck
      && Agrees(cfg, HandleRx(cfg, r, ack, false).link,
                View(if IsPowerFail(m[2], m[3]) then v.queue else v.queue + [m], Wire(m) + [ack], v.held))
  {
    hide Wire, Feed, Crc.Accepts, Tracks, Holds, Room, SafeReceiving, SafeSending, HandleRx;
    ReceivesFrame(cfg, s, v, m);
    WireAccepted(m);
    WireStart(m, |Wire(m)|);
    assert Wire(m)[..|Wire(m)|] == Wire(m);
    assert Wire(m)[2] == m[2] && Wire(m)[3] == m[3] by {
      WireBytes(m);
      assert Wire(m)[2] == Wire(m)[..|m|][2] && Wire(m)[3] == Wire(m)[..|m|][3];
    }
    RxAgrees(cfg, Feed(cfg, s, Wire(m)), v.(frame := Wire(m)), ack, false);
  }

  // ---------------------------------------------------------------- agreement on the acknowledge

  /** The sender of a unicast frame waits for its acknowledge. */
  predicate AwaitsAck(s: Link, address: byte) {
    s.mode.WaitAck? && s.status.transmission && s.dest == address
  }

  /** The receiver of that frame has driven its acknowledge. */
  predicate DroveAck(r: Link, address: byte) {
    r.mode.SendAck? && !r.status.transmission && r.dest == address && r.counter == NodeBits(address) + Verdict(r)
  }

  /**
   Both ends see the same byte x in time. A receiver that takes the frame into its queue implies that
   the sender reports a positive acknowledge; and when x is the byte the receiver drove, a positive
   report implies that the receiver takes the frame.
   */
  lemma AckAgreement(cfg: Config, s: Link, cfg': Config, r: Link, v: View, address: byte, x: byte)
    requires Safe(cfg, s) && cfg.node < 16 && Agrees(cfg', r, v)
    requires HighNibble(address) == cfg'.node != 0
    requires AwaitsAck(s, address) && DroveAck(r, address)
    ensures var report := HandleRx(cfg, s, x, false).confirm;
      var taken := Observe(r, v, Rx(x, false)).queue == v.queue + [Body(v.frame)];
      && report.Some?
      && (taken ==> LowNibble(report.value) == ACK_OK)
      && (x == r.counter ==> (taken <==> LowNibble(report.value) == ACK_OK))
      && (!taken ==> Observe(r, v, Rx(x, false)).queue == v.queue)
  {
    hide Crc.Accepts, Holds;
  }

  /** The acknowledge driven by a receiver puts it into the state AckAgreement speaks about. */
  lemma DrivesAck(cfg: Config, r: Link, late: bool, silent: bool)
    requires Safe(cfg, r) && r.mode.SendAck? && !r.status.transmission
    ensures DroveAck(HandleTx(cfg, r, late, silent).link, r.dest)
  {
  }

  // ---------------------------------------------------------------- sender and receiver together

  /** What the node drives when an acknowledge is due. */
  function Answer(cfg: Config, s: Link): (r: Sent)
    requires Safe(cfg, s)
    ensures Safe(cfg, r.link)
  {
    HandleTx(cfg, s, false, false)
  }

  lemma AckReported(cfg: Config, s: Link, address: byte, ack: byte)
    requires Safe(cfg, s) && cfg.node < 16 && AwaitsAck(s, address) && ack == NodeBits(address) + ACK_OK
    ensures HandleRx(cfg, s, ack, false).confirm == Some(ack)
  {
  }

  /**
   Two nodes on one clean bus: the sender's transmit request succeeds, and what it puts on the bus is what both of them
   hear. Then the receiver drives a positive acknowledge, the sender reports exactly that one, and once the receiver has
   read it back the message is in its queue, byte for byte and behind all others.
   */
  lemma MessageArrives(cfg: Config, s: Link, m: seq<byte>, elapsed: bool, rxOngoing: bool, rxStarted: bool,
                       cfg': Config, r: Link, v: View)
    requires Safe(cfg, s) && cfg.node < 16 && Ring.IsMessage(m) && |m| <= 254
    requires Transmit(cfg, s, m, elapsed, rxOngoing, rxStarted).1
    requires Agrees(cfg', r, v) && AtStart(r) && Room(cfg', r.ring, m) && HighNibble(m[1]) == cfg'.node != 0
    ensures var (sender, bus) := Exchange(cfg, Transmit(cfg, s, m, elapsed, rxOngoing, rxStarted).0, Wire(m));
      var receiver := Answer(cfg', Feed(cfg', r, bus));
      && bus == Wire(m)
      && receiver.out == Some(NodeBits(m[1]) + ACK_OK)
      && HandleRx(cfg, sender, receiver.out.value, false).confirm == receiver.out
      && Agrees(cfg', HandleRx(cfg', receiver.link, receiver.out.value, false).link,
                View(v.queue + [m], bus + [receiver.out.value], v.held))
  {
    hide Exchange, Wire, Feed, Agrees, HandleRx, Transmit, HandleTx, Room, Safe;
    SendsFrame(cfg, s, m, elapsed, rxOngoing, rxStarted);
    UnicastRoundTrip(cfg', r, v, m);
    AckReported(cfg, Exchange(cfg, Transmit(cfg, s, m, elapsed, rxOngoing, rxStarted).0, Wire(m)).0, m[1],
                NodeBits(m[1]) + ACK_OK);
  }

  lemma OwnAckReported(cfg: Config, s: Link)
    requires Safe(cfg, s) && cfg.node < 16 && s.mode.SendAck? && s.dest == cfg.node * 16
    requires s.status == CLEAR.(transmission := true, broadcast := true)
    ensures var t := Answer(cfg, s);
      && t.out == Some(cfg.node * 16 + ACK_OK) && HandleRx(cfg, t.link, cfg.node * 16 + ACK_OK, false).confirm == t.out
  {
  }

  /** A broadcast, which the sender acknowledges itself, arrives in every such queue, but for the power fail message. */
  lemma BroadcastArrives(cfg: Config, s: Link, m: seq<byte>, elapsed: bool, rxOngoing: bool, rxStarted: bool,
                         cfg': Config, r: Link, v: View)
    requires Safe(cfg, s) && cfg.node < 16 && Ring.IsMessage(m) && |m| <= 254
    requires Transmit(cfg, s, m, elapsed, rxOngoing, rxStarted).1
    requires Agrees(cfg', r, v) && AtStart(r) && Room(cfg', r.ring, m) && HighNibble(m[1]) == 0
    ensures var (sender, bus) := Exchange(cfg, Transmit(cfg, s, m, elapsed, rxOngoing, rxStarted).0, Wire(m));
      var ack := Answer(cfg, sender);
      && bus == Wire(m)
      && ack.out.Some? && HandleRx(cfg, ack.link, ack.out.value, false).confirm == ack.out
      && Agrees(cfg', HandleRx(cfg', Feed(cfg', r, bus), ack.out.value, false).link,
                View(if IsPowerFail(m[2], m[3]) then v.queue else v.queue + [m], bus + [ack.out.value], v.held))
  {
    hide Exchange, Wire, Feed, Agrees, HandleRx, Transmit, HandleTx, Room, Safe;
    SendsFrame(cfg, s, m, elapsed, rxOngoing, rxStarted);
    OwnAckReported(cfg, Exchange(cfg, Transmit(cfg, s, m, elapsed, rxOngoing, rxStarted).0, Wire(m)).0);
    BroadcastRoundTrip(cfg', r, v, m, cfg.node * 16 + ACK_OK);
  }
}
