/**
 The input ring buffer, driven by the link layer, is a FIFO of received frames:
 for every interleaving of handler steps and reader calls.
 */
module LinkFifo {
  import opened Bytes
  import Crc
  import Ring
  import opened Link

  datatype Event =
    | Rx(b: byte, late: bool)
    | Tx(late: bool, silent: bool)
    | Task(late: bool, idle: bool)
    | Send(m: seq<byte>, elapsed: bool, rxOngoing: bool, rxStarted: bool)
    | Disconnect
    | Reconnect
    | Take
    | Release

  /** What an observer of the bus and of the reader expects to be in the buffer. */
  datatype View = View(queue: seq<seq<byte>>, frame: seq<byte>, held: bool)

  // ---------------------------------------------------------------- the concrete step

  function Step(cfg: Config, s: Link, e: Event): (r: Link)
    requires Safe(cfg, s) && cfg.node < 16 && Possible(s, e)
    ensures SafeRing(cfg, r.ring)
  {
    match e
    case Rx(b, late) => HandleRx(cfg, s, b, late).link
    case Tx(late, silent) => HandleTx(cfg, s, late, silent).link
    case Task(late, idle) => HandleTask(cfg, s, late, idle).link
    case Send(m, elapsed, rxOngoing, rxStarted) => Transmit(cfg, s, m, elapsed, rxOngoing, rxStarted).0
    case Disconnect => GoOffline(s)
    case Reconnect => GoOnline(s)
    case Take => s.(ring := Ring.Receive(cfg.size, s.ring).0)
    case Release => s.(ring := ReleaseRing(cfg, s.ring))
  }

  function ReleaseRing(cfg: Config, r: Ring.Ring): (q: Ring.Ring)
    requires SafeRing(cfg, r)
    ensures SafeRing(cfg, q)
  {
    Ring.Release(cfg.size, r)
  }

  predicate Possible(s: Link, e: Event) {
    match e
    case Send(m, _, _, _) => Ring.IsMessage(m) && |m| <= 254
    case _ => true
  }

  // ---------------------------------------------------------------- the observer

  /**
   This byte is the first of a frame: nothing was under way, or it comes too late for anything but a due acknowledge.
   */
  predicate Starts(s: Link, late: bool) {
    && !s.mode.Offline?
    && (s.mode.Idle? || s.mode.Init? || (late && !(s.mode.SendAck? && !s.status.transmission)))
  }

  /** The byte acknowledges a frame for this node whose CRC is right and that met no overflow. */
  predicate Confirms(t: Link, frame: seq<byte>, b: byte) {
    && !t.status.transmission && Storing(t) && |frame| >= 4 && Crc.Accepts(frame)
    && ((t.mode.SendAck? && (b == t.counter || t.counter == ACK_OK))
        || (t.mode.WaitAck? && LowNibble(b) == ACK_OK && !IsPowerFail(frame[2], frame[3])))
  }

  predicate Delivers(s: Link, frame: seq<byte>, b: byte, late: bool) {
    Confirms(s, frame, b) && (late ==> s.mode.SendAck?)
  }

  /** Bytes of a frame before its CRC, as its length byte announces them. */
  function Announced(frame: seq<byte>): nat
    requires |frame| > 0
  {
    frame[0] as int + 2
  }

  /** A frame, or the part of it heard so far, without its CRC. */
  function Body(frame: seq<byte>): seq<byte> {
    if |frame| > 0 && |frame| > Announced(frame) then frame[..Announced(frame)] else frame
  }

  function Observe(s: Link, v: View, e: Event): View {
    match e
    case Rx(b, late) =>
      View(if Delivers(s, v.frame, b, late) then v.queue + [Body(v.frame)] else v.queue,
           if Starts(s, late) then [b] else v.frame + [b], v.held)
    case Take => v.(held := v.queue != [])
    case Release => v.(queue := if v.queue == [] then [] else v.queue[1..], held := false)
    case _ => v
  }

  // ---------------------------------------------------------------- the relation

  ghost predicate FrameStored(n: nat, r: Ring.Ring, crc: bv16, rxHigh: byte, frame: seq<byte>)
    requires |frame| > 0
  {
    && Ring.Partial(n, r, Body(frame))
    && r.wr + Announced(frame) <= n
    && crc == Crc.Over(Crc.DLL_INIT, Body(frame))
    && (|frame| > Announced(frame) ==> rxHigh == frame[Announced(frame)])
  }

  /** The receiver state agrees with the bytes heard since the start of the frame. */
  ghost predicate Tracks(cfg: Config, s: Link, frame: seq<byte>) {
    && (s.mode.GetRecipient? ==>
          |frame| == 1 && 2 <= frame[0] && s.counter == Low8(Announced(frame))
          && s.crc == Crc.Over(Crc.DLL_INIT, frame))
    && (s.mode.Receiving? && s.status.mine ==>
          |frame| >= 2 && 2 <= frame[0]
          && (frame[0] <= MAX_LENGTH ==> s.counter >= 1 && s.counter as int + |frame| == Announced(frame) + 2)
          && (Storing(s) ==> frame[0] <= MAX_LENGTH && FrameStored(cfg.size, s.ring, s.crc, s.rxHigh, frame)))
    && ((s.mode.SendAck? || s.mode.WaitAck?) && !s.status.transmission ==>
          |frame| >= 1 && 2 <= frame[0] && (frame[0] <= MAX_LENGTH ==> |frame| == Announced(frame) + 2)
          && (Storing(s) ==>
                frame[0] <= MAX_LENGTH && Ring.Partial(cfg.size, s.ring, Body(frame))
                && (s.status.wrongCrc <==> !Crc.Accepts(frame))))
  }

  /** The chunks cs in the buffer are the observer's queue, and a held message is still its head. */
  ghost predicate Holds(cfg: Config, s: Link, v: View, cs: seq<Ring.Chunk>) {
    && Ring.Stores(cfg.size, s.ring, cs) && Ring.Messages(cs) == v.queue
    && (v.held ==> cs != [] && cs[0].Message? && s.ring.taken == cs[0].bytes[0])
  }

  ghost predicate Agrees(cfg: Config, s: Link, v: View) {
    && Safe(cfg, s) && cfg.node < 16 && Tracks(cfg, s, v.frame)
    && exists cs :: Holds(cfg, s, v, cs)
  }

  /** The event keeps to the documented bounds: no wrap of an exactly full buffer, one release per message. */
  predicate Allowed(cfg: Config, s: Link, v: View, e: Event)
    requires Safe(cfg, s)
  {
    && Possible(s, e)
    && (e.Rx? ==>
          var t := Before(s, e.late).link;
          t.mode.GetRecipient? && Addressed(cfg, e.b) && !t.status.overflow ==>
            !Ring.Hazard(cfg.size, t.ring, t.counter))
    && (e.Release? ==> v.held)
  }

  // ---------------------------------------------------------------- the receive handler, mode by mode

  lemma StartTracks(cfg: Config, s: Link, b: byte)
    requires Safe(cfg, s) && AtStart(s)
    ensures Tracks(cfg, Start(cfg, s, b), [b]) && Start(cfg, s, b).ring == s.ring
  {
  }

  /** The chunks stored after the address byte. */
  ghost function RecipientChunks(cfg: Config, s: Link, b: byte, cs: seq<Ring.Chunk>): seq<Ring.Chunk>
    requires s.ring.wr <= cfg.size
  {
    if Addressed(cfg, b) && !s.status.overflow then cs + Ring.WrapChunks(cfg.size, s.ring, s.counter) else cs
  }

  lemma RecipientTracks(cfg: Config, s: Link, v: View, b: byte, cs: seq<Ring.Chunk>)
    requires Safe(cfg, s) && s.mode.GetRecipient? && Tracks(cfg, s, v.frame) && Holds(cfg, s, v, cs)
    requires Addressed(cfg, b) && !s.status.overflow ==> !Ring.Hazard(cfg.size, s.ring, s.counter)
    ensures var r := Recipient(cfg, s, b);
      Tracks(cfg, r, v.frame + [b]) && Holds(cfg, r, v, RecipientChunks(cfg, s, b, cs))
  {
    hide Crc.AddByte, Ring.Stores, Ring.Messages, Ring.Hazard, Ring.Begin;
    if Addressed(cfg, b) && !s.status.overflow {
      Ring.BeginStores(cfg.size, s.ring, cs, s.counter, b);
      BeginTaken(cfg, s.ring, s.counter, b);
      assert s.counter >= 4 ==> v.frame + [b] == [s.counter - 2, b];
      Crc.OverAppend(Crc.DLL_INIT, v.frame, b);
    }
  }

  lemma BeginTaken(cfg: Config, r: Ring.Ring, counter: byte, b: byte)
    requires SafeRing(cfg, r) && (counter <= 1 || 4 <= counter <= cfg.size)
    ensures Ring.Begin(cfg.size, r, counter, b).0.taken == r.taken
  {
  }

  lemma DataByteTracks(cfg: Config, s: Link, v: View, b: byte, cs: seq<Ring.Chunk>)
    requires Safe(cfg, s) && s.mode.Receiving? && Tracks(cfg, s, v.frame) && Holds(cfg, s, v, cs)
    requires Storing(s) && s.counter > 2
    ensures var r := Receive(cfg, s, b);
      Tracks(cfg, r, v.frame + [b]) && Holds(cfg, r, v, cs)
  {
    hide Crc.AddByte, Crc.Word, Ring.Stores, Ring.Messages;
    var frame := v.frame;
    assert Body(frame + [b]) == Body(frame) + [b];
    Ring.PutStores(cfg.size, s.ring, cs, Body(frame), b);
    Crc.OverAppend(Crc.DLL_INIT, Body(frame), b);
  }

  lemma CrcByteTracks(cfg: Config, s: Link, v: View, b: byte, cs: seq<Ring.Chunk>)
    requires Safe(cfg, s) && s.mode.Receiving? && Tracks(cfg, s, v.frame) && Holds(cfg, s, v, cs)
    requires Storing(s) && s.counter <= 2
    ensures var r := Receive(cfg, s, b);
      Tracks(cfg, r, v.frame + [b]) && Holds(cfg, r, v, cs)
  {
    hide Crc.AddByte, Crc.Word, Ring.Stores, Ring.Messages, Ring.Put, Ring.Partial;
    var frame := v.frame;
    assert Body(frame + [b]) == Body(frame);
    assert s.counter == 1 ==> (frame + [b])[..|frame| - 1] == Body(frame);
  }

  lemma ReceiveTracks(cfg: Config, s: Link, v: View, b: byte, cs: seq<Ring.Chunk>)
    requires Safe(cfg, s) && s.mode.Receiving? && Tracks(cfg, s, v.frame) && Holds(cfg, s, v, cs)
    ensures var r := Receive(cfg, s, b);
      Tracks(cfg, r, v.frame + [b]) && Holds(cfg, r, v, cs)
  {
    hide Crc.AddByte, Crc.Word, Ring.Stores, Ring.Messages, Ring.Put, Ring.Partial;
    if Storing(s) {
      if s.counter > 2 {
        DataByteTracks(cfg, s, v, b, cs);
      } else {
        CrcByteTracks(cfg, s, v, b, cs);
      }
    }
  }

  lemma CommitHolds(cfg: Config, s: Link, v: View, cs: seq<Ring.Chunk>)
    requires Safe(cfg, s) && Holds(cfg, s, v, cs) && |v.frame| >= 1 && 2 <= v.frame[0] <= MAX_LENGTH
    requires |v.frame| == Announced(v.frame) + 2 && Ring.Partial(cfg.size, s.ring, Body(v.frame))
    ensures Holds(cfg, s.(ring := CommitRing(cfg, s.ring)), v.(queue := v.queue + [Body(v.frame)]),
                  cs + [Ring.Message(Body(v.frame))])
  {
    hide Ring.Stores, Ring.Messages;
    Ring.CommitStores(cfg.size, s.ring, cs, Body(v.frame));
  }

  /** The chunks stored after an acknowledge. */
  ghost function AckChunks(s: Link, v: View, b: byte, cs: seq<Ring.Chunk>): seq<Ring.Chunk> {
    if Confirms(s, v.frame, b) then cs + [Ring.Message(Body(v.frame))] else cs
  }

  function AckView(s: Link, v: View, b: byte): View {
    v.(queue := if Confirms(s, v.frame, b) then v.queue + [Body(v.frame)] else v.queue)
  }

  lemma OwnAckHolds(cfg: Config, s: Link, v: View, b: byte, cs: seq<Ring.Chunk>)
    requires Safe(cfg, s) && s.mode.SendAck? && cfg.node < 16
    requires Tracks(cfg, s, v.frame) && Holds(cfg, s, v, cs)
    ensures var r := OwnAck(cfg, s, b).link;
      r.mode.Idle? && Holds(cfg, r, AckView(s, v, b), AckChunks(s, v, b, cs))
  {
    hide Ring.Stores, Ring.Messages, Crc.Accepts, CommitRing;
    if Confirms(s, v.frame, b) {
      CommitHolds(cfg, s, v, cs);
    }
  }

  lemma AckSeenHolds(cfg: Config, s: Link, v: View, b: byte, cs: seq<Ring.Chunk>)
    requires Safe(cfg, s) && s.mode.WaitAck? && Tracks(cfg, s, v.frame) && Holds(cfg, s, v, cs)
    ensures var r := AckSeen(cfg, s, b).link;
      r.mode.Idle? && Holds(cfg, r, AckView(s, v, b), AckChunks(s, v, b, cs))
  {
    hide Ring.Messages, Crc.Accepts, CommitRing, Ring.Laid, Ring.Total, Ring.End;
    if !s.status.transmission && Storing(s) {
      var m := Body(v.frame);
      assert s.ring.buf[s.ring.wr + 2] == s.ring.buf[s.ring.wr..s.ring.wr + |m|][2] == v.frame[2];
      assert s.ring.buf[s.ring.wr + 3] == s.ring.buf[s.ring.wr..s.ring.wr + |m|][3] == v.frame[3];
      if Confirms(s, v.frame, b) {
        CommitHolds(cfg, s, v, cs);
      }
    }
  }

  // ---------------------------------------------------------------- whole steps and whole runs

  lemma BeforeAgrees(cfg: Config, s: Link, v: View, late: bool, cs: seq<Ring.Chunk>)
    requires Safe(cfg, s) && Tracks(cfg, s, v.frame) && Holds(cfg, s, v, cs)
    ensures var t := Before(s, late).link;
      Safe(cfg, t) && Tracks(cfg, t, v.frame) && Holds(cfg, t, v, cs)
  {
    hide Ring.Stores, Ring.Messages, FrameStored, Crc.Accepts;
  }

  lemma RxAgrees(cfg: Config, s: Link, v: View, b: byte, late: bool)
    requires Agrees(cfg, s, v) && Allowed(cfg, s, v, Rx(b, late))
    ensures Agrees(cfg, HandleRx(cfg, s, b, late).link, Observe(s, v, Rx(b, late)))
  {
    hide Ring.Messages, Ring.Stores, Ring.Hazard, FrameStored, Crc.Accepts, CommitRing, SafeReceiving, SafeSending,
         SafeAck, Start, Recipient, Receive, Echo, OwnAck, AckSeen;
    var cs :| Holds(cfg, s, v, cs);
    var t := Before(s, late).link;
    var r := HandleRx(cfg, s, b, late).link;
    var v' := Observe(s, v, Rx(b, late));
    if s.mode.Offline? {
      assert Holds(cfg, r, v', cs);
    } else {
      BeforeAgrees(cfg, s, v, late, cs);
      if t.mode.GetRecipient? {
        RecipientTracks(cfg, t, v, b, cs);
        assert Holds(cfg, r, v', RecipientChunks(cfg, t, b, cs));
      } else if t.mode.Receiving? {
        ReceiveTracks(cfg, t, v, b, cs);
        assert Holds(cfg, r, v', cs);
      } else if t.mode.Sending? {
        EchoKeeps(cfg, t, b);
        assert Holds(cfg, r, v', cs);
      } else if t.mode.SendAck? {
        OwnAckHolds(cfg, t, v, b, cs);
        assert Holds(cfg, r, v', AckChunks(t, v, b, cs));
      } else if t.mode.WaitAck? {
        AckSeenHolds(cfg, t, v, b, cs);
        assert Holds(cfg, r, v', AckChunks(t, v, b, cs));
      } else {
        StartTracks(cfg, t, b);
        assert Holds(cfg, r, v', cs);
      }
    }
  }

  lemma EchoKeeps(cfg: Config, s: Link, b: byte)
    requires Safe(cfg, s) && s.mode.Sending? && cfg.node < 16
    ensures var r := Echo(cfg, s, b).link; r.ring == s.ring && Tracks(cfg, r, [])
    ensures var r := Echo(cfg, s, b).link; r.mode.Idle? || r.status.transmission
  {
    hide Crc.High, Crc.Low;
  }

  /** Reader calls do not disturb the frame being stored. */
  lemma ReaderKeepsFrame(cfg: Config, s: Link, frame: seq<byte>, ring: Ring.Ring)
    requires Safe(cfg, s) && SafeRing(cfg, ring) && Tracks(cfg, s, frame)
    requires ring.buf == s.ring.buf && ring.wr == s.ring.wr && ring.off == s.ring.off && ring.count <= s.ring.count
    ensures Safe(cfg, s.(ring := ring)) && Tracks(cfg, s.(ring := ring), frame)
  {
    hide Crc.Accepts, Crc.Over;
  }

  lemma TakeAgrees(cfg: Config, s: Link, v: View)
    requires Agrees(cfg, s, v)
    ensures Agrees(cfg, Step(cfg, s, Take), Observe(s, v, Take))
  {
    hide Ring.Messages, Ring.Stores, FrameStored, Crc.Accepts;
    var cs :| Holds(cfg, s, v, cs);
    Ring.ReceiveStores(cfg.size, s.ring, cs);
    ReaderKeepsFrame(cfg, s, v.frame, Ring.Receive(cfg.size, s.ring).0);
    assert Holds(cfg, Step(cfg, s, Take), Observe(s, v, Take), Ring.Skip(cs));
  }

  lemma ReleaseAgrees(cfg: Config, s: Link, v: View)
    requires Agrees(cfg, s, v) && v.held
    ensures v.queue != [] && Agrees(cfg, Step(cfg, s, Release), Observe(s, v, Release))
  {
    hide Ring.Messages, Ring.Stores, FrameStored, Crc.Accepts;
    var cs :| Holds(cfg, s, v, cs);
    Ring.ReleaseStores(cfg.size, s.ring, cs);
    ReaderKeepsFrame(cfg, s, v.frame, ReleaseRing(cfg, s.ring));
    assert Holds(cfg, Step(cfg, s, Release), Observe(s, v, Release), cs[1..]);
  }

  lemma TxTracks(cfg: Config, s: Link, frame: seq<byte>, late: bool, silent: bool)
    requires Safe(cfg, s) && Tracks(cfg, s, frame)
    ensures Tracks(cfg, HandleTx(cfg, s, late, silent).link, frame)
    ensures HandleTx(cfg, s, late, silent).link.ring == s.ring
  {
    hide FrameStored, Crc.Accepts, Crc.AddByte, Crc.High, Crc.Low, Ring.Partial;
  }

  lemma TaskTracks(cfg: Config, s: Link, frame: seq<byte>, late: bool, idle: bool)
    requires Safe(cfg, s) && Tracks(cfg, s, frame)
    ensures Tracks(cfg, HandleTask(cfg, s, late, idle).link, frame)
    ensures HandleTask(cfg, s, late, idle).link.ring == s.ring
  {
    hide FrameStored, Crc.Accepts, Ring.Partial;
  }

  lemma SendTracks(cfg: Config, s: Link, frame: seq<byte>, m: seq<byte>, elapsed: bool, rxOngoing: bool,
                   rxStarted: bool)
    requires Safe(cfg, s) && Tracks(cfg, s, frame) && Ring.IsMessage(m) && |m| <= 254
    ensures var r := Transmit(cfg, s, m, elapsed, rxOngoing, rxStarted).0;
      Tracks(cfg, r, frame) && r.ring == s.ring
  {
    hide FrameStored, Crc.Accepts, Ring.Partial;
  }

  lemma OtherAgrees(cfg: Config, s: Link, v: View, e: Event)
    requires Agrees(cfg, s, v) && Possible(s, e) && !e.Rx? && !e.Take? && !e.Release?
    ensures Agrees(cfg, Step(cfg, s, e), Observe(s, v, e))
  {
    hide Ring.Messages, Ring.Stores, FrameStored, Crc.Accepts, SafeReceiving, SafeSending, SafeAck,
      HandleTx, HandleTask, Transmit;
    var cs :| Holds(cfg, s, v, cs);
    match e {
      case Tx(late, silent) => TxTracks(cfg, s, v.frame, late, silent);
      case Task(late, idle) => TaskTracks(cfg, s, v.frame, late, idle);
      case Send(m, elapsed, rxOngoing, rxStarted) => SendTracks(cfg, s, v.frame, m, elapsed, rxOngoing, rxStarted);
      case Disconnect =>
      case Reconnect =>
    }
    assert Holds(cfg, Step(cfg, s, e), v, cs);
  }

  /** Every allowed step keeps buffer and observer in agreement. */
  lemma StepAgrees(cfg: Config, s: Link, v: View, e: Event)
    requires Agrees(cfg, s, v) && Allowed(cfg, s, v, e)
    ensures Agrees(cfg, Step(cfg, s, e), Observe(s, v, e))
  {
    hide Agrees, Observe, HandleRx;
    match e
    case Rx(b, late) => RxAgrees(cfg, s, v, b, late);
    case Take => TakeAgrees(cfg, s, v);
    case Release => ReleaseAgrees(cfg, s, v);
    case _ => OtherAgrees(cfg, s, v, e);
  }

  /** The driver after reset: empty buffer, not yet initialised. */
  function Reset(cfg: Config): (s: Link)
    requires Ring.Length(cfg.size)
  {
    Link(Init, CLEAR, 0, Ring.Ring(seq(cfg.size, _ => 0), 0, 0, 0, 0, 0), Crc.DLL_INIT, 0, 0, [], 0, 0, 0, false)
  }

  const NOTHING := View([], [], false)

  /** All events of the run are allowed when they happen. */
  ghost predicate Legal(cfg: Config, s: Link, v: View, es: seq<Event>)
    requires Agrees(cfg, s, v)
    decreases |es|
  {
    es == [] ||
    (Allowed(cfg, s, v, es[0]) &&
     (StepAgrees(cfg, s, v, es[0]); Legal(cfg, Step(cfg, s, es[0]), Observe(s, v, es[0]), es[1..])))
  }

  /** Driver and observer after the run. */
  ghost function Run(cfg: Config, s: Link, v: View, es: seq<Event>): (r: (Link, View))
    requires Agrees(cfg, s, v) && Legal(cfg, s, v, es)
    ensures Agrees(cfg, r.0, r.1)
    decreases |es|
  {
    if es == [] then (s, v)
    else
      StepAgrees(cfg, s, v, es[0]);
      Run(cfg, Step(cfg, s, es[0]), Observe(s, v, es[0]), es[1..])
  }

  lemma ResetAgrees(cfg: Config)
    requires Ring.Length(cfg.size) && cfg.node < 16
    ensures Agrees(cfg, Reset(cfg), NOTHING)
  {
    assert Holds(cfg, Reset(cfg), NOTHING, []);
  }

  /** The message at offset rd of the buffer, as long as its length byte says. */
  function Returned(cfg: Config, r: Ring.Ring): seq<byte>
    requires SafeRing(cfg, r)
  {
    var end := r.rd as int + r.buf[r.rd] as int + 2;
    if end <= cfg.size then r.buf[r.rd..end] else []
  }

  /** In agreement, the reader gets exactly the oldest delivered frame, or nothing when there is none. */
  lemma TakeReturnsOldest(cfg: Config, s: Link, v: View)
    requires Agrees(cfg, s, v)
    ensures var (ring, found) := Ring.Receive(cfg.size, s.ring);
      && (found <==> v.queue != [])
      && (found ==> SafeRing(cfg, ring) && Returned(cfg, ring) == v.queue[0])
  {
    hide Ring.Stores, Ring.Messages, Tracks;
    var cs :| Holds(cfg, s, v, cs);
    Ring.ReceiveStores(cfg.size, s.ring, cs);
    var (ring, found) := Ring.Receive(cfg.size, s.ring);
    if found {
      var m := v.queue[0];
      Ring.HeadMessage(cfg.size, ring, Ring.Skip(cs));
    }
  }

  /**
   For every run from reset, the message returned next is the oldest one delivered and not released, byte for byte.
   */
  lemma FifoOverRuns(cfg: Config, es: seq<Event>)
    requires Ring.Length(cfg.size) && cfg.node < 16
    requires (ResetAgrees(cfg); Legal(cfg, Reset(cfg), NOTHING, es))
    ensures (ResetAgrees(cfg);
             var (s, v) := Run(cfg, Reset(cfg), NOTHING, es);
             var (ring, found) := Ring.Receive(cfg.size, s.ring);
             && (found <==> v.queue != [])
             && (found ==> SafeRing(cfg, ring) && Returned(cfg, ring) == v.queue[0]))
  {
    ResetAgrees(cfg);
    var (s, v) := Run(cfg, Reset(cfg), NOTHING, es);
    TakeReturnsOldest(cfg, s, v);
  }
}
