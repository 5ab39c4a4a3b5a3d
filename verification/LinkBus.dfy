/**
 What an observer of the bus knows of a node from the bytes, the gaps between them, and the node's answers to its own
 users: where frames start and end, whose they are, and which of them the node has taken.
 */
module LinkBus {
  import opened Bytes
  import Crc
  import Ring
  import opened Link
  import opened LinkFifo
  import opened LinkFrames

  /**
   heard: the bytes of the frame under way, if there is one, sending: this node sends it, attached: the node is online;
   queue and held: the frames taken and not yet released, and whether the reader has been given the first of them.
   */
  datatype Bus = Bus(heard: Option<seq<byte>>, sending: bool, attached: bool, queue: seq<seq<byte>>, held: bool)

  /** What the node answers: whether a transmit request succeeded, and whether a transmission has been reported on. */
  datatype Answer = Answer(started: bool, reported: bool)

  function AnswerOf(cfg: Config, s: Link, e: Event): Answer
    requires Safe(cfg, s) && cfg.node < 16 && Possible(s, e)
  {
    match e
    case Rx(b, late) => Answer(false, HandleRx(cfg, s, b, late).confirm.Some?)
    case Task(late, idle) => Answer(false, HandleTask(cfg, s, late, idle).confirm.Some?)
    case Send(m, elapsed, rxOngoing, rxStarted) => Answer(Transmit(cfg, s, m, elapsed, rxOngoing, rxStarted).1, false)
    case _ => Answer(false, false)
  }

  /** Node addresses and broadcasts, by the high nibble of the address byte. */
  predicate ForNode(cfg: Config, f: seq<byte>) {
    |f| >= 2 && (f[1] < 16 || f[1] / 16 == cfg.node)
  }

  /** Bytes of a frame up to its acknowledge, or with it for a frame for somebody else, as the 8-bit counter has it. */
  function UpToAck(cfg: Config, f: seq<byte>): nat
    requires |f| >= 2
  {
    var n := f[0] as int + if ForNode(cfg, f) then 2 else 3;
    2 + if n <= 256 then n else n - 256
  }

  /** A frame for this node of which only the acknowledge is missing. */
  predicate Complete(cfg: Config, bus: Bus) {
    && bus.heard.Some? && !bus.sending
    && var f := bus.heard.value;
      ForNode(cfg, f) && f[0] >= 2 && |f| == UpToAck(cfg, f)
  }

  /** The node owes the acknowledge; a broadcast is acknowledged by its sender. */
  predicate Owes(cfg: Config, bus: Bus) {
    Complete(cfg, bus) && bus.heard.value[1] >= 16
  }

  /** A frame of another node has been heard to its end. */
  predicate Over(cfg: Config, f: seq<byte>) {
    |f| >= 2 && f[0] >= 2 && |f| == UpToAck(cfg, f) + if ForNode(cfg, f) then 1 else 0
  }

  /**
   The byte is the first one of a frame: none was under way, or it comes after a gap, except while the node owes the
   acknowledge.
   */
  predicate First(cfg: Config, bus: Bus, late: bool) {
    bus.heard.None? || (late && !Owes(cfg, bus))
  }

  /**
   The byte makes the node take the frame: it acknowledges a complete frame with the right CRC for which there was room;
   driven is the acknowledge the node has driven.
   */
  predicate Takes(cfg: Config, bus: Bus, room: bool, driven: byte, b: byte, late: bool) {
    && bus.attached && Complete(cfg, bus) && room
    && var f := bus.heard.value;
      && |f| >= 4 && Crc.Accepts(f)
      && (if Owes(cfg, bus) then b == driven || driven == 0xA
          else !late && b % 16 == 0xA && !(f[2] == 0xF3 && f[3] == 0x10))
  }

  /** Where the frame under way is after a byte. */
  function Hearing(cfg: Config, bus: Bus, b: byte, late: bool, reported: bool): Bus {
    if First(cfg, bus, late) then bus.(heard := Some([b]), sending := false)
    else
      var f := bus.heard.value + [b];
      if (if bus.sending then reported else Over(cfg, f)) then bus.(heard := None, sending := false)
      else bus.(heard := Some(f))
  }

  /**
   Where it is after a transmit request: one that succeeds starts a frame, and one made in the middle of another's
   drops that.
   */
  function Requested(cfg: Config, bus: Bus, started: bool, elapsed: bool): Bus {
    if started then bus.(heard := Some([]), sending := true)
    else if elapsed && bus.heard.Some? && !bus.sending && !Complete(cfg, bus) then bus.(heard := None)
    else bus
  }

  function ObserveBus(cfg: Config, bus: Bus, room: bool, driven: byte, e: Event, answer: Answer): Bus {
    match e
    case Rx(b, late) =>
      if !bus.attached then bus
      else
        Hearing(cfg, bus, b, late, answer.reported)
        .(queue := if Takes(cfg, bus, room, driven, b, late)
                   then bus.queue + [bus.heard.value[..|bus.heard.value| - 2]] else bus.queue)
    case Task(late, _) => if bus.attached && late then bus.(heard := None, sending := false) else bus
    case Send(_, elapsed, _, _) => if bus.attached then Requested(cfg, bus, answer.started, elapsed) else bus
    case Disconnect => bus.(heard := None, sending := false, attached := false)
    case Reconnect => bus.(heard := None, sending := false, attached := true)
    case Take => bus.(held := bus.queue != [])
    case Release => bus.(queue := if bus.queue == [] then [] else bus.queue[1..], held := false)
    case Tx(_, _) => bus
  }

  // ---------------------------------------------------------------- the node follows the bus

  /** The node's state is where the observer sees it. */
  predicate Follows(cfg: Config, s: Link, bus: Bus) {
    && (bus.attached <==> !s.mode.Offline?)
    && (bus.heard.None? <==> s.mode.Offline? || s.mode.Idle? || s.mode.Init?)
    && (bus.sending ==>
          bus.heard.Some? && s.status.transmission && (s.mode.Sending? || s.mode.SendAck? || s.mode.WaitAck?))
    && (bus.heard.Some? && !bus.sending ==> Receives(cfg, s, bus.heard.value))
  }

  predicate Receives(cfg: Config, s: Link, f: seq<byte>) {
    && !s.status.transmission && f != []
    && (if f[0] < 2 then s.mode.Receiving? && s.status.dbus3 && !s.status.mine
        else if |f| == 1 then s.mode.GetRecipient? && s.counter == Low8(f[0] as int + 2)
        else if |f| < UpToAck(cfg, f) then
          && s.mode.Receiving? && !s.status.dbus3 && Remaining(s) == UpToAck(cfg, f) - |f|
          && (s.status.mine <==> ForNode(cfg, f)) && (ForNode(cfg, f) ==> (s.status.broadcast <==> f[1] < 16))
        else
          |f| == UpToAck(cfg, f) && ForNode(cfg, f) && s.mode == if f[1] < 16 then WaitAck else SendAck)
  }

  lemma ReceivesMore(cfg: Config, s: Link, f: seq<byte>, b: byte)
    requires Safe(cfg, s) && cfg.node < 16 && Receives(cfg, s, f)
    ensures var r := HandleRx(cfg, s, b, false);
      if Over(cfg, f + [b]) then r.link.mode == Idle else Receives(cfg, r.link, f + [b])
  {
    hide Crc.AddByte, Crc.Word, Ring.Put, Ring.Begin;
  }

  lemma StartsReceiving(cfg: Config, s: Link, b: byte)
    requires Safe(cfg, s) && cfg.node < 16 && AtStart(s)
    ensures var r := HandleRx(cfg, s, b, false);
      r.confirm.None? && Receives(cfg, r.link, [b]) && r.link.ring == s.ring
  {
  }

  lemma SendsMore(cfg: Config, s: Link, b: byte)
    requires Safe(cfg, s) && cfg.node < 16 && s.status.transmission
    requires s.mode.Sending? || s.mode.SendAck? || s.mode.WaitAck?
    ensures var r := HandleRx(cfg, s, b, false);
      if r.confirm.Some? then r.link.mode == Idle
      else r.link.status.transmission && (r.link.mode.Sending? || r.link.mode.SendAck? || r.link.mode.WaitAck?)
  {
  }

  /** After a gap the byte is the first of a frame, wherever the node was, unless it owes an acknowledge. */
  lemma GapStarts(cfg: Config, s: Link, bus: Bus, b: byte)
    requires Safe(cfg, s) && cfg.node < 16 && Follows(cfg, s, bus) && bus.attached && First(cfg, bus, true)
    ensures Receives(cfg, HandleRx(cfg, s, b, true).link, [b])
  {
  }

  lemma OwesIsSendAck(cfg: Config, s: Link, bus: Bus)
    requires Follows(cfg, s, bus)
    ensures Owes(cfg, bus) <==> bus.attached && s.mode.SendAck? && !s.status.transmission
    ensures Complete(cfg, bus) && !Owes(cfg, bus) <==> bus.attached && s.mode.WaitAck? && !s.status.transmission
  {
  }

  lemma FollowsRx(cfg: Config, s: Link, bus: Bus, b: byte, late: bool)
    requires Safe(cfg, s) && cfg.node < 16 && Follows(cfg, s, bus) && bus.attached
    ensures var r := HandleRx(cfg, s, b, late);
      Follows(cfg, r.link, Hearing(cfg, bus, b, late, r.confirm.Some?))
  {
    hide HandleRx, Receives, Owes, Complete, Over;
    OwesIsSendAck(cfg, s, bus);
    ModeKept(cfg, s, b, late);
    if First(cfg, bus, late) {
      if late {
        GapStarts(cfg, s, bus, b);
      } else {
        StartsReceiving(cfg, s, b);
      }
      ReceivesMode(cfg, HandleRx(cfg, s, b, late).link, [b]);
    } else {
      if late {
        SameLate(cfg, s, b);
      }
      if bus.sending {
        SendsMore(cfg, s, b);
      } else {
        ReceivesMore(cfg, s, bus.heard.value, b);
        if !Over(cfg, bus.heard.value + [b]) {
          ReceivesMode(cfg, HandleRx(cfg, s, b, false).link, bus.heard.value + [b]);
        }
      }
    }
  }

  lemma SameLate(cfg: Config, s: Link, b: byte)
    requires Safe(cfg, s) && cfg.node < 16 && s.mode.SendAck? && !s.status.transmission
    ensures HandleRx(cfg, s, b, true) == HandleRx(cfg, s, b, false)
  {
  }

  lemma ReceivesMode(cfg: Config, s: Link, f: seq<byte>)
    requires Receives(cfg, s, f)
    ensures !s.mode.Offline? && !s.mode.Idle? && !s.mode.Init? && !s.status.transmission
  {
  }

  lemma ModeKept(cfg: Config, s: Link, b: byte, late: bool)
    requires Safe(cfg, s) && cfg.node < 16 && !s.mode.Offline?
    ensures !HandleRx(cfg, s, b, late).link.mode.Offline?
  {
    hide Crc.AddByte, Crc.Word, Ring.Put, Ring.Begin;
  }

  lemma FollowsSend(cfg: Config, s: Link, bus: Bus, e: Event, room: bool, driven: byte)
    requires Safe(cfg, s) && cfg.node < 16 && Follows(cfg, s, bus) && Possible(s, e) && e.Send?
    ensures Follows(cfg, Step(cfg, s, e), ObserveBus(cfg, bus, room, driven, e, AnswerOf(cfg, s, e)))
  {
    hide Crc.AddByte, Ring.IsMessage;
    if bus.heard.Some? && !bus.sending {
      ReceivesMode(cfg, s, bus.heard.value);
    }
  }

  lemma FollowsTask(cfg: Config, s: Link, bus: Bus, e: Event, room: bool, driven: byte)
    requires Safe(cfg, s) && cfg.node < 16 && Follows(cfg, s, bus) && Possible(s, e) && e.Task?
    ensures Follows(cfg, Step(cfg, s, e), ObserveBus(cfg, bus, room, driven, e, AnswerOf(cfg, s, e)))
  {
    hide Crc.AddByte, Complete;
    if bus.heard.Some? && !bus.sending {
      ReceivesMode(cfg, s, bus.heard.value);
    }
  }

  /** The other events change nothing the observer sees, or take the node off the bus or back. */
  lemma FollowsOther(cfg: Config, s: Link, bus: Bus, e: Event, room: bool, driven: byte)
    requires Safe(cfg, s) && cfg.node < 16 && Follows(cfg, s, bus) && Possible(s, e)
    requires e.Tx? || e.Disconnect? || e.Reconnect? || e.Take? || e.Release?
    ensures Follows(cfg, Step(cfg, s, e), ObserveBus(cfg, bus, room, driven, e, AnswerOf(cfg, s, e)))
  {
    hide Crc.AddByte, Crc.High, Crc.Low, Ring.Receive, Ring.Release, Complete;
    if bus.heard.Some? && !bus.sending {
      ReceivesMode(cfg, s, bus.heard.value);
    }
  }

  // ---------------------------------------------------------------- the queue

  /** Node, storage and observer agree. */
  ghost predicate Matches(cfg: Config, s: Link, v: View, bus: Bus) {
    && Agrees(cfg, s, v) && Follows(cfg, s, bus)
    && v.queue == bus.queue && v.held == bus.held
    && (bus.heard.Some? && !bus.sending ==> v.frame == bus.heard.value)
  }

  lemma StartsIsFirst(cfg: Config, s: Link, bus: Bus, late: bool)
    requires Follows(cfg, s, bus) && bus.attached
    ensures Starts(s, late) <==> First(cfg, bus, late)
  {
    hide Receives, Owes, Complete;
    OwesIsSendAck(cfg, s, bus);
  }

  lemma TakesIsDelivers(cfg: Config, s: Link, v: View, bus: Bus, b: byte, late: bool)
    requires Matches(cfg, s, v, bus) && bus.attached
    ensures Delivers(s, v.frame, b, late) <==> Takes(cfg, bus, Storing(s), s.counter, b, late)
    ensures Delivers(s, v.frame, b, late) ==> Body(v.frame) == bus.heard.value[..|bus.heard.value| - 2]
  {
    hide Crc.Accepts, Holds, FrameStored, Ring.Partial, Receives;
    OwesIsSendAck(cfg, s, bus);
  }

  lemma RxMatches(cfg: Config, s: Link, v: View, bus: Bus, b: byte, late: bool)
    requires Matches(cfg, s, v, bus) && Allowed(cfg, s, v, Rx(b, late))
    ensures Matches(cfg, Step(cfg, s, Rx(b, late)), Observe(s, v, Rx(b, late)),
                    ObserveBus(cfg, bus, Storing(s), s.counter, Rx(b, late), AnswerOf(cfg, s, Rx(b, late))))
  {
    hide Agrees, Allowed, Receives, Owes, Complete, Takes, Delivers, Starts, Over, HandleRx;
    StepAgrees(cfg, s, v, Rx(b, late));
    AgreesSafely(cfg, s, v);
    if bus.attached {
      StartsIsFirst(cfg, s, bus, late);
      TakesIsDelivers(cfg, s, v, bus, b, late);
      FollowsRx(cfg, s, bus, b, late);
    } else {
      OfflineHears(cfg, s, v, b, late);
    }
  }

  lemma AgreesSafely(cfg: Config, s: Link, v: View)
    requires Agrees(cfg, s, v)
    ensures Safe(cfg, s) && cfg.node < 16
  {
  }

  lemma OfflineHears(cfg: Config, s: Link, v: View, b: byte, late: bool)
    requires Safe(cfg, s) && cfg.node < 16 && s.mode.Offline?
    ensures HandleRx(cfg, s, b, late) == Heard(s, None)
    ensures !Delivers(s, v.frame, b, late) && !Starts(s, late)
  {
  }

  lemma StepMatches(cfg: Config, s: Link, v: View, bus: Bus, e: Event)
    requires Matches(cfg, s, v, bus) && Allowed(cfg, s, v, e)
    ensures Matches(cfg, Step(cfg, s, e), Observe(s, v, e),
                    ObserveBus(cfg, bus, Storing(s), s.counter, e, AnswerOf(cfg, s, e)))
  {
    hide Agrees, Follows, Step, Complete, Ring.Hazard;
    StepAgrees(cfg, s, v, e);
    AgreesSafely(cfg, s, v);
    if e.Rx? {
      RxMatches(cfg, s, v, bus, e.b, e.late);
    } else if e.Send? {
      FollowsSend(cfg, s, bus, e, Storing(s), s.counter);
    } else if e.Task? {
      FollowsTask(cfg, s, bus, e, Storing(s), s.counter);
    } else {
      FollowsOther(cfg, s, bus, e, Storing(s), s.counter);
    }
  }

  // ---------------------------------------------------------------- runs

  /** What the observer knows after the run. */
  ghost function Watch(cfg: Config, s: Link, v: View, bus: Bus, es: seq<Event>): Bus
    requires Agrees(cfg, s, v) && Legal(cfg, s, v, es)
    decreases |es|
  {
    if es == [] then bus
    else
      StepAgrees(cfg, s, v, es[0]);
      Watch(cfg, Step(cfg, s, es[0]), Observe(s, v, es[0]),
            ObserveBus(cfg, bus, Storing(s), s.counter, es[0], AnswerOf(cfg, s, es[0])), es[1..])
  }

  lemma {:induction false} RunMatches(cfg: Config, s: Link, v: View, bus: Bus, es: seq<Event>)
    requires Matches(cfg, s, v, bus) && Legal(cfg, s, v, es)
    ensures var (t, w) := Run(cfg, s, v, es);
      Matches(cfg, t, w, Watch(cfg, s, v, bus, es))
    decreases |es|
  {
    hide Agrees, Follows, Step, Observe, ObserveBus, Ring.Hazard;
    if es == [] {
    } else {
      AgreesSafely(cfg, s, v);
      StepAgrees(cfg, s, v, es[0]);
      StepMatches(cfg, s, v, bus, es[0]);
      RunMatches(cfg, Step(cfg, s, es[0]), Observe(s, v, es[0]),
                 ObserveBus(cfg, bus, Storing(s), s.counter, es[0], AnswerOf(cfg, s, es[0])), es[1..]);
    }
  }

  const SILENCE := Bus(None, false, true, [], false)

  /**
   For every run from reset the reader is given exactly the oldest of the frames that the observer of the bus has seen
   the node take and not yet seen released, byte for byte, or nothing if there is none.
   */
  lemma FifoByBus(cfg: Config, es: seq<Event>)
    requires Ring.Length(cfg.size) && cfg.node < 16
    requires (ResetAgrees(cfg); Legal(cfg, Reset(cfg), NOTHING, es))
    ensures (ResetAgrees(cfg);
             var bus := Watch(cfg, Reset(cfg), NOTHING, SILENCE, es);
             var (ring, found) := Ring.Receive(cfg.size, Run(cfg, Reset(cfg), NOTHING, es).0.ring);
             && (found <==> bus.queue != [])
             && (found ==> SafeRing(cfg, ring) && Returned(cfg, ring) == bus.queue[0]))
  {
    ResetAgrees(cfg);
    RunMatches(cfg, Reset(cfg), NOTHING, SILENCE, es);
    FifoOverRuns(cfg, es);
  }
}
