/**
 The transmit buffers of one DBal instance while its connection stays up: every frame
 for which send returned true is delivered, once and in order.
 */
module InstanceLine {
  import opened Bytes
  import opened Frames
  import opened Instance
  import C = Connection
  import O = Outbox
  import R = RepeatQueue
  import Scan
  import Runs = InstanceRuns
  import SequenceId

  /** The buffers are in order, and what is in them is addressed to the present partner. */
  predicate LineOk(cfg: O.Config, s: State) {
    && O.Good(cfg, s.line)
    && (s.line.o.flag || s.line.o.rep != [] ==> s.line.o.target == s.con.partner)
  }

  /** Nothing is claimed of a connection that went down. */
  predicate UpOk(cfg: O.Config, s: State) {
    s.con.state.Connected? ==> LineOk(cfg, s)
  }

  /** The event leaves the connection up and is no connection message that resets the buffers. */
  predicate StaysUp(cfg: O.Config, s: State, e: Event)
    requires Possible(s, e)
  {
    && s.con.state.Connected? && Step(cfg, s, e).con.state.Connected?
    && !(e.ConMessage? && Resets(s.con, e.received))
  }

  // ---------------------------------------------------------------- sending

  /** send returns true exactly when the frame is added, as the last one, to the accepted frames. */
  lemma SendReturnsAccepted(cfg: O.Config, s: State, f: Frame, repetition: byte)
    requires O.Response(f.kind)
    ensures var (t, ok) := SendFrame(cfg, s, f, repetition);
      t.line.h == s.line.h.(accepted := s.line.h.accepted + if ok then [f] else [])
    ensures SendFrame(cfg, s, f, repetition).1 ==> s.con.ready
  {
  }

  lemma SendLine(cfg: O.Config, s: State, f: Frame, repetition: byte)
    requires LineOk(cfg, s) && O.Response(f.kind)
    ensures var t := SendFrame(cfg, s, f, repetition).0;
      LineOk(cfg, t) && t.con.state == s.con.state
  {
    hide O.Good, R.Admit, R.IsNew;
    var con := NextIds(s, repetition);
    O.StepGood(cfg, con.partner, s.line, O.Event.Send(f, con.seqSend, true));
    O.StepGood(cfg, con.partner, s.line, O.Event.Send(f, con.seqSend, false));
  }

  lemma SendState(cfg: O.Config, s: State, f: Frame, repetition: byte)
    requires O.Response(f.kind)
    ensures SendFrame(cfg, s, f, repetition).0.con.state == s.con.state
  {
    hide R.Admit, O.Step, O.Fits;
  }

  lemma GivenUpIsDown(s: State)
    ensures !GiveUp(s).con.state.Connected?
  {
  }

  lemma RepeatAtLine(cfg: O.Config, s: State, i: nat)
    requires UpOk(cfg, s) && i < |s.queue|
    ensures UpOk(cfg, RepeatAt(cfg, s, i))
    ensures RepeatAt(cfg, s, i).con.state.Connected? ==> s.con.state.Connected?
  {
    hide LineOk, SendFrame, GiveUp;
    if s.queue[i].occupied {
      GivenUpIsDown(s);
      if s.queue[i].retries < C.RETRY_MAX && s.queue[i].frame.kind.Event? {
        var b := s.(queue := R.Bump(s.queue, i), timer := true);
        var f, n := b.queue[i].frame, b.queue[i].retries;
        SendState(cfg, b, f, n);
        GivenUpIsDown(SendFrame(cfg, b, f, n).0);
        if s.con.state.Connected? {
          SameLine(cfg, s, b);
          SendLine(cfg, b, f, n);
        }
      } else if s.con.state.Connected? && s.queue[i].retries < C.RETRY_MAX {
        SameLine(cfg, s, s.(queue := R.Bump(s.queue, i), timer := true));
      }
    }
  }

  lemma SameLine(cfg: O.Config, s: State, t: State)
    requires LineOk(cfg, s) && t.line == s.line.(o := t.line.o) && t.line.o == s.line.o.(retries := t.line.o.retries)
    requires t.con.partner == s.con.partner
    ensures LineOk(cfg, t)
  {
  }

  lemma {:induction false} RepeatLine(cfg: O.Config, s: State, i: nat)
    requires UpOk(cfg, s)
    ensures UpOk(cfg, Repeat(cfg, s, i))
    decreases |s.queue| - i
  {
    hide UpOk, RepeatAt;
    if i >= |s.queue| {
    } else {
      RepeatAtLine(cfg, s, i);
      RepeatLine(cfg, RepeatAt(cfg, s, i), i + 1);
    }
  }

  lemma {:induction false} AckEventsLine(cfg: O.Config, s: State, cuts: seq<Cut>, acked: seq<(word, word)>)
    requires UpOk(cfg, s)
    ensures UpOk(cfg, AckEvents(cfg, s, cuts, acked))
    decreases |cuts|
  {
    hide LineOk, SendFrame;
    if cuts == [] {
    } else {
      var f := cuts[0].frame;
      var ack := Frame(EventAck, f.service, f.command, []);
      SendState(cfg, s, ack, 0);
      if s.con.state.Connected? {
        SendLine(cfg, s, ack, 0);
      }
      AckEventsLine(cfg, SendFrame(cfg, s, ack, 0).0, cuts[1..],
                    if |acked| < |s.queue| then acked + [(f.service, f.command)] else acked);
      AckEventsLine(cfg, s, cuts[1..], acked);
    }
  }

  /**
   A new bus message carries an id its partner takes after the last one if and only if it starts with a frame that is
   sent for the first time. One that repeats an unanswered event keeps the id of the last message, so a partner that
   took that one ignores it.
   */
  lemma RepetitionKeepsId(cfg: O.Config, s: State, f: Frame, repetition: byte)
    requires s.con.ready && s.line.o.frames == 0 && O.Response(f.kind)
    ensures var t := SendFrame(cfg, s, f, repetition).0;
      && |t.line.o.tx| >= FRAME_OFFSET && t.line.o.tx[2] == t.con.seqSend
      && (SequenceId.Accepted(t.line.o.tx[2], s.con.seqSend) <==> repetition == 0)
  {
    hide R.Admit, R.IsNew, O.Fits, Encode;
  }

  // ---------------------------------------------------------------- every event

  lemma TimerLine(cfg: O.Config, s: State)
    requires UpOk(cfg, s)
    ensures UpOk(cfg, TimerAction(cfg, s))
  {
    hide O.Good, Repeat;
    RepeatLine(cfg, s.(timer := false), 0);
  }

  lemma ReceiveLine(cfg: O.Config, s: State, bytes: Payload)
    requires UpOk(cfg, s)
    ensures UpOk(cfg, ReceiveRequest(cfg, s, bytes)) && UpOk(cfg, ReceiveResponse(cfg, s, bytes))
  {
    hide O.Good, AckEvents, Scan.Cuts, R.MarkAll, R.MarkAllHistory, R.Compacted, R.Occupied;
    if Taken(s, bytes) {
      var cuts := Scan.Cuts(bytes);
      AckEventsLine(cfg, WithId(s, bytes[2]), cuts, []);
      AckEventsLine(cfg, AnswerDisable(Organize(Match(WithId(s, bytes[2]), cuts))), cuts, []);
    }
  }

  lemma SmPartner(c: C.Conn, e: C.Event)
    requires c.state.Connected? && !e.EnableRequested?
    ensures C.Sm(c, e).state.Connected? ==> C.Sm(c, e).partner == c.partner
  {
  }

  lemma ConnectionPartner(c: C.Conn, r: C.Received, waiting: bool)
    requires !Resets(c, r) && c.state.Connected? && C.Receive(c, r, waiting).state.Connected?
    ensures C.Receive(c, r, waiting).partner == c.partner
  {
  }

  lemma ReceiveConnectionLine(cfg: O.Config, s: State, r: C.Received)
    requires LineOk(cfg, s) && s.con.state.Connected? && !Resets(s.con, r)
    ensures UpOk(cfg, ReceiveConnection(s, r))
  {
    hide LineOk, C.Receive, C.Classify, Resets, Drops, AsksDisable, R.Compacted, R.Occupied, R.Frees, R.WaitingFrames;
    var t := ReceiveConnection(s, r);
    if t.con.state.Connected? {
      ConnectionPartner(s.con, r, R.Occupied(s.queue) != []);
      SameLine(cfg, s, t);
    }
  }

  lemma UndeliveredLine(cfg: O.Config, s: State, noAck: bool)
    requires LineOk(cfg, s) && s.line.air.Flying? && s.con.state.Connected?
    ensures UpOk(cfg, Undelivered(cfg, s, noAck))
  {
    hide O.Conserved, O.Message, GiveUp;
    GivenUpIsDown(s.(line := s.line.(air := O.Ground)));
    O.StepGood(cfg, s.con.partner, s.line, O.Event.Undeliverable);
  }

  lemma ConnectionLine(cfg: O.Config, s: State, e: Event)
    requires LineOk(cfg, s) && s.con.state.Connected? && Possible(s, e)
    requires e.Enable? || e.Disable? || e.ConPick? || e.ConAcknowledge? || e.ConUndeliverable? || e.ConTimeout?
      || e.WakeUp? || e.Break? || e.BreakTimeout?
    ensures UpOk(cfg, Step(cfg, s, e))
  {
    hide LineOk, C.Sm, C.DeliveredFails, C.UndeliverableFails;
    SmPartner(s.con, C.Enable);
    SmPartner(s.con, C.Disable);
    SmPartner(s.con.(retries := 0), C.Reject);
    SmPartner(s.con.(retries := 0), C.DisableSilent);
    var t := Step(cfg, s, e);
    if t.con.state.Connected? {
      SameLine(cfg, s, t);
    }
  }

  lemma BusLine(cfg: O.Config, s: State, e: Event)
    requires LineOk(cfg, s) && Possible(s, e) && (e.Pick? || e.Acknowledge? || e.Failure?)
    ensures UpOk(cfg, Step(cfg, s, e))
  {
    hide O.Conserved, O.Message;
    match e
    case Pick(accepted) => O.StepGood(cfg, s.con.partner, s.line, O.Event.Pick(accepted));
    case Acknowledge => O.StepGood(cfg, s.con.partner, s.line, O.Event.Acknowledge);
    case Failure => O.StepGood(cfg, s.con.partner, s.line, O.Event.Failure);
  }

  /** Every event that leaves the connection up keeps the buffers in order. */
  lemma StepLine(cfg: O.Config, s: State, e: Event)
    requires LineOk(cfg, s) && Possible(s, e) && StaysUp(cfg, s, e)
    ensures LineOk(cfg, Step(cfg, s, e))
  {
    hide LineOk, SendFrame, TimerAction, ReceiveConnection, ReceiveRequest, ReceiveResponse, Undelivered, O.Step;
    match e
    case Send(f) =>
      if !C.DisablePending(s.con) {
        SendLine(cfg, s, f, 0);
      }
    case Undeliverable(noAck) => UndeliveredLine(cfg, s, noAck);
    case Timeout => TimerLine(cfg, s);
    case ConMessage(r) => ReceiveConnectionLine(cfg, s, r);
    case Request(bytes) => ReceiveLine(cfg, s, bytes);
    case Response(bytes) => ReceiveLine(cfg, s, bytes);
    case Pick(_) => BusLine(cfg, s, e);
    case Acknowledge => BusLine(cfg, s, e);
    case Failure => BusLine(cfg, s, e);
    case _ => ConnectionLine(cfg, s, e);
  }

  // ---------------------------------------------------------------- runs

  predicate AllUp(cfg: O.Config, s: State, es: seq<Event>)
    decreases |es|
  {
    es == [] || (Possible(s, es[0]) && StaysUp(cfg, s, es[0]) && AllUp(cfg, Step(cfg, s, es[0]), es[1..]))
  }

  function RunUp(cfg: O.Config, s: State, es: seq<Event>): State
    requires AllUp(cfg, s, es)
    decreases |es|
  {
    if es == [] then s else RunUp(cfg, Step(cfg, s, es[0]), es[1..])
  }

  lemma {:induction false} RunLine(cfg: O.Config, s: State, es: seq<Event>)
    requires LineOk(cfg, s) && AllUp(cfg, s, es)
    ensures LineOk(cfg, RunUp(cfg, s, es))
    decreases |es|
  {
    hide LineOk, Step, Possible, StaysUp;
    if es == [] {
    } else {
      StepLine(cfg, s, es[0]);
      RunLine(cfg, Step(cfg, s, es[0]), es[1..]);
    }
  }

  /**
   Over every run in which the connection stays up: the frames of the acknowledged messages, then those of the message
   on its way, then those waiting in the transmit buffer, are exactly the accepted frames in the order of acceptance;
   and while any of them is undelivered a transmission is due or under way.
   */
  lemma NothingLostWhileUp(cfg: O.Config, s: State, es: seq<Event>)
    requires LineOk(cfg, s) && AllUp(cfg, s, es)
    ensures var h, o := RunUp(cfg, s, es).line.h, RunUp(cfg, s, es).line.o;
      && O.AllFrames(h.acknowledged) + Content(o.rep) + Content(o.tx) == h.accepted
      && (h.accepted != O.AllFrames(h.acknowledged) ==> o.flag || !RunUp(cfg, s, es).line.air.Ground?)
  {
    hide RunUp, AllUp, Parse;
    RunLine(cfg, s, es);
    var t := RunUp(cfg, s, es);
    O.EmptyHasNone(cfg, []);
    if t.line.o.frames == 0 {
      O.EmptyHasNone(cfg, t.line.o.tx);
    }
  }

  /** The frames that are accepted but not yet acknowledged. */
  function Pending(s: State): seq<Frame> {
    Content(s.line.o.rep) + Content(s.line.o.tx)
  }

  // ---------------------------------------------------------------- where that starts

  /** After DBAL_init the buffers are in order. */
  lemma InitialLine(cfg: O.Config, partner: byte, size: nat)
    requires O.ValidConfig(cfg)
    ensures LineOk(cfg, Initial(partner, size))
  {
    O.EmptyHasNone(cfg, []);
  }

  /** A reset with nothing due or under way puts the buffers in order, whatever they held before. */
  lemma ResetLineOk(cfg: O.Config, s: State, r: C.Received)
    requires O.ValidConfig(cfg) && Resets(s.con, r) && s.line.air.Ground? && !s.line.o.flag
    ensures LineOk(cfg, ReceiveConnection(s, r))
  {
    hide C.Receive, C.Classify, Resets;
    O.EmptyHasNone(cfg, []);
  }

  /**
   From initialisation on: after any run whatever, a connection message that resets the buffers while nothing is due or
   under way, and then any run in which the connection stays up, the frames accepted since the reset are exactly those
   of the acknowledged messages, of the message on its way and of the transmit buffer, in order.
   */
  lemma NothingLostSinceReset(cfg: O.Config, partner: byte, size: nat, before: seq<Event>, r: C.Received,
                             es: seq<Event>)
    requires O.ValidConfig(cfg) && Runs.AllPossible(cfg, Initial(partner, size), before)
    requires var s := Runs.Run(cfg, Initial(partner, size), before);
      && Resets(s.con, r) && s.line.air.Ground? && !s.line.o.flag
      && AllUp(cfg, ReceiveConnection(s, r), es)
    ensures var t := RunUp(cfg, ReceiveConnection(Runs.Run(cfg, Initial(partner, size), before), r), es);
      && O.AllFrames(t.line.h.acknowledged) + Pending(t) == t.line.h.accepted
      && (Pending(t) != [] ==> t.line.o.flag || !t.line.air.Ground?)
  {
    hide Runs.Run, Runs.AllPossible, RunUp, AllUp, LineOk, Resets, ReceiveConnection, Content, O.AllFrames;
    var s := Runs.Run(cfg, Initial(partner, size), before);
    ResetLineOk(cfg, s, r);
    NothingLostWhileUp(cfg, ReceiveConnection(s, r), es);
    var t := RunUp(cfg, ReceiveConnection(s, r), es);
    var all := O.AllFrames(t.line.h.acknowledged);
    assert all + Content(t.line.o.rep) + Content(t.line.o.tx) == all + Pending(t);
  }

  // ---------------------------------------------------------------- resets

  /** A transmission that is due or under way was announced with the length of a message. */
  predicate Announced(l: O.State) {
    l.o.flag || !l.air.Ground? ==> l.o.entryLen > 0
  }

  lemma SendAnnounced(cfg: O.Config, s: State, f: Frame, repetition: byte)
    requires Announced(s.line) && O.Response(f.kind)
    ensures Announced(SendFrame(cfg, s, f, repetition).0.line)
  {
    hide R.Admit, R.IsNew, O.Fits;
  }

  lemma {:induction false} RepeatAnnounced(cfg: O.Config, s: State, i: nat)
    requires Announced(s.line)
    ensures Announced(Repeat(cfg, s, i).line)
    decreases |s.queue| - i
  {
    hide SendFrame;
    if i >= |s.queue| {
    } else {
      if s.queue[i].occupied && s.queue[i].retries < C.RETRY_MAX && s.queue[i].frame.kind.Event? {
        var b := s.(queue := R.Bump(s.queue, i), timer := true);
        SendAnnounced(cfg, b, b.queue[i].frame, b.queue[i].retries);
      }
      RepeatAnnounced(cfg, RepeatAt(cfg, s, i), i + 1);
    }
  }

  lemma {:induction false} AckAnnounced(cfg: O.Config, s: State, cuts: seq<Cut>, acked: seq<(word, word)>)
    requires Announced(s.line)
    ensures Announced(AckEvents(cfg, s, cuts, acked).line)
    decreases |cuts|
  {
    hide SendFrame;
    if cuts == [] {
    } else {
      var f := cuts[0].frame;
      var ack := Frame(EventAck, f.service, f.command, []);
      SendAnnounced(cfg, s, ack, 0);
      AckAnnounced(cfg, SendFrame(cfg, s, ack, 0).0, cuts[1..],
                   if |acked| < |s.queue| then acked + [(f.service, f.command)] else acked);
      AckAnnounced(cfg, s, cuts[1..], acked);
    }
  }

  lemma StepAnnounced(cfg: O.Config, s: State, e: Event)
    requires Announced(s.line) && Possible(s, e)
    ensures Announced(Step(cfg, s, e).line)
  {
    hide SendFrame, Repeat, AckEvents, C.Receive, C.Sm, Scan.Cuts, R.MarkAll, R.MarkAllHistory, R.Compacted, R.Occupied;
    match e
    case Send(f) => SendAnnounced(cfg, s, f, 0);
    case Timeout => RepeatAnnounced(cfg, s.(timer := false), 0);
    case Request(bytes) =>
      if Taken(s, bytes) {
        AckAnnounced(cfg, WithId(s, bytes[2]), Scan.Cuts(bytes), []);
      }
    case Response(bytes) =>
      if Taken(s, bytes) {
        AckAnnounced(cfg, AnswerDisable(Organize(Match(WithId(s, bytes[2]), Scan.Cuts(bytes)))), Scan.Cuts(bytes), []);
      }
    case _ =>
  }

  lemma {:induction false} RunAnnounced(cfg: O.Config, s: State, es: seq<Event>)
    requires Announced(s.line) && Runs.AllPossible(cfg, s, es)
    ensures Announced(Runs.Run(cfg, s, es).line)
    decreases |es|
  {
    hide Announced, Step, Possible;
    if es == [] {
    } else {
      StepAnnounced(cfg, s, es[0]);
      RunAnnounced(cfg, Step(cfg, s, es[0]), es[1..]);
    }
  }

  /** Down, and consistent. */
  predicate Down(c: C.Conn) {
    C.Inv(c) && !c.ready
  }

  lemma SmDown(c: C.Conn, e: C.Event)
    requires Down(c)
    ensures Down(C.Sm(c, e)) || e.EnableRequested? || e.Accept? || e.TempEnableRequested?
  {
  }

  lemma GiveUpDown(s: State)
    requires Down(s.con)
    ensures Down(GiveUp(s).con)
  {
  }

  lemma {:induction false} RepeatDown(cfg: O.Config, s: State, i: nat)
    requires Down(s.con)
    ensures Down(Repeat(cfg, s, i).con)
    decreases |s.queue| - i
  {
    hide C.Inv, GiveUp;
    if i >= |s.queue| {
    } else {
      GiveUpDown(s);
      if s.queue[i].occupied && s.queue[i].retries < C.RETRY_MAX {
        GiveUpDown(s.(queue := R.Bump(s.queue, i), timer := true));
      }
      RepeatDown(cfg, RepeatAt(cfg, s, i), i + 1);
    }
  }

  /** The connection messages that open a connection. */
  predicate Opens(c: C.Conn, r: C.Received) {
    match C.Classify(c, r)
    case InitPartner => true
    case TempMessage => r.message.value.TempEnableRequest? && C.TakesOver(c, r.sender)
    case Normal =>
      r.message.value.EnableRequest?
      || (c.state.Connecting? && (r.message.value.EnableResponse? || r.message.value.DisableResponse?))
    case _ => false
  }

  lemma ReceiveOpens(c: C.Conn, r: C.Received, waiting: bool)
    requires Down(c)
    ensures C.Receive(c, r, waiting).ready <==> Opens(c, r)
  {
    hide C.Sm;
    SmOpens(c.(retries := 0));
    SmDown(c.(retries := 0), C.DisableRequested);
    if !C.TempActive(c) {
      SmOpens(c.(partner := r.sender));
      SmOpens(c.(partner := r.sender, backup := r.sender, retries := 0));
    }
  }

  lemma SmOpens(c: C.Conn)
    requires !c.ready && (c.state.Disconnected? || c.state.Connecting?)
    ensures C.Sm(c, C.EnableRequested).ready && C.Sm(c, C.TempEnableRequested).ready
    ensures C.Sm(c, C.Accept).ready <==> c.state.Connecting?
  {
  }

  /** A connection is opened by exactly these messages, never by the user, a timer or another message. */
  lemma OpensExactly(cfg: O.Config, s: State, e: Event)
    requires Down(s.con) && Possible(s, e)
    ensures Step(cfg, s, e).con.ready <==> e.ConMessage? && Opens(s.con, e.received)
  {
    hide O.Step, Repeat, C.Sm, C.Inv, Opens, C.Receive;
    match e
    case Enable => SmDown(s.con, C.Enable);
    case Timeout => RepeatDown(cfg, s.(timer := false), 0);
    case Undeliverable(_) => GiveUpDown(s.(line := s.line.(air := O.Ground)));
    case ConMessage(r) => ReceiveOpens(s.con, r, R.Occupied(s.queue) != []);
    case ConAcknowledge => C.FailNotFresh(s.con);
    case ConUndeliverable(_) => C.FailNotFresh(s.con);
    case _ =>
  }

  /**
   Every opening starts with empty buffers, except one: a disable response, left over from an earlier disable, that
   arrives while the instance is connecting is taken for the acceptance of the enable request.
   */
  lemma OpeningResets(c: C.Conn, r: C.Received)
    requires Opens(c, r)
    ensures Resets(c, r) <==> !(C.Classify(c, r).Normal? && r.message.value.DisableResponse?)
  {
  }

  /**
   In every state a run from initialisation can reach, a reset leaves the buffers in order if and only if no
   transmission was due or under way; and otherwise what is picked up next has none of the lengths it was announced
   with, and no bytes of its own are handed over.
   */
  lemma ResetExact(cfg: O.Config, partner: byte, size: nat, es: seq<Event>)
    requires O.ValidConfig(cfg) && Runs.AllPossible(cfg, Initial(partner, size), es)
    ensures var s := Runs.Run(cfg, Initial(partner, size), es);
      var t := ResetLine(s);
      && Pending(t) == []
      && (O.Good(cfg, t.line) <==> s.line.air.Ground? && !s.line.o.flag)
      && (s.line.o.flag || !s.line.air.Ground? ==> O.Write(t.line.o).1 == None)
  {
    hide Runs.Run, Runs.AllPossible;
    RunAnnounced(cfg, Initial(partner, size), es);
    O.EmptyHasNone(cfg, []);
  }

  /**
   An enable response that arrives while the connection is up, as the second one of two nodes that enabled at the same
   time, drops every pending frame; the connection stays as it is and no callback is told.
   */
  lemma SecondAcceptDrops(s: State, r: C.Received)
    requires s.con.state.Connected?
    requires C.Classify(s.con, r).Normal? && r.message.value.EnableResponse?
    ensures var t := ReceiveConnection(s, r);
      t.con == s.con.(retries := 0) && Pending(t) == [] && t.told == s.told && t.hist == s.hist
  {
  }

  // ---------------------------------------------------------------- disabling

  /**
   A disable request of the partner is answered at once when no message waits for its response. Otherwise the
   connection stays, the queue is untouched, and the user may send nothing more.
   */
  lemma DisableWaitsForQueue(cfg: O.Config, s: State, r: C.Received)
    requires Runs.Inv(s) && s.con.state.Connected? && AsksDisable(s.con, r)
    ensures var t := ReceiveConnection(s, r);
      && (s.hist.live == [] ==> t.con.state.Disconnected? && t.con.kind.DisableResponse? && t.con.flag)
      && (s.hist.live != [] ==> t.con == s.con.(disableReq := true) && t.queue == s.queue && t.line == s.line)
      && (s.hist.live != [] ==> forall f :: Possible(t, Send(f)) ==> Step(cfg, t, Send(f)) == t)
  {
    hide Runs.Inv, R.Compacted, R.Occupied, SendFrame, TimerAction, ReceiveRequest, ReceiveResponse, Undelivered,
      O.Step, C.Delivered, C.Undeliverable, C.TxFail;
    Runs.EmptyHasNoLive(s);
    Runs.OrganizeInv(s);
  }

  lemma {:induction false} AckEventsState(cfg: O.Config, s: State, cuts: seq<Cut>, acked: seq<(word, word)>)
    requires !s.con.state.Connected? ==> !s.con.ready
    ensures var t := AckEvents(cfg, s, cuts, acked);
      t.con.state == s.con.state && (!s.con.ready ==> t == s)
    decreases |cuts|
  {
    hide SendFrame;
    if cuts == [] {
    } else {
      var f := cuts[0].frame;
      var ack := Frame(EventAck, f.service, f.command, []);
      AckState(cfg, s, ack);
      AckEventsState(cfg, SendFrame(cfg, s, ack, 0).0, cuts[1..],
                     if |acked| < |s.queue| then acked + [(f.service, f.command)] else acked);
      AckEventsState(cfg, s, cuts[1..], acked);
    }
  }

  lemma AckState(cfg: O.Config, s: State, f: Frame)
    requires O.Response(f.kind)
    ensures var t := SendFrame(cfg, s, f, 0).0;
      t.con.state == s.con.state && t.con.ready == s.con.ready && (!s.con.ready ==> t == s)
  {
    hide R.Admit, O.Step, O.Fits;
  }

  /**
   The deferred disable request is answered by the very response that leaves nothing waiting, and by no earlier one.
   */
  lemma DisableAnsweredAtLast(cfg: O.Config, s: State, bytes: Payload)
    requires Runs.Inv(s) && s.con.state.Connected? && s.con.disableReq && Taken(s, bytes)
    ensures var t := ReceiveResponse(cfg, s, bytes);
      && (t.con.state.Disconnected? <==> R.MarkAllHistory(s.hist, Scan.Cuts(bytes)).live == [])
      && (t.con.state.Disconnected? ==> t.con.kind.DisableResponse? && t.con.flag && t.con.target == s.con.partner)
  {
    hide Runs.Inv, R.Compacted, R.Occupied, Scan.Cuts, AckEvents, R.MarkAll, R.MarkAllHistory;
    var cuts := Scan.Cuts(bytes);
    var m := Organize(Match(WithId(s, bytes[2]), cuts));
    Runs.WithIdInv(s, bytes[2]);
    Runs.MatchInv(WithId(s, bytes[2]), cuts);
    Runs.EmptyHasNoLive(m);
    AckEventsState(cfg, AnswerDisable(m), cuts, []);
  }

  /**
   The connection messages that empty the transmit buffers: an enable request or response of the partner, the enable
   request that names the first partner, and that of a temporary partner who takes over. No other one touches them.
   */
  lemma EmptiesExactly(s: State, r: C.Received)
    requires r.sender != 0
    ensures var u := ReceiveConnection(s, r).line;
      var heard := r.sound && r.message.Some?;
      var ofPartner := r.sender == s.con.partner
                       && (r.message == Some(C.EnableRequest) || r.message == Some(C.EnableResponse));
      var first := s.con.partner == s.con.backup == 0 && r.sender >= 0x10 && r.message == Some(C.EnableRequest);
      var takesOver := s.con.partner == s.con.backup != r.sender && r.sender >= 0x10
                       && r.message == Some(C.TempEnableRequest);
      if heard && (ofPartner || first || takesOver) then u.o.tx == u.o.rep == [] && u.o.frames == 0
      else u == s.line.(o := s.line.o.(retries := u.o.retries))
  {
    hide C.Handle, C.HandleTemp, R.Occupied, R.Compacted, R.WaitingFrames;
  }

  // ---------------------------------------------------------------- attempts

  /**
   A frame sent while no message is being repeated makes the message due for the partner with all that is packed so far,
   and with the full number of attempts; sent while one is, it waits and leaves that one alone.
   */
  lemma FullEffort(cfg: O.Config, s: State, f: Frame, repetition: byte)
    requires LineOk(cfg, s) && O.Response(f.kind) && SendFrame(cfg, s, f, repetition).1
    ensures var o, r := s.line.o, SendFrame(cfg, s, f, repetition).0.line.o;
      && (o.rep == [] ==> r.flag && r.entryLen == |r.tx| && r.target == s.con.partner && r.retries == 0)
      && (o.rep != [] ==> r.rep == o.rep && r.flag == o.flag && r.entryLen == o.entryLen && r.target == o.target
                          && r.retries == o.retries)
  {
    hide R.Admit, R.IsNew, O.Conserved, Encode;
  }

  /**
   A message that waited for the one before is made due by that one's acknowledge, and only has the attempts that one
   has left of the full number.
   */
  lemma InheritedEffort(cfg: O.Config, s: State)
    requires LineOk(cfg, s) && s.line.air.Flying? && s.line.o.tx != []
    ensures var r := Step(cfg, s, Acknowledge).line.o;
      && r.flag && r.entryLen == |r.tx| && r.target == s.con.partner && r.tx == s.line.o.tx && r.rep == []
      && r.retries == s.line.o.retries
  {
    hide O.Conserved;
  }
}
