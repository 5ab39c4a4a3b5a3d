/**
 The runs of one DBal instance seen from its partner: while the connection lasts every event of the instance is a
 sequence of steps of the pair of sender and receiver, so what holds of the pair holds of the instance.
 */
module InstanceEnds {
  import opened Bytes
  import opened Frames
  import opened Instance
  import C = Connection
  import E = EndToEnd
  import Line = InstanceLine
  import O = Outbox
  import R = RepeatQueue
  import Runs = InstanceRuns
  import Scan
  import SequenceId

  /** The same buffers and history; the retry counter has no influence on them. */
  predicate SameLine(a: O.State, b: O.State) {
    a == b.(o := b.o.(retries := a.o.retries))
  }

  /** The pair's sender is this instance. */
  predicate Mirrors(p: E.Pair, s: State) {
    p.sent >= -1 && SequenceId.IdOf(p.sent) == s.con.seqSend && SameLine(p.s, s.line)
  }

  lemma StepSame(cfg: O.Config, partner: byte, a: O.State, b: O.State, e: O.Event)
    requires SameLine(a, b) && O.Enabled(a, e)
    ensures O.Enabled(b, e) && SameLine(O.Step(cfg, partner, a, e), O.Step(cfg, partner, b, e))
  {
    hide Encode;
  }

  // ---------------------------------------------------------------- sending

  function Sent(s: State, f: Frame, repetition: byte): E.Event {
    E.Send(f, repetition, R.Admit(s.queue, f, repetition).1)
  }

  /** What the instance's send does to the buffers, and its answer. */
  lemma SendIs(cfg: O.Config, s: State, f: Frame, repetition: byte)
    requires s.con.ready && O.Response(f.kind)
    ensures var (t, ok) := SendFrame(cfg, s, f, repetition);
      var con := NextIds(s, repetition);
      var e := O.Event.Send(f, con.seqSend, R.Admit(s.queue, f, repetition).1);
      && t.con == con && t.line == O.Step(cfg, s.con.partner, s.line, e)
      && t.line.h.accepted == s.line.h.accepted + (if ok then [f] else [])
  {
    hide R.Admit, R.IsNew, R.SaveHistory, O.Step, O.Fits, O.Header;
    SendLines(cfg, s.con.partner, s.line, f, NextIds(s, repetition).seqSend, R.Admit(s.queue, f, repetition).1);
  }

  /** One call of the instance's send is one send of the pair: same buffers, same sequence id, same answer. */
  lemma SendMirrors(cfg: O.Config, p: E.Pair, s: State, f: Frame, repetition: byte)
    requires Mirrors(p, s) && s.con.ready && O.Response(f.kind)
    ensures E.Possible(p, Sent(s, f, repetition))
    ensures var q, t := E.Step(cfg, s.con.partner, p, Sent(s, f, repetition)), SendFrame(cfg, s, f, repetition);
      && Mirrors(q, t.0)
      && q.s.h.accepted == p.s.h.accepted + (if t.1 then [f] else [])
      && t.0.con == s.con.(seqSend := t.0.con.seqSend)
  {
    hide R.Admit, O.Step, SendFrame, SequenceId.IdOf;
    var e := Sent(s, f, repetition);
    SequenceId.NextId(p.sent);
    SendIs(cfg, s, f, repetition);
    assert E.OfSender(p, e) == O.Event.Send(f, NextIds(s, repetition).seqSend, e.saved);
    StepSame(cfg, s.con.partner, p.s, s.line, E.OfSender(p, e));
  }

  /** The buffers' answer to a send. */
  lemma SendLines(cfg: O.Config, partner: byte, l: O.State, f: Frame, id: byte, saved: bool)
    requires O.Response(f.kind)
    ensures var ok := O.Fits(cfg, O.Header(cfg, l.o, id), f) && saved;
      && O.Step(cfg, partner, l, O.Event.Send(f, id, saved)).h.accepted == l.h.accepted + (if ok then [f] else [])
      && (!ok ==>
            O.Step(cfg, partner, l, O.Event.Send(f, id, saved)) == O.Step(cfg, partner, l, O.Event.Send(f, id, false)))
  {
    hide Encode;
  }

  function Bumped(s: State, i: nat): State
    requires i < |s.queue| && s.queue[i].retries < C.RETRY_MAX
  {
    s.(queue := R.Bump(s.queue, i), timer := true)
  }

  function RepeatOne(s: State, i: nat): seq<E.Event>
    requires i < |s.queue|
  {
    if s.queue[i].occupied && s.queue[i].retries < C.RETRY_MAX && s.queue[i].frame.kind.Event?
    then [Sent(Bumped(s, i), s.queue[i].frame, s.queue[i].retries + 1)] else []
  }

  /** The sends of the repetition timer's loop from position i on. */
  function Repeats(cfg: O.Config, s: State, i: nat): seq<E.Event>
    decreases |s.queue| - i
  {
    if i >= |s.queue| then [] else RepeatOne(s, i) + Repeats(cfg, RepeatAt(cfg, s, i), i + 1)
  }

  /** The steps are possible for the pair and lead it to the state of the instance. */
  predicate Leads(cfg: O.Config, p: E.Pair, partner: byte, es: seq<E.Event>, t: State) {
    && E.AllPossible(cfg, partner, p, es) && Mirrors(E.Run(cfg, partner, p, es), t)
    && t.con.partner == partner
  }

  lemma NoneLeads(cfg: O.Config, p: E.Pair, t: State)
    requires Mirrors(p, t)
    ensures Leads(cfg, p, t.con.partner, [], t)
  {
    hide Mirrors;
    E.RunNone(cfg, t.con.partner, p);
  }

  lemma OneLeads(cfg: O.Config, p: E.Pair, partner: byte, e: E.Event, t: State)
    requires E.Possible(p, e) && Mirrors(E.Step(cfg, partner, p, e), t) && t.con.partner == partner
    ensures Leads(cfg, p, partner, [e], t)
  {
    hide Mirrors, E.Possible, E.Step;
    E.RunOne(cfg, partner, p, e);
  }

  lemma ThenLeads(cfg: O.Config, p: E.Pair, partner: byte, es: seq<E.Event>, t: State, more: seq<E.Event>, u: State)
    requires Leads(cfg, p, partner, es, t) && Leads(cfg, E.Run(cfg, partner, p, es), partner, more, u)
    ensures Leads(cfg, p, partner, es + more, u)
  {
    hide Mirrors, E.AllPossible, E.Run;
    E.RunConcat(cfg, partner, p, es, more);
  }

  lemma SendLeads(cfg: O.Config, p: E.Pair, s: State, f: Frame, repetition: byte)
    requires Mirrors(p, s) && s.con.ready && O.Response(f.kind)
    ensures Leads(cfg, p, s.con.partner, [Sent(s, f, repetition)], SendFrame(cfg, s, f, repetition).0)
    ensures SendFrame(cfg, s, f, repetition).0.con == s.con.(seqSend := SendFrame(cfg, s, f, repetition).0.con.seqSend)
  {
    hide Mirrors, E.Step, E.Possible, SendFrame, Sent;
    SendMirrors(cfg, p, s, f, repetition);
    OneLeads(cfg, p, s.con.partner, Sent(s, f, repetition), SendFrame(cfg, s, f, repetition).0);
  }

  // ---------------------------------------------------------------- the loops

  /** Connected, and consistent. */
  predicate Up(s: State) {
    C.Inv(s.con) && s.con.state.Connected?
  }

  lemma RepeatAtLeads(cfg: O.Config, p: E.Pair, s: State, i: nat)
    requires Mirrors(p, s) && Up(s) && i < |s.queue| && RepeatAt(cfg, s, i).con.state.Connected?
    ensures Up(RepeatAt(cfg, s, i))
    ensures Leads(cfg, p, s.con.partner, RepeatOne(s, i), RepeatAt(cfg, s, i))
  {
    hide SendFrame, GiveUp, Leads;
    Line.GivenUpIsDown(s);
    if RepeatOne(s, i) != [] {
      var b := Bumped(s, i);
      SendLeads(cfg, p, b, s.queue[i].frame, s.queue[i].retries + 1);
      Line.GivenUpIsDown(SendFrame(cfg, b, s.queue[i].frame, s.queue[i].retries + 1).0);
    } else {
      NoneLeads(cfg, p, RepeatAt(cfg, s, i));
    }
  }

  lemma {:induction false} StaysDown(cfg: O.Config, s: State, i: nat)
    requires !s.con.state.Connected?
    ensures !Repeat(cfg, s, i).con.state.Connected?
    decreases |s.queue| - i
  {
    hide RepeatAt;
    if i >= |s.queue| {
    } else {
      Line.RepeatAtLine(cfg, s, i);
      StaysDown(cfg, RepeatAt(cfg, s, i), i + 1);
    }
  }

  lemma {:induction false} RepeatLeads(cfg: O.Config, p: E.Pair, s: State, i: nat)
    requires Mirrors(p, s) && Up(s) && Repeat(cfg, s, i).con.state.Connected?
    ensures Leads(cfg, p, s.con.partner, Repeats(cfg, s, i), Repeat(cfg, s, i))
    decreases |s.queue| - i
  {
    hide RepeatAt, Up, Mirrors, RepeatOne, E.AllPossible, E.Run;
    if i < |s.queue| {
      var t := RepeatAt(cfg, s, i);
      if !t.con.state.Connected? {
        StaysDown(cfg, t, i + 1);
      }
      RepeatAtLeads(cfg, p, s, i);
      var q := E.Run(cfg, s.con.partner, p, RepeatOne(s, i));
      RepeatLeads(cfg, q, t, i + 1);
      ThenLeads(cfg, p, s.con.partner, RepeatOne(s, i), t, Repeats(cfg, t, i + 1), Repeat(cfg, t, i + 1));
    } else {
      NoneLeads(cfg, p, s);
    }
  }

  /** The acknowledges sent for the events of a received message. */
  function Acks(cfg: O.Config, s: State, cuts: seq<Cut>, acked: seq<(word, word)>): seq<E.Event>
    decreases |cuts|
  {
    if cuts == [] then []
    else
      var f := cuts[0].frame;
      var ack := Frame(EventAck, f.service, f.command, []);
      if cuts[0].whole && f.kind.Event? && (f.service, f.command) !in acked then
        [Sent(s, ack, 0)]
        + Acks(cfg, SendFrame(cfg, s, ack, 0).0, cuts[1..],
               if |acked| < |s.queue| then acked + [(f.service, f.command)] else acked)
      else Acks(cfg, s, cuts[1..], acked)
  }

  lemma {:induction false} AcksLead(cfg: O.Config, p: E.Pair, s: State, cuts: seq<Cut>, acked: seq<(word, word)>)
    requires Mirrors(p, s) && s.con.ready
    ensures Leads(cfg, p, s.con.partner, Acks(cfg, s, cuts, acked), AckEvents(cfg, s, cuts, acked))
    decreases |cuts|
  {
    hide SendFrame, Mirrors, Sent, E.AllPossible, E.Run;
    if cuts == [] {
      NoneLeads(cfg, p, s);
    } else {
      var f := cuts[0].frame;
      var ack := Frame(EventAck, f.service, f.command, []);
      if cuts[0].whole && f.kind.Event? && (f.service, f.command) !in acked {
        var t := SendFrame(cfg, s, ack, 0).0;
        var more := if |acked| < |s.queue| then acked + [(f.service, f.command)] else acked;
        SendLeads(cfg, p, s, ack, 0);
        AcksLead(cfg, E.Run(cfg, s.con.partner, p, [Sent(s, ack, 0)]), t, cuts[1..], more);
        ThenLeads(cfg, p, s.con.partner, [Sent(s, ack, 0)], t, Acks(cfg, t, cuts[1..], more),
                  AckEvents(cfg, t, cuts[1..], more));
      } else {
        AcksLead(cfg, p, s, cuts[1..], acked);
      }
    }
  }

  // ---------------------------------------------------------------- every event of a session

  /** A temporary partner that is connected confirms itself; that sets the ids back and leaves the buffers. */
  predicate ConfirmsTemp(c: C.Conn, r: C.Received) {
    C.Classify(c, r).TempMessage? && r.message.value.TempEnableRequest? && C.TempActive(c) && c.partner == r.sender
  }

  /** The connection stays up, and neither buffers nor ids are reset. */
  predicate Session(cfg: O.Config, s: State, e: Event)
    requires Possible(s, e)
  {
    Line.StaysUp(cfg, s, e) && !(e.ConMessage? && ConfirmsTemp(s.con, e.received))
  }

  /**
   What the pair does for an event of the instance; heard: whether the partner has a message whose transmission failed.
   */
  function StepsOf(cfg: O.Config, s: State, e: Event, heard: bool): seq<E.Event> {
    match e
    case Send(f) => if C.DisablePending(s.con) then [] else [Sent(s, f, 0)]
    case Pick(accepted) => [E.Pick(accepted)]
    case Acknowledge => [E.Acknowledged]
    case Failure => [E.Failed(heard)]
    case Undeliverable(_) => [E.Undeliverable(heard)]
    case Timeout => if s.timer then Repeats(cfg, s.(timer := false), 0) else []
    case Request(bytes) => if Taken(s, bytes) then Acks(cfg, WithId(s, bytes[2]), Scan.Cuts(bytes), []) else []
    case Response(bytes) =>
      if Taken(s, bytes)
      then Acks(cfg, AnswerDisable(Organize(Match(WithId(s, bytes[2]), Scan.Cuts(bytes)))), Scan.Cuts(bytes), [])
      else []
    case _ => []
  }

  lemma SmKeepsIds(c: C.Conn, e: C.Event)
    requires c.state.Connected? && !e.EnableRequested? && !e.TempEnableRequested?
    ensures C.Sm(c, e).seqSend == c.seqSend
  {
  }

  lemma ReceiveKeepsIds(c: C.Conn, r: C.Received, waiting: bool)
    requires c.state.Connected? && !Resets(c, r) && !ConfirmsTemp(c, r)
    ensures C.Receive(c, r, waiting).seqSend == c.seqSend
  {
  }

  lemma SameMirrors(p: E.Pair, s: State, t: State)
    requires Mirrors(p, s) && SameLine(t.line, s.line) && t.con.seqSend == s.con.seqSend
    ensures Mirrors(p, t)
  {
  }

  lemma ConnectionLeads(cfg: O.Config, p: E.Pair, s: State, e: Event)
    requires Mirrors(p, s) && Up(s) && Possible(s, e) && Session(cfg, s, e)
    requires e.Enable? || e.Disable? || e.ConPick? || e.ConAcknowledge? || e.ConUndeliverable? || e.ConTimeout?
      || e.WakeUp? || e.Break? || e.BreakTimeout?
    ensures Leads(cfg, p, s.con.partner, [], Step(cfg, s, e))
  {
    hide Mirrors, C.Sm, C.DeliveredFails, C.UndeliverableFails, Leads;
    Line.SmPartner(s.con, C.Enable);
    Line.SmPartner(s.con, C.Disable);
    Line.SmPartner(s.con.(retries := 0), C.Reject);
    Line.SmPartner(s.con.(retries := 0), C.DisableSilent);
    SmKeepsIds(s.con, C.Enable);
    SmKeepsIds(s.con, C.Disable);
    SmKeepsIds(s.con.(retries := 0), C.Reject);
    SmKeepsIds(s.con.(retries := 0), C.DisableSilent);
    SameMirrors(p, s, Step(cfg, s, e));
    NoneLeads(cfg, p, Step(cfg, s, e));
  }

  lemma MessageLeads(cfg: O.Config, p: E.Pair, s: State, r: C.Received)
    requires Mirrors(p, s) && Up(s) && Session(cfg, s, ConMessage(r))
    ensures Leads(cfg, p, s.con.partner, [], ReceiveConnection(s, r))
  {
    hide Mirrors, C.Receive, C.Classify, Resets, ConfirmsTemp, Drops, AsksDisable, R.Compacted, R.Occupied, R.Frees,
      R.WaitingFrames, Leads;
    Line.ConnectionPartner(s.con, r, R.Occupied(s.queue) != []);
    ReceiveKeepsIds(s.con, r, R.Occupied(s.queue) != []);
    SameMirrors(p, s, ReceiveConnection(s, r));
    NoneLeads(cfg, p, ReceiveConnection(s, r));
  }

  lemma TimeoutLeads(cfg: O.Config, p: E.Pair, s: State)
    requires Mirrors(p, s) && Up(s) && TimerAction(cfg, s).con.state.Connected?
    ensures Leads(cfg, p, s.con.partner, StepsOf(cfg, s, Timeout, false), TimerAction(cfg, s))
  {
    hide Repeat, Repeats, R.Compacted, R.Occupied;
    if s.timer {
      RepeatLeads(cfg, p, s.(timer := false), 0);
    } else {
      NoneLeads(cfg, p, s);
    }
  }

  lemma ReceiveLeads(cfg: O.Config, p: E.Pair, s: State, e: Event)
    requires Mirrors(p, s) && Up(s) && (e.Request? || e.Response?) && Step(cfg, s, e).con.state.Connected?
    ensures Leads(cfg, p, s.con.partner, StepsOf(cfg, s, e, false), Step(cfg, s, e))
  {
    hide AckEvents, Acks, Scan.Cuts, R.MarkAll, R.MarkAllHistory, R.Compacted, R.Occupied, R.Frees,
      R.WaitingFrames, Leads;
    if !Taken(s, e.bytes) {
      NoneLeads(cfg, p, s);
    } else {
      var cuts := Scan.Cuts(e.bytes);
      if e.Request? {
        AcksLead(cfg, p, WithId(s, e.bytes[2]), cuts, []);
      } else {
        var t := AnswerDisable(Organize(Match(WithId(s, e.bytes[2]), cuts)));
        Line.AckEventsState(cfg, t, cuts, []);
        AcksLead(cfg, p, t, cuts, []);
      }
    }
  }

  lemma BusLeads(cfg: O.Config, p: E.Pair, s: State, e: Event, heard: bool)
    requires Mirrors(p, s) && E.Inv(cfg, p) && Line.LineOk(cfg, s) && Possible(s, e) && Session(cfg, s, e)
    requires e.Pick? || e.Acknowledge? || e.Failure? || e.Undeliverable?
    ensures Leads(cfg, p, s.con.partner, StepsOf(cfg, s, e, heard), Step(cfg, s, e))
  {
    hide Leads, O.Step, GiveUp, O.Conserved, E.Hear, E.Got;
    var x := StepsOf(cfg, s, e, heard)[0];
    StepSame(cfg, s.con.partner, p.s, s.line, E.OfSender(p, x));
    if e.Undeliverable? {
      Line.GivenUpIsDown(s.(line := s.line.(air := O.Ground)));
    }
    if E.Heard(x) {
      E.HearKeeps(cfg, p);
    }
    OneLeads(cfg, p, s.con.partner, x, Step(cfg, s, e));
  }

  /** Every event of a session is a sequence of steps of the pair. */
  lemma StepLeads(cfg: O.Config, p: E.Pair, s: State, e: Event, heard: bool)
    requires Mirrors(p, s) && Up(s) && E.Inv(cfg, p) && Line.LineOk(cfg, s) && Possible(s, e) && Session(cfg, s, e)
    ensures Leads(cfg, p, s.con.partner, StepsOf(cfg, s, e, heard), Step(cfg, s, e))
  {
    hide Mirrors, E.Inv, Line.LineOk, Leads, SendFrame, TimerAction, ReceiveConnection, ReceiveRequest, ReceiveResponse,
      Undelivered, O.Step, Repeats, Acks, Sent;
    match e
    case Send(f) =>
      if C.DisablePending(s.con) {
        NoneLeads(cfg, p, s);
      } else {
        SendLeads(cfg, p, s, f, 0);
      }
    case Undeliverable(_) => BusLeads(cfg, p, s, e, heard);
    case Pick(_) => BusLeads(cfg, p, s, e, heard);
    case Acknowledge => BusLeads(cfg, p, s, e, heard);
    case Failure => BusLeads(cfg, p, s, e, heard);
    case Timeout => TimeoutLeads(cfg, p, s);
    case ConMessage(r) => MessageLeads(cfg, p, s, r);
    case Request(_) => ReceiveLeads(cfg, p, s, e);
    case Response(_) => ReceiveLeads(cfg, p, s, e);
    case _ => ConnectionLeads(cfg, p, s, e);
  }

  // ---------------------------------------------------------------- whole sessions

  predicate AllSession(cfg: O.Config, s: State, es: seq<Event>)
    requires Line.AllUp(cfg, s, es)
    decreases |es|
  {
    es == [] || (Session(cfg, s, es[0]) && AllSession(cfg, Step(cfg, s, es[0]), es[1..]))
  }

  /** heard[i]: whether the partner has the message if event i is a failed transmission. */
  function AllSteps(cfg: O.Config, s: State, es: seq<Event>, heard: seq<bool>): seq<E.Event>
    requires Line.AllUp(cfg, s, es) && |heard| == |es|
    decreases |es|
  {
    if es == [] then [] else StepsOf(cfg, s, es[0], heard[0]) + AllSteps(cfg, Step(cfg, s, es[0]), es[1..], heard[1..])
  }

  lemma LeadsKeeps(cfg: O.Config, p: E.Pair, partner: byte, es: seq<E.Event>, t: State)
    requires E.Inv(cfg, p) && Leads(cfg, p, partner, es, t)
    ensures E.Inv(cfg, E.Run(cfg, partner, p, es)) && Mirrors(E.Run(cfg, partner, p, es), t) && t.con.partner == partner
  {
    hide Mirrors, E.Inv, E.AllPossible, E.Run;
    E.RunKeeps(cfg, partner, p, es);
  }

  lemma StaysSound(cfg: O.Config, s: State, e: Event)
    requires Runs.Inv(s) && Line.LineOk(cfg, s) && Possible(s, e) && Session(cfg, s, e)
    ensures Runs.Inv(Step(cfg, s, e)) && Line.LineOk(cfg, Step(cfg, s, e)) && Up(s) && Up(Step(cfg, s, e))
  {
    hide Runs.Sound, Line.LineOk, Step, C.Inv;
    Runs.StepInv(cfg, s, e);
    Line.StepLine(cfg, s, e);
  }

  lemma {:induction false} RunLeads(cfg: O.Config, p: E.Pair, s: State, es: seq<Event>, heard: seq<bool>)
    requires Mirrors(p, s) && E.Inv(cfg, p) && Runs.Inv(s) && Line.LineOk(cfg, s)
    requires Line.AllUp(cfg, s, es) && AllSession(cfg, s, es) && |heard| == |es|
    ensures Leads(cfg, p, s.con.partner, AllSteps(cfg, s, es, heard), Line.RunUp(cfg, s, es))
    decreases |es|
  {
    hide Mirrors, E.Inv, Runs.Inv, Line.LineOk, Up, Session, Step, StepsOf, Possible, E.Run, E.AllPossible;
    if es == [] {
      NoneLeads(cfg, p, s);
    } else {
      var t := Step(cfg, s, es[0]);
      var one := StepsOf(cfg, s, es[0], heard[0]);
      StaysSound(cfg, s, es[0]);
      StepLeads(cfg, p, s, es[0], heard[0]);
      LeadsKeeps(cfg, p, s.con.partner, one, t);
      RunLeads(cfg, E.Run(cfg, s.con.partner, p, one), t, es[1..], heard[1..]);
      ThenLeads(cfg, p, s.con.partner, one, t, AllSteps(cfg, t, es[1..], heard[1..]), Line.RunUp(cfg, t, es[1..]));
    }
  }

  /** A connection that has just been opened: nothing in the buffers, nothing due, the first id is zero. */
  predicate JustOpened(cfg: O.Config, s: State) {
    && Line.LineOk(cfg, s) && s.con.state.Connected? && s.con.seqSend == 255
    && s.line.o.tx == [] && s.line.o.rep == [] && s.line.h == O.History([], [], None)
  }

  lemma OpenedKeeps(cfg: O.Config, s: State)
    requires JustOpened(cfg, s)
    ensures E.Inv(cfg, E.Fresh(s.line)) && Mirrors(E.Fresh(s.line), s)
  {
  }

  /** Every connection message that resets buffers and ids, with nothing due or under way, opens such a session. */
  lemma OpeningOpens(cfg: O.Config, s: State, r: C.Received)
    requires O.ValidConfig(cfg) && Line.Down(s.con) && Line.Opens(s.con, r) && Resets(s.con, r)
    requires s.line.air.Ground? && !s.line.o.flag
    ensures JustOpened(cfg, ReceiveConnection(s, r))
  {
    hide Line.LineOk, C.Classify;
    Line.ResetLineOk(cfg, s, r);
  }

  /**
   From initialisation on: after any run, and a connection message that opens the connection with empty buffers, and
   any further run in which it stays up and its ids are not reset, whatever is lost on the bus. A partner whose ids
   were reset with the opening has parsed each acknowledged message of the instance exactly once if it was near when it
   was picked up, and never otherwise; and once everything is delivered it has parsed all accepted frames, in order, if
   and only if every message with frames was near.
   */
  lemma PartnerParses(cfg: O.Config, partner: byte, size: nat, before: seq<Event>, r: C.Received, es: seq<Event>,
                      heard: seq<bool>)
    requires O.ValidConfig(cfg) && Runs.AllPossible(cfg, Initial(partner, size), before)
    requires var s := Runs.Run(cfg, Initial(partner, size), before);
      var t := ReceiveConnection(s, r);
      && !s.con.ready && Line.Opens(s.con, r) && Resets(s.con, r) && s.line.air.Ground? && !s.line.o.flag
      && Line.AllUp(cfg, t, es) && AllSession(cfg, t, es) && |heard| == |es|
    ensures var t := ReceiveConnection(Runs.Run(cfg, Initial(partner, size), before), r);
      var steps := AllSteps(cfg, t, es, heard);
      && E.AllPossible(cfg, t.con.partner, E.Fresh(t.line), steps)
      && var p := E.Run(cfg, t.con.partner, E.Fresh(t.line), steps);
        && p.s.h == Line.RunUp(cfg, t, es).line.h && p.s.o.tx == Line.RunUp(cfg, t, es).line.o.tx
        && p.s.o.rep == Line.RunUp(cfg, t, es).line.o.rep
        && E.Exact(p)
  {
    hide E.Inv, E.Exact, Runs.Run, Runs.AllPossible, Runs.Sound, Line.AllUp, Line.RunUp, Line.Opens, Line.LineOk,
      Resets, AllSession, AllSteps, E.AllPossible, E.Run, ReceiveConnection, C.Inv, JustOpened;
    Runs.InitialInv(partner, size);
    Runs.RunInv(cfg, Initial(partner, size), before);
    var s := Runs.Run(cfg, Initial(partner, size), before);
    var t := ReceiveConnection(s, r);
    OpeningOpens(cfg, s, r);
    Runs.ReceiveConnectionInv(s, r);
    OpenedKeeps(cfg, t);
    OpenedLine(cfg, t);
    RunLeads(cfg, E.Fresh(t.line), t, es, heard);
    LeadsKeeps(cfg, E.Fresh(t.line), t.con.partner, AllSteps(cfg, t, es, heard), Line.RunUp(cfg, t, es));
    E.InvExact(cfg, E.Run(cfg, t.con.partner, E.Fresh(t.line), AllSteps(cfg, t, es, heard)));
  }

  lemma OpenedLine(cfg: O.Config, s: State)
    requires JustOpened(cfg, s)
    ensures Line.LineOk(cfg, s)
  {
  }

  // ---------------------------------------------------------------- the partner

  /** What the pair calls hearing is the partner instance's own id test, scan and update of the last id. */
  lemma HearIsReceive(cfg: O.Config, p: E.Pair, t: State)
    requires E.Inv(cfg, p) && p.s.h.wire.Some?
    requires t.con.partner == cfg.own && C.ValidAddress(cfg.own) && t.con.ready && t.con.seqRecv == p.lastId
    ensures |p.s.h.wire.value| < 256 && |p.s.h.wire.value| >= FRAME_OFFSET
    ensures var m := p.s.h.wire.value;
      && Scan.Ends(m)
      && E.Hear(p).got == p.got + (if Taken(t, m) then FramesOf(Scan.Cuts(m)) else [])
      && ReceiveRequest(cfg, t, m).con.seqRecv == ReceiveResponse(cfg, t, m).con.seqRecv == E.Hear(p).lastId
  {
    hide O.Conserved, E.Got, Scan.Ends, Scan.Cuts, AckEvents, Parse, FramesOf, R.MarkAll, R.MarkAllHistory, R.Compacted,
      R.Occupied, R.Frees, R.WaitingFrames, SequenceId.Accepted, SequenceId.IdOf;
    var m := p.s.h.wire.value;
    Scan.PackedEnds(m);
    if Taken(t, m) {
      var cuts := Scan.Cuts(m);
      AcksKeepReceived(cfg, WithId(t, m[2]), cuts, []);
      AcksKeepReceived(cfg, AnswerDisable(Organize(Match(WithId(t, m[2]), cuts))), cuts, []);
    }
  }

  /**
   A request or response message is taken if and only if it has a header of protocol type 3 from the partner of a ready
   connection with an id 1 to 127 ahead of the last one taken; then that id is the last one taken. Any other message, of
   another sender, of another protocol, repeated or broken, changes nothing at all.
   */
  lemma TakenExactly(cfg: O.Config, t: State, m: Payload)
    ensures var q := ReceiveRequest(cfg, t, m);
      var r := ReceiveResponse(cfg, t, m);
      if |m| >= 3 && m[0] == t.con.partner >= 0x10 && m[1] == 3 && t.con.ready
        && 1 <= (m[2] - t.con.seqRecv) % 256 <= 127
      then q.con.seqRecv == r.con.seqRecv == m[2] != t.con.seqRecv
      else q == r == t
  {
    hide Scan.Cuts, AckEvents, R.MarkAll, R.MarkAllHistory, R.Compacted, R.Occupied, R.Frees, R.WaitingFrames;
    if Taken(t, m) {
      var cuts := Scan.Cuts(m);
      AcksKeepReceived(cfg, WithId(t, m[2]), cuts, []);
      AcksKeepReceived(cfg, AnswerDisable(Organize(Match(WithId(t, m[2]), cuts))), cuts, []);
    }
  }

  lemma {:induction false} AcksKeepReceived(cfg: O.Config, s: State, cuts: seq<Cut>, acked: seq<(word, word)>)
    ensures AckEvents(cfg, s, cuts, acked).con.seqRecv == s.con.seqRecv
    decreases |cuts|
  {
    hide SendFrame;
    if cuts == [] {
    } else {
      var f := cuts[0].frame;
      var ack := Frame(EventAck, f.service, f.command, []);
      SendKeepsReceived(cfg, s, ack);
      AcksKeepReceived(cfg, SendFrame(cfg, s, ack, 0).0, cuts[1..],
                       if |acked| < |s.queue| then acked + [(f.service, f.command)] else acked);
      AcksKeepReceived(cfg, s, cuts[1..], acked);
    }
  }

  lemma SendKeepsReceived(cfg: O.Config, s: State, f: Frame)
    requires O.Response(f.kind)
    ensures SendFrame(cfg, s, f, 0).0.con.seqRecv == s.con.seqRecv
  {
    hide R.Admit, O.Step, O.Fits;
  }
}
