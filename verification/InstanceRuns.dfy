/** What holds of one DBal instance over every sequence of events. */
module InstanceRuns {
  import opened Bytes
  import opened Frames
  import opened Instance
  import opened QueueRuns
  import C = Connection
  import O = Outbox
  import R = RepeatQueue
  import Scan

  // ---------------------------------------------------------------- the queue of unanswered messages

  /** The main instance never sends commands or queries. */
  predicate OnlyEvents(q: seq<R.Slot>) {
    forall i :: 0 <= i < |q| && q[i].occupied ==> q[i].frame.kind.Event?
  }

  predicate FewRetries(q: seq<R.Slot>) {
    forall i :: 0 <= i < |q| && q[i].occupied ==> q[i].retries <= C.RETRY_MAX
  }

  /** The queue is in order, and what waits in it are events that may still be repeated. */
  ghost predicate Sound(q: seq<R.Slot>, h: R.History, told: seq<Frame>) {
    Kept(q, h, told) && OnlyEvents(q) && FewRetries(q)
  }

  ghost predicate Inv(s: State) {
    && C.Inv(s.con)
    && Sound(s.queue, s.hist, s.told)
    && (R.Occupied(s.queue) != [] ==> s.timer)
  }

  lemma AdmitSound(q: seq<R.Slot>, h: R.History, told: seq<Frame>, f: Frame, repetition: byte)
    requires Sound(q, h, told) && O.Response(f.kind)
    ensures var (r, ok) := R.Admit(q, f, repetition);
      var added := ok && R.IsNew(q, f);
      && Sound(r, if added then R.SaveHistory(h, f) else h, told)
      && (R.Occupied(r) != [] ==> added || R.Occupied(q) != [])
      && (!added ==> r == q)
  {
    hide Kept, R.Find, R.Occupied;
    AdmitKept(q, h, told, f, repetition);
  }

  lemma ClearSound(q: seq<R.Slot>, h: R.History, told: seq<Frame>)
    requires Sound(q, h, told)
    ensures Sound(R.Frees(|q|), R.LoseHistory(h), told + R.WaitingFrames(q)) && R.Occupied(R.Frees(|q|)) == []
  {
    hide Kept, R.Occupied, R.WaitingFrames;
    LoseKept(q, h, told);
    NoneOccupied(|q|);
  }

  lemma BumpSound(q: seq<R.Slot>, h: R.History, told: seq<Frame>, i: nat)
    requires Sound(q, h, told) && i < |q| && q[i].occupied && q[i].retries < C.RETRY_MAX
    ensures Sound(R.Bump(q, i), h, told) && R.Occupied(R.Bump(q, i)) != []
  {
    hide Kept, R.Occupied;
    CountKept(q, h, told, i);
  }

  /** Every slot of b is one of a, or a slot of a that is no longer occupied. */
  predicate Fewer(a: seq<R.Slot>, b: seq<R.Slot>) {
    forall i :: 0 <= i < |b| && b[i].occupied ==> b[i] in a
  }

  lemma {:induction false} MarkAllFewer(q: seq<R.Slot>, cuts: seq<Cut>)
    ensures Fewer(q, R.MarkAll(q, cuts))
    decreases |cuts|
  {
    if cuts == [] {
    } else {
      MarkAllFewer(R.Mark(q, cuts[0]), cuts[1..]);
    }
  }

  /** Responses free some of the messages; what remains is compacted. */
  lemma MatchSound(q: seq<R.Slot>, h: R.History, told: seq<Frame>, cuts: seq<Cut>)
    requires Sound(q, h, told)
    ensures var r := R.Compacted(R.MarkAll(q, cuts));
      && Sound(r, R.MarkAllHistory(h, cuts), told)
      && (R.Occupied(r) != [] ==> R.Occupied(q) != [])
      && R.Occupied(r) == R.Occupied(R.MarkAll(q, cuts))
  {
    hide Kept, R.Occupied;
    var m := R.MarkAll(q, cuts);
    MatchKept(q, h, told, cuts);
    R.CompactedKeeps(m);
    MarkAllFewer(q, cuts);
    OccupiedIn(q);
    OccupiedIn(m);
    OccupiedIn(R.Compacted(m));
    if R.Occupied(m) != [] {
      var s := R.Occupied(m)[0];
      assert s in R.Occupied(m);
      assert s in R.Occupied(q);
    }
  }

  // ---------------------------------------------------------------- every operation keeps it

  lemma SendInv(cfg: O.Config, s: State, f: Frame, repetition: byte)
    requires Inv(s) && O.Response(f.kind)
    ensures Inv(SendFrame(cfg, s, f, repetition).0)
  {
    hide Sound, R.Occupied, R.Admit, O.Step, O.Fits, R.IsNew;
    AdmitSound(s.queue, s.hist, s.told, f, repetition);
  }

  lemma GiveUpInv(s: State)
    requires C.Inv(s.con) && Sound(s.queue, s.hist, s.told)
    ensures Inv(GiveUp(s)) && R.Occupied(GiveUp(s).queue) == [] && !GiveUp(s).con.state.Connected?
  {
    hide Sound, R.Occupied, R.WaitingFrames, R.Frees;
    ClearSound(s.queue, s.hist, s.told);
    C.SmInv(s.con.(retries := 0), C.DisableSilent);
  }

  lemma SavedIsFound(q: seq<R.Slot>, i: nat)
    requires R.Compact(q) && i < |q| && q[i].occupied
    ensures R.Find(q, q[i].frame, 0).0
  {
    hide R.Find, R.Compact;
    R.FindExact(q, q[i].frame, 0);
    assert R.Contains(q, q[i].frame);
  }

  /** A repetition leaves the queue as it is. */
  lemma ResendKeepsQueue(cfg: O.Config, s: State, i: nat)
    requires Inv(s) && i < |s.queue| && s.queue[i].occupied && s.queue[i].retries > 0
    ensures var (t, ok) := SendFrame(cfg, s, s.queue[i].frame, s.queue[i].retries);
      Inv(t) && t.queue == s.queue && t.timer == s.timer
  {
    hide R.Find, R.Compact, R.Accounts, R.Distinct, O.Step, O.Fits;
    SavedIsFound(s.queue, i);
    SendInv(cfg, s, s.queue[i].frame, s.queue[i].retries);
  }

  /** One turn of the repetition timer: the message is counted and sent again, or the whole queue is given up. */
  lemma RepeatAtInv(cfg: O.Config, s: State, i: nat)
    requires C.Inv(s.con) && Sound(s.queue, s.hist, s.told) && i < |s.queue|
    requires R.Occupied(s.queue) != [] && i > 0 ==> s.timer
    ensures var r := RepeatAt(cfg, s, i);
      && Inv(r)
      && (R.Occupied(r.queue) == [] || r.queue == (if s.queue[i].occupied then R.Bump(s.queue, i) else s.queue))
      && (R.Occupied(r.queue) == [] && R.Occupied(s.queue) != [] ==> !r.con.state.Connected?)
  {
    hide R.Accounts, R.Occupied, R.Distinct, FramesAt, SendFrame, R.Compact;
    if !s.queue[i].occupied {
      R.CompactSlots(s.queue);
    } else if s.queue[i].retries < C.RETRY_MAX {
      var b := s.(queue := R.Bump(s.queue, i), timer := true);
      BumpSound(s.queue, s.hist, s.told, i);
      ResendKeepsQueue(cfg, b, i);
      var (t, ok) := SendFrame(cfg, b, b.queue[i].frame, b.queue[i].retries);
      if !ok {
        GiveUpInv(t);
      }
    } else {
      GiveUpInv(s);
    }
  }

  /** With nothing waiting the turns of the loop change nothing. */
  lemma {:induction false} RepeatIdle(cfg: O.Config, s: State, i: nat)
    requires R.Compact(s.queue) && R.Occupied(s.queue) == []
    ensures Repeat(cfg, s, i) == s
    decreases |s.queue| - i
  {
    hide R.Occupied, R.Compact, SendFrame, GiveUp;
    R.CompactSlots(s.queue);
    if i >= |s.queue| {
    } else {
      RepeatIdle(cfg, s, i + 1);
    }
  }

  /** All turns: every message is counted and sent again, or the queue ends up empty. */
  lemma {:induction false} RepeatInv(cfg: O.Config, s: State, i: nat)
    requires C.Inv(s.con) && Sound(s.queue, s.hist, s.told) && i <= |s.queue|
    requires R.Occupied(s.queue) != [] && i > 0 ==> s.timer
    ensures var r := Repeat(cfg, s, i);
      && Inv(r)
      && (R.Occupied(r.queue) == [] || Counted(s.queue, r.queue, i))
      && (R.Occupied(r.queue) == [] && R.Occupied(s.queue) != [] ==> !r.con.state.Connected?)
    decreases |s.queue| - i
  {
    hide C.Inv, RepeatAt, R.Occupied, R.Accounts, R.Compact, R.Distinct, FewRetries, FramesAt;
    if i >= |s.queue| {
    } else {
      RepeatAtInv(cfg, s, i);
      var r := RepeatAt(cfg, s, i);
      if R.Occupied(r.queue) == [] {
        RepeatIdle(cfg, r, i + 1);
      } else {
        RepeatInv(cfg, r, i + 1);
      }
    }
  }

  /** From position i on, every queued message has one more repetition, and nothing else changed. */
  predicate Counted(a: seq<R.Slot>, b: seq<R.Slot>, i: nat) {
    && |a| == |b|
    && forall k :: 0 <= k < |a| ==>
      b[k].occupied == a[k].occupied && b[k].frame == a[k].frame
      && b[k].retries as int == a[k].retries as int + (if k >= i && a[k].occupied then 1 else 0)
  }

  // ---------------------------------------------------------------- every event keeps it

  lemma TimerInv(cfg: O.Config, s: State)
    requires Inv(s)
    ensures Inv(TimerAction(cfg, s))
    ensures s.timer ==> R.Occupied(TimerAction(cfg, s).queue) == [] || Counted(s.queue, TimerAction(cfg, s).queue, 0)
    ensures R.Occupied(s.queue) != [] && R.Occupied(TimerAction(cfg, s).queue) == [] ==>
      !TimerAction(cfg, s).con.state.Connected?
  {
    hide C.Inv, Repeat, R.Occupied, R.Accounts, R.Distinct, FewRetries, FramesAt, R.Compact;
    if s.timer {
      var t := s.(timer := false);
      RepeatInv(cfg, t, 0);
      CompactStays(Repeat(cfg, t, 0).queue);
    }
  }

  lemma {:induction false} AckEventsInv(cfg: O.Config, s: State, cuts: seq<Cut>, acked: seq<(word, word)>)
    requires Inv(s)
    ensures Inv(AckEvents(cfg, s, cuts, acked))
    decreases |cuts|
  {
    hide Inv, SendFrame;
    if cuts == [] {
    } else {
      var f := cuts[0].frame;
      var ack := Frame(EventAck, f.service, f.command, []);
      SendInv(cfg, s, ack, 0);
      AckEventsInv(cfg, SendFrame(cfg, s, ack, 0).0, cuts[1..],
                   if |acked| < |s.queue| then acked + [(f.service, f.command)] else acked);
      AckEventsInv(cfg, s, cuts[1..], acked);
    }
  }

  lemma WithIdInv(s: State, id: byte)
    requires Inv(s)
    ensures Inv(WithId(s, id))
  {
    hide Sound, R.Occupied;
  }

  lemma MatchInv(s: State, cuts: seq<Cut>)
    requires Inv(s)
    ensures Inv(Organize(Match(s, cuts)))
  {
    hide Sound, R.Occupied, C.Inv, R.MarkAll, R.Compacted, R.MarkAllHistory;
    MatchSound(s.queue, s.hist, s.told, cuts);
  }

  lemma OrganizeInv(s: State)
    requires Inv(s)
    ensures Inv(Organize(s)) && Organize(s).queue == s.queue
  {
  }

  lemma ClearQueueInv(s: State)
    requires Inv(s)
    ensures Inv(ClearQueue(s)) && Inv(ClearCounters(ClearQueue(s)))
  {
    hide Sound, R.Occupied, R.WaitingFrames, R.Frees;
    ClearSound(s.queue, s.hist, s.told);
  }

  lemma AnswerDisableInv(s: State)
    requires Inv(s)
    ensures Inv(AnswerDisable(s))
  {
    hide Sound, R.Occupied, ClearQueue, ClearCounters, C.Sm, C.Inv;
    ClearQueueInv(s);
    var t := ClearCounters(ClearQueue(s));
    C.SmInv(t.con, C.DisableRequested);
  }

  lemma ReceiveInv(cfg: O.Config, s: State, bytes: Payload)
    requires Inv(s)
    ensures Inv(ReceiveRequest(cfg, s, bytes)) && Inv(ReceiveResponse(cfg, s, bytes))
  {
    hide Inv, AckEvents, AnswerDisable, Organize, Match, Scan.Cuts, WithId;
    if Taken(s, bytes) {
      var cuts := Scan.Cuts(bytes);
      var t := WithId(s, bytes[2]);
      WithIdInv(s, bytes[2]);
      AckEventsInv(cfg, t, cuts, []);
      MatchInv(t, cuts);
      AnswerDisableInv(Organize(Match(t, cuts)));
      AckEventsInv(cfg, AnswerDisable(Organize(Match(t, cuts))), cuts, []);
    }
  }

  lemma ReceiveConnectionInv(s: State, r: C.Received)
    requires Inv(s)
    ensures Inv(ReceiveConnection(s, r))
  {
    hide Sound, C.Inv, C.Receive, C.Classify, Resets, Drops, AsksDisable, Organize, ClearQueue, R.Occupied;
    C.ReceiveInv(s.con, r, R.Occupied(s.queue) != []);
    OrganizeInv(s);
    ClearQueueInv(s);
    ClearQueueInv(Organize(s));
  }

  lemma UndeliveredInv(cfg: O.Config, s: State, noAck: bool)
    requires Inv(s) && s.line.air.Flying?
    ensures Inv(Undelivered(cfg, s, noAck))
  {
    hide Sound, C.Inv, GiveUp, O.Step, R.Occupied;
    GiveUpInv(s.(line := s.line.(air := O.Ground)));
  }

  lemma ConnectionInv(s: State, e: Event)
    requires Inv(s) && Possible(s, e)
    requires e.Enable? || e.Disable? || e.ConPick? || e.ConAcknowledge? || e.ConUndeliverable? || e.ConTimeout?
      || e.WakeUp? || e.Break? || e.BreakTimeout?
    ensures forall cfg :: Inv(Step(cfg, s, e))
  {
    hide Sound, C.Sm, C.TxFail, R.Occupied, C.Delivered, C.Undeliverable, C.DeliveredFails, C.UndeliverableFails;
    C.SmInv(s.con, C.Enable);
    C.SmInv(s.con, C.Disable);
    C.FailInv(s.con);
  }

  lemma StepInv(cfg: O.Config, s: State, e: Event)
    requires Inv(s) && Possible(s, e)
    ensures Inv(Step(cfg, s, e))
  {
    hide Sound, C.Inv, SendFrame, TimerAction, ReceiveConnection, ReceiveRequest, ReceiveResponse, Undelivered,
      R.Occupied, O.Step;
    match e
    case Send(f) => SendInv(cfg, s, f, 0);
    case Undeliverable(noAck) => UndeliveredInv(cfg, s, noAck);
    case Timeout => TimerInv(cfg, s);
    case ConMessage(r) => ReceiveConnectionInv(s, r);
    case Request(bytes) => ReceiveInv(cfg, s, bytes);
    case Response(bytes) => ReceiveInv(cfg, s, bytes);
    case Pick(_) =>
    case Acknowledge =>
    case Failure =>
    case _ => ConnectionInv(s, e);
  }

  // ---------------------------------------------------------------- runs

  predicate AllPossible(cfg: O.Config, s: State, es: seq<Event>)
    decreases |es|
  {
    es == [] || (Possible(s, es[0]) && AllPossible(cfg, Step(cfg, s, es[0]), es[1..]))
  }

  function Run(cfg: O.Config, s: State, es: seq<Event>): State
    requires AllPossible(cfg, s, es)
    decreases |es|
  {
    if es == [] then s else Run(cfg, Step(cfg, s, es[0]), es[1..])
  }

  lemma NoEvents(cfg: O.Config, s: State)
    ensures AllPossible(cfg, s, []) && Run(cfg, s, []) == s
  {
  }

  lemma {:induction false} OneMore(cfg: O.Config, s: State, es: seq<Event>, e: Event)
    requires AllPossible(cfg, s, es) && Possible(Run(cfg, s, es), e)
    ensures AllPossible(cfg, s, es + [e]) && Run(cfg, s, es + [e]) == Step(cfg, Run(cfg, s, es), e)
    decreases |es|
  {
    hide Possible, Step;
    if es == [] {
      assert [] + [e] == [e];
    } else {
      assert (es + [e])[1..] == es[1..] + [e];
      OneMore(cfg, Step(cfg, s, es[0]), es[1..], e);
    }
  }

  lemma {:induction false} RunOn(cfg: O.Config, s: State, es: seq<Event>, more: seq<Event>)
    requires AllPossible(cfg, s, es) && AllPossible(cfg, Run(cfg, s, es), more)
    ensures AllPossible(cfg, s, es + more) && Run(cfg, s, es + more) == Run(cfg, Run(cfg, s, es), more)
    decreases |es|
  {
    hide Possible, Step;
    if es == [] {
      assert [] + more == more;
    } else {
      assert (es + more)[1..] == es[1..] + more;
      RunOn(cfg, Step(cfg, s, es[0]), es[1..], more);
    }
  }

  lemma InitialInv(partner: byte, size: nat)
    ensures Inv(Initial(partner, size))
  {
    hide Kept, R.Occupied;
    NoneOccupied(size);
    EmptyKept(size);
  }

  lemma {:induction false} RunInv(cfg: O.Config, s: State, es: seq<Event>)
    requires Inv(s) && AllPossible(cfg, s, es)
    ensures Inv(Run(cfg, s, es))
    decreases |es|
  {
    hide Inv, Step, Possible;
    if es == [] {
    } else {
      StepInv(cfg, s, es[0]);
      RunInv(cfg, Step(cfg, s, es[0]), es[1..]);
    }
  }

  /**
   Conservation over every run: each message ever saved is waiting, was freed by a response, or was reported lost,
   exactly one of the three and exactly once; the reports came in the order the messages were saved; no two waiting
   messages are equal; and while any message waits the timer that repeats it runs.
   */
  lemma EveryMessageAccountedFor(cfg: O.Config, partner: byte, size: nat, es: seq<Event>)
    requires AllPossible(cfg, Initial(partner, size), es)
    ensures var s := Run(cfg, Initial(partner, size), es);
      && OneOfThree(s.hist)
      && s.told == FramesAt(s.hist.saved, s.hist.lost) && R.Increasing(s.hist.lost + s.hist.live)
      && R.WaitingFrames(s.queue) == FramesAt(s.hist.saved, s.hist.live)
      && R.Distinct(s.queue) && (s.hist.live != [] ==> s.timer)
  {
    hide Run, AllPossible, Kept, FramesAt, R.WaitingFrames, R.Increasing, OneOfThree, R.Distinct;
    InitialInv(partner, size);
    RunInv(cfg, Initial(partner, size), es);
    var s := Run(cfg, Initial(partner, size), es);
    KeptMeans(s.queue, s.hist, s.told);
    EmptyHasNoLive(s);
  }

  /** Each registered callback is called with exactly the waiting messages, in queue order. */
  lemma CallbacksToldAlike(q: seq<R.Slot>, callback: nat)
    ensures |R.Calls(q, callback)| == |R.WaitingFrames(q)|
    ensures forall i :: 0 <= i < |R.WaitingFrames(q)| ==> R.Calls(q, callback)[i] == (callback, R.WaitingFrames(q)[i])
  {
    R.CallsExact(q, callback);
  }

  // ---------------------------------------------------------------- no message waits forever

  /** n times: the timer expires and no response has come. */
  function Timeouts(cfg: O.Config, s: State, n: nat): State
    decreases n
  {
    if n == 0 then s else Timeouts(cfg, TimerAction(cfg, s), n - 1)
  }

  predicate AllTried(q: seq<R.Slot>, n: int) {
    forall i :: 0 <= i < |q| && q[i].occupied ==> q[i].retries as int >= n
  }

  lemma EmptyHasNoLive(s: State)
    requires Inv(s)
    ensures R.Occupied(s.queue) == [] <==> s.hist.live == []
  {
    hide R.Occupied, R.Compact, FramesAt;
    Accounted(s.queue, s.hist);
    R.LabelsOfOccupied(s.queue, s.hist.live, s.hist.saved);
  }

  lemma TriedOnceMore(cfg: O.Config, s: State, tried: nat)
    requires Inv(s) && AllTried(s.queue, tried)
    ensures Inv(TimerAction(cfg, s)) && AllTried(TimerAction(cfg, s).queue, tried + 1)
  {
    hide C.Inv, R.Accounts, R.Distinct, FewRetries, FramesAt, TimerAction, R.Compact, R.Occupied;
    TimerInv(cfg, s);
    R.CompactSlots(s.queue);
    R.CompactSlots(TimerAction(cfg, s).queue);
    if !s.timer {
      Unchanged(cfg, s);
    }
  }

  lemma Unchanged(cfg: O.Config, s: State)
    requires !s.timer
    ensures TimerAction(cfg, s) == s
  {
  }

  /**
   Without responses everything is given up with the expiry after the last repetition at the latest: nothing waits any
   more.
   */
  lemma {:induction false} GivenUpInTheEnd(cfg: O.Config, s: State, tried: nat)
    requires Inv(s) && tried <= C.RETRY_MAX as int + 1 && AllTried(s.queue, tried)
    ensures var t := Timeouts(cfg, s, C.RETRY_MAX as int + 1 - tried);
      Inv(t) && t.hist.live == []
    decreases C.RETRY_MAX as int + 1 - tried
  {
    hide C.Inv, R.Accounts, R.Distinct, FramesAt, TimerAction, R.Compact, R.Occupied;
    if tried == C.RETRY_MAX as int + 1 {
      R.OccupiedNone(s.queue);
      EmptyHasNoLive(s);
    } else {
      TriedOnceMore(cfg, s, tried);
      GivenUpInTheEnd(cfg, TimerAction(cfg, s), tried + 1);
    }
  }

  /** When the repetition timer gives the queue up it also takes the connection down. */
  lemma GivingUpCloses(cfg: O.Config, s: State)
    requires Inv(s) && s.hist.live != [] && TimerAction(cfg, s).hist.live == []
    ensures !TimerAction(cfg, s).con.state.Connected?
  {
    hide Inv, TimerAction, R.Occupied;
    TimerInv(cfg, s);
    EmptyHasNoLive(s);
    EmptyHasNoLive(TimerAction(cfg, s));
  }

  // ---------------------------------------------------------------- the connection's own events

  /**
   What the connection timer and a node that has woken up bring about: the last connection message once more for the
   partner, or an enable request. Nothing else of the instance changes.
   */
  lemma ConnectionTimers(cfg: O.Config, s: State)
    ensures var r := Step(cfg, s, ConTimeout);
      if s.con.timer.Off? then r == s
      else r == s.(con := s.con.(timer := C.Off, flag := true, target := s.con.partner))
    ensures var r := Step(cfg, s, WakeUp);
      if !s.con.timer.Recovery? then r == s
      else r == s.(con := s.con.(timer := C.Off, kind := C.EnableRequest, flag := true, target := s.con.partner))
    ensures Step(cfg, s, ConPick) == s.(con := s.con.(flag := false))
  {
    hide TimerAction, ReceiveConnection, ReceiveRequest, ReceiveResponse, SendFrame, C.Sm;
  }

  /** A connection that is not open when the time after a break is over is closed without a word. */
  lemma BreakEnds(cfg: O.Config, s: State)
    requires C.Inv(s.con)
    ensures var r := Step(cfg, Step(cfg, s, Break), BreakTimeout);
      && r == s.(con := r.con) && C.Says(s.con, r.con, None, 0) && !r.con.breakTimer
      && r.con.state == (if s.con.state.Connected? then C.Connected else C.Disconnected)
  {
    hide TimerAction, ReceiveConnection, ReceiveRequest, ReceiveResponse, SendFrame, C.Sm;
  }
}
