/**
 When an instance sends an unanswered message once more, when it gives all of them up, and what it leaves behind then.
 */
module GivingUp {
  import opened Bytes
  import opened Frames
  import opened Instance
  import C = Connection
  import O = Outbox
  import QueueRuns
  import R = RepeatQueue
  import Runs = InstanceRuns
  import Scan

  /** The frame fits behind what is packed, or behind the header of a message that begins with it. */
  predicate HasRoom(cfg: O.Config, s: State, f: Frame) {
    (if s.line.o.frames == 0 then 3 else |s.line.o.tx|) + 6 + |f.payload| < cfg.size
  }

  /** Everything that waited has been reported lost, in order; both counters start over; the connection is not up. */
  predicate GaveUp(s: State, r: State) {
    && R.Occupied(r.queue) == [] && r.hist.live == [] && r.hist.lost == s.hist.lost + s.hist.live
    && r.hist.freed == s.hist.freed && r.hist.saved == s.hist.saved && r.told == s.told + R.WaitingFrames(s.queue)
    && r.con.retries == 0 && r.line.o.retries == 0 && C.Says(s.con, r.con, None, 0)
    && r.con.state == (if s.con.state.Connected? then C.Disconnected else s.con.state)
    && (s.con.state.Connected? ==> r.con.partner == s.con.backup && !r.con.notified && !r.con.disableReq)
  }

  lemma GiveUpExact(s: State)
    requires C.Inv(s.con)
    ensures GaveUp(s, GiveUp(s)) && GiveUp(s).line == s.line.(o := s.line.o.(retries := 0))
  {
    hide R.WaitingFrames, R.Occupied;
    QueueRuns.NoneOccupied(|s.queue|);
  }

  /**
   One turn of the repetition timer for an event that still waits. It is packed once more, and counted, if it has been
   sent less than six times, the connection is up and it fits into the transmit buffer. Otherwise all is given up.
   */
  lemma TurnExact(cfg: O.Config, s: State, i: nat)
    requires Runs.Inv(s) && i < |s.queue| && s.queue[i].occupied
    ensures var r := RepeatAt(cfg, s, i);
      if s.queue[i].retries < 5 && s.con.ready && HasRoom(cfg, s, s.queue[i].frame) then
        && r.queue == R.Bump(s.queue, i) && r.timer && r.hist == s.hist && r.told == s.told && r.con == s.con
        && r.line.h.accepted == s.line.h.accepted + [s.queue[i].frame] && r.line.o.frames == s.line.o.frames + 1
        && r.line.o.tx[|r.line.o.tx| - |Encode(s.queue[i].frame)|..] == Encode(s.queue[i].frame)
      else GaveUp(s, r)
  {
    hide R.Find, R.Compact, R.Accounts, R.Distinct, R.Occupied, R.WaitingFrames, Encode, GaveUp;
    var f := s.queue[i].frame;
    if s.queue[i].retries < 5 {
      var b := s.(queue := R.Bump(s.queue, i), timer := true);
      Runs.BumpSound(s.queue, s.hist, s.told, i);
      Runs.ResendKeepsQueue(cfg, b, i);
      Runs.SavedIsFound(b.queue, i);
      var (t, ok) := SendFrame(cfg, b, f, b.queue[i].retries);
      if !ok {
        GiveUpExact(t);
        BumpedWaits(s.queue, i);
        GaveUpAlike(s, t, GiveUp(t));
      }
    } else {
      GiveUpExact(s);
    }
  }

  lemma {:induction false} BumpedWaits(q: seq<R.Slot>, i: nat)
    requires i < |q| && q[i].retries < 255
    ensures R.WaitingFrames(R.Bump(q, i)) == R.WaitingFrames(q)
  {
    if i == 0 {
      assert R.Bump(q, 0)[1..] == q[1..];
    } else {
      assert R.Bump(q, i)[1..] == R.Bump(q[1..], i - 1);
      BumpedWaits(q[1..], i - 1);
      FramesCons(q);
      FramesCons(R.Bump(q, i));
    }
  }

  lemma FramesCons(q: seq<R.Slot>)
    requires q != []
    ensures R.WaitingFrames(q) == (if q[0].occupied then [q[0].frame] else []) + R.WaitingFrames(q[1..])
  {
  }

  lemma GaveUpAlike(s: State, t: State, r: State)
    requires GaveUp(t, r) && t.hist == s.hist && t.told == s.told
    requires R.WaitingFrames(t.queue) == R.WaitingFrames(s.queue)
    requires t.con == s.con.(seqSend := t.con.seqSend)
    ensures GaveUp(s, r)
  {
  }

  /**
   The bus layer gives the response message up. One for a former partner is forgotten. It is due again, with one attempt
   less, if it has any left and somebody answered on the bus; otherwise all is given up.
   */
  lemma NotDelivered(cfg: O.Config, s: State, noAck: bool)
    requires C.Inv(s.con) && s.line.air.Flying?
    ensures var r := Step(cfg, s, Undeliverable(noAck));
      && r.line.air.Ground?
      && (if s.line.o.target != s.con.partner then r == s.(line := r.line) && r.line.o == s.line.o
          else if s.line.o.retries < 5 && !noAck then
            r == s.(line := r.line) && r.line.o == s.line.o.(flag := true, retries := s.line.o.retries + 1)
          else GaveUp(s, r) && r.line.o == s.line.o.(retries := 0))
  {
    hide GiveUp, GaveUp, R.WaitingFrames, R.Occupied;
    var down := s.(line := s.line.(air := O.Ground));
    GiveUpExact(down);
    DownAlike(s, down, GiveUp(down));
  }

  lemma DownAlike(s: State, t: State, r: State)
    requires GaveUp(t, r) && t == s.(line := t.line)
    ensures GaveUp(s, r)
  {
  }

  /**
   A connection request that fails, acknowledged or not, also starts the count of the response message over; a
   connection message that does not fail leaves it alone, and neither touches queue and buffers.
   */
  lemma ConnectionFails(cfg: O.Config, s: State, noAck: bool)
    requires C.Inv(s.con)
    ensures var r := Step(cfg, s, ConAcknowledge);
      var fails := (s.con.kind.EnableRequest? || s.con.kind.DisableRequest?) && s.con.repeats == 5;
      r == s.(con := r.con, line := s.line.(o := s.line.o.(retries := if fails then 0 else s.line.o.retries)))
    ensures var r := Step(cfg, s, ConUndeliverable(noAck));
      var fails := s.con.target == s.con.partner && (s.con.retries == 5 || (noAck && !s.con.kind.EnableRequest?));
      r == s.(con := r.con, line := s.line.(o := s.line.o.(retries := if fails then 0 else s.line.o.retries)))
  {
    hide C.Delivered, C.Undeliverable;
  }

  // ---------------------------------------------------------------- what connection messages do to it

  /**
   The unanswered messages are lost with the partner's answer to a disable request, and with the disable request of a
   temporary partner. No other connection message loses or frees one, or tells anybody.
   */
  lemma LosesExactly(s: State, r: C.Received)
    requires Runs.Inv(s) && r.sender != 0
    ensures var u := ReceiveConnection(s, r);
      var answered := r.sender == s.con.partner && r.message == Some(C.DisableResponse);
      var leaves := r.sender == s.con.partner != s.con.backup && r.sender >= 0x10
                    && r.message == Some(C.TempDisableRequest);
      if r.sound && (answered || leaves) then
        && R.Occupied(u.queue) == [] && u.hist.lost == s.hist.lost + s.hist.live && u.hist.freed == s.hist.freed
        && u.told == s.told + R.WaitingFrames(s.queue)
      else R.Occupied(u.queue) == R.Occupied(s.queue) && u.hist == s.hist && u.told == s.told
  {
    hide C.Receive, R.Occupied, R.Compacted, R.WaitingFrames, Runs.Inv, R.Frees;
    QueueRuns.NoneOccupied(|s.queue|);
    R.CompactedKeeps(s.queue);
    if R.Occupied(s.queue) == [] {
      Runs.EmptyHasNoLive(s);
      NothingToLose(s);
      NothingToLose(Organize(s));
    }
  }

  lemma NothingToLose(s: State)
    requires R.Occupied(s.queue) == [] && s.hist.live == []
    ensures ClearQueue(s).hist == s.hist && ClearQueue(s).told == s.told
  {
    assert R.WaitingFrames(s.queue) == [];
    assert s.hist.lost + [] == s.hist.lost && s.told + [] == s.told;
  }

  /**
   The count of attempts of the response message starts over with an enable request or response of the partner, with the
   first partner, and with a disable that takes the connection down or answers one; a temporary partner who takes over
   inherits it.
   */
  lemma CountsAnew(s: State, r: C.Received)
    requires r.sender != 0
    ensures var ofPartner := r.sender == s.con.partner
        && (r.message == Some(C.EnableRequest) || r.message == Some(C.EnableResponse)
            || r.message == Some(C.DisableResponse)
            || (r.message == Some(C.DisableRequest) && R.Occupied(s.queue) == []));
      var first := s.con.partner == s.con.backup == 0 && r.sender >= 0x10 && r.message == Some(C.EnableRequest);
      var leaves := r.sender == s.con.partner != s.con.backup && r.sender >= 0x10
                    && r.message == Some(C.TempDisableRequest);
      ReceiveConnection(s, r).line.o.retries
      == if r.sound && (ofPartner || first || leaves) then 0 else s.line.o.retries
  {
    hide C.Receive, R.Occupied, R.Compacted, R.WaitingFrames;
  }

  // ---------------------------------------------------------------- the repetition timer

  lemma {:induction false} AcksKeepTimer(cfg: O.Config, s: State, cuts: seq<Cut>, acked: seq<(word, word)>)
    ensures AckEvents(cfg, s, cuts, acked).timer == s.timer && AckEvents(cfg, s, cuts, acked).queue == s.queue
    decreases |cuts|
  {
    hide SendFrame;
    if cuts == [] {
    } else {
      var f := cuts[0].frame;
      AckKeepsTimer(cfg, s, Frame(EventAck, f.service, f.command, []));
      AcksKeepTimer(cfg, SendFrame(cfg, s, Frame(EventAck, f.service, f.command, []), 0).0, cuts[1..],
                    if |acked| < |s.queue| then acked + [(f.service, f.command)] else acked);
      AcksKeepTimer(cfg, s, cuts[1..], acked);
    }
  }

  lemma AckKeepsTimer(cfg: O.Config, s: State, f: Frame)
    requires f.kind.EventAck?
    ensures SendFrame(cfg, s, f, 0).0.timer == s.timer && SendFrame(cfg, s, f, 0).0.queue == s.queue
  {
    hide O.Step, O.Fits, R.Find;
  }

  /**
   After it has expired, after each response message that is taken, and after a disable request of the partner the timer
   runs if and only if something waits.
   */
  lemma TimerExact(cfg: O.Config, s: State, bytes: Payload)
    requires Runs.Inv(s)
    ensures var r := ReceiveConnection(s, C.Received(s.con.partner, true, Some(C.DisableRequest)));
      s.con.partner != 0 ==> (r.timer <==> R.Occupied(r.queue) != [])
    ensures var r := TimerAction(cfg, s); s.timer ==> (r.timer <==> R.Occupied(r.queue) != [])
    ensures var r := ReceiveResponse(cfg, s, bytes); Taken(s, bytes) ==> (r.timer <==> R.Occupied(r.queue) != [])
  {
    hide R.Occupied, R.Compacted, Repeat, R.MarkAll, R.MarkAllHistory, AckEvents, Scan.Cuts, Runs.Sound,
      R.WaitingFrames, R.Frees, C.Receive;
    Runs.TimerInv(cfg, s);
    R.CompactedKeeps(s.queue);
    QueueRuns.NoneOccupied(|s.queue|);
    R.CompactedKeeps(Repeat(cfg, s.(timer := false), 0).queue);
    if Taken(s, bytes) {
      Runs.ReceiveInv(cfg, s, bytes);
      var m := Match(WithId(s, bytes[2]), Scan.Cuts(bytes));
      R.CompactedKeeps(m.queue);
      QueueRuns.NoneOccupied(|m.queue|);
      AcksKeepTimer(cfg, AnswerDisable(Organize(m)), Scan.Cuts(bytes), []);
    }
  }
}
