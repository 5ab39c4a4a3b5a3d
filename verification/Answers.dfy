/** An event from the instance that sends it to its partner and back: the acknowledge the partner sends frees it. */
module Answers {
  import opened Bytes
  import opened Frames
  import opened Instance
  import Line = InstanceLine
  import O = Outbox
  import R = RepeatQueue
  import Runs = InstanceRuns
  import Scan

  /** The acknowledge of an event. */
  function AckOf(service: word, command: word): Frame {
    Frame(EventAck, service, command, [])
  }

  /** The transmit buffer has room for n more acknowledges. */
  predicate RoomFor(cfg: O.Config, s: State, n: nat) {
    (if s.line.o.frames == 0 then FRAME_OFFSET else |s.line.o.tx|) + n * DATA_OFFSET < cfg.size
  }

  lemma AckIsAppended(cfg: O.Config, s: State, service: word, command: word)
    requires Line.LineOk(cfg, s) && s.con.ready && RoomFor(cfg, s, 1)
    ensures var (t, ok) := SendFrame(cfg, s, AckOf(service, command), 0);
      && ok && Line.LineOk(cfg, t) && t.con == s.con.(seqSend := t.con.seqSend) && t.line.o.rep == s.line.o.rep
      && Content(t.line.o.tx) == Content(s.line.o.tx) + [AckOf(service, command)]
      && t.line.o.frames == s.line.o.frames + 1 && t.queue == s.queue && t.hist == s.hist
      && |t.line.o.tx| == (if s.line.o.frames == 0 then FRAME_OFFSET else |s.line.o.tx|) + DATA_OFFSET
  {
    hide O.Conserved, Encode, Content, End;
    var f := AckOf(service, command);
    Line.SendLine(cfg, s, f, 0);
    var o := O.Header(cfg, s.line.o, NextIds(s, 0).seqSend);
    if s.line.o.frames == 0 {
      O.EmptyHasNone(cfg, o.tx);
      O.EmptyHasNone(cfg, s.line.o.tx);
    }
    ContentAppend(o.tx, f);
  }

  /** The acknowledges sent for the cuts are in the buffer behind what was there, one for every event among them. */
  lemma {:induction false} AcksAreSent(cfg: O.Config, s: State, cuts: seq<Cut>, acked: seq<(word, word)>)
    requires Line.LineOk(cfg, s) && s.con.ready && RoomFor(cfg, s, |cuts|)
    requires forall p :: p in acked ==> AckOf(p.0, p.1) in Content(s.line.o.tx)
    ensures var t := AckEvents(cfg, s, cuts, acked);
      && Line.LineOk(cfg, t) && t.line.o.rep == s.line.o.rep && Content(s.line.o.tx) <= Content(t.line.o.tx)
      && t.queue == s.queue && t.hist == s.hist && t.con == s.con.(seqSend := t.con.seqSend)
      && forall i :: 0 <= i < |cuts| && cuts[i].whole && cuts[i].frame.kind.Event? ==>
           AckOf(cuts[i].frame.service, cuts[i].frame.command) in Content(t.line.o.tx)
    decreases |cuts|
  {
    hide SendFrame, Line.LineOk, Content;
    if cuts == [] {
    } else {
      var f := cuts[0].frame;
      var rest := cuts[1..];
      var key := (f.service, f.command);
      if cuts[0].whole && f.kind.Event? && key !in acked {
        AckIsAppended(cfg, s, f.service, f.command);
        var t := SendFrame(cfg, s, AckOf(f.service, f.command), 0).0;
        assert Content(t.line.o.tx)[|Content(s.line.o.tx)|] == AckOf(f.service, f.command);
        AcksAreSent(cfg, t, rest, if |acked| < |s.queue| then acked + [key] else acked);
      } else {
        AcksAreSent(cfg, s, rest, acked);
      }
      assert forall i :: 0 < i < |cuts| ==> cuts[i] == rest[i - 1];
    }
  }

  /** A whole event of the message. */
  predicate IsEvent(c: Cut) {
    c.whole && c.frame.kind.Event?
  }

  function KeyOf(c: Cut): (word, word) {
    (c.frame.service, c.frame.command)
  }

  /** The different events of a message, in the order in which they first occur. */
  function Keys(cuts: seq<Cut>): seq<(word, word)> {
    if cuts == [] then []
    else
      var init, c := cuts[..|cuts| - 1], cuts[|cuts| - 1];
      if IsEvent(c) && KeyOf(c) !in Keys(init) then Keys(init) + [KeyOf(c)] else Keys(init)
  }

  /** The first n of them. */
  function FirstKeys(cuts: seq<Cut>, n: nat): seq<(word, word)> {
    Keys(cuts)[..if |Keys(cuts)| < n then |Keys(cuts)| else n]
  }

  /** One acknowledge for each different event; only the first n different ones are remembered. */
  function Acks(cuts: seq<Cut>, n: nat): seq<Frame> {
    if cuts == [] then []
    else
      var init, c := cuts[..|cuts| - 1], cuts[|cuts| - 1];
      Acks(init, n) + if IsEvent(c) && KeyOf(c) !in FirstKeys(init, n) then [AckOf(KeyOf(c).0, KeyOf(c).1)] else []
  }

  /** What is remembered after one frame more. */
  lemma KeysMore(done: seq<Cut>, c: Cut, n: nat)
    ensures var known := FirstKeys(done, n);
      && FirstKeys(done + [c], n)
         == (if IsEvent(c) && KeyOf(c) !in known && |known| < n then known + [KeyOf(c)] else known)
      && Acks(done + [c], n)
         == Acks(done, n) + if IsEvent(c) && KeyOf(c) !in known then [AckOf(KeyOf(c).0, KeyOf(c).1)] else []
  {
    assert (done + [c])[..|done|] == done;
  }

  /**
   The rest of a message of which the frames done are dealt with, the acknowledges for those behind what was there.
   */
  lemma {:induction false} AcksOfRest(cfg: O.Config, s: State, before: seq<Frame>, done: seq<Cut>, cuts: seq<Cut>)
    requires Line.LineOk(cfg, s) && s.con.ready && RoomFor(cfg, s, |cuts|)
    requires Content(s.line.o.tx) == before + Acks(done, |s.queue|)
    ensures var t := AckEvents(cfg, s, cuts, FirstKeys(done, |s.queue|));
      Content(t.line.o.tx) == before + Acks(done + cuts, |s.queue|)
    decreases |cuts|
  {
    hide SendFrame, Line.LineOk, Content, Acks, FirstKeys, Keys, IsEvent;
    if cuts == [] {
      assert done + [] == done;
    } else {
      var c, n := cuts[0], |s.queue|;
      KeysMore(done, c, n);
      assert (done + [c]) + cuts[1..] == done + cuts;
      var known := FirstKeys(done, n);
      if IsEvent(c) && KeyOf(c) !in known {
        AckIsAppended(cfg, s, c.frame.service, c.frame.command);
        var t := SendFrame(cfg, s, AckOf(c.frame.service, c.frame.command), 0).0;
        assert before + Acks(done, n) + [AckOf(c.frame.service, c.frame.command)] == before + Acks(done + [c], n);
        AcksOfRest(cfg, t, before, done + [c], cuts[1..]);
      } else {
        AcksOfRest(cfg, s, before, done + [c], cuts[1..]);
      }
      EventsAcked(cfg, s, cuts, known);
    }
  }

  /** One turn of the scan. */
  lemma EventsAcked(cfg: O.Config, s: State, cuts: seq<Cut>, known: seq<(word, word)>)
    requires cuts != []
    ensures var c := cuts[0];
      AckEvents(cfg, s, cuts, known) == if IsEvent(c) && KeyOf(c) !in known then
        AckEvents(cfg, SendFrame(cfg, s, AckOf(c.frame.service, c.frame.command), 0).0, cuts[1..],
                  if |known| < |s.queue| then known + [KeyOf(c)] else known)
      else AckEvents(cfg, s, cuts[1..], known)
  {
    hide SendFrame;
  }

  /**
   The acknowledges sent for a message are exactly these, behind what was in the buffer: each different event is
   acknowledged once, in the order of the message, as long as there are no more of them than can be remembered.
   */
  lemma AcksExactly(cfg: O.Config, s: State, cuts: seq<Cut>)
    requires Line.LineOk(cfg, s) && s.con.ready && RoomFor(cfg, s, |cuts|)
    ensures var t := AckEvents(cfg, s, cuts, []);
      && Content(t.line.o.tx) == Content(s.line.o.tx) + Acks(cuts, |s.queue|)
      && (|Keys(cuts)| <= |s.queue| ==>
            |Acks(cuts, |s.queue|)| == |Keys(cuts)| &&
            forall i :: 0 <= i < |Keys(cuts)| ==> Acks(cuts, |s.queue|)[i] == AckOf(Keys(cuts)[i].0, Keys(cuts)[i].1))
  {
    hide AckEvents, Line.LineOk, Content;
    AcksOfRest(cfg, s, Content(s.line.o.tx), [], cuts);
    assert [] + cuts == cuts;
    if |Keys(cuts)| <= |s.queue| {
      EachOnce(cuts, |s.queue|);
    }
  }

  lemma {:induction false} EachOnce(cuts: seq<Cut>, n: nat)
    requires |Keys(cuts)| <= n
    ensures |Acks(cuts, n)| == |Keys(cuts)|
    ensures forall i :: 0 <= i < |Keys(cuts)| ==> Acks(cuts, n)[i] == AckOf(Keys(cuts)[i].0, Keys(cuts)[i].1)
  {
    hide IsEvent;
    if cuts == [] {
    } else {
      EachOnce(cuts[..|cuts| - 1], n);
    }
  }

  // ---------------------------------------------------------------- there

  lemma {:induction false} FrameOfCut(cuts: seq<Cut>, f: Frame)
    requires f in FramesOf(cuts)
    ensures exists i :: 0 <= i < |cuts| && cuts[i].whole && cuts[i].frame == f
  {
    if cuts[0].whole && cuts[0].frame == f {
    } else {
      FrameOfCut(cuts[1..], f);
      var i :| 0 <= i < |cuts[1..]| && cuts[1..][i].whole && cuts[1..][i].frame == f;
      assert cuts[i + 1] == cuts[1..][i];
    }
  }

  /** The partner takes a message with the event, and its acknowledge waits in the partner's transmit buffer. */
  lemma PartnerAcknowledges(cfg: O.Config, t: State, m: Payload, e: Frame)
    requires Line.LineOk(cfg, t) && Taken(t, m) && e.kind.Event? && e in FramesOf(Scan.Cuts(m))
    requires RoomFor(cfg, t, |Scan.Cuts(m)|)
    ensures var u := ReceiveRequest(cfg, t, m);
      && Line.LineOk(cfg, u) && u.line.o.rep == t.line.o.rep && u.con.ready
      && AckOf(e.service, e.command) in Content(u.line.o.tx)
  {
    hide AckEvents, Scan.Cuts, FramesOf, Parse, O.Good;
    var cuts := Scan.Cuts(m);
    FrameOfCut(cuts, e);
    AcksAreSent(cfg, WithId(t, m[2]), cuts, []);
  }

  // ---------------------------------------------------------------- and back

  lemma LiveIsNotFreed(h: R.History, id: nat)
    requires R.OnePlace(h) && id in h.live
    ensures id < |h.saved| && id !in h.freed
  {
    assert R.Places(h)[id] == multiset(h.live)[id] + multiset(h.freed)[id] + multiset(h.lost)[id];
    assert multiset(h.live)[id] > 0;
  }

  /** A received acknowledge of the event takes it out of the waiting messages and counts it as freed, once. */
  lemma AcknowledgeFrees(cfg: O.Config, s: State, w: Payload, id: nat)
    requires Runs.Inv(s) && Taken(s, w) && id in s.hist.live && id < |s.hist.saved|
    requires s.hist.saved[id].kind.Event?
    requires AckOf(s.hist.saved[id].service, s.hist.saved[id].command) in FramesOf(Scan.Cuts(w))
    ensures var r := ReceiveResponse(cfg, s, w);
      id in r.hist.freed && id !in r.hist.live && id !in r.hist.lost && r.hist.saved == s.hist.saved
  {
    hide AckEvents, Scan.Cuts, FramesOf, Runs.Inv, R.MarkAllHistory, R.MarkAll, R.Occupied, R.Compacted, R.Frees,
      R.WaitingFrames, R.Acknowledges;
    var cuts := Scan.Cuts(w);
    var e := s.hist.saved[id];
    WaitingIsNotFreed(s, id);
    var ack := AckOf(e.service, e.command);
    FrameOfCut(cuts, ack);
    AckAcknowledges(e);
    R.FreedExactly(s.hist, cuts, id);
    var m := Organize(Match(WithId(s, w[2]), cuts));
    AnswersKeepHistory(cfg, AnswerDisable(m), cuts, []);
    Runs.ReceiveInv(cfg, s, w);
    FreedIsNowhereElse(ReceiveResponse(cfg, s, w), id);
  }

  lemma AckAcknowledges(e: Frame)
    requires e.kind.Event?
    ensures R.Acknowledges(AckOf(e.service, e.command), e)
  {
  }

  lemma WaitingIsNotFreed(s: State, id: nat)
    requires Runs.Inv(s) && id in s.hist.live
    ensures id < |s.hist.saved| && id !in s.hist.freed
  {
    hide R.Labels, R.Increasing, R.OnePlace;
    LiveIsNotFreed(s.hist, id);
  }

  /** A freed message is in no other place. */
  lemma FreedIsNowhereElse(s: State, id: nat)
    requires Runs.Inv(s) && id in s.hist.freed
    ensures id !in s.hist.live && id !in s.hist.lost
  {
    hide R.Labels, R.Increasing;
    assert R.Places(s.hist)[id] == multiset(s.hist.live)[id] + multiset(s.hist.freed)[id] + multiset(s.hist.lost)[id];
    assert multiset(s.hist.freed)[id] > 0;
  }

  /** Sending acknowledges saves nothing and frees nothing. */
  lemma {:induction false} AnswersKeepHistory(cfg: O.Config, s: State, cuts: seq<Cut>, acked: seq<(word, word)>)
    ensures AckEvents(cfg, s, cuts, acked).hist == s.hist
    decreases |cuts|
  {
    hide SendFrame;
    if cuts == [] {
    } else {
      var f := cuts[0].frame;
      SendKeepsHistory(cfg, s, Frame(EventAck, f.service, f.command, []));
      AnswersKeepHistory(cfg, SendFrame(cfg, s, Frame(EventAck, f.service, f.command, []), 0).0, cuts[1..],
                         if |acked| < |s.queue| then acked + [(f.service, f.command)] else acked);
      AnswersKeepHistory(cfg, s, cuts[1..], acked);
    }
  }

  lemma SendKeepsHistory(cfg: O.Config, s: State, f: Frame)
    requires f.kind.EventAck?
    ensures SendFrame(cfg, s, f, 0).0.hist == s.hist
  {
    hide O.Step, O.Fits, R.Find;
  }

  /**
   The way of an event and back: it waits for its response; its partner takes a message that contains it and has room
   for the acknowledges; what the partner then hands over is taken; and the event is freed, neither waiting nor lost.
   */
  lemma EventIsAnswered(cfg: O.Config, s: State, cfg': O.Config, t: State, m: Payload, id: nat)
    requires Runs.Inv(s) && id in s.hist.live && id < |s.hist.saved| && s.hist.saved[id].kind.Event?
    requires Line.LineOk(cfg', t) && Taken(t, m) && s.hist.saved[id] in FramesOf(Scan.Cuts(m))
    requires RoomFor(cfg', t, |Scan.Cuts(m)|) && t.line.o.rep == []
    ensures var u := ReceiveRequest(cfg', t, m);
      && |u.line.o.tx| < 256 && O.Write(u.line.o.(entryLen := |u.line.o.tx|)).1 == Some(u.line.o.tx)
      && (Taken(s, u.line.o.tx) ==>
            var r := ReceiveResponse(cfg, s, u.line.o.tx);
            id in r.hist.freed && id !in r.hist.live && id !in r.hist.lost)
  {
    hide ReceiveRequest, ReceiveResponse, Taken, Scan.Cuts, Scan.Ends, FramesOf, Parse, Runs.Inv, O.Conserved;
    var e := s.hist.saved[id];
    PartnerAcknowledges(cfg', t, m, e);
    var w := ReceiveRequest(cfg', t, m).line.o.tx;
    NotEmpty(w, AckOf(e.service, e.command));
    Scan.PackedEnds(w);
    if Taken(s, w) {
      AcknowledgeFrees(cfg, s, w, id);
    }
  }

  lemma NotEmpty(w: seq<byte>, f: Frame)
    requires f in Content(w)
    ensures w != []
  {
  }
}
