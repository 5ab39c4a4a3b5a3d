/** Frames for which send returned true, which the bus acknowledged, and which the partner never parsed. */
module Losses {
  import opened Bytes
  import opened Frames
  import opened Instance
  import C = Connection
  import O = Outbox
  import R = RepeatQueue
  import Runs = InstanceRuns
  import SequenceId
  import W = Witnesses

  // ---------------------------------------------------------------- behind a repetition

  /**
   A frame appended behind a repetition travels under the id of the last message: the partner that has taken that one
   takes neither frame, although both sends return true.
   */
  lemma RidesOnStaleId(cfg: O.Config, s: State, e: Frame, repetition: byte, f: Frame)
    requires s.con.ready && s.line.o.frames == 0 && repetition > 0 && O.Response(e.kind) && O.Response(f.kind)
    ensures var (t, first) := SendFrame(cfg, s, e, repetition);
      var (u, second) := SendFrame(cfg, t, f, 0);
      && (first ==> u.con.seqSend == s.con.seqSend)
      && (first && second ==> u.line.o.tx == [cfg.own, O.PROTOCOL, s.con.seqSend] + Encode(e) + Encode(f))
      && (first && second ==> !SequenceId.Accepted(u.line.o.tx[2], s.con.seqSend))
  {
    hide R.Admit, R.IsNew, R.SaveHistory, O.Fits, Encode;
  }

  /** An event short enough to be saved, and an answer, that fit into one message. */
  predicate Pairable(cfg: O.Config, e: Frame, f: Frame) {
    && O.ValidConfig(cfg) && e.kind.Event? && |e.payload| <= R.MAX_DATA && f.kind.CmdAck?
    && FRAME_OFFSET + DATA_OFFSET + |e.payload| + DATA_OFFSET + |f.payload| < cfg.size
  }

  /** One event waits, sent again that many times; the other entries are free. */
  function OneWaits(e: Frame, retries: byte, size: nat): (q: seq<R.Slot>)
    requires size > 0
    ensures |q| == size
  {
    [R.Slot(e, true, retries)] + R.Frees(size - 1)
  }

  lemma FirstEvent(cfg: O.Config, s: State, e: Frame)
    requires O.ValidConfig(cfg) && e.kind.Event? && |e.payload| <= R.MAX_DATA && s.con.ready && s.con.seqSend == 255
    requires FRAME_OFFSET + DATA_OFFSET + |e.payload| < cfg.size && s.line == O.CONNECTED &&
      s.queue == R.Frees(|s.queue|) != []
    ensures var (t, ok) := SendFrame(cfg, s, e, 0);
      && ok && t.con == s.con.(seqSend := 0) && t.queue == OneWaits(e, 0, |s.queue|) && t.timer
      && t.line.o.tx == [cfg.own, O.PROTOCOL, 0] + Encode(e) && t.line.o.flag && t.line.o.frames == 1
      && t.line.o.rep == [] && t.line.o.entryLen == |t.line.o.tx| && t.line.air.Ground?
      && t.line.h == O.History([e], [], None)
  {
    hide Encode;
    var q := s.queue;
    assert !R.Find(q, e, 0).0 && R.Find(q, e, 0).1 == 0;
    assert q[0 := q[0].(occupied := true, frame := e)] == OneWaits(e, 0, |q|);
    assert [] + [e] == [e];
  }

  /** The message in the transmit buffer goes out and is acknowledged. */
  const SENT_OUT: seq<Event> := [Pick(true), Acknowledge]

  lemma SentOut(cfg: O.Config, s: State)
    requires s.line.o.flag && s.line.o.rep == [] && s.line.o.tx != [] && s.line.o.entryLen == |s.line.o.tx|
    requires s.line.air.Ground?
    ensures Runs.AllPossible(cfg, s, SENT_OUT)
    ensures var t := Runs.Run(cfg, s, SENT_OUT);
      && t == s.(line := t.line) && t.line.h.accepted == s.line.h.accepted
      && t.line.h.acknowledged == s.line.h.acknowledged + [s.line.o.tx] && t.line.h.wire == None
      && t.line.o.tx == [] && t.line.o.rep == [] && t.line.o.frames == 0 && !t.line.o.flag && t.line.air.Ground?
  {
    hide Runs.Run, Runs.AllPossible;
    Runs.NoEvents(cfg, s);
    Runs.OneMore(cfg, s, [], Pick(true));
    assert [] + [Pick(true)] == [Pick(true)];
    Runs.OneMore(cfg, s, [Pick(true)], Acknowledge);
    assert [Pick(true)] + [Acknowledge] == SENT_OUT;
  }

  lemma {:induction false} NoneToRepeat(cfg: O.Config, s: State, i: nat)
    requires forall k :: i <= k < |s.queue| ==> !s.queue[k].occupied
    ensures Repeat(cfg, s, i) == s
    decreases |s.queue| - i
  {
    if i >= |s.queue| {
    } else {
      NoneToRepeat(cfg, s, i + 1);
    }
  }

  lemma OneIsCompact(e: Frame, retries: byte, size: nat)
    requires size > 0
    ensures R.Occupied(OneWaits(e, retries, size)) != [] && R.Compact(OneWaits(e, retries, size))
  {
    var one := [R.Slot(e, true, retries)];
    R.OccupiedNone(R.Frees(size - 1));
    R.OccupiedConcat(one, R.Frees(size - 1));
    R.OccupiedAll(one);
  }

  /** The timer repeats the event that waits for its response. */
  lemma Repeated(cfg: O.Config, s: State, e: Frame)
    requires e.kind.Event? && s.con.ready && FRAME_OFFSET + DATA_OFFSET + |e.payload| < cfg.size
    requires s.queue != [] && s.queue == OneWaits(e, 0, |s.queue|) && s.timer
    requires s.line.o.tx == [] && s.line.o.rep == [] && s.line.o.frames == 0
    ensures var t := TimerAction(cfg, s);
      && t == s.(line := t.line, queue := OneWaits(e, 1, |s.queue|))
      && t.line.o.tx == [cfg.own, O.PROTOCOL, s.con.seqSend] + Encode(e) && t.line.o.flag && t.line.o.frames == 1
      && t.line.o.rep == [] && t.line.o.entryLen == |t.line.o.tx| && t.line.air == s.line.air
      && t.line.h == s.line.h.(accepted := s.line.h.accepted + [e])
  {
    hide Encode;
    var b := s.(timer := true, queue := R.Bump(s.queue, 0));
    assert b.queue == OneWaits(e, 1, |s.queue|);
    assert R.Find(b.queue, e, 0).0;
    var t := SendFrame(cfg, b, e, 1).0;
    assert RepeatAt(cfg, s.(timer := false), 0) == t;
    NoneToRepeat(cfg, t, 1);
    OneIsCompact(e, 1, |s.queue|);
  }

  /** The answer is appended behind it. */
  lemma Appended(cfg: O.Config, s: State, f: Frame)
    requires f.kind.CmdAck? && s.con.ready && |s.line.o.tx| + DATA_OFFSET + |f.payload| < cfg.size
    requires s.line.o.frames == 1 && s.line.o.flag && s.line.o.rep == []
    ensures var (t, ok) := SendFrame(cfg, s, f, 0);
      && ok && t == s.(line := t.line) && t.line.o.tx == s.line.o.tx + Encode(f) && t.line.o.flag
      && t.line.o.rep == [] && t.line.o.entryLen == |t.line.o.tx| && t.line.air == s.line.air
      && t.line.h == s.line.h.(accepted := s.line.h.accepted + [f])
  {
    hide Encode;
  }

  /** An event is sent, its response does not come in time, and an answer is sent just after the repetition. */
  function BehindRepetition(partner: byte, e: Frame, f: Frame): seq<Event> {
    W.BothEnable(partner) + [Send(e)] + SENT_OUT + [Timeout] + [Send(f)] + SENT_OUT
  }

  /**
   Both messages are acknowledged and both carry the same id, so a partner that has taken the first ignores the second:
   the answer f, accepted, sent and acknowledged once, is never parsed.
   */
  lemma LostBehindRepetition(cfg: O.Config, partner: byte, size: nat, e: Frame, f: Frame)
    requires size > 0 && C.ValidAddress(partner) && Pairable(cfg, e, f)
    ensures var es := BehindRepetition(partner, e, f);
      && Runs.AllPossible(cfg, Initial(partner, size), es)
      && var t := Runs.Run(cfg, Initial(partner, size), es);
        && t.con.state.Connected? && t.line.o.tx == t.line.o.rep == [] && t.line.h.accepted == [e, e, f]
        && |t.line.h.acknowledged| == 2
        && var first, second := t.line.h.acknowledged[0], t.line.h.acknowledged[1];
          && Content(first) == [e] && Content(second) == [e, f]
          && SequenceId.Accepted(first[2], 255) && !SequenceId.Accepted(second[2], first[2])
  {
    hide Runs.Run, Runs.AllPossible, SendFrame, TimerAction, Content, Encode;
    var n := Initial(partner, size);
    W.BothEnableConnects(cfg, partner, size);
    var es := W.BothEnable(partner);
    var s := Runs.Run(cfg, n, es);
    FirstEvent(cfg, s, e);
    Runs.OneMore(cfg, n, es, Send(e));
    es, s := es + [Send(e)], SendFrame(cfg, s, e, 0).0;
    var m := s.line.o.tx;
    SentOut(cfg, s);
    Runs.RunOn(cfg, n, es, SENT_OUT);
    es, s := es + SENT_OUT, Runs.Run(cfg, s, SENT_OUT);
    Repeated(cfg, s, e);
    Runs.OneMore(cfg, n, es, Timeout);
    es, s := es + [Timeout], TimerAction(cfg, s);
    assert s.line.o.tx == m;
    Appended(cfg, s, f);
    Runs.OneMore(cfg, n, es, Send(f));
    es, s := es + [Send(f)], SendFrame(cfg, s, f, 0).0;
    SentOut(cfg, s);
    Runs.RunOn(cfg, n, es, SENT_OUT);
    Contents([cfg.own, O.PROTOCOL, 0], e, f);
  }

  lemma Contents(header: seq<byte>, e: Frame, f: Frame)
    requires |header| == FRAME_OFFSET && WellFormed(e) && WellFormed(f)
    ensures Content(header + Encode(e)) == [e] && Content(header + Encode(e) + Encode(f)) == [e, f]
  {
    hide Content, Encode, End;
    EmptyContent(header);
    ContentAppend(header, e);
    ContentAppend(header + Encode(e), f);
    assert [] + [e] == [e] && [e] + [f] == [e, f];
  }

  // ---------------------------------------------------------------- after refusals

  /**
   With no frame in the transmit buffer every send of a new frame uses up a sequence id. It is refused if and only if
   the frame is too long for the buffer or the queue of unanswered messages does not take it, and then nothing else
   but the header in the buffer changes.
   */
  lemma RefusedUsesId(cfg: O.Config, s: State, f: Frame)
    requires s.con.ready && s.line.o.frames == 0 && O.Response(f.kind)
    ensures var (t, ok) := SendFrame(cfg, s, f, 0);
      && t.con == s.con.(seqSend := Low8(s.con.seqSend + 1))
      && (!ok <==> FRAME_OFFSET + DATA_OFFSET + |f.payload| >= cfg.size || !R.Admit(s.queue, f, 0).1)
      && (!ok ==> t == s.(con := t.con, line := s.line.(o := s.line.o.(tx := [cfg.own, O.PROTOCOL, t.con.seqSend]))))
  {
    hide R.Find, Encode;
  }

  function Sends(f: Frame, n: nat): seq<Event> {
    if n == 0 then [] else Sends(f, n - 1) + [Send(f)]
  }

  /** Too long for any message. */
  predicate TooLong(cfg: O.Config, f: Frame) {
    f.kind.CmdAck? && FRAME_OFFSET + DATA_OFFSET + |f.payload| >= cfg.size
  }

  lemma {:induction false} RefusedCount(cfg: O.Config, s: State, f: Frame, n: nat)
    requires s.con.ready && !C.DisablePending(s.con) && s.line.o.frames == 0 && TooLong(cfg, f)
    requires s.con.seqSend == 255 && s.line == O.CONNECTED && n <= 256
    ensures Runs.AllPossible(cfg, s, Sends(f, n))
    ensures var t := Runs.Run(cfg, s, Sends(f, n));
      && t == s.(con := s.con.(seqSend := SequenceId.IdOf(n - 1)), line := t.line)
      && t.line == O.CONNECTED.(o := O.CONNECTED.o.(tx := t.line.o.tx))
  {
    hide Runs.Run, Runs.AllPossible, SendFrame, SequenceId.IdOf, R.Admit;
    SequenceId.NextId(n - 1);
    if n == 0 {
      Runs.NoEvents(cfg, s);
    } else {
      RefusedCount(cfg, s, f, n - 1);
      SequenceId.NextId(n - 2);
      var t := Runs.Run(cfg, s, Sends(f, n - 1));
      RefusedUsesId(cfg, t, f);
      Runs.OneMore(cfg, s, Sends(f, n - 1), Send(f));
    }
  }

  lemma FirstAccepted(cfg: O.Config, s: State, g: Frame)
    requires W.Small(cfg, g) && s.con.ready && s.line == O.CONNECTED.(o := O.CONNECTED.o.(tx := s.line.o.tx))
    ensures var (t, ok) := SendFrame(cfg, s, g, 0);
      && ok && t == s.(con := t.con, line := t.line) && t.con == s.con.(seqSend := Low8(s.con.seqSend + 1))
      && t.line.o.tx == [cfg.own, O.PROTOCOL, t.con.seqSend] + Encode(g)
      && t.line.o.flag && t.line.o.rep == [] && t.line.o.entryLen == |t.line.o.tx| && t.line.air.Ground?
      && t.line.h == O.History([g], [], None)
  {
    hide Encode;
    assert [] + [g] == [g];
  }

  /**
   After n refused sends the first accepted frame travels under id n: its message is acknowledged, and a partner that
   has taken none so far takes it if and only if n is below 127.
   */
  lemma LostAfterRefusals(cfg: O.Config, partner: byte, size: nat, f: Frame, n: nat, g: Frame)
    requires O.ValidConfig(cfg) && C.ValidAddress(partner) && TooLong(cfg, f) && W.Small(cfg, g) && n < 255
    ensures var es := W.BothEnable(partner) + Sends(f, n) + [Send(g)] + SENT_OUT;
      && Runs.AllPossible(cfg, Initial(partner, size), es)
      && var t := Runs.Run(cfg, Initial(partner, size), es);
        && t.con.state.Connected? && t.line.o.tx == t.line.o.rep == [] && t.line.h.accepted == [g]
        && |t.line.h.acknowledged| == 1
        && var m := t.line.h.acknowledged[0];
          && Content(m) == [g] && m[2] as int == n
          && (SequenceId.Accepted(m[2], 255) <==> n < 127)
  {
    hide Runs.Run, Runs.AllPossible, SendFrame, Content, Encode, Sends;
    var start := Initial(partner, size);
    W.BothEnableConnects(cfg, partner, size);
    var es := W.BothEnable(partner);
    var s := Runs.Run(cfg, start, es);
    RefusedCount(cfg, s, f, n);
    Runs.RunOn(cfg, start, es, Sends(f, n));
    es, s := es + Sends(f, n), Runs.Run(cfg, s, Sends(f, n));
    FirstAccepted(cfg, s, g);
    SequenceId.NextId(n - 1);
    Runs.OneMore(cfg, start, es, Send(g));
    es, s := es + [Send(g)], SendFrame(cfg, s, g, 0).0;
    SentOut(cfg, s);
    Runs.RunOn(cfg, start, es, SENT_OUT);
    Contents([cfg.own, O.PROTOCOL, s.con.seqSend], g, g);
  }
}
