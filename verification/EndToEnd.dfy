/**
 From send to the partner's parser: bus messages with a sequence id, repeated by the
 sender until one is acknowledged, sorted out by the receiver.
 */
module EndToEnd {
  import opened Bytes
  import opened Frames
  import O = Outbox
  import SequenceId

  /**
   s: the sender's buffers. sent, waiting and carried: the numbers, counted without wrapping, of the id given last,
   of the message in the transmit buffer and of the one in the repeat buffer; near: the latter was picked up while its
   number was ahead of the receiver's, fates: the same for each acknowledged message.
   lastId: the receiver's LastSeqIdReceived, last: the number of that message, got: the frames it has parsed.
   */
  datatype Pair = Pair(s: O.State, sent: int, waiting: int, carried: int, near: bool, fates: seq<bool>,
                       lastId: byte, last: int, got: seq<Frame>)

  /** A freshly connected pair, with the sender's buffers as given: the first id is zero. */
  function Fresh(s: O.State): Pair {
    Pair(s, -1, -1, -1, false, [], 255, -1, [])
  }

  /**
   repetition: how often the frame was sent before; saved: the queue of unanswered messages took it, where it has to.
   heard: the receiver has taken the bus message into its input buffer.
   */
  datatype Event =
    | Send(frame: Frame, repetition: byte, saved: bool)
    | Pick(accepted: bool)
    | Acknowledged
    | Failed(heard: bool)
    | Undeliverable(heard: bool)

  /** The receiver's part: DBAL_isReceivedReqRespMsg2BeIgnored, then the scan of the frames. */
  function Hear(p: Pair): Pair
    requires p.s.h.wire.Some? && |p.s.h.wire.value| >= FRAME_OFFSET
  {
    var m := p.s.h.wire.value;
    if SequenceId.Accepted(m[2], p.lastId) then p.(lastId := m[2], last := p.carried, got := p.got + Content(m)) else p
  }

  /**
   A positive acknowledge means that the receiver has the message; a failure may mean that only its acknowledge was
   lost.
   */
  predicate Heard(e: Event) {
    e.Acknowledged? || (e.Failed? && e.heard) || (e.Undeliverable? && e.heard)
  }

  /** A new id only for a message that starts with a frame sent for the first time. */
  function Number(p: Pair, repetition: byte): int {
    if p.s.o.frames == 0 && repetition == 0 then p.sent + 1 else p.sent
  }

  function OfSender(p: Pair, e: Event): O.Event
    requires p.sent >= -1
  {
    match e
    case Send(f, repetition, saved) => O.Event.Send(f, SequenceId.IdOf(Number(p, repetition)), saved)
    case Pick(accepted) => O.Event.Pick(accepted)
    case Acknowledged => O.Event.Acknowledge
    case Failed(_) => O.Event.Failure
    case Undeliverable(_) => O.Event.Undeliverable
  }

  predicate Possible(p: Pair, e: Event) {
    p.sent >= -1 && O.Enabled(p.s, OfSender(p, e))
    && (Heard(e) ==> p.s.h.wire.Some? && |p.s.h.wire.value| >= FRAME_OFFSET)
  }

  function Step(cfg: O.Config, partner: byte, p: Pair, e: Event): Pair
    requires Possible(p, e)
  {
    var q := if Heard(e) then Hear(p) else p;
    var t := O.Step(cfg, partner, p.s, OfSender(p, e));
    match e
    case Send(_, repetition, _) =>
      var n := Number(p, repetition);
      p.(s := t, sent := n, waiting := if p.s.o.frames == 0 then n else p.waiting)
    case Pick(_) =>
      if p.s.o.rep == [] then p.(s := t, carried := p.waiting, near := SequenceId.Ahead(p.waiting, p.last))
      else p.(s := t)
    case Acknowledged => q.(s := t, fates := q.fates + [q.near])
    case _ => q.(s := t)
  }

  /** The frames of the messages that were near. */
  function Parsed(messages: seq<seq<byte>>, fates: seq<bool>): seq<Frame>
    requires |messages| == |fates|
  {
    if messages == [] then []
    else
      var n := |messages| - 1;
      Parsed(messages[..n], fates[..n]) + if fates[n] then Content(messages[n]) else []
  }

  // ---------------------------------------------------------------- what every step keeps

  predicate Headed(m: seq<byte>, n: int)
    requires n >= -1
  {
    |m| >= FRAME_OFFSET && m[1] == O.PROTOCOL && m[2] == SequenceId.IdOf(n)
  }

  predicate Ids(p: Pair) {
    && -1 <= p.last <= p.sent && p.lastId == SequenceId.IdOf(p.last)
    && (p.s.o.tx != [] ==>
          p.last <= p.waiting <= p.sent && Headed(p.s.o.tx, p.waiting))
    && (p.s.o.rep != [] ==>
          p.last <= p.carried <= p.sent && Headed(p.s.o.rep, p.carried))
    && (p.s.o.rep != [] && p.s.o.tx != [] ==> p.carried <= p.waiting)
    && (p.s.o.rep != [] ==> (SequenceId.Ahead(p.carried, p.last) <==> p.near && p.carried != p.last))
    && (p.s.o.rep == [] && (p.fates == [] || p.fates[|p.fates| - 1]) ==> p.carried == p.last)
  }

  /** The receiver has parsed the acknowledged messages that were near, and the present one once it has taken it. */
  predicate Got(p: Pair) {
    && |p.fates| == |p.s.h.acknowledged|
    && p.got == Parsed(p.s.h.acknowledged, p.fates)
                + (if p.s.o.rep != [] && p.near && p.last == p.carried then Content(p.s.o.rep) else [])
  }

  predicate Inv(cfg: O.Config, p: Pair) {
    O.Good(cfg, p.s) && Ids(p) && Got(p)
  }

  /**
   The receiver takes a message if and only if its number is 1 to 127 ahead of the last one taken, counted around the
   ids. Any other is acknowledged on the bus and its frames are never parsed; so is one that keeps the id taken last.
   */
  lemma HearExact(p: Pair)
    requires p.s.h.wire.Some? && |p.s.h.wire.value| >= FRAME_OFFSET
    requires p.last >= -1 && p.carried >= -1 && p.lastId == SequenceId.IdOf(p.last)
    requires p.s.h.wire.value[2] == SequenceId.IdOf(p.carried)
    ensures Hear(p) == (if SequenceId.Ahead(p.carried, p.last)
                        then p.(lastId := p.s.h.wire.value[2], last := p.carried,
                                got := p.got + Content(p.s.h.wire.value))
                        else p)
    ensures p.last <= p.carried <= p.last + 256 ==> (Hear(p) != p ==> p.last < p.carried <= p.last + 127)
    ensures p.last < p.carried <= p.last + 127 ==> Hear(p).last == p.carried && Hear(p) != p
  {
    SequenceId.AcceptedExactly(p.carried, p.last);
  }

  lemma SendKeeps(cfg: O.Config, partner: byte, p: Pair, e: Event)
    requires Inv(cfg, p) && e.Send? && Possible(p, e)
    ensures Inv(cfg, Step(cfg, partner, p, e))
  {
    hide O.Conserved, O.Message, Content, Parsed, Encode, SequenceId.IdOf, SequenceId.Ahead;
    O.StepGood(cfg, partner, p.s, OfSender(p, e));
  }

  lemma PickKeeps(cfg: O.Config, partner: byte, p: Pair, e: Event)
    requires Inv(cfg, p) && e.Pick? && Possible(p, e)
    ensures Inv(cfg, Step(cfg, partner, p, e))
  {
    hide O.Conserved, O.Message, Content, Parsed;
    O.StepGood(cfg, partner, p.s, OfSender(p, e));
  }

  /**
   Whatever the receiver had before, after hearing the present message it has taken it exactly once, if it was near.
   */
  lemma HearKeeps(cfg: O.Config, p: Pair)
    requires Inv(cfg, p) && p.s.h.wire.Some?
    ensures |p.s.h.wire.value| >= FRAME_OFFSET && Inv(cfg, Hear(p)) && (p.near ==> Hear(p).last == p.carried)
    ensures Hear(p) == p.(lastId := Hear(p).lastId, last := Hear(p).last, got := Hear(p).got)
  {
    hide O.Conserved, O.Message, Content, Parsed, SequenceId.Accepted, SequenceId.IdOf;
    HearExact(p);
  }

  lemma OneMoreParsed(messages: seq<seq<byte>>, fates: seq<bool>, m: seq<byte>, near: bool)
    requires |messages| == |fates|
    ensures Parsed(messages + [m], fates + [near]) == Parsed(messages, fates) + if near then Content(m) else []
  {
    assert (messages + [m])[..|messages|] == messages && (fates + [near])[..|messages|] == fates;
  }

  lemma OutcomeKeeps(cfg: O.Config, partner: byte, p: Pair, e: Event)
    requires Inv(cfg, p) && Possible(p, e) && !e.Send? && !e.Pick?
    ensures Inv(cfg, Step(cfg, partner, p, e))
  {
    hide O.Conserved, O.Message, Content, Parsed, SequenceId.IdOf, SequenceId.Ahead, Hear;
    O.StepGood(cfg, partner, p.s, OfSender(p, e));
    if Heard(e) {
      HearKeeps(cfg, p);
    }
    if e.Acknowledged? {
      OneMoreParsed(p.s.h.acknowledged, p.fates, p.s.h.wire.value, p.near);
    }
  }

  lemma StepKeeps(cfg: O.Config, partner: byte, p: Pair, e: Event)
    requires Inv(cfg, p) && Possible(p, e)
    ensures Inv(cfg, Step(cfg, partner, p, e))
  {
    hide Inv, Step, Possible;
    if e.Send? {
      SendKeeps(cfg, partner, p, e);
    } else if e.Pick? {
      PickKeeps(cfg, partner, p, e);
    } else {
      OutcomeKeeps(cfg, partner, p, e);
    }
  }

  // ---------------------------------------------------------------- whole runs

  predicate AllPossible(cfg: O.Config, partner: byte, p: Pair, es: seq<Event>)
    decreases |es|
  {
    es == [] || (Possible(p, es[0]) && AllPossible(cfg, partner, Step(cfg, partner, p, es[0]), es[1..]))
  }

  function Run(cfg: O.Config, partner: byte, p: Pair, es: seq<Event>): Pair
    requires AllPossible(cfg, partner, p, es)
    decreases |es|
  {
    if es == [] then p else Run(cfg, partner, Step(cfg, partner, p, es[0]), es[1..])
  }

  lemma {:induction false} RunConcat(cfg: O.Config, partner: byte, p: Pair, es: seq<Event>, more: seq<Event>)
    requires AllPossible(cfg, partner, p, es) && AllPossible(cfg, partner, Run(cfg, partner, p, es), more)
    ensures AllPossible(cfg, partner, p, es + more)
    ensures Run(cfg, partner, p, es + more) == Run(cfg, partner, Run(cfg, partner, p, es), more)
    decreases |es|
  {
    hide Step, Possible;
    if es == [] {
      assert [] + more == more;
    } else {
      assert (es + more)[1..] == es[1..] + more;
      RunConcat(cfg, partner, Step(cfg, partner, p, es[0]), es[1..], more);
    }
  }

  lemma RunOne(cfg: O.Config, partner: byte, p: Pair, e: Event)
    requires Possible(p, e)
    ensures AllPossible(cfg, partner, p, [e]) && Run(cfg, partner, p, [e]) == Step(cfg, partner, p, e)
  {
    hide Step, Possible;
    assert [e][1..] == [];
    RunNone(cfg, partner, Step(cfg, partner, p, e));
  }

  lemma RunNone(cfg: O.Config, partner: byte, p: Pair)
    ensures AllPossible(cfg, partner, p, []) && Run(cfg, partner, p, []) == p
  {
  }

  lemma {:induction false} RunKeeps(cfg: O.Config, partner: byte, p: Pair, es: seq<Event>)
    requires Inv(cfg, p) && AllPossible(cfg, partner, p, es)
    ensures Inv(cfg, Run(cfg, partner, p, es))
    decreases |es|
  {
    hide Inv, Step, Possible;
    if es == [] {
    } else {
      StepKeeps(cfg, partner, p, es[0]);
      RunKeeps(cfg, partner, Step(cfg, partner, p, es[0]), es[1..]);
    }
  }

  lemma StartKeeps(cfg: O.Config)
    requires O.ValidConfig(cfg)
    ensures Inv(cfg, Fresh(O.CONNECTED))
  {
    O.EmptyHasNone(cfg, []);
  }

  /**
   As long as the message before was near the sender's own numbers tell whether the next one is: its id must be 1 to 127
   ahead of the id of the message before, around the ids.
   */
  lemma SenderCanTell(cfg: O.Config, partner: byte, p: Pair, accepted: bool)
    requires Inv(cfg, p) && Possible(p, Pick(accepted)) && p.s.o.rep == []
    requires p.fates == [] || p.fates[|p.fates| - 1]
    ensures Step(cfg, partner, p, Pick(accepted)).near <==> SequenceId.Ahead(p.waiting, p.carried)
    ensures Step(cfg, partner, p, Pick(accepted)).near <==>
              SequenceId.Accepted(p.s.o.tx[2], SequenceId.IdOf(p.carried))
  {
    hide O.Conserved, O.Message, Content, Parsed;
    SequenceId.AcceptedExactly(p.waiting, p.carried);
  }

  /** A message that has frames was near. */
  predicate AllNear(messages: seq<seq<byte>>, fates: seq<bool>)
    requires |messages| == |fates|
  {
    forall i :: 0 <= i < |messages| ==> fates[i] || Content(messages[i]) == []
  }

  /** The receiver has parsed all frames of the messages if and only if each message that has any was near. */
  lemma {:induction false} ParsedAll(messages: seq<seq<byte>>, fates: seq<bool>)
    requires |messages| == |fates|
    ensures |Parsed(messages, fates)| <= |O.AllFrames(messages)|
    ensures Parsed(messages, fates) == O.AllFrames(messages) <==> AllNear(messages, fates)
    ensures !AllNear(messages, fates) ==> |Parsed(messages, fates)| < |O.AllFrames(messages)|
  {
    hide Content;
    if messages == [] {
    } else {
      var n := |messages| - 1;
      ParsedAll(messages[..n], fates[..n]);
      assert AllNear(messages, fates) <==>
             AllNear(messages[..n], fates[..n]) && (fates[n] || Content(messages[n]) == []);
    }
  }

  /** What the run says about each message: the exact account of what the receiver has parsed. */
  predicate Exact(p: Pair) {
    && |p.fates| == |p.s.h.acknowledged|
    && p.got == Parsed(p.s.h.acknowledged, p.fates)
                + (if p.s.o.rep != [] && p.near && p.last == p.carried then Content(p.s.o.rep) else [])
    && (AllNear(p.s.h.acknowledged, p.fates) ==> p.got <= p.s.h.accepted && O.AllFrames(p.s.h.acknowledged) <= p.got)
    && (p.s.o.rep == [] && p.s.o.tx == [] ==>
          (p.got == p.s.h.accepted <==> AllNear(p.s.h.acknowledged, p.fates)))
  }

  lemma InvExact(cfg: O.Config, p: Pair)
    requires Inv(cfg, p)
    ensures Exact(p)
  {
    hide O.AllFrames, Parse, Parsed, AllNear, Ids;
    ParsedAll(p.s.h.acknowledged, p.fates);
    O.EmptyHasNone(cfg, []);
  }

  /**
   Over every run, with any transmissions repeated and any acknowledges lost: the receiver has parsed each acknowledged
   message exactly once if it was near when it was picked up, and never otherwise. So while all were near it has parsed
   the accepted frames in order, each exactly once, up to a point that is not before the last acknowledged one; and once
   everything is delivered it has parsed all accepted frames if and only if every message with frames was near.
   */
  lemma ExactlyOnceInOrder(cfg: O.Config, partner: byte, es: seq<Event>)
    requires O.ValidConfig(cfg) && AllPossible(cfg, partner, Fresh(O.CONNECTED), es)
    ensures Exact(Run(cfg, partner, Fresh(O.CONNECTED), es))
  {
    hide Run, AllPossible, Exact, Inv;
    StartKeeps(cfg);
    RunKeeps(cfg, partner, Fresh(O.CONNECTED), es);
    InvExact(cfg, Run(cfg, partner, Fresh(O.CONNECTED), es));
  }

  // ---------------------------------------------------------------- what a sender can do about it

  /** No message is opened by a repetition, and at most 127 ids are used up from one message to the next. */
  predicate Careful(p: Pair, e: Event) {
    && (e.Send? && p.s.o.frames == 0 ==> e.repetition == 0)
    && (e.Pick? && p.s.o.rep == [] ==> p.waiting - p.carried <= 127)
  }

  predicate AllCareful(cfg: O.Config, partner: byte, p: Pair, es: seq<Event>)
    requires AllPossible(cfg, partner, p, es)
    decreases |es|
  {
    es == [] || (Careful(p, es[0]) && AllCareful(cfg, partner, Step(cfg, partner, p, es[0]), es[1..]))
  }

  predicate Kempt(p: Pair) {
    && (forall i :: 0 <= i < |p.fates| ==> p.fates[i])
    && (p.s.o.rep != [] ==> p.near)
    && (p.s.o.tx != [] ==> p.carried < p.waiting)
  }

  lemma StepKempt(cfg: O.Config, partner: byte, p: Pair, e: Event)
    requires Inv(cfg, p) && Kempt(p) && Possible(p, e) && Careful(p, e)
    ensures Kempt(Step(cfg, partner, p, e))
  {
    hide O.Conserved, O.Message, Content, Parsed, Encode, SequenceId.Ahead, SequenceId.IdOf;
    if e.Pick? && p.s.o.rep == [] {
      SequenceId.AcceptedExactly(p.waiting, p.last);
    }
  }

  lemma {:induction false} RunKempt(cfg: O.Config, partner: byte, p: Pair, es: seq<Event>)
    requires Inv(cfg, p) && Kempt(p) && AllPossible(cfg, partner, p, es) && AllCareful(cfg, partner, p, es)
    ensures Kempt(Run(cfg, partner, p, es))
    decreases |es|
  {
    hide Inv, Kempt, Careful, Step, Possible;
    if es == [] {
    } else {
      StepKeeps(cfg, partner, p, es[0]);
      StepKempt(cfg, partner, p, es[0]);
      RunKempt(cfg, partner, Step(cfg, partner, p, es[0]), es[1..]);
    }
  }

  /** A careful sender has all its frames parsed, each exactly once and in order, whatever is lost on the bus. */
  lemma CarefulLosesNothing(cfg: O.Config, partner: byte, es: seq<Event>)
    requires O.ValidConfig(cfg) && AllPossible(cfg, partner, Fresh(O.CONNECTED), es)
    requires AllCareful(cfg, partner, Fresh(O.CONNECTED), es)
    ensures var p := Run(cfg, partner, Fresh(O.CONNECTED), es);
      && p.got <= p.s.h.accepted && O.AllFrames(p.s.h.acknowledged) <= p.got
      && (p.s.o.rep == [] && p.s.o.tx == [] ==> p.got == p.s.h.accepted)
  {
    hide Run, AllPossible, AllCareful, Inv;
    StartKeeps(cfg);
    RunKempt(cfg, partner, Fresh(O.CONNECTED), es);
    ExactlyOnceInOrder(cfg, partner, es);
  }
}
