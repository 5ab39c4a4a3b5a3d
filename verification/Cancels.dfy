/** What a cancelled message may still do: over every run of requests, cancels, task calls and acknowledges. */
module Cancels {
  import opened Bytes
  import opened Bal

  datatype Event =
    | Ask(code: Code)
    | Drop(code: Code)
    | Call(busReady: bool, locked: bool, accepted: bool)
    | Ended(limits: Limits, ack: Ack)

  ghost predicate Enabled(b: Bal, e: Event)
  {
    match e
    case Ask(c) => c.sub < |b.pending|
    case Drop(_) => true
    case Call(busReady, _, _) => busReady ==> b.inFlight.None?
    case Ended(_, _) => b.inFlight.Some?
  }

  /** The new state, and the message handed to the link layer. */
  function After(b: Bal, e: Event): (r: (Bal, Option<Code>))
    requires Valid(b) && Enabled(b, e)
    ensures Valid(r.0)
  {
    match e
    case Ask(c) => (Request(b, c), None)
    case Drop(c) => (Cancel(b, c), None)
    case Call(busReady, locked, accepted) => Task(b, busReady, locked, accepted)
    case Ended(limits, ack) => (Transmitted(b, limits, ack).0, None)
  }

  /** Every event is possible where it occurs, and none asks for c. */
  ghost predicate Without(b: Bal, es: seq<Event>, c: Code)
    requires Valid(b)
    decreases |es|
  {
    es == [] || (Enabled(b, es[0]) && es[0] != Ask(c) && Without(After(b, es[0]).0, es[1..], c))
  }

  /** How often c is handed to the link layer. */
  ghost function Sendings(b: Bal, es: seq<Event>, c: Code): nat
    requires Valid(b) && Without(b, es, c)
    decreases |es|
  {
    if es == [] then 0
    else (if After(b, es[0]).1 == Some(c) then 1 else 0) + Sendings(After(b, es[0]).0, es[1..], c)
  }

  /** A repetition of the message is due. */
  predicate Repeats(b: Bal, c: Code) {
    b.attempts > 0 && b.current == c
  }

  /** The message is not asked for, and its next failure, if any, is its last. */
  ghost predicate Spent(b: Bal, c: Code) {
    && Valid(b) && !IsSet(b.pending, c)
    && (Repeats(b, c) ==> b.attempts == MAX_TRANSMISSION_RETRIES)
    && (b.inFlight == Some(c) ==> b.attempts > 0)
  }

  /** What Spent leaves: the repetition that is due and not under way. */
  function Due(b: Bal, c: Code): nat {
    if Repeats(b, c) && b.inFlight.None? then 1 else 0
  }

  lemma CancelSpends(b: Bal, c: Code)
    requires Valid(b) && !(b.inFlight == Some(c) && b.attempts == 0)
    ensures Spent(Cancel(b, c), c) && Due(Cancel(b, c), c) == Due(b, c)
  {
  }

  lemma StepSpent(b: Bal, e: Event, c: Code)
    requires Spent(b, c) && Enabled(b, e) && e != Ask(c)
    ensures var (r, sent) := After(b, e);
      Spent(r, c) && (if sent == Some(c) then 1 else 0) + Due(r, c) <= Due(b, c)
  {
    match e
    case Ask(_) =>
    case Drop(_) =>
    case Call(_, _, _) =>
    case Ended(_, _) =>
  }

  lemma {:induction false} SpentSendings(b: Bal, es: seq<Event>, c: Code)
    requires Spent(b, c) && Without(b, es, c)
    ensures Sendings(b, es, c) <= Due(b, c)
    decreases |es|
  {
    hide Valid, IsSet, Repeats, After, Enabled, Due;
    if es == [] {
    } else {
      StepSpent(b, es[0], c);
      SpentSendings(After(b, es[0]).0, es[1..], c);
    }
  }

  /**
   A cancelled message that was not sent yet is never sent, over every run in which it is not asked for again; one that
   is being repeated is sent at most once more, and that only if its last transmission had already ended.
   */
  lemma CancelledIsNotSent(b: Bal, c: Code, es: seq<Event>)
    requires Valid(b) && !(b.inFlight == Some(c) && b.attempts == 0) && Without(Cancel(b, c), es, c)
    ensures Sendings(Cancel(b, c), es, c) <= (if b.attempts > 0 && b.current == c && b.inFlight.None? then 1 else 0)
  {
    hide Spent, Cancel, Without, Sendings, Valid;
    CancelSpends(b, c);
    SpentSendings(Cancel(b, c), es, c);
  }

  /** The repetition that is due is sent in spite of the cancel, at the next call with a free bus. */
  lemma RepetitionIsSent(b: Bal, c: Code)
    requires Valid(b) && b.attempts > 0 && b.current == c && b.inFlight.None?
    ensures After(Cancel(b, c), Call(true, false, true)).1 == Some(c)
  {
    assert b.flags[c.sub];
  }

  /**
   A cancel during the first transmission stops nothing: the message is sent again after the next failure exactly as if
   it had not been cancelled, whenever the limit of that failure is above zero.
   */
  lemma CancelTooEarly(b: Bal, c: Code, limits: Limits, ack: Ack)
    requires Valid(b) && b.inFlight == Some(c) && b.attempts == 0 && !ack.Positive?
    ensures var es := [Ended(limits, ack), Call(true, false, true)];
      var d := Cancel(b, c);
      Without(d, es, c) && (Sendings(d, es, c) == 1 <==> Max(b.maxRetries, Limit(limits, ack)) > 0)
  {
    var d := Cancel(b, c);
    var es := [Ended(limits, ack), Call(true, false, true)];
    var t := After(d, es[0]).0;
    assert es[1..] == [es[1]] && es[1..][1..] == [];
    assert d.flags[c.sub];
    assert Without(After(t, es[1]).0, [], c);
    assert Without(t, es[1..], c);
    var u := After(t, es[1]);
    assert Sendings(u.0, [], c) == 0;
    assert Sendings(t, es[1..], c) == if u.1 == Some(c) then 1 else 0;
    assert t.attempts == 0 ==> !IsSet(t.pending, c);
  }
}
