/**
 Two connected instances of which one disables the connection, over a bus that loses acknowledges. The other one has no
 unanswered messages. The names are those of the handshake that opens the connection.
 */
module Farewell {
  import opened Bytes
  import opened Connection

  /** Two nodes, their addresses, and the connection messages each has received but not yet handled. */
  datatype Net = Net(a: Conn, b: Conn, addressA: byte, addressB: byte, toA: seq<Message>, toB: seq<Message>)

  /** Node a disables; either node's message arrives, with its acknowledge or without, is handled, or is due again. */
  datatype Step =
    | Disables
    | TimeoutA
    | SendA(acked: bool)
    | SendB(acked: bool)
    | TakeA
    | TakeB

  predicate Possible(n: Net, s: Step) {
    match s
    case Disables => true
    case TimeoutA => !n.a.timer.Off?
    case SendA(_) => n.a.flag
    case SendB(_) => n.b.flag
    case TakeA => n.toA != []
    case TakeB => n.toB != []
  }

  function Gone(c: Conn, acked: bool): Conn {
    if acked then Delivered(c.(flag := false)) else c
  }

  function After(n: Net, s: Step): Net
    requires Possible(n, s)
  {
    match s
    case Disables => n.(a := UserDisable(n.a).0)
    case TimeoutA => n.(a := TimerFires(n.a))
    case SendA(acked) => n.(a := Gone(n.a, acked), toB := n.toB + [n.a.kind])
    case SendB(acked) => n.(b := Gone(n.b, acked), toA := n.toA + [n.b.kind])
    case TakeA =>
      n.(a := Receive(n.a, Received(n.addressB, true, Some(n.toA[0])), false), toA := n.toA[1..])
    case TakeB =>
      n.(b := Receive(n.b, Received(n.addressA, true, Some(n.toB[0])), false), toB := n.toB[1..])
  }

  predicate AllPossible(n: Net, ss: seq<Step>)
    decreases |ss|
  {
    ss == [] || (Possible(n, ss[0]) && AllPossible(After(n, ss[0]), ss[1..]))
  }

  function Run(n: Net, ss: seq<Step>): Net
    requires AllPossible(n, ss)
    decreases |ss|
  {
    if ss == [] then n else Run(After(n, ss[0]), ss[1..])
  }

  /** A connected node with this partner, and no other one. */
  predicate Settled(c: Conn, partner: byte) {
    && Connection.Inv(c) && ValidAddress(partner) && c.partner == c.backup == partner && c.state.Connected?
    && !c.flag && c.timer.Off?
  }

  /** Both are connected, and nothing is due or on its way. */
  predicate BothUp(n: Net) {
    Settled(n.a, n.addressB) && Settled(n.b, n.addressA) && n.toA == n.toB == []
  }

  predicate Only(items: seq<Message>, m: Message) {
    forall i :: 0 <= i < |items| ==> items[i] == m
  }

  /** A disable request is due, or has arrived and is not yet handled; the same of the response. */
  predicate Asked(n: Net) {
    n.a.flag || n.toB != []
  }

  predicate Answered(n: Net) {
    n.b.flag || n.toA != []
  }

  predicate Leaving(n: Net) {
    && Connection.Inv(n.a) && Connection.Inv(n.b) && ValidAddress(n.addressA) && ValidAddress(n.addressB)
    && n.a.partner == n.a.backup == n.addressB && n.b.partner == n.b.backup == n.addressA
    && n.b.timer.Off? && n.a.kind.DisableRequest? && Only(n.toB, DisableRequest) && Only(n.toA, DisableResponse)
    && (n.a.state.Disconnecting? || n.a.state.Disconnected?)
    && (n.b.state.Connected? || (n.b.state.Disconnected? && n.b.kind.DisableResponse?))
    && (n.b.state.Connected? ==> Asked(n) && !Answered(n))
    && (n.b.state.Disconnected? && n.a.state.Disconnecting? ==> Answered(n))
  }

  predicate Inv(n: Net) {
    BothUp(n) || Leaving(n)
  }

  lemma DisablesInv(n: Net)
    requires Inv(n)
    ensures Leaving(After(n, Disables))
  {
  }

  lemma SendInv(n: Net, s: Step)
    requires Leaving(n) && Possible(n, s) && (s.SendA? || s.SendB? || s.TimeoutA?)
    ensures Leaving(After(n, s))
  {
  }

  lemma TakeAInv(n: Net)
    requires Leaving(n) && Possible(n, TakeA)
    ensures Leaving(After(n, TakeA))
  {
  }

  lemma TakeBInv(n: Net)
    requires Leaving(n) && Possible(n, TakeB)
    ensures Leaving(After(n, TakeB))
  {
  }

  lemma StepInv(n: Net, s: Step)
    requires Inv(n) && Possible(n, s)
    ensures Leaving(After(n, s))
  {
    if s.Disables? {
      DisablesInv(n);
    } else if s.TakeA? {
      TakeAInv(n);
    } else if s.TakeB? {
      TakeBInv(n);
    } else {
      SendInv(n, s);
    }
  }

  lemma {:induction false} RunInv(n: Net, ss: seq<Step>)
    requires Inv(n) && AllPossible(n, ss)
    ensures Inv(Run(n, ss)) && (ss != [] ==> Leaving(Run(n, ss)))
    decreases |ss|
  {
    hide Leaving, BothUp, After, Possible;
    if ss == [] {
    } else {
      StepInv(n, ss[0]);
      RunInv(After(n, ss[0]), ss[1..]);
    }
  }

  predicate Pending(n: Net) {
    Asked(n) || Answered(n)
  }

  /**
   In every run from two connected nodes: all that ever travels is disable requests one way and their responses the
   other. The first thing that can happen is that a disables; from then on a is on its way out, b stays up only as long
   as a's request is due or on its way to it, and once nothing is pending both are disconnected. Each is told so exactly
   when it is.
   */
  lemma BothGoDown(n: Net, ss: seq<Step>)
    requires BothUp(n) && AllPossible(n, ss) && ss != []
    ensures var m := Run(n, ss);
      && Only(m.toB, DisableRequest) && Only(m.toA, DisableResponse)
      && !m.a.state.Connected? && !m.a.state.Connecting?
      && (m.b.state.Connected? ==> Asked(m))
      && (m.a.state.Disconnecting? ==> Pending(m))
      && (!Pending(m) ==> m.a.state.Disconnected? && m.b.state.Disconnected?)
      && (m.a.notified <==> m.a.state.Disconnecting?) && (m.b.notified <==> m.b.state.Connected?)
  {
    hide Run, AllPossible;
    RunInv(n, ss);
  }

  /** How far the messages are from being handled, a request counting for the response it causes. */
  function Work(n: Net): nat {
    (if n.a.flag then 4 else 0) + (if n.b.flag then 2 else 0) + 3 * |n.toB| + |n.toA|
  }

  /** Delivering what is pending, with any acknowledges, comes to an end, and goes on until nothing is pending. */
  lemma WorkShrinks(n: Net, s: Step)
    requires Leaving(n) && Possible(n, s)
    requires s == SendA(true) || s == SendB(true) || s == TakeA || s == TakeB
    ensures Work(After(n, s)) < Work(n)
  {
  }

  lemma {:induction false} DeliveryEnds(n: Net, ss: seq<Step>)
    requires Leaving(n) && AllPossible(n, ss)
    requires forall s :: s in ss ==> s == SendA(true) || s == SendB(true) || s == TakeA || s == TakeB
    ensures |ss| + Work(Run(n, ss)) <= Work(n)
    decreases |ss|
  {
    hide Leaving, After, Possible, Work;
    if ss == [] {
    } else {
      assert ss[0] in ss && forall s :: s in ss[1..] ==> s in ss;
      LeavingIsInv(n);
      StepInv(n, ss[0]);
      WorkShrinks(n, ss[0]);
      DeliveryEnds(After(n, ss[0]), ss[1..]);
    }
  }

  lemma LeavingIsInv(n: Net)
    requires Leaving(n)
    ensures Inv(n)
  {
  }

  lemma DeliveryGoesOn(n: Net)
    requires Pending(n)
    ensures exists s ::
      Possible(n, s) && (s == SendA(true) || s == SendB(true) || s == TakeA || s == TakeB)
  {
    var s := if n.a.flag then SendA(true) else if n.b.flag then SendB(true) else if n.toA != [] then TakeA else TakeB;
    assert Possible(n, s);
  }
}
