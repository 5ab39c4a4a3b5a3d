/**
 Two instances that open a connection to each other over a bus that loses acknowledges, so
 that a message may arrive more than once, and then exchange data. Each has one slot for
 connection messages, which a newer message overwrites, and handles what it receives in
 order, some time after it arrived.
 */
module Handshake {
  import opened Bytes
  import opened Connection
  import SequenceId

  /**
   What travels: a connection message, or a request or response message with its sequence id; again: it has arrived
   before, and only its acknowledge was lost.
   */
  datatype Item = Con(message: Message) | Data(id: byte, again: bool)

  /**
   Two nodes, their addresses, and what each has received but not yet handled; busyA, busyB: the node's repeat buffer
   holds a message that has not been acknowledged.
   */
  datatype Net = Net(a: Conn, b: Conn, addressA: byte, addressB: byte, toA: seq<Item>, toB: seq<Item>,
                     busyA: bool, busyB: bool)

  /** Send and Again: a connection message arrives and is acknowledged, or its acknowledge is lost. */
  datatype Action =
    | UserEnables
    | Timeout
    | Send
    | Again
    | Take
    | Talk(acked: bool)
    | TalkAgain(acked: bool)

  datatype Step = OfA(action: Action) | OfB(action: Action)

  /** The same net seen from the other side. */
  function Swap(n: Net): Net {
    Net(n.b, n.a, n.addressB, n.addressA, n.toB, n.toA, n.busyB, n.busyA)
  }

  /**
   Sending needs a message that is due, and a repetition counter that is not used up. New data goes out while
   communication is ready and the repeat buffer is free, and after a connection message that is due, which comes first
   in the transmit table.
   */
  predicate PossibleA(n: Net, x: Action) {
    match x
    case UserEnables => true
    case Timeout => !n.a.timer.Off?
    case Send => n.a.flag && !DeliveredFails(n.a)
    case Again => n.a.flag
    case Take => n.toA != []
    case Talk(_) => n.a.ready && !n.a.flag && !n.busyA
    case TalkAgain(_) => n.a.ready && n.busyA
  }

  /** The id test of a received request or response message. */
  predicate Heeds(c: Conn, id: byte) {
    c.ready && SequenceId.Accepted(id, c.seqRecv)
  }

  function Handled(c: Conn, sender: byte, i: Item): Conn {
    match i
    case Con(m) => Receive(c, Received(sender, true, Some(m)), false)
    case Data(id, _) => if Heeds(c, id) then c.(seqRecv := id) else c
  }

  function Spoken(c: Conn): Conn {
    c.(seqSend := Low8(c.seqSend + 1))
  }

  /** Taking an enable message empties the transmit buffers. */
  function StepA(n: Net, x: Action): Net
    requires PossibleA(n, x)
  {
    match x
    case UserEnables => n.(a := UserEnable(n.a).0)
    case Timeout => n.(a := TimerFires(n.a))
    case Send => n.(a := Delivered(n.a.(flag := false)), toB := n.toB + [Con(n.a.kind)])
    case Again => n.(toB := n.toB + [Con(n.a.kind)])
    case Take =>
      n.(a := Handled(n.a, n.addressB, n.toA[0]), toA := n.toA[1..], busyA := n.busyA && n.toA[0].Data?)
    case Talk(acked) =>
      n.(a := Spoken(n.a), toB := n.toB + [Data(Spoken(n.a).seqSend, false)], busyA := !acked)
    case TalkAgain(acked) => n.(toB := n.toB + [Data(n.a.seqSend, true)], busyA := !acked)
  }

  predicate Possible(n: Net, s: Step) {
    match s
    case OfA(x) => PossibleA(n, x)
    case OfB(x) => PossibleA(Swap(n), x)
  }

  function After(n: Net, s: Step): Net
    requires Possible(n, s)
  {
    match s
    case OfA(x) => StepA(n, x)
    case OfB(x) => Swap(StepA(Swap(n), x))
  }

  predicate AllPossible(n: Net, ss: seq<Step>)
    decreases |ss|
  {
    ss == [] || (Possible(n, ss[0]) && AllPossible(After(n, ss[0]), ss[1..]))
  }

  function Run(n: Net, ss: seq<Step>): Net
    requires AllPossible(n, ss)
    decreases |ss|
  {
    if ss == [] then n else Run(After(n, ss[0]), ss[1..])
  }

  function Start(addressA: byte, addressB: byte): Net {
    Net(Connection.Initial(addressB), Connection.Initial(addressA), addressA, addressB, [], [], false, false)
  }

  // ---------------------------------------------------------------- the invariant

  /** The message of this kind from a is due, or received but not yet handled. */
  predicate OnItsWay(n: Net, m: Message) {
    (n.a.flag && n.a.kind == m) || Con(m) in n.toB
  }

  predicate Enabling(m: Message) {
    m.EnableRequest? || m.EnableResponse?
  }

  /** One node by itself: it only knows its partner and only ever sent enable messages. */
  predicate Plain(c: Conn, partner: byte) {
    && Connection.Inv(c) && ValidAddress(partner) && c.partner == c.backup == partner
    && !c.state.Disconnecting? && Enabling(c.kind)
    && (!c.timer.Off? ==> c.kind.EnableRequest?)
    && (c.state.Connecting? ==> c.kind.EnableRequest?)
    && (c.state.Disconnected? ==> !c.flag && c.timer.Off?)
  }

  /** Node a as far as its messages concern node b. */
  predicate Half(n: Net) {
    && Plain(n.a, n.addressB)
    && (forall i :: 0 <= i < |n.toB| && n.toB[i].Con? ==> Enabling(n.toB[i].message))
    && (OnItsWay(n, EnableRequest) ==> !n.a.state.Disconnected?)
    && (OnItsWay(n, EnableResponse) ==> n.a.state.Connected? && !n.b.state.Disconnected?)
    && (n.a.state.Connected? ==>
          n.b.state.Connected? || (n.b.state.Connecting? && OnItsWay(n, EnableResponse)))
    && (n.a.state.Connecting? ==> OnItsWay(n, EnableRequest) || OnItsWay(Swap(n), EnableResponse))
  }

  predicate Inv(n: Net) {
    Half(n) && Half(Swap(n))
  }

  lemma SendInv(n: Net)
    requires Inv(n) && PossibleA(n, Send)
    ensures Inv(StepA(n, Send))
  {
  }

  /** What taking a message does to a plain node. */
  function Took(c: Conn, m: Message): Conn {
    Sm(c.(retries := 0), if m.EnableRequest? then EnableRequested else Accept)
  }

  lemma ReceiveIsTook(c: Conn, sender: byte, m: Message)
    requires Plain(c, sender) && Enabling(m)
    ensures Receive(c, Received(sender, true, Some(m)), false) == Took(c, m)
  {
  }

  lemma TookPlain(c: Conn, sender: byte, m: Message)
    requires Plain(c, sender) && Enabling(m)
    ensures var d := Took(c, m);
      && Plain(d, sender)
      && (m.EnableRequest? ==> d.state.Connected? && d.flag && d.kind.EnableResponse?)
      && (m.EnableResponse? && c.state.Connecting? ==> d.state.Connected? && d.flag == c.flag && d.kind == c.kind)
      && (m.EnableResponse? && !c.state.Connecting? ==> d == c.(retries := 0))
  {
  }

  lemma PlainStates(c: Conn, sender: byte)
    requires Plain(c, sender)
    ensures !c.state.Disconnecting?
    ensures forall send, recv :: Plain(c.(seqSend := send, seqRecv := recv), sender)
  {
  }

  lemma FirstTaken(n: Net)
    requires Inv(n) && n.toA != []
    ensures Plain(n.a, n.addressB) && (n.toA[0].Con? ==> Enabling(n.toA[0].message))
  {
  }

  lemma FirstOut(items: seq<Item>, m: Message)
    requires items != []
    ensures Con(m) in items <==> items[0] == Con(m) || Con(m) in items[1..]
  {
    assert items == [items[0]] + items[1..];
  }

  lemma PlainReceived(c: Conn, sender: byte, recv: byte)
    requires Plain(c, sender)
    ensures Plain(c.(seqRecv := recv), sender)
  {
  }

  /** What taking the first item does to a, and what is known of that item. */
  lemma TakeMeans(n: Net)
    requires Inv(n) && PossibleA(n, Take)
    ensures var i, c := n.toA[0], StepA(n, Take).a;
      && (i.Con? ==> Enabling(i.message) && c == Took(n.a, i.message))
      && (i.Data? ==> c == n.a.(seqRecv := c.seqRecv))
      && Plain(c, n.addressB)
  {
    hide Inv, Half, Plain, Took, Receive, Heeds;
    FirstTaken(n);
    if n.toA[0].Con? {
      ReceiveIsTook(n.a, n.addressB, n.toA[0].message);
      TookPlain(n.a, n.addressB, n.toA[0].message);
    } else {
      PlainReceived(n.a, n.addressB, StepA(n, Take).a.seqRecv);
    }
  }

  lemma TakeConInv(n: Net)
    requires Inv(n) && PossibleA(n, Take) && n.toA[0].Con?
    ensures Inv(StepA(n, Take))
  {
    hide Plain, Took, Receive, Heeds, StepA;
    var m := n.toA[0].message;
    var t := StepA(n, Take);
    TakeMeans(n);
    TakeLeaves(n);
    TookPlain(n.a, n.addressB, m);
    FirstOut(n.toA, EnableRequest);
    FirstOut(n.toA, EnableResponse);
    PlainStates(n.a, n.addressB);
    PlainStates(n.b, n.addressA);
  }

  /** Taking changes nothing but a, its inbox and its repeat buffer. */
  lemma TakeLeaves(n: Net)
    requires PossibleA(n, Take)
    ensures var t := StepA(n, Take);
      t == n.(a := t.a, toA := n.toA[1..], busyA := t.busyA)
  {
  }

  lemma TakeDataInv(n: Net)
    requires Inv(n) && PossibleA(n, Take) && n.toA[0].Data?
    ensures Inv(StepA(n, Take))
  {
    hide Plain, Took, Receive, Heeds, StepA;
    TakeMeans(n);
    TakeLeaves(n);
    FirstOut(n.toA, EnableRequest);
    FirstOut(n.toA, EnableResponse);
  }

  lemma TalkInv(n: Net, x: Action)
    requires Inv(n) && PossibleA(n, x) && (x.Talk? || x.TalkAgain?)
    ensures Inv(StepA(n, x))
  {
    hide Plain;
    PlainStates(n.a, n.addressB);
  }

  lemma StepInvA(n: Net, x: Action)
    requires Inv(n) && PossibleA(n, x)
    ensures Inv(StepA(n, x))
  {
    match x
    case Send => SendInv(n);
    case Take =>
      if n.toA[0].Con? {
        TakeConInv(n);
      } else {
        TakeDataInv(n);
      }
    case Talk(_) => TalkInv(n, x);
    case TalkAgain(_) => TalkInv(n, x);
    case _ =>
  }

  lemma StepInv(n: Net, s: Step)
    requires Inv(n) && Possible(n, s)
    ensures Inv(After(n, s))
  {
    hide Half, StepA;
    match s
    case OfA(x) => StepInvA(n, x);
    case OfB(x) => StepInvA(Swap(n), x);
  }

  lemma {:induction false} RunInv(n: Net, ss: seq<Step>)
    requires Inv(n) && AllPossible(n, ss)
    ensures Inv(Run(n, ss))
    decreases |ss|
  {
    hide Inv, After, Possible;
    if ss == [] {
    } else {
      StepInv(n, ss[0]);
      RunInv(After(n, ss[0]), ss[1..]);
    }
  }

  lemma StartInv(addressA: byte, addressB: byte)
    requires ValidAddress(addressA) && ValidAddress(addressB)
    ensures Inv(Start(addressA, addressB))
  {
  }

  // ---------------------------------------------------------------- what follows for every run

  predicate Pending(n: Net) {
    n.a.flag || n.b.flag || n.toA != [] || n.toB != []
  }

  predicate Awake(c: Conn) {
    !c.state.Disconnected?
  }

  /** No step takes a node back to Disconnected, and none touches the other node. */
  lemma StaysAwakeA(n: Net, x: Action)
    requires Inv(n) && PossibleA(n, x)
    ensures Awake(n.a) ==> Awake(StepA(n, x).a)
    ensures StepA(n, x).b == n.b
  {
    if x.Take? && n.toA[0].Con? {
      FirstTaken(n);
      hide Half;
      ReceiveIsTook(n.a, n.addressB, n.toA[0].message);
      TookPlain(n.a, n.addressB, n.toA[0].message);
    }
  }

  /** Over every run: a node that has left Disconnected is never in it again. */
  lemma {:induction false} StaysAwake(n: Net, ss: seq<Step>)
    requires Inv(n) && AllPossible(n, ss)
    ensures Awake(n.a) ==> Awake(Run(n, ss).a)
    ensures Awake(n.b) ==> Awake(Run(n, ss).b)
    decreases |ss|
  {
    hide Inv, StepA, PossibleA;
    if ss == [] {
    } else {
      SwapInv(n);
      StepInv(n, ss[0]);
      match ss[0] {
        case OfA(x) => StaysAwakeA(n, x);
        case OfB(x) => StaysAwakeA(Swap(n), x);
      }
      StaysAwake(After(n, ss[0]), ss[1..]);
    }
  }

  predicate Begun(n: Net) {
    Awake(n.a) || Awake(n.b)
  }

  lemma SwapInv(n: Net)
    requires Inv(n)
    ensures Inv(Swap(n))
  {
  }

  /** The first step of any run is a user's enable, and it succeeds. */
  lemma FirstStep(addressA: byte, addressB: byte, s: Step)
    requires ValidAddress(addressA) && ValidAddress(addressB) && Possible(Start(addressA, addressB), s)
    ensures s.action.UserEnables? && Begun(After(Start(addressA, addressB), s))
  {
  }

  /** Once a node has left Disconnected, and nothing is pending any more, both are connected. */
  lemma Converges(n: Net)
    requires Inv(n) && !Pending(n) && Begun(n)
    ensures n.a.state.Connected? && n.b.state.Connected?
  {
    hide Connection.Inv;
  }

  /**
   In every run: while one node is connected the other is connected too, or this node's response is still on its way
   to it; and once anything was done at all and nothing is pending, both are connected.
   */
  lemma HandshakeAgrees(addressA: byte, addressB: byte, ss: seq<Step>)
    requires ValidAddress(addressA) && ValidAddress(addressB)
    requires AllPossible(Start(addressA, addressB), ss)
    ensures var n := Run(Start(addressA, addressB), ss);
      && (n.a.state.Connected? ==> n.b.state.Connected? || OnItsWay(n, EnableResponse))
      && (n.b.state.Connected? ==> n.a.state.Connected? || OnItsWay(Swap(n), EnableResponse))
      && (ss != [] && !Pending(n) ==> n.a.state.Connected? && n.b.state.Connected?)
  {
    hide AllPossible, Connection.Inv, After, Possible;
    var n := Start(addressA, addressB);
    StartInv(addressA, addressB);
    RunInv(n, ss);
    if ss != [] {
      BeginsWith(n, ss);
      FirstStep(addressA, addressB, ss[0]);
      StepInv(n, ss[0]);
      StaysAwake(After(n, ss[0]), ss[1..]);
      if !Pending(Run(n, ss)) {
        Converges(Run(n, ss));
      }
    }
  }

  lemma BeginsWith(n: Net, ss: seq<Step>)
    requires AllPossible(n, ss) && ss != []
    ensures Possible(n, ss[0]) && AllPossible(After(n, ss[0]), ss[1..])
  {
  }

  /** How far a message is from being handled, a request counting for the response it causes. */
  function Weight(i: Item, due: bool): nat {
    (if i == Con(EnableRequest) then 3 else 1) + (if due then 1 else 0)
  }

  function Weights(items: seq<Item>): nat {
    if items == [] then 0 else Weights(items[..|items| - 1]) + Weight(items[|items| - 1], false)
  }

  function Work(n: Net): nat {
    (if n.a.flag then Weight(Con(n.a.kind), true) else 0) + (if n.b.flag then Weight(Con(n.b.kind), true) else 0)
    + Weights(n.toA) + Weights(n.toB)
  }

  lemma {:induction false} WeightsFirst(items: seq<Item>)
    requires items != []
    ensures Weights(items) == Weight(items[0], false) + Weights(items[1..])
  {
    if |items| <= 1 {
    } else {
      WeightsFirst(items[..|items| - 1]);
      assert items[..|items| - 1][1..] == items[1..][..|items| - 2];
    }
  }

  lemma WorkShrinksA(n: Net, x: Action)
    requires Inv(n) && PossibleA(n, x) && (x.Send? || x.Take?)
    ensures Work(StepA(n, x)) < Work(n)
  {
    hide Half, Inv;
    if x.Send? {
      assert (n.toB + [Con(n.a.kind)])[..|n.toB|] == n.toB;
    } else {
      WeightsFirst(n.toA);
      FirstTaken(n);
      if n.toA[0].Con? {
        ReceiveIsTook(n.a, n.addressB, n.toA[0].message);
        TookPlain(n.a, n.addressB, n.toA[0].message);
      }
    }
  }

  lemma WorkShrinks(n: Net, s: Step)
    requires Inv(n) && Possible(n, s) && (s.action.Send? || s.action.Take?)
    ensures Work(After(n, s)) < Work(n)
  {
    hide Inv, StepA;
    SwapInv(n);
    match s
    case OfA(x) => WorkShrinksA(n, x);
    case OfB(x) => WorkShrinksA(Swap(n), x);
  }

  /** Delivering what is pending ends after at most Work steps, in any order. */
  lemma {:induction false} DeliveryEnds(n: Net, ss: seq<Step>)
    requires Inv(n) && AllPossible(n, ss) && forall i :: 0 <= i < |ss| ==> ss[i].action.Send? || ss[i].action.Take?
    ensures |ss| + Work(Run(n, ss)) <= Work(n)
    decreases |ss|
  {
    hide Inv, After, Possible, Work;
    if ss == [] {
    } else {
      assert ss[0].action.Send? || ss[0].action.Take?;
      StepInv(n, ss[0]);
      WorkShrinks(n, ss[0]);
      DeliveryEnds(After(n, ss[0]), ss[1..]);
    }
  }

  /** No repetition counter stands in the way of what is due. */
  predicate NotExhausted(n: Net) {
    (n.a.flag ==> !DeliveredFails(n.a)) && (n.b.flag ==> !DeliveredFails(n.b))
  }

  /** As long as something is pending some delivery is possible. */
  lemma DeliveryGoesOn(n: Net)
    requires Inv(n) && Pending(n) && NotExhausted(n)
    ensures exists s :: Possible(n, s) && (s.action.Send? || s.action.Take?)
  {
    var s := if n.a.flag then OfA(Send) else if n.b.flag then OfB(Send)
             else if n.toA != [] then OfA(Take) else OfB(Take);
    assert Possible(n, s);
  }

  lemma {:induction false} RunSnoc(n: Net, ss: seq<Step>, s: Step)
    requires AllPossible(n, ss) && Possible(Run(n, ss), s)
    ensures AllPossible(n, ss + [s]) && Run(n, ss + [s]) == After(Run(n, ss), s)
    decreases |ss|
  {
    hide Possible, After;
    if ss == [] {
      assert [] + [s] == [s];
    } else {
      assert (ss + [s])[1..] == ss[1..] + [s];
      RunSnoc(After(n, ss[0]), ss[1..], s);
    }
  }

  lemma NoSteps(n: Net)
    ensures AllPossible(n, []) && Run(n, []) == n
  {
  }
}
