/**
 How many messages two connected nodes ignore while their sequence ids are out of step, and that the ids are in step
 again afterwards.
 */
module HandshakeLag {
  import opened Bytes
  import C = Connection
  import opened Handshake
  import opened HandshakeIds
  import SequenceId

  /** The messages a receiver ignores, counted from the next one of a sender whose last id was sent. */
  function Lag(sent: byte, recv: byte): nat {
    var ahead := Low8(sent - recv);
    if ahead <= 126 then 0 else 256 - ahead
  }

  /** The id of the n-th message from now on. */
  function IdAfter(sent: byte, n: nat): byte {
    (sent + n) % 256
  }

  lemma NextAfter(sent: byte, n: nat)
    ensures IdAfter(sent, n + 1) == Low8(IdAfter(sent, n) + 1) && IdAfter(sent, 0) == sent
  {
  }

  /** The receiver's last id after n messages: it stays where it is until the lag is over. */
  function RecvAfter(sent: byte, recv: byte, n: nat): byte {
    if n <= Lag(sent, recv) then recv else IdAfter(sent, n)
  }

  /** The next message is heeded if and only if the lag is over; one that arrives again is not. */
  lemma LagDecides(sent: byte, recv: byte, n: nat)
    ensures SequenceId.Accepted(IdAfter(sent, n + 1), RecvAfter(sent, recv, n)) <==> n >= Lag(sent, recv)
    ensures n > 0 ==> !SequenceId.Accepted(IdAfter(sent, n), RecvAfter(sent, recv, n))
  {
    NextAfter(sent, n);
    if n <= Lag(sent, recv) {
      assert IdAfter(sent, n) as int == (sent + n) % 256;
    }
  }

  // ---------------------------------------------------------------- over every exchange of messages

  /** Messages are sent, repeated after a lost acknowledge, and taken. */
  predicate Talking(x: Action) {
    x.Talk? || x.TalkAgain? || x.Take?
  }

  predicate OnlyData(items: seq<Item>) {
    forall i :: 0 <= i < |items| ==> items[i].Data?
  }

  /** The items carry consecutive ids from last on, each any number of times; end is the last id. */
  predicate Chained(last: byte, items: seq<Item>, end: byte)
    decreases |items|
  {
    if items == [] then last == end
    else
      && items[0].Data? && items[0].id == (if items[0].again then last else Low8(last + 1))
      && Chained(items[0].id, items[1..], end)
  }

  lemma {:induction false} ChainedMore(last: byte, items: seq<Item>, end: byte, i: Item)
    requires Chained(last, items, end) && i.Data? && i.id == (if i.again then end else Low8(end + 1))
    ensures Chained(last, items + [i], i.id)
    decreases |items|
  {
    if items == [] {
      assert [] + [i] == [i];
    } else {
      assert (items + [i])[1..] == items[1..] + [i];
      ChainedMore(items[0].id, items[1..], end, i);
    }
  }

  /**
   Both are connected, a has taken n messages since the ids were sent and recv, and the next ones are on their way.
   */
  predicate Lagging(net: Net, sent: byte, recv: byte, n: nat) {
    && net.a.ready && net.b.ready && OnlyData(net.toB)
    && Chained(IdAfter(sent, n), net.toA, net.b.seqSend)
    && net.a.seqRecv == RecvAfter(sent, recv, n)
    && (n == 0 ==> if net.toA == [] then !net.busyB else !net.toA[0].again)
  }

  predicate TakesNew(net: Net, s: Step) {
    s == OfA(Take) && net.toA != [] && net.toA[0].Data? && !net.toA[0].again
  }

  lemma SpeakerLagging(net: Net, x: Action, sent: byte, recv: byte, n: nat)
    requires Lagging(net, sent, recv, n) && PossibleA(net, x) && (x.Talk? || x.TalkAgain?)
    ensures Lagging(StepA(net, x), sent, recv, n)
  {
    hide Chained;
  }

  lemma ListenerLagging(net: Net, sent: byte, recv: byte, n: nat)
    requires Lagging(net, sent, recv, n) && PossibleA(net, Take)
    ensures Lagging(StepA(net, Take), sent, recv, if net.toA[0].again then n else n + 1)
    ensures net.toA[0].Data?
    ensures IgnoresA(net, Take) <==> !net.toA[0].again && n < Lag(sent, recv)
    ensures !DoublesA(net, Take)
  {
    hide IdAfter, Lag, SequenceId.Accepted;
    LagDecides(sent, recv, n);
    NextAfter(sent, n);
  }

  lemma PartnerLagging(net: Net, x: Action, sent: byte, recv: byte, n: nat)
    requires Lagging(net, sent, recv, n) && PossibleA(Swap(net), x) && Talking(x)
    ensures Lagging(Swap(StepA(Swap(net), x)), sent, recv, n)
  {
    hide IdAfter, RecvAfter;
    var end: byte := net.b.seqSend;
    if x.Talk? {
      ChainedMore(IdAfter(sent, n), net.toA, end, Data(Low8(end + 1), false));
    } else if x.TalkAgain? {
      ChainedMore(IdAfter(sent, n), net.toA, end, Data(end, true));
    }
  }

  /** a's messages: how many it takes for the first time during the run, and how many of those it ignores. */
  function Taken(net: Net, ss: seq<Step>): nat
    requires AllPossible(net, ss)
    decreases |ss|
  {
    if ss == [] then 0 else (if TakesNew(net, ss[0]) then 1 else 0) + Taken(After(net, ss[0]), ss[1..])
  }

  function Ignored(net: Net, ss: seq<Step>): nat
    requires AllPossible(net, ss)
    decreases |ss|
  {
    if ss == [] then 0
    else (if ss[0].OfA? && IgnoresA(net, ss[0].action) then 1 else 0) + Ignored(After(net, ss[0]), ss[1..])
  }

  /** a lets no message pass a second time. */
  predicate NoneTwice(net: Net, ss: seq<Step>)
    requires AllPossible(net, ss)
    decreases |ss|
  {
    ss == [] || (!(ss[0].OfA? && DoublesA(net, ss[0].action)) && NoneTwice(After(net, ss[0]), ss[1..]))
  }

  function Min(m: nat, n: nat): nat {
    if m < n then m else n
  }

  lemma StepLagging(net: Net, s: Step, sent: byte, recv: byte, n: nat)
    requires Lagging(net, sent, recv, n) && Possible(net, s) && Talking(s.action)
    ensures Lagging(After(net, s), sent, recv, if TakesNew(net, s) then n + 1 else n)
    ensures (s.OfA? && IgnoresA(net, s.action)) <==> (TakesNew(net, s) && n < Lag(sent, recv))
    ensures !(s.OfA? && DoublesA(net, s.action))
  {
    hide Lagging, Lag, StepA, Heeds;
    match s
    case OfA(x) =>
      if x.Take? {
        ListenerLagging(net, sent, recv, n);
      } else {
        SpeakerLagging(net, x, sent, recv, n);
      }
    case OfB(x) => PartnerLagging(net, x, sent, recv, n);
  }

  lemma {:induction false} RunLagging(net: Net, ss: seq<Step>, sent: byte, recv: byte, n: nat)
    requires Lagging(net, sent, recv, n) && AllPossible(net, ss)
    requires forall i :: 0 <= i < |ss| ==> Talking(ss[i].action)
    ensures Lagging(Run(net, ss), sent, recv, n + Taken(net, ss))
    ensures Ignored(net, ss) == Min(n + Taken(net, ss), Lag(sent, recv)) - Min(n, Lag(sent, recv))
    ensures NoneTwice(net, ss)
    decreases |ss|
  {
    hide Lagging, Lag, After, Possible, TakesNew, IgnoresA, DoublesA;
    if ss == [] {
    } else {
      StepLagging(net, ss[0], sent, recv, n);
      RunLagging(After(net, ss[0]), ss[1..], sent, recv, if TakesNew(net, ss[0]) then n + 1 else n);
    }
  }

  /** Nothing of b's is on its way to a. */
  predicate Heard(net: Net) {
    net.a.ready && net.b.ready && net.toA == [] && !net.busyB && OnlyData(net.toB)
  }

  /**
   From any ids whatever, over every exchange of messages: a ignores exactly the first Lag messages of b, heeds every
   further one, and none twice; in particular the next one on its way is ignored if and only if the lag is not over.
   */
  lemma LagExact(net: Net, ss: seq<Step>)
    requires Heard(net) && AllPossible(net, ss) && forall i :: 0 <= i < |ss| ==> Talking(ss[i].action)
    ensures var lag := Lag(net.b.seqSend, net.a.seqRecv);
      && Ignored(net, ss) == Min(Taken(net, ss), lag) && NoneTwice(net, ss)
      && (TakesNew(Run(net, ss), OfA(Take)) ==> (IgnoresA(Run(net, ss), Take) <==> Taken(net, ss) < lag))
  {
    hide AllPossible, Run, Taken, Ignored, NoneTwice, Heeds, IdAfter, Lag;
    var sent, recv := net.b.seqSend, net.a.seqRecv;
    NextAfter(sent, 0);
    RunLagging(net, ss, sent, recv, 0);
    var end := Run(net, ss);
    if TakesNew(end, OfA(Take)) {
      ListenerLagging(end, sent, recv, Taken(net, ss));
    }
  }

  // ---------------------------------------------------------------- after a reopening

  function SwapStep(s: Step): Step {
    match s
    case OfA(x) => OfB(x)
    case OfB(x) => OfA(x)
  }

  /** The same run seen from the other side. */
  function SwapAll(ss: seq<Step>): (r: seq<Step>)
    ensures |r| == |ss| && forall i :: 0 <= i < |ss| ==> r[i] == SwapStep(ss[i])
  {
    seq(|ss|, i requires 0 <= i < |ss| => SwapStep(ss[i]))
  }

  lemma {:induction false} SwapRun(net: Net, ss: seq<Step>)
    requires AllPossible(net, ss)
    ensures AllPossible(Swap(net), SwapAll(ss)) && Run(Swap(net), SwapAll(ss)) == Swap(Run(net, ss))
    decreases |ss|
  {
    hide StepA, PossibleA;
    if ss == [] {
    } else {
      assert SwapAll(ss)[1..] == SwapAll(ss[1..]);
      SwapRun(After(net, ss[0]), ss[1..]);
    }
  }

  /** A late request is all that is on its way; it is taken and answered, and the answer is taken. */
  predicate Reopening(net: Net) {
    Inv(net) && net.a.state.Connected? && net.b.state.Connected? && net.toA == [] && net.toB == [Con(C.EnableRequest)]
  }

  const REOPEN: seq<Step> := [OfB(Take), OfB(Send), OfA(Take)]

  lemma Reopen(net: Net)
    requires Reopening(net)
    ensures AllPossible(net, REOPEN)
    ensures var m := Run(net, REOPEN);
      && Heard(m) && Heard(Swap(m)) && m.b.seqSend == m.b.seqRecv == 255
      && m.a.seqSend == net.a.seqSend && m.a.seqRecv == net.a.seqRecv
  {
    hide AllPossible, Run;
    assert Plain(net.a, net.addressB) && Plain(net.b, net.addressA);
    hide Inv, Half;
    NoSteps(net);
    var ss, n := Further(net, [], OfB(Take));
    ss, n := Further(net, ss, OfB(Send));
    ss, n := Further(net, ss, OfA(Take));
    assert ss == REOPEN;
  }

  /** What the reset is worth, in messages to come. */
  lemma AfterReset(id: byte)
    ensures Lag(255, id) == if id <= 128 then id as int + 1 else 0
    ensures Lag(id, 255) == if 126 <= id <= 254 then 255 - id as int else 0
  {
  }

  /**
   The exact price of a late request that is taken by a connected node b, over every exchange of messages that follows:
   if the last id a received is r, a ignores b's next r + 1 messages when r is at most 128, and none otherwise; if the
   last id a sent is s, b ignores a's next 255 - s messages when s is from 126 to 254, and none otherwise. From then on
   every message is heeded once.
   */
  lemma ReopenCosts(net: Net, ss: seq<Step>)
    requires Reopening(net) && AllPossible(net, REOPEN) && AllPossible(Run(net, REOPEN), ss)
    requires forall i :: 0 <= i < |ss| ==> Talking(ss[i].action)
    ensures AllPossible(Swap(Run(net, REOPEN)), SwapAll(ss))
    ensures var m, r, s := Run(net, REOPEN), net.a.seqRecv, net.a.seqSend;
      && Ignored(m, ss) == Min(Taken(m, ss), if r <= 128 then r as int + 1 else 0)
      && Ignored(Swap(m), SwapAll(ss)) ==
         Min(Taken(Swap(m), SwapAll(ss)), if 126 <= s <= 254 then 255 - s as int else 0)
      && NoneTwice(m, ss) && NoneTwice(Swap(m), SwapAll(ss))
  {
    hide AllPossible, Run, Taken, Ignored, NoneTwice, Heard, Reopening, Lag;
    Reopen(net);
    var m := Run(net, REOPEN);
    SwapRun(m, ss);
    LagExact(m, ss);
    LagExact(Swap(m), SwapAll(ss));
    AfterReset(net.a.seqRecv);
    AfterReset(net.a.seqSend);
  }
}
