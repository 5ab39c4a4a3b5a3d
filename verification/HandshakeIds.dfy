/**
 The sequence ids of two nodes over every run of the handshake: they stay in step, and every message is heeded, as
 long as no node takes an enable request while it is connected, and without a repeated request none does.
 */
module HandshakeIds {
  import opened Bytes
  import C = Connection
  import opened Handshake

  /** A connected node takes an enable request. */
  predicate ReopensA(n: Net, x: Action) {
    x.Take? && n.toA != [] && n.a.state.Connected? && n.toA[0] == Con(C.EnableRequest)
  }

  predicate Reopens(n: Net, s: Step) {
    match s
    case OfA(x) => ReopensA(n, x)
    case OfB(x) => ReopensA(Swap(n), x)
  }

  predicate NeverReopens(n: Net, ss: seq<Step>)
    requires AllPossible(n, ss)
    decreases |ss|
  {
    ss == [] || (!Reopens(n, ss[0]) && NeverReopens(After(n, ss[0]), ss[1..]))
  }

  /** An enable request is due or on its way to a node that is connected already. */
  predicate Late(n: Net) {
    (OnItsWay(n, C.EnableRequest) && n.b.state.Connected?)
    || (OnItsWay(Swap(n), C.EnableRequest) && n.a.state.Connected?)
  }

  // ---------------------------------------------------------------- what taking does to the ids

  /**
   Taking an item while connected sets both ids back to before zero if and only if it is an enable request; nothing else
   moves the id to send, and only a heeded message moves the id received.
   */
  lemma TakeResets(n: Net)
    requires Inv(n) && n.toA != [] && n.a.state.Connected?
    ensures var i, t := n.toA[0], StepA(n, Take);
      && (i == Con(C.EnableRequest) ==> t.a.seqSend == t.a.seqRecv == 255)
      && (i != Con(C.EnableRequest) ==> t.a.seqSend == n.a.seqSend)
      && (i != Con(C.EnableRequest) ==> t.a.seqRecv == (if i.Data? && Heeds(n.a, i.id) then i.id else n.a.seqRecv))
      && (n.a.seqSend != 255 ==> (t.a.seqSend == 255 <==> i == Con(C.EnableRequest)))
  {
    FirstTaken(n);
    hide Half, Inv;
  }

  // ---------------------------------------------------------------- in step while nobody reopens

  /** A receiver working off its inbox; Missed: it ignored a message; Reopened: it was reset, what follows is open. */
  datatype Ear = Open(ready: bool, recv: byte) | Reopened | Missed

  function Next(e: Ear, i: Item): Ear {
    match (e, i)
    case (Open(ready, _), Con(EnableRequest)) => if ready then Reopened else Open(true, 255)
    case (Open(ready, recv), Con(_)) => Open(true, if ready then recv else 255)
    case (Open(ready, recv), Data(id, again)) =>
      if ready && id == (if again then recv else Low8(recv + 1)) then Open(true, id) else Missed
    case _ => e
  }

  function Hears(e: Ear, items: seq<Item>): Ear {
    if items == [] then e else Next(Hears(e, items[..|items| - 1]), items[|items| - 1])
  }

  lemma {:induction false} HearsFirst(e: Ear, items: seq<Item>)
    requires items != []
    ensures Hears(e, items) == Hears(Next(e, items[0]), items[1..])
  {
    if |items| <= 1 {
    } else {
      HearsFirst(e, items[..|items| - 1]);
      assert items[..|items| - 1][1..] == items[1..][..|items| - 2];
    }
  }

  lemma {:induction false} HearsReady(e: Ear, items: seq<Item>)
    requires e.Open? ==> e.ready
    ensures Hears(e, items).Open? ==> Hears(e, items).ready
    ensures e.Missed? ==> Hears(e, items).Missed?
  {
    if items == [] {
    } else {
      HearsReady(e, items[..|items| - 1]);
    }
  }

  function EarOf(c: C.Conn): Ear {
    Open(c.ready, c.seqRecv)
  }

  /** Once b has worked off its inbox it is ready for a's next message, or it was reset on the way. */
  predicate Matches(a: C.Conn, busy: bool, e: Ear) {
    match e
    case Open(ready, recv) =>
      && (a.ready && ready ==> recv == a.seqSend)
      && (a.ready && !ready ==> a.seqSend == 255 && a.flag && a.kind.EnableResponse? && !busy)
      && (!a.ready && ready ==> recv == 255)
    case Reopened => true
    case Missed => false
  }

  predicate HalfInStep(n: Net) {
    Matches(n.a, n.busyA, Hears(EarOf(n.b), n.toB))
  }

  predicate InStep(n: Net) {
    Inv(n) && HalfInStep(n) && HalfInStep(Swap(n))
  }

  lemma HearsLast(e: Ear, items: seq<Item>, i: Item)
    ensures Hears(e, items + [i]) == Next(Hears(e, items), i)
  {
    assert (items + [i])[..|items|] == items;
  }

  /** What a says and does, seen from b. */
  lemma SpeaksInStep(n: Net, x: Action)
    requires Inv(n) && HalfInStep(n) && PossibleA(n, x) && !x.Take?
    ensures HalfInStep(StepA(n, x))
  {
    hide Hears;
    if x.Send? || x.Again? {
      HearsLast(EarOf(n.b), n.toB, Con(n.a.kind));
    } else if x.Talk? {
      HearsLast(EarOf(n.b), n.toB, Data(Spoken(n.a).seqSend, false));
    } else if x.TalkAgain? {
      HearsLast(EarOf(n.b), n.toB, Data(n.a.seqSend, true));
    }
  }

  /** What Inv says about the message a takes next. */
  lemma FirstMeans(n: Net)
    requires Inv(n) && n.toA != []
    ensures Plain(n.a, n.addressB) && (n.toA[0].Con? ==> Enabling(n.toA[0].message))
    ensures n.toA[0] == Con(C.EnableResponse) ==> n.b.ready && !n.a.state.Disconnected?
    ensures n.a.ready <==> n.a.state.Connected?
  {
    assert n.toA[0] in n.toA;
  }

  /** What a takes does not disturb what it has said. */
  lemma TakerInStep(n: Net)
    requires Inv(n) && HalfInStep(n) && PossibleA(n, Take) && !ReopensA(n, Take)
    ensures HalfInStep(StepA(n, Take))
  {
    FirstMeans(n);
    hide Hears, Half;
    if n.b.ready {
      HearsReady(EarOf(n.b), n.toB);
    }
  }

  /** What a takes next leaves it as its ear expects. */
  lemma TakenInStep(n: Net)
    requires Inv(n) && HalfInStep(Swap(n)) && PossibleA(n, Take) && !ReopensA(n, Take)
    ensures HalfInStep(Swap(StepA(n, Take)))
    ensures n.toA[0].Data? ==> (Heeds(n.a, n.toA[0].id) <==> !n.toA[0].again)
  {
    FirstMeans(n);
    hide Hears, Half;
    HearsFirst(EarOf(n.a), n.toA);
    HearsReady(Next(EarOf(n.a), n.toA[0]), n.toA[1..]);
  }

  /** Speaking changes neither what a has heard nor its inbox. */
  lemma SpeakerHears(n: Net, x: Action)
    requires Inv(n) && HalfInStep(Swap(n)) && PossibleA(n, x) && !x.Take?
    ensures HalfInStep(Swap(StepA(n, x)))
  {
    hide Hears;
  }

  lemma StepInStepA(n: Net, x: Action)
    requires InStep(n) && PossibleA(n, x) && !ReopensA(n, x)
    ensures InStep(StepA(n, x))
    ensures x.Take? && n.toA[0].Data? ==> (Heeds(n.a, n.toA[0].id) <==> !n.toA[0].again)
  {
    hide HalfInStep, Inv, StepA;
    StepInvA(n, x);
    if x.Take? {
      TakerInStep(n);
      TakenInStep(n);
    } else {
      SpeaksInStep(n, x);
      SpeakerHears(n, x);
    }
  }

  lemma SwapInStep(n: Net)
    requires InStep(n)
    ensures InStep(Swap(n)) && Inv(n)
  {
    hide Inv, HalfInStep;
    SwapInv(n);
  }

  /** a takes a request or response message for the first time, and the id test refuses it. */
  predicate IgnoresA(n: Net, x: Action) {
    x.Take? && n.toA != [] && n.toA[0].Data? && !n.toA[0].again && !Heeds(n.a, n.toA[0].id)
  }

  /** a takes one that it has had before, and the id test lets it pass. */
  predicate DoublesA(n: Net, x: Action) {
    x.Take? && n.toA != [] && n.toA[0].Data? && n.toA[0].again && Heeds(n.a, n.toA[0].id)
  }

  predicate Ignores(n: Net, s: Step) {
    match s
    case OfA(x) => IgnoresA(n, x)
    case OfB(x) => IgnoresA(Swap(n), x)
  }

  predicate Doubles(n: Net, s: Step) {
    match s
    case OfA(x) => DoublesA(n, x)
    case OfB(x) => DoublesA(Swap(n), x)
  }

  lemma StepInStep(n: Net, s: Step)
    requires InStep(n) && Possible(n, s) && !Reopens(n, s)
    ensures InStep(After(n, s)) && !Ignores(n, s) && !Doubles(n, s)
  {
    hide InStep, StepA, PossibleA, Heeds;
    SwapInStep(n);
    match s {
      case OfA(x) => StepInStepA(n, x);
      case OfB(x) =>
        StepInStepA(Swap(n), x);
        SwapInStep(StepA(Swap(n), x));
    }
  }

  /** Every message taken during the run is heeded once. */
  predicate HeedsOnce(n: Net, ss: seq<Step>)
    requires AllPossible(n, ss)
    decreases |ss|
  {
    ss == [] || (!Ignores(n, ss[0]) && !Doubles(n, ss[0]) && HeedsOnce(After(n, ss[0]), ss[1..]))
  }

  lemma {:induction false} RunInStep(n: Net, ss: seq<Step>)
    requires InStep(n) && AllPossible(n, ss) && NeverReopens(n, ss)
    ensures InStep(Run(n, ss)) && HeedsOnce(n, ss)
    decreases |ss|
  {
    hide InStep, After, Possible, Reopens, Ignores, Doubles;
    if ss == [] {
    } else {
      StepInStep(n, ss[0]);
      RunInStep(After(n, ss[0]), ss[1..]);
    }
  }

  // ---------------------------------------------------------------- without a repetition nobody reopens

  /** No request is repeated: neither because its answer does not come, nor because its acknowledge was lost. */
  predicate NoRepetition(x: Action) {
    !x.Timeout? && !x.Again?
  }

  /** A request goes out before anything else does, and only to a node that is not connected yet. */
  predicate HalfOnce(n: Net) {
    && (n.a.state.Disconnected? ==> n.toB == [])
    && (n.a.flag && n.a.kind.EnableRequest? ==> n.toB == [] && !n.b.ready && n.a.state.Connecting?)
    && (forall i :: 0 <= i < |n.toB| && n.toB[i] == Con(C.EnableRequest) ==>
          i == 0 && !n.b.ready && !(n.a.flag && n.a.kind.EnableRequest?))
  }

  predicate Once(n: Net) {
    Inv(n) && HalfOnce(n) && HalfOnce(Swap(n))
  }

  lemma OnceSpeaks(n: Net, x: Action)
    requires Once(n) && PossibleA(n, x) && NoRepetition(x)
    ensures HalfOnce(StepA(n, x))
  {
    FirstTakenOrNone(n);
  }

  lemma OnceHears(n: Net, x: Action)
    requires Once(n) && PossibleA(n, x) && NoRepetition(x)
    ensures HalfOnce(Swap(StepA(n, x)))
  {
    FirstTakenOrNone(n);
  }

  lemma FirstTakenOrNone(n: Net)
    requires Inv(n)
    ensures n.toA != [] ==>
              n.toA[0] in n.toA && Plain(n.a, n.addressB) && (n.toA[0].Con? ==> Enabling(n.toA[0].message))
  {
    if n.toA != [] {
      FirstTaken(n);
    }
  }

  lemma OnceIsNotLate(n: Net)
    requires Once(n)
    ensures !Late(n)
    ensures forall s :: Possible(n, s) ==> !Reopens(n, s)
  {
  }

  lemma StepOnce(n: Net, s: Step)
    requires Once(n) && Possible(n, s) && NoRepetition(s.action)
    ensures Once(After(n, s))
  {
    hide HalfOnce, Inv, StepA;
    SwapInv(n);
    match s {
      case OfA(x) =>
        StepInvA(n, x);
        OnceSpeaks(n, x);
        OnceHears(n, x);
      case OfB(x) =>
        StepInvA(Swap(n), x);
        SwapInv(StepA(Swap(n), x));
        OnceSpeaks(Swap(n), x);
        OnceHears(Swap(n), x);
    }
  }

  lemma {:induction false} RunOnce(n: Net, ss: seq<Step>)
    requires Once(n) && AllPossible(n, ss) && forall i :: 0 <= i < |ss| ==> NoRepetition(ss[i].action)
    ensures Once(Run(n, ss)) && NeverReopens(n, ss)
    decreases |ss|
  {
    hide Once, After, Possible, Reopens;
    if ss == [] {
    } else {
      OnceIsNotLate(n);
      StepOnce(n, ss[0]);
      RunOnce(After(n, ss[0]), ss[1..]);
    }
  }

  lemma StartInStep(addressA: byte, addressB: byte)
    requires C.ValidAddress(addressA) && C.ValidAddress(addressB)
    ensures InStep(Start(addressA, addressB)) && Once(Start(addressA, addressB))
  {
    StartInv(addressA, addressB);
    hide Inv;
  }

  /**
   In every run in which no node takes an enable request while it is connected, every request and response message is
   heeded exactly once, however often it arrives. A run in which no connection message is repeated is one of them, and
   never gets anywhere near.
   */
  lemma NothingIgnored(addressA: byte, addressB: byte, ss: seq<Step>)
    requires C.ValidAddress(addressA) && C.ValidAddress(addressB)
    requires AllPossible(Start(addressA, addressB), ss)
    ensures NeverReopens(Start(addressA, addressB), ss) ==> HeedsOnce(Start(addressA, addressB), ss)
    ensures (forall i :: 0 <= i < |ss| ==> NoRepetition(ss[i].action)) ==>
              NeverReopens(Start(addressA, addressB), ss) && !Late(Run(Start(addressA, addressB), ss))
  {
    hide AllPossible, NeverReopens, HeedsOnce, Run, Late, InStep, Once, Start;
    var n := Start(addressA, addressB);
    StartInStep(addressA, addressB);
    if NeverReopens(n, ss) {
      RunInStep(n, ss);
    }
    if forall i :: 0 <= i < |ss| ==> NoRepetition(ss[i].action) {
      RunOnce(n, ss);
      OnceIsNotLate(Run(n, ss));
    }
  }

  // ---------------------------------------------------------------- the failing run

  /** One more step of a run. */
  lemma Further(start: Net, ss: seq<Step>, s: Step) returns (more: seq<Step>, n: Net)
    requires AllPossible(start, ss) && Possible(Run(start, ss), s)
    ensures more == ss + [s] && AllPossible(start, more) && n == Run(start, more) == After(Run(start, ss), s)
  {
    hide After, Possible;
    RunSnoc(start, ss, s);
    more := ss + [s];
    n := Run(start, more);
  }

  /** Both are connected, nothing is on its way, and a's request is due once more. */
  predicate LateState(n: Net) {
    && n.a.state.Connected? && n.b.state.Connected? && Late(n) && n.toA == n.toB == [] && !n.busyA && !n.busyB
    && n.a.flag && n.a.kind.EnableRequest? && n.a.repeats <= 1 && n.a.ready && n.a.seqSend == n.a.seqRecv == 255
    && !n.b.flag && n.b.ready && n.b.seqSend == n.b.seqRecv == 255
  }

  /** a's request is repeated by its timer while b's response is on its way. */
  const LATE: seq<Step> := [OfA(UserEnables), OfA(Send), OfA(Timeout), OfB(Take), OfB(Send), OfA(Take)]

  /** Without a timer: a's request arrives, but its acknowledge is lost. */
  const LATE_AGAIN: seq<Step> := [OfA(UserEnables), OfA(Again), OfB(Take), OfB(Send), OfA(Take)]

  lemma LateRequest(addressA: byte, addressB: byte)
    requires C.ValidAddress(addressA) && C.ValidAddress(addressB)
    ensures var start := Start(addressA, addressB);
      && AllPossible(start, LATE) && LateState(Run(start, LATE))
  {
    hide AllPossible, Run;
    var start := Start(addressA, addressB);
    NoSteps(start);
    var ss, n := Further(start, [], OfA(UserEnables));
    ss, n := Further(start, ss, OfA(Send));
    ss, n := Further(start, ss, OfA(Timeout));
    ss, n := Further(start, ss, OfB(Take));
    ss, n := Further(start, ss, OfB(Send));
    ss, n := Further(start, ss, OfA(Take));
    assert ss == LATE;
  }

  lemma LateAcknowledge(addressA: byte, addressB: byte)
    requires C.ValidAddress(addressA) && C.ValidAddress(addressB)
    ensures var start := Start(addressA, addressB);
      && AllPossible(start, LATE_AGAIN) && LateState(Run(start, LATE_AGAIN))
      && (forall i :: 0 <= i < |LATE_AGAIN| ==> !LATE_AGAIN[i].action.Timeout?)
  {
    hide AllPossible, Run;
    var start := Start(addressA, addressB);
    NoSteps(start);
    var ss, n := Further(start, [], OfA(UserEnables));
    ss, n := Further(start, ss, OfA(Again));
    ss, n := Further(start, ss, OfB(Take));
    ss, n := Further(start, ss, OfB(Send));
    ss, n := Further(start, ss, OfA(Take));
    assert ss == LATE_AGAIN;
  }

  /** b's first message is heeded, then the late request resets b, and b's next message has the same id again. */
  const OUT_OF_STEP: seq<Step> :=
    [OfB(Talk(true)), OfA(Take), OfA(Send), OfB(Take), OfB(Send), OfB(Talk(true)), OfA(Take)]

  lemma Continued(addressA: byte, addressB: byte, late: seq<Step>)
    requires C.ValidAddress(addressA) && C.ValidAddress(addressB)
    requires AllPossible(Start(addressA, addressB), late) && LateState(Run(Start(addressA, addressB), late))
    ensures var start := Start(addressA, addressB);
      && AllPossible(start, late + OUT_OF_STEP)
      && var n := Run(start, late + OUT_OF_STEP);
        && n.a.state.Connected? && n.b.state.Connected? && Possible(n, OfA(Take)) && Ignores(n, OfA(Take))
  {
    hide AllPossible, Run, Start;
    var start := Start(addressA, addressB);
    StartInv(addressA, addressB);
    RunInv(start, late);
    var n0 := Run(start, late);
    assert Plain(n0.a, n0.addressB) && Plain(n0.b, n0.addressA);
    hide Inv, Half;
    var ss, n := Further(start, late, OfB(Talk(true)));
    ss, n := Further(start, ss, OfA(Take));
    ss, n := Further(start, ss, OfA(Send));
    ss, n := Further(start, ss, OfB(Take));
    ss, n := Further(start, ss, OfB(Send));
    ss, n := Further(start, ss, OfB(Talk(true)));
    ss, n := Further(start, ss, OfA(Take));
    assert ss == late + OUT_OF_STEP;
  }

  /** Both are connected and ready, and a ignores the new message of its partner; it takes no timer to get there. */
  lemma OutOfStep(addressA: byte, addressB: byte, late: seq<Step>)
    requires C.ValidAddress(addressA) && C.ValidAddress(addressB) && (late == LATE || late == LATE_AGAIN)
    ensures var start := Start(addressA, addressB);
      && AllPossible(start, late + OUT_OF_STEP)
      && var n := Run(start, late + OUT_OF_STEP);
        && n.a.state.Connected? && n.b.state.Connected? && Possible(n, OfA(Take)) && Ignores(n, OfA(Take))
  {
    hide AllPossible, Run, Start, LateState, Possible, Ignores;
    LateRequest(addressA, addressB);
    LateAcknowledge(addressA, addressB);
    Continued(addressA, addressB, late);
  }
}
