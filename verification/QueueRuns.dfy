/**
 Conservation of unanswered messages: what holds of the repeat queue over every run, for
 commands, queries and events alike.
 */
module QueueRuns {
  import opened Bytes
  import opened Frames
  import opened RepeatQueue

  /** The saved messages with the given numbers. */
  function FramesAt(saved: seq<Frame>, ids: seq<nat>): seq<Frame> {
    if ids == [] then []
    else (if ids[0] < |saved| then [saved[ids[0]]] else []) + FramesAt(saved, ids[1..])
  }

  /**
   The queue is a compact list of different messages; every message ever saved is in it, was freed by its response,
   or was lost, and in one of these places only; the callback was told of exactly the lost ones, in order.
   */
  ghost predicate Kept(q: seq<Slot>, h: History, told: seq<Frame>) {
    Compact(q) && Distinct(q) && Accounts(q, h) && told == FramesAt(h.saved, h.lost)
  }

  lemma {:induction false} FramesAtConcat(saved: seq<Frame>, a: seq<nat>, b: seq<nat>)
    ensures FramesAt(saved, a + b) == FramesAt(saved, a) + FramesAt(saved, b)
    decreases |a|
  {
    if a == [] {
      assert a + b == b;
    } else {
      assert (a + b)[1..] == a[1..] + b;
      FramesAtConcat(saved, a[1..], b);
    }
  }

  lemma {:induction false} FramesAtGrows(saved: seq<Frame>, f: Frame, ids: seq<nat>)
    requires forall i :: 0 <= i < |ids| ==> ids[i] < |saved|
    ensures FramesAt(saved + [f], ids) == FramesAt(saved, ids)
    decreases |ids|
  {
    if ids == [] {
    } else {
      FramesAtGrows(saved, f, ids[1..]);
    }
  }

  lemma LostAreSaved(h: History)
    requires OnePlace(h)
    ensures forall i :: 0 <= i < |h.lost| ==> h.lost[i] < |h.saved|
  {
    forall i | 0 <= i < |h.lost|
      ensures h.lost[i] < |h.saved|
    {
      assert Places(h)[h.lost[i]] > 0;
    }
  }

  lemma {:induction false} WaitingAt(q: seq<Slot>, live: seq<nat>, saved: seq<Frame>)
    requires Labels(q, live, saved)
    ensures WaitingFrames(q) == FramesAt(saved, live)
    decreases |q|
  {
    if q == [] {
    } else {
      WaitingAt(q[1..], if q[0].occupied then live[1..] else live, saved);
      var o := Occupied(q[1..]);
      if q[0].occupied {
        assert Occupied(q) == [q[0]] + o;
        assert WaitingFrames(q) == [q[0].frame] + WaitingFrames(q[1..]);
      }
    }
  }

  lemma Accounted(q: seq<Slot>, h: History)
    requires Accounts(q, h)
    ensures OnePlace(h) && Labels(q, h.live, h.saved)
  {
  }

  lemma NoneOccupied(n: nat)
    ensures Occupied(Frees(n)) == [] && Compact(Frees(n))
  {
    OccupiedNone(Frees(n));
  }

  lemma {:induction false} OccupiedIn(q: seq<Slot>)
    ensures forall s :: s in Occupied(q) <==> s in q && s.occupied
    decreases |q|
  {
    if q == [] {
    } else {
      OccupiedIn(q[1..]);
      assert q == [q[0]] + q[1..];
    }
  }

  lemma BumpCompact(q: seq<Slot>, i: nat)
    requires Compact(q) && i < |q| && q[i].occupied && q[i].retries < 255
    ensures Compact(Bump(q, i)) && Occupied(Bump(q, i)) != []
  {
    hide Occupied;
    CompactSlots(q);
    var o := Occupied(q);
    var p := o[i := o[i].(retries := o[i].retries + 1)];
    assert Bump(q, i) == p + Frees(|q| - |o|);
    OccupiedConcat(p, Frees(|q| - |o|));
    OccupiedAll(p);
    OccupiedNone(Frees(|q| - |o|));
  }

  lemma CompactStays(q: seq<Slot>)
    requires Compact(q)
    ensures Compacted(q) == q
  {
  }

  // ---------------------------------------------------------------- every operation keeps it

  lemma AdmitKept(q: seq<Slot>, h: History, told: seq<Frame>, f: Frame, repetition: byte)
    requires Kept(q, h, told)
    ensures var (r, ok) := Admit(q, f, repetition);
      var added := ok && IsNew(q, f);
      && Kept(r, if added then SaveHistory(h, f) else h, told)
      && (Occupied(r) != [] ==> added || Occupied(q) != [])
      && (!added ==> r == q)
  {
    hide Accounts, Compact, Distinct, Find, Occupied, FramesAt;
    if IsNew(q, f) {
      SaveAppends(q, f);
      if Save(q, f, Find(q, f, 0).1).1 {
        SaveAccounts(q, h, f);
        Accounted(q, h);
        LostAreSaved(h);
        FramesAtGrows(h.saved, f, h.lost);
      }
    }
  }

  lemma LoseKept(q: seq<Slot>, h: History, told: seq<Frame>)
    requires Kept(q, h, told)
    ensures Kept(Frees(|q|), LoseHistory(h), told + WaitingFrames(q))
  {
    hide Accounts, Compact, Occupied, FramesAt;
    Accounted(q, h);
    LoseAccounts(q, h);
    NoneOccupied(|q|);
    WaitingAt(q, h.live, h.saved);
    FramesAtConcat(h.saved, h.lost, h.live);
  }

  lemma CountKept(q: seq<Slot>, h: History, told: seq<Frame>, i: nat)
    requires Kept(q, h, told) && i < |q| && q[i].occupied && q[i].retries < 255
    ensures Kept(Bump(q, i), h, told) && Occupied(Bump(q, i)) != []
  {
    hide Accounts, FramesAt;
    BumpAccounts(q, i, h);
    BumpCompact(q, i);
  }

  lemma MatchKept(q: seq<Slot>, h: History, told: seq<Frame>, cuts: seq<Cut>)
    requires Kept(q, h, told)
    ensures Kept(Compacted(MarkAll(q, cuts)), MarkAllHistory(h, cuts), told)
  {
    hide Accounts, Compact, Distinct, FramesAt, Occupied;
    var m := MarkAll(q, cuts);
    MarkAllAccounts(q, h, cuts);
    CompactAccounts(m, MarkAllHistory(h, cuts));
    CompactedKeeps(m);
    CompactedDistinct(m);
  }

  // ---------------------------------------------------------------- runs

  /** What the instance does with its queue: a send, a received response, a repetition counted, everything given up. */
  datatype Op = Sent(frame: Frame, repetition: byte) | Responded(cuts: seq<Cut>) | Repeated(i: nat) | GivenUp

  datatype Queue = Queue(slots: seq<Slot>, hist: History, told: seq<Frame>)

  function Apply(q: Queue, op: Op): Queue {
    match op
    case Sent(f, repetition) =>
      var (slots, ok) := Admit(q.slots, f, repetition);
      q.(slots := slots, hist := if ok && IsNew(q.slots, f) then SaveHistory(q.hist, f) else q.hist)
    case Responded(cuts) =>
      q.(slots := Compacted(MarkAll(q.slots, cuts)), hist := MarkAllHistory(q.hist, cuts))
    case Repeated(i) =>
      if i < |q.slots| && q.slots[i].occupied && q.slots[i].retries < 255 then q.(slots := Bump(q.slots, i)) else q
    case GivenUp =>
      Queue(Frees(|q.slots|), LoseHistory(q.hist), q.told + WaitingFrames(q.slots))
  }

  function ApplyAll(q: Queue, ops: seq<Op>): Queue
    decreases |ops|
  {
    if ops == [] then q else ApplyAll(Apply(q, ops[0]), ops[1..])
  }

  function Empty(size: nat): Queue {
    Queue(Frees(size), History([], [], [], []), [])
  }

  lemma EmptyKept(size: nat)
    ensures Kept(Frees(size), History([], [], [], []), [])
  {
    hide Compact, Occupied;
    NoneOccupied(size);
    LabelsOfOccupied(Frees(size), [], []);
  }

  lemma {:induction false} RunKept(q: Queue, ops: seq<Op>)
    requires Kept(q.slots, q.hist, q.told)
    ensures var r := ApplyAll(q, ops);
      Kept(r.slots, r.hist, r.told)
    decreases |ops|
  {
    hide Kept, Admit, IsNew, Compacted, MarkAll, MarkAllHistory, WaitingFrames, Frees;
    if ops == [] {
    } else {
      match ops[0] {
        case Sent(f, repetition) => AdmitKept(q.slots, q.hist, q.told, f, repetition);
        case Responded(cuts) => MatchKept(q.slots, q.hist, q.told, cuts);
        case Repeated(i) =>
          if i < |q.slots| && q.slots[i].occupied && q.slots[i].retries < 255 {
            CountKept(q.slots, q.hist, q.told, i);
          }
        case GivenUp => LoseKept(q.slots, q.hist, q.told);
      }
      RunKept(Apply(q, ops[0]), ops[1..]);
    }
  }

  /** Every saved message is waiting, freed or lost: exactly one of the three, and exactly once. */
  ghost predicate OneOfThree(h: History) {
    forall id: nat ::
      multiset(h.live)[id] + multiset(h.freed)[id] + multiset(h.lost)[id] == if id < |h.saved| then 1 else 0
  }

  lemma KeptMeans(q: seq<Slot>, h: History, told: seq<Frame>)
    requires Kept(q, h, told)
    ensures OneOfThree(h) && Increasing(h.lost + h.live) && Distinct(q)
    ensures told == FramesAt(h.saved, h.lost) && WaitingFrames(q) == FramesAt(h.saved, h.live)
  {
    hide Compact, FramesAt, WaitingFrames, Increasing;
    Accounted(q, h);
    WaitingAt(q, h.live, h.saved);
    forall id: nat
      ensures multiset(h.live)[id] + multiset(h.freed)[id] + multiset(h.lost)[id] == if id < |h.saved| then 1 else 0
    {
      assert Places(h)[id] == multiset(h.live)[id] + multiset(h.freed)[id] + multiset(h.lost)[id];
    }
  }

  /**
   Conservation over every run of the queue, for every kind of message: each one ever saved is waiting, was freed by a
   response, or was reported lost, exactly one of the three and exactly once; the reports came in the order the messages
   were saved; and no two waiting messages are equal.
   */
  lemma EveryMessageInOnePlace(size: nat, ops: seq<Op>)
    ensures var r := ApplyAll(Empty(size), ops);
      && OneOfThree(r.hist) && Increasing(r.hist.lost + r.hist.live) && Distinct(r.slots)
      && r.told == FramesAt(r.hist.saved, r.hist.lost)
      && WaitingFrames(r.slots) == FramesAt(r.hist.saved, r.hist.live)
  {
    hide Kept, ApplyAll;
    EmptyKept(size);
    RunKept(Empty(size), ops);
    var r := ApplyAll(Empty(size), ops);
    KeptMeans(r.slots, r.hist, r.told);
  }
}
