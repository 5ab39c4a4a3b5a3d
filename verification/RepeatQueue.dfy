/**
 The queue of DBal messages that still wait for their response. The entries stay
 where they are; an array of pointers to them is kept in FIFO order.
 */
module RepeatQueue {
  import opened Bytes
  import opened Frames

  /** DBAL_MAX_DATALEN_2REPEAT */
  const MAX_DATA: nat := 10

  datatype Slot = Slot(frame: Frame, occupied: bool, retries: byte)

  const FREE := Slot(Frame(Cmd, 0, 0, []), false, 0)

  // ---------------------------------------------------------------- the queue as a sequence

  function Occupied(q: seq<Slot>): (o: seq<Slot>)
    ensures |o| <= |q|
    ensures forall i :: 0 <= i < |o| ==> o[i].occupied
  {
    if q == [] then [] else if q[0].occupied then [q[0]] + Occupied(q[1..]) else Occupied(q[1..])
  }

  function Frees(n: nat): (f: seq<Slot>)
    ensures |f| == n && forall i :: 0 <= i < n ==> f[i] == FREE
  {
    seq(n, _ => FREE)
  }

  /** The occupied slots in their old order, then free slots. */
  function Compacted(q: seq<Slot>): (c: seq<Slot>)
    ensures |c| == |q|
  {
    Occupied(q) + Frees(|q| - |Occupied(q)|)
  }

  /** Nothing but occupied slots, then nothing but zeroed ones. */
  predicate Compact(q: seq<Slot>) {
    q == Compacted(q)
  }

  /** DBAL_closeGapBetweenMsgs2Repeat */
  function CloseGap(q: seq<Slot>, i: nat): seq<Slot>
    requires i < |q|
  {
    q[..i] + q[i + 1..] + [FREE]
  }

  /** The scan of DBAL_isMsg2RepeatSaved: whether f is saved, else the first free slot (or the length). */
  function Find(q: seq<Slot>, f: Frame, i: nat): (bool, nat)
    requires i <= |q|
    decreases |q| - i
  {
    if i == |q| then (false, |q|)
    else if q[i].occupied && q[i].frame == f then (true, |q|)
    else if q[i].retries == 0 && !q[i].occupied then (false, i)
    else Find(q, f, i + 1)
  }

  /** DBAL_saveMsg2Repeat */
  function Save(q: seq<Slot>, f: Frame, free: nat): (r: (seq<Slot>, bool))
    ensures |r.0| == |q|
  {
    if |f.payload| <= MAX_DATA && free < |q| && q[free].retries == 0 && !q[free].occupied then
      (q[free := q[free].(occupied := true, frame := f)], true)
    else
      (q, false)
  }

  /** DBAL_isMsg2RepeatSaved and DBAL_saveMsg2Repeat: the queue afterwards, and whether the frame may be sent. */
  function Admit(q: seq<Slot>, f: Frame, repetition: byte): (r: (seq<Slot>, bool))
    ensures |r.0| == |q|
  {
    if !ToRepeat(f.kind) then (q, true)
    else if Find(q, f, 0).0 then (q, repetition != 0)
    else Save(q, f, Find(q, f, 0).1)
  }

  /** The frame goes into the queue as a new message. */
  predicate IsNew(q: seq<Slot>, f: Frame) {
    ToRepeat(f.kind) && !Find(q, f, 0).0
  }

  function WaitingFrames(q: seq<Slot>): seq<Frame> {
    seq(|Occupied(q)|, i requires 0 <= i < |Occupied(q)| => Occupied(q)[i].frame)
  }

  /** The frame at the cut answers the message in the slot. */
  predicate Answers(c: Cut, s: Slot) {
    && IsAck(c.frame.kind) && c.whole && s.occupied
    && c.frame.kind == ResponseTo(s.frame.kind)
    && c.frame.service == s.frame.service && c.frame.command == s.frame.command
    && (c.frame.payload == [] || !c.frame.kind.EventAck?)
  }

  function Mark(q: seq<Slot>, c: Cut): (r: seq<Slot>)
    ensures |r| == |q|
  {
    seq(|q|, i requires 0 <= i < |q| => if Answers(c, q[i]) then q[i].(occupied := false) else q[i])
  }

  /** The slots after all frames of a message: DBAL_look4AckMsgReception. */
  function MarkAll(q: seq<Slot>, cuts: seq<Cut>): (r: seq<Slot>)
    ensures |r| == |q|
    decreases |cuts|
  {
    if cuts == [] then q else MarkAll(Mark(q, cuts[0]), cuts[1..])
  }

  predicate Awaited(q: seq<Slot>, c: Cut) {
    exists i :: 0 <= i < |q| && Answers(c, q[i])
  }

  /** The frames nobody waits for, as reported to the application; requests are left to the other scan. */
  function Unexpected(q: seq<Slot>, cuts: seq<Cut>): seq<Cut>
    decreases |cuts|
  {
    if cuts == [] then []
    else
      (if !Awaited(q, cuts[0]) && !ToRepeat(cuts[0].frame.kind) then [cuts[0]] else [])
      + Unexpected(Mark(q, cuts[0]), cuts[1..])
  }

  function Bump(q: seq<Slot>, i: nat): (r: seq<Slot>)
    requires i < |q| && q[i].retries < 255
    ensures |r| == |q|
  {
    q[i := q[i].(retries := q[i].retries + 1)]
  }

  /** The calls of one lost message callback: one for every occupied slot, in queue order. */
  function Calls(q: seq<Slot>, callback: nat): seq<(nat, Frame)> {
    if q == [] then []
    else
      var last := q[|q| - 1];
      Calls(q[..|q| - 1], callback) + (if last.occupied then [(callback, last.frame)] else [])
  }

  /** The calls of all registered callbacks, one after the other. */
  function Reports(q: seq<Slot>, callbacks: nat): seq<(nat, Frame)> {
    if callbacks == 0 then [] else Reports(q, callbacks - 1) + Calls(q, callbacks - 1)
  }

  // ---------------------------------------------------------------- slots behind pointers

  /** A permutation of the slot numbers. */
  predicate Permutation(p: seq<nat>, n: nat) {
    && |p| == n && (forall i :: 0 <= i < n ==> p[i] < n)
    && (forall i, j :: 0 <= i < j < n ==> p[i] != p[j])
  }

  /** The slots in pointer order. */
  function ViewOf(slots: seq<Slot>, p: seq<nat>): (q: seq<Slot>)
    requires Permutation(p, |slots|)
    ensures |q| == |slots|
  {
    seq(|p|, i requires 0 <= i < |p| => slots[p[i]])
  }

  function Rotated(p: seq<nat>, start: nat): seq<nat>
    requires start < |p|
  {
    p[..start] + p[start + 1..] + [p[start]]
  }

  lemma RotatedAt(p: seq<nat>, start: nat)
    requires start < |p|
    ensures var r := Rotated(p, start);
      |r| == |p| && r[|p| - 1] == p[start] &&
      forall k :: 0 <= k < |p| - 1 ==> r[k] == p[if k < start then k else k + 1]
  {
  }

  /** Moving the pointer to the end and zeroing its slot closes the gap, and the pointers stay a permutation. */
  lemma RotateClosesGap(slots: seq<Slot>, p: seq<nat>, start: nat)
    requires Permutation(p, |slots|) && start < |p|
    ensures Permutation(Rotated(p, start), |slots|)
    ensures ViewOf(slots[p[start] := FREE], Rotated(p, start)) == CloseGap(ViewOf(slots, p), start)
  {
  }

  // ---------------------------------------------------------------- compaction

  lemma {:induction false} OccupiedConcat(a: seq<Slot>, b: seq<Slot>)
    ensures Occupied(a + b) == Occupied(a) + Occupied(b)
  {
    if a == [] {
      assert a + b == b;
    } else {
      assert (a + b)[1..] == a[1..] + b;
      OccupiedConcat(a[1..], b);
    }
  }

  lemma {:induction false} OccupiedNone(q: seq<Slot>)
    requires forall i :: 0 <= i < |q| ==> !q[i].occupied
    ensures Occupied(q) == []
  {
    if q == [] {
    } else {
      OccupiedNone(q[1..]);
    }
  }

  lemma {:induction false} OccupiedAll(q: seq<Slot>)
    requires forall i :: 0 <= i < |q| ==> q[i].occupied
    ensures Occupied(q) == q
  {
    if q == [] {
    } else {
      OccupiedAll(q[1..]);
    }
  }

  /** Every callback is called exactly once for every queued message, in queue order. */
  lemma {:induction false} CallsExact(q: seq<Slot>, callback: nat)
    ensures |Calls(q, callback)| == |Occupied(q)|
    ensures forall i :: 0 <= i < |Occupied(q)| ==> Calls(q, callback)[i] == (callback, Occupied(q)[i].frame)
    decreases |q|
  {
    if q == [] {
    } else {
      var init := q[..|q| - 1];
      CallsExact(init, callback);
      assert q == init + [q[|q| - 1]];
      OccupiedConcat(init, [q[|q| - 1]]);
    }
  }

  /** One step of the backward scan that closes the gaps. */
  lemma CompactedStep(q: seq<Slot>, i: nat)
    requires i < |q|
    ensures var v := q[..i + 1] + Compacted(q[i + 1..]);
      |v| == |q| && v[i] == q[i] && (if q[i].occupied then v else CloseGap(v, i)) == q[..i] + Compacted(q[i..])
    ensures Occupied(q[i..]) != [] <==> q[i].occupied || Occupied(q[i + 1..]) != []
  {
    hide Compacted, Occupied, CloseGap;
    var c := Compacted(q[i + 1..]);
    CompactedCons(q[i], q[i + 1..]);
    assert q[i..] == [q[i]] + q[i + 1..];
    assert q[..i + 1] == q[..i] + [q[i]];
    CloseGapAt(q[..i], q[i], c);
    assert (q[..i] + [q[i]]) + c == q[..i] + ([q[i]] + c);
    assert (q[..i] + c) + [FREE] == q[..i] + (c + [FREE]);
  }

  lemma CloseGapAt(a: seq<Slot>, s: Slot, c: seq<Slot>)
    ensures CloseGap((a + [s]) + c, |a|) == (a + c) + [FREE]
  {
  }

  lemma CompactedCons(s: Slot, q: seq<Slot>)
    ensures Compacted([s] + q) == if s.occupied then [s] + Compacted(q) else Compacted(q) + [FREE]
    ensures Occupied([s] + q) != [] <==> s.occupied || Occupied(q) != []
  {
  }

  /** Compaction keeps exactly the occupied slots in order, and is idempotent. */
  lemma CompactedKeeps(q: seq<Slot>)
    ensures Occupied(Compacted(q)) == Occupied(q) && Compact(Compacted(q))
  {
    var o := Occupied(q);
    OccupiedConcat(o, Frees(|q| - |o|));
    OccupiedAll(o);
    OccupiedNone(Frees(|q| - |o|));
  }

  /** A compact queue: slot i is occupied exactly when i is below the number of occupied slots. */
  lemma CompactSlots(q: seq<Slot>)
    requires Compact(q)
    ensures forall i :: 0 <= i < |q| ==> (q[i].occupied <==> i < |Occupied(q)|) && (!q[i].occupied ==> q[i] == FREE)
    ensures forall i :: 0 <= i < |Occupied(q)| ==> Occupied(q)[i] == q[i]
  {
  }

  // ---------------------------------------------------------------- no message twice

  predicate Contains(q: seq<Slot>, f: Frame) {
    exists i :: 0 <= i < |q| && q[i].occupied && q[i].frame == f
  }

  /** In a compact queue the early break is sound: the scan tells whether f is saved, and otherwise finds the end. */
  lemma {:induction false} FindExact(q: seq<Slot>, f: Frame, i: nat)
    requires Compact(q) && i <= |Occupied(q)|
    requires forall k :: 0 <= k < i ==> q[k].frame != f
    ensures Find(q, f, i).0 <==> Contains(q, f)
    ensures !Find(q, f, i).0 ==> Find(q, f, i).1 == |Occupied(q)|
    decreases |q| - i
  {
    hide Compact, Occupied;
    CompactSlots(q);
    if i < |Occupied(q)| && q[i].frame != f {
      FindExact(q, f, i + 1);
    }
  }

  predicate Distinct(q: seq<Slot>) {
    forall i, j :: 0 <= i < j < |q| && q[i].occupied && q[j].occupied ==> q[i].frame != q[j].frame
  }

  /** Saving a message that is not yet saved appends it to the occupied slots; no two saved messages become equal. */
  lemma SaveAppends(q: seq<Slot>, f: Frame)
    requires Compact(q) && Distinct(q) && !Find(q, f, 0).0
    ensures var (r, ok) := Save(q, f, Find(q, f, 0).1);
      && (ok <==> |f.payload| <= MAX_DATA && |Occupied(q)| < |q|)
      && Compact(r) && Distinct(r)
      && Occupied(r) == (if ok then Occupied(q) + [Slot(f, true, 0)] else Occupied(q))
  {
    FindExact(q, f, 0);
    CompactSlots(q);
    var n := |Occupied(q)|;
    if n < |q| && |f.payload| <= MAX_DATA {
      var r := Save(q, f, n).0;
      assert r == Occupied(q) + [Slot(f, true, 0)] + Frees(|q| - n - 1);
      OccupiedConcat(Occupied(q) + [Slot(f, true, 0)], Frees(|q| - n - 1));
      OccupiedAll(Occupied(q) + [Slot(f, true, 0)]);
      OccupiedNone(Frees(|q| - n - 1));
    }
  }

  lemma {:induction false} OccupiedFrames(q: seq<Slot>, i: nat)
    requires i < |Occupied(q)|
    ensures exists k :: 0 <= k < |q| && q[k] == Occupied(q)[i]
  {
    if q[0].occupied && i == 0 {
      assert q[0] == Occupied(q)[0];
    } else {
      var j := if q[0].occupied then i - 1 else i;
      OccupiedFrames(q[1..], j);
      var k :| 0 <= k < |q[1..]| && q[1..][k] == Occupied(q[1..])[j];
      assert q[k + 1] == Occupied(q)[i];
    }
  }

  lemma {:induction false} OccupiedDistinct(q: seq<Slot>)
    requires Distinct(q)
    ensures Distinct(Occupied(q))
  {
    if q == [] {
    } else {
      OccupiedDistinct(q[1..]);
      if q[0].occupied {
        forall j | 0 <= j < |Occupied(q[1..])|
          ensures Occupied(q[1..])[j].frame != q[0].frame
        {
          OccupiedFrames(q[1..], j);
        }
      }
    }
  }

  /** Compaction cannot make two saved messages equal. */
  lemma CompactedDistinct(q: seq<Slot>)
    requires Distinct(q)
    ensures Distinct(Compacted(q))
  {
    OccupiedDistinct(q);
  }

  // ---------------------------------------------------------------- conservation

  /**
   The messages saved so far, by number, and what became of each: still in the queue,
   freed by a response, or reported as lost.
   */
  datatype History = History(saved: seq<Frame>, live: seq<nat>, freed: seq<nat>, lost: seq<nat>)

  /** Strictly increasing, and above the bound. */
  predicate Above(bound: int, ids: seq<nat>)
    decreases |ids|
  {
    ids == [] || (bound < ids[0] && Above(ids[0], ids[1..]))
  }

  predicate Increasing(ids: seq<nat>) {
    Above(-1, ids)
  }

  function Last(bound: int, ids: seq<nat>): int {
    if ids == [] then bound else ids[|ids| - 1]
  }

  /** The occupied slots hold, in order, the saved messages with the given numbers. */
  predicate Labels(q: seq<Slot>, live: seq<nat>, saved: seq<Frame>) {
    if q == [] then live == []
    else if q[0].occupied then
      live != [] && live[0] < |saved| && q[0].frame == saved[live[0]] && Labels(q[1..], live[1..], saved)
    else Labels(q[1..], live, saved)
  }

  ghost function Places(h: History): multiset<nat> {
    multiset(h.live) + multiset(h.freed) + multiset(h.lost)
  }

  /** Every saved message is in exactly one place, once. */
  ghost predicate OnePlace(h: History) {
    forall id: nat :: Places(h)[id] == if id < |h.saved| then 1 else 0
  }

  /** Queue and history agree; lost messages and queued messages are in the order they were saved. */
  ghost predicate Accounts(q: seq<Slot>, h: History) {
    Labels(q, h.live, h.saved) && OnePlace(h) && Increasing(h.lost + h.live)
  }

  predicate Answered(c: Cut, saved: seq<Frame>, id: nat) {
    id < |saved| && Answers(c, Slot(saved[id], true, 0))
  }

  /** The numbers of the queued messages the frame at the cut does not answer. */
  function Kept(saved: seq<Frame>, live: seq<nat>, c: Cut): (r: seq<nat>)
    ensures forall id :: id in r <==> id in live && !Answered(c, saved, id)
  {
    if live == [] then []
    else if Answered(c, saved, live[0]) then Kept(saved, live[1..], c)
    else [live[0]] + Kept(saved, live[1..], c)
  }

  /** The numbers of those it answers. */
  function Gone(saved: seq<Frame>, live: seq<nat>, c: Cut): (r: seq<nat>)
    ensures forall id :: id in r <==> id in live && Answered(c, saved, id)
  {
    if live == [] then []
    else if Answered(c, saved, live[0]) then [live[0]] + Gone(saved, live[1..], c)
    else Gone(saved, live[1..], c)
  }

  lemma {:induction false} KeptGone(saved: seq<Frame>, live: seq<nat>, c: Cut)
    ensures multiset(live) == multiset(Kept(saved, live, c)) + multiset(Gone(saved, live, c))
  {
    if live == [] {
    } else {
      assert live == [live[0]] + live[1..];
      KeptGone(saved, live[1..], c);
    }
  }

  lemma {:induction false} AboveConcat(bound: int, a: seq<nat>, b: seq<nat>)
    ensures Above(bound, a + b) <==> Above(bound, a) && Above(Last(bound, a), b)
    decreases |a|
  {
    if a == [] {
      assert a + b == b;
    } else {
      assert (a + b)[1..] == a[1..] + b;
      AboveConcat(a[0], a[1..], b);
    }
  }

  lemma {:induction false} AboveWeaken(low: int, bound: int, ids: seq<nat>)
    requires low <= bound && Above(bound, ids)
    ensures Above(low, ids)
  {
  }

  lemma {:induction false} KeptAbove(bound: int, saved: seq<Frame>, live: seq<nat>, c: Cut)
    requires Above(bound, live)
    ensures Above(bound, Kept(saved, live, c))
    decreases |live|
  {
    if live == [] {
    } else {
      KeptAbove(live[0], saved, live[1..], c);
      AboveWeaken(bound, live[0], Kept(saved, live[1..], c));
    }
  }

  lemma {:induction false} MarkLabels(q: seq<Slot>, live: seq<nat>, saved: seq<Frame>, c: Cut)
    requires Labels(q, live, saved)
    ensures Labels(Mark(q, c), Kept(saved, live, c), saved)
  {
    if q == [] {
    } else {
      assert Mark(q, c) == [if Answers(c, q[0]) then q[0].(occupied := false) else q[0]] + Mark(q[1..], c);
      MarkLabels(q[1..], if q[0].occupied then live[1..] else live, saved, c);
      assert q[0].occupied ==> (Answers(c, q[0]) <==> Answered(c, saved, live[0]));
    }
  }

  lemma {:induction false} LabelsOfOccupied(q: seq<Slot>, live: seq<nat>, saved: seq<Frame>)
    ensures Labels(q, live, saved) <==> Labels(Occupied(q), live, saved)
  {
    if q == [] {
    } else {
      LabelsOfOccupied(q[1..], if q[0].occupied && live != [] then live[1..] else live, saved);
    }
  }

  lemma {:induction false} LabelsAppend(q: seq<Slot>, live: seq<nat>, saved: seq<Frame>, f: Frame)
    requires Labels(q, live, saved)
    ensures Labels(q + [Slot(f, true, 0)], live + [|saved|], saved + [f])
  {
    if q == [] {
      assert [] + [Slot(f, true, 0)] == [Slot(f, true, 0)];
    } else {
      assert (q + [Slot(f, true, 0)])[1..] == q[1..] + [Slot(f, true, 0)];
      LabelsAppend(q[1..], if q[0].occupied then live[1..] else live, saved, f);
      assert q[0].occupied ==> (live + [|saved|])[1..] == live[1..] + [|saved|];
    }
  }

  function SaveHistory(h: History, f: Frame): History {
    h.(saved := h.saved + [f], live := h.live + [|h.saved|])
  }

  function MarkHistory(h: History, c: Cut): History {
    h.(live := Kept(h.saved, h.live, c), freed := h.freed + Gone(h.saved, h.live, c))
  }

  function LoseHistory(h: History): History {
    h.(live := [], lost := h.lost + h.live)
  }

  /** A response frees exactly the queued messages it answers. */
  lemma MarkAccounts(q: seq<Slot>, h: History, c: Cut)
    requires Accounts(q, h)
    ensures Accounts(Mark(q, c), MarkHistory(h, c))
  {
    hide Labels, Above, Kept, Gone;
    MarkLabels(q, h.live, h.saved, c);
    KeptGone(h.saved, h.live, c);
    AboveConcat(-1, h.lost, h.live);
    KeptAbove(Last(-1, h.lost), h.saved, h.live, c);
    AboveConcat(-1, h.lost, Kept(h.saved, h.live, c));
    assert Places(MarkHistory(h, c)) == Places(h);
  }

  /** Compaction does not change what is queued. */
  lemma CompactAccounts(q: seq<Slot>, h: History)
    requires Accounts(q, h)
    ensures Accounts(Compacted(q), h)
  {
    hide Labels, Above, Compacted, Occupied;
    CompactedKeeps(q);
    LabelsOfOccupied(q, h.live, h.saved);
    LabelsOfOccupied(Compacted(q), h.live, h.saved);
  }

  lemma LastBelow(h: History)
    requires OnePlace(h)
    ensures Last(-1, h.lost + h.live) < |h.saved|
  {
    var ids := h.lost + h.live;
    if ids != [] {
      var id := ids[|ids| - 1];
      assert id in h.lost || id in h.live;
      assert Places(h)[id] > 0;
    }
  }

  lemma NewNumber(h: History, f: Frame)
    requires OnePlace(h) && Increasing(h.lost + h.live)
    ensures OnePlace(SaveHistory(h, f)) && Increasing(h.lost + SaveHistory(h, f).live)
  {
    hide Above;
    var n: nat := |h.saved|;
    var g := SaveHistory(h, f);
    assert Places(g) == Places(h) + multiset{n};
    LastBelow(h);
    AboveConcat(-1, h.lost + h.live, [n]);
    assert Above(Last(-1, h.lost + h.live), [n]) by {
      OneAbove(Last(-1, h.lost + h.live), n);
    }
    assert g.lost + g.live == (h.lost + h.live) + [n];
  }

  lemma OneAbove(bound: int, n: nat)
    requires bound < n
    ensures Above(bound, [n])
  {
  }

  /** A message saved into a compact queue is a new one, behind all others. */
  lemma SaveAccounts(q: seq<Slot>, h: History, f: Frame)
    requires Accounts(q, h) && Compact(q) && Distinct(q) && !Find(q, f, 0).0
    requires Save(q, f, Find(q, f, 0).1).1
    ensures Accounts(Save(q, f, Find(q, f, 0).1).0, SaveHistory(h, f))
  {
    hide Find, Save, Compact, Distinct, Occupied, Labels, OnePlace, Increasing;
    SaveAppends(q, f);
    var g := SaveHistory(h, f);
    NewNumber(h, f);
    LabelsOfOccupied(q, h.live, h.saved);
    LabelsAppend(Occupied(q), h.live, h.saved, f);
    LabelsOfOccupied(Save(q, f, Find(q, f, 0).1).0, g.live, g.saved);
  }

  /** Reporting every queued message and zeroing the queue moves each of them to the lost ones, in order. */
  lemma LoseAccounts(q: seq<Slot>, h: History)
    requires Accounts(q, h)
    ensures Accounts(Frees(|q|), LoseHistory(h))
  {
    hide Labels, Above;
    var g := LoseHistory(h);
    OccupiedNone(Frees(|q|));
    LabelsOfOccupied(Frees(|q|), [], h.saved);
    assert Labels([], [], h.saved) by {
      NoLabels(h.saved);
    }
    assert g.lost + g.live == h.lost + h.live;
    assert Places(g) == Places(h);
  }

  lemma NoLabels(saved: seq<Frame>)
    ensures Labels([], [], saved)
  {
  }

  lemma {:induction false} BumpLabels(q: seq<Slot>, i: nat, live: seq<nat>, saved: seq<Frame>)
    requires i < |q| && q[i].retries < 255 && Labels(q, live, saved)
    ensures Labels(Bump(q, i), live, saved)
  {
    if i == 0 {
      assert Bump(q, 0)[1..] == q[1..];
    } else {
      assert Bump(q, i)[1..] == Bump(q[1..], i - 1);
      BumpLabels(q[1..], i - 1, if q[0].occupied then live[1..] else live, saved);
    }
  }

  /** Counting a repetition does not change what is queued. */
  lemma BumpAccounts(q: seq<Slot>, i: nat, h: History)
    requires i < |q| && q[i].retries < 255 && Accounts(q, h)
    ensures Accounts(Bump(q, i), h)
  {
    hide Labels, Above;
    BumpLabels(q, i, h.live, h.saved);
  }

  function MarkAllHistory(h: History, cuts: seq<Cut>): (g: History)
    ensures g.saved == h.saved && g.lost == h.lost
    decreases |cuts|
  {
    if cuts == [] then h else MarkAllHistory(MarkHistory(h, cuts[0]), cuts[1..])
  }

  /** The frames of a message free exactly the queued messages one of them answers, each once. */
  lemma {:induction false} MarkAllAccounts(q: seq<Slot>, h: History, cuts: seq<Cut>)
    requires Accounts(q, h) && Distinct(q)
    ensures Accounts(MarkAll(q, cuts), MarkAllHistory(h, cuts)) && Distinct(MarkAll(q, cuts))
    decreases |cuts|
  {
    hide Accounts, MarkHistory;
    if cuts == [] {
    } else {
      MarkAccounts(q, h, cuts[0]);
      MarkAllAccounts(Mark(q, cuts[0]), MarkHistory(h, cuts[0]), cuts[1..]);
    }
  }

  // ---------------------------------------------------------------- which responses free which messages

  /** An acknowledge of the message's own kind, service and command; that of an event carries no payload. */
  predicate Acknowledges(response: Frame, message: Frame) {
    && response.service == message.service && response.command == message.command
    && ((message.kind.Cmd? && response.kind.CmdAck?)
        || (message.kind.Query? && response.kind.QueryAck?)
        || (message.kind.Event? && response.kind.EventAck? && response.payload == []))
  }

  /** A frame leaves exactly the waiting slots it does not acknowledge, and changes nothing else. */
  lemma MarkExact(q: seq<Slot>, c: Cut, i: nat)
    requires i < |q|
    ensures Mark(q, c)[i] == q[i].(occupied := q[i].occupied && !(c.whole && Acknowledges(c.frame, q[i].frame)))
  {
  }

  /**
   The messages freed by the frames of a message are exactly the waiting ones that one of its whole frames
   acknowledges.
   */
  lemma {:induction false} FreedExactly(h: History, cuts: seq<Cut>, id: nat)
    requires id < |h.saved| && id in h.live && id !in h.freed
    ensures var g := MarkAllHistory(h, cuts);
      var acknowledged := exists i :: 0 <= i < |cuts| && cuts[i].whole && Acknowledges(cuts[i].frame, h.saved[id]);
      && (id in g.freed <==> acknowledged)
      && (id in g.live <==> !acknowledged)
    decreases |cuts|
  {
    if cuts == [] {
    } else {
      var m := MarkHistory(h, cuts[0]);
      if cuts[0].whole && Acknowledges(cuts[0].frame, h.saved[id]) {
        assert Answered(cuts[0], h.saved, id);
        StaysFreed(m, cuts[1..], id);
      } else {
        assert !Answered(cuts[0], h.saved, id);
        FreedExactly(m, cuts[1..], id);
        var rest := cuts[1..];
        assert forall i :: 0 < i < |cuts| ==> cuts[i] == rest[i - 1];
        assert forall i :: 0 <= i < |rest| ==> rest[i] == cuts[i + 1];
      }
    }
  }

  /** A message that is freed stays freed. */
  lemma {:induction false} StaysFreed(h: History, cuts: seq<Cut>, id: nat)
    requires id in h.freed && id !in h.live
    ensures id in MarkAllHistory(h, cuts).freed && id !in MarkAllHistory(h, cuts).live
    decreases |cuts|
  {
    if cuts == [] {
    } else {
      StaysFreed(MarkHistory(h, cuts[0]), cuts[1..], id);
    }
  }

  /** The responses among the first n frames have left the slot waiting. */
  predicate StillWaits(s: Slot, cuts: seq<Cut>, n: nat)
    requires n <= |cuts|
  {
    s.occupied && forall j :: 0 <= j < n ==> !(cuts[j].whole && Acknowledges(cuts[j].frame, s.frame))
  }

  /** Frame n of a message is reported as unexpected: it is no request, and nobody waits for it by then. */
  predicate Reported(q: seq<Slot>, cuts: seq<Cut>, n: nat)
    requires n < |cuts|
  {
    && !cuts[n].frame.kind.Cmd? && !cuts[n].frame.kind.Query? && !cuts[n].frame.kind.Event?
    && forall i :: 0 <= i < |q| ==>
         !(StillWaits(q[i], cuts, n) && cuts[n].whole && Acknowledges(cuts[n].frame, q[i].frame))
  }

  lemma ReportedAfter(q: seq<Slot>, cuts: seq<Cut>, n: nat)
    requires 0 < n < |cuts|
    ensures Reported(q, cuts, n) <==> Reported(Mark(q, cuts[0]), cuts[1..], n - 1)
  {
    var m, rest := Mark(q, cuts[0]), cuts[1..];
    assert rest[n - 1] == cuts[n];
    forall i | 0 <= i < |q|
      ensures StillWaits(q[i], cuts, n) <==> StillWaits(m[i], rest, n - 1)
    {
      MarkExact(q, cuts[0], i);
      assert forall j :: 0 < j < n ==> cuts[j] == rest[j - 1];
      assert forall j :: 0 <= j < n - 1 ==> rest[j] == cuts[j + 1];
    }
    assert forall i :: 0 <= i < |q| ==> m[i].frame == q[i].frame;
  }

  /** What the scan reports of its first frame. */
  function OfFirst(q: seq<Slot>, c: Cut): seq<Cut> {
    if !Awaited(q, c) && !ToRepeat(c.frame.kind) then [c] else []
  }

  lemma FirstReported(q: seq<Slot>, cuts: seq<Cut>)
    requires cuts != []
    ensures OfFirst(q, cuts[0]) == if Reported(q, cuts, 0) then [cuts[0]] else []
    ensures Unexpected(q, cuts) == OfFirst(q, cuts[0]) + Unexpected(Mark(q, cuts[0]), cuts[1..])
  {
    assert forall i :: 0 <= i < |q| && Answers(cuts[0], q[i]) ==> StillWaits(q[i], cuts, 0);
  }

  /** The frames reported to the application are exactly these, in the order of the message. */
  lemma {:induction false} UnexpectedExact(q: seq<Slot>, cuts: seq<Cut>)
    requires cuts != []
    ensures var last := |cuts| - 1;
      Unexpected(q, cuts) == Unexpected(q, cuts[..last]) + (if Reported(q, cuts, last) then [cuts[last]] else [])
    decreases |cuts|
  {
    hide Reported, Mark, OfFirst, Unexpected;
    var last := |cuts| - 1;
    var init, rest, m := cuts[..last], cuts[1..], Mark(q, cuts[0]);
    FirstReported(q, cuts);
    if last == 0 {
      NothingUnexpected(q, init);
      NothingUnexpected(m, rest);
    } else {
      UnexpectedExact(m, rest);
      ReportedAfter(q, cuts, last);
      FirstReported(q, init);
      assert rest[last - 1] == cuts[last] && rest[..last - 1] == init[1..] && init[0] == cuts[0];
    }
  }

  lemma NothingUnexpected(q: seq<Slot>, cuts: seq<Cut>)
    requires |cuts| == 0
    ensures Unexpected(q, cuts) == []
  {
  }

  /** All callbacks are told of all messages: callback by callback in the order of registration, each in queue order. */
  lemma {:induction false} ReportsExact(q: seq<Slot>, callbacks: nat, c: nat, i: nat)
    requires c < callbacks && i < |Occupied(q)|
    ensures |Reports(q, callbacks)| == callbacks * |Occupied(q)|
    ensures 0 <= c * |Occupied(q)| + i < |Reports(q, callbacks)|
    ensures Reports(q, callbacks)[c * |Occupied(q)| + i] == (c, Occupied(q)[i].frame)
    decreases callbacks
  {
    hide Calls, Occupied;
    CallsExact(q, callbacks - 1);
    var n := |Occupied(q)|;
    assert (callbacks - 1) * n + n == callbacks * n;
    if callbacks == 1 {
      assert c == 0;
    } else if c == callbacks - 1 {
      ReportsExact(q, callbacks - 1, 0, i);
    } else {
      ReportsExact(q, callbacks - 1, c, i);
    }
  }

  /**
   What may be sent: a frame that expects no response, always; one that does and waits already, only as a repetition;
   any other if its payload has at most 10 bytes and there is a place for it in the queue, behind all others.
   */
  lemma AdmitExact(q: seq<Slot>, f: Frame, repetition: byte)
    requires Compact(q) && Distinct(q)
    ensures var (r, ok) := Admit(q, f, repetition);
      var asks := f.kind.Cmd? || f.kind.Query? || f.kind.Event?;
      var waits := exists i :: 0 <= i < |q| && q[i].occupied && q[i].frame == f;
      && (ok <==> !asks || (if waits then repetition > 0 else |f.payload| <= 10 && |Occupied(q)| < |q|))
      && Occupied(r) == (if asks && !waits && ok then Occupied(q) + [Slot(f, true, 0)] else Occupied(q))
      && Compact(r) && Distinct(r)
  {
    hide Compact, Occupied, Distinct, Save;
    if ToRepeat(f.kind) {
      FindExact(q, f, 0);
      if !Find(q, f, 0).0 {
        SaveAppends(q, f);
      }
    }
  }
}
