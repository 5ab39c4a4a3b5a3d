/**
 The queues in which the instances of the cross connections wait for the one bus
 message of each kind that they share. Instances are known by their number.
 */
module CrossQueue {
  import opened Bytes
  import opened Counting

  /** DBALQR_INVALID_TXINDEX */
  const INVALID: byte := 255

  datatype Entry = Entry(inst: Option<nat>, txIndex: byte)

  // ---------------------------------------------------------------- the queues as lists

  /** Instances waiting with a connection message: a second request changes nothing. */
  function Enqueue(ids: seq<nat>, inst: nat): seq<nat> {
    if inst in ids then ids else ids + [inst]
  }

  predicate Distinct(ids: seq<nat>) {
    forall i, j :: 0 <= i < j < |ids| ==> ids[i] != ids[j]
  }

  /** Different instances out of the first size ones. */
  predicate Waiting(ids: seq<nat>, size: nat) {
    Distinct(ids) && forall i :: 0 <= i < |ids| ==> ids[i] < size
  }

  /** The array holds the list as a prefix, and nothing behind it. */
  predicate Holds(a: seq<Option<nat>>, ids: seq<nat>) {
    && |ids| <= |a|
    && (forall i :: 0 <= i < |ids| ==> a[i] == Some(ids[i]))
    && (forall i :: |ids| <= i < |a| ==> a[i].None?)
  }

  /** A message request of an instance: which of its two messages is due. */
  type Request = (nat, byte)

  function Instances(rs: seq<Request>): (ids: seq<nat>)
    ensures |ids| == |rs| && forall i :: 0 <= i < |rs| ==> ids[i] == rs[i].0
  {
    seq(|rs|, i requires 0 <= i < |rs| => rs[i].0)
  }

  /** The place of the instance's request, or the end. */
  function Place(rs: seq<Request>, inst: nat): (p: nat)
    ensures p <= |rs| && (forall i :: 0 <= i < p ==> rs[i].0 != inst) && (p < |rs| ==> rs[p].0 == inst)
  {
    if rs == [] || rs[0].0 == inst then 0 else 1 + Place(rs[1..], inst)
  }

  /** A second request of an instance keeps its place and replaces the index. */
  function Updated(rs: seq<Request>, inst: nat, txIndex: byte): seq<Request> {
    var p := Place(rs, inst);
    if p < |rs| then rs[p := (inst, txIndex)] else rs + [(inst, txIndex)]
  }

  /** What is left once the requests of unconnected instances at the front are thrown away. */
  function SkipDown(rs: seq<Request>, up: nat -> bool): (r: seq<Request>)
    ensures r != [] ==> up(r[0].0)
    ensures |r| <= |rs| && r == rs[|rs| - |r|..]
    ensures forall i :: 0 <= i < |rs| - |r| ==> !up(rs[i].0)
  {
    if rs == [] || up(rs[0].0) then rs else SkipDown(rs[1..], up)
  }

  predicate HoldsRequests(a: seq<Entry>, rs: seq<Request>) {
    && |rs| <= |a|
    && (forall i :: 0 <= i < |rs| ==> a[i] == Entry(Some(rs[i].0), rs[i].1) && rs[i].1 != INVALID)
    && (forall i :: |rs| <= i < |a| ==> a[i] == Entry(None, INVALID))
  }

  // ---------------------------------------------------------------- never full

  function Elements(ids: seq<nat>): (e: set<nat>)
    ensures forall x :: x in e <==> x in ids
  {
    if ids == [] then {} else {ids[0]} + Elements(ids[1..])
  }

  lemma {:induction false} AllDifferent(ids: seq<nat>)
    requires Distinct(ids)
    ensures |Elements(ids)| == |ids|
  {
    if ids == [] {
    } else {
      AllDifferent(ids[1..]);
      assert ids[0] !in ids[1..];
    }
  }

  /** As many places as instances: an instance that does not wait yet always finds one. */
  lemma NeverFull(ids: seq<nat>, size: nat, inst: nat)
    requires Waiting(ids, size) && inst < size
    ensures |ids| <= size && (inst !in ids ==> |ids| < size)
  {
    hide Elements, Distinct, Below;
    AllDifferent(ids);
    var all := Below(size);
    Smaller(Elements(ids), all);
    if inst !in ids {
      assert inst in all && inst !in Elements(ids);
      Smaller(Elements(ids), all - {inst});
    }
  }

  // ---------------------------------------------------------------- order

  /** A queue request of an instance, or one taken out. */
  datatype Op = In(inst: nat) | Out

  function Apply(ids: seq<nat>, op: Op): seq<nat> {
    match op
    case In(inst) => Enqueue(ids, inst)
    case Out => if ids == [] then [] else ids[1..]
  }

  function ApplyAll(ids: seq<nat>, ops: seq<Op>): seq<nat>
    decreases |ops|
  {
    if ops == [] then ids else ApplyAll(Apply(ids, ops[0]), ops[1..])
  }

  function Outs(ops: seq<Op>): nat {
    if ops == [] then 0 else (if ops[0].Out? then 1 else 0) + Outs(ops[1..])
  }

  /**
   First come, first served: whatever is requested meanwhile, an instance moves up by one place with each taken out.
   */
  lemma {:induction false} KeepsPlace(ids: seq<nat>, place: nat, ops: seq<Op>)
    requires place < |ids| && Outs(ops) <= place
    ensures var after := ApplyAll(ids, ops);
      place - Outs(ops) < |after| && after[place - Outs(ops)] == ids[place]
    decreases |ops|
  {
    if ops == [] {
    } else {
      KeepsPlace(Apply(ids, ops[0]), if ops[0].Out? then place - 1 else place, ops[1..]);
    }
  }

  lemma {:induction false} StaysWaiting(ids: seq<nat>, size: nat, ops: seq<Op>)
    requires Waiting(ids, size) && forall op :: op in ops && op.In? ==> op.inst < size
    ensures Waiting(ApplyAll(ids, ops), size) && |ApplyAll(ids, ops)| <= size
    decreases |ops|
  {
    if ops != [] {
      assert forall op :: op in ops[1..] ==> op in ops;
      assert ops[0] in ops;
      StaysWaiting(Apply(ids, ops[0]), size, ops[1..]);
    } else if ids != [] {
      NeverFull(ids, size, ids[0]);
    }
  }

  /** Updating a request changes no place and no other request, and leaves one request of each instance. */
  lemma UpdatedExact(rs: seq<Request>, inst: nat, txIndex: byte)
    requires Distinct(Instances(rs))
    ensures var r := Updated(rs, inst, txIndex);
      && Instances(r) == Enqueue(Instances(rs), inst) && Distinct(Instances(r))
      && (forall i :: 0 <= i < |rs| && rs[i].0 != inst ==> r[i] == rs[i])
      && (inst, txIndex) in r
  {
  }

  // ---------------------------------------------------------------- runs of the request queue

  /** A request of an instance, or one fetched while exactly the instances up are connected. */
  datatype RequestOp = Ask(inst: nat, txIndex: byte) | Fetch(up: set<nat>)

  /** The queue from the first request of a connected instance on. */
  function FromUp(rs: seq<Request>, up: set<nat>): seq<Request> {
    SkipDown(rs, inst => inst in up)
  }

  function ApplyRequest(rs: seq<Request>, op: RequestOp): seq<Request> {
    match op
    case Ask(inst, txIndex) => Updated(rs, inst, txIndex)
    case Fetch(up) => if FromUp(rs, up) == [] then [] else FromUp(rs, up)[1..]
  }

  function ApplyRequests(rs: seq<Request>, ops: seq<RequestOp>): seq<Request>
    decreases |ops|
  {
    if ops == [] then rs else ApplyRequests(ApplyRequest(rs, ops[0]), ops[1..])
  }

  /** The request the operation hands out. */
  function Fetched(rs: seq<Request>, op: RequestOp): Option<Request> {
    if op.Fetch? && FromUp(rs, op.up) != [] then Some(FromUp(rs, op.up)[0]) else None
  }

  /** The instance gets its turn during the run. */
  predicate HasTurn(rs: seq<Request>, inst: nat, ops: seq<RequestOp>)
    decreases |ops|
  {
    ops != [] &&
    ((Fetched(rs, ops[0]).Some? && Fetched(rs, ops[0]).value.0 == inst)
     || HasTurn(ApplyRequest(rs, ops[0]), inst, ops[1..]))
  }

  /** The index the instance has asked for last. */
  function Asked(txIndex: byte, inst: nat, ops: seq<RequestOp>): byte
    decreases |ops|
  {
    if ops == [] then txIndex
    else Asked(if ops[0].Ask? && ops[0].inst == inst then ops[0].txIndex else txIndex, inst, ops[1..])
  }

  function Fetches(ops: seq<RequestOp>): nat {
    if ops == [] then 0 else (if ops[0].Fetch? then 1 else 0) + Fetches(ops[1..])
  }

  lemma InstancesFrom(rs: seq<Request>, k: nat)
    requires k <= |rs|
    ensures Instances(rs[k..]) == Instances(rs)[k..]
  {
  }

  lemma {:induction false} PlaceFrom(rs: seq<Request>, inst: nat, k: nat)
    requires Place(rs, inst) < |rs| && k <= Place(rs, inst)
    ensures Place(rs[k..], inst) == Place(rs, inst) - k
  {
    if k == 0 {
      assert rs[0..] == rs;
    } else {
      PlaceFrom(rs[1..], inst, k - 1);
      assert rs[1..][k - 1..] == rs[k..];
    }
  }

  /** The place of the first request of a connected instance, or the end. */
  function FirstUp(rs: seq<Request>, up: set<nat>): (k: nat)
    ensures k <= |rs|
  {
    if rs == [] || rs[0].0 in up then 0 else 1 + FirstUp(rs[1..], up)
  }

  lemma {:induction false} FirstUpMeans(rs: seq<Request>, up: set<nat>, p: nat)
    requires p < |rs|
    ensures rs[p].0 in up ==> FirstUp(rs, up) <= p
    ensures p == FirstUp(rs, up) ==> rs[p].0 in up
  {
    if p == 0 || rs[0].0 in up {
    } else {
      FirstUpMeans(rs[1..], up, p - 1);
    }
  }

  /**
   A fetch hands out the first request of a connected instance and throws exactly those before it away; if there is none
   it hands out nothing and throws all away.
   */
  lemma {:induction false} FetchExact(rs: seq<Request>, up: set<nat>)
    ensures var k := FirstUp(rs, up);
      && Fetched(rs, Fetch(up)) == (if k < |rs| then Some(rs[k]) else None)
      && ApplyRequest(rs, Fetch(up)) == (if k < |rs| then rs[k + 1..] else [])
    decreases |rs|
  {
    if rs == [] || rs[0].0 in up {
    } else {
      var rest := rs[1..];
      FetchExact(rest, up);
      assert FromUp(rs, up) == FromUp(rest, up);
      var k := FirstUp(rest, up);
      assert k < |rest| ==> rest[k + 1..] == rs[k + 2..] && rest[k] == rs[k + 1];
    }
  }

  /** The instance's request is further to the front, with the same index. */
  predicate MovedUp(rs: seq<Request>, r: seq<Request>, inst: nat)
    requires Place(rs, inst) < |rs|
  {
    Place(r, inst) < Place(rs, inst) && Place(r, inst) < |r| && r[Place(r, inst)].1 == rs[Place(rs, inst)].1
  }

  /** A connected instance is handed out, or moves up and keeps its index. */
  lemma FetchMoves(rs: seq<Request>, up: set<nat>, inst: nat)
    requires Place(rs, inst) < |rs| && inst in up
    ensures Fetched(rs, Fetch(up)).Some?
    ensures Fetched(rs, Fetch(up)).value.0 != inst ==> MovedUp(rs, ApplyRequest(rs, Fetch(up)), inst)
  {
    hide FromUp, Fetched, ApplyRequest, Place, FirstUp;
    var p, k := Place(rs, inst), FirstUp(rs, up);
    FirstUpMeans(rs, up, p);
    FetchExact(rs, up);
    if rs[k].0 != inst {
      PlaceFrom(rs, inst, k + 1);
      assert rs[k + 1..][p - k - 1] == rs[p];
    }
  }

  lemma AskKeeps(rs: seq<Request>, inst: nat, who: nat, txIndex: byte)
    requires Place(rs, inst) < |rs| && Distinct(Instances(rs))
    ensures var r, p := Updated(rs, who, txIndex), Place(rs, inst);
      && Place(r, inst) == p < |r| && r[p].1 == if who == inst then txIndex else rs[p].1
  {
    UpdatedExact(rs, who, txIndex);
    var r, p := Updated(rs, who, txIndex), Place(rs, inst);
    assert Instances(r)[p] == r[p].0 && Instances(rs)[p] == rs[p].0;
    forall i | 0 <= i < p
      ensures r[i].0 != inst
    {
      assert Instances(r)[i] == r[i].0 && Instances(rs)[i] == rs[i].0;
    }
    FirstPlace(r, inst, p);
  }

  lemma {:induction false} FirstPlace(rs: seq<Request>, inst: nat, p: nat)
    requires p < |rs| && rs[p].0 == inst && forall i :: 0 <= i < p ==> rs[i].0 != inst
    ensures Place(rs, inst) == p
  {
    if p == 0 {
    } else {
      FirstPlace(rs[1..], inst, p - 1);
    }
  }

  /** Over every run the requests are of different instances, at most as many as there are. */
  lemma {:induction false} RequestsFit(rs: seq<Request>, size: nat, ops: seq<RequestOp>)
    requires Waiting(Instances(rs), size) && forall op :: op in ops && op.Ask? ==> op.inst < size
    ensures Waiting(Instances(ApplyRequests(rs, ops)), size) && |ApplyRequests(rs, ops)| <= size
    decreases |ops|
  {
    hide FromUp, Place;
    if ops == [] {
      if rs != [] {
        NeverFull(Instances(rs), size, Instances(rs)[0]);
      }
    } else {
      var next := ApplyRequest(rs, ops[0]);
      assert ops[0] in ops && forall op :: op in ops[1..] ==> op in ops;
      match ops[0] {
        case Ask(inst, txIndex) => UpdatedExact(rs, inst, txIndex);
        case Fetch(up) =>
          FromUpIsSuffix(rs, up);
          var k := |rs| - |next|;
          InstancesFrom(rs, k);
      }
      RequestsFit(next, size, ops[1..]);
    }
  }

  lemma FromUpIsSuffix(rs: seq<Request>, up: set<nat>)
    ensures var next := ApplyRequest(rs, Fetch(up));
      |next| <= |rs| && next == rs[|rs| - |next|..]
  {
  }

  /**
   First come, first served: an instance that stays connected is never thrown away. Until its turn it moves up with
   every fetch, however often anybody asks, and waits with the index it asked for last; so its turn comes within as
   many fetches as its place.
   */
  lemma {:induction false} ServedInTurn(rs: seq<Request>, inst: nat, ops: seq<RequestOp>)
    requires Place(rs, inst) < |rs| && Distinct(Instances(rs))
    requires forall i :: 0 <= i < |ops| && ops[i].Fetch? ==> inst in ops[i].up
    ensures Fetches(ops) > Place(rs, inst) ==> HasTurn(rs, inst, ops)
    ensures !HasTurn(rs, inst, ops) ==>
              var r := ApplyRequests(rs, ops);
              && Place(r, inst) < |r| && Place(r, inst) + Fetches(ops) <= Place(rs, inst)
              && r[Place(r, inst)].1 == Asked(rs[Place(rs, inst)].1, inst, ops)
    decreases |ops|
  {
    hide FromUp, Place, Distinct;
    if ops == [] {
    } else {
      var next := ApplyRequest(rs, ops[0]);
      NextDistinct(rs, ops[0]);
      match ops[0] {
        case Ask(who, txIndex) => AskKeeps(rs, inst, who, txIndex);
        case Fetch(up) => FetchMoves(rs, up, inst);
      }
      if !(Fetched(rs, ops[0]).Some? && Fetched(rs, ops[0]).value.0 == inst) {
        ServedInTurn(next, inst, ops[1..]);
      }
    }
  }

  lemma NextDistinct(rs: seq<Request>, op: RequestOp)
    requires Distinct(Instances(rs))
    ensures Distinct(Instances(ApplyRequest(rs, op)))
  {
    hide FromUp, Place;
    match op
    case Ask(inst, txIndex) => UpdatedExact(rs, inst, txIndex);
    case Fetch(up) =>
      FromUpIsSuffix(rs, up);
      InstancesFrom(rs, |rs| - |ApplyRequest(rs, op)|);
  }
}
