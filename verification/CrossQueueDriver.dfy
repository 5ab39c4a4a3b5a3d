/** The two cross connection queues, kept in place in arrays with one entry for each instance. */
module CrossQueueDriver {
  import opened Bytes
  import opened CrossQueue

  class CrossQueues {
    const connectMsgs: array<Option<nat>>
    const reqRespMsgs: array<Entry>
    var initialized: bool
    /** The instances waiting with a connection message, and the waiting requests. */
    ghost var waiting: seq<nat>
    ghost var requests: seq<Request>

    ghost predicate Valid()
      reads this, connectMsgs, reqRespMsgs
    {
      && connectMsgs.Length == reqRespMsgs.Length > 1
      && Waiting(waiting, connectMsgs.Length) && Waiting(Instances(requests), reqRespMsgs.Length)
      && if initialized then Holds(connectMsgs[..], waiting) && HoldsRequests(reqRespMsgs[..], requests)
         else waiting == [] && requests == []
    }

    /** Uninitialised, with count cross connections. */
    constructor (count: nat)
      requires count > 1
      ensures Valid() && !initialized && connectMsgs.Length == count
      ensures fresh(connectMsgs) && fresh(reqRespMsgs)
    {
      connectMsgs := new Option<nat>[count](_ => None);
      reqRespMsgs := new Entry[count](_ => Entry(None, 0));
      initialized, waiting, requests := false, [], [];
    }

    /** DBALCQ_init */
    method Init()
      requires Valid()
      modifies this`initialized, connectMsgs, reqRespMsgs
      ensures Valid() && initialized
    {
      if !initialized {
        for i := 0 to connectMsgs.Length
          invariant forall k :: 0 <= k < i ==> connectMsgs[k] == None && reqRespMsgs[k] == Entry(None, INVALID)
        {
          connectMsgs[i] := None;
          reqRespMsgs[i] := Entry(None, INVALID);
        }
        initialized := true;
      }
    }

    /** DBALCQ_queueConnectMsg: the request is never dropped. */
    method QueueConnectMsg(inst: nat)
      requires Valid() && inst < connectMsgs.Length
      modifies this`waiting, connectMsgs
      ensures Valid() && initialized == old(initialized)
      ensures waiting == if initialized then Enqueue(old(waiting), inst) else []
    {
      if initialized {
        NeverFull(waiting, connectMsgs.Length, inst);
        var i := 0;
        while i < connectMsgs.Length
          invariant 0 <= i <= |waiting| && inst !in waiting[..i]
          decreases connectMsgs.Length - i
        {
          if connectMsgs[i] == Some(inst) {
            assert waiting[i] == inst;
            return;
          } else if connectMsgs[i].None? {
            assert i == |waiting|;
            waiting := waiting + [inst];
            connectMsgs[i] := Some(inst);
            return;
          }
          assert waiting[..i + 1] == waiting[..i] + [waiting[i]];
          i := i + 1;
        }
      }
    }

    /** DBALCQ_getConnectMsg: the instance that has waited longest. */
    method GetConnectMsg() returns (inst: Option<nat>)
      requires Valid()
      modifies this`waiting, connectMsgs
      ensures Valid()
      ensures inst == if old(waiting) == [] then None else Some(old(waiting)[0])
      ensures waiting == if old(waiting) == [] then [] else old(waiting)[1..]
    {
      inst := None;
      if initialized && connectMsgs[0].Some? {
        inst := connectMsgs[0];
        ghost var before := connectMsgs[..];
        var last := connectMsgs.Length - 1;
        for i := 0 to last
          invariant waiting == old(waiting)
          invariant forall k :: 0 <= k < i ==> connectMsgs[k] == before[k + 1]
          invariant forall k :: i <= k <= last ==> connectMsgs[k] == before[k]
        {
          connectMsgs[i] := connectMsgs[i + 1];
        }
        connectMsgs[last] := None;
        waiting := waiting[1..];
      }
    }

    /** DBALCQ_queueReqRespMsg: the request is never dropped; one that waits already gets the new index. */
    method QueueReqRespMsg(inst: nat, txIndex: byte)
      requires Valid() && inst < reqRespMsgs.Length && txIndex != INVALID
      modifies this`requests, reqRespMsgs
      ensures Valid() && initialized == old(initialized)
      ensures requests == if initialized then Updated(old(requests), inst, txIndex) else []
    {
      if initialized {
        NeverFull(Instances(requests), reqRespMsgs.Length, inst);
        UpdatedExact(requests, inst, txIndex);
        ghost var rs := requests;
        requests := Updated(requests, inst, txIndex);
        var i := 0;
        while i < reqRespMsgs.Length
          invariant 0 <= i <= Place(rs, inst) && HoldsRequests(reqRespMsgs[..], rs)
          invariant initialized && requests == Updated(rs, inst, txIndex)
          decreases reqRespMsgs.Length - i
        {
          if reqRespMsgs[i].inst == Some(inst) {
            reqRespMsgs[i] := reqRespMsgs[i].(txIndex := txIndex);
            return;
          } else if reqRespMsgs[i].inst.None? && reqRespMsgs[i].txIndex == INVALID {
            reqRespMsgs[i] := Entry(Some(inst), txIndex);
            return;
          }
          i := i + 1;
        }
      }
    }

    /** All requests one place to the front. */
    method Shift()
      requires Valid() && initialized && requests != []
      modifies this`requests, reqRespMsgs
      ensures Valid() && initialized && requests == old(requests)[1..]
    {
      ghost var before := reqRespMsgs[..];
      var last := reqRespMsgs.Length - 1;
      for i := 0 to last
        invariant requests == old(requests)
        invariant forall k :: 0 <= k < i ==> reqRespMsgs[k] == before[k + 1]
        invariant forall k :: i <= k <= last ==> reqRespMsgs[k] == before[k]
      {
        reqRespMsgs[i] := reqRespMsgs[i + 1];
      }
      reqRespMsgs[last] := Entry(None, INVALID);
      requests := requests[1..];
      assert Instances(requests) == Instances(old(requests))[1..];
    }

    /** DBALCQ_getReqRespMsg: the first request of a connected instance; those before it are thrown away. */
    method GetReqRespMsg(up: nat -> bool) returns (ok: bool, inst: Option<nat>, txIndex: byte)
      requires Valid()
      modifies this`requests, reqRespMsgs
      ensures Valid()
      ensures var rest := SkipDown(old(requests), up);
        && ok == (rest != [])
        && requests == (if ok then rest[1..] else [])
        && (if ok then inst == Some(rest[0].0) && txIndex == rest[0].1 else inst == None && txIndex == INVALID)
    {
      ok, inst, txIndex := false, None, INVALID;
      ghost var rest := SkipDown(requests, up);
      if initialized {
        while reqRespMsgs[0].inst.Some? && reqRespMsgs[0].txIndex != INVALID && !ok
          invariant Valid() && initialized
          invariant !ok ==> SkipDown(requests, up) == rest && inst == None && txIndex == INVALID
          invariant ok ==> rest != [] && requests == rest[1..] && inst == Some(rest[0].0) && txIndex == rest[0].1
          decreases |requests|
        {
          assert requests != [] && reqRespMsgs[0] == Entry(Some(requests[0].0), requests[0].1);
          if up(reqRespMsgs[0].inst.value) {
            inst := reqRespMsgs[0].inst;
            txIndex := reqRespMsgs[0].txIndex;
            ok := true;
          }
          Shift();
        }
      }
    }
  }
}
