/**
 The bus application layer: which message is transmitted next, and how often a
 message is tried before it is reported as not deliverable.
 */
module Bal {
  import opened Bytes

  const MAX_SUBSYSTEMS: nat := 16
  const MAX_TRANSMISSION_RETRIES: byte := 0xFF

  /** Subsystem index and message index, the halves of the user code. */
  datatype Code = Code(sub: nat, msg: nat)

  /** How a transmission ended, by the low nibble of the acknowledge. */
  datatype Ack = Positive | Aborted | Missing | Negative

  function AckOf(acknowledge: byte): Ack {
    if LowNibble(acknowledge) == 0x0A then Positive
    else if LowNibble(acknowledge) == 0x0F then Aborted
    else if LowNibble(acknowledge) == 0x00 then Missing
    else Negative
  }

  datatype Limits = Limits(collision: byte, missing: byte, nack: byte)

  function Limit(limits: Limits, ack: Ack): byte {
    match ack
    case Positive => 0
    case Aborted => limits.collision
    case Missing => limits.missing
    case Negative => limits.nack
  }

  /** What MessageTransmitted tells the application about the message. */
  datatype Outcome = Confirmed(code: Code) | NonDeliverable(code: Code) | WillRetry

  /**
   flags: BAL_uiTransmitFlagSubsystemIndex, pending: the message bits of every subsystem,
   current: subsystem and message index of the presently sent message, inFlight: the user
   code the link layer holds while it transmits.
   */
  datatype Bal = Bal(flags: seq<bool>, pending: seq<seq<bool>>, current: Code, attempts: byte, maxRetries: byte,
                     inFlight: Option<Code>)

  predicate InTable(pending: seq<seq<bool>>, c: Code) {
    c.sub < |pending| && c.msg < |pending[c.sub]|
  }

  predicate IsSet(pending: seq<seq<bool>>, c: Code) {
    InTable(pending, c) && pending[c.sub][c.msg]
  }

  /** A message bit is never set without the flag of its subsystem; a retry is never without a flag either. */
  ghost predicate Valid(b: Bal) {
    && |b.flags| == MAX_SUBSYSTEMS && |b.pending| <= MAX_SUBSYSTEMS
    && (forall c :: IsSet(b.pending, c) ==> b.flags[c.sub])
    && (forall i :: |b.pending| <= i < MAX_SUBSYSTEMS ==> !b.flags[i])
    && (b.attempts > 0 || b.inFlight.Some? ==> InTable(b.pending, b.current) && b.flags[b.current.sub])
    && (b.inFlight.Some? ==> b.inFlight.value == b.current)
  }

  // ---------------------------------------------------------------- operations

  function SetBit(pending: seq<seq<bool>>, c: Code, value: bool): (p: seq<seq<bool>>)
    ensures |p| == |pending| && forall i :: 0 <= i < |p| ==> |p[i]| == |pending[i]|
    ensures forall d :: IsSet(p, d) <==> if d == c && InTable(pending, c) then value else IsSet(pending, d)
  {
    if InTable(pending, c) then pending[c.sub := pending[c.sub][c.msg := value]] else pending
  }

  /** BAL_vTransmitMessage; a message outside its table is an error and changes nothing. */
  function Request(b: Bal, c: Code): (r: Bal)
    requires Valid(b) && c.sub < |b.pending|
    ensures Valid(r)
  {
    if InTable(b.pending, c) then
      b.(flags := b.flags[c.sub := true], pending := SetBit(b.pending, c, true))
    else b
  }

  /** BAL_vCancelTransmitMessage. */
  function Cancel(b: Bal, c: Code): (r: Bal)
    requires Valid(b)
    ensures Valid(r)
  {
    b.(attempts := if b.attempts != 0 && c == b.current then MAX_TRANSMISSION_RETRIES else b.attempts,
       pending := SetBit(b.pending, c, false))
  }

  /** The lowest set position from i on, or the length when there is none. */
  function Lowest(bits: seq<bool>, i: nat): (r: nat)
    requires i <= |bits|
    ensures i <= r <= |bits|
    ensures forall k :: i <= k < r ==> !bits[k]
    ensures r < |bits| ==> bits[r]
    decreases |bits| - i
  {
    if i == |bits| || bits[i] then i else Lowest(bits, i + 1)
  }

  /** The message the task would send: the current one on a retry, else the lowest of the lowest subsystem. */
  function Pick(b: Bal): (c: Code)
    requires Valid(b) && true in b.flags
    ensures c.sub < |b.pending| && b.flags[c.sub]
  {
    if b.attempts > 0 then b.current
    else
      var s := Lowest(b.flags, 0);
      Code(s, Lowest(b.pending[s], 0))
  }

  /** BAL_HandleTask: the new state, and the message handed to the link layer. */
  function Task(b: Bal, busReady: bool, locked: bool, accepted: bool): (r: (Bal, Option<Code>))
    requires Valid(b) && (busReady ==> b.inFlight.None?)
    ensures Valid(r.0)
  {
    if true !in b.flags || !busReady then (b, None)
    else
      var c := Pick(b);
      var t := b.(current := c);
      if locked then (t, None)
      else if InTable(b.pending, c) then
        if accepted then (t.(pending := SetBit(b.pending, c, false), inFlight := Some(c)), Some(c)) else (t, None)
      else
        (t.(flags := b.flags[c.sub := false], current := c.(msg := 0)), None)
  }

  function Max(a: byte, b: byte): byte {
    if a < b then b else a
  }

  /** The retry counters after a failure that is not the last: attempts made and the limit in force. */
  function Again(attempts: byte, maxRetries: byte, limits: Limits, ack: Ack): (r: Option<(byte, byte)>)
    ensures r.Some? ==> attempts < 255 && r.value.0 == attempts + 1
  {
    var limit := Max(maxRetries, Limit(limits, ack));
    if attempts >= limit then None else Some((attempts + 1, limit))
  }

  /** DLL_vMessageTransmitted for a message sent through this layer. */
  function Transmitted(b: Bal, limits: Limits, ack: Ack): (r: (Bal, Outcome))
    requires Valid(b) && b.inFlight.Some?
    ensures Valid(r.0)
  {
    var c := b.inFlight.value;
    var done := b.(attempts := 0, maxRetries := 0, inFlight := None);
    if ack.Positive? then (done, Confirmed(c))
    else
      match Again(b.attempts, b.maxRetries, limits, ack)
      case None => (done, NonDeliverable(c))
      case Some(t) => (b.(attempts := t.0, maxRetries := t.1, inFlight := None), WillRetry)
  }

  // ---------------------------------------------------------------- never forgets

  /** Requests and task calls keep every pending bit until the message is handed over or cancelled. */
  lemma TaskForgetsNothing(b: Bal, busReady: bool, locked: bool, accepted: bool, c: Code)
    requires Valid(b) && (busReady ==> b.inFlight.None?) && IsSet(b.pending, c)
    ensures var (r, sent) := Task(b, busReady, locked, accepted);
      if sent == Some(c) then r.inFlight == Some(c) else IsSet(r.pending, c) && r.flags[c.sub]
  {
  }

  /** A request makes exactly that message pending; one outside its table changes nothing. */
  lemma RequestExact(b: Bal, c: Code)
    requires Valid(b) && c.sub < |b.pending|
    ensures var r := Request(b, c);
      if c.msg < |b.pending[c.sub]| then
        && (forall d :: IsSet(r.pending, d) <==> d == c || IsSet(b.pending, d))
        && (forall i :: 0 <= i < MAX_SUBSYSTEMS ==> (r.flags[i] <==> i == c.sub || b.flags[i]))
        && r == b.(flags := r.flags, pending := r.pending)
      else r == b
  {
  }

  /** A call that is locked out sends nothing and clears nothing; it notes the message that comes next. */
  lemma LockedCall(b: Bal, accepted: bool)
    requires Valid(b) && b.inFlight.None?
    ensures var (r, sent) := Task(b, true, true, accepted);
      && sent.None? && r == b.(current := r.current)
      && (Task(b, true, false, true).1.Some? ==> Task(b, true, false, true).1 == Some(r.current))
  {
  }

  // ---------------------------------------------------------------- drains in priority order

  predicate Before(a: Code, b: Code) {
    a.sub < b.sub || (a.sub == b.sub && a.msg < b.msg)
  }

  function Count(bits: seq<bool>): (n: nat)
    ensures n == 0 <==> true !in bits
  {
    if bits == [] then 0 else (if bits[0] then 1 else 0) + Count(bits[1..])
  }

  function Bits(pending: seq<seq<bool>>): nat {
    if pending == [] then 0 else Count(pending[0]) + Bits(pending[1..])
  }

  /** Set bits and set flags: what a task call on a ready bus reduces. */
  function Work(b: Bal): nat {
    Bits(b.pending) + Count(b.flags)
  }

  /** One task call on a ready bus, and a positive acknowledge if a message went out. */
  function Serve(b: Bal, limits: Limits): (r: (Bal, Option<Code>))
    requires Valid(b) && b.inFlight.None?
    ensures Valid(r.0) && r.0.inFlight.None?
  {
    var (t, sent) := Task(b, true, false, true);
    if sent.Some? then (Transmitted(t, limits, Positive).0, sent) else (t, None)
  }

  lemma {:induction false} CountClear(bits: seq<bool>, i: nat)
    requires i < |bits| && bits[i]
    ensures Count(bits[i := false]) == Count(bits) - 1
  {
    if i == 0 {
      assert bits[0 := false][1..] == bits[1..];
    } else {
      assert bits[i := false][1..] == bits[1..][i - 1 := false];
      CountClear(bits[1..], i - 1);
    }
  }

  lemma {:induction false} BitsClear(pending: seq<seq<bool>>, c: Code)
    requires IsSet(pending, c)
    ensures Bits(SetBit(pending, c, false)) == Bits(pending) - 1
    decreases c.sub
  {
    var q := pending[c.sub][c.msg := false];
    CountClear(pending[c.sub], c.msg);
    if c.sub == 0 {
      assert pending[0 := q][1..] == pending[1..];
    } else {
      assert pending[c.sub := q][1..] == pending[1..][c.sub - 1 := q];
      assert IsSet(pending[1..], Code(c.sub - 1, c.msg));
      BitsClear(pending[1..], Code(c.sub - 1, c.msg));
    }
  }

  /** A call with work to do sends the first pending message in (subsystem, message) order or clears a flag. */
  lemma ServeStep(b: Bal, limits: Limits)
    requires Valid(b) && b.inFlight.None? && b.attempts == 0 && true in b.flags
    ensures var (r, sent) := Serve(b, limits);
      && Work(r) == Work(b) - 1 && r.attempts == 0
      && (sent.Some? ==> IsSet(b.pending, sent.value)
                         && (forall d :: IsSet(b.pending, d) && d != sent.value ==> Before(sent.value, d))
                         && (forall d :: IsSet(r.pending, d) <==> IsSet(b.pending, d) && d != sent.value))
      && (sent.None? ==> r.pending == b.pending && r.current.msg == 0
                         && forall m :: !IsSet(b.pending, Code(r.current.sub, m)))
  {
    var c := Pick(b);
    if InTable(b.pending, c) {
      BitsClear(b.pending, c);
    } else {
      CountClear(b.flags, c.sub);
    }
  }

  lemma BitsFewer(pending: seq<seq<bool>>, c: Code)
    ensures Bits(SetBit(pending, c, false)) <= Bits(pending)
  {
    if IsSet(pending, c) {
      BitsClear(pending, c);
    } else if InTable(pending, c) {
      assert pending[c.sub][c.msg := false] == pending[c.sub];
      assert SetBit(pending, c, false) == pending;
    }
  }

  /** With a repetition pending the call sends that message, whatever else is pending. */
  lemma ServeRetry(b: Bal, limits: Limits)
    requires Valid(b) && b.inFlight.None? && b.attempts > 0
    ensures true in b.flags
    ensures var (r, sent) := Serve(b, limits);
      && sent == Some(b.current) && r.attempts == 0 && r.pending == SetBit(b.pending, b.current, false)
      && Work(r) <= Work(b)
  {
    assert b.flags[b.current.sub];
    BitsFewer(b.pending, b.current);
  }

  /** Task calls until no flag is left: the messages sent. */
  function Drain(b: Bal, limits: Limits): (r: (Bal, seq<Code>))
    requires Valid(b) && b.inFlight.None?
    ensures Valid(r.0)
    decreases Work(b) + if b.attempts > 0 then 1 else 0
  {
    if true !in b.flags then (b, [])
    else
      var (t, sent) := Serve(b, limits);
      assert Work(t) + (if t.attempts > 0 then 1 else 0) < Work(b) + if b.attempts > 0 then 1 else 0 by {
        if b.attempts > 0 {
          ServeRetry(b, limits);
        } else {
          ServeStep(b, limits);
        }
      }
      var (u, rest) := Drain(t, limits);
      (u, if sent.Some? then [sent.value] + rest else rest)
  }

  predicate Ordered(out: seq<Code>) {
    forall i, j :: 0 <= i < j < |out| ==> Before(out[i], out[j])
  }

  /** out lists exactly the set messages, each once, in order. */
  ghost predicate Lists(pending: seq<seq<bool>>, out: seq<Code>) {
    Ordered(out) && forall c :: IsSet(pending, c) <==> c in out
  }

  lemma ListsFirst(pending: seq<seq<bool>>, c: Code, pending': seq<seq<bool>>, rest: seq<Code>)
    requires Lists(pending', rest) && IsSet(pending, c)
    requires forall d :: IsSet(pending, d) && d != c ==> Before(c, d)
    requires forall d :: IsSet(pending', d) <==> IsSet(pending, d) && d != c
    ensures Lists(pending, [c] + rest)
  {
  }

  /**
   Without new requests and with positive acknowledges the task calls come to an end, after exactly the pending
   messages have been sent, each once and in (subsystem, message) order; before them the message of which a repetition
   is pending, which is sent once, also when it was requested again meanwhile.
   */
  lemma {:induction false} DrainsInOrder(b: Bal, limits: Limits)
    requires Valid(b) && b.inFlight.None?
    ensures var (r, out) := Drain(b, limits);
      && true !in r.flags && (forall c :: !IsSet(r.pending, c))
      && (b.attempts == 0 ==> Lists(b.pending, out))
      && (b.attempts > 0 ==>
            out != [] && out[0] == b.current && Lists(SetBit(b.pending, b.current, false), out[1..]))
    decreases Work(b) + if b.attempts > 0 then 1 else 0
  {
    hide IsSet, Before, Serve, Ordered, Work;
    if true !in b.flags {
      NoneSet(b);
    } else if b.attempts > 0 {
      ServeRetry(b, limits);
      DrainsInOrder(Serve(b, limits).0, limits);
    } else {
      ServeStep(b, limits);
      var (t, sent) := Serve(b, limits);
      DrainsInOrder(t, limits);
      if sent.Some? {
        ListsFirst(b.pending, sent.value, t.pending, Drain(t, limits).1);
      }
    }
  }

  lemma NoneSet(b: Bal)
    requires Valid(b) && true !in b.flags
    ensures (forall c :: !IsSet(b.pending, c)) && Lists(b.pending, [])
  {
  }

  // ---------------------------------------------------------------- retries end

  /** The largest limit among the kinds of failure seen. */
  function MaxLimit(limits: Limits, acks: seq<Ack>): byte {
    if acks == [] then 0 else Max(MaxLimit(limits, acks[..|acks| - 1]), Limit(limits, acks[|acks| - 1]))
  }

  /** None of the failures was the one at which the message is given up. */
  predicate KeptTrying(limits: Limits, acks: seq<Ack>) {
    acks == [] ||
    (KeptTrying(limits, acks[..|acks| - 1]) && !acks[|acks| - 1].Positive? && |acks| - 1 < MaxLimit(limits, acks))
  }

  /** The message is under way for the time after the given failures. */
  ghost predicate Trying(b: Bal, limits: Limits, acks: seq<Ack>) {
    && Valid(b) && b.inFlight.Some? && KeptTrying(limits, acks)
    && b.attempts == |acks| && b.maxRetries == MaxLimit(limits, acks)
  }

  /** The retry the task makes: the same message, whatever is pending otherwise. */
  function Retry(b: Bal): (r: Bal)
    requires Valid(b) && b.inFlight.None? && b.attempts > 0
    ensures Valid(r) && r.inFlight == Some(b.current) && r.attempts == b.attempts && r.maxRetries == b.maxRetries
  {
    assert b.flags[b.current.sub];
    Task(b, true, false, true).0
  }

  /** One failure more. */
  lemma OneMoreFailure(limits: Limits, acks: seq<Ack>, ack: Ack)
    requires KeptTrying(limits, acks)
    ensures var all := acks + [ack];
      && MaxLimit(limits, all) == Max(MaxLimit(limits, acks), Limit(limits, ack))
      && (KeptTrying(limits, all) <==> !ack.Positive? && |acks| < MaxLimit(limits, all))
  {
    assert (acks + [ack])[..|acks|] == acks;
  }

  /** What the first task call after a failure sends. */
  lemma RetrySends(b: Bal, limits: Limits, ack: Ack)
    requires Valid(b) && b.inFlight.Some? && Transmitted(b, limits, ack).1.WillRetry?
    ensures var r := Transmitted(b, limits, ack).0;
      && r.attempts as int == b.attempts as int + 1 && r.maxRetries == Max(b.maxRetries, Limit(limits, ack))
      && r.inFlight.None? && r.attempts > 0 && Retry(r).inFlight == b.inFlight
  {
  }

  /**
   A message ends in exactly one way: confirmed at the first positive acknowledge, reported as not
   deliverable at the first failure n with n - 1 >= the largest limit among the failures so far,
   and otherwise sent again.
   */
  lemma EndsExactly(b: Bal, limits: Limits, acks: seq<Ack>, ack: Ack)
    requires Trying(b, limits, acks)
    ensures var (r, outcome) := Transmitted(b, limits, ack);
      var all := acks + [ack];
      && (outcome.Confirmed? <==> ack.Positive?)
      && (outcome.NonDeliverable? <==> !ack.Positive? && |all| - 1 >= MaxLimit(limits, all))
      && (outcome.WillRetry? <==> KeptTrying(limits, all))
      && (outcome.WillRetry? ==> Trying(Retry(r), limits, all) && Retry(r).inFlight == b.inFlight)
      && (!outcome.WillRetry? ==> outcome.code == b.inFlight.value && r.attempts == 0 && r.maxRetries == 0)
  {
    hide KeptTrying, MaxLimit, Valid, Retry;
    OneMoreFailure(limits, acks, ack);
    if Transmitted(b, limits, ack).1.WillRetry? {
      RetrySends(b, limits, ack);
    }
  }

  /** After a cancel the repeated message is not tried again beyond its next failure. */
  lemma CancelEnds(b: Bal, limits: Limits, ack: Ack)
    requires Valid(b) && b.inFlight.Some? && b.attempts > 0
    ensures !Transmitted(Cancel(b, b.current), limits, ack).1.WillRetry?
  {
  }
}
