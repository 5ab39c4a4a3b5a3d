/**
 The two layers of retries behind one DBal response message: the bus application layer repeats a failed transmission,
 and when it gives up the instance requests the message anew or gives the connection up.
 */
module Retries {
  import opened Bytes
  import opened Bal
  import C = Connection
  import I = Instance
  import O = Outbox

  /** The retry counters of both layers, and the limit the lower one has in force. */
  datatype Effort = Effort(attempts: byte, maxRetries: byte, sendRetries: byte)

  /** The counters after one more failed transmission; None: the message is given up. */
  function Fail(e: Effort, limits: Limits, ack: Ack): (r: Option<Effort>)
    requires !ack.Positive?
  {
    match Again(e.attempts, e.maxRetries, limits, ack)
    case Some(t) => Some(Effort(t.0, t.1, e.sendRetries))
    case None => if I.Resends(e.sendRetries, ack.Missing?) then Some(Effort(0, 0, e.sendRetries + 1)) else None
  }

  // ---------------------------------------------------------------- what the layers really do

  function EffortOf(b: Bal, s: I.State): Effort {
    Effort(b.attempts, b.maxRetries, s.line.o.retries)
  }

  /** A transmission fails: the bus application layer's part, and the instance's if it is told. */
  function Failed(cfg: O.Config, b: Bal, s: I.State, limits: Limits, ack: Ack): (Bal, I.State)
    requires Valid(b) && b.inFlight.Some? && s.line.air.Flying? && !ack.Positive?
  {
    var (c, outcome) := Transmitted(b, limits, ack);
    (c, if outcome.WillRetry? then I.Step(cfg, s, I.Failure) else I.Undelivered(cfg, s, ack.Missing?))
  }

  /**
   The counters of the two layers do what Fail says. While they go on the message is due again, from the bus application
   layer's own retry or from the instance's transmit flag, and the connection is as before; otherwise the instance has
   given everything up.
   */
  lemma FailIsBothLayers(cfg: O.Config, b: Bal, s: I.State, limits: Limits, ack: Ack)
    requires Valid(b) && b.inFlight.Some? && s.line.air.Flying? && !ack.Positive? && s.line.o.target == s.con.partner
    ensures var (c, t) := Failed(cfg, b, s, limits, ack);
      match Fail(EffortOf(b, s), limits, ack)
      case Some(e) => EffortOf(c, t) == e && t.con == s.con && (c.attempts > 0 || t.line.o.flag)
      case None => c.attempts == 0 && t == I.GiveUp(s.(line := s.line.(air := O.Ground)))
  {
    hide I.GiveUp;
  }

  // ---------------------------------------------------------------- the bound

  /** The counters after a sequence of failures, unless the message was given up on the way. */
  function Fails(start: Effort, limits: Limits, acks: seq<Ack>): Option<Effort>
    requires Positive !in acks
  {
    if acks == [] then Some(start)
    else
      var e := Fails(start, limits, acks[..|acks| - 1]);
      if e.None? then None else Fail(e.value, limits, acks[|acks| - 1])
  }

  function Highest(limits: Limits): byte {
    Max(limits.collision, Max(limits.missing, limits.nack))
  }

  lemma {:induction false} MaxLimitBelow(limits: Limits, acks: seq<Ack>)
    ensures MaxLimit(limits, acks) <= Highest(limits)
  {
    if acks == [] {
    } else {
      MaxLimitBelow(limits, acks[..|acks| - 1]);
    }
  }

  /** The limit in force never exceeds the largest one, whatever failures a message has had. */
  lemma StartsBelow(b: Bal, s: I.State, limits: Limits, acks: seq<Ack>)
    requires Trying(b, limits, acks)
    ensures EffortOf(b, s).maxRetries <= Highest(limits)
  {
    MaxLimitBelow(limits, acks);
  }

  /** Transmissions in k rounds of one attempt and the largest number of retries. */
  function Tries(limits: Limits, k: nat): nat {
    if k == 0 then 0 else Tries(limits, k - 1) + 1 + Highest(limits)
  }

  lemma {:induction false} TriesIsProduct(limits: Limits, k: nat)
    ensures Tries(limits, k) == k * (1 + Highest(limits) as int)
  {
    if k == 0 {
    } else {
      TriesIsProduct(limits, k - 1);
    }
  }

  function Min(a: byte, b: byte): byte {
    if a < b then a else b
  }

  /** The transmissions that the counters stand for. */
  function Used(limits: Limits, e: Effort): nat {
    Tries(limits, Min(e.sendRetries, C.RETRY_MAX)) + Min(e.attempts, Highest(limits))
  }

  lemma FailUses(e: Effort, limits: Limits, ack: Ack)
    requires !ack.Positive? && e.maxRetries <= Highest(limits) && Fail(e, limits, ack).Some?
    ensures var f := Fail(e, limits, ack).value;
      f.maxRetries <= Highest(limits) && Used(limits, f) > Used(limits, e)
  {
  }

  lemma {:induction false} FailsUse(start: Effort, limits: Limits, acks: seq<Ack>)
    requires Positive !in acks && start.maxRetries <= Highest(limits) && Fails(start, limits, acks).Some?
    ensures var e := Fails(start, limits, acks).value;
      e.maxRetries <= Highest(limits) && |acks| + Used(limits, start) <= Used(limits, e)
    decreases |acks|
  {
    hide Highest, Used, Fail;
    if acks == [] {
    } else {
      FailsUse(start, limits, acks[..|acks| - 1]);
      FailUses(Fails(start, limits, acks[..|acks| - 1]).value, limits, acks[|acks| - 1]);
    }
  }

  lemma {:induction false} TriesGrow(limits: Limits, j: nat, k: nat)
    requires j <= k
    ensures Tries(limits, j) <= Tries(limits, k)
    decreases k
  {
    if j >= k {
    } else {
      TriesGrow(limits, j, k - 1);
    }
  }

  /**
   Whatever the counters are at the start, a message that is never acknowledged is given up after at most
   (RETRY_MAX + 1) * (1 + largest limit) transmissions, less those the counters stand for.
   */
  lemma RetriesEnd(start: Effort, limits: Limits, acks: seq<Ack>)
    requires Positive !in acks && start.maxRetries <= Highest(limits)
    requires |acks| + Used(limits, start) >= Tries(limits, C.RETRY_MAX as int + 1)
    ensures Fails(start, limits, acks).None?
  {
    hide Highest;
    if Fails(start, limits, acks).Some? {
      FailsUse(start, limits, acks);
      TriesGrow(limits, Min(Fails(start, limits, acks).value.sendRetries, C.RETRY_MAX), C.RETRY_MAX);
    }
  }

  // ---------------------------------------------------------------- it is exact

  /** A kind of failure with the largest limit. */
  function Top(limits: Limits): (a: Ack)
    ensures !a.Positive? && Limit(limits, a) == Highest(limits)
  {
    if limits.collision == Highest(limits) then Aborted
    else if limits.missing == Highest(limits) then Missing
    else Negative
  }

  /** k rounds, each with as many of those failures as allowed and a negative acknowledge, then j more of them. */
  function Worst(limits: Limits, k: nat, j: nat): (acks: seq<Ack>)
    ensures Positive !in acks && |acks| == Tries(limits, k) + j
    decreases k, j
  {
    if j > 0 then Worst(limits, k, j - 1) + [Top(limits)]
    else if k > 0 then Worst(limits, k - 1, Highest(limits)) + [Negative]
    else []
  }

  lemma FailsOnceMore(start: Effort, limits: Limits, acks: seq<Ack>, ack: Ack)
    requires Positive !in acks && !ack.Positive? && Fails(start, limits, acks).Some?
    ensures Fails(start, limits, acks + [ack]) == Fail(Fails(start, limits, acks).value, limits, ack)
  {
    assert (acks + [ack])[..|acks|] == acks;
  }

  lemma {:induction false} WorstFails(limits: Limits, k: nat, j: nat)
    requires k <= C.RETRY_MAX && j <= Highest(limits)
    ensures Fails(Effort(0, 0, 0), limits, Worst(limits, k, j))
         == Some(Effort(j, if j == 0 then 0 else Highest(limits), k))
    decreases k, j
  {
    hide Fails;
    if j > 0 {
      WorstFails(limits, k, j - 1);
      FailsOnceMore(Effort(0, 0, 0), limits, Worst(limits, k, j - 1), Top(limits));
    } else if k > 0 {
      WorstFails(limits, k - 1, Highest(limits));
      FailsOnceMore(Effort(0, 0, 0), limits, Worst(limits, k - 1, Highest(limits)), Negative);
    } else {
      NoFailures(limits);
    }
  }

  lemma NoFailures(limits: Limits)
    ensures Fails(Effort(0, 0, 0), limits, []) == Some(Effort(0, 0, 0))
  {
  }

  /**
   For every choice of the three limits the bound is exact: one transmission less can still leave the message alive.
   */
  lemma BoundReached(limits: Limits)
    ensures var acks := Worst(limits, C.RETRY_MAX, Highest(limits));
      && |acks| == Tries(limits, C.RETRY_MAX as int + 1) - 1
      && Fails(Effort(0, 0, 0), limits, acks).Some?
  {
    hide Fails, Worst, Highest;
    WorstFails(limits, C.RETRY_MAX, Highest(limits));
  }

  // ---------------------------------------------------------------- over runs of both layers

  /**
   The message c is the next one the bus application layer sends, for the first time in a round or again, and the
   instance waits for that. Messages behind it in (subsystem, message) order may be pending as well.
   */
  ghost predicate Due(b: Bal, s: I.State, c: Code) {
    && Valid(b) && b.inFlight.None? && InTable(b.pending, c) && c.sub < MAX_SUBSYSTEMS
    && b.flags[c.sub] && (forall i :: 0 <= i < c.sub ==> !b.flags[i])
    && (forall d :: IsSet(b.pending, d) ==> d == c || Before(c, d))
    && s.line.o.target == s.con.partner
    && (if b.attempts > 0 then b.current == c && s.line.air.Retrying?
        else IsSet(b.pending, c) && s.line.air.Ground? && s.line.o.flag)
  }

  lemma DueIsPicked(b: Bal, s: I.State, c: Code)
    requires Due(b, s, c)
    ensures true in b.flags && Pick(b) == c
    ensures var (t, sent) := Task(b, true, false, true);
      && sent == Some(c) && t.inFlight == Some(c) && t.attempts == b.attempts && t.maxRetries == b.maxRetries
      && t == b.(current := c, pending := SetBit(b.pending, c, false), inFlight := Some(c))
  {
    assert b.flags[c.sub];
    if b.attempts == 0 {
      var i := Lowest(b.flags, 0);
      assert i == c.sub;
      var j := Lowest(b.pending[c.sub], 0);
      assert j <= c.msg && IsSet(b.pending, Code(c.sub, j));
    }
  }

  /**
   One transmission of the message and its failure: task call, hand-over, report to whom it concerns, and the new
   request if the instance makes one. None: the instance has given the message up.
   */
  ghost function Transmission(cfg: O.Config, b: Bal, s: I.State, c: Code, limits: Limits, ack: Ack)
    : Option<(Bal, I.State)>
    requires Due(b, s, c) && !ack.Positive?
  {
    DueIsPicked(b, s, c);
    var t := Task(b, true, false, true).0;
    var handed := I.Step(cfg, s, I.Pick(true));
    var (u, after) := Failed(cfg, t, handed, limits, ack);
    if u.attempts > 0 then Some((u, after))
    else if I.Resends(handed.line.o.retries, ack.Missing?) then Some((Request(u, c), after))
    else None
  }

  /**
   One transmission does to the counters of both layers what the rule says, and the message is due again or given up.
   */
  lemma TransmissionIsFail(cfg: O.Config, b: Bal, s: I.State, c: Code, limits: Limits, ack: Ack)
    requires Due(b, s, c) && !ack.Positive?
    ensures match (Transmission(cfg, b, s, c, limits, ack), Fail(EffortOf(b, s), limits, ack))
            case (Some(next), Some(e)) => Due(next.0, next.1, c) && EffortOf(next.0, next.1) == e
            case (None, None) => true
            case _ => false
  {
    DueIsPicked(b, s, c);
  }

  /**
   Both layers after these failures, unless the message was given up on the way: exactly what the counter rule says.
   */
  ghost function Tried(cfg: O.Config, b: Bal, s: I.State, c: Code, limits: Limits, acks: seq<Ack>)
    : (r: Option<(Bal, I.State)>)
    requires Due(b, s, c) && Positive !in acks
    ensures r.Some? ==> Due(r.value.0, r.value.1, c)
    ensures Fails(EffortOf(b, s), limits, acks)
         == if r.None? then None else Some(EffortOf(r.value.0, r.value.1))
  {
    if acks == [] then Some((b, s))
    else
      var init, last := acks[..|acks| - 1], acks[|acks| - 1];
      var r := Tried(cfg, b, s, c, limits, init);
      if r.None? then None
      else
        TransmissionIsFail(cfg, r.value.0, r.value.1, c, limits, last);
        Transmission(cfg, r.value.0, r.value.1, c, limits, last)
  }

  /**
   Over every run of the two layers: a message that is due, whatever the counters are and whatever waits behind it, is
   transmitted at most 6 * (1 + largest limit) times, less the transmissions the counters stand for,
   before the instance gives it up.
   */
  lemma TransmissionsEnd(cfg: O.Config, b: Bal, s: I.State, c: Code, limits: Limits, acks: seq<Ack>)
    requires Due(b, s, c) && Positive !in acks && b.maxRetries <= Highest(limits)
    requires |acks| + Used(limits, EffortOf(b, s)) >= 6 * (1 + Highest(limits) as int)
    ensures Tried(cfg, b, s, c, limits, acks).None?
  {
    hide Due, Tried, Used, Highest;
    TriesIsProduct(limits, C.RETRY_MAX as int + 1);
    RetriesEnd(EffortOf(b, s), limits, acks);
  }

  /** And from cleared counters there are failures with which it is still due after one transmission less. */
  lemma TransmissionsReached(cfg: O.Config, b: Bal, s: I.State, c: Code, limits: Limits)
    requires Due(b, s, c) && EffortOf(b, s) == Effort(0, 0, 0)
    ensures var acks := Worst(limits, C.RETRY_MAX, Highest(limits));
      && |acks| == 6 * (1 + Highest(limits) as int) - 1
      && Tried(cfg, b, s, c, limits, acks).Some?
  {
    hide Due, Tried, Used, Highest, Worst, Fails;
    TriesIsProduct(limits, C.RETRY_MAX as int + 1);
    BoundReached(limits);
    var _ := Tried(cfg, b, s, c, limits, Worst(limits, C.RETRY_MAX, Highest(limits)));
  }
}
