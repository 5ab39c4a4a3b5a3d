/** Acceptance of received request and response messages by their wrapping sequence id. */
module SequenceId {
  import opened Bytes

  /** The id test of DBAL_isReceivedReqRespMsg2BeIgnored: the 8-bit difference is between 1 and 127. */
  predicate Accepted(id: byte, last: byte) {
    1 <= Low8(id - last) <= 127
  }

  /** Section 3.2 of RFC 1982 with SERIAL_BITS of 8: id is greater than last. */
  predicate SerialGreater(id: byte, last: byte) {
    (last < id && id - last < 128) || (last > id && last - id > 128)
  }

  /** The driver's test is serial number comparison. */
  lemma AcceptedIsSerialGreater(id: byte, last: byte)
    ensures Accepted(id, last) <==> SerialGreater(id, last)
  {
  }

  // ---------------------------------------------------------------- unbounded counters

  /** The id of the n-th message of a connection; number -1 stands for the state before the first one. */
  function IdOf(n: int): byte
    requires n >= -1
  {
    (n + 256) % 256
  }

  /** The sender counts the id up by one, starting from the value set when the connection is made. */
  lemma NextId(n: int)
    requires n >= -1
    ensures IdOf(n + 1) == Low8(IdOf(n) + 1) && IdOf(-1) == 255
  {
  }

  /** From 128 behind to 127 ahead of the last accepted message. */
  predicate InWindow(n: int, last: int) {
    last - 128 <= n <= last + 127
  }

  /** Inside the window the 8-bit test decides like the unbounded counters; just outside of it it is wrong. */
  lemma RefinesCounters(n: int, last: int)
    requires n >= -1 && last >= -1
    ensures InWindow(n, last) ==> (Accepted(IdOf(n), IdOf(last)) <==> n > last)
    ensures n == last + 128 ==> !Accepted(IdOf(n), IdOf(last))
    ensures n == last - 129 ==> Accepted(IdOf(n), IdOf(last))
  {
  }

  /** Ahead by 1 to 127, counted around the ids. */
  predicate Ahead(n: int, last: int) {
    1 <= (n - last) % 256 <= 127
  }

  /** What the 8-bit test means for the unbounded numbers, at any distance; within 256 it is 1 to 127 ahead. */
  lemma AcceptedExactly(n: int, last: int)
    requires n >= -1 && last >= -1
    ensures Accepted(IdOf(n), IdOf(last)) <==> Ahead(n, last)
    ensures last <= n <= last + 256 ==> (Ahead(n, last) <==> last < n <= last + 127)
  {
    var a: int, b: int := IdOf(n), IdOf(last);
    var d := (n + 256) / 256 - (last + 256) / 256;
    assert n - last == 256 * d + (a - b);
    assert (n - last) % 256 == Low8(a - b) by {
      WholeTurns(a - b, d);
    }
  }

  lemma WholeTurns(x: int, turns: int)
    requires -256 < x < 256
    ensures (256 * turns + x) % 256 == Low8(x)
  {
  }

  /** The messages taken out of those presented, one after the other. */
  function Taken(last: int, presented: seq<nat>): seq<nat>
    requires last >= -1
    decreases |presented|
  {
    if presented == [] then []
    else
      var n, rest := presented[0], presented[1..];
      if Accepted(IdOf(n), IdOf(last)) then [n] + Taken(n, rest) else Taken(last, rest)
  }

  /** Every message is presented inside the window of what was taken before. */
  predicate Windowed(last: int, presented: seq<nat>)
    requires last >= -1
    decreases |presented|
  {
    presented == [] ||
    (InWindow(presented[0], last)
     && Windowed(if presented[0] > last then presented[0] else last, presented[1..]))
  }

  predicate Advancing(last: int, taken: seq<nat>)
    decreases |taken|
  {
    taken == [] || (taken[0] > last && Advancing(taken[0], taken[1..]))
  }

  /** What a receiver with unbounded counters takes: every message newer than all before. */
  function Records(last: int, presented: seq<nat>): seq<nat>
    decreases |presented|
  {
    if presented == [] then []
    else if presented[0] > last then [presented[0]] + Records(presented[0], presented[1..])
    else Records(last, presented[1..])
  }

  /** The 8-bit receiver takes what the unbounded one takes; it strictly advances, so none is taken twice. */
  lemma {:induction false} TakenAdvance(last: int, presented: seq<nat>)
    requires last >= -1 && Windowed(last, presented)
    ensures Taken(last, presented) == Records(last, presented)
    ensures Advancing(last, Taken(last, presented))
    decreases |presented|
  {
    if presented == [] {
    } else {
      RefinesCounters(presented[0], last);
      var next := if presented[0] > last then presented[0] else last;
      TakenAdvance(next, presented[1..]);
    }
  }

  lemma {:induction false} AdvancingOnce(last: int, taken: seq<nat>)
    requires Advancing(last, taken)
    ensures forall i :: 0 <= i < |taken| ==> taken[i] > last
    ensures forall i, j :: 0 <= i < j < |taken| ==> taken[i] < taken[j]
    decreases |taken|
  {
    if taken == [] {
    } else {
      AdvancingOnce(taken[0], taken[1..]);
      forall i, j | 0 <= i < j < |taken|
        ensures taken[i] < taken[j]
      {
        assert taken[j] == taken[1..][j - 1];
        if i > 0 {
          assert taken[i] == taken[1..][i - 1];
        }
      }
    }
  }

  // ---------------------------------------------------------------- with repetitions on the bus

  /** Messages in the order they were made, each sent any number of times, some of them lost, but never 127 in a row. */
  predicate Repeating(last: int, presented: seq<nat>)
    decreases |presented|
  {
    presented == [] || (last <= presented[0] <= last + 127 && Repeating(presented[0], presented[1..]))
  }

  function WithoutRepetitions(last: int, presented: seq<nat>): seq<nat>
    decreases |presented|
  {
    if presented == [] then []
    else if presented[0] == last then WithoutRepetitions(last, presented[1..])
    else [presented[0]] + WithoutRepetitions(presented[0], presented[1..])
  }

  /** Every message that arrives at all is taken exactly once, in order. */
  lemma {:induction false} ExactlyOnce(last: int, presented: seq<nat>)
    requires last >= -1 && Repeating(last, presented)
    ensures Taken(last, presented) == WithoutRepetitions(last, presented)
    decreases |presented|
  {
    if presented == [] {
    } else {
      RefinesCounters(presented[0], last);
      ExactlyOnce(presented[0], presented[1..]);
    }
  }
}
