/** The repeat queue over its slot array and its permuted pointer array. */
module RepeatQueueDriver {
  import opened Bytes
  import opened Frames
  import opened RepeatQueue
  import Scan

  class MessagesToRepeat {
    const slots: array<Slot>
    const pointers: array<nat>

    /** The pointers are a permutation of the slots. */
    ghost predicate Valid()
      reads slots, pointers
    {
      0 < slots.Length < 128 && Permutation(pointers[..], slots.Length)
    }

    /** The slots in pointer order. */
    ghost function View(): (q: seq<Slot>)
      requires Valid()
      reads slots, pointers
      ensures |q| == slots.Length == pointers.Length
      ensures forall i :: 0 <= i < |q| ==> pointers[i] < slots.Length && q[i] == slots[pointers[i]]
    {
      assert forall i :: 0 <= i < |pointers[..]| ==> pointers[..][i] == pointers[i];
      ViewOf(slots[..], pointers[..])
    }

    constructor (size: nat)
      requires 0 < size < 128
      ensures Valid() && fresh(slots) && fresh(pointers) && View() == Frees(size)
    {
      slots := new Slot[size](_ => FREE);
      pointers := new nat[size](i => i);
    }

    method CloseGap(start: nat)
      requires Valid() && start < slots.Length
      modifies slots, pointers
      ensures Valid() && View() == RepeatQueue.CloseGap(old(View()), start)
    {
      hide RepeatQueue.CloseGap, Rotated, ViewOf;
      ghost var s, p := slots[..], pointers[..];
      RotateClosesGap(s, p, start);
      var putToEnd := pointers[start];
      var last := pointers.Length - 1;
      var i := start;
      while i < last
        invariant start <= i <= last && slots[..] == s
        invariant forall k :: 0 <= k < start ==> pointers[k] == p[k]
        invariant forall k :: start <= k < i ==> pointers[k] == p[k + 1]
        invariant forall k :: i <= k <= last ==> pointers[k] == p[k]
      {
        pointers[i] := pointers[i + 1];
        i := i + 1;
      }
      pointers[last] := putToEnd;
      RotatedAt(p, start);
      assert pointers[..] == Rotated(p, start);
      slots[pointers[last]] := FREE;
      assert slots[..] == s[p[start] := FREE];
    }

    /** DBAL_organizeMsgs2Repeat: whether a message is left. */
    method Organize() returns (exist: bool)
      requires Valid()
      modifies slots, pointers
      ensures Valid() && View() == Compacted(old(View())) && (exist <==> Occupied(old(View())) != [])
    {
      hide Compacted, Occupied, RepeatQueue.CloseGap;
      exist := false;
      ghost var q := View();
      EmptyCompacted();
      for i := pointers.Length downto 0
        invariant Valid() && |q| == pointers.Length
        invariant View() == q[..i] + Compacted(q[i..])
        invariant exist <==> Occupied(q[i..]) != []
      {
        CompactedStep(q, i);
        assert View()[i] == slots[pointers[i]];
        if slots[pointers[i]].occupied {
          exist := true;
        } else {
          CloseGap(i);
        }
      }
    }

    static lemma EmptyCompacted()
      ensures Compacted([]) == [] && Occupied([]) == []
    {
    }

    /** DBAL_isMsg2RepeatSaved. */
    method IsSaved(f: Frame) returns (saved: bool, free: nat)
      requires Valid()
      ensures (saved, free) == Find(View(), f, 0)
    {
      saved, free := false, slots.Length;
      var i := 0;
      while i < pointers.Length
        invariant 0 <= i <= pointers.Length && !saved && free == slots.Length
        invariant Find(View(), f, 0) == Find(View(), f, i)
      {
        assert View()[i] == slots[pointers[i]];
        if slots[pointers[i]].occupied && slots[pointers[i]].frame == f {
          saved := true;
          return;
        } else if slots[pointers[i]].retries == 0 && !slots[pointers[i]].occupied {
          free := i;
          return;
        }
        i := i + 1;
      }
    }

    /** DBAL_saveMsg2Repeat. */
    method Save(f: Frame, free: nat) returns (ok: bool)
      requires Valid()
      modifies slots
      ensures Valid() && (View(), ok) == RepeatQueue.Save(old(View()), f, free)
    {
      ok := false;
      if |f.payload| <= MAX_DATA && free < slots.Length {
        assert View()[free] == slots[pointers[free]];
        if slots[pointers[free]].retries == 0 && !slots[pointers[free]].occupied {
          slots[pointers[free]] := slots[pointers[free]].(occupied := true, frame := f);
          ok := true;
          assert View() == RepeatQueue.Save(old(View()), f, free).0;
        }
      }
    }

    /** One ack frame against every slot: whether some slot waited for it, and how many service calls it causes. */
    method Free(c: Cut) returns (matches: nat)
      requires Valid()
      modifies slots
      ensures Valid() && View() == Mark(old(View()), c)
      ensures matches > 0 <==> Awaited(old(View()), c)
    {
      matches := 0;
      ghost var q := View();
      var i := 0;
      while i < pointers.Length
        invariant Valid() && 0 <= i <= pointers.Length == |q|
        invariant forall k :: 0 <= k < i ==> View()[k] == Mark(q, c)[k]
        invariant forall k :: i <= k < |q| ==> View()[k] == q[k]
        invariant matches > 0 <==> exists k :: 0 <= k < i && Answers(c, q[k])
      {
        assert View()[i] == slots[pointers[i]];
        if Answers(c, slots[pointers[i]]) {
          slots[pointers[i]] := slots[pointers[i]].(occupied := false);
          matches := matches + 1;
        }
        i := i + 1;
      }
    }

    /** DBAL_look4AckMsgReception, with the 8-bit scan offset; unexpected are the frames reported to the application. */
    method LookForAcks(bytes: seq<byte>) returns (unexpected: seq<Cut>)
      requires Valid() && Scan.Ends(bytes)
      modifies slots
      ensures Valid() && View() == MarkAll(old(View()), Scan.Cuts(bytes))
      ensures unexpected == Unexpected(old(View()), Scan.Cuts(bytes))
    {
      hide CutAt, Mark, Awaited, ViewOf, Permutation, Occupied, Scan.Turns, MarkAll, Unexpected;
      unexpected := [];
      var offset: byte := FRAME_OFFSET;
      ghost var turns := Scan.TURNS;
      while offset + DATA_OFFSET <= |bytes|
        invariant Valid() && Scan.Leaves(bytes, offset, turns)
        invariant MarkAll(old(View()), Scan.Cuts(bytes)) == MarkAll(View(), Scan.Turns(bytes, offset, turns))
        invariant Unexpected(old(View()), Scan.Cuts(bytes))
               == unexpected + Unexpected(View(), Scan.Turns(bytes, offset, turns))
        decreases turns
      {
        var c := CutAt(bytes, offset);
        ScanStep(View(), bytes, offset, turns);
        turns := turns - 1;
        var matches := Free(c);
        if matches == 0 && !ToRepeat(c.frame.kind) {
          unexpected := unexpected + [c];
        }
        offset := Low8(offset + DATA_OFFSET + bytes[offset + 1]);
      }
      ScanEnd(View(), bytes, offset, turns);
    }

    static lemma ScanStep(q: seq<Slot>, bytes: seq<byte>, off: byte, turns: nat)
      requires |bytes| < 256 && off + DATA_OFFSET <= |bytes| && turns > 0
      ensures var c, rest := CutAt(bytes, off), Scan.Turns(bytes, Low8(Next(bytes, off)), turns - 1);
        && MarkAll(q, Scan.Turns(bytes, off, turns)) == MarkAll(Mark(q, c), rest)
        && Unexpected(q, Scan.Turns(bytes, off, turns)) ==
           (if !Awaited(q, c) && !ToRepeat(c.frame.kind) then [c] else []) + Unexpected(Mark(q, c), rest)
    {
      hide CutAt, Mark, Awaited;
    }

    static lemma ScanEnd(q: seq<Slot>, bytes: seq<byte>, off: byte, turns: nat)
      requires |bytes| < 256 && off + DATA_OFFSET > |bytes|
      ensures MarkAll(q, Scan.Turns(bytes, off, turns)) == q && Unexpected(q, Scan.Turns(bytes, off, turns)) == []
    {
    }

    /** DBAL_checkAndFireMsgs2RepeatWhenClearing: every registered callback is told about every queued message. */
    method FireLost(callbacks: nat) returns (reports: seq<(nat, Frame)>)
      requires Valid()
      ensures reports == Reports(View(), callbacks)
    {
      reports := [];
      ghost var q := View();
      for j := 0 to callbacks
        invariant reports == Reports(q, j)
      {
        for i := 0 to pointers.Length
          invariant |q| == pointers.Length
          invariant reports == Reports(q, j) + Calls(q[..i], j)
        {
          assert q[..i + 1][..i] == q[..i] && q[..i + 1][i] == slots[pointers[i]];
          if slots[pointers[i]].occupied {
            reports := reports + [(j, slots[pointers[i]].frame)];
          }
        }
        assert q[..pointers.Length] == q;
      }
    }

    /** DBAL_clearMsgs2Repeat. */
    method Clear(callbacks: nat) returns (reports: seq<(nat, Frame)>)
      requires Valid()
      modifies slots
      ensures Valid() && View() == Frees(slots.Length) && reports == Reports(old(View()), callbacks)
    {
      reports := FireLost(callbacks);
      for i := 0 to slots.Length
        invariant forall k :: 0 <= k < i ==> slots[k] == FREE
      {
        slots[i] := FREE;
      }
      assert View() == Frees(slots.Length);
    }

    /** One more repetition of the message at position i. */
    method CountRetry(i: nat)
      requires Valid() && i < slots.Length && View()[i].retries < 255
      modifies slots
      ensures Valid() && View() == Bump(old(View()), i)
    {
      slots[pointers[i]] := slots[pointers[i]].(retries := slots[pointers[i]].retries + 1);
    }
  }
}
