/**
 The scan of a received message with its 8-bit offset: when it does what an unbounded
 one would do, and when it comes to an end at all.
 */
module Scan {
  import opened Bytes
  import opened Counting
  import opened Frames

  /** The frames cut by the scan from the 8-bit offset off on, in at most the given number of turns. */
  function Turns(bytes: seq<byte>, off: byte, turns: nat): seq<Cut>
    requires |bytes| < 256
    decreases turns
  {
    if turns == 0 || off + DATA_OFFSET > |bytes| then []
    else [CutAt(bytes, off)] + Turns(bytes, Low8(Next(bytes, off)), turns - 1)
  }

  /** The loop is left within that many turns. */
  predicate Leaves(bytes: seq<byte>, off: byte, turns: nat)
    requires |bytes| < 256
    decreases turns
  {
    off + DATA_OFFSET > |bytes| || (turns > 0 && Leaves(bytes, Low8(Next(bytes, off)), turns - 1))
  }

  /** The offset after that many turns, or the one at which the loop was left. */
  function Reaches(bytes: seq<byte>, off: byte, turns: nat): byte
    requires |bytes| < 256
    decreases turns
  {
    if turns == 0 || off + DATA_OFFSET > |bytes| then off else Reaches(bytes, Low8(Next(bytes, off)), turns - 1)
  }

  /** No offset comes twice before the loop is left, so there are at most as many turns as offsets. */
  const TURNS: nat := 256

  /** The frames a received message is cut into. */
  function Cuts(bytes: seq<byte>): seq<Cut>
    requires |bytes| < 256
  {
    Turns(bytes, FRAME_OFFSET, TURNS)
  }

  /** The driver comes to an end with the message. */
  predicate Ends(bytes: seq<byte>) {
    |bytes| < 256 && Leaves(bytes, FRAME_OFFSET, TURNS)
  }

  /** Only the last offset can pass 255: the ones before it still have a frame header behind them. */
  lemma {:induction false} Fits8IsEnd(bytes: seq<byte>, off: nat)
    requires |bytes| < 256 && off < 256
    ensures Fits8(bytes, off) <==> End(bytes, off) < 256
    decreases |bytes| - off
  {
    if off + DATA_OFFSET <= |bytes| && Next(bytes, off) < 256 {
      Fits8IsEnd(bytes, Next(bytes, off));
    }
  }

  /** The 8-bit scan does what the unbounded one does: same frames, and the loop is left. */
  predicate Same(bytes: seq<byte>, off: byte, turns: nat)
    requires |bytes| < 256
  {
    Leaves(bytes, off, turns) && Turns(bytes, off, turns) == Parse(bytes, off)
  }

  lemma SameStep(bytes: seq<byte>, off: byte, turns: nat)
    requires |bytes| < 256 && off + DATA_OFFSET <= |bytes| && turns > 0
    ensures Same(bytes, off, turns) <==>
            Leaves(bytes, Low8(Next(bytes, off)), turns - 1)
            && Turns(bytes, Low8(Next(bytes, off)), turns - 1) == Parse(bytes, Next(bytes, off))
  {
    hide CutAt;
    var c := CutAt(bytes, off);
    var x, y := Turns(bytes, Low8(Next(bytes, off)), turns - 1), Parse(bytes, Next(bytes, off));
    assert ([c] + x)[1..] == x && ([c] + y)[1..] == y;
  }

  /**
   The 8-bit scan cuts the same frames as the unbounded one and stops at the same offset if and only if the declared
   lengths keep the offset below 256; it cuts the same frames if and only if that offset, wrapped, has no header behind
   it.
   */
  lemma {:induction false} ScanExact(bytes: seq<byte>, off: byte, turns: nat)
    requires |bytes| < 256 && turns >= |Parse(bytes, off)|
    ensures Same(bytes, off, turns) && Reaches(bytes, off, turns) == End(bytes, off) <==> Fits8(bytes, off)
    ensures Same(bytes, off, turns) <==> End(bytes, off) < 256 || End(bytes, off) - 256 + DATA_OFFSET > |bytes|
    decreases |bytes| - off
  {
    hide CutAt, Same;
    Fits8IsEnd(bytes, off);
    if off + DATA_OFFSET <= |bytes| {
      SameStep(bytes, off, turns);
      if Next(bytes, off) < 256 {
        ScanExact(bytes, Next(bytes, off), turns - 1);
        assert Same(bytes, Next(bytes, off), turns - 1) <==>
               Leaves(bytes, Next(bytes, off), turns - 1)
               && Turns(bytes, Next(bytes, off), turns - 1) == Parse(bytes, Next(bytes, off)) by {
          SameMeans(bytes, Next(bytes, off), turns - 1);
        }
      }
    } else {
      SameMeans(bytes, off, turns);
    }
  }

  lemma SameMeans(bytes: seq<byte>, off: byte, turns: nat)
    requires |bytes| < 256
    ensures Same(bytes, off, turns) <==> Leaves(bytes, off, turns) && Turns(bytes, off, turns) == Parse(bytes, off)
  {
  }

  /** The offsets from which the loop is left within that many turns. */
  function Leaving(bytes: seq<byte>, turns: nat): set<nat>
    requires |bytes| < 256
  {
    set x: nat | x in Below(256) && Leaves(bytes, x, turns)
  }

  lemma InLeaving(bytes: seq<byte>, x: byte, turns: nat)
    requires |bytes| < 256
    ensures x in Leaving(bytes, turns) <==> Leaves(bytes, x, turns)
  {
  }

  lemma {:induction false} LeavesMore(bytes: seq<byte>, x: byte, turns: nat)
    requires |bytes| < 256 && Leaves(bytes, x, turns)
    ensures Leaves(bytes, x, turns + 1)
    decreases turns
  {
    if x + DATA_OFFSET > |bytes| {
    } else {
      LeavesMore(bytes, Low8(Next(bytes, x)), turns - 1);
    }
  }

  lemma LeavingGrows(bytes: seq<byte>, turns: nat)
    requires |bytes| < 256
    ensures Leaving(bytes, turns) <= Leaving(bytes, turns + 1) <= Below(256)
  {
    hide Leaves, Below;
    forall x | x in Leaving(bytes, turns)
      ensures x in Leaving(bytes, turns + 1)
    {
      LeavesMore(bytes, x, turns);
    }
  }

  /** Once no further offset is gained, none is gained any more. */
  lemma LeavingStops(bytes: seq<byte>, turns: nat)
    requires |bytes| < 256 && Leaving(bytes, turns) == Leaving(bytes, turns + 1)
    ensures Leaving(bytes, turns + 1) == Leaving(bytes, turns + 2)
  {
    hide Leaving, Below;
    LeavingGrows(bytes, turns + 1);
    var more := Leaving(bytes, turns + 2);
    forall x | x in more
      ensures x in Leaving(bytes, turns + 1)
    {
      InLeaving(bytes, x, turns + 1);
      InLeaving(bytes, x, turns + 2);
      if x + DATA_OFFSET <= |bytes| {
        InLeaving(bytes, Low8(Next(bytes, x)), turns);
        InLeaving(bytes, Low8(Next(bytes, x)), turns + 1);
      }
    }
  }

  /** Every turn allows a further offset, or no further turn does. */
  lemma {:induction false} LeavingCount(bytes: seq<byte>, turns: nat)
    requires |bytes| < 256
    ensures |Leaving(bytes, turns)| >= turns || Leaving(bytes, turns) == Leaving(bytes, turns + 1)
  {
    hide Leaving, Leaves, Below;
    if turns == 0 {
    } else {
      var a, b := Leaving(bytes, turns - 1), Leaving(bytes, turns);
      LeavingCount(bytes, turns - 1);
      LeavingGrows(bytes, turns - 1);
      if a == b {
        LeavingStops(bytes, turns - 1);
      } else {
        var x :| x in b && x !in a;
        Smaller(a + {x}, b);
      }
    }
  }

  /** More turns than offsets leave nothing that as many turns as offsets do not. */
  lemma {:induction false} EnoughTurns(bytes: seq<byte>, turns: nat)
    requires |bytes| < 256 && turns >= TURNS
    ensures Leaving(bytes, turns) == Leaving(bytes, TURNS) == Leaving(bytes, turns + 1)
  {
    hide Leaving, Leaves, Below;
    LeavingGrows(bytes, turns);
    if turns > TURNS {
      EnoughTurns(bytes, turns - 1);
      LeavingStops(bytes, turns - 1);
    } else {
      LeavingCount(bytes, TURNS);
      if |Leaving(bytes, TURNS)| >= TURNS {
        WholeByCount(Leaving(bytes, TURNS), Below(256));
      }
    }
  }

  lemma {:induction false} LeavesLater(bytes: seq<byte>, x: byte, few: nat, many: nat)
    requires |bytes| < 256 && few <= many && Leaves(bytes, x, few)
    ensures Leaves(bytes, x, many)
    decreases many
  {
    hide Leaves;
    if few >= many {
    } else {
      LeavesLater(bytes, x, few, many - 1);
      LeavesMore(bytes, x, many - 1);
    }
  }

  /** The loop is ever left if and only if it is left within TURNS turns. */
  lemma EndsExactly(bytes: seq<byte>)
    requires |bytes| < 256
    ensures Ends(bytes) <==> exists turns: nat :: Leaves(bytes, FRAME_OFFSET, turns)
  {
    hide Leaves, Leaving;
    forall turns: nat | Leaves(bytes, FRAME_OFFSET, turns)
      ensures Ends(bytes)
    {
      if turns <= TURNS {
        LeavesLater(bytes, FRAME_OFFSET, turns, TURNS);
      } else {
        EnoughTurns(bytes, turns);
        InLeaving(bytes, FRAME_OFFSET, turns);
        InLeaving(bytes, FRAME_OFFSET, TURNS);
      }
    }
    if Ends(bytes) {
      assert Leaves(bytes, FRAME_OFFSET, TURNS);
    }
  }

  /** With declared lengths that keep the offset below 256 the loop ends, and cuts what the parser cuts. */
  lemma FitsEnds(bytes: seq<byte>)
    requires |bytes| < 256 && Fits8(bytes, FRAME_OFFSET)
    ensures Ends(bytes) && Cuts(bytes) == Parse(bytes, FRAME_OFFSET)
  {
    ParseShort(bytes, FRAME_OFFSET);
    ScanExact(bytes, FRAME_OFFSET, TURNS);
  }

  lemma {:induction false} ParseShort(bytes: seq<byte>, off: nat)
    requires off <= |bytes| + 256
    ensures |Parse(bytes, off)| <= if off <= |bytes| then |bytes| - off else 0
    decreases |bytes| - off
  {
    hide CutAt;
    if off + DATA_OFFSET > |bytes| {
    } else {
      ParseShort(bytes, Next(bytes, off));
    }
  }

  /** A message whose scan ends exactly at its length, as every packed one does, keeps the offset below 256. */
  lemma PackedEnds(bytes: seq<byte>)
    requires End(bytes, FRAME_OFFSET) == |bytes| < 256
    ensures Fits8(bytes, FRAME_OFFSET) && Ends(bytes) && FramesOf(Cuts(bytes)) == Content(bytes)
  {
    Fits8IsEnd(bytes, FRAME_OFFSET);
    FitsEnds(bytes);
  }

  /** A message with which the loop never ends: its first frame sends the offset back to where it was. */
  lemma {:induction false} NeverEnds(bytes: seq<byte>, turns: nat)
    requires bytes == [0x13, 3, 0, 0, 250, 0, 0, 0, 0]
    ensures !Leaves(bytes, FRAME_OFFSET, turns) && !Fits8(bytes, FRAME_OFFSET)
  {
    assert Next(bytes, FRAME_OFFSET) == 259;
    if turns == 0 {
    } else {
      NeverEnds(bytes, turns - 1);
    }
  }
}
