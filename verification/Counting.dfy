/** Sizes of finite sets of numbers, for arguments by the pigeonhole principle. */
module Counting {
  function Below(size: nat): (s: set<nat>)
    ensures (forall x: nat :: x in s <==> x < size) && |s| == size
  {
    if size == 0 then {}
    else
      var last: nat := size - 1;
      Below(last) + {last}
  }

  lemma {:induction false} Smaller(a: set<nat>, b: set<nat>)
    requires a <= b
    ensures |a| <= |b|
  {
    if a == {} {
    } else {
      var x :| x in a;
      Smaller(a - {x}, b - {x});
    }
  }

  /** A part that is not smaller than the whole is the whole. */
  lemma WholeByCount(a: set<nat>, b: set<nat>)
    requires a <= b && |a| >= |b|
    ensures a == b
  {
    Smaller(b - a, b);
    assert a + (b - a) == b;
  }
}
