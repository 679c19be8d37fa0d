/** Increasing lists of positions. */
module Positions {

  ghost predicate Increasing(xs: seq<nat>) {
    forall i, j :: 0 <= i < j < |xs| ==> xs[i] < xs[j]
  }

  /** An increasing list is determined by its members. */
  lemma {:induction false} SameMembers(xs: seq<nat>, ys: seq<nat>)
    requires Increasing(xs) && Increasing(ys)
    requires forall x :: x in xs <==> x in ys
    ensures xs == ys
    decreases |xs|
  {
    assert xs != [] ==> xs[0] in ys;
    assert ys != [] ==> ys[0] in xs;
    if xs != [] {
      assert forall x :: x in xs[1..] <==> x in xs && x != xs[0];
      assert forall x :: x in ys[1..] <==> x in ys && x != ys[0];
      SameMembers(xs[1..], ys[1..]);
    }
  }

  lemma OnePositionMore(pos: seq<nat>, last: nat)
    requires Increasing(pos) && forall k :: 0 <= k < |pos| ==> pos[k] < last
    ensures Increasing(pos + [last])
    ensures forall j: nat :: j in pos + [last] <==> j in pos || j == last
  {
  }
}
