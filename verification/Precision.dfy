/** Average precision (recommendation/evaluation/metrics.py). */
module Precision {
  import opened Ndcg
  import opened Positions

  /** How many of the first n recommendations are relevant. */
  function Hits(recommended: seq<Item>, relevant: set<Item>, n: nat): nat
    requires n <= |recommended|
  {
    if n == 0 then 0
    else Hits(recommended, relevant, n - 1) + if recommended[n - 1] in relevant then 1 else 0
  }

  /** The precisions at the hits among the first n recommendations, in sum. */
  function PrecisionSum(recommended: seq<Item>, relevant: set<Item>, n: nat): real
    requires n <= |recommended|
  {
    if n == 0 then 0.0
    else
      PrecisionSum(recommended, relevant, n - 1)
      + if recommended[n - 1] in relevant then Hits(recommended, relevant, n) as real / n as real else 0.0
  }

  function AveragePrecisionOf(recommended: seq<Item>, relevant: set<Item>): real {
    if relevant == {} then 0.0
    else PrecisionSum(recommended, relevant, |recommended|) / |relevant| as real
  }

  method AveragePrecision(recommended: seq<Item>, relevant: set<Item>) returns (r: real)
    ensures r == AveragePrecisionOf(recommended, relevant)
  {
    if relevant == {} {
      return 0.0;
    }
    var hits, total := 0, 0.0;
    for i := 0 to |recommended|
      invariant hits == Hits(recommended, relevant, i)
      invariant total == PrecisionSum(recommended, relevant, i)
    {
      if recommended[i] in relevant {
        hits := hits + 1;
        total := total + hits as real / (i + 1) as real;
      }
    }
    r := total / |relevant| as real;
  }

  /** The positions of the hits among the first n recommendations. */
  function HitPositions(recommended: seq<Item>, relevant: set<Item>, n: nat): (pos: seq<nat>)
    requires n <= |recommended|
    ensures forall k :: 0 <= k < |pos| ==> pos[k] < n
  {
    if n == 0 then []
    else HitPositions(recommended, relevant, n - 1) + if recommended[n - 1] in relevant then [n - 1] else []
  }

  /** For the first m hits at these positions: the j-th hit of all, over the number of items down to it. */
  function HitRatios(pos: seq<nat>, m: nat): real
    requires m <= |pos|
  {
    if m == 0 then 0.0 else HitRatios(pos, m - 1) + m as real / (pos[m - 1] + 1) as real
  }

  lemma {:induction false} RatiosOfPrefix(pos: seq<nat>, more: seq<nat>, m: nat)
    requires m <= |pos|
    ensures HitRatios(pos + more, m) == HitRatios(pos, m)
  {
    if 0 < m {
      RatiosOfPrefix(pos, more, m - 1);
    }
  }

  lemma {:induction false} HitsAtPositions(recommended: seq<Item>, relevant: set<Item>, n: nat)
    requires n <= |recommended|
    ensures Increasing(HitPositions(recommended, relevant, n))
    ensures forall i: nat :: i in HitPositions(recommended, relevant, n) <==> i < n && recommended[i] in relevant
  {
    if 0 < n {
      var before := HitPositions(recommended, relevant, n - 1);
      HitsAtPositions(recommended, relevant, n - 1);
      OnePositionMore(before, n - 1);
      assert before + [] == before;
    }
  }

  lemma {:induction false} PrecisionsAtPositions(recommended: seq<Item>, relevant: set<Item>, n: nat)
    requires n <= |recommended|
    ensures |HitPositions(recommended, relevant, n)| == Hits(recommended, relevant, n)
    ensures PrecisionSum(recommended, relevant, n)
         == HitRatios(HitPositions(recommended, relevant, n), Hits(recommended, relevant, n))
  {
    if 0 < n {
      var before := HitPositions(recommended, relevant, n - 1);
      PrecisionsAtPositions(recommended, relevant, n - 1);
      RatiosOfPrefix(before, [n - 1], |before|);
      assert before + [] == before;
    }
  }

  /** The average precision is the sum, over the hits, of the number of hits so far to the number of items so
      far, divided by the number of relevant items. */
  lemma AveragePrecisionIs(recommended: seq<Item>, relevant: set<Item>, pos: seq<nat>)
    requires Increasing(pos) && forall i: nat :: i in pos <==> i < |recommended| && recommended[i] in relevant
    requires relevant != {}
    ensures AveragePrecisionOf(recommended, relevant) == HitRatios(pos, |pos|) / |relevant| as real
  {
    HitsAtPositions(recommended, relevant, |recommended|);
    PrecisionsAtPositions(recommended, relevant, |recommended|);
    SameMembers(pos, HitPositions(recommended, relevant, |recommended|));
  }

  /** The first n recommendations are all relevant. */
  ghost predicate AllHits(recommended: seq<Item>, relevant: set<Item>, n: nat) {
    n <= |recommended| && forall i :: 0 <= i < n ==> recommended[i] in relevant
  }

  lemma {:induction false} HitsFull(recommended: seq<Item>, relevant: set<Item>, n: nat)
    requires n <= |recommended|
    ensures Hits(recommended, relevant, n) <= n
    ensures Hits(recommended, relevant, n) == n <==> AllHits(recommended, relevant, n)
  {
    if n > 0 {
      HitsFull(recommended, relevant, n - 1);
    }
  }

  lemma {:induction false} HitsGrow(recommended: seq<Item>, relevant: set<Item>, m: nat, n: nat)
    requires m <= n <= |recommended|
    ensures Hits(recommended, relevant, m) <= Hits(recommended, relevant, n)
  {
    if m < n {
      HitsGrow(recommended, relevant, m, n - 1);
    }
  }

  lemma HitShare(hits: nat, n: nat)
    requires 1 <= hits <= n
    ensures 0.0 < hits as real / n as real <= 1.0
    ensures hits as real / n as real == 1.0 <==> hits == n
  {
  }

  /** The precisions sum to at most the number of hits, and to that exactly when all hits come first. */
  lemma {:induction false} PrecisionSumBound(recommended: seq<Item>, relevant: set<Item>, n: nat)
    requires n <= |recommended|
    ensures 0.0 <= PrecisionSum(recommended, relevant, n) <= Hits(recommended, relevant, n) as real
    ensures PrecisionSum(recommended, relevant, n) == Hits(recommended, relevant, n) as real
       <==> AllHits(recommended, relevant, Hits(recommended, relevant, n))
  {
    if n > 0 {
      PrecisionSumBound(recommended, relevant, n - 1);
      HitsFull(recommended, relevant, n);
      var hits := Hits(recommended, relevant, n);
      if recommended[n - 1] in relevant {
        HitShare(hits, n);
        if hits < n && AllHits(recommended, relevant, hits) {
          HitsFull(recommended, relevant, hits);
          HitsGrow(recommended, relevant, hits, n - 1);
          assert false;
        }
      }
    }
  }

  /** Distinct hits are distinct relevant items. */
  lemma {:induction false} HitItems(recommended: seq<Item>, relevant: set<Item>, n: nat) returns (found: set<Item>)
    requires Distinct(recommended) && n <= |recommended|
    ensures found <= relevant && |found| == Hits(recommended, relevant, n)
    ensures forall x :: x in found ==> x in recommended[..n]
  {
    found := {};
    if n > 0 {
      found := HitItems(recommended, relevant, n - 1);
      assert recommended[n - 1] !in recommended[..n - 1];
      if recommended[n - 1] in relevant {
        found := found + {recommended[n - 1]};
      }
    }
  }

  lemma ShareOfWhole(x: real, n: nat)
    requires 0.0 <= x <= n as real && 0 < n
    ensures 0.0 <= x / n as real <= 1.0
    ensures x / n as real == 1.0 <==> x == n as real
  {
    var share, whole := x / n as real, n as real;
    assert share * whole == x;
    Quotient(x, whole);
  }

  /** For distinct recommendations the average precision is a fraction, and it is 1 exactly when all
      relevant items are recommended ahead of everything else. */
  lemma AveragePrecisionLaws(recommended: seq<Item>, relevant: set<Item>)
    requires Distinct(recommended)
    ensures 0.0 <= AveragePrecisionOf(recommended, relevant) <= 1.0
    ensures AveragePrecisionOf(recommended, relevant) == 1.0
       <==> relevant != {} && AllHits(recommended, relevant, |relevant|)
  {
    if relevant != {} {
      var n := |recommended|;
      var found := HitItems(recommended, relevant, n);
      Subset(found, relevant);
      PrecisionSumBound(recommended, relevant, n);
      ShareOfWhole(PrecisionSum(recommended, relevant, n), |relevant|);
      if AllHits(recommended, relevant, |relevant|) {
        HitsFull(recommended, relevant, |relevant|);
        HitsGrow(recommended, relevant, |relevant|, n);
      }
    }
  }

  /** All items of the list relevant: every position is a hit. */
  lemma OwnItemsHit(recommended: seq<Item>)
    requires recommended != []
    ensures Members(recommended) != {}
    ensures AveragePrecisionOf(recommended, Members(recommended))
         == |recommended| as real / |Members(recommended)| as real
  {
    var n, relevant := |recommended|, Members(recommended);
    assert recommended[0] in relevant;
    HitsFull(recommended, relevant, n);
    PrecisionSumBound(recommended, relevant, n);
  }

  /** The average precision is at most 1 whatever is relevant. */
  ghost predicate AlwaysAtMostOne(recommended: seq<Item>) {
    forall relevant: set<Item> :: AveragePrecisionOf(recommended, relevant) <= 1.0
  }

  /** It is so exactly when no item is recommended twice. */
  lemma AveragePrecisionAtMostOneIff(recommended: seq<Item>)
    ensures AlwaysAtMostOne(recommended) <==> Distinct(recommended)
  {
    if Distinct(recommended) {
      forall relevant: set<Item>
        ensures AveragePrecisionOf(recommended, relevant) <= 1.0
      {
        AveragePrecisionLaws(recommended, relevant);
      }
    } else {
      OwnItemsHit(recommended);
      MembersCount(recommended);
      assert recommended[0] in Members(recommended);
      Above(|recommended| as real, |Members(recommended)| as real);
      assert AveragePrecisionOf(recommended, Members(recommended)) > 1.0;
    }
  }

  lemma {:induction false} Subset(xs: set<Item>, ys: set<Item>)
    requires xs <= ys
    ensures |xs| <= |ys|
  {
    assert ys == xs + (ys - xs);
  }
}
