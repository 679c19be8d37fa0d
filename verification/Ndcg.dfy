/**
 Ranking metrics (recommendation/evaluation/metrics.py).

 ndcg_at_k divides the discounted gain of a ranking by that of the ideal one.  The quotient is at
 most one by a rearrangement argument: the best first j items beat any j distinct items for every
 j, and a decreasing discount carries that over to discounted sums.
 */
module Ndcg {

  type Item = string

  /** Any positive decreasing discount; the source uses 1 / log2(i + 2). */
  ghost predicate IsDiscount(disc: nat -> real) {
    forall i: nat :: 0.0 < disc(i) && disc(i + 1) <= disc(i)
  }

  ghost predicate Distinct(items: seq<Item>) {
    forall i, j :: 0 <= i < j < |items| ==> items[i] != items[j]
  }

  ghost predicate NonNegative(relevant: map<Item, real>) {
    forall x :: x in relevant ==> 0.0 <= relevant[x]
  }

  /** The relevant items by falling relevance, as sorting the values gives them. */
  ghost predicate IsRanking(relevant: map<Item, real>, order: seq<Item>) {
    && Distinct(order)
    && (forall x :: x in relevant <==> x in order)
    && (forall i, j :: 0 <= i < j < |order| ==> relevant[order[j]] <= relevant[order[i]])
  }

  function Rel(relevant: map<Item, real>, x: Item): real {
    if x in relevant then relevant[x] else 0.0
  }

  /** The relevance at position i of a list; nothing beyond its end. */
  function RelAt(relevant: map<Item, real>, items: seq<Item>, i: nat): real {
    if i < |items| then Rel(relevant, items[i]) else 0.0
  }

  /** A list cut off as items[:k], which counts a negative k from the end. */
  function Cut<T>(items: seq<T>, k: int): seq<T> {
    if k < 0 then (if |items| + k < 0 then [] else items[..|items| + k])
    else if k < |items| then items[..k] else items
  }

  /** It keeps the first k, or all if there are fewer; a negative k leaves off as many from the end. */
  lemma CutKeeps<T>(items: seq<T>, k: int)
    ensures Cut(items, k) <= items
    ensures 0 <= k ==> |Cut(items, k)| == if k < |items| then k else |items|
    ensures k < 0 ==> |Cut(items, k)| == if |items| + k < 0 then 0 else |items| + k
  {
  }

  /** The gain of the first n positions. */
  function Gain(relevant: map<Item, real>, items: seq<Item>, n: nat): real {
    if n == 0 then 0.0 else Gain(relevant, items, n - 1) + RelAt(relevant, items, n - 1)
  }

  /** The discounted gain of the first n positions. */
  function Dcg(disc: nat -> real, relevant: map<Item, real>, items: seq<Item>, n: nat): real {
    if n == 0 then 0.0 else Dcg(disc, relevant, items, n - 1) + RelAt(relevant, items, n - 1) * disc(n - 1)
  }

  /** The metric: discounted gain of the recommendation over that of the ranking, both cut at k. */
  function NdcgOf(disc: nat -> real, recommended: seq<Item>, relevant: map<Item, real>, order: seq<Item>, k: int)
    : real
  {
    var dcg := Dcg(disc, relevant, Cut(recommended, k), |Cut(recommended, k)|);
    var idcg := Dcg(disc, relevant, Cut(order, k), |Cut(order, k)|);
    if 0.0 < idcg then dcg / idcg else 0.0
  }

  // ----- the best first n items beat any n items -----

  /** The sum of a list's relevances. */
  function Total(relevant: map<Item, real>, items: seq<Item>): real {
    if items == [] then 0.0 else Rel(relevant, items[0]) + Total(relevant, items[1..])
  }

  lemma {:induction false} TotalSplits(relevant: map<Item, real>, xs: seq<Item>, ys: seq<Item>)
    ensures Total(relevant, xs + ys) == Total(relevant, xs) + Total(relevant, ys)
  {
    if xs == [] {
      assert xs + ys == ys;
    } else {
      assert (xs + ys)[1..] == xs[1..] + ys;
      TotalSplits(relevant, xs[1..], ys);
    }
  }

  lemma {:induction false} TotalWithout(relevant: map<Item, real>, items: seq<Item>, x: Item)
    requires x !in items
    ensures Total(relevant, items) == Total(relevant - {x}, items)
  {
    if items != [] {
      TotalWithout(relevant, items[1..], x);
    }
  }

  lemma {:induction false} TotalNonNegative(relevant: map<Item, real>, items: seq<Item>)
    requires NonNegative(relevant)
    ensures 0.0 <= Total(relevant, items)
  {
    if items != [] {
      TotalNonNegative(relevant, items[1..]);
    }
  }

  lemma RestOfRanking(relevant: map<Item, real>, order: seq<Item>)
    requires IsRanking(relevant, order) && order != []
    ensures IsRanking(relevant - {order[0]}, order[1..])
  {
    var rest := relevant - {order[0]};
    forall x
      ensures x in rest <==> x in order[1..]
    {
      if x in order[1..] {
        var i :| 1 <= i < |order| && order[i] == x;
      }
    }
  }

  function Shorter(n: nat, items: seq<Item>): seq<Item> {
    if n < |items| then items[..n] else items
  }

  lemma TotalAround(relevant: map<Item, real>, items: seq<Item>, i: nat)
    requires i < |items|
    ensures Total(relevant, items)
         == Total(relevant, items[..i]) + Rel(relevant, items[i]) + Total(relevant, items[i + 1..])
  {
    var tail := items[i..];
    assert items == items[..i] + tail;
    TotalSplits(relevant, items[..i], tail);
    assert tail[0] == items[i] && tail[1..] == items[i + 1..];
  }

  lemma WithoutOne(items: seq<Item>, i: nat)
    requires Distinct(items) && i < |items|
    ensures var rest := items[..i] + items[i + 1..]; Distinct(rest) && items[i] !in rest
  {
    var rest := items[..i] + items[i + 1..];
    assert forall j :: 0 <= j < |rest| ==> rest[j] == if j < i then items[j] else items[j + 1];
  }

  lemma TakeAway(relevant: map<Item, real>, items: seq<Item>, i: nat) returns (rest: seq<Item>)
    requires Distinct(items) && i < |items|
    ensures |rest| == |items| - 1 && Distinct(rest) && items[i] !in rest
    ensures forall x :: x in rest ==> x in items
    ensures Total(relevant, items) == Rel(relevant, items[i]) + Total(relevant, rest)
  {
    rest := items[..i] + items[i + 1..];
    WithoutOne(items, i);
    TotalAround(relevant, items, i);
    TotalSplits(relevant, items[..i], items[i + 1..]);
  }

  lemma AtMostBest(relevant: map<Item, real>, order: seq<Item>, x: Item)
    requires IsRanking(relevant, order) && NonNegative(relevant) && order != []
    ensures Rel(relevant, x) <= relevant[order[0]]
  {
    if x in relevant {
      var j :| 0 <= j < |order| && order[j] == x;
    }
  }

  /** One item of the list, taken out, that is worth no more than the best relevant item. */
  lemma TakeOne(relevant: map<Item, real>, order: seq<Item>, items: seq<Item>) returns (rest: seq<Item>)
    requires IsRanking(relevant, order) && NonNegative(relevant) && Distinct(items)
    requires order != [] && items != []
    ensures |rest| == |items| - 1 && Distinct(rest) && order[0] !in rest
    ensures Total(relevant, items) <= relevant[order[0]] + Total(relevant, rest)
  {
    var i: nat := 0;
    if order[0] in items {
      i :| i < |items| && items[i] == order[0];
    }
    AtMostBest(relevant, order, items[i]);
    rest := TakeAway(relevant, items, i);
  }

  lemma {:induction false} BestFirst(relevant: map<Item, real>, order: seq<Item>, items: seq<Item>)
    requires IsRanking(relevant, order) && NonNegative(relevant) && Distinct(items)
    decreases |order|
    ensures Total(relevant, items) <= Total(relevant, Shorter(|items|, order))
  {
    if order == [] {
      NothingRelevant(relevant, items);
    } else if items != [] {
      var best := order[0];
      var rest := TakeOne(relevant, order, items);
      RestOfRanking(relevant, order);
      BestFirst(relevant - {best}, order[1..], rest);
      PutBestBack(relevant, order, rest);
    }
  }

  lemma ShorterSplits(n: nat, items: seq<Item>)
    requires items != []
    ensures Shorter(n + 1, items) == [items[0]] + Shorter(n, items[1..])
  {
    if n + 1 < |items| {
      assert items[..n + 1] == [items[0]] + items[1..][..n];
    } else {
      assert items == [items[0]] + items[1..];
    }
  }

  lemma TotalOfOne(relevant: map<Item, real>, x: Item, rest: seq<Item>)
    ensures Total(relevant, [x] + rest) == Rel(relevant, x) + Total(relevant, rest)
  {
    assert ([x] + rest)[0] == x && ([x] + rest)[1..] == rest;
  }

  lemma AbsentFromShorter(items: seq<Item>, n: nat)
    requires Distinct(items) && items != []
    ensures items[0] !in Shorter(n, items[1..])
  {
    assert forall i :: 0 <= i < |items[1..]| ==> items[1..][i] == items[i + 1] != items[0];
  }

  /** If the rest is beaten without the best item, the whole is beaten with it. */
  lemma PutBestBack(relevant: map<Item, real>, order: seq<Item>, rest: seq<Item>)
    requires order != [] && order[0] in relevant && Distinct(order) && order[0] !in rest
    requires Total(relevant - {order[0]}, rest) <= Total(relevant - {order[0]}, Shorter(|rest|, order[1..]))
    ensures relevant[order[0]] + Total(relevant, rest) <= Total(relevant, Shorter(|rest| + 1, order))
  {
    var best, tail := order[0], Shorter(|rest|, order[1..]);
    AbsentFromShorter(order, |rest|);
    TotalWithout(relevant, rest, best);
    TotalWithout(relevant, tail, best);
    ShorterSplits(|rest|, order);
    TotalOfOne(relevant, best, tail);
  }

  lemma {:induction false} NothingRelevant(relevant: map<Item, real>, items: seq<Item>)
    requires forall x :: x !in relevant
    ensures Total(relevant, items) == 0.0
  {
    if items != [] {
      NothingRelevant(relevant, items[1..]);
    }
  }

  lemma {:induction false} GainIsTotal(relevant: map<Item, real>, items: seq<Item>, n: nat)
    ensures Gain(relevant, items, n) == Total(relevant, Shorter(n, items))
  {
    if n == 0 {
      assert Shorter(0, items) == [];
    } else {
      GainIsTotal(relevant, items, n - 1);
      if n <= |items| {
        assert Shorter(n, items) == Shorter(n - 1, items) + [items[n - 1]];
        TotalSplits(relevant, Shorter(n - 1, items), [items[n - 1]]);
      }
    }
  }

  /** For every n, no n distinct items gain more than the first n of the ranking. */
  lemma RankingGainsMost(relevant: map<Item, real>, order: seq<Item>, items: seq<Item>, n: nat)
    requires IsRanking(relevant, order) && NonNegative(relevant) && Distinct(items) && n <= |items|
    ensures Gain(relevant, items, n) <= Gain(relevant, order, n)
  {
    var chosen := Shorter(n, items);
    assert |chosen| == n && Distinct(chosen);
    BestFirst(relevant, order, chosen);
    GainIsTotal(relevant, items, n);
    GainIsTotal(relevant, order, n);
  }

  lemma {:induction false} MostRelevant(relevant: map<Item, real>) returns (best: Item)
    requires relevant != map[]
    ensures best in relevant && forall x :: x in relevant ==> relevant[x] <= relevant[best]
  {
    var x :| x in relevant;
    var rest := relevant - {x};
    if rest == map[] {
      assert forall y :: y in relevant ==> y == x || y in rest;
      best := x;
    } else {
      best := MostRelevant(rest);
      assert forall y :: y in relevant ==> y == x || y in rest;
      if relevant[best] < relevant[x] {
        best := x;
      }
    }
  }

  /** Every table of relevances has a ranking. */
  lemma {:induction false} RankingExists(relevant: map<Item, real>) returns (order: seq<Item>)
    ensures IsRanking(relevant, order)
  {
    if relevant == map[] {
      return [];
    }
    var best := MostRelevant(relevant);
    var rest := RankingExists(relevant - {best});
    order := [best] + rest;
    assert best !in rest;
  }

  lemma SameGain(relevant: map<Item, real>, xs: seq<Item>, ys: seq<Item>, n: nat)
    requires IsRanking(relevant, xs) && IsRanking(relevant, ys) && NonNegative(relevant)
    requires |xs| == |ys| && n <= |xs|
    ensures Gain(relevant, xs, n) == Gain(relevant, ys, n)
  {
    RankingGainsMost(relevant, xs, ys, n);
    RankingGainsMost(relevant, ys, xs, n);
  }

  lemma SameRelevance(relevant: map<Item, real>, xs: seq<Item>, ys: seq<Item>, n: nat)
    requires IsRanking(relevant, xs) && IsRanking(relevant, ys) && NonNegative(relevant)
    requires |xs| == |ys| && n < |xs|
    ensures RelAt(relevant, xs, n) == RelAt(relevant, ys, n)
  {
    SameGain(relevant, xs, ys, n);
    SameGain(relevant, xs, ys, n + 1);
  }

  lemma {:induction false} DistinctSize(items: seq<Item>, all: set<Item>)
    requires Distinct(items) && forall x :: x in items <==> x in all
    ensures |items| == |all|
  {
    if items != [] {
      var last := |items| - 1;
      assert items == items[..last] + [items[last]];
      DistinctSize(items[..last], all - {items[last]});
    }
  }

  ghost predicate SameRels(relevant: map<Item, real>, xs: seq<Item>, ys: seq<Item>) {
    |xs| == |ys| && forall i: nat :: i < |xs| ==> Rel(relevant, xs[i]) == Rel(relevant, ys[i])
  }

  lemma RankingsAgree(relevant: map<Item, real>, xs: seq<Item>, ys: seq<Item>)
    requires IsRanking(relevant, xs) && IsRanking(relevant, ys) && NonNegative(relevant)
    ensures SameRels(relevant, xs, ys)
  {
    DistinctSize(xs, relevant.Keys);
    DistinctSize(ys, relevant.Keys);
    forall i: nat | i < |xs|
      ensures Rel(relevant, xs[i]) == Rel(relevant, ys[i])
    {
      SameRelevance(relevant, xs, ys, i);
    }
  }

  lemma CutAgrees(relevant: map<Item, real>, xs: seq<Item>, ys: seq<Item>, k: int)
    requires SameRels(relevant, xs, ys)
    ensures SameRels(relevant, Cut(xs, k), Cut(ys, k))
  {
  }

  /** How ties are ranked does not matter to the metric. */
  lemma RankingChoiceIrrelevant(disc: nat -> real, recommended: seq<Item>, relevant: map<Item, real>,
                                xs: seq<Item>, ys: seq<Item>, k: int)
    requires IsRanking(relevant, xs) && IsRanking(relevant, ys) && NonNegative(relevant)
    ensures NdcgOf(disc, recommended, relevant, xs, k) == NdcgOf(disc, recommended, relevant, ys, k)
  {
    RankingsAgree(relevant, xs, ys);
    CutAgrees(relevant, xs, ys, k);
    SameDcg(disc, relevant, Cut(xs, k), Cut(ys, k), |Cut(xs, k)|);
  }

  // ----- discounting -----

  /** By how much list y leads list x in gain, and in discounted gain, over the first n positions. */
  function Lead(relevant: map<Item, real>, xs: seq<Item>, ys: seq<Item>, n: nat): real {
    Gain(relevant, ys, n) - Gain(relevant, xs, n)
  }

  function DiscountedLead(disc: nat -> real, relevant: map<Item, real>, xs: seq<Item>, ys: seq<Item>, n: nat): real {
    Dcg(disc, relevant, ys, n) - Dcg(disc, relevant, xs, n)
  }

  ghost predicate NeverBehind(relevant: map<Item, real>, xs: seq<Item>, ys: seq<Item>, n: nat) {
    forall j: nat :: j <= n ==> Gain(relevant, xs, j) <= Gain(relevant, ys, j)
  }

  lemma Difference(x: real, y: real, d: real)
    ensures (y - x) * d == y * d - x * d
  {
  }

  /** What one position adds to the two leads. */
  lemma LeadStep(disc: nat -> real, relevant: map<Item, real>, xs: seq<Item>, ys: seq<Item>, n: nat)
      returns (step: real)
    requires 0 < n
    ensures Lead(relevant, xs, ys, n) == Lead(relevant, xs, ys, n - 1) + step
    ensures DiscountedLead(disc, relevant, xs, ys, n)
         == DiscountedLead(disc, relevant, xs, ys, n - 1) + step * disc(n - 1)
  {
    var x, y, d := RelAt(relevant, xs, n - 1), RelAt(relevant, ys, n - 1), disc(n - 1);
    assert Gain(relevant, xs, n) == Gain(relevant, xs, n - 1) + x;
    assert Gain(relevant, ys, n) == Gain(relevant, ys, n - 1) + y;
    assert Dcg(disc, relevant, xs, n) == Dcg(disc, relevant, xs, n - 1) + x * d;
    assert Dcg(disc, relevant, ys, n) == Dcg(disc, relevant, ys, n - 1) + y * d;
    step := y - x;
    Difference(x, y, d);
  }

  /** Summation by parts: if list y gains at least as much as list x up to every position, its lead
      survives any decreasing discount. */
  lemma {:induction false} LeadSurvivesDiscount(disc: nat -> real, relevant: map<Item, real>,
                                                xs: seq<Item>, ys: seq<Item>, n: nat)
    requires IsDiscount(disc) && NeverBehind(relevant, xs, ys, n)
    ensures Lead(relevant, xs, ys, n) * disc(n) <= DiscountedLead(disc, relevant, xs, ys, n)
    ensures 0 < n ==> Lead(relevant, xs, ys, n) * disc(n - 1) <= DiscountedLead(disc, relevant, xs, ys, n)
  {
    if n > 0 {
      LeadSurvivesDiscount(disc, relevant, xs, ys, n - 1);
      var step := LeadStep(disc, relevant, xs, ys, n);
      Rescale(Lead(relevant, xs, ys, n - 1), step, disc(n - 1), disc(n));
    }
  }

  lemma Rescale(was: real, step: real, d: real, e: real)
    requires 0.0 <= was + step && e <= d
    ensures (was + step) * d == was * d + step * d
    ensures (was + step) * e <= was * d + step * d
  {
    var now := was + step;
    assert now * e <= now * d;
  }

  lemma ProductNonNegative(x: real, y: real)
    requires 0.0 <= x && 0.0 <= y
    ensures 0.0 <= x * y
  {
  }

  lemma LeaderWins(disc: nat -> real, relevant: map<Item, real>, xs: seq<Item>, ys: seq<Item>, n: nat)
    requires IsDiscount(disc) && NeverBehind(relevant, xs, ys, n)
    ensures Dcg(disc, relevant, xs, n) <= Dcg(disc, relevant, ys, n)
  {
    LeadSurvivesDiscount(disc, relevant, xs, ys, n);
    ProductNonNegative(Lead(relevant, xs, ys, n), disc(n));
  }

  lemma {:induction false} DcgGrows(disc: nat -> real, relevant: map<Item, real>, items: seq<Item>, m: nat, n: nat)
    requires IsDiscount(disc) && NonNegative(relevant) && m <= n
    ensures 0.0 <= Dcg(disc, relevant, items, m) <= Dcg(disc, relevant, items, n)
    ensures |items| <= m ==> Dcg(disc, relevant, items, m) == Dcg(disc, relevant, items, n)
  {
    if 0 < n {
      if m < n {
        DcgGrows(disc, relevant, items, m, n - 1);
      } else {
        DcgGrows(disc, relevant, items, m - 1, n - 1);
      }
      ProductNonNegative(RelAt(relevant, items, n - 1), disc(n - 1));
    }
  }

  lemma {:induction false} DcgPrefix(disc: nat -> real, relevant: map<Item, real>, items: seq<Item>, m: nat, n: nat)
    requires n <= m <= |items|
    ensures Dcg(disc, relevant, items[..m], n) == Dcg(disc, relevant, items, n)
  {
    if n > 0 {
      DcgPrefix(disc, relevant, items, m, n - 1);
    }
  }

  /** Any q best items, with q at least the length of the list or all of them, beat a list of
      distinct items. */
  lemma RankingWins(disc: nat -> real, relevant: map<Item, real>, order: seq<Item>, items: seq<Item>, q: nat)
    requires IsDiscount(disc) && IsRanking(relevant, order) && NonNegative(relevant) && Distinct(items)
    requires q <= |order| && (|items| <= q || q == |order|)
    ensures Dcg(disc, relevant, items, |items|) <= Dcg(disc, relevant, order[..q], q)
  {
    var n := |items|;
    forall j: nat | j <= n
      ensures Gain(relevant, items, j) <= Gain(relevant, order, j)
    {
      RankingGainsMost(relevant, order, items, j);
    }
    LeaderWins(disc, relevant, items, order, n);
    DcgPrefix(disc, relevant, order, q, q);
    if n <= q {
      DcgGrows(disc, relevant, order, n, q);
    } else {
      DcgGrows(disc, relevant, order, q, n);
    }
  }

  // ----- the metric -----

  /** Sizes for which the cut keeps no more recommendations than ideal items, unless it keeps every
      ideal item or none. */
  predicate FairCut(recommended: nat, relevant: nat, k: int) {
    0 <= k || recommended <= relevant || relevant + k <= 0
  }

  /** If the recommendations that the cut keeps are distinct, for non-negative relevances and any fair
      cut, the metric lies between 0 and 1. */
  lemma NdcgInUnitInterval(disc: nat -> real, recommended: seq<Item>, relevant: map<Item, real>,
                           order: seq<Item>, k: int)
    requires IsDiscount(disc) && IsRanking(relevant, order) && NonNegative(relevant)
    requires Distinct(Cut(recommended, k)) && FairCut(|recommended|, |order|, k)
    ensures 0.0 <= NdcgOf(disc, recommended, relevant, order, k) <= 1.0
  {
    var items, ideal := Cut(recommended, k), Cut(order, k);
    var dcg, idcg := Dcg(disc, relevant, items, |items|), Dcg(disc, relevant, ideal, |ideal|);
    DcgGrows(disc, relevant, items, 0, |items|);
    if 0.0 < idcg {
      assert ideal == order[..|ideal|];
      RankingWins(disc, relevant, order, items, |ideal|);
      Quotient(dcg, idcg);
    }
  }

  lemma Quotient(x: real, y: real)
    requires 0.0 <= x <= y && 0.0 < y
    ensures 0.0 <= x / y <= 1.0
  {
  }

  function Name(i: nat): string {
    seq(i, (_: nat) => 'a')
  }

  function Names(n: nat): (r: seq<Item>)
    ensures |r| == n && forall i :: 0 <= i < n ==> r[i] == Name(i)
    ensures forall i, j :: 0 <= i < j < n ==> r[i] != r[j]
  {
    assert forall i: nat :: |Name(i)| == i;
    seq(n, (i: nat) => Name(i))
  }

  function AllRelevant(n: nat): map<Item, real> {
    map x | x in Names(n) :: 1.0
  }

  lemma NameRelevance(n: nat, i: nat)
    ensures Rel(AllRelevant(n), Name(i)) == if i < n then 1.0 else 0.0
  {
    if i < n {
      assert Names(n)[i] == Name(i);
    } else {
      forall j | 0 <= j < n
        ensures Names(n)[j] != Name(i)
      {
        assert |Name(j)| == j && |Name(i)| == i;
      }
    }
  }

  /** The fairness of the cut is needed: for all other sizes some inputs score above 1. */
  lemma UnfairCutExceedsOne(disc: nat -> real, recommended: nat, relevant: nat, k: int)
    requires IsDiscount(disc) && !FairCut(recommended, relevant, k)
    ensures Distinct(Names(recommended)) && NonNegative(AllRelevant(relevant))
    ensures IsRanking(AllRelevant(relevant), Names(relevant))
    ensures 1.0 < NdcgOf(disc, Names(recommended), AllRelevant(relevant), Names(relevant), k)
  {
    var rel := AllRelevant(relevant);
    var items, ideal := Cut(Names(recommended), k), Cut(Names(relevant), k);
    var p, q := |items|, |ideal|;
    assert 0 < q < p && q < relevant;
    forall i: nat | i < p
      ensures RelAt(rel, items, i) == if i < relevant then 1.0 else 0.0
    {
      NameRelevance(relevant, i);
    }
    forall i: nat | i < q
      ensures RelAt(rel, ideal, i) == 1.0
    {
      NameRelevance(relevant, i);
    }
    LongerWins(disc, rel, items, ideal);
  }

  /** Of two lists of items of relevance 1, more of them at the front score more. */
  lemma LongerWins(disc: nat -> real, relevant: map<Item, real>, items: seq<Item>, ideal: seq<Item>)
    requires IsDiscount(disc) && NonNegative(relevant) && 0 < |ideal| < |items|
    requires forall i: nat :: i < |ideal| ==> RelAt(relevant, ideal, i) == 1.0
    requires forall i: nat :: i <= |ideal| ==> RelAt(relevant, items, i) == 1.0
    ensures 0.0 < Dcg(disc, relevant, ideal, |ideal|)
    ensures 1.0 < Dcg(disc, relevant, items, |items|) / Dcg(disc, relevant, ideal, |ideal|)
  {
    var p, q := |items|, |ideal|;
    SameDcg(disc, relevant, items, ideal, q);
    FirstScores(disc, relevant, ideal);
    DcgGrows(disc, relevant, items, q + 1, p);
    var r, d := RelAt(relevant, items, q), disc(q);
    assert Dcg(disc, relevant, items, q + 1) == Dcg(disc, relevant, items, q) + r * d;
    assert r * d == d;
    Above(Dcg(disc, relevant, items, p), Dcg(disc, relevant, ideal, q));
  }

  lemma FirstScores(disc: nat -> real, relevant: map<Item, real>, items: seq<Item>)
    requires IsDiscount(disc) && NonNegative(relevant) && items != [] && RelAt(relevant, items, 0) == 1.0
    ensures 0.0 < disc(0) <= Dcg(disc, relevant, items, |items|)
    ensures |items| == 1 ==> Dcg(disc, relevant, items, 1) == disc(0)
  {
    var r, d := RelAt(relevant, items, 0), disc(0);
    assert Dcg(disc, relevant, items, 1) == Dcg(disc, relevant, items, 0) + r * d;
    assert r * d == d;
    DcgGrows(disc, relevant, items, 1, |items|);
  }

  lemma {:induction false} SameDcg(disc: nat -> real, relevant: map<Item, real>, xs: seq<Item>, ys: seq<Item>, n: nat)
    requires forall i: nat :: i < n ==> RelAt(relevant, xs, i) == RelAt(relevant, ys, i)
    ensures Dcg(disc, relevant, xs, n) == Dcg(disc, relevant, ys, n)
  {
    if n > 0 {
      SameDcg(disc, relevant, xs, ys, n - 1);
    }
  }

  lemma Above(x: real, y: real)
    requires 0.0 < y < x
    ensures 1.0 < x / y
  {
  }

  // ----- when the metric is bounded by 1 -----

  function Members(items: seq<Item>): set<Item> {
    set x | x in items
  }

  /** A list has as many members as positions exactly when no item is repeated. */
  lemma {:induction false} MembersCount(items: seq<Item>)
    ensures |Members(items)| <= |items|
    ensures |Members(items)| == |items| <==> Distinct(items)
  {
    if items != [] {
      var rest, last := items[..|items| - 1], items[|items| - 1];
      MembersCount(rest);
      assert items == rest + [last];
      assert Members(items) == Members(rest) + {last};
      if last in rest {
        var i :| 0 <= i < |rest| && rest[i] == last;
        assert items[i] == items[|items| - 1];
      } else {
        assert Distinct(items) <==> Distinct(rest);
      }
    }
  }

  /** Every item of a set is relevant to degree 1. */
  function Ones(items: set<Item>): map<Item, real> {
    map x | x in items :: 1.0
  }

  lemma {:induction false} LongItem(items: set<Item>) returns (x: Item)
    ensures forall y :: y in items ==> |y| < |x|
  {
    if items == {} {
      x := "";
    } else {
      var y :| y in items;
      x := LongItem(items - {y});
      x := x + y + "a";
      forall z | z in items
        ensures |z| < |x|
      {
        assert z == y || z in items - {y};
      }
    }
  }

  /** There are enough items to make a set as large as wanted. */
  lemma {:induction false} Enlarge(items: set<Item>, n: nat) returns (more: set<Item>)
    requires |items| <= n
    ensures items <= more && |more| == n
    decreases n - |items|
  {
    if |items| == n {
      more := items;
    } else {
      var x := LongItem(items);
      assert x !in items;
      more := Enlarge(items + {x}, n);
    }
  }

  /** The metric is at most 1 whatever is relevant. */
  ghost predicate AlwaysAtMostOne(disc: nat -> real, recommended: seq<Item>, k: int) {
    forall relevant: map<Item, real>, order: seq<Item> :: IsRanking(relevant, order) && NonNegative(relevant) ==>
      NdcgOf(disc, recommended, relevant, order, k) <= 1.0
  }

  /** A cutoff that is not negative keeps no repeated item; a negative one keeps at most one item. */
  ghost predicate SafeCut(recommended: seq<Item>, k: int) {
    if 0 <= k then Distinct(Cut(recommended, k)) else |Cut(recommended, k)| <= 1
  }

  lemma RepeatScoresAboveOne(disc: nat -> real, recommended: seq<Item>, k: int)
      returns (relevant: map<Item, real>, order: seq<Item>)
    requires IsDiscount(disc) && 0 <= k && !Distinct(Cut(recommended, k))
    ensures IsRanking(relevant, order) && NonNegative(relevant)
    ensures 1.0 < NdcgOf(disc, recommended, relevant, order, k)
  {
    var items := Cut(recommended, k);
    relevant := Ones(Members(items));
    order := RankingExists(relevant);
    DistinctSize(order, relevant.Keys);
    assert relevant.Keys == Members(items);
    MembersCount(items);
    assert items[0] in Members(items);
    assert Cut(order, k) == order;
    assert forall x :: x in items ==> Rel(relevant, x) == 1.0;
    LongerWins(disc, relevant, items, order);
  }

  lemma NegativeCutScoresAboveOne(disc: nat -> real, recommended: seq<Item>, k: int)
      returns (relevant: map<Item, real>, order: seq<Item>)
    requires IsDiscount(disc) && k < 0 && 1 < |Cut(recommended, k)|
    ensures IsRanking(relevant, order) && NonNegative(relevant)
    ensures 1.0 < NdcgOf(disc, recommended, relevant, order, k)
  {
    var items := Cut(recommended, k);
    var all := Enlarge({items[0], items[1]}, 1 - k);
    relevant := Ones(all);
    order := RankingExists(relevant);
    DistinctSize(order, relevant.Keys);
    assert relevant.Keys == all;
    assert |Cut(order, k)| == 1;
    assert forall x :: x in all ==> Rel(relevant, x) == 1.0;
    LongerWins(disc, relevant, items, Cut(order, k));
  }

  /** The metric stays at most 1, whatever is relevant, exactly for safe cuts: for a cutoff that is not
      negative, exactly when no item is recommended twice within it. */
  lemma NdcgAtMostOneIff(disc: nat -> real, recommended: seq<Item>, k: int)
    requires IsDiscount(disc)
    ensures AlwaysAtMostOne(disc, recommended, k) <==> SafeCut(recommended, k)
  {
    if SafeCut(recommended, k) {
      forall relevant: map<Item, real>, order: seq<Item> | IsRanking(relevant, order) && NonNegative(relevant)
        ensures NdcgOf(disc, recommended, relevant, order, k) <= 1.0
      {
        assert FairCut(|recommended|, |order|, k);
        NdcgInUnitInterval(disc, recommended, relevant, order, k);
      }
    } else if 0 <= k {
      var relevant, order := RepeatScoresAboveOne(disc, recommended, k);
    } else {
      var relevant, order := NegativeCutScoresAboveOne(disc, recommended, k);
    }
  }

  // ----- when the metric is 1 -----

  ghost predicate IsStrict(disc: nat -> real) {
    IsDiscount(disc) && forall i: nat :: disc(i + 1) < disc(i)
  }

  lemma ProductPositive(x: real, y: real)
    requires 0.0 < x && 0.0 < y
    ensures 0.0 < x * y
  {
  }

  lemma ProductTie(lead: real, d: real, e: real)
    requires 0.0 <= lead && e < d && lead * d <= lead * e
    ensures lead == 0.0
  {
    assert lead * (d - e) == lead * d - lead * e;
    if 0.0 < lead {
      ProductPositive(lead, d - e);
    }
  }

  /** If a tie stands after a step, it stood before it. */
  lemma TieBefore(was: real, step: real, ahead: real, d: real, e: real)
    requires 0.0 <= was && d < e
    requires ahead + step * d <= (was + step) * d && was * e <= ahead
    ensures was == 0.0 && ahead <= 0.0
  {
    assert (was + step) * d == was * d + step * d;
    ProductTie(was, e, d);
  }

  /** A strict discount leaves a tie only if there never was a lead. */
  lemma {:induction false} TieMeansNoLead(disc: nat -> real, relevant: map<Item, real>,
                                          xs: seq<Item>, ys: seq<Item>, n: nat, j: nat)
    requires IsStrict(disc) && NeverBehind(relevant, xs, ys, n) && j < n
    requires DiscountedLead(disc, relevant, xs, ys, n) <= Lead(relevant, xs, ys, n) * disc(n - 1)
    ensures Lead(relevant, xs, ys, j) == 0.0
  {
    if 0 < j {
      var step := LeadStep(disc, relevant, xs, ys, n);
      LeadSurvivesDiscount(disc, relevant, xs, ys, n - 1);
      var d, e := disc(n - 1), disc(n - 2);
      assert disc(n - 2 + 1) < disc(n - 2);
      var was, ahead := Lead(relevant, xs, ys, n - 1), DiscountedLead(disc, relevant, xs, ys, n - 1);
      assert was * e <= ahead;
      TieBefore(was, step, ahead, d, e);
      if j < n - 1 {
        TieMeansNoLead(disc, relevant, xs, ys, n - 1, j);
      }
    }
  }

  lemma TieMeansSame(disc: nat -> real, relevant: map<Item, real>, xs: seq<Item>, ys: seq<Item>, n: nat, i: nat)
    requires IsStrict(disc) && NeverBehind(relevant, xs, ys, n) && i < n
    requires Dcg(disc, relevant, xs, n) == Dcg(disc, relevant, ys, n)
    ensures RelAt(relevant, xs, i) == RelAt(relevant, ys, i)
  {
    LeadSurvivesDiscount(disc, relevant, xs, ys, n);
    var lead := Lead(relevant, xs, ys, n);
    ProductTie(lead, disc(n), 0.0);
    forall j | j == i || j == i + 1
      ensures Lead(relevant, xs, ys, j) == 0.0
    {
      if j < n {
        TieMeansNoLead(disc, relevant, xs, ys, n, j);
      }
    }
    assert Lead(relevant, xs, ys, i) == Lead(relevant, xs, ys, i + 1) == 0.0;
    assert Gain(relevant, xs, i + 1) == Gain(relevant, xs, i) + RelAt(relevant, xs, i);
    assert Gain(relevant, ys, i + 1) == Gain(relevant, ys, i) + RelAt(relevant, ys, i);
  }

  lemma {:induction false} GainGrows(relevant: map<Item, real>, items: seq<Item>, m: nat, n: nat)
    requires NonNegative(relevant) && m <= n
    ensures Gain(relevant, items, m) <= Gain(relevant, items, n)
    ensures |items| <= m ==> Gain(relevant, items, m) == Gain(relevant, items, n)
  {
    if m < n {
      GainGrows(relevant, items, m, n - 1);
    }
  }

  lemma {:induction false} GainPrefix(relevant: map<Item, real>, items: seq<Item>, m: nat, n: nat)
    requires n <= m <= |items|
    ensures Gain(relevant, items[..m], n) == Gain(relevant, items, n)
  {
    if n > 0 {
      GainPrefix(relevant, items, m, n - 1);
    }
  }

  /** The first q of the ranking are never behind a list that is no longer, or if they are all of it,
      behind any list. */
  lemma IdealNeverBehind(relevant: map<Item, real>, order: seq<Item>, items: seq<Item>, q: nat, n: nat)
    requires IsRanking(relevant, order) && NonNegative(relevant) && Distinct(items)
    requires q <= |order| && (|items| <= q || q == |order|)
    ensures NeverBehind(relevant, items, order[..q], n)
  {
    var ideal := order[..q];
    forall j: nat | j <= n
      ensures Gain(relevant, items, j) <= Gain(relevant, ideal, j)
    {
      var i := if j <= |items| then j else |items|;
      GainGrows(relevant, items, i, j);
      RankingGainsMost(relevant, order, items, i);
      if i <= q {
        GainPrefix(relevant, order, q, i);
        GainGrows(relevant, ideal, i, j);
      } else {
        assert ideal == order;
        GainGrows(relevant, ideal, i, j);
      }
    }
  }

  /** The same relevance at every position. */
  ghost predicate SameProfile(relevant: map<Item, real>, xs: seq<Item>, ys: seq<Item>) {
    forall i: nat :: RelAt(relevant, xs, i) == RelAt(relevant, ys, i)
  }

  lemma RatioIsOne(x: real, y: real)
    requires 0.0 < y
    ensures x / y == 1.0 <==> x == y
  {
    assert x / y * y == x;
  }

  /** For a strict discount such as the logarithmic one, the metric is 1 exactly when the cut
      recommendation has the relevances of the cut ranking, position by position. */
  lemma PerfectScoreIff(disc: nat -> real, recommended: seq<Item>, relevant: map<Item, real>,
                        order: seq<Item>, k: int)
    requires IsStrict(disc) && IsRanking(relevant, order) && NonNegative(relevant)
    requires Distinct(Cut(recommended, k)) && FairCut(|recommended|, |order|, k)
    requires 0.0 < Dcg(disc, relevant, Cut(order, k), |Cut(order, k)|)
    ensures NdcgOf(disc, recommended, relevant, order, k) == 1.0
       <==> SameProfile(relevant, Cut(recommended, k), Cut(order, k))
  {
    var items, ideal := Cut(recommended, k), Cut(order, k);
    var n := if |items| <= |ideal| then |ideal| else |items|;
    DcgGrows(disc, relevant, items, |items|, n);
    DcgGrows(disc, relevant, ideal, |ideal|, n);
    RatioIsOne(Dcg(disc, relevant, items, |items|), Dcg(disc, relevant, ideal, |ideal|));
    if Dcg(disc, relevant, items, n) == Dcg(disc, relevant, ideal, n) {
      assert ideal == order[..|ideal|];
      IdealNeverBehind(relevant, order, items, |ideal|, n);
      forall i: nat
        ensures RelAt(relevant, items, i) == RelAt(relevant, ideal, i)
      {
        if i < n {
          TieMeansSame(disc, relevant, items, ideal, n, i);
        }
      }
    }
    if SameProfile(relevant, items, ideal) {
      SameDcg(disc, relevant, items, ideal, n);
    }
  }

  // ----- what the metric measures -----

  lemma Distribute(a: real, b: real, d: real)
    ensures (a + b) * d == a * d + b * d
  {
  }

  /** Discounted gain is linear in the relevances. */
  lemma {:induction false} DcgAdds(disc: nat -> real, r: map<Item, real>, s: map<Item, real>, both: map<Item, real>,
                                   items: seq<Item>, n: nat)
    requires forall x :: Rel(both, x) == Rel(r, x) + Rel(s, x)
    ensures Dcg(disc, both, items, n) == Dcg(disc, r, items, n) + Dcg(disc, s, items, n)
  {
    if 0 < n {
      DcgAdds(disc, r, s, both, items, n - 1);
      Distribute(RelAt(r, items, n - 1), RelAt(s, items, n - 1), disc(n - 1));
    }
  }

  /** One relevant item gains its relevance times the discount of its place. */
  lemma {:induction false} DcgOfOne(disc: nat -> real, x: Item, w: real, items: seq<Item>, i: nat, n: nat)
    requires Distinct(items) && i < |items| && items[i] == x
    ensures Dcg(disc, map[x := w], items, n) == if i < n then w * disc(i) else 0.0
  {
    if 0 < n {
      DcgOfOne(disc, x, w, items, i, n - 1);
    }
  }

  lemma Cancel(w: real, d: real, e: real, x: real, y: real)
    requires 0.0 < w && 0.0 < e && x == w * d && y == w * e
    ensures 0.0 < y && x / y == d / e
  {
    var q := d / e;
    assert q * e == d;
    assert y * q == x;
    assert (y * q) / y == q;
  }

  /** The metric in terms of its two sums. */
  lemma NdcgFrom(disc: nat -> real, recommended: seq<Item>, relevant: map<Item, real>, order: seq<Item>, k: int,
                 dcg: real, idcg: real)
    requires dcg == Dcg(disc, relevant, Cut(recommended, k), |Cut(recommended, k)|)
    requires idcg == Dcg(disc, relevant, Cut(order, k), |Cut(order, k)|)
    ensures NdcgOf(disc, recommended, relevant, order, k) == if 0.0 < idcg then dcg / idcg else 0.0
  {
  }

  /** With one relevant item the metric is the discount of its place over that of the first. */
  lemma NdcgOfOne(disc: nat -> real, recommended: seq<Item>, x: Item, w: real, i: nat, k: int)
    requires IsDiscount(disc) && 0.0 < w && 1 <= k
    requires Distinct(Cut(recommended, k)) && i < |Cut(recommended, k)| && Cut(recommended, k)[i] == x
    ensures NdcgOf(disc, recommended, map[x := w], [x], k) == disc(i) / disc(0)
  {
    var items := Cut(recommended, k);
    assert Cut([x], k) == [x];
    var dcg, idcg := Dcg(disc, map[x := w], items, |items|), Dcg(disc, map[x := w], [x], 1);
    DcgOfOne(disc, x, w, items, i, |items|);
    DcgOfOne(disc, x, w, [x], 0, 1);
    Cancel(w, disc(i), disc(0), dcg, idcg);
    NdcgFrom(disc, recommended, map[x := w], [x], k, dcg, idcg);
  }

  lemma Portion(x: real, y: real)
    requires 0.0 < y
    ensures (x / y) * y == x
  {
  }

  /** No list of as many distinct items gains more than the ideal one. */
  lemma IdealIsBest(disc: nat -> real, relevant: map<Item, real>, order: seq<Item>, k: int, other: seq<Item>)
    requires IsDiscount(disc) && IsRanking(relevant, order) && NonNegative(relevant)
    requires Distinct(other) && |other| <= |Cut(order, k)|
    ensures Dcg(disc, relevant, other, |other|) <= Dcg(disc, relevant, Cut(order, k), |Cut(order, k)|)
    ensures 0.0 <= Dcg(disc, relevant, Cut(order, k), |Cut(order, k)|)
  {
    var ideal := Cut(order, k);
    assert ideal == order[..|ideal|];
    RankingWins(disc, relevant, order, other, |ideal|);
    DcgGrows(disc, relevant, ideal, 0, |ideal|);
  }

  /** In general the metric is the share of that best gain which the recommendation reaches. */
  lemma NdcgIsShareOfBest(disc: nat -> real, recommended: seq<Item>, relevant: map<Item, real>, order: seq<Item>,
                          k: int, ndcg: real, dcg: real, best: real)
    requires ndcg == NdcgOf(disc, recommended, relevant, order, k)
    requires dcg == Dcg(disc, relevant, Cut(recommended, k), |Cut(recommended, k)|)
    requires best == Dcg(disc, relevant, Cut(order, k), |Cut(order, k)|)
    ensures if 0.0 < best then ndcg * best == dcg else ndcg == 0.0
  {
    NdcgFrom(disc, recommended, relevant, order, k, dcg, best);
    if 0.0 < best {
      Portion(dcg, best);
    }
  }

  lemma {:induction false} DcgZeroIff(disc: nat -> real, relevant: map<Item, real>, items: seq<Item>, n: nat)
    requires IsDiscount(disc) && NonNegative(relevant) && n <= |items|
    ensures 0.0 <= Dcg(disc, relevant, items, n)
    ensures Dcg(disc, relevant, items, n) == 0.0 <==> forall i :: 0 <= i < n ==> Rel(relevant, items[i]) == 0.0
  {
    if 0 < n {
      DcgZeroIff(disc, relevant, items, n - 1);
      ZeroFactor(Rel(relevant, items[n - 1]), disc(n - 1));
    }
  }

  lemma ZeroFactor(x: real, d: real)
    requires 0.0 <= x && 0.0 < d
    ensures 0.0 <= x * d && (x * d == 0.0 <==> x == 0.0)
  {
  }

  /** It is 0 exactly when nothing within the cut is relevant, in the recommendation or at all. */
  lemma NdcgZeroIff(disc: nat -> real, recommended: seq<Item>, relevant: map<Item, real>, order: seq<Item>, k: int)
    requires IsDiscount(disc) && IsRanking(relevant, order) && NonNegative(relevant)
    ensures NdcgOf(disc, recommended, relevant, order, k) == 0.0 <==>
      (forall i :: 0 <= i < |Cut(recommended, k)| ==> Rel(relevant, Cut(recommended, k)[i]) == 0.0)
      || (forall i :: 0 <= i < |Cut(order, k)| ==> Rel(relevant, Cut(order, k)[i]) == 0.0)
  {
    var items, ideal := Cut(recommended, k), Cut(order, k);
    DcgZeroIff(disc, relevant, items, |items|);
    DcgZeroIff(disc, relevant, ideal, |ideal|);
    var dcg, idcg := Dcg(disc, relevant, items, |items|), Dcg(disc, relevant, ideal, |ideal|);
    NdcgFrom(disc, recommended, relevant, order, k, dcg, idcg);
    if 0.0 < idcg {
      Portion(dcg, idcg);
    }
  }

  // ----- the loops -----

  method DiscountedGain(disc: nat -> real, relevant: map<Item, real>, items: seq<Item>) returns (r: real)
    ensures r == Dcg(disc, relevant, items, |items|)
  {
    r := 0.0;
    for i := 0 to |items|
      invariant r == Dcg(disc, relevant, items, i)
    {
      var rel := if items[i] in relevant then relevant[items[i]] else 0.0;
      r := r + rel * disc(i);
    }
  }

  method NdcgAtK(disc: nat -> real, recommended: seq<Item>, relevant: map<Item, real>, order: seq<Item>, k: int)
      returns (r: real)
    requires IsRanking(relevant, order)
    ensures r == NdcgOf(disc, recommended, relevant, order, k)
  {
    var dcg := DiscountedGain(disc, relevant, Cut(recommended, k));
    var idcg := DiscountedGain(disc, relevant, Cut(order, k));
    r := if 0.0 < idcg then dcg / idcg else 0.0;
  }
}
