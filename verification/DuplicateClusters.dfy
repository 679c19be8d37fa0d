/**
 Duplicate clusters (data_platform/resolution/__init__.py, find_duplicate_clusters).

 Every record joins the first cluster whose first record it matches, or starts its own.
 */
module DuplicateClusters {
  import opened FighterMatching
  import opened Positions

  /** A cluster as the positions of its records. */
  type Cluster = seq<nat>

  /** Says whether the first record matches the second. */
  type Matcher = (nat, nat) -> bool

  function Similar(t: Text, entities: seq<Fighter>, threshold: real): Matcher {
    (i: nat, j: nat) => i < |entities| && j < |entities| && CompareFighters(t, entities[i], entities[j]) >= threshold
  }

  ghost predicate IsCluster(cluster: Cluster, n: nat) {
    && cluster != []
    && (forall p :: 0 <= p < |cluster| ==> cluster[p] < n)
    && Increasing(cluster)
  }

  ghost predicate AreClusters(clusters: seq<Cluster>, n: nat) {
    forall c :: 0 <= c < |clusters| ==> IsCluster(clusters[c], n)
  }

  /** No record is in two clusters, and clusters are led in list order. */
  ghost predicate Apart(clusters: seq<Cluster>) {
    && (forall c, d, x :: 0 <= c < d < |clusters| && x in clusters[c] ==> x !in clusters[d])
    && (forall c, d :: 0 <= c < d < |clusters| && clusters[c] != [] && clusters[d] != [] ==>
          clusters[c][0] < clusters[d][0])
  }

  ghost predicate Covered(clusters: seq<Cluster>, x: nat) {
    exists c :: 0 <= c < |clusters| && x in clusters[c]
  }

  /** Every member matches the first record of its cluster. */
  ghost predicate MembersFit(fits: Matcher, cluster: Cluster) {
    forall p :: 0 < p < |cluster| ==> fits(cluster[0], cluster[p])
  }

  /** No record of a later cluster matches the first record of an earlier one. */
  ghost predicate FirstFit(fits: Matcher, clusters: seq<Cluster>) {
    forall c, d, x :: 0 <= c < d < |clusters| && clusters[c] != [] && x in clusters[d] ==>
      !fits(clusters[c][0], x)
  }

  ghost predicate Fits(n: nat, fits: Matcher, clusters: seq<Cluster>) {
    && AreClusters(clusters, n) && Apart(clusters)
    && (forall c :: 0 <= c < |clusters| ==> MembersFit(fits, clusters[c]))
    && FirstFit(fits, clusters)
  }

  /** The clusters of a list of records: a partition by first fit. */
  ghost predicate IsClustering(n: nat, fits: Matcher, clusters: seq<Cluster>) {
    && Fits(n, fits, clusters)
    && forall x: nat :: x < n ==> Covered(clusters, x)
  }

  function Records(cluster: Cluster): set<nat> {
    set x | x in cluster
  }

  /** Nothing left over matches the first record of the cluster. */
  ghost predicate Closed(fits: Matcher, cluster: Cluster, taken: set<nat>, upTo: nat) {
    cluster != [] && forall x: nat :: x < upTo && x !in taken ==> !fits(cluster[0], x)
  }

  lemma AddMember(fits: Matcher, cluster: Cluster, taken: set<nat>, j: nat, n: nat)
    requires IsCluster(cluster, n) && MembersFit(fits, cluster) && Records(cluster) !! taken
    requires j < n && j !in taken && fits(cluster[0], j) && cluster[0] < j
    requires forall p :: 0 < p < |cluster| ==> cluster[p] < j
    ensures IsCluster(cluster + [j], n) && MembersFit(fits, cluster + [j])
    ensures Records(cluster + [j]) == Records(cluster) + {j}
  {
    assert cluster + [j] == cluster + [j];
  }

  /** Grows one cluster from its first record over everything not yet taken. */
  method GrowCluster(n: nat, fits: Matcher, i: nat, taken: set<nat>) returns (cluster: Cluster, now: set<nat>)
    requires i < n && i !in taken
    requires forall x: nat :: x < i ==> x in taken
    ensures IsCluster(cluster, n) && cluster[0] == i && MembersFit(fits, cluster)
    ensures Records(cluster) !! taken && now == taken + Records(cluster)
    ensures Closed(fits, cluster, now, n)
  {
    cluster, now := [i], taken + {i};
    for j := 0 to n
      invariant IsCluster(cluster, n) && cluster[0] == i
      invariant forall p :: 0 < p < |cluster| ==> cluster[p] < j
      invariant MembersFit(fits, cluster)
      invariant Records(cluster) !! taken && now == taken + Records(cluster)
      invariant Closed(fits, cluster, now, j)
    {
      if j !in now && i != j && fits(i, j) {
        AddMember(fits, cluster, taken, j, n);
        cluster := cluster + [j];
        now := now + {j};
      }
    }
  }

  /** What holds before record i is looked at. */
  ghost predicate Underway(n: nat, fits: Matcher, clusters: seq<Cluster>,
                           taken: set<nat>, i: nat) {
    && Fits(n, fits, clusters)
    && (forall x :: x in taken <==> Covered(clusters, x))
    && (forall x: nat :: x < i ==> x in taken)
    && (forall c :: 0 <= c < |clusters| ==>
          Closed(fits, clusters[c], taken, n) && clusters[c][0] < i)
  }

  lemma AddCluster(clusters: seq<Cluster>, cluster: Cluster, x: nat)
    ensures Covered(clusters + [cluster], x) <==> Covered(clusters, x) || x in cluster
  {
    var more := clusters + [cluster];
    if Covered(clusters, x) {
      var c :| 0 <= c < |clusters| && x in clusters[c];
      assert x in more[c];
    }
    if x in cluster {
      assert x in more[|clusters|];
    }
  }

  lemma ClusterFits(n: nat, fits: Matcher, clusters: seq<Cluster>,
                    taken: set<nat>, i: nat, cluster: Cluster)
    requires Underway(n, fits, clusters, taken, i) && i !in taken
    requires IsCluster(cluster, n) && cluster[0] == i && MembersFit(fits, cluster)
    requires Records(cluster) !! taken
    ensures Fits(n, fits, clusters + [cluster])
  {
    var more, last := clusters + [cluster], |clusters|;
    forall c, x | 0 <= c < last && x in cluster
      ensures x !in clusters[c] && !fits(clusters[c][0], x)
    {
      assert x in Records(cluster);
      assert !Covered(clusters, x);
      assert Closed(fits, clusters[c], taken, n);
    }
    assert Apart(more);
    assert FirstFit(fits, more);
  }

  lemma ClusterDone(n: nat, fits: Matcher, clusters: seq<Cluster>,
                    taken: set<nat>, i: nat, cluster: Cluster, now: set<nat>)
    requires Underway(n, fits, clusters, taken, i) && i !in taken
    requires IsCluster(cluster, n) && cluster[0] == i && MembersFit(fits, cluster)
    requires Records(cluster) !! taken && now == taken + Records(cluster)
    requires Closed(fits, cluster, now, n)
    ensures Underway(n, fits, clusters + [cluster], now, i + 1)
  {
    ClusterFits(n, fits, clusters, taken, i, cluster);
    forall x
      ensures x in now <==> Covered(clusters + [cluster], x)
    {
      AddCluster(clusters, cluster, x);
    }
    assert cluster[0] in Records(cluster);
    forall c | 0 <= c < |clusters|
      ensures Closed(fits, clusters[c], now, n)
    {
      assert Closed(fits, clusters[c], taken, n);
    }
  }

  method ClusterAll(n: nat, fits: Matcher) returns (clusters: seq<Cluster>)
    ensures IsClustering(n, fits, clusters)
  {
    clusters := [];
    var taken: set<nat> := {};
    for i := 0 to n
      invariant Underway(n, fits, clusters, taken, i)
    {
      if i !in taken {
        var cluster, now := GrowCluster(n, fits, i, taken);
        ClusterDone(n, fits, clusters, taken, i, cluster, now);
        clusters, taken := clusters + [cluster], now;
      }
    }
  }

  method FindDuplicateClusters(t: Text, entities: seq<Fighter>, threshold: real)
      returns (clusters: seq<seq<Fighter>>, at: seq<Cluster>)
    ensures IsClustering(|entities|, Similar(t, entities, threshold), at)
    ensures |clusters| == |at|
    ensures forall c :: 0 <= c < |at| ==> |clusters[c]| == |at[c]|
    ensures forall c, p :: 0 <= c < |at| && 0 <= p < |at[c]| ==> clusters[c][p] == entities[at[c][p]]
  {
    at := ClusterAll(|entities|, Similar(t, entities, threshold));
    clusters := [];
    for c := 0 to |at|
      invariant |clusters| == c
      invariant forall d :: 0 <= d < c ==> |clusters[d]| == |at[d]|
      invariant forall d, p :: 0 <= d < c && 0 <= p < |at[d]| ==> clusters[d][p] == entities[at[d][p]]
    {
      assert IsCluster(at[c], |entities|);
      clusters := clusters + [seq(|at[c]|, p requires 0 <= p < |at[c]| => entities[at[c][p]])];
    }
  }

  /** Two clusters' first records fall below the threshold whichever is compared to the other. */
  lemma LeadersApart(t: Text, entities: seq<Fighter>, threshold: real, at: seq<Cluster>, c: nat, d: nat)
    requires IsClustering(|entities|, Similar(t, entities, threshold), at)
    requires c < |at| && d < |at| && c != d
    ensures IsCluster(at[c], |entities|) && IsCluster(at[d], |entities|)
    ensures CompareFighters(t, entities[at[c][0]], entities[at[d][0]]) < threshold
  {
    var fits, first, second := Similar(t, entities, threshold), at[c][0], at[d][0];
    assert first in at[c] && second in at[d];
    assert !fits(first, second) || !fits(second, first);
    CompareLaws(t, entities[first], entities[second]);
  }

  lemma SameCluster(n: nat, fits: Matcher, xs: seq<Cluster>, ys: seq<Cluster>, c: nat)
    requires IsClustering(n, fits, xs) && IsClustering(n, fits, ys)
    requires c < |xs| && c < |ys| && forall k :: 0 <= k < c ==> xs[k] == ys[k]
    ensures xs[c] == ys[c]
  {
    LeaderBound(n, fits, xs, ys, c);
    LeaderBound(n, fits, ys, xs, c);
    MemberBound(n, fits, xs, ys, c);
    MemberBound(n, fits, ys, xs, c);
    assert IsCluster(xs[c], n) && IsCluster(ys[c], n);
    SameMembers(xs[c], ys[c]);
  }

  lemma {:induction false} SamePrefix(n: nat, fits: Matcher, xs: seq<Cluster>, ys: seq<Cluster>, c: nat)
    requires IsClustering(n, fits, xs) && IsClustering(n, fits, ys) && c <= |xs|
    ensures c <= |ys| && forall k :: 0 <= k < c ==> xs[k] == ys[k]
  {
    if c > 0 {
      SamePrefix(n, fits, xs, ys, c - 1);
      var x := xs[c - 1][0];
      assert x in xs[c - 1] && IsCluster(xs[c - 1], n);
      assert Covered(ys, x);
      SameCluster(n, fits, xs, ys, c - 1);
    }
  }

  /** The specification leaves no choice: the clusters are determined by the records. */
  lemma ClusteringUnique(n: nat, fits: Matcher, xs: seq<Cluster>, ys: seq<Cluster>)
    requires IsClustering(n, fits, xs) && IsClustering(n, fits, ys)
    ensures xs == ys
  {
    SamePrefix(n, fits, xs, ys, |xs|);
    SamePrefix(n, fits, ys, xs, |ys|);
  }

  lemma LeaderBound(n: nat, fits: Matcher, xs: seq<Cluster>, ys: seq<Cluster>, c: nat)
    requires IsClustering(n, fits, xs) && IsClustering(n, fits, ys)
    requires c < |xs| && c < |ys| && forall k :: 0 <= k < c ==> xs[k] == ys[k]
    ensures ys[c][0] <= xs[c][0]
  {
    var x := xs[c][0];
    assert Covered(ys, x);
    var d :| 0 <= d < |ys| && x in ys[d];
    var q :| 0 <= q < |ys[d]| && ys[d][q] == x;
  }

  lemma MemberBound(n: nat, fits: Matcher, xs: seq<Cluster>, ys: seq<Cluster>, c: nat)
    requires IsClustering(n, fits, xs) && IsClustering(n, fits, ys)
    requires c < |xs| && c < |ys| && xs[c][0] == ys[c][0] && forall k :: 0 <= k < c ==> xs[k] == ys[k]
    ensures forall x :: x in xs[c] ==> x in ys[c]
  {
    forall p | 0 < p < |xs[c]|
      ensures xs[c][p] in ys[c]
    {
      var x := xs[c][p];
      assert fits(ys[c][0], x);
      assert Covered(ys, x);
      var d :| 0 <= d < |ys| && x in ys[d];
    }
  }
}
