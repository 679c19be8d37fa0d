/**
 The identity graph (data_platform/identity/__init__.py, IdentityGraph), and the reversal of merges
 built on it (data_platform/resolution/__init__.py, reverse_merge).

 The graph is a two-way index: the source ids of every canonical id, and the canonical id of every
 source id.
 */
module IdentityGraphs {
  import opened Wrappers

  datatype Graph = Graph(sources: map<string, set<string>>, canonical: map<string, string>) {
    function Sources(c: string): set<string> {
      if c in sources then sources[c] else {}
    }

    /** setdefault(c, set()).update(more) */
    function Extend(c: string, more: set<string>): map<string, set<string>> {
      sources[c := Sources(c) + more]
    }

    /** Points every given source id at c. */
    function Point(sids: set<string>, c: string): map<string, string> {
      map s | s in canonical.Keys + sids :: if s in sids then c else canonical[s]
    }
  }

  const EMPTY := Graph(map[], map[])

  function Add(g: Graph, c: string, s: string): Graph {
    Graph(g.Extend(c, {s}), g.canonical[s := c])
  }

  function Merge(g: Graph, a: string, b: string): Graph {
    var absorbed := g.Sources(b);
    Graph(g.(sources := g.sources - {b}).Extend(a, absorbed), g.Point(absorbed, a))
  }

  predicate OccursAt(needle: string, hay: string, i: nat) {
    i + |needle| <= |hay| && hay[i..i + |needle|] == needle
  }

  predicate Occurs(needle: string, hay: string) {
    exists i :: 0 <= i <= |hay| && OccursAt(needle, hay, i)
  }

  /** The id test by which unmerge picks what to move back. */
  predicate Related(s: string, b: string) {
    Occurs(s, b) || Occurs(b, s)
  }

  function Selected(sids: set<string>, b: string): set<string> {
    set s | s in sids && Related(s, b)
  }

  /** A text occurs in another exactly when that is made of it and what stands before and after. */
  lemma OccursIff(needle: string, hay: string)
    ensures Occurs(needle, hay) <==> exists before, after :: hay == before + needle + after
  {
    if Occurs(needle, hay) {
      var i :| 0 <= i <= |hay| && OccursAt(needle, hay, i);
      assert hay == hay[..i] + needle + hay[i + |needle|..];
    }
    if exists before, after :: hay == before + needle + after {
      var before, after :| hay == before + needle + after;
      assert OccursAt(needle, hay, |before|);
    }
  }

  /** Unmerging moves back exactly the ids that contain the entity's id or are contained in it. */
  lemma SelectedIff(sids: set<string>, b: string, s: string)
    ensures s in Selected(sids, b) <==>
      s in sids && ((exists x, y :: s == x + b + y) || (exists x, y :: b == x + s + y))
  {
    OccursIff(s, b);
    OccursIff(b, s);
  }

  function Unmerge(g: Graph, c: string, b: string): Graph {
    var moved := Selected(g.Sources(c), b);
    var grown := g.Extend(b, moved);
    Graph(if moved == {} then grown else grown[c := grown[c] - moved], g.Point(moved, b))
  }

  datatype Op =
    | AddOp(c: string, s: string)
    | MergeOp(a: string, b: string)
    | UnmergeOp(c: string, b: string)

  function Step(g: Graph, op: Op): Graph {
    match op
    case AddOp(c, s) => Add(g, c, s)
    case MergeOp(a, b) => Merge(g, a, b)
    case UnmergeOp(c, b) => Unmerge(g, c, b)
  }

  function Run(ops: seq<Op>): Graph {
    if ops == [] then EMPTY else Step(Run(ops[..|ops| - 1]), ops[|ops| - 1])
  }

  /** Every answer of resolve lists the source id it was asked about. */
  ghost predicate Answers(g: Graph) {
    forall s :: s in g.canonical ==> s in g.Sources(g.canonical[s])
  }

  /** Listing and answering agree both ways. */
  ghost predicate Inverse(g: Graph) {
    forall s, c :: s in g.Sources(c) <==> s in g.canonical && g.canonical[s] == c
  }

  // ----- resolve stays right -----

  lemma AddAnswers(g: Graph, c: string, s: string)
    requires Answers(g)
    ensures Answers(Add(g, c, s))
  {
  }

  lemma MergeAnswers(g: Graph, a: string, b: string)
    requires Answers(g)
    ensures Answers(Merge(g, a, b))
  {
    var h := Merge(g, a, b);
    forall s | s in h.canonical
      ensures s in h.Sources(h.canonical[s])
    {
      if s !in g.Sources(b) {
        assert g.canonical[s] != b;
      }
    }
  }

  /** Unmerging keeps resolve right, unless an entity is unmerged from itself and some of its ids
      match. */
  lemma UnmergeAnswersIff(g: Graph, c: string, b: string)
    requires Answers(g)
    ensures Answers(Unmerge(g, c, b)) <==> c != b || Selected(g.Sources(c), b) == {}
  {
    var h, moved := Unmerge(g, c, b), Selected(g.Sources(c), b);
    if c == b && moved != {} {
      var s :| s in moved;
      assert h.canonical[s] == b && s !in h.Sources(b);
    } else {
      forall s | s in h.canonical
        ensures s in h.Sources(h.canonical[s])
      {
      }
    }
  }

  /** After any sequence of adds, merges and unmerges of distinct ids, every answer of resolve is
      listed. */
  lemma {:induction false} ResolveIsListed(ops: seq<Op>)
    requires forall k :: 0 <= k < |ops| && ops[k].UnmergeOp? ==> ops[k].c != ops[k].b
    ensures Answers(Run(ops))
  {
    if ops != [] {
      var last := |ops| - 1;
      ResolveIsListed(ops[..last]);
      var g := Run(ops[..last]);
      match ops[last] {
        case AddOp(c, s) => AddAnswers(g, c, s);
        case MergeOp(a, b) => MergeAnswers(g, a, b);
        case UnmergeOp(c, b) => UnmergeAnswersIff(g, c, b);
      }
    }
  }

  // ----- the two maps stay inverse -----

  /** Adding keeps the maps inverse exactly when it does not re-point a source id. */
  lemma AddInverseIff(g: Graph, c: string, s: string)
    requires Inverse(g)
    ensures Inverse(Add(g, c, s)) <==> s !in g.canonical || g.canonical[s] == c
  {
    var h := Add(g, c, s);
    if s in g.canonical && g.canonical[s] != c {
      assert s in g.Sources(g.canonical[s]);
      assert s in h.Sources(g.canonical[s]) && h.canonical[s] != g.canonical[s];
    } else {
      forall t, d
        ensures t in h.Sources(d) <==> t in h.canonical && h.canonical[t] == d
      {
        assert t in g.Sources(d) <==> t in g.canonical && g.canonical[t] == d;
      }
    }
  }

  lemma MergeInverse(g: Graph, a: string, b: string)
    requires Inverse(g)
    ensures Inverse(Merge(g, a, b))
  {
    var h := Merge(g, a, b);
    forall t, d
      ensures t in h.Sources(d) <==> t in h.canonical && h.canonical[t] == d
    {
      assert t in g.Sources(d) <==> t in g.canonical && g.canonical[t] == d;
      assert t in g.Sources(b) <==> t in g.canonical && g.canonical[t] == b;
      assert t in g.Sources(a) <==> t in g.canonical && g.canonical[t] == a;
    }
  }

  lemma UnmergeInverse(g: Graph, c: string, b: string)
    requires Inverse(g) && c != b
    ensures Inverse(Unmerge(g, c, b))
  {
    var h, moved := Unmerge(g, c, b), Selected(g.Sources(c), b);
    forall t, d
      ensures t in h.Sources(d) <==> t in h.canonical && h.canonical[t] == d
    {
      assert t in g.Sources(d) <==> t in g.canonical && g.canonical[t] == d;
      assert t in g.Sources(c) <==> t in g.canonical && g.canonical[t] == c;
    }
  }

  ghost predicate NoRepointing(ops: seq<Op>) {
    forall k :: 0 <= k < |ops| && ops[k].AddOp? && ops[k].s in Run(ops[..k]).canonical ==>
      Run(ops[..k]).canonical[ops[k].s] == ops[k].c
  }

  /** Inverse maps list no source id twice. */
  lemma InverseListsOnce(g: Graph, c: string, d: string)
    requires Inverse(g) && c != d
    ensures g.Sources(c) !! g.Sources(d)
  {
    forall s
      ensures !(s in g.Sources(c) && s in g.Sources(d))
    {
      assert s in g.Sources(c) <==> s in g.canonical && g.canonical[s] == c;
      assert s in g.Sources(d) <==> s in g.canonical && g.canonical[s] == d;
    }
  }

  /** If no add re-points a source id, the maps stay inverse. */
  lemma {:induction false} MapsStayInverse(ops: seq<Op>)
    requires forall k :: 0 <= k < |ops| && ops[k].UnmergeOp? ==> ops[k].c != ops[k].b
    requires NoRepointing(ops)
    ensures Inverse(Run(ops))
  {
    if ops != [] {
      var last := |ops| - 1;
      forall k | 0 <= k < last
        ensures ops[..last][..k] == ops[..k]
      {
      }
      MapsStayInverse(ops[..last]);
      var g := Run(ops[..last]);
      match ops[last] {
        case AddOp(c, s) => AddInverseIff(g, c, s);
        case MergeOp(a, b) => MergeInverse(g, a, b);
        case UnmergeOp(c, b) => UnmergeInverse(g, c, b);
      }
    }
  }

  // ----- unmerging undoes merging -----

  /** The ids of b are its own, and the id test tells them from those of a. */
  ghost predicate Separable(g: Graph, a: string, b: string) {
    && a in g.sources && b in g.sources
    && g.Sources(a) !! g.Sources(b)
    && (forall s :: s in g.Sources(b) ==> s in g.canonical && g.canonical[s] == b)
    && Selected(g.Sources(a) + g.Sources(b), b) == g.Sources(b)
  }

  lemma PointTwice(g: Graph, h: Graph, sids: set<string>, more: set<string>, a: string, b: string)
    requires h.canonical == g.Point(sids, a)
    ensures h.Point(more, b) == g.(canonical := g.Point(sids, a)).Point(more, b)
  {
  }

  /** What merging b into a and unmerging it again leaves. */
  lemma MergeThenUnmerge(g: Graph, a: string, b: string)
    requires a != b
    ensures var r, all := Unmerge(Merge(g, a, b), a, b), g.Sources(a) + g.Sources(b);
            && r.sources.Keys == g.sources.Keys + {a, b}
            && r.Sources(b) == Selected(all, b) && r.Sources(a) == all - Selected(all, b)
            && (forall c :: c != a && c != b ==> r.Sources(c) == g.Sources(c))
            && r.canonical == g.(canonical := g.Point(g.Sources(b), a)).Point(Selected(all, b), b)
  {
    var h := Merge(g, a, b);
    assert h.Sources(a) == g.Sources(a) + g.Sources(b) && h.Sources(b) == {};
    PointTwice(g, h, g.Sources(b), Selected(g.Sources(a) + g.Sources(b), b), a, b);
  }

  lemma SeparableIsRestored(g: Graph, a: string, b: string)
    requires a != b && Separable(g, a, b)
    ensures Unmerge(Merge(g, a, b), a, b) == g
  {
    var r := Unmerge(Merge(g, a, b), a, b);
    MergeThenUnmerge(g, a, b);
    forall c | c in g.sources
      ensures r.sources[c] == g.sources[c]
    {
      assert r.Sources(c) == g.Sources(c);
    }
    assert r.sources == g.sources;
    assert r.canonical == g.canonical;
  }

  /** Unmerging b after merging it into a restores the graph exactly when the two are separable. */
  lemma UnmergeUndoesMergeIff(g: Graph, a: string, b: string)
    requires a != b
    ensures Unmerge(Merge(g, a, b), a, b) == g <==> Separable(g, a, b)
  {
    var r := Unmerge(Merge(g, a, b), a, b);
    MergeThenUnmerge(g, a, b);
    if r == g {
      assert a in g.sources && b in g.sources;
      forall s | s in g.Sources(b)
        ensures s in g.canonical && g.canonical[s] == b
      {
        assert s in Selected(g.Sources(a) + g.Sources(b), b);
      }
    }
    if Separable(g, a, b) {
      SeparableIsRestored(g, a, b);
    }
  }

  // ----- reverse_merge -----

  /** reverse_merge unmerges with an empty canonical id.  It leaves every set of sources as after the
      merge exactly when none of the ids listed under the empty id match, as when there are none; then
      every source id resolves as before, too. */
  lemma ReverseMergeMovesNothingIff(g: Graph, b: string)
    ensures (forall c :: Unmerge(g, "", b).Sources(c) == g.Sources(c)) <==> Selected(g.Sources(""), b) == {}
    ensures Selected(g.Sources(""), b) == {} ==> Unmerge(g, "", b).canonical == g.canonical
  {
    var r, moved := Unmerge(g, "", b), Selected(g.Sources(""), b);
    if moved != {} {
      var s :| s in moved;
      assert s in g.Sources("") && s !in r.Sources("");
    }
  }

  lemma NothingSelected(g: Graph, a: string, b: string)
    requires a != b && a != "" && Selected(Merge(g, a, b).Sources(""), b) == {}
    ensures Unmerge(Merge(g, a, b), "", b) == g <==> a in g.sources && b in g.sources && g.Sources(b) == {}
  {
    var h := Merge(g, a, b);
    var r := Unmerge(h, "", b);
    ReverseMergeMovesNothingIff(h, b);
    assert r.Sources(b) == h.Sources(b) == {};
    assert a in r.sources && b in r.sources;
    if a in g.sources && b in g.sources && g.Sources(b) == {} {
      assert r.sources.Keys == g.sources.Keys;
      forall c | c in g.sources
        ensures r.sources[c] == g.sources[c]
      {
        assert r.Sources(c) == h.Sources(c) == g.Sources(c);
      }
      assert r.sources == g.sources;
      assert r.canonical == g.canonical;
    }
  }

  /** So, but for a merge into the empty id, it undoes a merge exactly when both entities were known, the
      absorbed one had no sources, and none of the empty id match. */
  lemma ReverseMergeUndoesIff(g: Graph, a: string, b: string)
    requires a != b
    ensures Unmerge(Merge(g, a, b), "", b) == g <==>
      if a == "" then Separable(g, a, b)
      else a in g.sources && b in g.sources && g.Sources(b) == {} && Selected(g.Sources(""), b) == {}
  {
    var h := Merge(g, a, b);
    if a == "" {
      UnmergeUndoesMergeIff(g, a, b);
    } else {
      assert h.Sources("") == if b == "" then {} else g.Sources("");
      assert Selected(h.Sources(""), b) == if b == "" then {} else Selected(g.Sources(""), b);
      ReverseMergeMovesNothingIff(h, b);
      if Selected(h.Sources(""), b) == {} {
        NothingSelected(g, a, b);
        assert b == "" && g.Sources(b) == {} ==> Selected(g.Sources(""), b) == {};
      } else {
        assert b != "";
        var s :| s in Selected(h.Sources(""), b);
        assert s !in Unmerge(h, "", b).Sources("") && s in g.Sources("");
      }
    }
  }

  // ----- the objects -----

  class IdentityMatch {
    const entityB: string
    var merged: bool
    var canonicalId: string

    constructor (entityB: string)
      ensures this.entityB == entityB && !merged && canonicalId == ""
    {
      this.entityB, merged, canonicalId := entityB, false, "";
    }
  }

  class IdentityGraph {
    var canonicalToSources: map<string, set<string>>
    var sourceToCanonical: map<string, string>
    var history: seq<IdentityMatch>

    ghost function Value(): Graph
      reads this
    {
      Graph(canonicalToSources, sourceToCanonical)
    }

    constructor ()
      ensures Value() == EMPTY && history == []
    {
      canonicalToSources, sourceToCanonical, history := map[], map[], [];
    }

    method AddSourceId(c: string, s: string)
      modifies `canonicalToSources, `sourceToCanonical
      ensures Value() == Add(old(Value()), c, s)
    {
      var known := if c in canonicalToSources then canonicalToSources[c] else {};
      canonicalToSources := canonicalToSources[c := known + {s}];
      sourceToCanonical := sourceToCanonical[s := c];
    }

    method Resolve(s: string) returns (c: Option<string>)
      ensures c == if s in Value().canonical then Some(Value().canonical[s]) else None
    {
      c := if s in sourceToCanonical then Some(sourceToCanonical[s]) else None;
    }

    method PointAll(sids: set<string>, c: string)
      modifies `sourceToCanonical
      ensures sourceToCanonical == old(Value()).Point(sids, c)
    {
      var left := sids;
      while left != {}
        invariant left <= sids
        invariant sourceToCanonical == old(Value()).Point(sids - left, c)
        decreases |left|
      {
        var s :| s in left;
        left := left - {s};
        sourceToCanonical := sourceToCanonical[s := c];
      }
      assert sids - left == sids;
    }

    /** Absorbs b into a and records the match. */
    method MergeInto(a: string, b: string, m: IdentityMatch) returns (survivor: string)
      modifies this, m
      ensures Value() == Merge(old(Value()), a, b)
      ensures survivor == a && m.merged && m.canonicalId == a && history == old(history) + [m]
    {
      var absorbed := if b in canonicalToSources then canonicalToSources[b] else {};
      canonicalToSources := canonicalToSources - {b};
      var known := if a in canonicalToSources then canonicalToSources[a] else {};
      canonicalToSources := canonicalToSources[a := known + absorbed];
      PointAll(absorbed, a);
      m.merged := true;
      m.canonicalId := a;
      history := history + [m];
      survivor := a;
    }

    method UnmergeMatch(m: IdentityMatch) returns (r: (string, string))
      modifies `canonicalToSources, `sourceToCanonical, m`merged
      ensures Value() == Unmerge(old(Value()), m.canonicalId, m.entityB)
      ensures r == (m.canonicalId, m.entityB) && !m.merged
    {
      var c, b := m.canonicalId, m.entityB;
      var held := if c in canonicalToSources then canonicalToSources[c] else {};
      var moved := Selected(held, b);
      var known := if b in canonicalToSources then canonicalToSources[b] else {};
      canonicalToSources := canonicalToSources[b := known + moved];
      PointAll(moved, b);
      if moved != {} {
        canonicalToSources := canonicalToSources[c := canonicalToSources[c] - moved];
      }
      m.merged := false;
      r := (c, b);
    }
  }
}
