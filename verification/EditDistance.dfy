/**
 Edit distance between two strings (data_platform/identity/__init__.py, levenshtein).

 The meaning of the distance is given by edit scripts: a script keeps, substitutes, inserts or
 deletes characters, and the distance is the least cost of any script from one string to the
 other.  The two-row loop is proved to return that minimum, and the metric laws are proved on
 scripts, by reversing and composing them.
 */
module EditDistance {

  datatype Edit =
    | Keep(c: char)
    | Substitute(c: char, d: char)
    | Insert(c: char)
    | Delete(c: char)
  {
    function Reads(): string {
      if Insert? then [] else [c]
    }

    function Writes(): string {
      match this
      case Keep(c) => [c]
      case Substitute(_, d) => [d]
      case Insert(c) => [c]
      case Delete(_) => []
    }

    function Price(): nat {
      if Keep? then 0 else 1
    }

    /** The edit that undoes this one. */
    function Undo(): Edit {
      match this
      case Keep(c) => Keep(c)
      case Substitute(c, d) => Substitute(d, c)
      case Insert(c) => Delete(c)
      case Delete(c) => Insert(c)
    }
  }

  type Script = seq<Edit>

  function Init<T>(s: seq<T>): seq<T>
    requires s != []
  {
    s[..|s| - 1]
  }

  function Last<T>(s: seq<T>): T
    requires s != []
  {
    s[|s| - 1]
  }

  /** The string a script starts from. */
  function Source(s: Script): string {
    if s == [] then [] else Source(Init(s)) + Last(s).Reads()
  }

  /** The string a script ends at. */
  function Target(s: Script): string {
    if s == [] then [] else Target(Init(s)) + Last(s).Writes()
  }

  function Cost(s: Script): nat {
    if s == [] then 0 else Cost(Init(s)) + Last(s).Price()
  }

  ghost predicate IsScript(s: Script, a: string, b: string) {
    Source(s) == a && Target(s) == b
  }

  /** d is the least cost of a script that turns a into b. */
  ghost predicate IsLeastCost(d: nat, a: string, b: string) {
    && (exists s :: IsScript(s, a, b) && Cost(s) == d)
    && (forall s :: IsScript(s, a, b) ==> d <= Cost(s))
  }

  function Min(x: nat, y: nat): nat {
    if x <= y then x else y
  }

  function Max(x: nat, y: nat): nat {
    if x <= y then y else x
  }

  /** The recurrence on prefixes that the rows of the table hold. */
  function Distance(a: string, b: string): nat
    decreases |a| + |b|
  {
    if a == [] then |b|
    else if b == [] then |a|
    else Min(Distance(Init(a), b) + 1,
             Min(Distance(a, Init(b)) + 1,
                 Distance(Init(a), Init(b)) + if Last(a) == Last(b) then 0 else 1))
  }

  lemma Snoc<T>(s: seq<T>, x: T)
    ensures Init(s + [x]) == s && Last(s + [x]) == x
  {
  }

  // ----- the recurrence is the least script cost -----

  /** Extends a script by one edit. */
  function Then(s: Script, e: Edit): (r: Script)
    ensures Source(r) == Source(s) + e.Reads()
    ensures Target(r) == Target(s) + e.Writes()
    ensures Cost(r) == Cost(s) + e.Price()
  {
    Snoc(s, e);
    s + [e]
  }

  /** The edit that replaces character c by d. */
  function Replace(c: char, d: char): Edit {
    if c == d then Keep(c) else Substitute(c, d)
  }

  lemma OneStepBack(a: string, b: string)
    requires a != [] && b != []
    ensures Distance(a, b) == Distance(a, Init(b)) + 1 || Distance(a, b) == Distance(Init(a), b) + 1
            || Distance(a, b) == Distance(Init(a), Init(b)) + if Last(a) == Last(b) then 0 else 1
  {
  }

  lemma ReplaceEdits(c: char, d: char)
    ensures Replace(c, d).Reads() == [c] && Replace(c, d).Writes() == [d]
    ensures Replace(c, d).Price() == if c == d then 0 else 1
  {
  }

  lemma Rejoin(s: string)
    requires s != []
    ensures s == Init(s) + [Last(s)] && |Init(s)| < |s|
  {
  }

  /** The last edit of a cheapest script, and the prefixes it leaves. */
  lemma LastEdit(a: string, b: string) returns (e: Edit, a': string, b': string)
    requires a != [] || b != []
    ensures a == a' + e.Reads() && b == b' + e.Writes() && |a'| + |b'| < |a| + |b|
    ensures Distance(a, b) == Distance(a', b') + e.Price()
  {
    if a == [] {
      Rejoin(b);
      return Insert(Last(b)), a, Init(b);
    }
    Rejoin(a);
    if b == [] {
      return Delete(Last(a)), Init(a), b;
    }
    Rejoin(b);
    OneStepBack(a, b);
    if Distance(a, b) == Distance(a, Init(b)) + 1 {
      return Insert(Last(b)), a, Init(b);
    }
    if Distance(a, b) == Distance(Init(a), b) + 1 {
      return Delete(Last(a)), Init(a), b;
    }
    ReplaceEdits(Last(a), Last(b));
    return Replace(Last(a), Last(b)), Init(a), Init(b);
  }

  /** A script that attains the recurrence. */
  lemma {:induction false} BestScript(a: string, b: string) returns (s: Script)
    decreases |a| + |b|
    ensures IsScript(s, a, b) && Cost(s) == Distance(a, b)
  {
    if a == [] && b == [] {
      return [];
    }
    var e, a', b' := LastEdit(a, b);
    var r := BestScript(a', b');
    s := Then(r, e);
  }

  /** Moving either string by one character moves the recurrence by at most one. */
  lemma DistanceStep(a: string, b: string)
    ensures a != [] ==> Distance(a, b) <= Distance(Init(a), b) + 1
    ensures b != [] ==> Distance(a, b) <= Distance(a, Init(b)) + 1
    ensures a != [] && b != [] ==> Distance(a, b) <= Distance(Init(a), Init(b)) + 1
    ensures a != [] && b != [] && Last(a) == Last(b) ==> Distance(a, b) <= Distance(Init(a), Init(b))
  {
    if a != [] && b != [] {
      DistanceAtMostLonger(a, b);
    }
  }

  lemma {:induction false} DistanceAtMostLonger(a: string, b: string)
    ensures Distance(a, b) <= Max(|a|, |b|)
    decreases |a| + |b|
  {
    if a != [] && b != [] {
      DistanceAtMostLonger(Init(a), Init(b));
    }
  }

  /** One more edit costs at least what it changes in the recurrence. */
  lemma EditPays(a: string, b: string, e: Edit)
    ensures Distance(a + e.Reads(), b + e.Writes()) <= Distance(a, b) + e.Price()
  {
    match e
    case Insert(d) =>
      assert a + [] == a;
      Snoc(b, d);
      DistanceStep(a, b + [d]);
    case Delete(c) =>
      assert b + [] == b;
      Snoc(a, c);
      DistanceStep(a + [c], b);
    case Keep(c) =>
      Snoc(a, c);
      Snoc(b, c);
      DistanceStep(a + [c], b + [c]);
    case Substitute(c, d) =>
      Snoc(a, c);
      Snoc(b, d);
      DistanceStep(a + [c], b + [d]);
  }

  /** No script beats the recurrence. */
  lemma {:induction false} NoCheaperScript(s: Script)
    ensures Distance(Source(s), Target(s)) <= Cost(s)
    decreases |s|
  {
    if s != [] {
      NoCheaperScript(Init(s));
      EditPays(Source(Init(s)), Target(Init(s)), Last(s));
    }
  }

  lemma DistanceIsLeastCost(a: string, b: string)
    ensures IsLeastCost(Distance(a, b), a, b)
  {
    var best := BestScript(a, b);
    assert IsScript(best, a, b) && Cost(best) == Distance(a, b);
    forall s | IsScript(s, a, b)
      ensures Distance(a, b) <= Cost(s)
    {
      NoCheaperScript(s);
    }
  }

  lemma LeastCostIsDistance(d: nat, a: string, b: string)
    requires IsLeastCost(d, a, b)
    ensures d == Distance(a, b)
  {
    DistanceIsLeastCost(a, b);
  }

  // ----- the distance is a metric -----

  function Reverse(s: Script): (r: Script)
    ensures Source(r) == Target(s) && Target(r) == Source(s) && Cost(r) == Cost(s)
  {
    if s == [] then []
    else
      var r := Reverse(Init(s));
      Then(r, Last(s).Undo())
  }

  lemma {:induction false} Symmetric(a: string, b: string)
    ensures Distance(a, b) == Distance(b, a)
  {
    var there := BestScript(a, b);
    var back := BestScript(b, a);
    NoCheaperScript(Reverse(there));
    NoCheaperScript(Reverse(back));
  }

  lemma {:induction false} FreeScriptKeepsAll(s: Script)
    requires Cost(s) == 0
    ensures Source(s) == Target(s)
  {
    if s != [] {
      FreeScriptKeepsAll(Init(s));
    }
  }

  lemma {:induction false} DistanceToSelf(a: string)
    ensures Distance(a, a) == 0
  {
    if a != [] {
      DistanceToSelf(Init(a));
    }
  }

  lemma {:induction false} ZeroIffEqual(a: string, b: string)
    ensures Distance(a, b) == 0 <==> a == b
  {
    if Distance(a, b) == 0 {
      var s := BestScript(a, b);
      FreeScriptKeepsAll(s);
    }
    DistanceToSelf(a);
  }

  /** Two edits in a row on one character, as at most one edit. */
  function Fuse(e: Edit, f: Edit): (r: seq<Edit>)
    requires |e.Writes()| == 1 && e.Writes() == f.Reads()
    ensures |r| <= 1
    ensures r == [] ==> e.Reads() == [] && f.Writes() == []
    ensures r != [] ==> r[0].Reads() == e.Reads() && r[0].Writes() == f.Writes()
                        && r[0].Price() <= e.Price() + f.Price()
  {
    match e
    case Keep(_) => [f]
    case Substitute(c, _) =>
      (match f
       case Keep(_) => [e]
       case Substitute(_, d) => [Substitute(c, d)]
       case Delete(_) => [Delete(c)])
    case Insert(_) =>
      (match f
       case Keep(_) => [e]
       case Substitute(_, d) => [Insert(d)]
       case Delete(_) => [])
  }

  function ThenFused(s: Script, e: Edit, f: Edit): (r: Script)
    requires |e.Writes()| == 1 && e.Writes() == f.Reads()
    ensures Source(r) == Source(s) + e.Reads() && Target(r) == Target(s) + f.Writes()
    ensures Cost(r) <= Cost(s) + e.Price() + f.Price()
  {
    var fused := Fuse(e, f);
    if fused == [] then s else Then(s, fused[0])
  }

  /** Runs s and then t as one script that costs no more than both. */
  function Compose(s: Script, t: Script): (r: Script)
    requires Target(s) == Source(t)
    decreases |s| + |t|
    ensures Source(r) == Source(s) && Target(r) == Target(t)
    ensures Cost(r) <= Cost(s) + Cost(t)
  {
    if s != [] && Last(s).Delete? then
      var r := Compose(Init(s), t);
      Then(r, Last(s))
    else if t != [] && Last(t).Insert? then
      var r := Compose(s, Init(t));
      Then(r, Last(t))
    else if s == [] || t == [] then
      []
    else
      MiddleSplits(s, t);
      ThenFused(Compose(Init(s), Init(t)), Last(s), Last(t))
  }

  lemma MiddleSplits(s: Script, t: Script)
    requires s != [] && t != [] && !Last(s).Delete? && !Last(t).Insert?
    requires Target(s) == Source(t)
    ensures Target(Init(s)) == Source(Init(t)) && Last(s).Writes() == Last(t).Reads()
  {
    Snoc(Target(Init(s)), Last(s).Writes()[0]);
    Snoc(Source(Init(t)), Last(t).Reads()[0]);
  }

  lemma {:induction false} TriangleInequality(a: string, b: string, c: string)
    ensures Distance(a, c) <= Distance(a, b) + Distance(b, c)
  {
    var s := BestScript(a, b);
    var t := BestScript(b, c);
    NoCheaperScript(Compose(s, t));
  }

  lemma {:induction false} CostCoversLengthChange(s: Script)
    ensures |Source(s)| - |Target(s)| <= Cost(s) && |Target(s)| - |Source(s)| <= Cost(s)
  {
    if s != [] {
      CostCoversLengthChange(Init(s));
    }
  }

  lemma {:induction false} DistanceBounds(a: string, b: string)
    ensures |a| - |b| <= Distance(a, b) && |b| - |a| <= Distance(a, b)
    ensures Distance(a, b) <= Max(|a|, |b|)
  {
    var s := BestScript(a, b);
    CostCoversLengthChange(s);
    DistanceAtMostLonger(a, b);
  }

  // ----- the two-row loop -----

  /** Entry (i, j) stands for the distance between the first i and the first j characters. */
  type Table = (nat, nat) -> nat

  ghost predicate CellFits(t: Table, a: string, b: string, i: nat, j: nat)
    requires i < |a| && j < |b|
  {
    t(i + 1, j + 1) == Min(t(i, j + 1) + 1, Min(t(i + 1, j) + 1, t(i, j) + if a[i] == b[j] then 0 else 1))
  }

  ghost predicate IsTable(t: Table, a: string, b: string) {
    && (forall i: nat :: i <= |a| ==> t(i, 0) == i)
    && (forall j: nat :: j <= |b| ==> t(0, j) == j)
    && (forall i: nat, j: nat :: i < |a| && j < |b| ==> CellFits(t, a, b, i, j))
  }

  function Distances(a: string, b: string): Table {
    (i: nat, j: nat) => if i <= |a| && j <= |b| then Distance(a[..i], b[..j]) else 0
  }

  lemma DistancesFit(a: string, b: string)
    ensures IsTable(Distances(a, b), a, b) && Distances(a, b)(|a|, |b|) == Distance(a, b)
  {
    forall i: nat, j: nat | i < |a| && j < |b|
      ensures CellFits(Distances(a, b), a, b, i, j)
    {
      assert Init(a[..i + 1]) == a[..i] && Init(b[..j + 1]) == b[..j];
    }
    assert a[..|a|] == a && b[..|b|] == b;
  }

  /** The first entries of row i. */
  ghost predicate IsRow(t: Table, i: nat, row: seq<nat>) {
    forall j :: 0 <= j < |row| ==> row[j] == t(i, j)
  }

  method NextRow(a: string, i: nat, b: string, prev: seq<nat>, ghost t: Table) returns (curr: seq<nat>)
    requires i < |a| && |prev| == |b| + 1 && IsTable(t, a, b) && IsRow(t, i, prev)
    ensures |curr| == |b| + 1 && IsRow(t, i + 1, curr)
  {
    curr := [i + 1];
    for j := 0 to |b|
      invariant |curr| == j + 1 && IsRow(t, i + 1, curr)
    {
      assert CellFits(t, a, b, i, j);
      curr := curr + [Min(prev[j + 1] + 1, Min(curr[j] + 1, prev[j] + if a[i] == b[j] then 0 else 1))];
    }
  }

  /** The two-row table loop; the shorter string runs along the row. */
  method Levenshtein(a: string, b: string) returns (d: nat)
    decreases |a| < |b|
    ensures d == Distance(a, b)
    ensures IsLeastCost(d, a, b)
  {
    DistanceIsLeastCost(a, b);
    if |a| < |b| {
      d := Levenshtein(b, a);
      Symmetric(a, b);
      return;
    }
    if |b| == 0 {
      return |a|;
    }
    ghost var t := Distances(a, b);
    DistancesFit(a, b);
    var prev: seq<nat> := seq(|b| + 1, (j: nat) => j);
    for i := 0 to |a|
      invariant |prev| == |b| + 1 && IsRow(t, i, prev)
    {
      prev := NextRow(a, i, b, prev, t);
    }
    d := prev[|b|];
  }
}
