/**
 The autocomplete index (recommendation/search/hybrid.py, AutocompleteEngine): a table from
 lowercased prefixes to at most five entities, against a scan of the entity list.
 */
module Autocomplete {
  import opened Wrappers

  datatype Entity = Entity(id: string, name: Option<string>, fullName: Option<string>) {
    function Title(): string {
      if name.Some? then name.value else if fullName.Some? then fullName.value else ""
    }
  }

  const CAPACITY := 5

  /** Different prefixes of two or more characters have different lowercase texts. */
  ghost predicate Apart(lower: string -> string, s: string) {
    forall i, j {:trigger lower(s[..i]), lower(s[..j])} :: 2 <= i < j <= |s| ==> lower(s[..i]) != lower(s[..j])
  }

  /** Lowercasing keeps the length of each prefix, as when every character becomes one character. */
  ghost predicate Measured(lower: string -> string, s: string) {
    forall i {:trigger s[..i]} :: 0 <= i <= |s| ==> |lower(s[..i])| == i
  }

  /** Lowercasing each prefix of two or more characters gives a prefix of the lowercase text, as when
      every character is lowercased on its own. */
  ghost predicate Settled(lower: string -> string, s: string) {
    forall i {:trigger s[..i]} :: 2 <= i <= |s| ==> lower(s[..i]) <= lower(s)
  }

  ghost predicate AllApart(lower: string -> string, es: seq<Entity>) {
    forall k :: 0 <= k < |es| ==> Apart(lower, es[k].Title())
  }

  ghost predicate AllMeasured(lower: string -> string, es: seq<Entity>) {
    forall k :: 0 <= k < |es| ==> Measured(lower, es[k].Title())
  }

  ghost predicate AllSettled(lower: string -> string, es: seq<Entity>) {
    forall k :: 0 <= k < |es| ==> Settled(lower, es[k].Title())
  }

  // ----- what the table should hold -----

  /** The first n entities that satisfy keep, in list order. */
  function Filter(es: seq<Entity>, keep: Entity -> bool): seq<Entity> {
    if es == [] then []
    else Filter(es[..|es| - 1], keep) + if keep(es[|es| - 1]) then [es[|es| - 1]] else []
  }

  function First(es: seq<Entity>, n: nat): seq<Entity> {
    if |es| <= n then es else es[..n]
  }

  /** Python's es[:limit]: a negative limit counts from the end. */
  function Slice(es: seq<Entity>, limit: int): seq<Entity> {
    if 0 <= limit then First(es, limit)
    else if |es| + limit <= 0 then [] else es[..|es| + limit]
  }

  predicate StartsWith(s: string, p: string) {
    p <= s
  }

  /** The entities whose lowercased name starts with the key. */
  function Matching(lower: string -> string, es: seq<Entity>, key: string): seq<Entity> {
    Filter(es, (e: Entity) => StartsWith(lower(e.Title()), key))
  }

  // ----- what the loops put there -----

  /** e once for each of its prefixes of length 2 to i that lowercases to the key. */
  function Copies(lower: string -> string, e: Entity, i: nat, key: string): seq<Entity>
    requires i <= |e.Title()|
  {
    if i < 2 then []
    else Copies(lower, e, i - 1, key) + if lower(e.Title()[..i]) == key then [e] else []
  }

  function Hits(lower: string -> string, es: seq<Entity>, key: string): seq<Entity> {
    if es == [] then []
    else
      var e := es[|es| - 1];
      Hits(lower, es[..|es| - 1], key) + Copies(lower, e, |e.Title()|, key)
  }

  function Bucket(index: map<string, seq<Entity>>, key: string): seq<Entity> {
    if key in index then index[key] else []
  }

  /** The table after all of es and the prefixes of e up to length i. */
  ghost predicate Holds(index: map<string, seq<Entity>>, lower: string -> string, es: seq<Entity>,
                        e: Entity, i: nat)
    requires i <= |e.Title()|
  {
    forall key {:trigger Bucket(index, key)} ::
      Bucket(index, key) == First(Hits(lower, es, key) + Copies(lower, e, i, key), CAPACITY)
  }

  ghost predicate HoldsAll(index: map<string, seq<Entity>>, lower: string -> string, es: seq<Entity>) {
    forall key {:trigger Bucket(index, key)} :: Bucket(index, key) == First(Hits(lower, es, key), CAPACITY)
  }

  lemma FirstOfLonger(s: seq<Entity>, e: Entity)
    ensures First(s + [e], CAPACITY)
         == if |First(s, CAPACITY)| < CAPACITY then First(s, CAPACITY) + [e] else First(s, CAPACITY)
  {
  }

  /** One prefix filed. */
  function Filed(index: map<string, seq<Entity>>, key: string, e: Entity): map<string, seq<Entity>> {
    var b := Bucket(index, key);
    index[key := if |b| < CAPACITY then b + [e] else b]
  }

  lemma FiledHolds(index: map<string, seq<Entity>>, lower: string -> string, es: seq<Entity>, e: Entity, i: nat)
    requires 2 <= i <= |e.Title()| && Holds(index, lower, es, e, i - 1)
    ensures Holds(Filed(index, lower(e.Title()[..i]), e), lower, es, e, i)
  {
    var prefix := lower(e.Title()[..i]);
    var filed := Filed(index, prefix, e);
    forall key
      ensures Bucket(filed, key) == First(Hits(lower, es, key) + Copies(lower, e, i, key), CAPACITY)
    {
      var before := Hits(lower, es, key) + Copies(lower, e, i - 1, key);
      assert Bucket(index, key) == First(before, CAPACITY);
      if key == prefix {
        FirstOfLonger(before, e);
        assert before + [e] == Hits(lower, es, key) + Copies(lower, e, i, key);
      } else {
        assert Copies(lower, e, i, key) == Copies(lower, e, i - 1, key);
      }
    }
  }

  lemma NextEntity(index: map<string, seq<Entity>>, lower: string -> string, es: seq<Entity>, n: nat)
    requires n < |es|
    ensures HoldsAll(index, lower, es[..n]) ==> Holds(index, lower, es[..n], es[n], 0)
    ensures Holds(index, lower, es[..n], es[n], |es[n].Title()|) ==> HoldsAll(index, lower, es[..n + 1])
  {
    assert es[..n + 1][..n] == es[..n];
    forall key
      ensures Hits(lower, es[..n], key) + Copies(lower, es[n], 0, key) == Hits(lower, es[..n], key)
    {
    }
  }

  lemma Holds01(index: map<string, seq<Entity>>, lower: string -> string, es: seq<Entity>, e: Entity)
    requires Holds(index, lower, es, e, 0)
    ensures 1 <= |e.Title()| ==> Holds(index, lower, es, e, 1)
  {
    if 1 <= |e.Title()| {
      forall key
        ensures Copies(lower, e, 1, key) == Copies(lower, e, 0, key)
      {
      }
    }
  }

  class AutocompleteEngine {
    const lower: string -> string
    var index: map<string, seq<Entity>>
    ghost var entities: seq<Entity>

    ghost predicate Valid()
      reads this
    {
      HoldsAll(index, lower, entities)
    }

    constructor (lower: string -> string)
      ensures Valid() && this.lower == lower && entities == []
    {
      this.lower, index, entities := lower, map[], [];
    }

    method Index(es: seq<Entity>)
      modifies this
      ensures Valid() && entities == es
    {
      index := map[];
      entities := es;
      for n := 0 to |es|
        invariant HoldsAll(index, lower, es[..n])
        invariant entities == es
      {
        NextEntity(index, lower, es, n);
        IndexName(es[n], es[..n]);
        NextEntity(index, lower, es, n);
      }
      assert es[..|es|] == es;
    }

    method IndexName(e: Entity, ghost es: seq<Entity>)
      requires Holds(index, lower, es, e, 0)
      modifies this`index
      ensures Holds(index, lower, es, e, |e.Title()|)
    {
      var name := e.Title();
      Holds01(index, lower, es, e);
      var i := 2;
      while i < |name| + 1
        invariant 2 <= i && (i <= |name| + 1 || |name| == 0)
        invariant i <= |name| + 1 ==> Holds(index, lower, es, e, i - 1)
        invariant |name| == 0 ==> Holds(index, lower, es, e, 0)
      {
        FiledHolds(index, lower, es, e, i);
        File(lower(name[..i]), e);
        i := i + 1;
      }
    }

    method File(prefix: string, e: Entity)
      modifies this`index
      ensures index == Filed(old(index), prefix, e)
    {
      if prefix !in index {
        index := index[prefix := []];
      }
      if |index[prefix]| < CAPACITY {
        index := index[prefix := index[prefix] + [e]];
      }
    }

    /** The first five entries filed under the lowercased text, cut to the limit.  Where each title's
        prefixes lowercase to different texts, these are the first five entities with such a prefix;
        where lowercasing keeps the lengths of the titles and of the text, those whose own prefix of the
        text's length lowercases to the same; where it also keeps the titles' prefixes, those whose
        lowercased title starts with the lowercased text. */
    method Suggest(prefix: string, limit: int) returns (found: seq<Entity>)
      requires Valid()
      ensures found == Slice(First(Hits(lower, entities, lower(prefix)), CAPACITY), limit)
      ensures AllApart(lower, entities) ==>
        found == Slice(First(Filter(entities, Files(lower, lower(prefix))), CAPACITY), limit)
      ensures AllMeasured(lower, entities) && |lower(prefix)| == |prefix| ==>
        found == Slice(First(Filter(entities, SamePrefix(lower, prefix)), CAPACITY), limit)
      ensures AllMeasured(lower, entities) && |lower(prefix)| == |prefix| < 2 ==> found == []
      ensures AllMeasured(lower, entities) && AllSettled(lower, entities) && |lower(prefix)| == |prefix| >= 2 ==>
        found == Slice(First(Matching(lower, entities, lower(prefix)), CAPACITY), limit)
    {
      var key := lower(prefix);
      found := Slice(if key in index then index[key] else [], limit);
      assert found == Slice(Bucket(index, key), limit);
      FiledOnceIff(lower, entities);
      if AllMeasured(lower, entities) && |lower(prefix)| == |prefix| {
        HitsHaveSamePrefix(lower, entities, prefix);
        if |prefix| < 2 {
          NothingShort(lower, entities, prefix);
        } else if AllSettled(lower, entities) {
          SettledFindsByStart(lower, entities, prefix);
        }
      }
    }
  }

  // ----- the table and the scan agree -----

  lemma {:induction false} InFilter(es: seq<Entity>, keep: Entity -> bool, e: Entity)
    ensures e in Filter(es, keep) <==> e in es && keep(e)
  {
    if es != [] {
      InFilter(es[..|es| - 1], keep, e);
      assert es == es[..|es| - 1] + [es[|es| - 1]];
    }
  }

  lemma {:induction false} FilterSame(es: seq<Entity>, these: Entity -> bool, those: Entity -> bool)
    requires forall e :: e in es ==> (these(e) <==> those(e))
    ensures Filter(es, these) == Filter(es, those)
  {
    if es != [] {
      FilterSame(es[..|es| - 1], these, those);
    }
  }

  /** Two scans find the same exactly when they agree on each entity of the list. */
  lemma FilterSameIff(es: seq<Entity>, these: Entity -> bool, those: Entity -> bool)
    ensures Filter(es, these) == Filter(es, those) <==> forall e :: e in es ==> (these(e) <==> those(e))
  {
    if Filter(es, these) == Filter(es, those) {
      forall e | e in es
        ensures these(e) <==> those(e)
      {
        InFilter(es, these, e);
        InFilter(es, those, e);
      }
    } else if forall e :: e in es ==> (these(e) <==> those(e)) {
      FilterSame(es, these, those);
    }
  }

  /** The entities that have a prefix of two or more characters which lowercases to the key. */
  function Files(lower: string -> string, key: string): Entity -> bool {
    (e: Entity) => FilesUpTo(lower, e, |e.Title()|, key)
  }

  predicate FilesUpTo(lower: string -> string, e: Entity, n: nat, key: string)
    requires n <= |e.Title()|
  {
    exists i {:trigger lower(e.Title()[..i])} :: 2 <= i <= n && lower(e.Title()[..i]) == key
  }

  lemma {:induction false} CopiesAtLeast(lower: string -> string, e: Entity, n: nat, key: string)
    requires n <= |e.Title()|
    ensures (if FilesUpTo(lower, e, n, key) then 1 else 0) <= |Copies(lower, e, n, key)|
  {
    if 2 <= n {
      CopiesAtLeast(lower, e, n - 1, key);
    }
  }

  lemma {:induction false} CopiesOnce(lower: string -> string, e: Entity, n: nat, key: string)
    requires n <= |e.Title()| && Apart(lower, e.Title())
    ensures Copies(lower, e, n, key) == if FilesUpTo(lower, e, n, key) then [e] else []
  {
    if 2 <= n {
      CopiesOnce(lower, e, n - 1, key);
      if lower(e.Title()[..n]) == key {
        assert !FilesUpTo(lower, e, n - 1, key);
      }
    }
  }

  lemma {:induction false} CopiesTwice(lower: string -> string, e: Entity, i: nat, j: nat, n: nat)
    requires 2 <= i < j <= n <= |e.Title()| && lower(e.Title()[..i]) == lower(e.Title()[..j])
    ensures 2 <= |Copies(lower, e, n, lower(e.Title()[..i]))|
  {
    if j < n {
      CopiesTwice(lower, e, i, j, n - 1);
    } else {
      assert FilesUpTo(lower, e, n - 1, lower(e.Title()[..i]));
      CopiesAtLeast(lower, e, n - 1, lower(e.Title()[..i]));
    }
  }

  lemma {:induction false} HitsAreFiltered(lower: string -> string, es: seq<Entity>, key: string)
    requires AllApart(lower, es)
    ensures Hits(lower, es, key) == Filter(es, Files(lower, key))
  {
    if es != [] {
      var e := es[|es| - 1];
      HitsAreFiltered(lower, es[..|es| - 1], key);
      CopiesOnce(lower, e, |e.Title()|, key);
    }
  }

  lemma {:induction false} NoFewerHits(lower: string -> string, es: seq<Entity>, key: string)
    ensures |Filter(es, Files(lower, key))| <= |Hits(lower, es, key)|
  {
    if es != [] {
      var e := es[|es| - 1];
      NoFewerHits(lower, es[..|es| - 1], key);
      CopiesAtLeast(lower, e, |e.Title()|, key);
    }
  }

  lemma {:induction false} MoreHits(lower: string -> string, es: seq<Entity>, k: nat, key: string)
    requires k < |es| && 2 <= |Copies(lower, es[k], |es[k].Title()|, key)|
    ensures |Filter(es, Files(lower, key))| < |Hits(lower, es, key)|
  {
    var e := es[|es| - 1];
    if k < |es| - 1 {
      MoreHits(lower, es[..|es| - 1], k, key);
      CopiesAtLeast(lower, e, |e.Title()|, key);
    } else {
      NoFewerHits(lower, es[..|es| - 1], key);
    }
  }

  /** What the loops file under each key is what a scan of the list finds, each entity once, exactly when
      no title has two prefixes with the same lowercase text. */
  lemma FiledOnceIff(lower: string -> string, es: seq<Entity>)
    ensures (forall key :: Hits(lower, es, key) == Filter(es, Files(lower, key))) <==> AllApart(lower, es)
  {
    if AllApart(lower, es) {
      forall key
        ensures Hits(lower, es, key) == Filter(es, Files(lower, key))
      {
        HitsAreFiltered(lower, es, key);
      }
    } else {
      var k :| 0 <= k < |es| && !Apart(lower, es[k].Title());
      var s := es[k].Title();
      var i: nat, j: nat :| 2 <= i < j <= |s| && lower(s[..i]) == lower(s[..j]);
      CopiesTwice(lower, es[k], i, j, |s|);
      MoreHits(lower, es, k, lower(s[..i]));
    }
  }

  /** The entities whose own prefix of the text's length lowercases to the same. */
  function SamePrefix(lower: string -> string, p: string): Entity -> bool {
    (e: Entity) => 2 <= |p| <= |e.Title()| && lower(e.Title()[..|p|]) == lower(p)
  }

  lemma MeasuredApart(lower: string -> string, s: string)
    requires Measured(lower, s)
    ensures Apart(lower, s)
  {
    forall i, j | 2 <= i < j <= |s|
      ensures lower(s[..i]) != lower(s[..j])
    {
      assert |lower(s[..i])| == i && |lower(s[..j])| == j;
    }
  }

  lemma HitsHaveSamePrefix(lower: string -> string, es: seq<Entity>, p: string)
    requires AllMeasured(lower, es) && |lower(p)| == |p|
    ensures Hits(lower, es, lower(p)) == Filter(es, SamePrefix(lower, p))
  {
    forall k | 0 <= k < |es| ensures Apart(lower, es[k].Title()) { MeasuredApart(lower, es[k].Title()); }
    HitsAreFiltered(lower, es, lower(p));
    forall e | e in es
      ensures Files(lower, lower(p))(e) <==> SamePrefix(lower, p)(e)
    {
      var s := e.Title();
      assert forall i :: 0 <= i <= |s| ==> |lower(s[..i])| == i;
    }
    FilterSame(es, Files(lower, lower(p)), SamePrefix(lower, p));
  }

  lemma {:induction false} NothingShort(lower: string -> string, es: seq<Entity>, p: string)
    requires |p| < 2
    ensures Filter(es, SamePrefix(lower, p)) == []
  {
    if es != [] {
      NothingShort(lower, es[..|es| - 1], p);
    }
  }

  /** A limit of five or more changes nothing; a smaller one shortens the same list. */
  lemma LimitsNest(es: seq<Entity>, limit: nat)
    ensures Slice(First(es, CAPACITY), limit) == First(es, if limit < 5 then limit else 5)
  {
  }

  /** The name is indexed if there is one, otherwise the full name, otherwise nothing. */
  lemma TitleOf(id: string, name: string, fullName: Option<string>)
    ensures Entity(id, Some(name), fullName).Title() == name
    ensures Entity(id, None, Some(name)).Title() == name && Entity(id, None, None).Title() == ""
  {
  }

  /** A negative limit leaves off as many from the end. */
  lemma NegativeLimit(es: seq<Entity>, limit: int)
    requires limit < 0
    ensures Slice(es, limit) <= es
    ensures |Slice(es, limit)| == if |es| + limit < 0 then 0 else |es| + limit
  {
  }

  /** The table and a scan for titles that start with the key find the same entities. */
  ghost predicate FindsByStart(lower: string -> string, es: seq<Entity>, key: string) {
    Hits(lower, es, key) == Matching(lower, es, key)
  }

  /** Where each entity is filed once, the table finds the titles that start with the key exactly when each
      title starts with the key just if one of its prefixes lowercases to it. */
  lemma FindsByStartIff(lower: string -> string, es: seq<Entity>, key: string)
    requires AllApart(lower, es)
    ensures FindsByStart(lower, es, key) <==>
      forall e :: e in es ==> (Files(lower, key)(e) <==> key <= lower(e.Title()))
  {
    HitsAreFiltered(lower, es, key);
    FilterSameIff(es, Files(lower, key), (e: Entity) => StartsWith(lower(e.Title()), key));
  }

  /** For a list and a text whose lengths lowercasing keeps, only the prefix of the text's length counts. */
  lemma MeasuredFindsByStartIff(lower: string -> string, es: seq<Entity>, p: string)
    requires AllMeasured(lower, es) && |lower(p)| == |p|
    ensures FindsByStart(lower, es, lower(p)) <==>
      forall e :: e in es ==> (SamePrefix(lower, p)(e) <==> lower(p) <= lower(e.Title()))
  {
    HitsHaveSamePrefix(lower, es, p);
    FilterSameIff(es, SamePrefix(lower, p), (e: Entity) => StartsWith(lower(e.Title()), lower(p)));
  }

  lemma SettledFindsByStart(lower: string -> string, es: seq<Entity>, p: string)
    requires AllMeasured(lower, es) && AllSettled(lower, es) && |lower(p)| == |p| >= 2
    ensures FindsByStart(lower, es, lower(p))
  {
    forall e | e in es
      ensures SamePrefix(lower, p)(e) <==> lower(p) <= lower(e.Title())
    {
      var s := e.Title();
      assert s[..|s|] == s && |lower(s[..|s|])| == |s|;
      if |p| <= |s| {
        assert lower(s[..|p|]) <= lower(s) && |lower(s[..|p|])| == |p|;
      }
    }
    MeasuredFindsByStartIff(lower, es, p);
  }

  /** For a list whose lengths lowercasing keeps, the table finds the titles that start with the text, for
      every text of two or more characters whose length it keeps, exactly when it keeps the titles'
      prefixes.  A lowercasing that depends on what follows a letter, as that of Greek sigma, does not. */
  lemma AlwaysFindsByStartIff(lower: string -> string, es: seq<Entity>)
    requires AllMeasured(lower, es)
    ensures (forall p :: |lower(p)| == |p| >= 2 ==> FindsByStart(lower, es, lower(p))) <==> AllSettled(lower, es)
  {
    if AllSettled(lower, es) {
      forall p | |lower(p)| == |p| >= 2
        ensures FindsByStart(lower, es, lower(p))
      {
        SettledFindsByStart(lower, es, p);
      }
    }
    if forall p :: |lower(p)| == |p| >= 2 ==> FindsByStart(lower, es, lower(p)) {
      forall k, i | 0 <= k < |es| && 2 <= i <= |es[k].Title()|
        ensures lower(es[k].Title()[..i]) <= lower(es[k].Title())
      {
        var p := es[k].Title()[..i];
        assert |lower(p)| == |p| == i && FindsByStart(lower, es, lower(p));
        MeasuredFindsByStartIff(lower, es, p);
        assert es[k] in es && SamePrefix(lower, p)(es[k]);
      }
    }
  }
}
