/**
 Fighter similarity (data_platform/identity/__init__.py, name_similarity, date_proximity and
 SimilarityEngine.compare_fighters).
 */
module FighterMatching {
  import opened Wrappers
  import opened EditDistance
  import opened Rounding

  /** The library's string functions: lower(), strip(), and the day number of an ISO date prefix. */
  datatype Text = Text(lower: string -> string, strip: string -> string, day: string -> Option<int>) {
    function Clean(s: string): string {
      strip(lower(s))
    }
  }

  // ----- names -----

  function NameSimilarity(t: Text, a: string, b: string): real {
    if a == "" || b == "" then 0.0
    else if t.Clean(a) == t.Clean(b) then 1.0
    else 1.0 - Distance(t.Clean(a), t.Clean(b)) as real / Max(|t.Clean(a)|, |t.Clean(b)|) as real
  }

  lemma Fraction(x: nat, y: nat)
    requires x <= y && 0 < y
    ensures 0.0 <= x as real / y as real <= 1.0
    ensures x as real / y as real == 0.0 <==> x == 0
    ensures x as real / y as real == 1.0 <==> x == y
  {
    var q, d := x as real / y as real, y as real;
    assert q * d == x as real;
    Ratio(x as real, d);
  }

  /** Similarity is symmetric and a fraction; it is 1 for names that clean to the same text, and 0
      only for a missing name or for texts as far apart as their length allows. */
  lemma NameSimilarityLaws(t: Text, a: string, b: string)
    ensures NameSimilarity(t, a, b) == NameSimilarity(t, b, a)
    ensures 0.0 <= NameSimilarity(t, a, b) <= 1.0
    ensures NameSimilarity(t, a, b) == 1.0 <==> a != "" && b != "" && t.Clean(a) == t.Clean(b)
    ensures NameSimilarity(t, a, b) == 0.0 <==>
              a == "" || b == ""
              || (t.Clean(a) != t.Clean(b)
                  && Distance(t.Clean(a), t.Clean(b)) == Max(|t.Clean(a)|, |t.Clean(b)|))
  {
    var x, y := t.Clean(a), t.Clean(b);
    Symmetric(x, y);
    ZeroIffEqual(x, y);
    DistanceBounds(x, y);
    if x != y {
      Fraction(Distance(x, y), Max(|x|, |y|));
    }
  }

  lemma ShareLeft(sim: real, longer: nat, edits: nat)
    requires (edits == 0 && sim == 1.0) || (0 < longer && sim == 1.0 - edits as real / longer as real)
    ensures sim * longer as real == longer as real - edits as real
  {
    if edits != 0 || sim != 1.0 {
      var p, d := edits as real / longer as real, longer as real;
      assert p * d == edits as real;
      assert (1.0 - p) * d == d - p * d;
    }
  }

  /** For two names given it is the share of the longer cleaned text that need not be edited. */
  lemma NameSimilarityIsShare(t: Text, a: string, b: string, longer: nat, edits: nat, sim: real)
    requires a != "" && b != "" && longer == Max(|t.Clean(a)|, |t.Clean(b)|)
    requires edits == Distance(t.Clean(a), t.Clean(b)) && sim == NameSimilarity(t, a, b)
    ensures sim * longer as real == longer as real - edits as real
  {
    ZeroIffEqual(t.Clean(a), t.Clean(b));
    assert (edits == 0 && sim == 1.0) || (0 < longer && sim == 1.0 - edits as real / longer as real);
    ShareLeft(sim, longer, edits);
  }

  // ----- dates -----

  function DaysApart(d: int, e: int): nat {
    if d < e then e - d else d - e
  }

  function Proximity(days: nat): real {
    if days == 0 then 1.0
    else if days <= 7 then 0.9
    else if days <= 30 then 0.7
    else if days <= 365 then 0.5
    else if days < 730 then 1.0 - days as real / 730.0
    else 0.0
  }

  function DateProximity(t: Text, a: string, b: string): real {
    if a == "" || b == "" then 0.0
    else
      match (t.day(a), t.day(b))
      case (Some(d), Some(e)) => Proximity(DaysApart(d, e))
      case _ => 0.0
  }

  /** Dates further apart are never closer; they count as unrelated from two years on. */
  lemma ProximityLaws(m: nat, n: nat)
    requires m <= n
    ensures 0.0 <= Proximity(n) <= Proximity(m) <= 1.0
    ensures Proximity(n) == 0.0 <==> 730 <= n
    ensures Proximity(n) == 1.0 <==> n == 0
  {
  }

  /** The steps at one week, one month, one year and two years. */
  lemma ProximitySteps(n: nat)
    ensures 0 < n ==> (Proximity(n) >= 0.9 <==> n <= 7) && (Proximity(n) >= 0.7 <==> n <= 30)
    ensures 0 < n ==> (Proximity(n) >= 0.5 <==> n <= 365) && Proximity(n) <= 0.9
    ensures Proximity(n) in {1.0, 0.9, 0.7, 0.5} || Proximity(n) * 730.0 == (if n < 730 then 730 - n else 0) as real
  {
  }

  lemma DateProximityLaws(t: Text, a: string, b: string)
    ensures DateProximity(t, a, b) == DateProximity(t, b, a)
    ensures 0.0 <= DateProximity(t, a, b) <= 1.0
    ensures a != "" && t.day(a).Some? ==> DateProximity(t, a, a) == 1.0
    ensures a == "" || b == "" || t.day(a) == None || t.day(b) == None ==> DateProximity(t, a, b) == 0.0
  {
    if a != "" && b != "" && t.day(a).Some? && t.day(b).Some? {
      ProximityLaws(0, DaysApart(t.day(a).value, t.day(b).value));
    }
  }

  /** Two dates are as close as the days between them say, whichever is the later. */
  lemma DateProximityByDays(t: Text, a: string, b: string, days: nat)
    requires a != "" && b != "" && t.day(a).Some? && t.day(b).Some?
    requires t.day(a).value == t.day(b).value + days || t.day(b).value == t.day(a).value + days
    ensures DateProximity(t, a, b) == Proximity(days)
  {
  }

  // ----- fighters -----

  /** A fighter record; a missing text field is empty, a missing or zero measure is 0. */
  datatype Fighter = Fighter(
    fullName: string, firstName: string, lastName: string, birthDate: string, nationality: string,
    heightCm: real, reachCm: real, weightClass: string, nickname: string)
  {
    function Name(): string {
      if fullName != "" then fullName else firstName + " " + lastName
    }
  }

  /** One compared field: its weight, whether both records have it, and its score. */
  datatype Field = Field(weight: real, present: bool, score: real)

  function SameText(t: Text, a: string, b: string): real {
    if a != "" && b != "" && t.lower(a) == t.lower(b) then 1.0 else 0.0
  }

  function SameMeasure(a: real, b: real, within: real): real {
    if a == 0.0 || b == 0.0 then 0.0 else if Abs(a - b) <= within then 1.0 else 0.5
  }

  function Fields(t: Text, a: Fighter, b: Fighter): seq<Field> {
    [ Field(0.30, t.strip(a.Name()) != "" && t.strip(b.Name()) != "", NameSimilarity(t, a.Name(), b.Name())),
      Field(0.15, a.lastName != "" && b.lastName != "", NameSimilarity(t, a.lastName, b.lastName)),
      Field(0.20, a.birthDate != "" && b.birthDate != "", DateProximity(t, a.birthDate, b.birthDate)),
      Field(0.10, a.nationality != "" && b.nationality != "", SameText(t, a.nationality, b.nationality)),
      Field(0.05, a.heightCm != 0.0 && b.heightCm != 0.0, SameMeasure(a.heightCm, b.heightCm, 5.0)),
      Field(0.05, a.reachCm != 0.0 && b.reachCm != 0.0, SameMeasure(a.reachCm, b.reachCm, 8.0)),
      Field(0.10, a.weightClass != "" && b.weightClass != "", SameText(t, a.weightClass, b.weightClass)),
      Field(0.05, a.nickname != "" && b.nickname != "", NameSimilarity(t, a.nickname, b.nickname)) ]
  }

  function Part(f: Field): real {
    f.score * f.weight
  }

  function UsedWeight(fs: seq<Field>): real {
    if fs == [] then 0.0 else (if fs[0].present then fs[0].weight else 0.0) + UsedWeight(fs[1..])
  }

  function WeightedScore(fs: seq<Field>): real {
    if fs == [] then 0.0 else (if fs[0].present then Part(fs[0]) else 0.0) + WeightedScore(fs[1..])
  }

  function Confidence(fs: seq<Field>): real {
    var used := UsedWeight(fs);
    var c := if used != 0.0 then WeightedScore(fs) / used else 0.0;
    Round4(if c < 1.0 then c else 1.0)
  }

  function CompareFighters(t: Text, a: Fighter, b: Fighter): real {
    Confidence(Fields(t, a, b))
  }

  ghost predicate Sound(fs: seq<Field>) {
    forall i :: 0 <= i < |fs| ==> 0.0 < fs[i].weight && 0.0 <= fs[i].score <= 1.0
  }

  lemma FieldsSound(t: Text, a: Fighter, b: Fighter)
    ensures Sound(Fields(t, a, b))
  {
    NameSimilarityLaws(t, a.Name(), b.Name());
    NameSimilarityLaws(t, a.lastName, b.lastName);
    NameSimilarityLaws(t, a.nickname, b.nickname);
    DateProximityLaws(t, a.birthDate, b.birthDate);
  }

  lemma Share(f: Field)
    requires 0.0 <= f.score <= 1.0 && 0.0 < f.weight
    ensures 0.0 <= Part(f) <= f.weight
  {
    assert 0.0 <= (1.0 - f.score) * f.weight == f.weight - f.score * f.weight;
  }

  lemma {:induction false} ScoreWithinWeight(fs: seq<Field>)
    requires Sound(fs)
    ensures 0.0 <= WeightedScore(fs) <= UsedWeight(fs)
  {
    if fs != [] {
      ScoreWithinWeight(fs[1..]);
      Share(fs[0]);
    }
  }

  ghost predicate AnyPresent(fs: seq<Field>) {
    exists i :: 0 <= i < |fs| && fs[i].present
  }

  lemma {:induction false} UsedWhenPresent(fs: seq<Field>)
    requires Sound(fs)
    ensures 0.0 <= UsedWeight(fs)
    ensures UsedWeight(fs) == 0.0 <==> !AnyPresent(fs)
  {
    if fs != [] {
      var rest := fs[1..];
      UsedWhenPresent(rest);
      if AnyPresent(rest) {
        var i :| 0 <= i < |rest| && rest[i].present;
        assert fs[i + 1].present;
      } else if AnyPresent(fs) {
        var i :| 0 <= i < |fs| && fs[i].present;
        assert 0 < i ==> rest[i - 1].present;
      }
    }
  }

  lemma Ratio(x: real, y: real)
    requires 0.0 <= x <= y && 0.0 < y
    ensures 0.0 <= x / y <= 1.0
    ensures x == y ==> x / y == 1.0
  {
  }

  lemma ConfidenceIsFraction(fs: seq<Field>)
    requires Sound(fs)
    ensures 0.0 <= Confidence(fs) <= 1.0
  {
    ScoreWithinWeight(fs);
    UsedWhenPresent(fs);
    var used := UsedWeight(fs);
    if used != 0.0 {
      Ratio(WeightedScore(fs), used);
      Round4Unit(WeightedScore(fs) / used);
    } else {
      Round4Unit(0.0);
    }
  }

  /** Confidence does not depend on the order of the two records, and is a fraction. */
  lemma CompareLaws(t: Text, a: Fighter, b: Fighter)
    ensures CompareFighters(t, a, b) == CompareFighters(t, b, a)
    ensures 0.0 <= CompareFighters(t, a, b) <= 1.0
  {
    NameSimilarityLaws(t, a.Name(), b.Name());
    NameSimilarityLaws(t, a.lastName, b.lastName);
    NameSimilarityLaws(t, a.nickname, b.nickname);
    DateProximityLaws(t, a.birthDate, b.birthDate);
    assert Fields(t, a, b) == Fields(t, b, a);
    FieldsSound(t, a, b);
    ConfidenceIsFraction(Fields(t, a, b));
  }

  // ----- what the confidence is -----

  function Where(present: bool, x: real): real {
    if present then x else 0.0
  }

  /** What a field adds to the score. */
  function Adds(f: Field): (r: real)
    ensures f.present ==> r == f.weight * f.score
    ensures !f.present ==> r == 0.0
  {
    Where(f.present, Part(f))
  }

  lemma {:induction false} SumsOfEight(fs: seq<Field>)
    requires |fs| == 8
    ensures UsedWeight(fs) ==
      Where(fs[0].present, fs[0].weight) + Where(fs[1].present, fs[1].weight) + Where(fs[2].present, fs[2].weight)
      + Where(fs[3].present, fs[3].weight) + Where(fs[4].present, fs[4].weight) + Where(fs[5].present, fs[5].weight)
      + Where(fs[6].present, fs[6].weight) + Where(fs[7].present, fs[7].weight)
    ensures WeightedScore(fs) ==
      Adds(fs[0]) + Adds(fs[1]) + Adds(fs[2])
      + Adds(fs[3]) + Adds(fs[4]) + Adds(fs[5])
      + Adds(fs[6]) + Adds(fs[7])
  {
    SumsOfFour(fs, 0);
    SumsOfFour(fs, 4);
    assert fs[0..] == fs && fs[8..] == [];
  }

  lemma SumsFrom(fs: seq<Field>, k: nat)
    requires k < |fs|
    ensures UsedWeight(fs[k..]) == Where(fs[k].present, fs[k].weight) + UsedWeight(fs[k + 1..])
    ensures WeightedScore(fs[k..]) == Adds(fs[k]) + WeightedScore(fs[k + 1..])
  {
    assert fs[k..][1..] == fs[k + 1..];
  }

  lemma SumsOfFour(fs: seq<Field>, k: nat)
    requires k + 4 <= |fs|
    ensures UsedWeight(fs[k..])
         == Where(fs[k].present, fs[k].weight) + Where(fs[k + 1].present, fs[k + 1].weight)
            + Where(fs[k + 2].present, fs[k + 2].weight) + Where(fs[k + 3].present, fs[k + 3].weight)
            + UsedWeight(fs[k + 4..])
    ensures WeightedScore(fs[k..])
         == Adds(fs[k]) + Adds(fs[k + 1])
            + Adds(fs[k + 2]) + Adds(fs[k + 3])
            + WeightedScore(fs[k + 4..])
  {
    SumsFrom(fs, k);
    SumsFrom(fs, k + 1);
    SumsFrom(fs, k + 2);
    SumsFrom(fs, k + 3);
  }

  lemma ConfidenceIsMean(fs: seq<Field>)
    requires Sound(fs)
    ensures (Confidence(fs) * 10000.0).Floor as real == Confidence(fs) * 10000.0
    ensures UsedWeight(fs) == 0.0 ==> Confidence(fs) == 0.0
    ensures UsedWeight(fs) != 0.0 ==> Abs(Confidence(fs) - WeightedScore(fs) / UsedWeight(fs)) <= 0.00005
  {
    ScoreWithinWeight(fs);
    UsedWhenPresent(fs);
    if UsedWeight(fs) == 0.0 {
      RoundInteger(0);
      Round4Within(0.0);
    } else {
      Ratio(WeightedScore(fs), UsedWeight(fs));
      Round4Within(WeightedScore(fs) / UsedWeight(fs));
    }
  }

  ghost predicate Weighted(fs: seq<Field>) {
    && |fs| == 8
    && fs[0].weight == 0.30 && fs[1].weight == 0.15 && fs[2].weight == 0.20 && fs[3].weight == 0.10
    && fs[4].weight == 0.05 && fs[5].weight == 0.05 && fs[6].weight == 0.10 && fs[7].weight == 0.05
  }

  /** The eight fields and when both records have them: full name, last name, birth date, nationality, height,
      reach, weight class, nickname. */
  lemma FieldsInUse(t: Text, a: Fighter, b: Fighter)
    ensures Weighted(Fields(t, a, b)) && Sound(Fields(t, a, b))
    ensures var fs := Fields(t, a, b);
            && (fs[0].present <==> t.strip(a.Name()) != "" && t.strip(b.Name()) != "")
            && (fs[1].present <==> a.lastName != "" && b.lastName != "")
            && (fs[2].present <==> a.birthDate != "" && b.birthDate != "")
            && (fs[3].present <==> a.nationality != "" && b.nationality != "")
            && (fs[4].present <==> a.heightCm != 0.0 && b.heightCm != 0.0)
            && (fs[5].present <==> a.reachCm != 0.0 && b.reachCm != 0.0)
            && (fs[6].present <==> a.weightClass != "" && b.weightClass != "")
            && (fs[7].present <==> a.nickname != "" && b.nickname != "")
    ensures a.Name() == if a.fullName != "" then a.fullName else a.firstName + " " + a.lastName
  {
    FieldsSound(t, a, b);
  }

  /** Their scores: similarity for names and dates; for texts all or nothing, by their lowercase; for
      measures a half when they are further apart than 5 or 8 cm. */
  lemma FieldScores(t: Text, a: Fighter, b: Fighter)
    ensures var fs := Fields(t, a, b);
            && fs[0].score == NameSimilarity(t, a.Name(), b.Name())
            && fs[1].score == NameSimilarity(t, a.lastName, b.lastName)
            && fs[2].score == DateProximity(t, a.birthDate, b.birthDate)
            && (fs[3].present ==> fs[3].score == if t.lower(a.nationality) == t.lower(b.nationality) then 1.0 else 0.0)
            && (fs[4].present ==> fs[4].score == if -5.0 <= a.heightCm - b.heightCm <= 5.0 then 1.0 else 0.5)
            && (fs[5].present ==> fs[5].score == if -8.0 <= a.reachCm - b.reachCm <= 8.0 then 1.0 else 0.5)
            && (fs[6].present ==> fs[6].score == if t.lower(a.weightClass) == t.lower(b.weightClass) then 1.0 else 0.0)
            && fs[7].score == NameSimilarity(t, a.nickname, b.nickname)
  {
  }

  /** The confidence is the mean, to four decimals, of the scores of the fields that both records have,
      weighted 30, 15, 20, 10, 5, 5, 10 and 5 of a hundred. */
  lemma CompareIsWeightedMean(t: Text, a: Fighter, b: Fighter)
    ensures (CompareFighters(t, a, b) * 10000.0).Floor as real == CompareFighters(t, a, b) * 10000.0
    ensures var fs := Fields(t, a, b);
            var weight := Where(fs[0].present, 0.30) + Where(fs[1].present, 0.15) + Where(fs[2].present, 0.20)
                          + Where(fs[3].present, 0.10) + Where(fs[4].present, 0.05) + Where(fs[5].present, 0.05)
                          + Where(fs[6].present, 0.10) + Where(fs[7].present, 0.05);
            var score := Adds(fs[0]) + Adds(fs[1]) + Adds(fs[2]) + Adds(fs[3]) + Adds(fs[4]) + Adds(fs[5]) + Adds(fs[6])
                         + Adds(fs[7]);
            if weight == 0.0 then CompareFighters(t, a, b) == 0.0
            else Abs(CompareFighters(t, a, b) - score / weight) <= 0.00005
  {
    var fs := Fields(t, a, b);
    FieldsInUse(t, a, b);
    SumsOfEight(fs);
    ConfidenceIsMean(fs);
  }

  lemma RatioBelow(x: real, y: real)
    requires 0.0 <= x && x + 0.05 <= y <= 8.0
    ensures 0.0 <= x / y <= 0.9999
  {
    Ratio(x, y);
    assert x / y * y == x;
    assert x <= 0.9999 * y;
    BelowRatio(x / y, 0.9999, y);
  }

  lemma BelowRatio(q: real, r: real, y: real)
    requires 0.0 < y && q * y <= r * y
    ensures q <= r
  {
  }

  lemma {:induction false} UsedAtMostCount(fs: seq<Field>)
    requires forall i :: 0 <= i < |fs| ==> fs[i].weight <= 1.0
    ensures UsedWeight(fs) <= |fs| as real
  {
    if fs != [] {
      UsedAtMostCount(fs[1..]);
    }
  }

  lemma {:induction false} ScoreGap(fs: seq<Field>, k: nat)
    requires Sound(fs) && k < |fs| && fs[k].present && fs[k].score == 0.0
    ensures WeightedScore(fs) + fs[k].weight <= UsedWeight(fs)
  {
    if k == 0 {
      ScoreWithinWeight(fs[1..]);
    } else {
      ScoreGap(fs[1..], k - 1);
      Share(fs[0]);
    }
  }

  /** A field that both records have and that scores nothing keeps the confidence below 1. */
  lemma ZeroDragsDown(fs: seq<Field>, k: nat)
    requires |fs| == 8 && Sound(fs) && k < 8 && fs[k].present && fs[k].score == 0.0 && 0.05 <= fs[k].weight
    requires forall i :: 0 <= i < |fs| ==> fs[i].weight <= 1.0
    ensures Confidence(fs) < 1.0
  {
    ScoreWithinWeight(fs);
    ScoreGap(fs, k);
    UsedAtMostCount(fs);
    RatioBelow(WeightedScore(fs), UsedWeight(fs));
    Round4Unit(WeightedScore(fs) / UsedWeight(fs));
  }

  /** Records with different nationalities or weight classes never match fully. */
  lemma DifferentNeverFull(t: Text, a: Fighter, b: Fighter)
    requires (a.nationality != "" && b.nationality != "" && t.lower(a.nationality) != t.lower(b.nationality))
             || (a.weightClass != "" && b.weightClass != "" && t.lower(a.weightClass) != t.lower(b.weightClass))
    ensures CompareFighters(t, a, b) < 1.0
  {
    var fs := Fields(t, a, b);
    FieldsSound(t, a, b);
    ZeroDragsDown(fs, if a.nationality != "" && b.nationality != "" && t.lower(a.nationality) != t.lower(b.nationality)
                      then 3 else 6);
  }

  // ----- a fighter against itself -----

  lemma {:induction false} FullScore(fs: seq<Field>)
    requires forall i :: 0 <= i < |fs| && fs[i].present ==> fs[i].score == 1.0
    ensures WeightedScore(fs) == UsedWeight(fs)
  {
    if fs != [] {
      FullScore(fs[1..]);
    }
  }

  ghost predicate SomethingKnown(t: Text, a: Fighter) {
    || t.strip(a.Name()) != "" || a.lastName != "" || a.birthDate != "" || a.nationality != ""
    || a.heightCm != 0.0 || a.reachCm != 0.0 || a.weightClass != "" || a.nickname != ""
  }

  /** A record fully matches itself exactly when it says something and its birth date, if it has
      one, is a date. */
  lemma SelfMatchIff(t: Text, a: Fighter)
    ensures CompareFighters(t, a, a) == 1.0
       <==> SomethingKnown(t, a) && (a.birthDate == "" || t.day(a.birthDate).Some?)
  {
    var fs := Fields(t, a, a);
    FieldsSound(t, a, a);
    UsedWhenPresent(fs);
    NameSimilarityLaws(t, a.Name(), a.Name());
    NameSimilarityLaws(t, a.lastName, a.lastName);
    NameSimilarityLaws(t, a.nickname, a.nickname);
    DateProximityLaws(t, a.birthDate, a.birthDate);
    assert SomethingKnown(t, a) <==> AnyPresent(fs) by {
      assert fs[0].present == (t.strip(a.Name()) != "") && fs[1].present == (a.lastName != "");
      assert fs[2].present == (a.birthDate != "") && fs[3].present == (a.nationality != "");
      assert fs[4].present == (a.heightCm != 0.0) && fs[5].present == (a.reachCm != 0.0);
      assert fs[6].present == (a.weightClass != "") && fs[7].present == (a.nickname != "");
    }
    if !SomethingKnown(t, a) {
      Round4Unit(0.0);
    } else if a.birthDate == "" || t.day(a.birthDate).Some? {
      FullScore(fs);
      Ratio(WeightedScore(fs), UsedWeight(fs));
      Round4Unit(1.0);
    } else {
      ZeroDragsDown(fs, 2);
    }
  }
}
