/**
 Rebuilding rankings from fight history (intelligence/pipeline/rebuild_rankings.py).

 The laws of a rebuild hold for any two lawful update rules; those of the source are lawful.
 */
module Rankings {
  import opened RatingRules
  import opened Rounding

  /** Fighter ids are only compared. */
  type Id = nat

  const INITIAL: real := 1500.0
  const INITIAL_VARIANCE: real := 350.0 * 350.0

  datatype Rating = Rating(elo: real, glicko: real, variance: real)

  /** A fight as the pipeline reads it: b counts as the winner whenever a is not. */
  datatype Fight = Fight(a: Id, b: Id, aWon: bool, finish: bool, title: bool)

  /** Career totals, from which the K-factor is taken. */
  datatype Career = Career(wins: int, losses: int)

  type Fighters = map<Id, Career>
  type Ratings = map<Id, Rating>

  function Start(fighters: Fighters): Ratings {
    map x | x in fighters :: Rating(INITIAL, INITIAL, INITIAL_VARIANCE)
  }

  function FightsOf(fighters: Fighters, x: Id): int {
    if x in fighters then fighters[x].wins + fighters[x].losses else 0
  }

  function K(fighters: Fighters, x: Id, title: bool): real {
    KFactor(FightsOf(fighters, x), title)
  }

  /** Every deviation lies between 60 and 350. */
  ghost predicate InRange(ratings: Ratings) {
    forall x :: x in ratings ==> MIN_VARIANCE <= ratings[x].variance <= INITIAL_VARIANCE
  }

  function WithGlicko(r: Rating, u: (real, real)): Rating {
    r.(glicko := u.0, variance := u.1)
  }

  /** One fight: both Elo ratings, then both Glicko ratings from the same old values; a fight with
      an unknown fighter is skipped. */
  function Fought(rules: Rules, fighters: Fighters, ratings: Ratings, f: Fight): (r: Ratings)
    ensures r.Keys == ratings.Keys
  {
    if f.a !in ratings || f.b !in ratings then ratings
    else
      var x, y := ratings[f.a], ratings[f.b];
      var (ea, eb) := rules.elo(x.elo, y.elo, f.aWon, K(fighters, f.a, f.title), K(fighters, f.b, f.title), f.finish);
      var ga := rules.glicko(x.glicko, x.variance, y.glicko, y.variance, f.aWon);
      var gb := rules.glicko(y.glicko, y.variance, x.glicko, x.variance, !f.aWon);
      var r := ratings[f.a := WithGlicko(x.(elo := ea), ga)];
      r[f.b := WithGlicko(r[f.b].(elo := eb), gb)]
  }

  /** A fight moves only its two fighters; no deviation grows or leaves its range. */
  lemma FoughtKeepsRange(rules: Rules, fighters: Fighters, ratings: Ratings, f: Fight)
    requires rules.Lawful() && InRange(ratings)
    ensures InRange(Fought(rules, fighters, ratings, f))
    ensures forall x :: x in ratings ==>
              && Fought(rules, fighters, ratings, f)[x].variance <= ratings[x].variance
              && (x != f.a && x != f.b ==> Fought(rules, fighters, ratings, f)[x] == ratings[x])
  {
  }

  /** In a fight between two known fighters the winner gains and the loser loses on both scales. */
  lemma WinnerGains(rules: Rules, fighters: Fighters, ratings: Ratings, f: Fight)
    requires rules.Lawful() && InRange(ratings) && f.a in ratings && f.b in ratings && f.a != f.b
    ensures var r := Fought(rules, fighters, ratings, f);
            var (w, l) := if f.aWon then (f.a, f.b) else (f.b, f.a);
            && ratings[w].elo < r[w].elo && ratings[w].glicko < r[w].glicko
            && r[l].elo < ratings[l].elo && r[l].glicko < ratings[l].glicko
  {
  }

  // ----- who is listed first -----

  /** The same fight with its fighters listed the other way round. */
  function Mirrored(f: Fight): Fight {
    f.(a := f.b, b := f.a, aWon := !f.aWon)
  }

  ghost predicate Symmetric(rules: Rules) {
    forall x, y, aWon, ka, kb, finish ::
      rules.elo(x, y, aWon, ka, kb, finish).0 == rules.elo(y, x, !aWon, kb, ka, finish).1
  }

  /** Win probabilities of the two sides add up to one. */
  ghost predicate Complementary(cv: Curve) {
    forall x, y :: cv.elo(x, y) + cv.elo(y, x) == 1.0
  }

  lemma StandardRulesSymmetric(cv: Curve)
    requires cv.Valid() && Complementary(cv)
    ensures Symmetric(StandardRules(cv))
  {
    forall x, y, aWon, ka, kb, finish
      ensures StandardRules(cv).elo(x, y, aWon, ka, kb, finish).0
           == StandardRules(cv).elo(y, x, !aWon, kb, ka, finish).1
    {
      assert cv.elo(x, y) == 1.0 - cv.elo(y, x);
    }
  }

  /** Given the winner, which fighter is listed first makes no difference: both are rated from the ratings
      before the fight. */
  lemma MirroredFightSame(rules: Rules, fighters: Fighters, ratings: Ratings, f: Fight)
    requires Symmetric(rules) && f.a != f.b
    ensures Fought(rules, fighters, ratings, Mirrored(f)) == Fought(rules, fighters, ratings, f)
  {
    if f.a in ratings && f.b in ratings {
      var x, y := ratings[f.a].elo, ratings[f.b].elo;
      var ka, kb := K(fighters, f.a, f.title), K(fighters, f.b, f.title);
      assert rules.elo(x, y, f.aWon, ka, kb, f.finish).0 == rules.elo(y, x, !f.aWon, kb, ka, f.finish).1;
      assert rules.elo(y, x, !f.aWon, kb, ka, f.finish).0 == rules.elo(x, y, !!f.aWon, ka, kb, f.finish).1;
    }
  }

  /** With the rules of the source each fighter of a decision moves by the factor of the own career, times
      what the result differs from what was expected. */
  lemma DecisionMovesByOwnFactor(cv: Curve, fighters: Fighters, ratings: Ratings, f: Fight, e: real, s: real)
    requires cv.Valid() && f.a in ratings && f.b in ratings && f.a in fighters && f.b in fighters && f.a != f.b
    requires !f.finish && e == cv.elo(ratings[f.a].elo, ratings[f.b].elo) && s == if f.aWon then 1.0 else 0.0
    ensures var r := Fought(StandardRules(cv), fighters, ratings, f);
            && r[f.a].elo - ratings[f.a].elo
               == KFactor(fighters[f.a].wins + fighters[f.a].losses, f.title) * (s - e)
            && r[f.b].elo - ratings[f.b].elo
               == KFactor(fighters[f.b].wins + fighters[f.b].losses, f.title) * (e - s)
  {
    EloDecision(cv, ratings[f.a].elo, ratings[f.b].elo, f.aWon, K(fighters, f.a, f.title), K(fighters, f.b, f.title));
  }

  // ----- total Elo -----

  ghost predicate Distinct(ids: seq<Id>) {
    forall i, j :: 0 <= i < j < |ids| ==> ids[i] != ids[j]
  }

  function EloOf(ratings: Ratings, x: Id): real {
    if x in ratings then ratings[x].elo else 0.0
  }

  function TotalElo(ids: seq<Id>, ratings: Ratings): real {
    if ids == [] then 0.0 else EloOf(ratings, ids[0]) + TotalElo(ids[1..], ratings)
  }

  function Change(before: Ratings, after: Ratings, x: Id): real
    requires x in before && x in after
  {
    after[x].elo - before[x].elo
  }

  /** If only a and b change, the total moves by what they do. */
  lemma {:induction false} TotalMoves(ids: seq<Id>, before: Ratings, after: Ratings, a: Id, b: Id)
    requires Distinct(ids) && forall x :: x in ids ==> x in before && x in after
    requires a in before && a in after && b in before && b in after
    requires forall x :: x in ids && x != a && x != b ==> after[x].elo == before[x].elo
    ensures TotalElo(ids, after) - TotalElo(ids, before)
         == (if a in ids then Change(before, after, a) else 0.0)
            + (if b in ids && b != a then Change(before, after, b) else 0.0)
  {
    if ids != [] {
      TotalMoves(ids[1..], before, after, a, b);
      assert ids[0] !in ids[1..];
      assert forall x :: x in ids <==> x == ids[0] || x in ids[1..];
    }
  }

  /** The fighters are distinct and have equal K-factors. */
  predicate Balanced(fighters: Fighters, f: Fight) {
    f.a != f.b && K(fighters, f.a, f.title) == K(fighters, f.b, f.title)
  }

  function Imbalance(fighters: Fighters, f: Fight): real {
    Abs(K(fighters, f.a, f.title) - K(fighters, f.b, f.title))
  }

  ghost predicate Lists(ids: seq<Id>, ratings: Ratings) {
    Distinct(ids) && forall x :: x in ids <==> x in ratings
  }

  /** A fight between known fighters leaves the total alone exactly when it is balanced; otherwise,
      if the fighters differ, it moves the total by less than 1.25 times the K-factor difference. */
  lemma FightMovesTotal(rules: Rules, fighters: Fighters, ratings: Ratings, f: Fight, ids: seq<Id>)
    requires rules.Lawful() && InRange(ratings) && Lists(ids, ratings) && f.a in ratings && f.b in ratings
    ensures var moved := TotalElo(ids, Fought(rules, fighters, ratings, f)) - TotalElo(ids, ratings);
            && (moved == 0.0 <==> Balanced(fighters, f))
            && (f.a != f.b && !Balanced(fighters, f) ==> Abs(moved) < 1.25 * Imbalance(fighters, f))
  {
    var r := Fought(rules, fighters, ratings, f);
    FoughtKeepsRange(rules, fighters, ratings, f);
    TotalMoves(ids, ratings, r, f.a, f.b);
  }

  // ----- whole rebuilds -----

  function Rebuild(rules: Rules, fighters: Fighters, fights: seq<Fight>): (r: Ratings)
    ensures r.Keys == fighters.Keys
  {
    if fights == [] then Start(fighters)
    else Fought(rules, fighters, Rebuild(rules, fighters, fights[..|fights| - 1]), fights[|fights| - 1])
  }

  /** Every deviation of a rebuild lies between 60 and 350. */
  lemma {:induction false} RebuildInRange(rules: Rules, fighters: Fighters, fights: seq<Fight>)
    requires rules.Lawful()
    ensures InRange(Rebuild(rules, fighters, fights))
    ensures forall x :: x in fighters ==>
              60.0 * 60.0 <= Rebuild(rules, fighters, fights)[x].variance <= 350.0 * 350.0
  {
    if fights != [] {
      var before := fights[..|fights| - 1];
      RebuildInRange(rules, fighters, before);
      FoughtKeepsRange(rules, fighters, Rebuild(rules, fighters, before), fights[|fights| - 1]);
    }
  }

  /** The fights that are counted. */
  predicate Counted(fighters: Fighters, f: Fight) {
    f.a in fighters && f.b in fighters
  }

  /** The most a fight can move the total. */
  function MostMoved(fighters: Fighters, f: Fight): real {
    if Counted(fighters, f) then 1.25 * Imbalance(fighters, f) else 0.0
  }

  /** The most the fights can move the total. */
  function Drift(fighters: Fighters, fights: seq<Fight>): real {
    if fights == [] then 0.0
    else
      var f := fights[|fights| - 1];
      Drift(fighters, fights[..|fights| - 1]) + MostMoved(fighters, f)
  }

  lemma {:induction false} StartTotal(fighters: Fighters, ids: seq<Id>)
    requires forall x :: x in ids ==> x in fighters
    ensures TotalElo(ids, Start(fighters)) == 1500.0 * |ids| as real
  {
    if ids != [] {
      StartTotal(fighters, ids[1..]);
    }
  }

  lemma FightDrift(rules: Rules, fighters: Fighters, ratings: Ratings, f: Fight, ids: seq<Id>)
    requires rules.Lawful() && InRange(ratings) && Lists(ids, ratings) && ratings.Keys == fighters.Keys
    requires Counted(fighters, f) ==> f.a != f.b
    ensures Abs(TotalElo(ids, Fought(rules, fighters, ratings, f)) - TotalElo(ids, ratings))
         <= MostMoved(fighters, f)
  {
    if Counted(fighters, f) {
      FightMovesTotal(rules, fighters, ratings, f, ids);
    }
  }

  lemma StraysFurther(base: real, total: real, moved: real, drift: real, step: real)
    requires Abs(total - base) <= drift && Abs(moved - total) <= step
    ensures Abs(moved - base) <= drift + step
  {
  }

  /** For every list of fights between distinct fighters, the total Elo strays from 1500 per fighter
      by no more than 1.25 times the K-factor differences of the fights counted; not at all if these
      are all balanced. */
  lemma {:induction false} RebuildTotal(rules: Rules, fighters: Fighters, fights: seq<Fight>, ids: seq<Id>)
    requires rules.Lawful() && Distinct(ids) && forall x :: x in ids <==> x in fighters
    requires forall k :: 0 <= k < |fights| && Counted(fighters, fights[k]) ==> fights[k].a != fights[k].b
    ensures Abs(TotalElo(ids, Rebuild(rules, fighters, fights)) - 1500.0 * |ids| as real) <= Drift(fighters, fights)
  {
    if fights == [] {
      StartTotal(fighters, ids);
    } else {
      var before, f := fights[..|fights| - 1], fights[|fights| - 1];
      var ratings := Rebuild(rules, fighters, before);
      RebuildTotal(rules, fighters, before, ids);
      RebuildInRange(rules, fighters, before);
      FightDrift(rules, fighters, ratings, f, ids);
      StraysFurther(1500.0 * |ids| as real, TotalElo(ids, ratings),
                    TotalElo(ids, Fought(rules, fighters, ratings, f)),
                    Drift(fighters, before), MostMoved(fighters, f));
    }
  }

  lemma {:induction false} BalancedDrift(fighters: Fighters, fights: seq<Fight>)
    requires forall k :: 0 <= k < |fights| && Counted(fighters, fights[k]) ==> Balanced(fighters, fights[k])
    ensures Drift(fighters, fights) == 0.0
  {
    if fights != [] {
      BalancedDrift(fighters, fights[..|fights| - 1]);
    }
  }

  /** Elo is conserved by every rebuild of balanced fights. */
  lemma RebuildConservesElo(rules: Rules, fighters: Fighters, fights: seq<Fight>, ids: seq<Id>)
    requires rules.Lawful() && Distinct(ids) && forall x :: x in ids <==> x in fighters
    requires forall k :: 0 <= k < |fights| && Counted(fighters, fights[k]) ==> Balanced(fighters, fights[k])
    ensures TotalElo(ids, Rebuild(rules, fighters, fights)) == 1500.0 * |ids| as real
  {
    BalancedDrift(fighters, fights);
    RebuildTotal(rules, fighters, fights, ids);
  }

  /** Over a rebuild no deviation ever grows. */
  lemma {:induction false} DeviationsShrink(rules: Rules, fighters: Fighters, fights: seq<Fight>, k: nat)
    requires rules.Lawful() && k <= |fights|
    ensures forall x :: x in fighters ==>
              Rebuild(rules, fighters, fights)[x].variance <= Rebuild(rules, fighters, fights[..k])[x].variance
    decreases |fights|
  {
    if k == |fights| {
      assert fights[..k] == fights;
    } else {
      var before := fights[..|fights| - 1];
      assert before[..k] == fights[..k];
      DeviationsShrink(rules, fighters, before, k);
      LastFightShrinks(rules, fighters, fights);
    }
  }

  lemma LastFightShrinks(rules: Rules, fighters: Fighters, fights: seq<Fight>)
    requires rules.Lawful() && fights != []
    ensures forall x :: x in fighters ==>
              Rebuild(rules, fighters, fights)[x].variance
              <= Rebuild(rules, fighters, fights[..|fights| - 1])[x].variance
  {
    var before := fights[..|fights| - 1];
    RebuildInRange(rules, fighters, before);
    FoughtKeepsRange(rules, fighters, Rebuild(rules, fighters, before), fights[|fights| - 1]);
  }

  /** Every fight of the list between two known fighters counts when its turn comes: it raises the winner and
      lowers the loser on both scales, and moves nobody else. */
  lemma EveryFightCounts(rules: Rules, fighters: Fighters, fights: seq<Fight>, k: nat)
    requires rules.Lawful() && k < |fights|
    requires fights[k].a in fighters && fights[k].b in fighters && fights[k].a != fights[k].b
    ensures var f, r, r' := fights[k], Rebuild(rules, fighters, fights[..k]), Rebuild(rules, fighters, fights[..k + 1]);
            var (w, l) := if f.aWon then (f.a, f.b) else (f.b, f.a);
            && r[w].elo < r'[w].elo && r[w].glicko < r'[w].glicko
            && r'[l].elo < r[l].elo && r'[l].glicko < r[l].glicko
            && forall x :: x in fighters && x != w && x != l ==> r'[x] == r[x]
  {
    assert fights[..k + 1][..k] == fights[..k];
    RebuildInRange(rules, fighters, fights[..k]);
    WinnerGains(rules, fighters, Rebuild(rules, fighters, fights[..k]), fights[k]);
    FoughtKeepsRange(rules, fighters, Rebuild(rules, fighters, fights[..k]), fights[k]);
  }

  /** Whoever is in no fight between known fighters ends at 1500 on both scales, with a deviation of 350. */
  lemma {:induction false} UnfoughtKeepsStart(rules: Rules, fighters: Fighters, fights: seq<Fight>, x: Id)
    requires rules.Lawful() && x in fighters
    requires forall k :: 0 <= k < |fights| && Counted(fighters, fights[k]) ==> fights[k].a != x && fights[k].b != x
    ensures Rebuild(rules, fighters, fights)[x] == Rating(1500.0, 1500.0, 350.0 * 350.0)
  {
    if fights != [] {
      var before := fights[..|fights| - 1];
      UnfoughtKeepsStart(rules, fighters, before, x);
      RebuildInRange(rules, fighters, before);
      FoughtKeepsRange(rules, fighters, Rebuild(rules, fighters, before), fights[|fights| - 1]);
    }
  }

  /** The loop of the pipeline, with the rules of the source. */
  method RebuildRankings(cv: Curve, fighters: Fighters, fights: seq<Fight>) returns (ratings: Ratings)
    requires cv.Valid()
    ensures ratings == Rebuild(StandardRules(cv), fighters, fights)
  {
    var rules := StandardRules(cv);
    ratings := Start(fighters);
    for k := 0 to |fights|
      invariant ratings == Rebuild(rules, fighters, fights[..k])
    {
      var f := fights[k];
      assert fights[..k + 1][..k] == fights[..k];
      if f.a in ratings && f.b in ratings {
        var x, y := ratings[f.a], ratings[f.b];
        var (ea, eb) := rules.elo(x.elo, y.elo, f.aWon, K(fighters, f.a, f.title), K(fighters, f.b, f.title), f.finish);
        var ga := rules.glicko(x.glicko, x.variance, y.glicko, y.variance, f.aWon);
        var gb := rules.glicko(y.glicko, y.variance, x.glicko, x.variance, !f.aWon);
        ratings := ratings[f.a := WithGlicko(x.(elo := ea), ga)];
        ratings := ratings[f.b := WithGlicko(ratings[f.b].(elo := eb), gb)];
      }
    }
    assert fights[..|fights|] == fights;
  }
}
