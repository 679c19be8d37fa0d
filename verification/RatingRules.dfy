/**
 How one fight updates ratings: Elo (intelligence/rankings_engine/elo.py) and Glicko
 (intelligence/rankings_engine/glicko.py).

 Powers and roots enter as functions constrained only by their range: a Curve gives the win
 probability and the Glicko factor g.  A Glicko deviation is kept as its square, on which the
 source's max and root act as a max.
 */
module RatingRules {
  import opened Rounding

  /** The transcendental parts: Elo and Glicko win probabilities, g, and Q. */
  datatype Curve = Curve(
    elo: (real, real) -> real,
    glicko: (real, real, real) -> real,
    g: real -> real,
    q: real)
  {
    ghost predicate Valid() {
      && (forall x, y :: 0.0 < elo(x, y) < 1.0)
      && (forall x, y, v :: 0.0 < glicko(x, y, v) < 1.0)
      && (forall v :: 0.0 < g(v) <= 1.0)
      && 0.0 < q
    }
  }

  const MIN_VARIANCE: real := 60.0 * 60.0
  const EPS: real := 0.0000000001

  // ----- Elo -----

  function KFactor(fights: int, title: bool): real {
    if fights < 5 then 64.0 else if title then 48.0 else 32.0
  }

  function FinishFactor(finish: bool): real {
    if finish then 1.25 else 1.0
  }

  function UpdateElo(cv: Curve, x: real, y: real, aWon: bool, ka: real, kb: real, finish: bool): (real, real) {
    var ea := cv.elo(x, y);
    var eb := 1.0 - ea;
    var (sa, sb) := if aWon then (1.0, 0.0) else (0.0, 1.0);
    (x + ka * (sa - ea) * FinishFactor(finish), y + kb * (sb - eb) * FinishFactor(finish))
  }

  /** The part of the winner's gain that the K-factor scales. */
  function Surprise(cv: Curve, x: real, y: real, aWon: bool): real {
    if aWon then 1.0 - cv.elo(x, y) else cv.elo(x, y)
  }

  /** The rating points at stake for a player with factor k. */
  function Stake(k: real, s: real): real {
    k * s
  }

  /** What each side's rating moves by, from the winner's point of view. */
  lemma EloMoves(cv: Curve, x: real, y: real, aWon: bool, ka: real, kb: real, finish: bool)
    requires cv.Valid()
    ensures var (x', y') := UpdateElo(cv, x, y, aWon, ka, kb, finish);
            var s := Surprise(cv, x, y, aWon) * FinishFactor(finish);
            && 0.0 < s < 1.25
            && x' == (if aWon then x + Stake(ka, s) else x - Stake(ka, s))
            && y' == (if aWon then y - Stake(kb, s) else y + Stake(kb, s))
  {
    var e, f := cv.elo(x, y), FinishFactor(finish);
    assert ka * (0.0 - e) * f == -(ka * (e * f));
    assert kb * (0.0 - (1.0 - e)) * f == -(kb * ((1.0 - e) * f));
    assert ka * (1.0 - e) * f == ka * ((1.0 - e) * f);
    assert kb * (1.0 - (1.0 - e)) * f == kb * (e * f);
  }

  lemma Scaled(k: real, s: real)
    requires 0.0 < s < 1.25
    ensures 0.0 < k ==> 0.0 < Stake(k, s)
    ensures k == 0.0 <==> Stake(k, s) == 0.0
    ensures k != 0.0 ==> Abs(Stake(k, s)) < 1.25 * Abs(k)
  {
    if 0.0 < k {
      assert 0.0 < k * (1.25 - s);
    } else if k < 0.0 {
      assert 0.0 < -k * (1.25 - s);
    }
  }

  lemma Transfer(ka: real, kb: real, s: real)
    requires 0.0 < s < 1.25 && 0.0 < ka && 0.0 < kb
    ensures 0.0 < Stake(ka, s) && 0.0 < Stake(kb, s)
    ensures ka == kb <==> Stake(ka, s) - Stake(kb, s) == 0.0
    ensures ka != kb ==> Abs(Stake(ka, s) - Stake(kb, s)) < 1.25 * Abs(ka - kb)
  {
    Scaled(ka, s);
    Scaled(kb, s);
    Scaled(ka - kb, s);
    assert Stake(ka - kb, s) == Stake(ka, s) - Stake(kb, s);
  }

  lemma Settle(x: real, y: real, x': real, y': real, aWon: bool, won: real, lost: real)
    requires 0.0 < won && 0.0 < lost
    requires if aWon then x' == x + won && y' == y - lost else x' == x - won && y' == y + lost
    ensures if aWon then x < x' && y' < y else x' < x && y < y'
    ensures Abs(x' + y' - x - y) == Abs(won - lost)
    ensures x' + y' == x + y <==> won - lost == 0.0
  {
  }

  /** The winner's rating rises and the loser's falls, and together they move by less than 1.25
      times the difference of the K-factors: not at all exactly when these are equal. */
  ghost predicate EloLaw(x: real, y: real, aWon: bool, ka: real, kb: real, u: (real, real)) {
    && (if aWon then x < u.0 && u.1 < y else u.0 < x && y < u.1)
    && (ka == kb <==> u.0 + u.1 == x + y)
    && (ka != kb ==> Abs(u.0 + u.1 - x - y) < 1.25 * Abs(ka - kb))
  }

  lemma EloUpdateLaws(cv: Curve, x: real, y: real, aWon: bool, ka: real, kb: real, finish: bool)
    requires cv.Valid() && 0.0 < ka && 0.0 < kb
    ensures EloLaw(x, y, aWon, ka, kb, UpdateElo(cv, x, y, aWon, ka, kb, finish))
  {
    var (x', y') := UpdateElo(cv, x, y, aWon, ka, kb, finish);
    var s := Surprise(cv, x, y, aWon) * FinishFactor(finish);
    EloMoves(cv, x, y, aWon, ka, kb, finish);
    Transfer(ka, kb, s);
    Settle(x, y, x', y', aWon, Stake(ka, s), Stake(kb, s));
  }

  /** Newcomers move most, and title fights more than others once they are not. */
  lemma KFactorSteps(fights: int, title: bool)
    ensures KFactor(fights, title) in {64.0, 48.0, 32.0}
    ensures KFactor(fights, title) == 64.0 <==> fights < 5
    ensures KFactor(fights, title) == 48.0 <==> 5 <= fights && title
  {
  }

  /** On a decision each side moves by its K-factor times what the result differs from what was expected. */
  lemma EloDecision(cv: Curve, x: real, y: real, aWon: bool, ka: real, kb: real)
    ensures var (x', y') := UpdateElo(cv, x, y, aWon, ka, kb, false);
            && x' - x == ka * ((if aWon then 1.0 else 0.0) - cv.elo(x, y))
            && y' - y == kb * (cv.elo(x, y) - (if aWon then 1.0 else 0.0))
  {
    var s, e := if aWon then 1.0 else 0.0, cv.elo(x, y);
    assert kb * ((1.0 - s) - (1.0 - e)) == kb * (e - s);
  }

  /** A finish moves both by a quarter more. */
  lemma EloFinish(cv: Curve, x: real, y: real, aWon: bool, ka: real, kb: real)
    ensures UpdateElo(cv, x, y, aWon, ka, kb, true).0 - x == 1.25 * (UpdateElo(cv, x, y, aWon, ka, kb, false).0 - x)
    ensures UpdateElo(cv, x, y, aWon, ka, kb, true).1 - y == 1.25 * (UpdateElo(cv, x, y, aWon, ka, kb, false).1 - y)
  {
  }

  // ----- Glicko -----

  function Information(q: real, g: real, e: real): real {
    q * q * g * g * e * (1.0 - e)
  }

  /** 1 / d^2: what a fight adds to the precision of a rating. */
  function Precision(cv: Curve, rating: real, opponent: real, opponentVariance: real): real {
    Information(cv.q, cv.g(opponentVariance), cv.glicko(rating, opponent, opponentVariance)) + EPS
  }

  function UpdateGlicko(cv: Curve, rating: real, variance: real, opponent: real, opponentVariance: real, won: bool)
    : (real, real)
    requires cv.Valid() && 0.0 < variance
  {
    var e, g := cv.glicko(rating, opponent, opponentVariance), cv.g(opponentVariance);
    PrecisionPositive(cv, rating, opponent, opponentVariance);
    var dSquared := 1.0 / Precision(cv, rating, opponent, opponentVariance);
    var precision := 1.0 / (variance + EPS) + 1.0 / dSquared;
    var shrunk := 1.0 / precision;
    (rating + cv.q / precision * g * ((if won then 1.0 else 0.0) - e),
     if MIN_VARIANCE < shrunk then shrunk else MIN_VARIANCE)
  }

  lemma ProductPositive(q: real, g: real, e: real)
    requires 0.0 < q && 0.0 < g && 0.0 < e < 1.0
    ensures 0.0 < Information(q, g, e)
  {
    Positive(q, g);
    var t, p := q * g, e * (1.0 - e);
    Positive(e, 1.0 - e);
    Positive(t, p);
    Positive(t, t * p);
    assert t * (t * p) == q * q * g * g * e * (1.0 - e);
  }

  lemma Positive(x: real, y: real)
    requires 0.0 < x && 0.0 < y
    ensures 0.0 < x * y
  {
  }

  lemma Inverse(x: real)
    requires 0.0 < x
    ensures 0.0 < 1.0 / x && 1.0 / (1.0 / x) == x && (1.0 / x) * x == 1.0
  {
  }

  lemma PrecisionPositive(cv: Curve, rating: real, opponent: real, opponentVariance: real)
    requires cv.Valid()
    ensures EPS <= Precision(cv, rating, opponent, opponentVariance)
    ensures 0.0 < 1.0 / Precision(cv, rating, opponent, opponentVariance)
    ensures 1.0 / (1.0 / Precision(cv, rating, opponent, opponentVariance))
         == Precision(cv, rating, opponent, opponentVariance)
  {
    ProductPositive(cv.q, cv.g(opponentVariance), cv.glicko(rating, opponent, opponentVariance));
    Inverse(Precision(cv, rating, opponent, opponentVariance));
  }

  lemma InverseBound(t: real, v: real)
    requires 0.0 < t && 1.0 <= v * t
    ensures 1.0 / t <= v
  {
    Inverse(t);
    var i := 1.0 / t;
    if v < i {
      assert v * t < i * t;
    }
  }

  /** Adding at least EPS to the precision of a variance of 3600 or more cannot raise it. */
  lemma Shrinks(v: real, p: real)
    requires MIN_VARIANCE <= v && EPS <= p
    ensures 0.0 < 1.0 / (v + EPS) + p
    ensures 1.0 / (1.0 / (v + EPS) + p) <= v
  {
    var u := v + EPS;
    var w := 1.0 / u;
    Inverse(u);
    InverseBound(u, 1.0);
    assert v * w == 1.0 - EPS * w;
    assert EPS <= v * EPS <= v * p;
    assert v * (w + p) == v * w + v * p;
    InverseBound(w + p, v);
  }

  lemma Shift(c: real, g: real, e: real)
    requires 0.0 < c && 0.0 < g && 0.0 < e < 1.0
    ensures 0.0 < c * g * (1.0 - e) && c * g * (0.0 - e) < 0.0
  {
    var d := c * g;
    assert 0.0 < d;
    assert 0.0 < d * e;
  }

  lemma Quotient(x: real, y: real)
    requires 0.0 < x && 0.0 < y
    ensures 0.0 < x / y
  {
  }

  /** The precision of a rating after a fight. */
  function Sharpened(cv: Curve, rating: real, variance: real, opponent: real, opponentVariance: real): real
    requires variance + EPS != 0.0
  {
    1.0 / (variance + EPS) + Precision(cv, rating, opponent, opponentVariance)
  }

  /** The two parts of an update, in terms of that precision. */
  lemma GlickoParts(cv: Curve, rating: real, variance: real, opponent: real, opponentVariance: real, won: bool)
    requires cv.Valid() && MIN_VARIANCE <= variance
    ensures var p := Sharpened(cv, rating, variance, opponent, opponentVariance);
            var (rating', variance') := UpdateGlicko(cv, rating, variance, opponent, opponentVariance, won);
            var e, g := cv.glicko(rating, opponent, opponentVariance), cv.g(opponentVariance);
            && 0.0 < p && 1.0 / p <= variance
            && rating' == rating + cv.q / p * g * ((if won then 1.0 else 0.0) - e)
            && variance' == if MIN_VARIANCE < 1.0 / p then 1.0 / p else MIN_VARIANCE
  {
    PrecisionPositive(cv, rating, opponent, opponentVariance);
    Shrinks(variance, Precision(cv, rating, opponent, opponentVariance));
  }

  /** A deviation stays at least 60 and never grows; the winner's rating rises, the loser's falls. */
  ghost predicate GlickoLaw(rating: real, variance: real, won: bool, u: (real, real)) {
    MIN_VARIANCE <= u.1 <= variance && (if won then rating < u.0 else u.0 < rating)
  }

  lemma GlickoLaws(cv: Curve, rating: real, variance: real, opponent: real, opponentVariance: real, won: bool)
    requires cv.Valid() && MIN_VARIANCE <= variance
    ensures GlickoLaw(rating, variance, won, UpdateGlicko(cv, rating, variance, opponent, opponentVariance, won))
  {
    GlickoParts(cv, rating, variance, opponent, opponentVariance, won);
    var p := Sharpened(cv, rating, variance, opponent, opponentVariance);
    var e, g := cv.glicko(rating, opponent, opponentVariance), cv.g(opponentVariance);
    Quotient(cv.q, p);
    Shift(cv.q / p, g, e);
  }

  lemma ShareOfInverse(q: real, p: real, g: real, d: real)
    requires 0.0 < p
    ensures q / p * g * d == q * (1.0 / p) * g * d
    ensures 1.0 / (1.0 / p) == p
  {
    assert q / p == q * (1.0 / p);
    Inverse(p);
  }

  /** Above the floor, a fight adds q^2 g^2 e (1 - e), and EPS, to the precision of the rating, and moves the
      rating by the new variance times q g times what the result differs from what was expected. */
  lemma GlickoUpdateIs(cv: Curve, rating: real, variance: real, opponent: real, opponentVariance: real, won: bool,
                       g: real, e: real, r: real, v: real)
    requires cv.Valid() && MIN_VARIANCE <= variance
    requires g == cv.g(opponentVariance) && e == cv.glicko(rating, opponent, opponentVariance)
    requires (r, v) == UpdateGlicko(cv, rating, variance, opponent, opponentVariance, won) && MIN_VARIANCE < v
    ensures 1.0 / v == 1.0 / (variance + EPS) + (cv.q * cv.q * g * g * e * (1.0 - e) + EPS)
    ensures r - rating == cv.q * v * g * ((if won then 1.0 else 0.0) - e)
  {
    GlickoParts(cv, rating, variance, opponent, opponentVariance, won);
    var p := Sharpened(cv, rating, variance, opponent, opponentVariance);
    ShareOfInverse(cv.q, p, g, (if won then 1.0 else 0.0) - e);
  }

  // ----- the two rules together -----

  /** What a rebuild applies: an Elo update of both ratings and a Glicko update of one. */
  datatype Rules = Rules(
    elo: (real, real, bool, real, real, bool) -> (real, real),
    glicko: (real, real, real, real, bool) -> (real, real))
  {
    ghost predicate Lawful() {
      && (forall x, y, aWon, ka, kb, finish :: 0.0 < ka && 0.0 < kb ==>
            EloLaw(x, y, aWon, ka, kb, elo(x, y, aWon, ka, kb, finish)))
      && (forall rating, variance, opponent, opponentVariance, won :: MIN_VARIANCE <= variance ==>
            GlickoLaw(rating, variance, won, glicko(rating, variance, opponent, opponentVariance, won)))
    }
  }

  /** The rules of the source. */
  function StandardRules(cv: Curve): Rules
    requires cv.Valid()
  {
    Rules((x: real, y: real, aWon: bool, ka: real, kb: real, finish: bool) =>
            UpdateElo(cv, x, y, aWon, ka, kb, finish),
          (rating: real, variance: real, opponent: real, opponentVariance: real, won: bool) =>
            if 0.0 < variance then UpdateGlicko(cv, rating, variance, opponent, opponentVariance, won)
            else (rating, variance))
  }

  lemma StandardRulesLawful(cv: Curve)
    requires cv.Valid()
    ensures StandardRules(cv).Lawful()
  {
    var rules := StandardRules(cv);
    forall x, y, aWon, ka, kb, finish | 0.0 < ka && 0.0 < kb
      ensures EloLaw(x, y, aWon, ka, kb, rules.elo(x, y, aWon, ka, kb, finish))
    {
      EloUpdateLaws(cv, x, y, aWon, ka, kb, finish);
    }
    forall rating, variance, opponent, opponentVariance, won | MIN_VARIANCE <= variance
      ensures GlickoLaw(rating, variance, won, rules.glicko(rating, variance, opponent, opponentVariance, won))
    {
      GlickoLaws(cv, rating, variance, opponent, opponentVariance, won);
    }
  }
}
