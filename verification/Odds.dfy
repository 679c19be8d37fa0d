/**
 Betting odds (prediction/probabilities/all.py): American odds, and the nearest simple fraction.
 */
module Odds {
  import opened Wrappers
  import opened Rounding

  // ----- the nearest fraction with a small denominator -----

  datatype Fraction = Fraction(num: int, den: int)

  function Quotient(n: int, d: int): real
    requires d != 0
  {
    n as real / d as real
  }

  function Miss(x: real, n: int, d: int): real
    requires d != 0
  {
    Abs(x - Quotient(n, d))
  }

  /** The numerator the search tries for a denominator. */
  function Numerator(x: real, d: int): int {
    Round(x * d as real)
  }

  /** No fraction with a denominator up to maxDen is nearer to x, and those with a smaller
      denominator are strictly further away. */
  ghost predicate IsNearest(x: real, f: Fraction, maxDen: int) {
    && 1 <= f.den <= maxDen
    && f.num == Numerator(x, f.den)
    && (forall n: int, d: int :: 1 <= d <= maxDen ==> Miss(x, f.num, f.den) <= Miss(x, n, d))
    && (forall n: int, d: int :: 1 <= d < f.den ==> Miss(x, f.num, f.den) < Miss(x, n, d))
  }

  lemma MissScaled(x: real, n: int, d: int)
    requires 1 <= d
    ensures Miss(x, n, d) == Abs(x * d as real - n as real) / d as real
  {
    Unscaled(x, n as real, d as real);
  }

  /** For a given denominator the rounded numerator is best. */
  lemma RoundedMissesLeast(x: real, n: int, d: int)
    requires 1 <= d
    ensures Miss(x, Numerator(x, d), d) <= Miss(x, n, d)
  {
    MissScaled(x, n, d);
    MissScaled(x, Numerator(x, d), d);
    RoundedGap(x * d as real, n, d as real);
  }

  /** The search tries one numerator for each denominator and keeps the first of the best. */
  method ToFraction(x: real, maxDen: int) returns (f: Fraction)
    ensures maxDen < 1 ==> f == Fraction(1, 1)
    ensures 1 <= maxDen ==> IsNearest(x, f, maxDen)
  {
    f := Fraction(1, 1);
    var least := None;
    var d := 1;
    while d <= maxDen
      invariant 1 <= d && (maxDen < 1 ==> d == 1) && (1 <= maxDen ==> d <= maxDen + 1)
      invariant d == 1 <==> least == None
      invariant d == 1 ==> f == Fraction(1, 1)
      invariant 1 < d ==> 1 <= f.den < d && f.num == Numerator(x, f.den)
      invariant 1 < d ==> least == Some(Miss(x, f.num, f.den))
      invariant forall e :: 1 <= e < d ==> Miss(x, f.num, f.den) <= Miss(x, Numerator(x, e), e)
      invariant 1 < d ==> forall e :: 1 <= e < f.den ==>
        Miss(x, f.num, f.den) < Miss(x, Numerator(x, e), e)
    {
      var n := Numerator(x, d);
      var miss := Abs(x - Quotient(n, d));
      if least == None || miss < least.value {
        f, least := Fraction(n, d), Some(miss);
      }
      d := d + 1;
    }
    forall n: int, e: int {:trigger Miss(x, n, e)} | 1 <= e <= maxDen
      ensures Miss(x, Numerator(x, e), e) <= Miss(x, n, e)
    {
      RoundedMissesLeast(x, n, e);
    }
  }

  /** At most one fraction is nearest in this sense. */
  lemma NearestIsUnique(x: real, f: Fraction, g: Fraction, maxDen: int)
    requires IsNearest(x, f, maxDen) && IsNearest(x, g, maxDen)
    ensures f == g
  {
    assert Miss(x, f.num, f.den) == Miss(x, g.num, g.den);
  }

  lemma SameQuotient(n: int, d: int, g: int)
    requires 1 <= d && 1 <= g
    ensures 1 <= g * d && Quotient(g * n, g * d) == Quotient(n, d)
  {
    var q, gg, dd := Quotient(n, d), g as real, d as real;
    assert q * dd == n as real;
    assert (g * n) as real == gg * n as real && (g * d) as real == gg * dd;
    assert q * (gg * dd) == gg * (q * dd);
    assert 0.0 < gg * dd;
  }

  /** It is in lowest terms, and no fraction with a smaller denominator has its value. */
  lemma NearestIsReduced(x: real, f: Fraction, maxDen: int)
    requires IsNearest(x, f, maxDen)
    ensures forall n: int, d: int :: 1 <= d < f.den ==> Quotient(n, d) != Quotient(f.num, f.den)
    ensures forall g: int, n: int, d: int :: 2 <= g && f.num == g * n ==> f.den != g * d
  {
    forall n: int, d: int | 1 <= d < f.den
      ensures Quotient(n, d) != Quotient(f.num, f.den)
    {
      assert Miss(x, f.num, f.den) < Miss(x, n, d);
    }
    forall g: int, n: int, d: int | 2 <= g && f.num == g * n
      ensures f.den != g * d
    {
      if f.den == g * d {
        assert 1 <= d < f.den;
        SameQuotient(n, d, g);
      }
    }
  }

  /** An x that is itself such a fraction is hit exactly. */
  lemma NearestHitsExactly(x: real, f: Fraction, maxDen: int, n: int, d: int)
    requires IsNearest(x, f, maxDen) && 1 <= d <= maxDen && x == Quotient(n, d)
    ensures Quotient(f.num, f.den) == x
  {
    assert Miss(x, f.num, f.den) <= Miss(x, n, d);
  }

  // ----- American odds -----

  datatype OddsError = DivisionByZero | UnboundFraction

  datatype Quote = Quote(probability: real, fairProbability: real, american: int, decimal: real,
                         fractional: Fraction)

  const MAX_DENOMINATOR := 20

  function American(p: real): int
    requires p != 0.0 && p != 1.0
  {
    if p >= 0.5 then Round(-100.0 * p / (1.0 - p)) else Round(100.0 * (1.0 - p) / p)
  }

  function ImpliedProbability(odds: int): (p: real)
    ensures 0.0 <= p <= 1.0
  {
    if odds > 0 then 100.0 / (odds as real + 100.0)
    else (-odds) as real / ((-odds) as real + 100.0)
  }

  /** A probability at 0 or 1 after the margin divides by zero; below 0 the fraction is never set
      and building the answer fails. */
  method ProbabilityToOdds(prob: real, margin: real) returns (r: Result<Quote, OddsError>)
    ensures var p := prob - margin / 2.0;
            && (r == Err(DivisionByZero) <==> p == 0.0 || p == 1.0)
            && (r == Err(UnboundFraction) <==> p < 0.0)
            && (r.Ok? ==>
                  && IsNearest(1.0 / p - 1.0, r.value.fractional, 20)
                  && r.value == Quote(Rounded(prob, 1000.0), Rounded(p, 1000.0), American(p),
                                      Rounded(1.0 / p, 100.0), r.value.fractional))
  {
    var implied := prob - margin / 2.0;
    var american;
    if implied >= 0.5 {
      if 1.0 - implied == 0.0 {
        return Err(DivisionByZero);
      }
      american := Round(-100.0 * implied / (1.0 - implied));
    } else {
      if implied == 0.0 {
        return Err(DivisionByZero);
      }
      american := Round(100.0 * (1.0 - implied) / implied);
    }
    if implied <= 0.0 {
      return Err(UnboundFraction);
    }
    var fractional := ToFraction(1.0 / implied - 1.0, MAX_DENOMINATOR);
    r := Ok(Quote(Rounded(prob, 1000.0), Rounded(prob - margin / 2.0, 1000.0), american,
                  Rounded(1.0 / implied, 100.0), fractional));
  }

  lemma ProductFarEnough(u: real, v: real)
    requires 200.0 <= u && 200.0 <= v && -0.5 <= u - v <= 0.5
    requires u == 200.0 || 201.0 <= u
    ensures 80200.0 * (u - v) <= u * v && 80200.0 * (v - u) <= u * v
  {
    if u != 200.0 {
      assert 201.0 * 200.5 <= u * 200.5 <= u * v;
    }
  }

  lemma ReciprocalBound(u: real, v: real)
    requires 0.0 < u && 0.0 < v && 80200.0 * (v - u) <= u * v
    ensures 100.0 / u - 100.0 / v <= 1.0 / 802.0
  {
    var gap := 100.0 / u - 100.0 / v;
    assert gap * (u * v) == 100.0 * (v - u) by {
      var s, t := 100.0 / u, 100.0 / v;
      assert s * u == 100.0 && t * v == 100.0;
      assert (s - t) * (u * v) == (s * u) * v - (t * v) * u;
    }
    Cancel(gap, 1.0 / 802.0, u * v);
  }

  lemma Cancel(a: real, b: real, d: real)
    requires 0.0 < d && a * d <= b * d
    ensures a <= b
  {
  }

  lemma ReciprocalGap(u: real, v: real)
    requires 200.0 <= u && 200.0 <= v && -0.5 <= u - v <= 0.5
    requires u == 200.0 || 201.0 <= u
    ensures Abs(100.0 / u - 100.0 / v) <= 1.0 / 802.0
  {
    ProductFarEnough(u, v);
    ReciprocalBound(u, v);
    assert u * v == v * u;
    ReciprocalBound(v, u);
  }

  lemma QuotientAbove(n: real, d: real, bound: real)
    requires 0.0 < d && bound * d <= n
    ensures bound <= n / d
  {
    assert (n / d) * d == n;
    Cancel(bound, n / d, d);
  }

  /** Before rounding the odds are at least 100 in size, and they give the probability back. */
  lemma ExactOdds(p: real)
    requires 0.0 < p < 1.0
    ensures 0.5 <= p ==> 100.0 <= 100.0 * p / (1.0 - p)
                         && 1.0 - 100.0 / (100.0 * p / (1.0 - p) + 100.0) == p
    ensures p < 0.5 ==> 100.0 <= 100.0 * (1.0 - p) / p
                        && 100.0 / (100.0 * (1.0 - p) / p + 100.0) == p
  {
    if 0.5 <= p {
      var a := 100.0 * p / (1.0 - p);
      QuotientAbove(100.0 * p, 1.0 - p, 100.0);
      assert a * (1.0 - p) == 100.0 * p;
      assert (a + 100.0) * (1.0 - p) == 100.0;
      assert 100.0 / (a + 100.0) == 1.0 - p;
    } else {
      var b := 100.0 * (1.0 - p) / p;
      QuotientAbove(100.0 * (1.0 - p), p, 100.0);
      assert b * p == 100.0 * (1.0 - p);
      assert (b + 100.0) * p == 100.0;
    }
  }

  lemma RoundNegated(x: real)
    requires 100.0 <= x
    ensures Round(-x) <= -100 && Abs(Round(-x) as real + x) <= 0.5
  {
    RoundIsNearest(-x, 0);
    RoundMonotone(-x, -100.0);
    RoundInteger(-100);
  }

  lemma FavouriteRoundTrip(p: real)
    requires 0.5 <= p < 1.0
    ensures American(p) <= -100 && Abs(ImpliedProbability(American(p)) - p) <= 1.0 / 802.0
  {
    ExactOdds(p);
    var a := 100.0 * p / (1.0 - p);
    assert -100.0 * p / (1.0 - p) == -a;
    RoundNegated(a);
    var size := (-Round(-a)) as real;
    ReciprocalGap(size + 100.0, a + 100.0);
    Complement(size);
  }

  lemma Complement(size: real)
    requires 0.0 <= size
    ensures size / (size + 100.0) == 1.0 - 100.0 / (size + 100.0)
  {
    assert (size + 100.0) / (size + 100.0) == 1.0;
  }

  lemma UnderdogRoundTrip(p: real)
    requires 0.0 < p < 0.5
    ensures 100 <= American(p) && Abs(ImpliedProbability(American(p)) - p) <= 1.0 / 802.0
  {
    ExactOdds(p);
    var b := 100.0 * (1.0 - p) / p;
    RoundIsNearest(b, 0);
    RoundMonotone(100.0, b);
    RoundInteger(100);
    ReciprocalGap(Round(b) as real + 100.0, b + 100.0);
  }

  /** The way to American odds and back moves a probability by at most 1/802. */
  lemma RoundTripError(p: real)
    requires 0.0 < p < 1.0
    ensures Abs(ImpliedProbability(American(p)) - p) <= 1.0 / 802.0
    ensures if 0.5 <= p then American(p) <= -100 else 100 <= American(p)
  {
    if 0.5 <= p {
      FavouriteRoundTrip(p);
    } else {
      UnderdogRoundTrip(p);
    }
  }

  /** Beyond 1 the odds come out positive, below 0 negative, on the wrong side of even. */
  lemma OutsideIsFarOff(p: real)
    requires p < 0.0 || 1.0 < p
    ensures Abs(ImpliedProbability(American(p)) - p) > 1.0 / 802.0
  {
    if 1.0 < p {
      var odds := -100.0 * p / (1.0 - p);
      assert odds == 100.0 * p / (p - 1.0);
      QuotientAbove(100.0 * p, p - 1.0, 100.0);
      RoundMonotone(100.0, odds);
      RoundInteger(100);
      LongOdds(American(p));
    } else {
      var odds := 100.0 * (1.0 - p) / p;
      assert odds == -(100.0 * (1.0 - p) / -p);
      QuotientAbove(100.0 * (1.0 - p), -p, 100.0);
      RoundMonotone(odds, -100.0);
      RoundInteger(-100);
      LongOdds(-American(p));
    }
  }

  /** Positive odds of 100 or more mean at most an even chance, negative ones at least that. */
  lemma LongOdds(size: int)
    requires 100 <= size
    ensures ImpliedProbability(size) <= 0.5 <= ImpliedProbability(-size)
  {
    QuotientAbove(size as real, size as real + 100.0, 0.5);
    var p := ImpliedProbability(size);
    assert p * (size as real + 100.0) == 100.0;
    Cancel(p, 0.5, size as real + 100.0);
  }

  /** The round trip is close exactly for the probabilities strictly between 0 and 1. */
  lemma RoundTripIff(p: real)
    requires p != 0.0 && p != 1.0
    ensures Abs(ImpliedProbability(American(p)) - p) <= 1.0 / 802.0 <==> 0.0 < p < 1.0
  {
    if 0.0 < p < 1.0 {
      RoundTripError(p);
    } else {
      OutsideIsFarOff(p);
    }
  }

  /** 201/401 moves by exactly 1/802, so the bound cannot be improved. */
  lemma RoundTripErrorAttained()
    ensures American(201.0 / 401.0) == -100
    ensures Abs(ImpliedProbability(-100) - 201.0 / 401.0) == 1.0 / 802.0
  {
    var p := 201.0 / 401.0;
    assert -100.0 * p / (1.0 - p) == -100.5;
    assert (-100.5).Floor == -101;
  }
}
