/** Python's round: to the nearest integer, and to the even one when two are as near. */
module Rounding {

  function Abs(x: real): real {
    if x < 0.0 then -x else x
  }

  function Round(x: real): int {
    var below := x.Floor;
    var rest := x - below as real;
    if rest < 0.5 || (rest == 0.5 && below % 2 == 0) then below else below + 1
  }

  /** No integer is nearer than the rounded one. */
  lemma RoundIsNearest(x: real, n: int)
    ensures Abs(x - Round(x) as real) <= 0.5
    ensures Abs(x - Round(x) as real) <= Abs(x - n as real)
  {
    var below := x.Floor;
    assert below as real <= x < below as real + 1.0;
    if n <= below {
      assert n as real <= below as real;
    } else {
      assert below as real + 1.0 <= n as real;
    }
  }

  /** Of two integers that are as near it takes the even one. */
  lemma TiesToEven(n: int)
    ensures Round(n as real + 0.5) % 2 == 0
  {
    assert (n as real + 0.5).Floor == n;
  }

  lemma RoundMonotone(x: real, y: real)
    requires x <= y
    ensures Round(x) <= Round(y)
  {
    if x.Floor < y.Floor {
      assert Round(x) <= x.Floor + 1 <= y.Floor <= Round(y);
    } else {
      assert x.Floor == y.Floor;
    }
  }

  lemma RoundInteger(n: int)
    ensures Round(n as real) == n
  {
  }

  /** Rounds to a multiple of 1 / scale. */
  function Rounded(x: real, scale: real): real
    requires 0.0 < scale
  {
    Round(x * scale) as real / scale
  }

  /** The multiple is the nearest one, and no further than half a step. */
  lemma RoundedIsNearest(x: real, scale: real, n: int)
    requires 0.0 < scale
    ensures Abs(x - Rounded(x, scale)) <= 0.5 / scale
    ensures Abs(x - Rounded(x, scale)) <= Abs(x - n as real / scale)
  {
    var y := x * scale;
    Unscaled(x, Round(y) as real, scale);
    Unscaled(x, n as real, scale);
    RoundedGap(y, n, scale);
  }

  lemma RoundedGap(y: real, n: int, s: real)
    requires 0.0 < s
    ensures Abs(y - Round(y) as real) / s <= 0.5 / s
    ensures Abs(y - Round(y) as real) / s <= Abs(y - n as real) / s
  {
    RoundIsNearest(y, n);
    Divided(Abs(y - Round(y) as real), 0.5, s);
    Divided(Abs(y - Round(y) as real), Abs(y - n as real), s);
  }

  lemma Unscaled(x: real, n: real, s: real)
    requires 0.0 < s
    ensures Abs(x - n / s) == Abs(x * s - n) / s
  {
    var q := n / s;
    assert n == q * s;
    assert x * s - n == (x - q) * s;
    assert ((x - q) * s) / s == x - q;
    assert (-((x - q) * s)) / s == q - x;
    if x < q {
      assert (x - q) * s < 0.0;
    } else {
      assert 0.0 <= (x - q) * s;
    }
  }

  lemma Divided(a: real, b: real, s: real)
    requires 0.0 < s && a <= b
    ensures a / s <= b / s
  {
    var q := a / s;
    assert q * s == a;
  }

  /** round(x, 4) */
  function Round4(x: real): real {
    Rounded(x, 10000.0)
  }

  /** The result has four decimals and is within half of the last. */
  lemma Round4Within(x: real)
    ensures (Round4(x) * 10000.0).Floor as real == Round4(x) * 10000.0
    ensures Abs(x - Round4(x)) <= 0.00005
  {
    RoundedIsNearest(x, 10000.0, 0);
    assert Round4(x) * 10000.0 == Round(x * 10000.0) as real;
  }

  lemma Round4Unit(x: real)
    requires 0.0 <= x <= 1.0
    ensures 0.0 <= Round4(x) <= 1.0
    ensures x <= 0.9999 ==> Round4(x) < 1.0
    ensures x == 1.0 ==> Round4(x) == 1.0
  {
    RoundMonotone(0.0, x * 10000.0);
    RoundMonotone(x * 10000.0, 10000.0);
    RoundInteger(0);
    RoundInteger(10000);
    RoundInteger(9999);
    if x <= 0.9999 {
      RoundMonotone(x * 10000.0, 9999.0);
    }
  }
}
