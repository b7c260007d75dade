/**
  Small facts about real multiplication and division, stated over plain
  variables so that the solver sees each in isolation.
 */
module RealArith {

  function Abs(a: real): (r: real)
    ensures r >= 0.0 && r * r == a * a
  {
    if a < 0.0 then -a else a
  }

  lemma ZeroProduct(x: real, y: real)
    requires x * y == 0.0 && y != 0.0
    ensures x == 0.0
  {
  }

  /** Cancels a non-zero square factor. */
  lemma Cancel(d: real, l: real)
    requires l != 0.0 && d * (l * l) == 0.0
    ensures d == 0.0
  {
    assert (d * l) * l == 0.0;
    ZeroProduct(d * l, l);
    ZeroProduct(d, l);
  }

  /** Cancels a non-zero fourth-power factor. */
  lemma CancelFourth(d: real, l: real)
    requires l != 0.0 && d * ((l * l) * (l * l)) == 0.0
    ensures d == 0.0
  {
    assert ((d * l) * l * l) * l == 0.0;
    ZeroProduct((d * l) * l * l, l);
    ZeroProduct((d * l) * l, l);
    ZeroProduct(d * l, l);
    ZeroProduct(d, l);
  }

  /** A non-negative number whose square is at least a^2 is at least |a|. */
  lemma RootBound(m: real, a: real)
    requires m >= 0.0 && m * m >= a * a
    ensures m >= Abs(a)
  {
    var b := Abs(a);
    if m < b {
      SquareLess(m, b);
    }
  }

  /** Squaring is strictly increasing on the non-negative reals. */
  lemma SquareLess(x: real, y: real)
    requires 0.0 <= x < y
    ensures x * x < y * y
  {
    PositiveProduct(y - x, y + x);
    assert (y - x) * (y + x) == y * y - x * x;
  }

  lemma PositiveProduct(x: real, y: real)
    requires x > 0.0 && y > 0.0
    ensures x * y > 0.0
  {
  }

  /** Scaling a non-negative number by a factor of at least 1 does not shrink it. */
  lemma ScaleAtLeast(s: real, d: real)
    requires s >= 0.0 && d >= 1.0
    ensures s * d >= s
  {
    if s > 0.0 && d > 1.0 {
      PositiveProduct(s, d - 1.0);
    }
  }

  /** Two non-negative numbers with equal squares are equal. */
  lemma RootUnique(m: real, a: real)
    requires m >= 0.0 && a >= 0.0 && m * m == a * a
    ensures m == a
  {
    assert (m - a) * (m + a) == 0.0;
    if m + a != 0.0 {
      ZeroProduct(m - a, m + a);
    }
  }
}
