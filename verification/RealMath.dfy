/** Products of reals, one fact a lemma, so that nonlinear steps stay small. */
module RealMath {

  lemma MulNonNegative(a: real, b: real)
    requires a >= 0.0 && b >= 0.0
    ensures a * b >= 0.0
  {
  }

  lemma MulPositive(a: real, b: real)
    requires a > 0.0 && b > 0.0
    ensures a * b > 0.0
  {
  }

  lemma MulNonPositive(a: real, b: real)
    requires a <= 0.0 && b >= 0.0
    ensures a * b <= 0.0
  {
  }

  /** Multiplying by a non-negative factor keeps an order. */
  lemma MulMonotone(p: real, a: real, b: real)
    requires p >= 0.0 && a <= b
    ensures p * a <= p * b
  {
    MulNonNegative(p, b - a);
    assert p * (b - a) == p * b - p * a;
  }

  /** Multiplying by a positive factor keeps a strict order. */
  lemma MulStrict(p: real, a: real, b: real)
    requires p > 0.0 && a < b
    ensures p * a < p * b
  {
    MulPositive(p, b - a);
    assert p * (b - a) == p * b - p * a;
  }

  lemma Cancel(p: real, a: real, b: real)
    requires p > 0.0 && p * a < p * b
    ensures a < b
  {
    if a > b { MulStrict(p, b, a); }
  }

  /** A factor has the sign of its product with a positive number. */
  lemma SignOfFactor(x: real, p: real)
    requires p > 0.0 && x * p >= 0.0
    ensures x >= 0.0
  {
    if x < 0.0 { MulStrict(p, x, 0.0); }
  }

  function Sq(d: real): real {
    d * d
  }

  lemma SquareOfSum(r: real, d: real)
    ensures Sq(r + d) == 2.0 * (r * d) + (Sq(r) + Sq(d))
  {
  }

  function Abs(x: real): real {
    if x < 0.0 then -x else x
  }

  /** Multiplying integers by a non-negative factor keeps an order. */
  lemma IntMonotone(w: int, a: int, b: int)
    requires w >= 0 && a <= b
    ensures a * w <= b * w
  {
  }

  /** The sign rule with the product named, so that it also applies to squares. */
  lemma NamedProduct(a: real, b: real, v: real)
    requires v == a * b && ((a > 0.0 && b > 0.0) || (a < 0.0 && b < 0.0))
    ensures v > 0.0
  {
    if a > 0.0 {
      MulPositive(a, b);
    } else {
      MulPositive(-a, -b);
      assert (-a) * (-b) == a * b;
    }
  }

  lemma SqPositive(d: real)
    requires d != 0.0
    ensures Sq(d) > 0.0
  {
    NamedProduct(d, d, Sq(d));
  }

  lemma SqOfZero()
    ensures Sq(0.0) == 0.0
  {
  }

  /** A square with a positive weight is non-negative, and zero only at zero. */
  lemma WeightedSquare(u: real, d: real)
    requires u > 0.0
    ensures u * Sq(d) >= 0.0
    ensures d != 0.0 ==> u * Sq(d) > 0.0
  {
    hide Sq;
    if d == 0.0 {
      SqOfZero();
    } else {
      SqPositive(d);
      MulPositive(u, Sq(d));
    }
  }

  /** A real with an integer value. */
  ghost predicate Whole(x: real) {
    x == x.Floor as real
  }

  lemma WholeInt(i: int)
    ensures Whole(i as real)
  {
  }

  lemma WholeSum(x: real, y: real)
    requires Whole(x) && Whole(y)
    ensures Whole(x + y) && Whole(x - y)
  {
    var i, j := x.Floor, y.Floor;
    WholeInt(i + j);
    WholeInt(i - j);
  }

  lemma WholeProduct(x: real, y: real)
    requires Whole(x) && Whole(y)
    ensures Whole(x * y)
  {
    var i, j := x.Floor, y.Floor;
    assert x * y == (i * j) as real;
  }

  /** Dividing both sides of a product equation by a non-zero factor. */
  lemma QuotientTimes(a: real, b: real)
    requires b != 0.0
    ensures (a / b) * b == a
  {
  }

  /** A quotient is the only solution of its product equation. */
  lemma QuotientUnique(q: real, a: real, b: real)
    requires b != 0.0 && q * b == a
    ensures q == a / b
  {
    QuotientTimes(a, b);
    assert (q - a / b) * b == q * b - (a / b) * b;
  }
}
