/**
  Straight-line fits through equally spaced observations, shared by the geometry slope
  (internal/dynamicparam/geometry.go) and the occurrence trend (internal/dynamicparam/state.go).
 */
module LeastSquares {
  import opened RealMath
  import opened Sums

  /** The abscissae 0, 1, ..., n-1. */
  ghost function Xs(n: nat): (x: seq<real>)
    ensures |x| == n
  {
    seq(n, i requires 0 <= i < n => i as real)
  }

  ghost function Times(a: seq<real>, b: seq<real>): (t: seq<real>)
    requires |a| == |b|
    ensures |t| == |a|
  {
    seq(|a|, i requires 0 <= i < |a| => a[i] * b[i])
  }

  /** Vertical distances of the observations from the line alpha + beta·i. */
  ghost function Errors(y: seq<real>, alpha: real, beta: real): (e: seq<real>)
    ensures |e| == |y|
  {
    seq(|y|, i requires 0 <= i < |y| => y[i] - (alpha + beta * i as real))
  }

  ghost function Squares(e: seq<real>): (t: seq<real>)
    ensures |t| == |e|
  {
    seq(|e|, i requires 0 <= i < |e| => Sq(e[i]))
  }

  /** Sum of squared errors of a line. */
  ghost function SquaredError(y: seq<real>, alpha: real, beta: real): real {
    Total(Squares(Errors(y, alpha, beta)))
  }

  /** The line no other line beats, strictly unless it is the same line on the abscissae. */
  ghost predicate BestLine(y: seq<real>, alpha: real, beta: real) {
    forall a: real, b: real :: SquaredError(y, alpha, beta) <= SquaredError(y, a, b)
  }

  /** The errors are orthogonal to constants and to the abscissae. */
  ghost predicate NormalEquations(y: seq<real>, alpha: real, beta: real) {
    && Total(Errors(y, alpha, beta)) == 0.0
    && Total(Times(Xs(|y|), Errors(y, alpha, beta))) == 0.0
  }

  /** The normal equations single out the least-squares line. */
  lemma NormalIsBest(y: seq<real>, alpha: real, beta: real)
    requires NormalEquations(y, alpha, beta)
    ensures BestLine(y, alpha, beta)
  {
    hide SquaredError, NormalEquations;
    forall a: real, b: real
      ensures SquaredError(y, alpha, beta) <= SquaredError(y, a, b)
    {
      NormalBeats(y, alpha, beta, a, b);
    }
  }

  lemma NormalBeats(y: seq<real>, alpha: real, beta: real, a: real, b: real)
    requires NormalEquations(y, alpha, beta)
    ensures SquaredError(y, alpha, beta) <= SquaredError(y, a, b)
  {
    hide Sq, Sum;
    var n, e := |y|, Errors(y, alpha, beta);
    var d := seq(n, i requires 0 <= i < n => (alpha - a) + (beta - b) * i as real);
    PairingVanishes(e, Xs(n), d, alpha - a, beta - b);
    var rest := seq(n, i requires 0 <= i < n => Sq(e[i]) + Sq(d[i]));
    SquaresAdd(e, d, rest);
    SquaresOfOther(y, alpha, beta, a, b, d, rest);
    SumLinear(Squares(Errors(y, a, b)), 2.0, Times(e, d), rest, 0, n);
  }

  /** Errors orthogonal to constants and abscissae are orthogonal to every line. */
  lemma PairingVanishes(e: seq<real>, x: seq<real>, d: seq<real>, p: real, q: real)
    requires |e| == |x| == |d| && forall i :: 0 <= i < |e| ==> d[i] == p + q * x[i]
    requires Total(e) == 0.0 && Total(Times(x, e)) == 0.0
    ensures Total(Times(e, d)) == 0.0
  {
    hide Sum, Times;
    var n := |e|;
    var slopes := seq(n, i requires 0 <= i < n => q * Times(x, e)[i]);
    PairingTerms(e, x, d, slopes, p, q);
    SumZeros(n, 0, n);
    SumLinear(slopes, q, Times(x, e), Zeros(n), 0, n);
    SumLinear(Times(e, d), p, e, slopes, 0, n);
  }

  lemma SquaresAdd(e: seq<real>, d: seq<real>, rest: seq<real>)
    requires |e| == |d| == |rest| && forall i :: 0 <= i < |e| ==> rest[i] == Sq(e[i]) + Sq(d[i])
    ensures Total(Squares(e)) <= Total(rest)
  {
    hide Sq, Sum;
    forall i | 0 <= i < |e| ensures Squares(e)[i] <= rest[i] {
      if d[i] == 0.0 { SqOfZero(); } else { SqPositive(d[i]); }
    }
    SumMonotone(Squares(e), rest, 0, |e|);
  }

  lemma PairingTerms(e: seq<real>, x: seq<real>, d: seq<real>, slopes: seq<real>, p: real, q: real)
    requires |e| == |x| == |d| == |slopes|
    requires forall i :: 0 <= i < |e| ==> d[i] == p + q * x[i]
    requires forall i :: 0 <= i < |e| ==> slopes[i] == q * Times(x, e)[i]
    ensures Combines(Times(e, d), p, e, slopes, 0, |e|)
  {
    forall i | 0 <= i < |e| ensures Times(e, d)[i] == p * e[i] + slopes[i] {
      PairingTerm(e[i], p, q, x[i], d[i]);
    }
  }

  lemma PairingTerm(e: real, p: real, q: real, x: real, d: real)
    requires d == p + q * x
    ensures e * d == p * e + q * (x * e)
  {
  }

  lemma SquaresOfOther(y: seq<real>, alpha: real, beta: real, a: real, b: real, d: seq<real>, rest: seq<real>)
    requires |d| == |rest| == |y|
    requires forall i :: 0 <= i < |y| ==> d[i] == (alpha - a) + (beta - b) * i as real
    requires forall i :: 0 <= i < |y| ==> rest[i] == Sq(Errors(y, alpha, beta)[i]) + Sq(d[i])
    ensures Combines(Squares(Errors(y, a, b)), 2.0, Times(Errors(y, alpha, beta), d), rest, 0, |y|)
  {
    hide Sq;
    var e := Errors(y, alpha, beta);
    forall i | 0 <= i < |y|
      ensures Squares(Errors(y, a, b))[i] == 2.0 * Times(e, d)[i] + rest[i]
    {
      OtherError(y[i], alpha, beta, a, b, i as real);
      assert Errors(y, a, b)[i] == e[i] + d[i];
      SquareOfSum(e[i], d[i]);
    }
  }

  lemma OtherError(y: real, alpha: real, beta: real, a: real, b: real, x: real)
    ensures y - (a + b * x) == (y - (alpha + beta * x)) + ((alpha - a) + (beta - b) * x)
  {
  }

  // ----- the closed form

  /** Sums over a prefix of the observations, as the trend accumulates them. */
  ghost function SumX(n: nat): real { Total(Xs(n)) }
  ghost function SumXX(n: nat): real { Total(Times(Xs(n), Xs(n))) }
  ghost function SumXY(y: seq<real>): real { Total(Times(Xs(|y|), y)) }

  ghost function Determinant(n: nat): real {
    n as real * SumXX(n) - SumX(n) * SumX(n)
  }

  /** Sums of the first integers and of their squares. */
  lemma {:induction false} SumsOfPowers(n: nat)
    ensures 2.0 * SumX(n) == n as real * (n as real - 1.0)
    ensures 6.0 * SumXX(n) == n as real * (n as real - 1.0) * (2.0 * n as real - 1.0)
  {
    hide SumX, SumXX;
    if n == 0 {
      NoPowers();
    } else {
      SumsOfPowers(n - 1);
      PowersStep(n);
      PowerStep(n as real, SumX(n - 1), SumXX(n - 1), SumX(n), SumXX(n));
    }
  }

  lemma NoPowers()
    ensures SumX(0) == 0.0 && SumXX(0) == 0.0
  {
  }

  /** One more observation. */
  lemma PowersStep(n: nat)
    requires n > 0
    ensures SumX(n) == SumX(n - 1) + (n as real - 1.0)
    ensures SumXX(n) == SumXX(n - 1) + (n as real - 1.0) * (n as real - 1.0)
  {
    SumAgree(Xs(n), Xs(n - 1), 0, n - 1);
    SumAgree(Times(Xs(n), Xs(n)), Times(Xs(n - 1), Xs(n - 1)), 0, n - 1);
    assert Times(Xs(n), Xs(n))[n - 1] == (n - 1) as real * (n - 1) as real;
  }

  lemma PowerStep(n: real, s: real, q: real, s': real, q': real)
    requires 2.0 * s == (n - 1.0) * (n - 2.0) && 6.0 * q == (n - 1.0) * (n - 2.0) * (2.0 * n - 3.0)
    requires s' == s + (n - 1.0) && q' == q + (n - 1.0) * (n - 1.0)
    ensures 2.0 * s' == n * (n - 1.0)
    ensures 6.0 * q' == n * (n - 1.0) * (2.0 * n - 1.0)
  {
  }

  /** The determinant of the normal equations is n²(n²−1)/12: at least 1 from two observations on. */
  lemma DeterminantValue(n: nat)
    ensures 12.0 * Determinant(n) == (n * n * (n * n - 1)) as real
    ensures n >= 2 ==> Determinant(n) >= 1.0
  {
    SumsOfPowers(n);
    DeterminantAlgebra(n as real, SumX(n), SumXX(n), Determinant(n));
    PowersOfInt(n);
    if n >= 2 { FourthPower(n); }
  }

  lemma DeterminantAlgebra(n: real, s: real, q: real, d: real)
    requires 2.0 * s == n * (n - 1.0) && 6.0 * q == n * (n - 1.0) * (2.0 * n - 1.0) && d == n * q - s * s
    ensures 12.0 * d == n * n * (n * n - 1.0)
  {
    assert 12.0 * (n * q) == 2.0 * (n * (n * (n - 1.0) * (2.0 * n - 1.0)));
    assert 4.0 * (s * s) == (2.0 * s) * (2.0 * s);
  }

  lemma PowersOfInt(n: int)
    ensures n as real * n as real * (n as real * n as real - 1.0) == (n * n * (n * n - 1)) as real
  {
    var s := n * n;
    assert n as real * n as real == s as real;
    assert s as real * (s as real - 1.0) == (s * (s - 1)) as real;
  }

  lemma FourthPower(n: nat)
    requires n >= 2
    ensures n * n * (n * n - 1) >= 12
  {
    assert n * n >= 4;
    var s := n * n;
    assert s * (s - 1) >= 4 * 3;
  }

  /** The slope and intercept that solve the normal equations from the sums. */
  ghost predicate SolvesFromSums(y: seq<real>, alpha: real, beta: real) {
    && Determinant(|y|) * beta == |y| as real * SumXY(y) - SumX(|y|) * Total(y)
    && |y| as real * alpha == Total(y) - beta * SumX(|y|)
  }

  /** Solving from the sums gives the least-squares line. */
  lemma SolutionIsBest(y: seq<real>, alpha: real, beta: real)
    requires |y| >= 2 && SolvesFromSums(y, alpha, beta)
    ensures BestLine(y, alpha, beta)
  {
    hide BestLine, NormalEquations, SolvesFromSums;
    SolutionIsNormal(y, alpha, beta);
    NormalIsBest(y, alpha, beta);
  }

  lemma SolutionIsNormal(y: seq<real>, alpha: real, beta: real)
    requires |y| >= 2 && SolvesFromSums(y, alpha, beta)
    ensures NormalEquations(y, alpha, beta)
  {
    hide Errors, Times, Sum, Xs;
    ErrorTotals(y, alpha, beta);
    NormalAlgebra(|y| as real, SumX(|y|), SumXX(|y|), Total(y), SumXY(y), alpha, beta, Determinant(|y|));
  }

  lemma NormalAlgebra(n: real, sx: real, sxx: real, sy: real, sxy: real, alpha: real, beta: real, d: real)
    requires n > 0.0 && d == n * sxx - sx * sx
    requires d * beta == n * sxy - sx * sy && n * alpha == sy - beta * sx
    ensures sy - n * alpha - beta * sx == 0.0
    ensures sxy - alpha * sx - beta * sxx == 0.0
  {
    var g := sxy - alpha * sx - beta * sxx;
    assert n * g == n * sxy - (n * alpha) * sx - n * beta * sxx;
    assert (n * alpha) * sx == sy * sx - beta * (sx * sx);
    assert d * beta == n * sxx * beta - sx * sx * beta;
    assert n * g == 0.0;
    if g > 0.0 { MulPositive(n, g); } else if g < 0.0 { MulPositive(n, -g); }
  }

  lemma ErrorTotals(y: seq<real>, alpha: real, beta: real)
    ensures Total(Errors(y, alpha, beta)) == Total(y) - |y| as real * alpha - beta * SumX(|y|)
    ensures Total(Times(Xs(|y|), Errors(y, alpha, beta))) == SumXY(y) - alpha * SumX(|y|) - beta * SumXX(|y|)
  {
    hide Errors, Times, Sum, Xs;
    var n, x := |y|, Xs(|y|);
    var constants := seq(n, _ => -alpha);
    var shifted := seq(n, i requires 0 <= i < n => y[i] + constants[i]);
    var flat := seq(n, i requires 0 <= i < n => -alpha * x[i] + Times(x, y)[i]);
    PlainErrors(y, alpha, beta, constants, shifted);
    WeightedErrors(y, alpha, beta, flat);
  }

  lemma PlainErrors(y: seq<real>, alpha: real, beta: real, constants: seq<real>, shifted: seq<real>)
    requires |constants| == |shifted| == |y|
    requires forall i :: 0 <= i < |y| ==> constants[i] == -alpha && shifted[i] == y[i] + constants[i]
    ensures Total(Errors(y, alpha, beta)) == Total(y) - |y| as real * alpha - beta * SumX(|y|)
  {
    hide Errors, Times, Sum, Xs;
    var n := |y|;
    SumConstant(constants, -alpha, 0, n);
    SumAdd(shifted, y, constants, 0, n);
    ErrorTerms(y, alpha, beta, shifted);
    SumLinear(Errors(y, alpha, beta), -beta, Xs(n), shifted, 0, n);
  }

  lemma WeightedErrors(y: seq<real>, alpha: real, beta: real, flat: seq<real>)
    requires |flat| == |y|
    requires forall i :: 0 <= i < |y| ==> flat[i] == -alpha * Xs(|y|)[i] + Times(Xs(|y|), y)[i]
    ensures Total(Times(Xs(|y|), Errors(y, alpha, beta))) == SumXY(y) - alpha * SumX(|y|) - beta * SumXX(|y|)
  {
    hide Errors, Times, Sum, Xs;
    var n, x := |y|, Xs(|y|);
    WeightedErrorTerms(y, alpha, beta, flat);
    SumLinear(flat, -alpha, x, Times(x, y), 0, n);
    SumLinear(Times(x, Errors(y, alpha, beta)), -beta, Times(x, x), flat, 0, n);
  }

  lemma ErrorTerms(y: seq<real>, alpha: real, beta: real, shifted: seq<real>)
    requires |shifted| == |y| && forall i :: 0 <= i < |y| ==> shifted[i] == y[i] - alpha
    ensures Combines(Errors(y, alpha, beta), -beta, Xs(|y|), shifted, 0, |y|)
  {
  }

  lemma WeightedErrorTerms(y: seq<real>, alpha: real, beta: real, flat: seq<real>)
    requires |flat| == |y|
    requires forall i :: 0 <= i < |y| ==> flat[i] == -alpha * Xs(|y|)[i] + Times(Xs(|y|), y)[i]
    ensures Combines(Times(Xs(|y|), Errors(y, alpha, beta)), -beta, Times(Xs(|y|), Xs(|y|)), flat, 0, |y|)
  {
    forall i | 0 <= i < |y|
      ensures Times(Xs(|y|), Errors(y, alpha, beta))[i] == -beta * Times(Xs(|y|), Xs(|y|))[i] + flat[i]
    {
      WeightedErrorTerm(i as real, y[i], alpha, beta);
    }
  }

  lemma WeightedErrorTerm(x: real, y: real, alpha: real, beta: real)
    ensures x * (y - (alpha + beta * x)) == -beta * (x * x) + (-alpha * x + x * y)
  {
  }
}
