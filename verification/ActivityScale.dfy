/**
  The normal activity scale (internal/dynamicparam/activity_scale.go): a weighted geometric mean
  of activity metrics, fitted by projected gradient descent on squared log residuals. Natural
  logarithm and exponential are parameters of the model.
 */
module ActivityScale {
  import opened Wrappers
  import opened RealMath
  import opened Sums
  import opened Simplex
  import Bits

  const ACTIVITY_SCALE_VERSION := "p09-activity-scale-v1"
  const METRICS: nat := 6
  const ITERATIONS: nat := 300
  const METRIC_NAMES: seq<string> := ["tr_mean", "tr_std_dev", "high_low_mean", "high_low_std_dev", "parkinson", "yang_zhang"]

  datatype ActivityVector = ActivityVector(trMean: real, trStdDev: real, highLowMean: real, highLowStdDev: real, parkinson: real, yangZhang: real)

  datatype ActivityScaleRow = ActivityScaleRow(values: seq<real>, target: real)

  datatype ActivityScaleModel = ActivityScaleModel(schemaVersion: string, constant: real, weights: map<string, real>)

  datatype ActivityError = ModelUnavailable | InvalidInput | WeightsNotNormalised | InvalidPrediction

  // ----- least squares on the log scale

  /** The regressors of a row: the logs of the active metrics. */
  function Regressors(row: ActivityScaleRow, active: seq<nat>, log: real -> real): (x: seq<real>)
    requires |row.values| == METRICS && forall p :: 0 <= p < |active| ==> active[p] < METRICS
    ensures |x| == |active|
  {
    seq(|active|, p requires 0 <= p < |active| => log(row.values[active[p]]))
  }

  ghost function Design(rows: seq<ActivityScaleRow>, active: seq<nat>, log: real -> real): (xs: seq<seq<real>>)
    requires forall r :: 0 <= r < |rows| ==> |rows[r].values| == METRICS
    requires forall p :: 0 <= p < |active| ==> active[p] < METRICS
    ensures |xs| == |rows| && forall r :: 0 <= r < |xs| ==> |xs[r]| == |active|
  {
    seq(|rows|, r requires 0 <= r < |rows| => Regressors(rows[r], active, log))
  }

  ghost function Responses(rows: seq<ActivityScaleRow>, log: real -> real): (ys: seq<real>)
    ensures |ys| == |rows|
  {
    seq(|rows|, r requires 0 <= r < |rows| => log(rows[r].target))
  }

  ghost predicate Rectangular(xs: seq<seq<real>>, dims: nat) {
    forall r :: 0 <= r < |xs| ==> |xs[r]| == dims
  }

  ghost function Products(w: seq<real>, x: seq<real>): (t: seq<real>)
    requires |w| == |x|
    ensures |t| == |w|
  {
    seq(|w|, p requires 0 <= p < |w| => w[p] * x[p])
  }

  ghost function Dot(w: seq<real>, x: seq<real>): real
    requires |w| == |x|
  {
    Total(Products(w, x))
  }

  ghost function Residuals(xs: seq<seq<real>>, ys: seq<real>, c: real, w: seq<real>): (rs: seq<real>)
    requires |xs| == |ys| && Rectangular(xs, |w|)
    ensures |rs| == |xs|
  {
    seq(|xs|, r requires 0 <= r < |xs| => c + Dot(w, xs[r]) - ys[r])
  }

  /** One regressor's products with the residuals. */
  ghost function Column(rs: seq<real>, xs: seq<seq<real>>, dims: nat, p: nat): (t: seq<real>)
    requires |rs| == |xs| && Rectangular(xs, dims) && p < dims
    ensures |t| == |rs|
  {
    seq(|rs|, r requires 0 <= r < |rs| => rs[r] * xs[r][p])
  }

  /** The gradient contributed by the first n rows. */
  ghost function Gradient(rs: seq<real>, xs: seq<seq<real>>, dims: nat, n: nat): (g: seq<real>)
    requires |rs| == |xs| && Rectangular(xs, dims) && n <= |rs|
    ensures |g| == dims
  {
    seq(dims, p requires 0 <= p < dims => Sum(Column(rs, xs, dims, p), 0, n))
  }

  ghost function SquaredResiduals(rs: seq<real>): (t: seq<real>)
    ensures |t| == |rs|
  {
    seq(|rs|, r requires 0 <= r < |rs| => Sq(rs[r]))
  }

  /** The sum of squared log residuals of a constant and weights. */
  ghost function LogLoss(xs: seq<seq<real>>, ys: seq<real>, c: real, w: seq<real>): real
    requires |xs| == |ys| && Rectangular(xs, |w|)
  {
    Total(SquaredResiduals(Residuals(xs, ys, c, w)))
  }

  /** Weights after an unprojected step against the gradient. */
  ghost function Moved(w: seq<real>, rate: real, g: seq<real>): (v: seq<real>)
    requires |w| == |g|
    ensures |v| == |w|
  {
    seq(|w|, p requires 0 <= p < |w| => w[p] - rate * g[p])
  }

  /** One iteration of the fit: a gradient step, then projection of the weights onto the simplex. */
  ghost predicate DescentStep(xs: seq<seq<real>>, ys: seq<real>, rate: real, c: real, w: seq<real>, c': real, w': seq<real>) {
    && |xs| == |ys| && Rectangular(xs, |w|)
    && var rs := Residuals(xs, ys, c, w);
       && c' == c - rate * Total(rs)
       && Nearest(Moved(w, rate, Gradient(rs, xs, |w|, |rs|)), w')
  }

  // ----- a resting point of the descent is the best fit

  ghost function Differences(z: seq<real>, w: seq<real>): (d: seq<real>)
    requires |z| == |w|
    ensures |d| == |w|
  {
    seq(|w|, p requires 0 <= p < |w| => z[p] - w[p])
  }

  /** Exchanging the order of summation: residuals against predictions is direction against gradient. */
  lemma {:induction false} ExchangeSums(rs: seq<real>, xs: seq<seq<real>>, d: seq<real>, t: seq<real>, n: nat)
    requires |rs| == |xs| == |t| && Rectangular(xs, |d|) && n <= |rs|
    requires forall r :: 0 <= r < |rs| ==> t[r] == rs[r] * Dot(d, xs[r])
    ensures Sum(t, 0, n) == Dot(d, Gradient(rs, xs, |d|, n))
  {
    hide Dot, Products;
    if n == 0 {
      NoGradient(rs, xs, d);
    } else {
      ExchangeSums(rs, xs, d, t, n - 1);
      GradientStep(rs, xs, d, n);
    }
  }

  lemma NoGradient(rs: seq<real>, xs: seq<seq<real>>, d: seq<real>)
    requires |rs| == |xs| && Rectangular(xs, |d|)
    ensures Dot(d, Gradient(rs, xs, |d|, 0)) == 0.0
  {
    assert Products(d, Gradient(rs, xs, |d|, 0)) == Zeros(|d|);
    SumZeros(|d|, 0, |d|);
  }

  lemma GradientStep(rs: seq<real>, xs: seq<seq<real>>, d: seq<real>, n: nat)
    requires |rs| == |xs| && Rectangular(xs, |d|) && 0 < n <= |rs|
    ensures Dot(d, Gradient(rs, xs, |d|, n)) == rs[n - 1] * Dot(d, xs[n - 1]) + Dot(d, Gradient(rs, xs, |d|, n - 1))
  {
    hide Sum;
    GradientProducts(rs, xs, d, n);
    SumLinear(Products(d, Gradient(rs, xs, |d|, n)), rs[n - 1], Products(d, xs[n - 1]), Products(d, Gradient(rs, xs, |d|, n - 1)), 0, |d|);
  }

  lemma GradientProducts(rs: seq<real>, xs: seq<seq<real>>, d: seq<real>, n: nat)
    requires |rs| == |xs| && Rectangular(xs, |d|) && 0 < n <= |rs|
    ensures Combines(Products(d, Gradient(rs, xs, |d|, n)), rs[n - 1], Products(d, xs[n - 1]),
                     Products(d, Gradient(rs, xs, |d|, n - 1)), 0, |d|)
  {
    var after, before := Gradient(rs, xs, |d|, n), Gradient(rs, xs, |d|, n - 1);
    forall p | 0 <= p < |d|
      ensures Products(d, after)[p] == rs[n - 1] * Products(d, xs[n - 1])[p] + Products(d, before)[p]
    {
      assert after[p] == before[p] + Column(rs, xs, |d|, p)[n - 1];
      GradientTerm(d[p], before[p], after[p], rs[n - 1], xs[n - 1][p]);
    }
  }

  lemma GradientTerm(d: real, before: real, after: real, r: real, x: real)
    requires after == before + r * x
    ensures d * after == r * (d * x) + d * before
  {
  }

  /** The residuals of another candidate, as the present ones plus a linear change. */
  lemma ResidualChange(xs: seq<seq<real>>, ys: seq<real>, c: real, w: seq<real>, c2: real, z: seq<real>, r: nat)
    requires |xs| == |ys| && Rectangular(xs, |w|) && |z| == |w| && r < |xs|
    ensures Residuals(xs, ys, c2, z)[r] == Residuals(xs, ys, c, w)[r] + (c2 - c) + Dot(Differences(z, w), xs[r])
  {
    hide Sum;
    DotSplits(z, w, xs[r]);
  }

  lemma DotSplits(z: seq<real>, w: seq<real>, x: seq<real>)
    requires |z| == |w| == |x|
    ensures Dot(z, x) == Dot(w, x) + Dot(Differences(z, w), x)
  {
    forall p | 0 <= p < |w|
      ensures Products(z, x)[p] == Products(w, x)[p] + Products(Differences(z, w), x)[p]
    {
      assert z[p] * x[p] == w[p] * x[p] + (z[p] - w[p]) * x[p];
    }
    SumAdd(Products(z, x), Products(w, x), Products(Differences(z, w), x), 0, |w|);
  }

  /** Projecting back onto the same weights means the gradient points out of the simplex. */
  lemma RestingDirection(w: seq<real>, rate: real, g: seq<real>, z: seq<real>)
    requires |w| == |g| == |z| && rate > 0.0 && OnSimplex(z)
    requires Nearest(Moved(w, rate, g), w)
    ensures Dot(Differences(z, w), g) >= 0.0
  {
    hide Sum, OnSimplex, Distance;
    var v := Moved(w, rate, g);
    DistanceExpansion(v, w, z);
    assert Distance(v, z) >= Distance(v, w) + Distance(w, z);
    StepCrossTerms(w, rate, g, z);
    SumZeros(|w|, 0, |w|);
    SumLinear(CrossTerms(v, w, z), rate, Products(Differences(z, w), g), Zeros(|w|), 0, |w|);
    SignOfFactor(Dot(Differences(z, w), g), rate);
  }

  lemma StepCrossTerms(w: seq<real>, rate: real, g: seq<real>, z: seq<real>)
    requires |w| == |g| == |z|
    ensures Combines(CrossTerms(Moved(w, rate, g), w, z), rate, Products(Differences(z, w), g), Zeros(|w|), 0, |w|)
  {
    forall p | 0 <= p < |w|
      ensures CrossTerms(Moved(w, rate, g), w, z)[p] == rate * Products(Differences(z, w), g)[p] + Zeros(|w|)[p]
    {
      StepCrossTerm(w[p], rate, g[p], z[p]);
    }
  }

  lemma StepCrossTerm(w: real, rate: real, g: real, z: real)
    ensures (w - rate * g - w) * (w - z) == rate * ((z - w) * g)
  {
  }

  /** The loss of a change d of the residuals is at least the old loss when d pairs non-negatively. */
  lemma LossAfterChange(rs: seq<real>, d: seq<real>, after: seq<real>, pairing: seq<real>)
    requires |rs| == |d| == |after| == |pairing|
    requires forall r :: 0 <= r < |rs| ==> after[r] == rs[r] + d[r] && pairing[r] == rs[r] * d[r]
    requires Total(pairing) >= 0.0
    ensures Total(SquaredResiduals(rs)) <= Total(SquaredResiduals(after))
  {
    hide Sq, Sum;
    var n := |rs|;
    var rest := seq(n, r requires 0 <= r < n => Sq(rs[r]) + Sq(d[r]));
    forall r | 0 <= r < n
      ensures SquaredResiduals(after)[r] == 2.0 * pairing[r] + rest[r]
      ensures SquaredResiduals(rs)[r] <= rest[r]
    {
      SquareOfSum(rs[r], d[r]);
      if d[r] == 0.0 { SqOfZero(); } else { SqPositive(d[r]); }
    }
    SumMonotone(SquaredResiduals(rs), rest, 0, n);
    SumLinear(SquaredResiduals(after), 2.0, pairing, rest, 0, n);
  }

  /**
    Where an iteration changes nothing, the constant and weights minimise the squared log
    residuals over every constant and every probability vector of weights.
   */
  lemma RestingPointIsOptimal(xs: seq<seq<real>>, ys: seq<real>, rate: real, c: real, w: seq<real>, c2: real, z: seq<real>)
    requires rate > 0.0 && DescentStep(xs, ys, rate, c, w, c, w)
    requires |z| == |w| && OnSimplex(z)
    ensures LogLoss(xs, ys, c, w) <= LogLoss(xs, ys, c2, z)
  {
    hide Residuals, Dot, Sum, Nearest, Gradient, Moved, OnSimplex;
    var rs, n := Residuals(xs, ys, c, w), |xs|;
    var delta := Differences(z, w);
    var moves := seq(n, r requires 0 <= r < n => Dot(delta, xs[r]));
    var d := seq(n, r requires 0 <= r < n => (c2 - c) + moves[r]);
    var byWeights := seq(n, r requires 0 <= r < n => rs[r] * moves[r]);
    var pairing := seq(n, r requires 0 <= r < n => rs[r] * d[r]);
    RestingDirection(w, rate, Gradient(rs, xs, |w|, n), z);
    ExchangeSums(rs, xs, delta, byWeights, n);
    PairingSplits(rs, moves, d, byWeights, pairing, c2 - c);
    SumLinear(pairing, c2 - c, rs, byWeights, 0, n);
    assert Total(rs) == 0.0 by { ZeroFactor(rate, Total(rs)); }
    forall r | 0 <= r < n
      ensures Residuals(xs, ys, c2, z)[r] == rs[r] + d[r]
    {
      ResidualChange(xs, ys, c, w, c2, z, r);
    }
    LossAfterChange(rs, d, Residuals(xs, ys, c2, z), pairing);
  }

  lemma ZeroFactor(p: real, x: real)
    requires p > 0.0 && p * x == 0.0
    ensures x == 0.0
  {
    if x > 0.0 { MulPositive(p, x); } else if x < 0.0 { MulPositive(p, -x); }
  }

  lemma PairingSplits(rs: seq<real>, moves: seq<real>, d: seq<real>, byWeights: seq<real>, pairing: seq<real>, shift: real)
    requires |rs| == |moves| == |d| == |byWeights| == |pairing|
    requires forall r :: 0 <= r < |rs| ==> pairing[r] == rs[r] * d[r]
    requires forall r :: 0 <= r < |rs| ==> d[r] == shift + moves[r] && byWeights[r] == rs[r] * moves[r]
    ensures Combines(pairing, shift, rs, byWeights, 0, |rs|)
  {
    forall r | 0 <= r < |rs|
      ensures pairing[r] == shift * rs[r] + byWeights[r]
    {
      PairingTerm(rs[r], shift, moves[r]);
    }
  }

  lemma PairingTerm(r: real, shift: real, x: real)
    ensures r * (shift + x) == shift * r + r * x
  {
  }

  // ----- the fit

  /** Positions of the metrics selected by a mask, in order. */
  ghost predicate Selects(active: seq<nat>, mask: nat) {
    && (forall p :: 0 <= p < |active| ==> active[p] < METRICS && Bits.Bit(mask, active[p]))
    && (forall p, q :: 0 <= p < q < |active| ==> active[p] < active[q])
    && (forall i: nat :: i < METRICS && Bits.Bit(mask, i) ==> i in active)
  }

  method ActiveMetrics(mask: nat) returns (active: seq<nat>)
    ensures Selects(active, mask)
  {
    active := [];
    for index := 0 to METRICS
      invariant forall p :: 0 <= p < |active| ==> active[p] < index && Bits.Bit(mask, active[p])
      invariant forall p, q :: 0 <= p < q < |active| ==> active[p] < active[q]
      invariant forall i: nat :: i < index && Bits.Bit(mask, i) ==> i in active
    {
      if Bits.Bit(mask, index) {
        active := active + [index];
      }
    }
  }

  ghost predicate FullRows(rows: seq<ActivityScaleRow>) {
    forall r :: 0 <= r < |rows| ==> |rows[r].values| == METRICS
  }

  /** Residual of one row under a constant and weights. */
  method RowResidual(x: seq<real>, y: real, c: real, w: seq<real>) returns (residual: real)
    requires |x| == |w|
    ensures residual == c + Dot(w, x) - y
  {
    var prediction := c;
    for position := 0 to |w|
      invariant prediction == c + Sum(Products(w, x), 0, position)
    {
      prediction := prediction + w[position] * x[position];
    }
    residual := prediction - y;
  }

  /** The residual sum and the gradient of half the loss, accumulated row by row. */
  method Gradients(rows: seq<ActivityScaleRow>, active: seq<nat>, c: real, w: seq<real>, log: real -> real)
    returns (gradientConstant: real, gradient: seq<real>)
    requires FullRows(rows) && |w| == |active| && forall p :: 0 <= p < |active| ==> active[p] < METRICS
    ensures var xs, ys := Design(rows, active, log), Responses(rows, log);
            var rs := Residuals(xs, ys, c, w);
            gradientConstant == Total(rs) && gradient == Gradient(rs, xs, |w|, |rs|)
  {
    hide Dot, Products, Gradient, Design, Responses, Regressors;
    ghost var xs, ys := Design(rows, active, log), Responses(rows, log);
    ghost var rs := Residuals(xs, ys, c, w);
    gradientConstant, gradient := 0.0, seq(|active|, _ => 0.0);
    GradientStarts(rs, xs, |w|);
    for r := 0 to |rows|
      invariant gradientConstant == Sum(rs, 0, r)
      invariant gradient == Gradient(rs, xs, |w|, r)
    {
      var x := Regressors(rows[r], active, log);
      var residual := RowResidual(x, log(rows[r].target), c, w);
      gradientConstant := gradientConstant + residual;
      RowOf(rows, active, log, r);
      ghost var before := gradient;
      gradient := AddRow(gradient, residual, x);
      GradientGrows(rs, xs, |w|, r, before, gradient);
    }
  }

  lemma GradientStarts(rs: seq<real>, xs: seq<seq<real>>, n: nat)
    requires |rs| == |xs| && Rectangular(xs, n)
    ensures Gradient(rs, xs, n, 0) == seq(n, _ => 0.0)
  {
  }

  lemma RowOf(rows: seq<ActivityScaleRow>, active: seq<nat>, log: real -> real, r: nat)
    requires r < |rows| && FullRows(rows) && forall p :: 0 <= p < |active| ==> active[p] < METRICS
    ensures Design(rows, active, log)[r] == Regressors(rows[r], active, log) && Responses(rows, log)[r] == log(rows[r].target)
  {
  }

  lemma GradientGrows(rs: seq<real>, xs: seq<seq<real>>, n: nat, r: nat, before: seq<real>, after: seq<real>)
    requires |rs| == |xs| && Rectangular(xs, n) && r < |rs|
    requires before == Gradient(rs, xs, n, r) && |after| == n
    requires forall p :: 0 <= p < n ==> after[p] == before[p] + rs[r] * xs[r][p]
    ensures after == Gradient(rs, xs, n, r + 1)
  {
    forall p | 0 <= p < n ensures after[p] == Gradient(rs, xs, n, r + 1)[p] {
      assert Column(rs, xs, n, p)[r] == rs[r] * xs[r][p];
    }
  }

  /** Adds one row, scaled by its residual, to the gradient. */
  method AddRow(before: seq<real>, residual: real, x: seq<real>) returns (gradient: seq<real>)
    requires |before| == |x|
    ensures |gradient| == |x| && forall p :: 0 <= p < |x| ==> gradient[p] == before[p] + residual * x[p]
  {
    gradient := before;
    for position := 0 to |x|
      invariant |gradient| == |x|
      invariant forall p :: 0 <= p < position ==> gradient[p] == before[p] + residual * x[p]
      invariant forall p :: position <= p < |x| ==> gradient[p] == before[p]
    {
      gradient := gradient[position := gradient[position] + residual * x[position]];
    }
  }

  /** A run of the descent: every state follows from the one before by an iteration. */
  ghost predicate DescentRun(xs: seq<seq<real>>, ys: seq<real>, rate: real, run: seq<(real, seq<real>)>) {
    forall i :: 0 <= i && i + 1 < |run| ==> DescentStep(xs, ys, rate, run[i].0, run[i].1, run[i + 1].0, run[i + 1].1)
  }

  /** The names of the first n active metrics. */
  ghost function NamesOf(active: seq<nat>, n: nat): set<string>
    requires n <= |active| && forall p :: 0 <= p < |active| ==> active[p] < METRICS
  {
    if n == 0 then {} else NamesOf(active, n - 1) + {METRIC_NAMES[active[n - 1]]}
  }

  /** The metric names of the active positions carry the weights, and no other name does. */
  ghost predicate Names(weights: map<string, real>, active: seq<nat>, w: seq<real>)
    requires |w| == |active|
  {
    && (forall p :: 0 <= p < |active| ==> active[p] < METRICS)
    && weights.Keys == NamesOf(active, |active|)
    && forall p :: 0 <= p < |active| ==> METRIC_NAMES[active[p]] in weights && weights[METRIC_NAMES[active[p]]] == w[p]
  }

  method FitActivityScale(rows: seq<ActivityScaleRow>, mask: nat, log: real -> real, exp: real -> real)
    returns (model: ActivityScaleModel, ghost active: seq<nat>, ghost run: seq<(real, seq<real>)>)
    requires |rows| > 0 && FullRows(rows)
    requires exists i: nat :: i < METRICS && Bits.Bit(mask, i)
    ensures model.schemaVersion == ACTIVITY_SCALE_VERSION
    ensures Selects(active, mask) && active != []
    ensures |run| == ITERATIONS + 1 && run[0] == (0.0, seq(|active|, _ => 1.0 / |active| as real))
    ensures DescentRun(Design(rows, active, log), Responses(rows, log), 0.02 / |rows| as real, run)
    ensures model.constant == exp(run[ITERATIONS].0)
    ensures |run[ITERATIONS].1| == |active| && OnSimplex(run[ITERATIONS].1)
    ensures Names(model.weights, active, run[ITERATIONS].1)
    ensures WeightTotal(model.weights) == 1.0 && forall name :: name in model.weights ==> model.weights[name] >= 0.0
  {
    var positions := ActiveMetrics(mask);
    active := positions;
    var c, w, r := Descend(rows, positions, log);
    run := r;
    var weights := NameWeights(positions, w);
    model := ActivityScaleModel(ACTIVITY_SCALE_VERSION, exp(c), weights);
    NamedTotal(weights, positions, w);
    NamedNonNegative(weights, positions, w);
  }

  method Descend(rows: seq<ActivityScaleRow>, active: seq<nat>, log: real -> real)
    returns (c: real, w: seq<real>, ghost run: seq<(real, seq<real>)>)
    requires |rows| > 0 && FullRows(rows) && active != [] && forall p :: 0 <= p < |active| ==> active[p] < METRICS
    ensures |run| == ITERATIONS + 1 && run[0] == (0.0, seq(|active|, _ => 1.0 / |active| as real))
    ensures DescentRun(Design(rows, active, log), Responses(rows, log), 0.02 / |rows| as real, run)
    ensures run[ITERATIONS] == (c, w) && |w| == |active| && OnSimplex(w)
  {
    hide Nearest, OnSimplex, Design, Responses, Gradient, Residuals, Moved, Total;
    ghost var xs, ys := Design(rows, active, log), Responses(rows, log);
    w := seq(|active|, _ => 1.0 / |active| as real);
    c := 0.0;
    run := [(c, w)];
    UniformOnSimplex(|active|);
    var rate := 0.02 / |rows| as real;
    for iteration := 0 to ITERATIONS
      invariant |run| == iteration + 1 && run[0] == (0.0, seq(|active|, _ => 1.0 / |active| as real))
      invariant run[iteration] == (c, w) && |w| == |active| && OnSimplex(w)
      invariant DescentRun(xs, ys, rate, run)
    {
      var gradientConstant, gradient := Gradients(rows, active, c, w, log);
      var c' := c - rate * gradientConstant;
      var moved := seq(|w|, p requires 0 <= p < |w| => w[p] - rate * gradient[p]);
      MovedValue(w, rate, gradient, moved);
      var w' := ProjectSimplex(moved);
      NearestOnSimplex(moved, w');
      assert DescentStep(xs, ys, rate, c, w, c', w');
      run := run + [(c', w')];
      c, w := c', w';
    }
  }

  lemma MovedValue(w: seq<real>, rate: real, g: seq<real>, moved: seq<real>)
    requires |w| == |g| == |moved| && forall p :: 0 <= p < |w| ==> moved[p] == w[p] - rate * g[p]
    ensures moved == Moved(w, rate, g)
  {
    forall p | 0 <= p < |w|
      ensures moved[p] == Moved(w, rate, g)[p]
    {
    }
  }

  lemma NearestOnSimplex(v: seq<real>, p: seq<real>)
    requires Nearest(v, p)
    ensures OnSimplex(p)
  {
  }

  lemma UniformOnSimplex(n: nat)
    requires n > 0
    ensures OnSimplex(seq(n, _ => 1.0 / n as real))
  {
    var u := seq(n, _ => 1.0 / n as real);
    SumConstant(u, 1.0 / n as real, 0, n);
    QuotientTimes(1.0, n as real);
    SignOfFactor(1.0 / n as real, n as real);
  }

  method NameWeights(active: seq<nat>, w: seq<real>) returns (weights: map<string, real>)
    requires |w| == |active| && (forall p :: 0 <= p < |active| ==> active[p] < METRICS)
    requires forall p, q :: 0 <= p < q < |active| ==> active[p] < active[q]
    ensures Names(weights, active, w)
  {
    weights := map[];
    for position := 0 to |active|
      invariant weights.Keys == NamesOf(active, position)
      invariant forall p :: 0 <= p < position ==> METRIC_NAMES[active[p]] in weights && weights[METRIC_NAMES[active[p]]] == w[p]
    {
      forall p | 0 <= p < position
        ensures METRIC_NAMES[active[p]] != METRIC_NAMES[active[position]]
      {
        NamesDistinct(active[p], active[position]);
      }
      weights := weights[METRIC_NAMES[active[position]] := w[position]];
    }
  }

  lemma NamesDistinct(i: nat, j: nat)
    requires i < j < METRICS
    ensures METRIC_NAMES[i] != METRIC_NAMES[j]
  {
    var lengths := [7, 10, 13, 16, 9, 10];
    assert forall k :: 0 <= k < METRICS ==> |METRIC_NAMES[k]| == lengths[k];
    assert METRIC_NAMES[1][0] != METRIC_NAMES[5][0];
  }

  // ----- totals over a map

  ghost function TotalOver(names: set<string>, weights: map<string, real>): real
    requires names <= weights.Keys
    decreases |names|
  {
    if names == {} then 0.0
    else
      var name :| name in names;
      weights[name] + TotalOver(names - {name}, weights)
  }

  ghost function WeightTotal(weights: map<string, real>): real {
    TotalOver(weights.Keys, weights)
  }

  /** Any name may be taken out first. */
  lemma {:induction false} TakeOut(names: set<string>, weights: map<string, real>, name: string)
    requires names <= weights.Keys && name in names
    ensures TotalOver(names, weights) == weights[name] + TotalOver(names - {name}, weights)
    decreases |names|
  {
    var first :| first in names && TotalOver(names, weights) == weights[first] + TotalOver(names - {first}, weights);
    if first != name {
      TakeOut(names - {first}, weights, name);
      TakeOut(names - {name}, weights, first);
      assert names - {first} - {name} == names - {name} - {first};
    }
  }

  /** Names of earlier positions differ from that of a later one. */
  lemma {:induction false} NameIsNew(active: seq<nat>, n: nat)
    requires n < |active| && (forall p :: 0 <= p < |active| ==> active[p] < METRICS)
    requires forall p, q :: 0 <= p < q < |active| ==> active[p] < active[q]
    ensures METRIC_NAMES[active[n]] !in NamesOf(active, n)
  {
    NameIsNewUpTo(active, n, n);
  }

  lemma {:induction false} NameIsNewUpTo(active: seq<nat>, n: nat, k: nat)
    requires k <= n < |active| && (forall p :: 0 <= p < |active| ==> active[p] < METRICS)
    requires forall p, q :: 0 <= p < q < |active| ==> active[p] < active[q]
    ensures METRIC_NAMES[active[n]] !in NamesOf(active, k)
  {
    if k > 0 {
      NameIsNewUpTo(active, n, k - 1);
      NamesDistinct(active[k - 1], active[n]);
    }
  }

  lemma {:induction false} TotalOfPrefix(weights: map<string, real>, active: seq<nat>, w: seq<real>, n: nat)
    requires |w| == |active| && n <= |active| && (forall p :: 0 <= p < |active| ==> active[p] < METRICS)
    requires forall p :: 0 <= p < |active| ==> METRIC_NAMES[active[p]] in weights && weights[METRIC_NAMES[active[p]]] == w[p]
    requires forall p, q :: 0 <= p < q < |active| ==> active[p] < active[q]
    ensures NamesOf(active, n) <= weights.Keys
    ensures TotalOver(NamesOf(active, n), weights) == Sum(w, 0, n)
  {
    if n > 0 {
      TotalOfPrefix(weights, active, w, n - 1);
      NameIsNew(active, n - 1);
      var last := METRIC_NAMES[active[n - 1]];
      assert NamesOf(active, n) - {last} == NamesOf(active, n - 1);
      TakeOut(NamesOf(active, n), weights, last);
    }
  }

  lemma NamedTotal(weights: map<string, real>, active: seq<nat>, w: seq<real>)
    requires |w| == |active| && Names(weights, active, w) && OnSimplex(w)
    requires forall p, q :: 0 <= p < q < |active| ==> active[p] < active[q]
    ensures WeightTotal(weights) == 1.0
  {
    TotalOfPrefix(weights, active, w, |active|);
  }

  /** A named metric is an active one. */
  lemma {:induction false} NameHasPosition(active: seq<nat>, n: nat, name: string) returns (p: nat)
    requires n <= |active| && (forall p :: 0 <= p < |active| ==> active[p] < METRICS)
    requires name in NamesOf(active, n)
    ensures p < n && name == METRIC_NAMES[active[p]]
  {
    if name == METRIC_NAMES[active[n - 1]] {
      p := n - 1;
    } else {
      p := NameHasPosition(active, n - 1, name);
    }
  }

  lemma NamedNonNegative(weights: map<string, real>, active: seq<nat>, w: seq<real>)
    requires |w| == |active| && Names(weights, active, w) && OnSimplex(w)
    ensures forall name :: name in weights ==> weights[name] >= 0.0
  {
    forall name | name in weights
      ensures weights[name] >= 0.0
    {
      var p := NameHasPosition(active, |active|, name);
    }
  }

  // ----- prediction

  /** The metric of that name, or zero when the name is unknown. */
  function MetricValue(activity: ActivityVector, name: string): real {
    if name == "tr_mean" then activity.trMean
    else if name == "tr_std_dev" then activity.trStdDev
    else if name == "high_low_mean" then activity.highLowMean
    else if name == "high_low_std_dev" then activity.highLowStdDev
    else if name == "parkinson" then activity.parkinson
    else if name == "yang_zhang" then activity.yangZhang
    else 0.0
  }

  /** Some weighted metric is not positive, or its weight is negative. */
  ghost predicate RejectsInput(weights: map<string, real>, activity: ActivityVector) {
    exists name :: name in weights && (MetricValue(activity, name) <= 0.0 || weights[name] < 0.0)
  }

  function LogTerm(weight: real, value: real, log: real -> real): real {
    weight * log(value)
  }

  /** Weighted logs of the metrics, by name. */
  ghost function LogTerms(weights: map<string, real>, activity: ActivityVector, log: real -> real): map<string, real> {
    map name | name in weights :: LogTerm(weights[name], MetricValue(activity, name), log)
  }

  predicate FarFromOne(total: real) {
    total - 1.0 > 0.00000001 || 1.0 - total > 0.00000001
  }

  method PredictActivity(model: ActivityScaleModel, activity: ActivityVector, log: real -> real, exp: real -> real)
    returns (r: Result<real, ActivityError>)
    ensures r == Err(ModelUnavailable) <==> model.schemaVersion != ACTIVITY_SCALE_VERSION
    ensures model.schemaVersion == ACTIVITY_SCALE_VERSION ==>
      (r == Err(InvalidInput) <==> RejectsInput(model.weights, activity))
    ensures model.schemaVersion == ACTIVITY_SCALE_VERSION && !RejectsInput(model.weights, activity) ==>
      (r == Err(WeightsNotNormalised) <==> FarFromOne(WeightTotal(model.weights)))
    ensures r.Ok? ==> r.value == exp(log(model.constant) + WeightTotal(LogTerms(model.weights, activity, log))) && r.value > 0.0
  {
    if model.schemaVersion != ACTIVITY_SCALE_VERSION {
      return Err(ModelUnavailable);
    }
    var ok, sum, logSum := Accumulate(model.weights, activity, log);
    if !ok {
      return Err(InvalidInput);
    }
    if FarFromOne(sum) {
      return Err(WeightsNotNormalised);
    }
    var result := exp(log(model.constant) + logSum);
    if result <= 0.0 {
      return Err(InvalidPrediction);
    }
    r := Ok(result);
  }

  /** Visits the weights in any order; stops at the first unusable input. */
  method Accumulate(weights: map<string, real>, activity: ActivityVector, log: real -> real)
    returns (ok: bool, sum: real, logSum: real)
    ensures ok <==> !RejectsInput(weights, activity)
    ensures ok ==> sum == WeightTotal(weights) && logSum == WeightTotal(LogTerms(weights, activity, log))
  {
    hide MetricValue, LogTerm;
    sum, logSum := 0.0, 0.0;
    var names := weights.Keys;
    ghost var terms := LogTerms(weights, activity, log);
    assert terms.Keys == weights.Keys;
    while names != {}
      invariant names <= weights.Keys
      invariant WeightTotal(weights) == sum + TotalOver(names, weights)
      invariant WeightTotal(terms) == logSum + TotalOver(names, terms)
      invariant forall name :: name in weights && name !in names ==> MetricValue(activity, name) > 0.0 && weights[name] >= 0.0
      decreases |names|
    {
      var name :| name in names;
      var value, weight := MetricValue(activity, name), weights[name];
      if value <= 0.0 || weight < 0.0 {
        return false, 0.0, 0.0;
      }
      TakeOut(names, weights, name);
      TakeOut(names, terms, name);
      logSum := logSum + LogTerm(weight, value, log);
      sum := sum + weight;
      names := names - {name};
    }
    ok := true;
  }

  /** A trained model refuses exactly the activities with a non-positive active metric. */
  lemma TrainedRejection(weights: map<string, real>, active: seq<nat>, w: seq<real>, mask: nat, activity: ActivityVector)
    requires |w| == |active| && Names(weights, active, w) && Selects(active, mask)
    requires forall name :: name in weights ==> weights[name] >= 0.0
    ensures RejectsInput(weights, activity) <==>
      exists i: nat :: i < METRICS && Bits.Bit(mask, i) && MetricValue(activity, METRIC_NAMES[i]) <= 0.0
  {
    hide MetricValue;
    if RejectsInput(weights, activity) {
      var name :| name in weights && (MetricValue(activity, name) <= 0.0 || weights[name] < 0.0);
      var p := NameHasPosition(active, |active|, name);
      assert Bits.Bit(mask, active[p]);
    }
    if i: nat :| i < METRICS && Bits.Bit(mask, i) && MetricValue(activity, METRIC_NAMES[i]) <= 0.0 {
      var p :| 0 <= p < |active| && active[p] == i;
      assert METRIC_NAMES[i] in weights;
    }
  }

  /** A trained model never fails for its weights, whatever the activity. */
  method TrainThenPredict(rows: seq<ActivityScaleRow>, mask: nat, activity: ActivityVector, log: real -> real, exp: real -> real)
    returns (r: Result<real, ActivityError>)
    requires |rows| > 0 && FullRows(rows)
    requires exists i: nat :: i < METRICS && Bits.Bit(mask, i)
    ensures r != Err(ModelUnavailable) && r != Err(WeightsNotNormalised)
    ensures r == Err(InvalidInput) <==>
      exists i: nat :: i < METRICS && Bits.Bit(mask, i) && MetricValue(activity, METRIC_NAMES[i]) <= 0.0
  {
    hide MetricValue;
    var model, active, run := FitActivityScale(rows, mask, log, exp);
    TrainedRejection(model.weights, active, run[ITERATIONS].1, mask, activity);
    r := PredictActivity(model, activity, log, exp);
  }

  /** The named weighted logs are the products of the positions. */
  lemma LogTermsNamed(weights: map<string, real>, active: seq<nat>, w: seq<real>, activity: ActivityVector, row: ActivityScaleRow, log: real -> real)
    requires |w| == |active| && Names(weights, active, w) && |row.values| == METRICS
    requires forall i :: 0 <= i < METRICS ==> row.values[i] == MetricValue(activity, METRIC_NAMES[i])
    ensures var terms, products := LogTerms(weights, activity, log), Products(w, Regressors(row, active, log));
            && terms.Keys == weights.Keys
            && forall p :: 0 <= p < |active| ==> METRIC_NAMES[active[p]] in terms && terms[METRIC_NAMES[active[p]]] == products[p]
  {
    hide MetricValue;
  }

  /**
    A trained model predicts what was fitted: at a row's metrics the log of the prediction is the constant
    plus the weighted logs by which the fit measured that row's residual.
   */
  lemma PredictionIsFitted(weights: map<string, real>, active: seq<nat>, w: seq<real>, activity: ActivityVector, row: ActivityScaleRow, log: real -> real)
    requires |w| == |active| && Names(weights, active, w) && |row.values| == METRICS
    requires forall p, q :: 0 <= p < q < |active| ==> active[p] < active[q]
    requires forall i :: 0 <= i < METRICS ==> row.values[i] == MetricValue(activity, METRIC_NAMES[i])
    ensures WeightTotal(LogTerms(weights, activity, log)) == Dot(w, Regressors(row, active, log))
  {
    hide MetricValue, LogTerms, Products, Regressors;
    LogTermsNamed(weights, active, w, activity, row, log);
    TotalOfPrefix(LogTerms(weights, activity, log), active, Products(w, Regressors(row, active, log)), |active|);
  }
}
