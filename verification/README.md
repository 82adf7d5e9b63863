# A verified model of the research engine

This project models the deterministic cores of a quantitative-research engine and proves what they are for. Every
module names the file it models.

- **Fitting**: pool-adjacent-violators calibration as a weighted isotonic projection (`Isotonic`, `Calibration`, `Reliability`),
  projection to the simplex inside projected gradient descent (`Simplex`, `ActivityScale`), least-squares lines
  (`LeastSquares`).
- **Geometry**: monotone-chain hulls, the area of a price envelope, and the same area in reused buffers (`Hull`, `Geometry`).
- **Sampling and planning**: Joe-Kuo Sobol points over GF(2) (`Bits`, `Sobol`, `SobolNet`), research plans that can be resumed
  (`PlanningSpace`, `Planning`, `PlannedPoints`, `Exhaustion`), local refinement (`LocalRefinement`).
- **Backtesting**: trading costs, the portfolio simulator, the long-term risk filter, and the runner that drives a practical
  and a filtered portfolio side by side (`ExecutionCosts`, `Simulators`, `Lots`, `LongTermFilters`, `Backtest`, `Overlay`,
  `BacktestRunner`, `RunReports`), without look-ahead (`BacktestCausality`).
- **States**: two hysteresis rules, their scores, and the engine that numbers occurrences and follows a trend inside each
  (`Hysteresis`, `Thresholds`, `StateSearch`, `StateEngines`).
- **Robustness**: the parameter grid, connected regions and shortest distances by breadth-first search, guaranteed boxes
  (`Grid`, `Graphs`, `Regions`, `Boxes`).
- **Causality**: targets, feature points and purged folds without look-ahead (`Targets`, `Training`).
- **Data**: the reference closure of a backup (`BackupClosure`) and the recomposition of market segments
  (`RecompositionPlan`, `Recomposition`, `Provenance`).

Loops over mutable state are methods proved against specification functions; what those functions mean is proved as
lemmas. `Wrappers`, `RealMath`, `Sums`, `Quant`, `Counting`, `Sorting`, `Text` hold shared definitions and arithmetic.

Conventions: `float64` is `real`, without rounding, infinities or NaN. Logarithm, exponential, square root, the calendar,
hashes, the strategy, the activity of a window and the mutual information are parameters. Library sorts are modelled by
insertion under the same order; Go's `(value, error)` is `Result`.

Run `dafny verify dfyconfig.toml` to check everything.

## Where the code differs from what one expects

- Exclusions are never subtracted from the number of combinations: it is right exactly when nothing is excluded
  (`PlanningSpace.ProductCounts`, input in `PlanningSpace.ExclusionIsCounted`). While only plannable coordinates are known, a study
  with an exclusion therefore never counts as exhausted, and a request for more Sobol points than remain is refused (`Exhaustion`).
- Qualified points can share a region without being linked both ways; regions are chains for all points exactly when every
  single step can be undone (`Regions.RegionsAreLinks`, input in `Regions.ExcludedPointSharesRegion`).
- Without a limit, a refinement around a centre whose radius misses the window of an axis runs over that whole axis; under a
  limit it is refused (`LocalRefinement.RefinementStaysClose`, input in `LocalRefinement.FarRefinement`).
- With execution on the same bar and a history prefix that ends in risk-off, the overlay ignores the filter until the next
  signal (`Backtest.RiskFlagSameBar`, input in `Backtest.RiskFlagsDisagree`).
- Parents that are themselves children may be restored after their children (`BackupClosure.ParentsPrecedeChildren`, input in
  `BackupClosure.LateParentExists`).
- Some checks cannot fail: the singularity guard of the trend, the sum of trained weights, the last return of the
  guaranteed box, the final content checks of a recomposition.

## Model

| member | source | states |
|---|---|---|
| `Isotonic.PoolAdjacentViolators` | internal/dynamicparam/calibration.go:54-67 | the backtracking loop ends (twice the blocks less the index decreases) and leaves blocks that tile the bins, each holding its weighted mean with no prefix mean below it, with values in order up to the slack |
| `Isotonic.PooledBlocksProject` | internal/dynamicparam/calibration.go:48-67 | the pooled vector is the weighted projection: every non-decreasing vector pays at least its loss plus its own distance to it |
| `Isotonic.ProjectionIsUnique` | internal/dynamicparam/calibration.go:53-67 | a non-decreasing vector that costs no more than a non-decreasing projection is that projection |
| `Isotonic.PoolingKeepsMean` | internal/dynamicparam/calibration.go:48-67 | pooling keeps the weighted excess over any level, so the weighted mean is unchanged |
| `Isotonic.Spread` | internal/dynamicparam/calibration.go:68-73 | every bin of a block receives the block value, so the values fall by no more than the slack from one bin to the next |
| `Calibration.RatesKeepPrevalence` | internal/dynamicparam/calibration.go:34-52 | the smoothed bins have the sample prevalence as their weighted mean |
| `Calibration.FitProbabilityCalibrator` | internal/dynamicparam/calibration.go:24-78 | fails exactly on mismatched, too few or invalid samples; otherwise boundaries are even and the values are the best fit to the smoothed bins, within 0 and 1, with the prevalence as weighted mean; exactly monotone when the number of samples and bins keeps the slack from binding |
| `Calibration.ExactFit` | internal/dynamicparam/calibration.go:48-78 | a fit whose values are in order is the only best one, and its predictions never fall as the probability grows |
| `Calibration.PredictIsMonotone` | internal/dynamicparam/calibration.go:80-87 | a fitted calibrator always predicts, within 0 and 1, and never falls by more than one slack a bin |
| `Reliability.TalliesAreHeld` | internal/dynamicparam/calibration.go:33-52 | the weight of a bin is the number of samples between its two boundaries and two more, its rate their share of positives with two more at the share of all |
| `Reliability.FitsBetweenBoundaries` | internal/dynamicparam/calibration.go:33-78 | the fitted values are the weighted projection onto the monotone maps of the rates between the boundaries of the calibrator |
| `Reliability.PredictsHeldBin` | internal/dynamicparam/calibration.go:80-87 | a prediction is the value of exactly the bin whose boundaries hold the probability |
| `Hull.ChainIsCorrect` | internal/dynamicparam/geometry.go:151-188 | a scan over ordered points keeps a chain of strict left turns from the first to the last point with every scanned point on or left of each of its edges |
| `Hull.HullEncloses` | internal/dynamicparam/geometry.go:257-292 | the two chains joined are a closed polygon whose corners are input points and whose edges have every input point on their inner side |
| `Hull.HullStrictlyConvex` | internal/dynamicparam/geometry.go:257-292 | a hull of at least three corners turns strictly left at every corner |
| `Hull.FlatHull` | internal/dynamicparam/geometry.go:257-292 | a hull of fewer than three corners means the points lie on one line |
| `Hull.AreaOfHull` | internal/dynamicparam/geometry.go:151-188 | the shoelace area of the hull is never negative, needs no absolute value, and is zero exactly for points on one line |
| `Geometry.ValidateGeometryBars` | internal/dynamicparam/geometry.go:296-306 | accepts exactly the bars with positive ordered prices and strictly increasing times, and names the first invalid bar |
| `Geometry.EnvelopeEncloses` | internal/dynamicparam/geometry.go:47-69 | for every window of two or more bars each low and high point is on the inner side of every hull edge, and the hull is strictly convex |
| `Geometry.SortedIsUnique` | internal/dynamicparam/geometry.go:257-270 | two sorted arrangements of the same points are equal, so any library sort gives the same hull |
| `Geometry.GeometryHull` | internal/dynamicparam/geometry.go:257-292 | the loops compute the hull of the distinct sorted points |
| `Geometry.ConvexHullArea` | internal/dynamicparam/geometry.go:47-69 | fails exactly on invalid or short windows; otherwise the area of the envelope, zero exactly when its outline is a line |
| `Geometry.GeometryWorkspace.ConvexHullAreaOrdered` | internal/dynamicparam/geometry.go:151-188 | the reused buffers give the same area and hull as the fresh computation, whatever they held before |
| `Geometry.TrendSlopeValidated` | internal/dynamicparam/geometry.go:190-206 | the centred sums give the slope of the least-squares line through the closes |
| `Geometry.BuildGeometryFeatures` | internal/dynamicparam/geometry.go:106-149 | fails exactly on a short lookback or invalid bars; otherwise one point a bar, described by its own window |
| `Geometry.GeometryPointMeans` | internal/dynamicparam/geometry.go:113-149 | an available point has the area of the envelope of its window, zero exactly for a line, and the least-squares slope of its closes |
| `Geometry.GeometryIsCausal` | internal/dynamicparam/geometry.go:113-129 | bars after an index cannot change the geometry point at that index |
| `Sobol.TableIsValid` | internal/parameterresearch/sobol.go:18-39 | every row of the direction table has odd initial numbers below the powers of two and as many as its degree |
| `Sobol.DirectionsTriangular` | internal/parameterresearch/sobol.go:61-83 | direction number j has lowest set bit 32-j, through the initial numbers and the recurrence |
| `Sobol.SobolDirections` | internal/parameterresearch/sobol.go:61-83 | the nested loops compute the direction numbers of the recurrence |
| `Sobol.Accumulate` | internal/parameterresearch/sobol.go:50-57 | the bit-clearing loop combines exactly the direction numbers that the Gray code selects |
| `Sobol.SobolPoint` | internal/parameterresearch/sobol.go:41-59 | fails exactly outside the dimensions and indices; otherwise each coordinate is the combination its Gray code selects |
| `Sobol.GrayLinear` | internal/parameterresearch/sobol.go:45 | the Gray code is linear over exclusive or |
| `Sobol.PrefixesDiffer` | internal/parameterresearch/sobol.go:41-83 | two indices of one aligned block of 2^k have different k-bit prefixes in every dimension |
| `Sobol.EachPrefixOnce` | internal/parameterresearch/sobol.go:41-83 | every k-bit prefix occurs at exactly one index of an aligned block |
| `Sobol.DyadicIntervalsHitOnce` | internal/parameterresearch/sobol.go:41-83 | every dyadic interval of width 2^-k holds exactly one of the 2^k points of an aligned block, in every dimension and for every k up to 32 |
| `SobolNet.RectanglesHitOnce` | internal/parameterresearch/sobol.go:41-83 | in the first two dimensions together every rectangle of dyadic sides and area 2^-k holds exactly one of the 2^k points of an aligned block, however the area is split |
| `SobolNet.NumbersFollowPolynomial` | internal/parameterresearch/sobol.go:66-82 | every digit of every later direction number is the parity of the digits that the polynomial of its dimension selects |
| `Simplex.ProjectSimplex` | internal/dynamicparam/activity_scale.go:197-214 | the result is a Euclidean-nearest point of the probability simplex, for every non-empty vector |
| `Simplex.NearestIsUnique` | internal/dynamicparam/activity_scale.go:197-214 | a vector has only one nearest point of the simplex |
| `ActivityScale.Gradients` | internal/dynamicparam/activity_scale.go:143-161 | the row loop accumulates the gradient of half the squared log residuals |
| `ActivityScale.FitActivityScale` | internal/dynamicparam/activity_scale.go:136-174 | the fit is 300 projected gradient steps from the uniform weights; the weights stay on the simplex and sum to one |
| `ActivityScale.RestingPointIsOptimal` | internal/dynamicparam/activity_scale.go:143-168 | weights and constant that a step leaves in place have the least loss of all constants and simplex weights |
| `ActivityScale.PredictActivity` | internal/dynamicparam/activity_scale.go:111-134 | which inputs each error rejects, and the weighted geometric mean otherwise |
| `ActivityScale.TrainedRejection` | internal/dynamicparam/activity_scale.go:111-134 | a trained model rejects an input exactly when one of its own metrics is not positive |
| `ActivityScale.TrainThenPredict` | internal/dynamicparam/activity_scale.go:111-168 | on a trained model the error for weights that do not sum to one never occurs |
| `ActivityScale.PredictionIsFitted` | internal/dynamicparam/activity_scale.go:116-125 | at the metrics of a training row the log of the prediction is what the fit measured the residual of that row by |
| `ExecutionCosts.BuyQuantityForCash` | internal/quant/execution_costs.go:20-36 | a positive budget at a positive price is spent exactly, at the unit cost with spread and fee; otherwise nothing is bought |
| `ExecutionCosts.ProceedsPositive` | internal/quant/execution_costs.go:38-49 | selling brings in cash exactly when quantity and price are positive and both rates are below one |
| `Simulators.Simulator.Contribute` | internal/backtestcore/simulator.go:50-54 | adds a positive amount to the cash and nothing else |
| `Simulators.Simulator.Execute` | internal/backtestcore/simulator.go:56-122 | transfers lots and fills the intents one after the other; value moves by the reported cost only |
| `Simulators.Simulator.FillOne` | internal/backtestcore/simulator.go:74-119 | one intent: which purchases and sales are refused, and what the others change |
| `Simulators.ExecuteConserves` | internal/backtestcore/simulator.go:56-122 | executing keeps cash and lots non-negative and lowers the value at the price by exactly the total cost, which is fee plus slippage |
| `Simulators.SoldAnyConserves` | internal/backtestcore/simulator.go:160-196 | so does selling from all lots |
| `Simulators.RebalanceConserves` | internal/backtestcore/simulator.go:124-154 | so does rebalancing |
| `Simulators.RebalanceTowardsTarget` | internal/backtestcore/simulator.go:124-154 | a rebalancing trade moves the asset value to the target: a sale exactly, a purchase upwards without overshooting |
| `Simulators.TakeAssetTakes` | internal/backtestcore/simulator.go:176-190 | the three lots together give up exactly the quantity sold |
| `Simulators.LiquidationEmpties` | internal/backtestcore/simulator.go:156-158 | with both rates below one a liquidation empties all three lots |
| `Simulators.LiquidationRefused` | internal/backtestcore/simulator.go:156-196 | with a rate of one or more it sells nothing |
| `Simulators.Simulator.RebalanceToExposure` | internal/backtestcore/simulator.go:124-154 | the method is the specified rebalancing |
| `Simulators.Simulator.LiquidateAll` | internal/backtestcore/simulator.go:156-158 | the method sells everything it can |
| `Simulators.Simulator.SellAnyAsset` | internal/backtestcore/simulator.go:160-196 | the method takes floating, then dead, then sealed lots |
| `Lots.PurchaseMoves` | internal/backtestcore/simulator.go:75-98 | a purchase is made exactly when budget and quantity pass their minimums, and then moves the budget out of the cash and the quantity it buys with costs into the lot it names; what it reports |
| `Lots.SaleMoves` | internal/backtestcore/simulator.go:99-119 | a sale is made exactly when quantity and value pass their minimums and the costs leave something, and touches only the floating lot and the cash; what it reports |
| `Lots.TransfersMove` | internal/backtestcore/simulator.go:61-68 | transfers move what they ask for from the dead stack to the floating lot, as far as it goes |
| `Lots.ExecutionTouches` | internal/backtestcore/simulator.go:56-122 | executing never touches the sealed lot; the dead stack shrinks only by transfers, the floating lot only by sales, the cash only by purchases |
| `Lots.SaleFromAllLots` | internal/backtestcore/simulator.go:160-196 | a sale from all lots takes exactly its quantity, floating before dead before sealed, for its worth after costs |
| `LongTermFilters.LongTermFilter.Observe` | internal/backtestcore/long_term_filter.go:39-79 | what one bar does to the recorded month closes, the averages and the flag, and the signal that reports a change of the flag |
| `LongTermFilters.FlagComparesMonths` | internal/backtestcore/long_term_filter.go:39-79 | the flag turns on or off exactly as the newest month close lies below or above the one the configured number of months before it |
| `LongTermFilters.Average` | internal/backtestcore/long_term_filter.go:87-96 | the mean of any values, zero without any |
| `LongTermFilters.ChangeAlternates` | internal/backtestcore/long_term_filter.go:61-71 | signals of changes alternate and their parity records the flag |
| `Backtest.TradeBoth` | internal/backtestcore/sigmoiddca.go:142-169 | both portfolios trade as specified, the practical one first, the overlay using the exposure just reached |
| `Backtest.StepBalances` | internal/backtestcore/sigmoiddca.go:124-180 | over every executed bar both portfolios stay solvent and their value at the trade price moves by contribution less cost |
| `Backtest.RunIsDetermined` | internal/backtestcore/sigmoiddca.go:88-367 | a run is settled by the bars it executes |
| `Backtest.RunKeepsCoupling` | internal/backtestcore/sigmoiddca.go:105-180 | after every bar of every run: solvent, together until they diverge, and empty while risk is off |
| `Backtest.SameUntilFirstEvent` | internal/backtestcore/sigmoiddca.go:159-169 | until the first executed filter signal the filtered portfolio and its trades are the practical ones |
| `Backtest.EmptyWhileRiskOff` | internal/backtestcore/sigmoiddca.go:148-168 | with rates below one the filtered portfolio holds none of the three lots from an executed entry to the next exit, contributions included |
| `Backtest.SignalsAlternate` | internal/backtestcore/sigmoiddca.go:105-113 | the observed signals, history prefix included, strictly alternate and begin with an entry |
| `Backtest.EventsFollowSignals` | internal/backtestcore/sigmoiddca.go:252-258 | every signal is executed once and in order, except in a history prefix: all but its last at the next open, all of it on the same bar |
| `Backtest.EventsAlternate` | internal/backtestcore/sigmoiddca.go:148-158 | executed events alternate, continuing the unexecuted signals of the prefix; without a history prefix the first is an entry |
| `Backtest.RiskFlagLagsOneBar` | internal/backtestcore/sigmoiddca.go:138-180 | with execution at the next open the overlay flag at each executed bar is the flag of the filter before that bar was observed |
| `Backtest.RiskFlagSameBar` | internal/backtestcore/sigmoiddca.go:260-284 | with execution on the same bar the two flags agree exactly when some event has been executed or no history prefix left the filter in risk-off |
| `Backtest.RiskFlagsDisagree` | internal/backtestcore/sigmoiddca.go:105-113 | an input where they do not: a prefix of two falling month closes, then one executed bar |
| `Backtest.RunConserves` | internal/backtestcore/sigmoiddca.go:124-180 | between two bars of a run either portfolio gains the contributions less the costs plus what price moves earn on the quantity held |
| `Overlay.RebalanceMoves` | internal/backtestcore/simulator.go:124-154 | rebalancing buys what is missing to the target value as far as the cash goes, or sells exactly the surplus, wherever the minimums are passed |
| `Overlay.OverlayFollows` | internal/backtestcore/sigmoiddca.go:142-169 | on every bar of every run: an entry sells everything, an exit, and afterwards every adjustment or contribution, moves the filtered portfolio to the practical share of assets, and otherwise it follows the practical one before the first event and rests after it |
| `Overlay.ExitSellsToShare` | internal/backtestcore/sigmoiddca.go:154-158 | after an exit whose sale passes the minimums the filtered portfolio holds exactly the practical share of assets |
| `Overlay.PracticalKeepsSealed` | internal/backtestcore/sigmoiddca.go:138-142 | the practical portfolio starts with the capital in cash and the asset sealed, and the sealed asset never changes |
| `RunReports.RunCovers` | internal/backtestcore/sigmoiddca.go:88-117 | a completed run executes exactly the bars inside the run with a positive close, without the history prefix |
| `RunReports.PaidOnceAMonth` | internal/backtestcore/sigmoiddca.go:122-133 | where months follow time, every month of executed bars but the first is paid for on exactly its first bar |
| `RunReports.FlowsAreContributions` | internal/backtestcore/sigmoiddca.go:129-132 | the reported flows are exactly the contributions after the start of the evaluation |
| `RunReports.PathIsAccounted` | internal/backtestcore/sigmoiddca.go:295-367 | from each point of a reported path to the next both portfolios gain what came in, less the costs reported, plus what price moves earned on the quantities reported |
| `RunReports.ResultMeans` | internal/backtestcore/sigmoiddca.go:369-408 | the final assets reported are what the two portfolios are worth after the last executed bar |
| `BacktestCausality.RunIsCausal` | internal/backtestcore/sigmoiddca.go:88-367 | two runs on series that agree up to bar k, with the next bar in the same month and the same strategy answers so far, have the same records up to bar k |
| `BacktestCausality.FailureIsCausal` | internal/backtestcore/sigmoiddca.go:138-213 | a backtest that stops at a bar up to k stops at the same bar for the same reason on every such series |
| `BacktestCausality.PathIsCausal` | internal/backtestcore/sigmoiddca.go:295-367 | the reported path up to the time of bar k is the same on every such series |
| `BacktestRunner.Runner.ContributeMonthly` | internal/backtestcore/sigmoiddca.go:122-133 | pays exactly when the month differs from that of the last executed bar |
| `BacktestRunner.Runner.StepNextOpen` | internal/backtestcore/sigmoiddca.go:138-258 | pending orders and signal at the open, then the new decision; an error exactly when something is pending at a non-positive open, or the parameters are refused |
| `BacktestRunner.Runner.StepSameBar` | internal/backtestcore/sigmoiddca.go:205-293 | decision first, then both portfolios at the close |
| `BacktestRunner.Runner.StepBar` | internal/backtestcore/sigmoiddca.go:118-293 | one executed bar follows the specified step, in either mode |
| `BacktestRunner.Runner.RunBar` | internal/backtestcore/sigmoiddca.go:101-293 | a bar of the history prefix only moves the filter and its pending signal, any other is executed |
| `BacktestRunner.EnterBar` | internal/backtestcore/sigmoiddca.go:122-177 | the books stay the path, the flows and the totals of the run after one more bar |
| `BacktestRunner.AddPoint` | internal/backtestcore/sigmoiddca.go:170-177 | trade counts and costs kept beside the path stay the sums over its points |
| `BacktestRunner.RunSigmoidDCA` | internal/backtestcore/sigmoiddca.go:88-408 | a completed run executes exactly the executable bars and reports its own path, flows and totals, for both ledgers; an error names the first bar that could not be executed; an empty evaluation is its own error |
| `Hysteresis.StickierStep` | internal/dynamicparam/state.go:161-176 | two rules that differ in stickiness: the less sticky one is in the same state or uncertain, and a change of the stickier one lands on its state |
| `Hysteresis.StickierDirectionSwitchesLess` | internal/dynamicparam/state.go:161-176 | for every sequence of probabilities a smaller hysteresis ratio never yields more direction switches |
| `Hysteresis.StickierVolatilitySwitchesLess` | internal/dynamicparam/state.go:178-194 | the same for volatility switches |
| `Hysteresis.FollowerSwitchesLess` | internal/dynamicparam/state_search.go:119-127 | a sequence that changes only to the state of another one changes no more often |
| `Hysteresis.RunsCover` | internal/dynamicparam/state_search.go:119-130 | the stretches of equal states cover the sequence and number one more than the switches |
| `Thresholds.DirectionMeans` | internal/dynamicparam/state.go:161-176 | after any probabilities the direction is up exactly when one of them reached the entry threshold and none since has fallen below the exit threshold, down exactly when the same holds of the probabilities of a fall |
| `Thresholds.VolatilityMeans` | internal/dynamicparam/state.go:178-194 | volatility is high exactly when some metric once exceeded its threshold and at every step since some metric kept its share |
| `Thresholds.ReportedStateMeans` | internal/dynamicparam/state.go:123-159 | the same of every state the engine reports, for all inputs so far |
| `StateSearch.TallyCounts` | internal/dynamicparam/state_search.go:104-118 | the counters of the scores are numbers of positions |
| `StateSearch.HitsCount` | internal/dynamicparam/state_search.go:114-118 | hits are the positions with the direction that came true |
| `StateSearch.FalseExitsCount` | internal/dynamicparam/state_search.go:176-183 | false exits are the positions where high turns to low while volatility was high |
| `StateSearch.ScoreEndpointDirection` | internal/dynamicparam/state_search.go:92-149 | durations, switches, coverage, hit rate and rates by state are those of the states passed through; durations sum to the observations and number switches plus one |
| `StateSearch.ScoreVolatilityRule` | internal/dynamicparam/state_search.go:151-202 | the same for volatility, with the balanced accuracy, false exits and exit delay |
| `StateSearch.FalseExitsAreMisses` | internal/dynamicparam/state_search.go:176-183 | there are no more false exits than missed highs |
| `StateEngines.OccurrenceTrend.Add` | internal/dynamicparam/state.go:272-287 | the running sums stay those of all closes of the occurrence, and every residual is the error against the line through the closes before |
| `StateEngines.OccurrenceTrend.Deviation` | internal/dynamicparam/state.go:249-270 | none exactly for fewer than three closes or no spread; otherwise the distance from the least-squares line in standard deviations |
| `StateEngines.FittedLineIsBest` | internal/dynamicparam/state.go:257-258 | the line solved from the running sums has the least squared error of all lines |
| `StateEngines.SumsSolve` | internal/dynamicparam/state.go:253-256 | the denominator is n^2(n^2-1)/12, so from two closes on the singularity guard never trips |
| `LeastSquares.DeterminantValue` | internal/dynamicparam/state.go:253-256 | the determinant of the normal equations, at least one from two observations on |
| `StateEngines.LastStretchIsMaximal` | internal/dynamicparam/state.go:134-142 | the current occurrence is a maximal stretch of equal state types |
| `StateEngines.OccurrenceGrows` | internal/dynamicparam/state.go:134-142 | an input of the same type continues the occurrence, any other opens the next one |
| `StateEngines.StateEngine.Step` | internal/dynamicparam/state.go:123-159 | rejects exactly the invalid inputs; the occurrence number is the number of maximal stretches so far, the deviation and the blended scale are those of the occurrence before the input |
| `Grid.ValidateSpace` | internal/robustness/grid.go:11-44 | accepts exactly the valid spaces |
| `Grid.IsExcluded` | internal/robustness/grid.go:134-151 | the scan finds exactly the listed coordinates |
| `Grid.KeyInjective` | internal/robustness/grid.go:153-159 | different coordinates have different keys, whatever their lengths |
| `Grid.BoxCoordinates` | internal/robustness/analysis.go:577-597 | lists every coordinate of the clipped box that is not excluded, each exactly once, and no other |
| `Grid.AxisNeighbors` | internal/robustness/analysis.go:599-615 | lists exactly the single-axis steps that stay in the window of their axis and are not excluded |
| `Grid.NeighborsAreMutual` | internal/robustness/analysis.go:599-615 | between coordinates of the window that are not excluded every step can be undone |
| `Regions.Explore` | internal/robustness/analysis.go:146-161 | the search finds exactly the points the start reaches that no earlier search visited, each once |
| `Regions.ConnectedRegions` | internal/robustness/analysis.go:132-167 | the regions cover the qualified actual points, and each holds exactly the points with the same least source |
| `Regions.RegionsHold` | internal/robustness/analysis.go:132-145 | the regions hold exactly the actual, qualified points with metrics |
| `Regions.SharedRegion` | internal/robustness/analysis.go:132-167 | no point lies in two regions; two share one exactly when they have the same least source, for any points whatever |
| `Regions.SharedIffLinked` | internal/robustness/analysis.go:132-167 | where every step can be undone, two points share a region if and only if a chain of single-axis steps through qualified points links them |
| `Regions.NeverUndone` | internal/robustness/analysis.go:599-615 | a step that cannot be undone is not undone by any chain either |
| `Regions.RegionsAreLinks` | internal/robustness/analysis.go:132-167 | sharing a region is being linked by a chain, for all qualified points, exactly when every single step can be undone |
| `Regions.RegularGraphIsMutual` | internal/robustness/analysis.go:599-615 | points inside the window and not excluded are such points |
| `Regions.ExcludedPointSharesRegion` | internal/robustness/analysis.go:599-615 | an input where the two come apart: an excluded point steps onto a neighbour that cannot step back, and both share a region |
| `Regions.MedoidCost` | internal/robustness/analysis.go:536-563 | the cost is the sum of the true shortest chain lengths to all points reached inside the component |
| `Regions.DistancesAreUnique` | internal/robustness/analysis.go:536-563 | those shortest lengths are the only ones, so the cost is determined |
| `Regions.MedoidReachesRegion` | internal/robustness/analysis.go:536-563 | where every step can be undone, every point of a region is reached, so the cost sums the distances to all of them |
| `Boxes.WithinMeans` | internal/robustness/analysis.go:577-597 | a box is the coordinates of the window, not excluded, within the Chebyshev distance |
| `Boxes.GoodBoxMeans` | internal/robustness/analysis.go:318-333 | a box is good exactly when each of its coordinates is that of a qualified point with metrics |
| `Boxes.GuaranteedBox` | internal/robustness/analysis.go:309-353 | every box up to the radius is observed and qualified; an exact radius has an observed failure one step further and no reasons; an inexact one a gap there, or the window ended the search and the reasons are exactly the ends touched that are not legal bounds |
| `BackupClosure.IncrementalBackup.Gather` | cmd/backup-tool/main.go:2277-2302 | the id sets are exactly the ids that the rows at hand mention |
| `BackupClosure.IncrementalBackup.Pass` | cmd/backup-tool/main.go:2277-2359 | a pass adds only rows that every closed superset holds, and adds none only to a closed set |
| `BackupClosure.FetchStaysInside` | cmd/backup-tool/main.go:2304-2359 | whatever a pass fetches lies in every closed set above the rows at hand |
| `BackupClosure.ClosedMeans` | cmd/backup-tool/main.go:2274-2366 | where no reference dangles, closed means that parents, children, items, cache entries, source items and dependencies are all followed |
| `BackupClosure.IncrementalBackup.HydrateComputeClosure` | cmd/backup-tool/main.go:2274-2367 | on success the least closed superset in restore order; the error means a thousand passes each added rows |
| `BackupClosure.SmallDatabaseIsHydrated` | cmd/backup-tool/main.go:2275-2366 | the error needs at least a thousand rows beyond the first ones |
| `BackupClosure.SortForRestore` | cmd/backup-tool/main.go:2369-2395 | every row once, tasks without a parent first, then by stage order and id |
| `BackupClosure.ParentsPrecedeChildren` | cmd/backup-tool/main.go:2385-2395 | parents precede their children exactly when no parent that is itself a child comes after its child by stage order and id |
| `BackupClosure.LateParentExists` | cmd/backup-tool/main.go:2385-2395 | an input where they do not: tasks 1, 3 below 1 and 2 below 3 at equal stages |
| `PlanningSpace.ValidIsRegular` | internal/parameterresearch/planning.go:293-308 | in a valid space the check by keys accepts exactly the coordinates of the window that are not excluded |
| `PlanningSpace.CombinationCount` | internal/parameterresearch/planning.go:70-94 | fails exactly on an invalid space; otherwise the saturated number of coordinates in the window, and unsaturated that of the coordinates the study can hold exactly when nothing is excluded |
| `PlanningSpace.ProductCounts` | internal/parameterresearch/planning.go:70-92 | the product of the widths is the number of coordinates the study can hold plus that of the distinct excluded ones, and the former alone exactly when nothing is excluded |
| `PlanningSpace.ExclusionIsCounted` | internal/parameterresearch/planning.go:82-92 | an input where the count is too large: two values, one excluded, count two |
| `PlanningSpace.EnumerateCoordinates` | internal/parameterresearch/planning.go:264-291 | every combination of the ranges once, and from the first dimension exactly the valid ones |
| `PlanningSpace.EnumerateWindow` | internal/parameterresearch/planning.go:153-159 | without ranges, every coordinate of the window that is not excluded, once; with the distinct excluded ones they number the product of the widths |
| `Planning.PlanBuilder.AppendCoordinate` | internal/parameterresearch/planning.go:121-137 | rejects, counts a duplicate or appends |
| `Planning.PlanBuilder.AppendAnchors` | internal/parameterresearch/planning.go:138-150 | baseline, then both ends of every axis |
| `Planning.PlanBuilder.Sample` | internal/parameterresearch/planning.go:167-198 | stops exactly when enough points were added or as many hashes are known as the window is said to hold; fails exactly when indices, dimensions or attempts run out first |
| `Exhaustion.ExhaustedWindow` | internal/parameterresearch/planning.go:171 | with hashes of window coordinates known beforehand, as many hashes are seen as the window holds coordinates exactly when each of them has been seen |
| `Exhaustion.ExhaustedMeansAllSeen` | internal/parameterresearch/planning.go:171 | with hashes of coordinates the study can hold known beforehand, the window counts as exhausted exactly when nothing is excluded and every coordinate has been seen |
| `Exhaustion.TooManyRequested` | internal/parameterresearch/planning.go:171-198 | where a coordinate of the window may not be planned and is not known, sampling for more points than remain always fails |
| `Exhaustion.ExclusionRefusesLargeRequest` | internal/parameterresearch/planning.go:163-198 | a study with an exclusion has no Sobol plan for more points than remain, whatever the strategy accepts |
| `Planning.PlanGlobalValidated` | internal/parameterresearch/planning.go:103-200 | a plan exists exactly when the request is valid and sampling can finish, and it is the specified one |
| `Planning.PlanIsSound` | internal/parameterresearch/planning.go:121-137 | in every plan the hashes are distinct and new, and every point is legal and described by its coordinate |
| `Planning.ResumingIsPlanningAtOnce` | internal/parameterresearch/planning.go:163-199 | n points and then m more from the next index with the known hashes are the points, counts and next index of n + m points at once, when the window holds more |
| `Planning.EnumerationCovers` | internal/parameterresearch/planning.go:151-162 | under an injective hash a full enumeration holds every legal coordinate not known before, exactly once, and no other |
| `Planning.AxisValuesHitOnce` | internal/parameterresearch/planning.go:176-184 | on an axis of 2^k values every aligned block of 2^k indices maps to each value exactly once |
| `PlannedPoints.AnchorsArePlanned` | internal/parameterresearch/planning.go:138-150 | the first points of a plan are exactly the legal, unknown ones among the baseline and the ends of every axis |
| `PlannedPoints.EnumeratesSmallWindows` | internal/parameterresearch/planning.go:151-162 | a plan enumerates exactly when as many points are wanted as the window holds coordinates |
| `PlannedPoints.AttemptsAreCounted` | internal/parameterresearch/planning.go:121-137 | every attempt is a point, a duplicate or a rejection, and the rejections are the attempts that may not be planned |
| `PlannedPoints.SampledFromSequence` | internal/parameterresearch/planning.go:171-196 | every sampled point lies at the Sobol point of the index it names, in ascending order |
| `PlannedPoints.MappedIsInCell` | internal/parameterresearch/planning.go:176-184 | a Sobol number maps to exactly the value whose cell of the window holds it |
| `PlannedPoints.ParametersMean` | internal/parameterresearch/planning.go:246-262 | the parameters of a point are the fixed ones with every axis at its coordinate |
| `LocalRefinement.PlanLocalRefinementLimited` | internal/parameterresearch/planning.go:209-244 | fails exactly on an invalid request or a broken limit; otherwise one planned point for each valid unknown coordinate of the ranges, described by its coordinate and origin |
| `LocalRefinement.RefinementStaysClose` | internal/parameterresearch/planning.go:213-244 | the refinement returned stays within its radius exactly when the radius reaches the window in every axis or nothing is returned; under a limit it always does; without exclusions and known points reaching the window alone decides |
| `LocalRefinement.FarRefinement` | internal/parameterresearch/planning.go:213-244 | an input where it does not: a window of one value, centre five, radius one, no limit; with a limit it is refused, with the value known nothing is returned |
| `Targets.MedianOfPositives` | internal/dynamicparam/targets.go:210-226 | the loop and the sort give the median of the positive values |
| `Targets.MedianIsCentral` | internal/dynamicparam/targets.go:210-226 | at least half of the positive values are no greater, and at least half no smaller, than it |
| `Targets.MedianIsMean` | internal/dynamicparam/targets.go:210-226 | it is the mean of two of them, the middle ones |
| `Targets.BuildTargets` | internal/dynamicparam/targets.go:11-50 | fails exactly on an unsupported horizon, too few or invalid bars; otherwise each target with the median of the totals completed by its index |
| `Targets.TargetMeans` | internal/dynamicparam/targets.go:22-47 | up exactly when the close at the horizon is higher; the spaces are the largest log rise and fall within it, zero or attained |
| `Targets.NormalizedTargetMeans` | internal/dynamicparam/targets.go:38-46 | normalised spaces are the spaces in units of the causal median, zero without one |
| `Targets.CausalMedianMeans` | internal/dynamicparam/targets.go:22-46 | the causal median is that of the total spaces of the targets whose horizon has passed |
| `Targets.CausalMedianIsCausal` | internal/dynamicparam/targets.go:22-46 | bars after an index cannot change the causal median at that index |
| `Targets.TargetIsLocal` | internal/dynamicparam/targets.go:28-47 | a target looks no further than its horizon |
| `Targets.BuildFeaturePoints` | internal/dynamicparam/targets.go:97-132 | fails exactly on a short lookback or invalid bars; otherwise each point from its window and the history before it |
| `Targets.HistoryMeans` | internal/dynamicparam/targets.go:105-131 | the history at an index holds the activity of every window that ended before it, and no other |
| `Targets.FeatureMeans` | internal/dynamicparam/targets.go:112-131 | the ratios of an available point are its metrics in units of the medians of their earlier positive values |
| `Targets.FeatureIsCausal` | internal/dynamicparam/targets.go:97-132 | bars after an index cannot change the feature point at that index |
| `Training.BuildPurgedFolds` | internal/dynamicparam/training.go:229-248 | fails exactly on too few samples; otherwise consecutive non-empty validation blocks up to the last sample, equal but for the last, each trained on everything at least a purge before it |
| `Training.TrainsOnEarlier` | internal/dynamicparam/training.go:239-246 | a fold trains on exactly the samples more than the purge before its first validated one |
| `Training.BlocksAreEqual` | internal/dynamicparam/training.go:233-246 | all blocks but the last are equally long, and the last exceeds them by less than the number of folds |
| `Targets.BuildTarget` | internal/dynamicparam/targets.go:28-47 | one target from the totals completed by its index |
| `Training.EachSampleValidatedOnce` | internal/dynamicparam/training.go:239-246 | the validation blocks hold every sample from the first purge on exactly once |
| `Training.TargetExamples` | internal/dynamicparam/training.go:847-872 | the loop keeps exactly the usable targets, in order |
| `Training.ExampleMeans` | internal/dynamicparam/training.go:847-872 | every example pairs an available feature point with the outcome of the same index |
| `Training.ExamplesComplete` | internal/dynamicparam/training.go:847-872 | no usable target is left out |
| `Training.ExamplesAscend` | internal/dynamicparam/training.go:847-872 | dropping rows keeps the example indices strictly increasing |
| `Training.TrainingEndsBeforeValidation` | internal/dynamicparam/training.go:340-341 | in every fold a training index plus the horizon is below every validation index, however many rows were dropped |
| `Training.FoldSlices` | internal/dynamicparam/training.go:327-341 | fails exactly on too few examples; otherwise the training and validation examples that each window selects |
| `Training.NoLeakage` | internal/dynamicparam/training.go:340-341 | one training target is the same for all bar series that agree before the validation bar |
| `Training.TrainingSliceIsCausal` | internal/dynamicparam/training.go:327-341 | on two series that agree before the first validation bar of a fold and give equally many examples, the whole training slice of the fold is the same: selection, features and targets |
| `RecompositionPlan.NormalizePlan` | internal/marketversion/recomposition.go:20-78 | accepts exactly the plans whose sorted, trimmed segments are valid, distinct and consecutive with a count that fits; the result is that plan with its total |
| `RecompositionPlan.NormalizingTwice` | internal/marketversion/recomposition.go:20-78 | the result is normal, and normalising a normal plan changes nothing |
| `Recomposition.QuantizeProperties` | internal/marketversion/recomposition.go:242-247 | quantizing keeps order, and gives zero exactly below half a unit |
| `Recomposition.QuantizeTwice` | internal/marketversion/recomposition.go:242-247 | quantizing twice is quantizing once |
| `Recomposition.ScaledBarIsValid` | internal/marketversion/recomposition.go:120-131 | scaling and rounding keep the order of the four prices; a bar is rejected exactly when its low rounds to zero |
| `Recomposition.CopyBars` | internal/marketversion/recomposition.go:120-139 | copies every bar with its slot, scale and lineage, or fails exactly when one does not survive rounding |
| `Recomposition.AddInstance` | internal/marketversion/recomposition.go:101-157 | lays one repetition behind the output, joined to the last close by its anchor; fails only without a positive anchor or on rounding to zero |
| `Recomposition.GapIsKept` | internal/marketversion/recomposition.go:107-114 | before quantization the join keeps the gap of the segment over its anchor |
| `Recomposition.BelongingRow` | internal/marketversion/recomposition.go:119-157 | each output bar of an instance has its own ordinal, slot and lineage row |
| `Provenance.EveryBarComesFrom` | internal/marketversion/recomposition.go:101-139 | every output bar copies one source bar: each price the source price at the scale of its instance, the volume the source volume, rounded to ten decimals by at most half a unit, with the lineage row that names it; the scale takes the anchor to the close before |
| `Recomposition.HashRecompositionContent` | internal/marketversion/recomposition.go:172-197 | accepts exactly sound content, empty instance names included among the unsound |
| `Recomposition.InstanceIdInjective` | internal/marketversion/recomposition.go:118 | different repetitions have different names |
| `Recomposition.LaidIsSound` | internal/marketversion/recomposition.go:159-166 | on an output the loops have laid the content checks never fail |
| `Recomposition.StopsOnce` | internal/marketversion/recomposition.go:91-161 | what has been laid is determined, so a recomposition can stop at one repetition only, and for one reason |
| `Recomposition.Recompose` | internal/marketversion/recomposition.go:80-168 | on success the slots are filled exactly by one instance for each repetition, in order; otherwise plan or slots are invalid, or it fails with an error exactly when a repetition cannot be laid behind the others for that reason |

## Left out

- Floating-point rounding, infinities and NaN: all arithmetic is over the reals, and the quantizers' pass-through of values beyond 10^-10 of the largest float is not modelled.
- `BuildReliabilityBins`, `activityScaleErrors`, quantiles, GAM and TCN training, mixtures and mutual information: heuristic or transcendental parts without a sharp discrete property.
- Calibration.FitProbabilityCalibrator: exact monotonicity is stated under a bound on samples and bins that keeps the 1e-15 slack from binding; without it the values fall by at most the slack a bin.
- BacktestRunner.RunSigmoidDCA: normalisation of requests, model and reference target weights, daily returns and the money-weighted return are not modelled: formulas on values that the modelled run already fixes.
- The strategy step with its thresholds and the parameter provider: one arbitrary function of the bar, the practical portfolio and its own state.
- StateEngines.StateEngine.Step: the occurrence identifier is a pair of number and start time instead of its formatted string, and the blending of scales is a parameter.
- The search over candidate rules and candidate activity masks: comparisons of the modelled scores.
- `Enumerate`, `missingCoordinates` and `SampleNeighborhood` of the grid: the first two repeat the argument of `BoxCoordinates`, the third is another sampler.
- Axis tolerances, neighbourhood objectives, frontier and centre selection of a region: the frontier compares under a tolerance with which near ties can dominate each other in a cycle.
- Boxes.GuaranteedBox: the truncation reasons are a set instead of a sorted list of strings.
- BackupClosure.IncrementalBackup.Pass: backup slices are tables by id, read from one consistent database; the sort orders of the other three tables and all queries are not modelled.
- Planning.PlanGlobalValidated: the hash of a coordinate is a parameter, and origin type, key and index are one value; 64-bit overflow of the attempt limit is not modelled.
- Exhaustion.ExhaustedWindow: stated for the exact size of the window; beyond 2^64 - 1 coordinates the code compares with the saturated size.
- Targets.BuildTargets: the activity of the future window is a parameter.
- RecompositionPlan.NormalizePlan: the canonical form of the plan and its hash are not modelled, and segments are values, so the in-place sort of the caller's slice is not visible.
- Database access, HTTP handlers, authentication, agents, exchange clients, command lines and the front end.
