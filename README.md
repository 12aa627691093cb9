# permetrics: pair-counting clustering scores and one-dimensional regression metrics

This project models the core of `permetrics` in Dafny. `permetrics` is a Python library of
performance metrics. It contains two evaluators.

`ClusteringMetric` (`permetrics/clustering.py`) covers:

- how an evaluation call finds its inputs (`get_processed_external_data`,
  `get_processed_internal_data`, `check_X`) and the `SUPPORT` table;
- the external scores that count pairs of samples: Rand, the Fowlkes-Mallows counts, Tau;
- Purity;
- the pair formulas over the contingency cells `(yy, yn, ny, nn)` and V-measure;
- the Baker-Hubert Gamma index over a feature matrix;
- the single-cluster guards of Hubert-Gamma, Phi and Log-SS-Ratio.

`RegressionMetric` (`permetrics/regression.py`) is modelled through the one-dimensional formula
of each metric that uses no square root, logarithm or arctangent. Two Gini coefficients are
included.

Modules:

- `Wrappers`: `Option`, `Result` and the Python exceptions that a call can raise.
- `Floats`: a `Float` is a finite real, `+inf`, `-inf` or `nan`. Numpy's quiet results of a
  division by zero therefore stay apart from finite scores.
- `Sums`: sums over real sequences and the facts about them.
- `PairCounting`: the enumeration of pairs `i < j` that every pair loop walks, and the
  contingency table of two labellings.
- `PairCountingMetrics`: `rand_score`, the counting loops of `fowlkes_mallows_score`, and
  `tau_score`. Each is an imperative method proved equal to a specification function.
- `PairFormulas`: precision, recall, F-measure, Czekanowski-Dice, Jaccard, Kulczynski,
  Rogers-Tanimoto, Russel-Rao, Sokal-Sneath 1 and 2, and V-measure.
- `Purity`: `purity_score` as written, and a per-cluster purity.
- `BakerHubert`: `baker_hubert_gamma_index` as two imperative passes over arrays, plus a
  symmetric variant.
- `Gini`: the two Gini coefficients of `regression.py`.
- `Regression`: the remaining one-dimensional regression metrics.
- `ClusteringEvaluator`: the class `ClusteringMetric`, with its fields, input resolution, the
  entry points modelled here and the single-cluster guards.

Labels are natural numbers that are already encoded. Feature rows are sequences of reals.
`np.round(..., decimal)` is not applied, so `decimal` is only resolved and carried along.

Where the description of the library and the code disagree, the model follows the code:

- With one predicted cluster and `raise_error` false, `hubert_gamma_score` returns the literal
  `-1.0` (`permetrics/clustering.py:857`), not the configured `smallest_value`.
  `ClusteringMetric.HubertGammaGuard` models the literal.
- `baker_hubert_gamma_index` reads `y_pred` only inside the loop over the first n - 1 rows
  of an n-row `X`, at the indices of those rows and their later partners. It therefore fails
  (`IndexError`) only when `X` has two rows or more and `y_pred` is shorter than `X`. With a
  single row `y_pred` is never read, and the index is 0.0 whatever its length. A longer
  `y_pred` is always accepted.
- Every `ClusteringMetric` entry point changes only the encoder record `le`: it is replaced
  when the inputs resolve and kept otherwise. The stored vectors, `decimal`, `raise_error` and
  the two sentinels are unchanged, so a guard's flag and fallback are the configured ones.

Seven places where the code does not do what its own description promises are listed under
"## Findings". Each has a member that shows the behaviour as written and a corrected
definition with the intended property proved. The `ClusteringMetric` entry points keep the
behaviour as written, because they model what a call returns.

## Model

| member | source | states |
|---|---|---|
| PairCounting.Pairs | permetrics/clustering.py:640-641 | every listed pair (i, j) has i < j < n |
| PairCounting.PairsLength | permetrics/clustering.py:636-637 | the loops visit n(n-1)/2 pairs, the `n_pairs` of `rand_score` |
| PairCounting.PairsComplete | permetrics/clustering.py:640-641 | every pair a < b < n is visited |
| PairCounting.ClassifyOneCell | permetrics/clustering.py:642-647 | each pair falls in exactly one of the cells yy, yn, ny, nn |
| PairCounting.ContingencyTotal | permetrics/clustering.py:636-648 | the four cells of `ContingencyOf` (pairs together in both, in truth only, in prediction only, in neither) add up to the number of pairs, n(n-1)/2 |
| PairCounting.ContingencySwap | permetrics/clustering.py:670-679 | exchanging truth and prediction exchanges yn and ny and keeps yy and nn |
| PairCounting.ContingencyIdentical | permetrics/clustering.py:642-647 | a labelling compared with itself has no pair on which the two disagree |
| PairCountingMetrics.RandScore | permetrics/clustering.py:635-648 | the nested loops return (pairs together in both + pairs apart in both) / pairs, and ZeroDivisionError when there are fewer than two samples |
| PairCountingMetrics.RandRow | permetrics/clustering.py:641-647 | one pass of the inner loop adds row i's together-in-both and apart-in-both counts |
| PairCountingMetrics.PairCountIsTotal | permetrics/clustering.py:636-637 | `n_pairs` equals the number of classified pairs and is zero exactly when n < 2 |
| PairCountingMetrics.RandIndex | permetrics/clustering.py:648 | the Rand index is defined exactly for two samples or more; otherwise the division by `n_pairs` = 0 raises ZeroDivisionError |
| PairCountingMetrics.RandBounds | permetrics/clustering.py:648 | Rand succeeds exactly when n >= 2, fails otherwise with ZeroDivisionError, and lies in [0, 1] |
| PairCountingMetrics.RandSymmetric | permetrics/clustering.py:640-648 | Rand does not change when truth and prediction are exchanged |
| PairCountingMetrics.RandOneOnIdentical | permetrics/clustering.py:640-648 | identical labellings of two or more samples score 1 |
| PairCountingMetrics.FowlkesMallowsCounts | permetrics/clustering.py:666-679 | the loops return TP, FP and FN equal to the yy, ny and yn cells |
| PairCountingMetrics.FowlkesMallowsRow | permetrics/clustering.py:671-679 | one pass of the inner loop adds row i's yy, ny and yn counts |
| PairCountingMetrics.FowlkesMallowsCountsBound | permetrics/clustering.py:670-679 | TP + FP + FN is at most the number of pairs |
| PairCountingMetrics.FowlkesMallowsSwap | permetrics/clustering.py:670-680 | exchanging truth and prediction swaps FP and FN and keeps TP and the product under the square root |
| PairCountingMetrics.TauScore | permetrics/clustering.py:1169-1181 | the loops return (concordant - discordant) / (concordant + discordant), and ZeroDivisionError when there are no pairs |
| PairCountingMetrics.TauRow | permetrics/clustering.py:1174-1180 | one pass of the inner loop adds row i's concordant pairs (yy + nn) and discordant pairs (yn + ny) |
| PairCountingMetrics.TauPairsAreAllPairs | permetrics/clustering.py:1173-1180 | concordant + discordant is exactly the number of pairs |
| PairCountingMetrics.TauIndex | permetrics/clustering.py:1181 | tau is defined exactly for two samples or more; otherwise concordant + discordant is 0 and the division raises ZeroDivisionError |
| PairCountingMetrics.TauFromRand | permetrics/clustering.py:1181 | tau = 2 * rand - 1, and tau fails exactly when rand does, with the same error |
| PairCountingMetrics.TauBounds | permetrics/clustering.py:1181 | tau lies in [-1, 1] and is 1 on identical labellings |
| PairFormulas.PartOfWhole | permetrics/clustering.py:769 | a part divided by its whole lies in [0, 1], or is nan exactly when the whole is zero |
| PairFormulas.Precision | permetrics/clustering.py:769 | precision lies in [0, 1], and is nan exactly when yy + ny = 0 |
| PairFormulas.Recall | permetrics/clustering.py:790 | recall lies in [0, 1], and is nan exactly when yy + yn = 0 |
| PairFormulas.CzekanowskiDice | permetrics/clustering.py:832 | in [0, 1], and nan exactly when no pair is together in either labelling |
| PairFormulas.Jaccard | permetrics/clustering.py:887 | in [0, 1], and nan exactly when no pair is together in either labelling |
| PairFormulas.Kulczynski | permetrics/clustering.py:909 | in [0, 1], and nan exactly when precision or recall is nan |
| PairFormulas.RogersTanimoto | permetrics/clustering.py:990 | in [0, 1], and nan exactly when there are no pairs |
| PairFormulas.RusselRao | permetrics/clustering.py:1013-1014 | in [0, 1], and nan exactly when there are no pairs |
| PairFormulas.SokalSneath1 | permetrics/clustering.py:1037 | in [0, 1], and nan exactly when no pair is together in either labelling |
| PairFormulas.SokalSneath2 | permetrics/clustering.py:1061 | in [0, 1], and nan exactly when there are no pairs |
| PairFormulas.PrecisionRecallExchange | permetrics/clustering.py:767-790 | exchanging truth and prediction turns precision into recall and recall into precision |
| PairFormulas.FMeasure | permetrics/clustering.py:812-814 | F-measure is nan exactly when no pair is together in both labellings (yy = 0), and positive otherwise |
| PairFormulas.HarmonicOfFloats | permetrics/clustering.py:814 | 2pr/(p+r) on floats: nan from a nan ratio or from p = r = 0, positive for positive ratios |
| PairFormulas.HarmonicOfRatios | permetrics/clustering.py:812-814 | 2pr/(p+r) with p = a/(a+u) and r = a/(a+v) equals 2a/(2a+u+v) |
| PairFormulas.FMeasureIsCzekanowskiDice | permetrics/clustering.py:812-814 | F-measure is the harmonic mean of precision and recall, equal to Czekanowski-Dice when yy > 0 and nan when yy = 0; the two agree exactly when yy > 0 or yn + ny = 0 |
| PairFormulas.KulczynskiAtLeastFMeasure | permetrics/clustering.py:894 | Kulczynski, the arithmetic mean of precision and recall, is at least their harmonic mean, the F-measure |
| PairFormulas.FloatMeansOrdered | permetrics/clustering.py:909 | for positive finite p and r, the harmonic mean is at most the arithmetic mean, in Float arithmetic |
| PairFormulas.OverlapScoresOrdered | permetrics/clustering.py:884-887 | when yy > 0: Russel-Rao <= Jaccard, and Sokal-Sneath 1 <= Jaccard <= Czekanowski-Dice |
| PairFormulas.RandBracketed | permetrics/clustering.py:987-991 | with two or more samples, Rogers-Tanimoto <= Rand <= Sokal-Sneath 2 |
| PairFormulas.AgreementScores | permetrics/clustering.py:895 | with no disagreeing pair, every pair score is 1 whenever it is defined |
| PairFormulas.PerfectAgreement | permetrics/clustering.py:976 | a labelling compared with itself scores 1 on Rogers-Tanimoto and Sokal-Sneath 2, and on the yy-based scores when some pair is together |
| PairFormulas.VMeasure | permetrics/clustering.py:741-746 | the combination step of V-measure: non-negative for non-negative scores, and equal to h when h = c, including the 0 fallback when both are 0 |
| PairFormulas.VMeasureSymmetric | permetrics/clustering.py:741-746 | V-measure is symmetric in homogeneity and completeness |
| PairFormulas.VMeasureBetween | permetrics/clustering.py:743-746 | for non-negative h and c, V-measure lies between min(h, c) and max(h, c) |
| PairFormulas.VMeasureBounds | permetrics/clustering.py:743-746 | for h and c in [0, 1], V-measure is in [0, 1], equals h when h = c, and is at most their arithmetic mean |
| Purity.LabelBound | permetrics/clustering.py:1090 | every label is below the bound, so the loop over classes covers every class |
| Purity.ClassSize | permetrics/clustering.py:1095 | a class has at most n members |
| Purity.Purity | permetrics/clustering.py:1088-1104 | the loop over true classes returns `MajoritySum` (the sum of each class's majority predicted count) over n, and ZeroDivisionError on empty input |
| Purity.JointAtMostClass | permetrics/clustering.py:1095-1099 | how often a predicted label occurs inside class c is at most the size of c |
| Purity.MajorityBounds | permetrics/clustering.py:1099-1102 | a class's majority count is at most its size, and at least 1 for a class that occurs |
| Purity.PurityValue | permetrics/clustering.py:1104 | purity as written is defined exactly on non-empty input, raises ZeroDivisionError on empty input, and is never negative |
| Purity.PurityBounds | permetrics/clustering.py:1104 | purity as written succeeds exactly on non-empty input and lies in (0, 1] |
| Purity.PurityOneWhenClassesAgree | permetrics/clustering.py:1093-1104 | purity as written is 1 whenever each true class lies within one predicted cluster |
| Purity.PurityOfMergedClusters | permetrics/clustering.py:1093-1102 | as written: truth [0, 1] against one merged cluster [0, 0] scores 1.0 |
| Purity.ClusterPurity | permetrics/clustering.py:1073-1076 | purity taken per predicted cluster: succeeds exactly on non-empty input and lies in (0, 1] |
| Purity.ClusterPurityOneOnPureClusters | permetrics/clustering.py:1073-1076 | per-cluster purity is 1 when every cluster holds a single true class |
| Purity.ClusterPurityOfMergedClusters | permetrics/clustering.py:1073-1076 | per-cluster purity of truth [0, 1] against one merged cluster [0, 0] is 0.5 |
| BakerHubert.SquaredDistance | permetrics/clustering.py:540 | the distance between two rows is never negative |
| BakerHubert.SquaredDistanceSymmetric | permetrics/clustering.py:540 | the distance from a to b equals the distance from b to a |
| BakerHubert.SquaredDistanceZero | permetrics/clustering.py:540 | the distance is zero exactly when the two rows are equal |
| BakerHubert.DistancesOf | permetrics/clustering.py:540 | entry k is the distance between the two samples of pair k |
| BakerHubert.BetweenOf | permetrics/clustering.py:541 | entry k is set exactly when the two samples of pair k have different labels |
| BakerHubert.FillPairs | permetrics/clustering.py:533-542 | fresh arrays of n(n-1)/2 entries holding the distance and the between-cluster flag of each pair, in the loops' pair order |
| BakerHubert.FillRow | permetrics/clustering.py:539-542 | the inner loop writes row i's distances and flags right after `start`, and leaves the prefix untouched |
| BakerHubert.PassFilled | permetrics/clustering.py:538-542 | the rows filled so far, followed by row i, are the pairs before row i + 1 |
| BakerHubert.CountConcordance | permetrics/clustering.py:543-550 | the second pair of loops returns the tally of the specification over all pairs of pairs |
| BakerHubert.CountRow | permetrics/clustering.py:544-550 | one pass of the inner loop adds the gain of row idx to the running tally |
| BakerHubert.PassTally | permetrics/clustering.py:543-550 | the tally before row i + 1 is the tally before row i plus the gain of row i |
| BakerHubert.TallyConcat | permetrics/clustering.py:543-550 | the tally over two lists of pairs of pairs is the sum of the two tallies |
| BakerHubert.RowGainIsTally | permetrics/clustering.py:544-550 | the inner loop's gain is the tally over row idx |
| BakerHubert.BakerHubertGamma | permetrics/clustering.py:531-553 | the two passes return the gamma of the specification, which lies in [-1, 1] |
| BakerHubert.GammaOf | permetrics/clustering.py:551-553 | the index of a feature matrix and its labels lies in [-1, 1] |
| BakerHubert.GammaBounds | permetrics/clustering.py:552-553 | gamma is in [-1, 1]; it is 1 exactly when s_minus = 0 < s_plus and -1 exactly when s_plus = 0 < s_minus |
| BakerHubert.TallyAtMostCandidates | permetrics/clustering.py:545-550 | s_plus + s_minus is at most the number of (within, later between) pairs of pairs, and both are 0 when there are none |
| BakerHubert.TallyOfDistinct | permetrics/clustering.py:545-550 | when no two compared distances tie, every candidate pair of pairs is counted once |
| BakerHubert.NoCandidatesWithoutBetween | permetrics/clustering.py:548 | without any between-cluster pair there is nothing to compare |
| BakerHubert.SingleClusterGamma | permetrics/clustering.py:552-553 | with a single cluster the index falls back to 0.0 |
| BakerHubert.Flipped | permetrics/clustering.py:548 | the reversed order of each pair of pairs, used by the symmetric variant |
| BakerHubert.NoDiscordance | permetrics/clustering.py:548 | if every within distance is below every between distance, s_minus is 0 |
| BakerHubert.SymmetricGammaOnSeparation | permetrics/clustering.py:548 | `SymmetricGammaOf`, the corrected index that compares every within pair with every between pair in either order, is 1 on perfectly separated clusters |
| BakerHubert.ScoredForward | permetrics/clustering.py:545-550 | a within pair listed before a between pair, on separated data, adds to s_plus |
| BakerHubert.ScoredBackward | permetrics/clustering.py:548 | a within pair listed after a between pair is scored once the order of the comparison is flipped |
| BakerHubert.LateWithinPairIgnored | permetrics/clustering.py:545-550 | as written: X = [[0], [10], [11]] with labels [0, 1, 1] scores 0, while the symmetric variant scores 1 |
| BakerHubert.LateWithinGamma | permetrics/clustering.py:545-553 | the index as written is 0 on X = [[0], [10], [11]] with labels [0, 1, 1] |
| BakerHubert.LateWithinSymmetricGamma | permetrics/clustering.py:548 | the symmetric index `SymmetricGammaOf` is 1 on the same input |
| BakerHubert.ThreePoints | permetrics/clustering.py:538-542 | the arrays filled for that input are distances [100, 121, 1] and flags [between, between, within] |
| BakerHubert.PairsOfThree | permetrics/clustering.py:538-539 | three samples give the pairs (0,1), (0,2), (1,2), in that order |
| BakerHubert.LaterWithinNeverCandidate | permetrics/clustering.py:545-547 | with flags [between, between, within], no pair of pairs is a candidate |
| Gini.Permuted | permetrics/regression.py:549 | entry i is `y_true[idx_sort[i]]` |
| Gini.GiniCoefficient | permetrics/regression.py:543-552 | for an order that sorts `y_pred` descending, the loop returns the specification's value; ZeroDivisionError on empty input |
| Gini.PopulationShareIsMultiple | permetrics/regression.py:545-550 | after k steps the accumulated population share is k / n |
| Gini.PopulationShareEndsAtOne | permetrics/regression.py:545-550 | after n steps the accumulated population share is 1 |
| Gini.LossShareFinite | permetrics/regression.py:547-549 | after k steps the accumulated loss share is the sum of the first k sorted losses over the total |
| Gini.LossShareEndsAtOne | permetrics/regression.py:547-549 | after the last step the accumulated loss share is 1 |
| Gini.SumPermuted | permetrics/regression.py:544-549 | reordering `y_true` by the argsort permutation keeps its sum |
| Gini.LossShare | permetrics/regression.py:547-548 | the accumulated loss share is finite whenever the total loss is non-zero |
| Gini.GiniScore | permetrics/regression.py:545-550 | the accumulated score is finite whenever the total loss is non-zero |
| Gini.GiniValue | permetrics/regression.py:543-552 | the coefficient is finite whenever the total loss is non-zero |
| Gini.GiniScoreFinite | permetrics/regression.py:545-550 | with a non-zero total, the float score is the real sum over k steps of (loss share - population share) |
| Gini.GiniValueFinite | permetrics/regression.py:543-552 | with a non-zero total, the coefficient is that real score divided by n |
| Gini.GiniBelowDocumentedRange | permetrics/regression.py:524-552 | as written: y_true = [0, 1], y_pred = [1, 0] gives -0.25, below the documented range [0, 1] |
| Gini.PopulationTotalClosed | permetrics/regression.py:545-550 | the population shares of the first k steps add up to delta k(k+1)/2 |
| Gini.RealScoreBounds | permetrics/regression.py:545-550 | for non-negative losses every loss share lies in [0, 1], which bounds the score after k steps |
| Gini.FinalScoreBounds | permetrics/regression.py:545-551 | after all n steps, twice the score lies in [-(n-1), n-1] |
| Gini.GiniValueBounded | permetrics/regression.py:524-552 | for non-negative losses with a positive total the coefficient lies within (n-1)/(2n) of 0 for every ranking, so it stays below 1/2 and never reaches the documented best 1 |
| Gini.MultisetPermuted | permetrics/regression.py:544-549 | reordering `y_true` by a permutation keeps its multiset of values |
| Sums.PrefixBelowDescending | permetrics/regression.py:544-548 | a prefix of any reordering sums to at most the same-length prefix of the reordering from the largest value down |
| Gini.RealScoreMonotone | permetrics/regression.py:545-550 | a ranking whose prefix sums are all smaller scores lower |
| Gini.GiniValueAtMostIdeal | permetrics/regression.py:543-552 | for non-negative losses no ranking scores above the ranking by `y_true` itself |
| Gini.NormalizedGiniAtMostOne | permetrics/regression.py:524-552 | `NormalizedGini`, the coefficient divided by that of the ranking by `y_true`, is at most 1, and exactly 1 for the ranking by `y_true` |
| Gini.GiniCoefficientWiki | permetrics/regression.py:593-598 | the double loop over the concatenated vector returns `GiniWikiValue`: the sum of \|y_i - y_j\| over all ordered pairs, divided by 2 n^2 mean(y) |
| Gini.PairAbsSumNonNeg | permetrics/regression.py:595-597 | the accumulated sum of absolute differences is never negative |
| Gini.GiniWikiZeroOnEqualValues | permetrics/regression.py:576 | complete equality (all values equal and non-zero) gives 0 |
| Gini.PairAbsSumBound | permetrics/regression.py:595-597 | for non-negative values the sum of absolute differences is at most 2 n times the total |
| Gini.WikiDenominator | permetrics/regression.py:598 | the denominator 2 n^2 mean(y) equals 2 n sum(y) |
| Gini.GiniWikiInUnitRange | permetrics/regression.py:576-578 | for non-negative values with a positive sum the coefficient lies in [0, 1] |
| Regression.Mean | permetrics/regression.py:300 | numpy's mean of a finite vector is finite exactly when the vector is non-empty, and is then its sum over its length |
| Regression.Var | permetrics/regression.py:51 | the variance is finite exactly on non-empty input and is never negative |
| Regression.VarConstant | permetrics/regression.py:51 | a constant vector has variance 0 |
| Regression.AbsResiduals | permetrics/regression.py:95 | every absolute residual is non-negative, and zero exactly when truth and prediction agree |
| Regression.AbsResidualsSymmetric | permetrics/regression.py:95 | the absolute residuals do not change when truth and prediction are exchanged |
| Regression.SingleSquaredError | permetrics/regression.py:1051 | each squared error is non-negative, and zero exactly when truth and prediction agree |
| Regression.SingleAbsoluteError | permetrics/regression.py:1030 | each entry, abs(t) - abs(p), is at most abs(t - p) |
| Regression.SingleAbsoluteErrorAntisymmetric | permetrics/regression.py:1030 | exchanging truth and prediction negates every entry |
| Regression.SingleRelativeError | permetrics/regression.py:1009 | an entry is finite exactly where the truth is non-zero |
| Regression.SingleRelativeErrorInverse | permetrics/regression.py:1009 | t * (entry + 1) recovers the prediction p |
| Regression.MeanAbsoluteError | permetrics/regression.py:95 | finite exactly on non-empty input, and never negative |
| Regression.MeanSquaredError | permetrics/regression.py:117 | finite exactly on non-empty input, and never negative |
| Regression.MaxOf | permetrics/regression.py:73 | the result bounds every entry and is one of them |
| Regression.MaxError | permetrics/regression.py:73 | succeeds exactly on non-empty input, and the result is non-negative and bounds every absolute error |
| Regression.ErrorsZeroOnIdentical | permetrics/regression.py:73-117 | MAE, MSE and ME are 0 when prediction equals truth |
| Regression.ErrorsPositiveOnDifferent | permetrics/regression.py:95-117 | MAE and MSE are positive as soon as one prediction differs |
| Regression.MaxErrorBoundsMeanAbsoluteError | permetrics/regression.py:73-95 | MAE is at most ME |
| Regression.MeanOfSquaredErrorsIsMse | permetrics/regression.py:117 | the mean of the single squared errors is MSE |
| Regression.MeanRelativeError | permetrics/regression.py:205 | MRE is nan on empty input, and nan as soon as one zero truth is predicted exactly (0 / 0) |
| Regression.MreNonNegativeOnPositiveTruth | permetrics/regression.py:205 | MRE is finite and non-negative when all truths are positive |
| Regression.MreNegativeOnNegativeTruth | permetrics/regression.py:205 | as written: t = [-1.0], p = [0.0] gives MRE = -1.0 |
| Regression.MeanAbsolutePercentageError | permetrics/regression.py:227 | MAPE is nan on empty input, and nan as soon as one zero truth is predicted exactly (0 / 0) |
| Regression.MapeNonNegative | permetrics/regression.py:227 | MAPE is finite and non-negative when no truth is zero, and is 0 on a perfect prediction |
| Regression.MreEqualsMapeOnPositiveTruth | permetrics/regression.py:205-227 | MRE and MAPE coincide when all truths are positive |
| Regression.SymmetricMape | permetrics/regression.py:251 | SMAPE is nan on empty input, and nan as soon as one pair of truth and prediction is (0, 0) |
| Regression.SmapeBounds | permetrics/regression.py:251 | SMAPE lies in [0, 2] when no pair of truth and prediction is (0, 0) |
| Regression.SmapeSymmetric | permetrics/regression.py:251 | SMAPE does not change when truth and prediction are exchanged |
| Regression.SmapeZeroOnPerfect | permetrics/regression.py:234-251 | a perfect prediction without zero values scores the documented best, 0 |
| Regression.SeasonalDifferences | permetrics/regression.py:300 | there are n - m differences, and difference i is t[i + m] - t[i] |
| Regression.MeanAbsoluteScaledError | permetrics/regression.py:300 | when m >= n there are no seasonal differences and MASE is nan |
| Regression.MaseNonNegative | permetrics/regression.py:300 | with a non-zero seasonal difference MASE is finite and non-negative, and 0 on a perfect prediction |
| Regression.MaseZeroOnPerfect | permetrics/regression.py:300 | a perfect prediction scores MASE 0 |
| Regression.TotalSumOfSquares | permetrics/regression.py:324 | the total sum of squares is never negative |
| Regression.ResidualSumOfSquares | permetrics/regression.py:324 | the residual sum of squares is never negative, and zero exactly when prediction equals truth |
| Regression.NashSutcliffeEfficiency | permetrics/regression.py:324 | with a non-constant truth NSE is finite, at most 1, and 1 exactly on a perfect prediction; with a constant truth it is nan on a perfect prediction and -inf otherwise |
| Regression.OneMinusQuotient | permetrics/regression.py:324 | 1 - num/den for non-negative num and den: finite and at most 1 when den > 0, otherwise nan or -inf |
| Regression.CoefficientOfDetermination | permetrics/regression.py:378 | R2 equals NSE on every input |
| Regression.WillmottIndex | permetrics/regression.py:350-351 | WI lies in [0, 1] when the denominator is non-zero, and is nan otherwise |
| Regression.WillmottDenominator | permetrics/regression.py:351 | the denominator is never negative |
| Regression.WillmottNumeratorBound | permetrics/regression.py:351 | the numerator is between 0 and the denominator, and 0 when the denominator is |
| Regression.WillmottOneOnIdentical | permetrics/regression.py:350-351 | a perfect prediction scores WI 1 |
| Regression.ExplainedVarianceScore | permetrics/regression.py:51 | EVS is nan on empty input, and finite and at most 1 when the truth varies |
| Regression.ExplainedVarianceOneOnIdentical | permetrics/regression.py:51 | a perfect prediction scores EVS 1 |
| Regression.VarianceAccountedFor | permetrics/regression.py:816 | VAF is nan on empty input, and finite and at most 100 when the truth varies |
| Regression.VafIsHundredTimesEvs | permetrics/regression.py:816 | VAF is EVS times 100 |
| Regression.VarOfTwo | permetrics/regression.py:816 | the variance of two values is a quarter of their squared gap |
| Regression.VafBelowDocumentedRange | permetrics/regression.py:796-816 | as written: t = [0, 1], p = [1, 0] gives VAF = -300, below the documented range [0, 100] |
| Regression.FlooredVarianceAccountedFor | permetrics/regression.py:796-816 | VAF floored at 0 lies in [0, 100] whenever the truth varies, and equals VAF wherever VAF is non-negative |
| Regression.DeviationOfRunoffVolume | permetrics/regression.py:487 | DRV is finite exactly when the truths do not sum to zero, and 1 on a perfect prediction |
| Regression.RunoffVolumeError | permetrics/regression.py:469-487 | (sum(p) - sum(t)) / sum(t) is finite exactly when sum(t) is non-zero, is 0 exactly when the predicted total volume is the true one, and is DRV - 1 |
| Regression.DrvSwapInverts | permetrics/regression.py:487 | exchanging truth and prediction inverts DRV |
| Regression.DirectionMatches | permetrics/regression.py:629-631 | entry i is set exactly when both vectors step from i to i + 1 in the same direction, by `Sign` (numpy's sign: 1, -1 or 0) |
| Regression.PredictionOfChangeInDirection | permetrics/regression.py:629-631 | PCD lies in [0, 1] with two or more samples, and is nan otherwise |
| Regression.PcdOneOnIdentical | permetrics/regression.py:629-631 | a perfect prediction scores PCD 1 |
| Regression.InRatioWindow | permetrics/regression.py:876-877 | entry i is set exactly when p[i] is non-zero and t[i] / p[i] lies in the window |
| Regression.RatioIndex | permetrics/regression.py:876-878 | the share of ratios in the window lies in [0, 1] on non-empty input, and is nan otherwise |
| Regression.A10Index | permetrics/regression.py:876-878 | A10 lies in [0, 1] on non-empty input, and is nan otherwise |
| Regression.A20Index | permetrics/regression.py:907-909 | A20 lies in [0, 1] on non-empty input, and is nan otherwise |
| Regression.A10AtMostA20 | permetrics/regression.py:876-909 | A10 is at most A20, because the window [0.9, 1.1] lies inside [0.8, 1.2] |
| Regression.RatioIndicesOneOnIdentical | permetrics/regression.py:876-909 | a perfect prediction with non-zero values scores A10 = A20 = 1 |
| Regression.RatioIndexOneOnIdentical | permetrics/regression.py:876-878 | a perfect prediction scores 1 for any window that contains 1 |
| Regression.ResidualStandardError | permetrics/regression.py:980-983 | RSE is nan on empty input; see `ResidualStandardErrorUndefinedOnPerfect` for a perfect prediction |
| Regression.ResidualStandardErrorFinite | permetrics/regression.py:980-983 | with non-zero predictions, RSE is the squared correlation of p and t / p computed from centred sums |
| Regression.CentredCauchySchwarz | permetrics/regression.py:981-982 | the centred cross sum squared is at most the product of the two centred sums of squares |
| Regression.CorrelationBounded | permetrics/regression.py:981-983 | a squared correlation of centred sums lies in [0, 1], or is nan |
| Regression.ResidualStandardErrorBounds | permetrics/regression.py:980-983 | with non-zero predictions RSE lies in [0, 1], or is nan |
| Regression.ResidualStandardErrorUndefinedOnPerfect | permetrics/regression.py:960-983 | as written: a perfect prediction without zero values makes t / p all ones, so RSE is 0 / 0, nan, not the documented best 1.0 |
| Regression.TruthCorrelation | permetrics/regression.py:960 | the squared correlation of prediction and truth lies in [0, 1] or is nan, and is nan on empty input |
| Regression.TruthCorrelationOneOnPerfect | permetrics/regression.py:960 | a perfect prediction of a truth that varies scores the documented best, 1.0 |
| ClusteringEvaluator.ResolveDecimal | permetrics/clustering.py:132 | an explicit decimal wins over the evaluator's own |
| ClusteringEvaluator.EncodeExternal | permetrics/clustering.py:147 | two label vectors pass exactly when their lengths agree, and ShapeError otherwise |
| ClusteringEvaluator.ExternalSources | permetrics/clustering.py:132-148 | ValueError exactly when the call gives y_pred without y_true, or gives no y_pred and the evaluator lacks either vector; the call's pair wins over the evaluator's |
| ClusteringEvaluator.ResolveExternal | permetrics/clustering.py:132-148 | a failure is ValueError or ShapeError; a resolved pair has equal lengths, is the call-site pair when the call gives y_pred and the stored pair otherwise, and carries the resolved decimal |
| ClusteringEvaluator.ResolveInternal | permetrics/clustering.py:161-169 | ValueError exactly when neither the call nor the evaluator has y_pred; otherwise the call's y_pred wins |
| ClusteringEvaluator.ResolveFeatures | permetrics/clustering.py:171-177 | ValueError exactly when neither the call nor the evaluator has X; otherwise the call's X wins |
| ClusteringEvaluator.GetSupport | permetrics/clustering.py:106-117 | "all" returns the whole table, a known code returns its row, and any other name raises ValueError naming it |
| ClusteringEvaluator.AllIsNotACode | permetrics/clustering.py:51-92 | "all" is not a metric code, so it never hides a row |
| ClusteringEvaluator.TauAndPurityRows | permetrics/clustering.py:89-91 | TS is a maximised score in [-1, +1] with best 1, and PuS one in [0, 1] with best 1 |
| ClusteringEvaluator.OneCluster | permetrics/clustering.py:852 | there is one cluster exactly when the vector is non-empty and all its labels are equal |
| ClusteringEvaluator.SingleClusterGuard | permetrics/clustering.py:852-857 | computation proceeds exactly when there is not one cluster; otherwise ValueError under `raise_error`, or the fallback |
| ClusteringEvaluator.SingleClusterFallbacks | permetrics/clustering.py:852-857 | with one cluster, Hubert gives -1.0, and Phi and Log-SS-Ratio give `smallest_value`, or each raises its own ValueError |
| ClusteringEvaluator.TwoClustersProceed | permetrics/clustering.py:852 | two samples with different labels let every guard proceed |
| ClusteringEvaluator.ClusteringMetric.constructor | permetrics/clustering.py:94-103 | stores the arguments, replaces missing sentinels by +inf and -inf, and starts without an encoder |
| ClusteringEvaluator.ClusteringMetric.GetProcessedExternalData | permetrics/clustering.py:119-148 | returns the resolved pair and records the encoder on success; only `le` changes |
| ClusteringEvaluator.ClusteringMetric.GetProcessedInternalData | permetrics/clustering.py:150-169 | returns the resolved y_pred and records the encoder on success; only `le` changes |
| ClusteringEvaluator.ClusteringMetric.CheckX | permetrics/clustering.py:171-177 | returns the call's X, else the stored X, else ValueError |
| ClusteringEvaluator.ClusteringMetric.RandScore | permetrics/clustering.py:620-649 | the resolution error, or the Rand index of the resolved pair; only `le` changes, to the resolved pair when resolution succeeds |
| ClusteringEvaluator.ClusteringMetric.TauScore | permetrics/clustering.py:1169-1182 | the resolution error, or tau of the resolved pair; only `le` changes, to the resolved pair when resolution succeeds |
| ClusteringEvaluator.ClusteringMetric.PurityScore | permetrics/clustering.py:1086-1104 | the resolution error, or purity as written of the resolved pair; only `le` changes, to the resolved pair when resolution succeeds |
| ClusteringEvaluator.ClusteringMetric.BakerHubertGammaIndex | permetrics/clustering.py:517-554 | the X error, the y_pred error, IndexError when X has two rows or more and y_pred is shorter than X, or gamma, which lies in [-1, 1]; only `le` changes, to the resolved y_pred when X and y_pred resolve |
| ClusteringEvaluator.ClusteringMetric.HubertGammaGuard | permetrics/clustering.py:851-857 | the resolution error, or the single-cluster guard with the configured `raise_error` and the literal -1.0; only `le` changes |
| ClusteringEvaluator.ClusteringMetric.PhiGuard | permetrics/clustering.py:956-962 | the resolution error, or the single-cluster guard with the configured `raise_error` and `smallest_value`; only `le` changes |
| ClusteringEvaluator.ClusteringMetric.LogSsRatioGuard | permetrics/clustering.py:370-377 | the X error, the y_pred error, or the single-cluster guard with the configured `raise_error` and `smallest_value`; only `le` changes |

## Left out

- `np.round(..., decimal)`: rounding to decimal places is not applied. `decimal` is resolved and carried along but not used.
- Metrics built on a square root, logarithm, arctangent or exponential are not modelled: RMSE, MSLE, MAAPE, NRMSE, RAE, SLE, the entropy and divergence family, Pearson R, R2s, CI and KGE. Dafny's reals have none of these functions.
- `fowlkes_mallows_score`: only the counting loops are modelled. The final `TP / sqrt(...)` is left out for the same reason.
- `hubert_gamma_score`, `phi_score` and `log_ss_ratio_index`: only their single-cluster guards are modelled. The formulas after the guard need `compute_confusion_matrix(normalize=True)`, square roots or the barycentre helpers, and `permetrics/utils/cluster_util.py` is not part of this model.
- `mc_nemar_score` is left out for the same reason: it needs a square root.
- PairFormulas.Precision, PairFormulas.Recall, PairFormulas.CzekanowskiDice, PairFormulas.Jaccard, PairFormulas.Kulczynski, PairFormulas.RogersTanimoto, PairFormulas.RusselRao, PairFormulas.SokalSneath1 and PairFormulas.SokalSneath2 take the contingency cells as input. `permetrics/utils/cluster_util.py`, whose `compute_confusion_matrix` produces them, is not part of this model. Two assumptions about it are made and not checked. First, the cells are numpy integers, so a zero denominator gives nan or inf; with Python integers it would raise ZeroDivisionError instead, and the "nan exactly when" clauses of these members would not hold. Second, its cells equal those that `PairCounting.ContingencyOf` computes with the loops of `rand_score`.
- `v_measure_score`: homogeneity and completeness are taken as real inputs. `compute_homogeneity` and the other entropy-based helpers are not part of this model.
- Mutual information, normalized mutual information, homogeneity, completeness and entropy scores are left out: they need logarithms.
- The internal indices that delegate to the cluster utilities (Ball-Hall, Calinski-Harabasz, Davies-Bouldin, Dunn, Xie-Beni, Silhouette and others) are left out, and so is `g_plus_index`.
- Metric dispatch by name and the alias tables are left out; they only forward calls.
- The multi-output paths of the regression metrics are left out; only the one-dimensional path is modelled.
- `median_absolute_error` is left out.
- `get_preprocessed_data` (cleaning, positive-only filtering, reshaping) is left out. Of its guarantees only equal lengths appears, as a `requires` clause. A zero divisor is not excluded: it gives numpy's inf or nan through `Floats.Div` and `Floats.Quot`. The `clean` option drops only rows whose `y_pred` is zero, so it does not keep a zero `y_true` away from MRE, MAPE or SMAPE.
- The label encoders in `permetrics/utils/data_util.py` are not part of this model. Labels arrive as already-encoded natural numbers. `ClusteringMetric.le` records only which vectors the encoder was built from.
- ClusteringEvaluator.ClusteringMetric.PurityScore: requires encoded truth labels (0 .. k-1, every value present), as the encoder would produce them.
- BakerHubert.BakerHubertGamma: compares squared Euclidean distances instead of `np.linalg.norm`. The square root is monotone, so every comparison and the index are the same.
- Gini.NormalizedGiniAtMostOne: stated only when the coefficient of the ranking by `y_true` is positive. That this coefficient is never negative is not proved.
- Gini.GiniCoefficient: takes the permutation that `np.argsort(-y_pred)` would return as a parameter constrained to sort `y_pred` descending. numpy's choice among ties is not modelled.
- Regression.MeanAbsoluteScaledError: requires `m >= 1`. With `m = 0`, numpy's `y_true[:-0]` is empty and the shapes do not broadcast.
- Floating-point rounding and signed zero are not modelled. Values are exact reals plus `+inf`, `-inf` and `nan`.
- Printing in `get_support(verbose=True)` is left out, and so are the `Evaluator` base class and its keyword-argument plumbing.
- `X.shape` is not checked. A feature matrix is a sequence of rows of one common width.

## Findings

| source | as written | input that shows it | evidently intended | confidence | as-written member | corrected member |
|---|---|---|---|---|---|---|
| permetrics/regression.py:205 | MRE divides the absolute error by the signed truth, so a negative truth gives a negative "error" | y_true = [-1.0], y_pred = [0.0] gives -1.0 | a relative error is never negative: divide by the absolute truth, as MAPE does | not executed | Regression.MreNegativeOnNegativeTruth | Regression.MapeNonNegative |
| permetrics/clustering.py:1093-1104 | purity takes, for each true class, its most frequent predicted cluster | y_true = [0, 1], y_pred = [0, 0] gives 1.0 | as its own description at lines 1074-1076 says: for each predicted cluster, count its majority true class, which gives 0.5 here | not executed | Purity.PurityOfMergedClusters | Purity.ClusterPurity |
| permetrics/clustering.py:543-550 | a within-cluster pair is compared only with between-cluster pairs listed after it in pair order | X = [[0], [10], [11]], y_pred = [0, 1, 1] gives 0.0 | line 548 says each within-cluster distance is compared with the between-cluster distances; the clusters here are perfectly separated, which gives 1.0 | not executed | BakerHubert.LateWithinPairIgnored | BakerHubert.SymmetricGammaOnSeparation |
| permetrics/regression.py:524-552 | the docstring promises best score 1 and range [0, 1]; the loop returns the unnormalised score | y_true = [0, 1], y_pred = [1, 0] gives -0.25; for non-negative losses the value always stays below 1/2 | the normalised coefficient (the score over the score of the ranking by y_true): at most 1, and exactly 1 for a perfect ranking | not executed | Gini.GiniBelowDocumentedRange | Gini.NormalizedGiniAtMostOne |
| permetrics/regression.py:796-816 | the docstring gives the range [0, 100]; the formula (1 - var(t - p) / var(t)) * 100 is unbounded below | y_true = [0, 1], y_pred = [1, 0] gives -300 | VAF floored at 0, the reading under which [0, 100] holds | not executed; the docstring may be what is wrong | Regression.VafBelowDocumentedRange | Regression.FlooredVarianceAccountedFor |
| permetrics/regression.py:960-983 | the docstring promises best score 1.0, bigger is better; the code correlates p with t / p, which is constant on a perfect prediction | y_true = y_pred = [1, 2] gives 0 / 0, nan | a squared correlation of prediction and truth, which is 1 on a perfect prediction of a varying truth | not executed; the intended formula is a guess from the documented range and best value | Regression.ResidualStandardErrorUndefinedOnPerfect | Regression.TruthCorrelation |
| permetrics/regression.py:469-487 | the docstring says the best score is 0; the code returns sum(p) / sum(t), which is 1 on a perfect prediction | y_true = y_pred = [1] gives 1 | a deviation that is 0 when the predicted volume is the true one: (sum(p) - sum(t)) / sum(t) | not executed; the docstring may be what is wrong | Regression.DeviationOfRunoffVolume | Regression.RunoffVolumeError |
