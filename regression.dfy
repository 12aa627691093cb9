/**
  The one-dimensional path of the regression metrics of `RegressionMetric`
  (permetrics/regression.py): each metric maps a vector of ground-truth values `t`
  (`y_true`) and a vector of predictions `p` (`y_pred`) of equal length to a score.

  The values are exact reals; a result is a `Float` so that numpy's quiet outcomes of
  a division by zero or of a mean over an empty vector (inf, nan) are kept apart from
  finite scores. The final `np.round(..., decimal)` is not applied.
*/
module Regression {

  import opened Sums
  import opened Floats
  import opened Wrappers

  /** A finite score in [lo, hi]. */
  predicate Within(r: Float, lo: real, hi: real) {
    r.Num? && lo <= r.val <= hi
  }

  /** Finite values as floats. */
  function Lift(xs: seq<real>): (r: seq<Float>)
    ensures |r| == |xs|
    ensures forall i :: 0 <= i < |xs| ==> r[i] == Num(xs[i])
  {
    seq(|xs|, i requires 0 <= i < |xs| => Num(xs[i]))
  }

  /** `np.mean` of a finite vector: its sum over its length (nan when empty). */
  function Mean(xs: seq<real>): (r: Float)
    ensures r.Num? <==> |xs| > 0
    ensures |xs| > 0 ==> r.val == Sum(xs) / |xs| as real
  {
    Quot(Sum(xs), |xs| as real)
  }

  /** The float mean of lifted values is the plain mean. */
  lemma FMeanLift(xs: seq<real>)
    ensures FMean(Lift(xs)) == Mean(xs)
  {
    FSumFinite(Lift(xs));
    assert Vals(Lift(xs)) == xs;
  }

  /** `np.var` (population variance): the mean squared deviation from the mean; nan when empty. */
  function Var(xs: seq<real>): (r: Float)
    ensures r.Num? <==> |xs| > 0
    ensures r.Num? ==> r.val >= 0.0
  {
    if xs == [] then NaN
    else
      var c := Shift(xs, RealMean(xs));
      SumNonNeg(Times(c, c));
      Num(Sum(Times(c, c)) / |xs| as real)
  }

  /** The variance of a constant vector is zero. */
  lemma VarConstant(xs: seq<real>, v: real)
    requires |xs| > 0
    requires forall i :: 0 <= i < |xs| ==> xs[i] == v
    ensures Var(xs) == Num(0.0)
  {
    SumConstant(xs, v);
    var c := Shift(xs, RealMean(xs));
    SumAllZero(Times(c, c));
  }

  // ---------------------------------------------------------------------------------
  // Element-wise errors (single_relative_error, single_absolute_error,
  // single_squared_error)
  // ---------------------------------------------------------------------------------

  /** `t - p` element-wise. */
  function Residuals(t: seq<real>, p: seq<real>): (r: seq<real>)
    requires |t| == |p|
    ensures |r| == |t|
    ensures forall i :: 0 <= i < |t| ==> r[i] == t[i] - p[i]
  {
    seq(|t|, i requires 0 <= i < |t| => t[i] - p[i])
  }

  /** `|t - p|` element-wise. */
  function AbsResiduals(t: seq<real>, p: seq<real>): (r: seq<real>)
    requires |t| == |p|
    ensures |r| == |t|
    ensures forall i :: 0 <= i < |t| ==> r[i] >= 0.0 && (r[i] == 0.0 <==> t[i] == p[i])
  {
    seq(|t|, i requires 0 <= i < |t| => Abs(t[i] - p[i]))
  }

  /** single_squared_error: `(t - p) ** 2` element-wise. */
  function SingleSquaredError(t: seq<real>, p: seq<real>): (r: seq<real>)
    requires |t| == |p|
    ensures |r| == |t|
    ensures forall i :: 0 <= i < |t| ==> r[i] >= 0.0
    ensures forall i :: 0 <= i < |t| ==> (r[i] == 0.0 <==> t[i] == p[i])
  {
    var r := seq(|t|, i requires 0 <= i < |t| => Sq(t[i] - p[i]));
    forall i | 0 <= i < |t| && t[i] != p[i] ensures r[i] > 0.0 {
      SquarePositive(t[i] - p[i], r[i]);
    }
    r
  }

  /** single_absolute_error: `|t| - |p|` element-wise (a difference of magnitudes, not `|t - p|`). */
  function SingleAbsoluteError(t: seq<real>, p: seq<real>): (r: seq<real>)
    requires |t| == |p|
    ensures |r| == |t|
    ensures forall i :: 0 <= i < |t| ==> r[i] <= Abs(t[i] - p[i])
  {
    seq(|t|, i requires 0 <= i < |t| => Abs(t[i]) - Abs(p[i]))
  }

  /** single_relative_error: `p / t - 1` element-wise, inf or nan where t is zero. */
  function SingleRelativeError(t: seq<real>, p: seq<real>): (r: seq<Float>)
    requires |t| == |p|
    ensures |r| == |t|
    ensures forall i :: 0 <= i < |t| ==> (r[i].Num? <==> t[i] != 0.0)
  {
    seq(|t|, i requires 0 <= i < |t| => Sub(Quot(p[i], t[i]), Num(1.0)))
  }

  /** Swapping the arguments negates the absolute error. */
  lemma SingleAbsoluteErrorAntisymmetric(t: seq<real>, p: seq<real>)
    requires |t| == |p|
    ensures forall i :: 0 <= i < |t| ==> SingleAbsoluteError(p, t)[i] == -SingleAbsoluteError(t, p)[i]
  {
  }

  /** The relative error is inverted by `t * (re + 1)`, which gives back the prediction. */
  lemma SingleRelativeErrorInverse(t: seq<real>, p: seq<real>, i: int)
    requires |t| == |p| && 0 <= i < |t| && t[i] != 0.0
    ensures t[i] * (SingleRelativeError(t, p)[i].val + 1.0) == p[i]
  {
  }

  // ---------------------------------------------------------------------------------
  // Means of errors: MAE, MSE, ME
  // ---------------------------------------------------------------------------------

  /** mean_absolute_error: `sum(|p - t|) / len(t)`. */
  function MeanAbsoluteError(t: seq<real>, p: seq<real>): (r: Float)
    requires |t| == |p|
    ensures r.Num? <==> |t| > 0
    ensures r.Num? ==> r.val >= 0.0
  {
    var e := AbsResiduals(p, t);
    SumNonNeg(e);
    Quot(Sum(e), |t| as real)
  }

  /** mean_squared_error: `sum((p - t) ** 2) / len(t)`. */
  function MeanSquaredError(t: seq<real>, p: seq<real>): (r: Float)
    requires |t| == |p|
    ensures r.Num? <==> |t| > 0
    ensures r.Num? ==> r.val >= 0.0
  {
    var e := Times(Residuals(p, t), Residuals(p, t));
    SumNonNeg(e);
    Quot(Sum(e), |t| as real)
  }

  /** The largest element of a non-empty vector. */
  function MaxOf(s: seq<real>): (m: real)
    requires |s| > 0
    ensures forall i :: 0 <= i < |s| ==> s[i] <= m
    ensures exists i :: 0 <= i < |s| && s[i] == m
  {
    if |s| == 1 then s[0]
    else
      var m0 := MaxOf(s[..|s| - 1]);
      assert forall i :: 0 <= i < |s| - 1 ==> s[..|s| - 1][i] == s[i];
      if s[|s| - 1] > m0 then s[|s| - 1] else m0
  }

  /** max_error: `np.max(|t - p|)`; numpy refuses the maximum of an empty vector. */
  function MaxError(t: seq<real>, p: seq<real>): (r: Result<real>)
    requires |t| == |p|
    ensures r.Ok? <==> |t| > 0
    ensures r.Ok? ==> r.value >= 0.0
    ensures r.Ok? ==> forall i :: 0 <= i < |t| ==> Abs(t[i] - p[i]) <= r.value
  {
    if |t| == 0 then Err(ValueError("zero-size array to reduction operation maximum which has no identity"))
    else Ok(MaxOf(AbsResiduals(t, p)))
  }

  /** The three error means vanish exactly on identical inputs (MAE, MSE, ME). */
  lemma ErrorsZeroOnIdentical(t: seq<real>)
    requires |t| > 0
    ensures MeanAbsoluteError(t, t) == Num(0.0)
    ensures MeanSquaredError(t, t) == Num(0.0)
    ensures MaxError(t, t) == Ok(0.0)
  {
    SumAllZero(AbsResiduals(t, t));
    SumAllZero(Times(Residuals(t, t), Residuals(t, t)));
  }

  /** A non-zero residual makes MAE and MSE strictly positive. */
  lemma ErrorsPositiveOnDifferent(t: seq<real>, p: seq<real>, k: nat)
    requires |t| == |p| && k < |t| && t[k] != p[k]
    ensures MeanAbsoluteError(t, p).val > 0.0
    ensures MeanSquaredError(t, p).val > 0.0
  {
    SumZeroOnlyIfAllZero(AbsResiduals(p, t), k);
    var d := Residuals(p, t);
    SquarePositive(d[k], Times(d, d)[k]);
    SumZeroOnlyIfAllZero(Times(d, d), k);
  }

  /** The largest absolute residual bounds their mean: ME >= MAE. */
  lemma MaxErrorBoundsMeanAbsoluteError(t: seq<real>, p: seq<real>)
    requires |t| == |p| && |t| > 0
    ensures MeanAbsoluteError(t, p).val <= MaxError(t, p).value
  {
    AbsResidualsSymmetric(t, p);
    MeanAtMostBound(AbsResiduals(t, p), MaxOf(AbsResiduals(t, p)));
  }

  lemma AbsResidualsSymmetric(t: seq<real>, p: seq<real>)
    requires |t| == |p|
    ensures AbsResiduals(p, t) == AbsResiduals(t, p)
  {
    forall i | 0 <= i < |t| ensures AbsResiduals(p, t)[i] == AbsResiduals(t, p)[i] {
      assert Abs(p[i] - t[i]) == Abs(t[i] - p[i]);
    }
  }

  lemma MeanAtMostBound(e: seq<real>, m: real)
    requires |e| > 0 && forall i :: 0 <= i < |e| ==> e[i] <= m
    ensures Sum(e) / |e| as real <= m
  {
    SumAtMost(e, m);
    MeanAtMost(Sum(e), |e| as real, m);
  }

  /** The mean of single_squared_error is MSE. */
  lemma MeanOfSquaredErrorsIsMse(t: seq<real>, p: seq<real>)
    requires |t| == |p|
    ensures FMean(Lift(SingleSquaredError(t, p))) == MeanSquaredError(t, p)
  {
    var se := SingleSquaredError(t, p);
    var d := Residuals(p, t);
    FMeanLift(se);
    forall i | 0 <= i < |t| ensures se[i] == Times(d, d)[i] {
      assert (t[i] - p[i]) * (t[i] - p[i]) == (p[i] - t[i]) * (p[i] - t[i]);
    }
    SumCongruent(se, Times(d, d));
  }

  // ---------------------------------------------------------------------------------
  // Percentage errors: MRE, MAPE, SMAPE, MASE
  // ---------------------------------------------------------------------------------

  /** `|x|` element-wise. */
  function Magnitudes(s: seq<real>): (r: seq<real>)
    ensures |r| == |s|
    ensures forall i :: 0 <= i < |s| ==> r[i] >= 0.0 && (r[i] == 0.0 <==> s[i] == 0.0)
  {
    seq(|s|, i requires 0 <= i < |s| => Abs(s[i]))
  }

  /** `a / b` on two float arrays: inf or nan wherever the divisor is zero. */
  function Quotients(a: seq<real>, b: seq<real>): (r: seq<Float>)
    requires |a| == |b|
    ensures |r| == |a|
    ensures forall i :: 0 <= i < |a| ==> (r[i].Num? <==> b[i] != 0.0)
  {
    seq(|a|, i requires 0 <= i < |a| => Quot(a[i], b[i]))
  }

  /** The quotients as reals, when no divisor is zero. */
  function RealQuotients(a: seq<real>, b: seq<real>): (r: seq<real>)
    requires |a| == |b|
    requires forall i :: 0 <= i < |b| ==> b[i] != 0.0
    ensures |r| == |a|
    ensures forall i :: 0 <= i < |a| ==> r[i] == a[i] / b[i]
    ensures Quotients(a, b) == Lift(r)
  {
    var r := seq(|a|, i requires 0 <= i < |a| => a[i] / b[i]);
    assert Quotients(a, b) == Lift(r);
    r
  }

  /** Quotients that are all at least lo have a finite mean of at least lo. */
  lemma QuotientMeanAtLeast(a: seq<real>, b: seq<real>, lo: real)
    requires |a| == |b| && |a| > 0
    requires forall i :: 0 <= i < |b| ==> b[i] != 0.0 && lo <= a[i] / b[i]
    ensures FMean(Quotients(a, b)).Num? && FMean(Quotients(a, b)).val >= lo
  {
    var v := RealQuotients(a, b);
    FMeanLift(v);
    SumAtLeast(v, lo);
    MeanAtLeast(Sum(v), |v| as real, lo);
  }

  /** Quotients that are all at most hi have a finite mean of at most hi. */
  lemma QuotientMeanAtMost(a: seq<real>, b: seq<real>, hi: real)
    requires |a| == |b| && |a| > 0
    requires forall i :: 0 <= i < |b| ==> b[i] != 0.0 && a[i] / b[i] <= hi
    ensures FMean(Quotients(a, b)).Num? && FMean(Quotients(a, b)).val <= hi
  {
    var v := RealQuotients(a, b);
    FMeanLift(v);
    SumAtMost(v, hi);
    MeanAtMost(Sum(v), |v| as real, hi);
  }

  /** mean_relative_error as written: `mean(|t - p| / t)`, dividing by the signed truth. */
  function MeanRelativeError(t: seq<real>, p: seq<real>): (r: Float)
    requires |t| == |p|
    ensures |t| == 0 ==> r.NaN?
    ensures (exists i :: 0 <= i < |t| && t[i] == 0.0 && p[i] == 0.0) ==> r.NaN?
  {
    var q := Quotients(AbsResiduals(t, p), t);
    assert forall i :: 0 <= i < |t| && t[i] == 0.0 && p[i] == 0.0 ==> q[i].NaN?;
    FMeanNaN(q);
    FMean(q)
  }

  /** With positive truth values MRE is a finite non-negative score. */
  lemma MreNonNegativeOnPositiveTruth(t: seq<real>, p: seq<real>)
    requires |t| == |p| && |t| > 0
    requires forall i :: 0 <= i < |t| ==> t[i] > 0.0
    ensures MeanRelativeError(t, p).Num? && MeanRelativeError(t, p).val >= 0.0
  {
    var a := AbsResiduals(t, p);
    forall i | 0 <= i < |t| ensures t[i] != 0.0 && 0.0 <= a[i] / t[i] {
      RatioNonNeg(a[i], t[i]);
    }
    QuotientMeanAtLeast(a, t, 0.0);
  }

  /**
    A negative truth value makes MRE negative, below the documented range [0, +inf):
    t = [-1], p = [0] gives |t - p| / t = -1.
  */
  lemma MreNegativeOnNegativeTruth()
    ensures MeanRelativeError([-1.0], [0.0]) == Num(-1.0)
  {
    var q := Quotients(AbsResiduals([-1.0], [0.0]), [-1.0]);
    assert q == [Num(-1.0)];
    assert FSum(q) == Add(FSum([]), Num(-1.0));
  }

  /** mean_absolute_percentage_error: `mean(|t - p| / |t|)`. */
  function MeanAbsolutePercentageError(t: seq<real>, p: seq<real>): (r: Float)
    requires |t| == |p|
    ensures |t| == 0 ==> r.NaN?
    ensures (exists i :: 0 <= i < |t| && t[i] == 0.0 && p[i] == 0.0) ==> r.NaN?
  {
    var q := Quotients(AbsResiduals(t, p), Magnitudes(t));
    assert forall i :: 0 <= i < |t| && t[i] == 0.0 && p[i] == 0.0 ==> q[i].NaN?;
    FMeanNaN(q);
    FMean(q)
  }

  /**
    With no zero truth value MAPE is a finite non-negative score, zero on identical inputs;
    it is the relative error with the magnitude of the truth as divisor.
  */
  lemma MapeNonNegative(t: seq<real>, p: seq<real>)
    requires |t| == |p| && |t| > 0
    requires forall i :: 0 <= i < |t| ==> t[i] != 0.0
    ensures MeanAbsolutePercentageError(t, p).Num? && MeanAbsolutePercentageError(t, p).val >= 0.0
    ensures t == p ==> MeanAbsolutePercentageError(t, p) == Num(0.0)
  {
    var a, m := AbsResiduals(t, p), Magnitudes(t);
    forall i | 0 <= i < |t| ensures m[i] != 0.0 && 0.0 <= a[i] / m[i] {
      RatioNonNeg(a[i], m[i]);
    }
    QuotientMeanAtLeast(a, m, 0.0);
    if t == p {
      forall i | 0 <= i < |t| ensures m[i] != 0.0 && a[i] / m[i] <= 0.0 {
      }
      QuotientMeanAtMost(a, m, 0.0);
    }
  }

  /** Where MRE is defined with positive truth values it agrees with MAPE. */
  lemma MreEqualsMapeOnPositiveTruth(t: seq<real>, p: seq<real>)
    requires |t| == |p|
    requires forall i :: 0 <= i < |t| ==> t[i] > 0.0
    ensures MeanRelativeError(t, p) == MeanAbsolutePercentageError(t, p)
  {
    assert Magnitudes(t) == t;
  }

  /** symmetric_mean_absolute_percentage_error: `mean(2|p - t| / (|t| + |p|))`. */
  function SymmetricMape(t: seq<real>, p: seq<real>): (r: Float)
    requires |t| == |p|
    ensures |t| == 0 ==> r.NaN?
    ensures (exists i :: 0 <= i < |t| && t[i] == 0.0 && p[i] == 0.0) ==> r.NaN?
  {
    var q := Quotients(Scale(2.0, AbsResiduals(p, t)), Plus(Magnitudes(t), Magnitudes(p)));
    assert forall i :: 0 <= i < |t| && t[i] == 0.0 && p[i] == 0.0 ==> q[i].NaN?;
    FMeanNaN(q);
    FMean(q)
  }

  /** SMAPE lies in [0, 2] when no pair of values is zero on both sides. */
  lemma SmapeBounds(t: seq<real>, p: seq<real>)
    requires |t| == |p| && |t| > 0
    requires forall i :: 0 <= i < |t| ==> t[i] != 0.0 || p[i] != 0.0
    ensures Within(SymmetricMape(t, p), 0.0, 2.0)
  {
    var a, b := Scale(2.0, AbsResiduals(p, t)), Plus(Magnitudes(t), Magnitudes(p));
    forall i | 0 <= i < |t| ensures b[i] != 0.0 && 0.0 <= a[i] / b[i] <= 2.0 {
      SmapeTermBounds(t[i], p[i]);
    }
    QuotientMeanAtLeast(a, b, 0.0);
    QuotientMeanAtMost(a, b, 2.0);
  }

  /** One SMAPE term: 2|p - t| <= 2(|t| + |p|). */
  lemma SmapeTermBounds(x: real, y: real)
    requires x != 0.0 || y != 0.0
    ensures Abs(x) + Abs(y) > 0.0
    ensures 0.0 <= 2.0 * Abs(y - x) / (Abs(x) + Abs(y)) <= 2.0
  {
    var a, b := 2.0 * Abs(y - x), Abs(x) + Abs(y);
    RatioNonNeg(a, b);
    MeanAtMost(a, b, 2.0);
  }

  /** SMAPE is symmetric in its two arguments. */
  lemma SmapeSymmetric(t: seq<real>, p: seq<real>)
    requires |t| == |p|
    ensures SymmetricMape(t, p) == SymmetricMape(p, t)
  {
    assert Quotients(Scale(2.0, AbsResiduals(p, t)), Plus(Magnitudes(t), Magnitudes(p)))
        == Quotients(Scale(2.0, AbsResiduals(t, p)), Plus(Magnitudes(p), Magnitudes(t)));
  }

  /** A perfect prediction without zero values gives the documented best SMAPE, 0. */
  lemma SmapeZeroOnPerfect(t: seq<real>)
    requires |t| > 0
    requires forall i :: 0 <= i < |t| ==> t[i] != 0.0
    ensures SymmetricMape(t, t) == Num(0.0)
  {
    var a, b := Scale(2.0, AbsResiduals(t, t)), Plus(Magnitudes(t), Magnitudes(t));
    forall i | 0 <= i < |t| ensures b[i] != 0.0 && a[i] / b[i] == 0.0 {
      assert a[i] == 0.0 && b[i] > 0.0;
    }
    QuotientMeanAtLeast(a, b, 0.0);
    QuotientMeanAtMost(a, b, 0.0);
  }

  /** `t[m:] - t[:-m]` for the seasonal period m >= 1: empty when m >= len(t). */
  function SeasonalDifferences(t: seq<real>, m: nat): (r: seq<real>)
    requires m >= 1
    ensures |r| == if m < |t| then |t| - m else 0
    ensures forall i :: 0 <= i < |r| ==> r[i] == t[i + m] - t[i]
  {
    if m >= |t| then []
    else seq(|t| - m, i requires 0 <= i < |t| - m => t[i + m] - t[i])
  }

  /** mean_absolute_scaled_error: `mean(|t - p|) / mean(|t[m:] - t[:-m]|)`. */
  function MeanAbsoluteScaledError(t: seq<real>, p: seq<real>, m: nat): (r: Float)
    requires |t| == |p| && m >= 1
    ensures m >= |t| ==> r.NaN?
  {
    Div(Mean(AbsResiduals(t, p)), Mean(Magnitudes(SeasonalDifferences(t, m))))
  }

  /** MASE is a non-negative finite score whenever the naive seasonal forecast has a non-zero error. */
  lemma MaseNonNegative(t: seq<real>, p: seq<real>, m: nat, k: nat)
    requires |t| == |p| && 1 <= m < |t|
    requires k < |t| - m && t[k + m] != t[k]
    ensures MeanAbsoluteScaledError(t, p, m).Num? && MeanAbsoluteScaledError(t, p, m).val >= 0.0
    ensures t == p ==> MeanAbsoluteScaledError(t, p, m) == Num(0.0)
  {
    var e, a := AbsResiduals(t, p), Magnitudes(SeasonalDifferences(t, m));
    MeanOfNonNegatives(e);
    MeanOfPositive(a, k);
    NonNegativeQuotient(Mean(e).val, Mean(a).val);
    if t == p {
      MaseZeroOnPerfect(t, m, k);
    }
  }

  /** A perfect forecast scores 0 against any naive seasonal error that is not zero. */
  lemma MaseZeroOnPerfect(t: seq<real>, m: nat, k: nat)
    requires 1 <= m < |t|
    requires k < |t| - m && t[k + m] != t[k]
    ensures MeanAbsoluteScaledError(t, t, m) == Num(0.0)
  {
    var e, a := AbsResiduals(t, t), Magnitudes(SeasonalDifferences(t, m));
    SumAllZero(e);
    MeanOfPositive(a, k);
    NonNegativeQuotient(Mean(e).val, Mean(a).val);
  }

  /** A non-negative number over a positive one, in float division: a non-negative number, 0 for 0. */
  lemma NonNegativeQuotient(x: real, y: real)
    requires x >= 0.0 && y > 0.0
    ensures Div(Num(x), Num(y)).Num? && Div(Num(x), Num(y)).val >= 0.0
    ensures x == 0.0 ==> Div(Num(x), Num(y)) == Num(0.0)
  {
    RatioNonNeg(x, y);
  }

  /** A vector of non-negative values with one positive entry has a positive mean. */
  lemma MeanOfPositive(a: seq<real>, k: nat)
    requires forall i :: 0 <= i < |a| ==> a[i] >= 0.0
    requires k < |a| && a[k] > 0.0
    ensures Mean(a).Num? && Mean(a).val > 0.0
  {
    SumZeroOnlyIfAllZero(a, k);
    RatioNonNeg(Sum(a), |a| as real);
  }

  /** The mean of a non-empty vector of non-negative values is a non-negative number. */
  lemma MeanOfNonNegatives(e: seq<real>)
    requires |e| > 0 && forall i :: 0 <= i < |e| ==> e[i] >= 0.0
    ensures Mean(e).Num? && Mean(e).val >= 0.0
  {
    SumNonNeg(e);
    RatioNonNeg(Sum(e), |e| as real);
  }

  // ---------------------------------------------------------------------------------
  // Efficiency scores: NSE, R2, WI, EVS, VAF, DRV
  // ---------------------------------------------------------------------------------

  /** Total sum of squares `sum((t - mean(t)) ** 2)`. */
  function TotalSumOfSquares(t: seq<real>): (r: real)
    ensures r >= 0.0
  {
    var c := Shift(t, RealMean(t));
    SumNonNeg(Times(c, c));
    Sum(Times(c, c))
  }

  /** Residual sum of squares `sum((t - p) ** 2)`. */
  function ResidualSumOfSquares(t: seq<real>, p: seq<real>): (r: real)
    requires |t| == |p|
    ensures r >= 0.0
    ensures r == 0.0 <==> t == p
  {
    var e := SingleSquaredError(t, p);
    SumNonNeg(e);
    if t == p then
      SumAllZero(e);
      Sum(e)
    else
      var k :| 0 <= k < |t| && t[k] != p[k];
      SumZeroOnlyIfAllZero(e, k);
      Sum(e)
  }

  /** nash_sutcliffe_efficiency: `1 - sum((t - p) ** 2) / sum((t - mean(t)) ** 2)`. */
  function NashSutcliffeEfficiency(t: seq<real>, p: seq<real>): (r: Float)
    requires |t| == |p|
    ensures TotalSumOfSquares(t) != 0.0 ==> r.Num? && r.val <= 1.0
    ensures TotalSumOfSquares(t) != 0.0 ==> (r.val == 1.0 <==> t == p)
    ensures TotalSumOfSquares(t) == 0.0 ==> (r.NaN? <==> t == p)
    ensures TotalSumOfSquares(t) == 0.0 && t != p ==> r.NegInf?
  {
    var num, den := ResidualSumOfSquares(t, p), TotalSumOfSquares(t);
    OneMinusQuotient(num, den);
    Sub(Num(1.0), Quot(num, den))
  }

  /** `1 - num / den` for non-negative num and den, as numpy evaluates it. */
  lemma OneMinusQuotient(num: real, den: real)
    requires num >= 0.0 && den >= 0.0
    ensures den != 0.0 ==> Sub(Num(1.0), Quot(num, den)).Num?
    ensures den != 0.0 ==> Sub(Num(1.0), Quot(num, den)).val <= 1.0
    ensures den != 0.0 ==> (Sub(Num(1.0), Quot(num, den)).val == 1.0 <==> num == 0.0)
    ensures den == 0.0 ==> (Sub(Num(1.0), Quot(num, den)).NaN? <==> num == 0.0)
    ensures den == 0.0 && num != 0.0 ==> Sub(Num(1.0), Quot(num, den)).NegInf?
  {
    if den != 0.0 {
      RatioNonNeg(num, den);
      assert Sub(Num(1.0), Quot(num, den)) == Num(1.0 - num / den);
    } else if num != 0.0 {
      assert Quot(num, den) == PosInf;
    } else {
      assert Quot(num, den) == NaN;
    }
  }

  /** A non-negative value over a positive one is non-negative, and zero only for a zero numerator. */
  lemma RatioNonNeg(a: real, b: real)
    requires a >= 0.0 && b > 0.0
    ensures a / b >= 0.0 && (a / b == 0.0 <==> a == 0.0)
  {
  }

  /** coefficient_of_determination: the same expression as NSE, so the same value on every input. */
  function CoefficientOfDetermination(t: seq<real>, p: seq<real>): (r: Float)
    requires |t| == |p|
    ensures r == NashSutcliffeEfficiency(t, p)
  {
    var c := Shift(t, RealMean(t));
    var ss := Sum(SingleSquaredError(t, p));
    Sub(Num(1.0), Quot(ss, Sum(Times(c, c))))
  }

  /** willmott_index: `1 - sum((p - t) ** 2) / sum((|p - m| + |t - m|) ** 2)`, m = mean(t). */
  function WillmottIndex(t: seq<real>, p: seq<real>): (r: Float)
    requires |t| == |p|
    ensures WillmottDenominator(t, p) != 0.0 ==> Within(r, 0.0, 1.0)
    ensures WillmottDenominator(t, p) == 0.0 ==> r.NaN?
  {
    var num := Sum(Times(Residuals(p, t), Residuals(p, t)));
    var den := WillmottDenominator(t, p);
    WillmottNumeratorBound(t, p);
    if den != 0.0 then
      RatioInUnit(num, den);
      Sub(Num(1.0), Quot(num, den))
    else
      Sub(Num(1.0), Quot(num, den))
  }

  /** The denominator of Willmott's index, `sum((|p - m| + |t - m|) ** 2)`. */
  function WillmottDenominator(t: seq<real>, p: seq<real>): (r: real)
    requires |t| == |p|
    ensures r >= 0.0
  {
    var m := RealMean(t);
    var w := seq(|t|, i requires 0 <= i < |t| => Abs(p[i] - m) + Abs(t[i] - m));
    SumNonNeg(Times(w, w));
    Sum(Times(w, w))
  }

  /** Each squared residual is bounded by its Willmott term, since |p - t| <= |p - m| + |t - m|. */
  lemma WillmottNumeratorBound(t: seq<real>, p: seq<real>)
    requires |t| == |p|
    ensures 0.0 <= Sum(Times(Residuals(p, t), Residuals(p, t))) <= WillmottDenominator(t, p)
    ensures WillmottDenominator(t, p) == 0.0 ==> Sum(Times(Residuals(p, t), Residuals(p, t))) == 0.0
  {
    var m := RealMean(t);
    var d := Residuals(p, t);
    var w := seq(|t|, i requires 0 <= i < |t| => Abs(p[i] - m) + Abs(t[i] - m));
    forall i | 0 <= i < |t| ensures Times(d, d)[i] <= Times(w, w)[i] && Times(d, d)[i] >= 0.0 {
      assert Abs(d[i]) <= w[i];
      SquareMonotone(Abs(d[i]), w[i]);
      assert Abs(d[i]) * Abs(d[i]) == d[i] * d[i];
    }
    SumNonNeg(Times(d, d));
    SumMonotone(Times(d, d), Times(w, w));
  }

  /** On identical inputs Willmott's index is 1 unless every value equals the mean (then nan). */
  lemma WillmottOneOnIdentical(t: seq<real>)
    requires WillmottDenominator(t, t) != 0.0
    ensures WillmottIndex(t, t) == Num(1.0)
  {
    SumAllZero(Times(Residuals(t, t), Residuals(t, t)));
  }

  /** explained_variance_score: `1 - var(t - p) / var(t)`. */
  function ExplainedVarianceScore(t: seq<real>, p: seq<real>): (r: Float)
    requires |t| == |p|
    ensures |t| == 0 ==> r.NaN?
    ensures Var(t).Num? && Var(t).val > 0.0 ==> r.Num? && r.val <= 1.0
  {
    var vr, vt := Var(Residuals(t, p)), Var(t);
    if vt.Num? && vt.val > 0.0 then
      RatioNonNeg(vr.val, vt.val);
      Sub(Num(1.0), Div(vr, vt))
    else Sub(Num(1.0), Div(vr, vt))
  }

  /** EVS is 1 on identical inputs whose truth is not constant. */
  lemma ExplainedVarianceOneOnIdentical(t: seq<real>)
    requires Var(t).Num? && Var(t).val > 0.0
    ensures ExplainedVarianceScore(t, t) == Num(1.0)
  {
    VarConstant(Residuals(t, t), 0.0);
  }

  /** variance_accounted_for: `(1 - var(t - p) / var(t)) * 100`. */
  function VarianceAccountedFor(t: seq<real>, p: seq<real>): (r: Float)
    requires |t| == |p|
    ensures |t| == 0 ==> r.NaN?
    ensures Var(t).Num? && Var(t).val > 0.0 ==> r.Num? && r.val <= 100.0
  {
    Mul(Sub(Num(1.0), Div(Var(Residuals(t, p)), Var(t))), Num(100.0))
  }

  /** VAF is 100 times EVS on every input, nan and infinite outcomes included. */
  lemma VafIsHundredTimesEvs(t: seq<real>, p: seq<real>)
    requires |t| == |p|
    ensures VarianceAccountedFor(t, p) == Mul(ExplainedVarianceScore(t, p), Num(100.0))
    ensures ExplainedVarianceScore(t, p).Num? ==>
      VarianceAccountedFor(t, p) == Num(100.0 * ExplainedVarianceScore(t, p).val)
  {
  }

  lemma SumOfTwo(a: real, b: real)
    ensures Sum([a, b]) == a + b
  {
    assert [a, b][..1] == [a];
    assert Sum([a]) == Sum([a][..0]) + a;
    assert [a][..0] == [];
  }

  /** The variance of two values is a quarter of their squared gap. */
  lemma VarOfTwo(a: real, b: real)
    ensures Var([a, b]) == Num((a - b) * (a - b) / 4.0)
  {
    var xs := [a, b];
    SumOfTwo(a, b);
    var c := Shift(xs, (a + b) / 2.0);
    assert c == [(a - b) / 2.0, (b - a) / 2.0];
    var sq := Times(c, c);
    assert sq == [sq[0], sq[1]];
    SumOfTwo(sq[0], sq[1]);
    assert sq[0] + sq[1] == (a - b) * (a - b) / 2.0;
  }

  /**
    VAF leaves the documented range [0, 100]: t = [0, 1], p = [1, 0] has residual variance 1
    against a truth variance of 1/4, so VAF is (1 - 4) * 100 = -300.
  */
  lemma VafBelowDocumentedRange(t: seq<real>, p: seq<real>)
    requires t == [0.0, 1.0] && p == [1.0, 0.0]
    ensures VarianceAccountedFor(t, p) == Num(-300.0)
  {
    assert Residuals(t, p) == [-1.0, 1.0];
    VarOfTwo(-1.0, 1.0);
    VarOfTwo(0.0, 1.0);
    assert Div(Num(1.0), Num(0.25)) == Num(4.0);
  }

  /**
    VAF floored at 0 (a -inf from a constant truth included), the reading under which the
    documented range [0, 100] holds; nan stays nan.
  */
  function FlooredVarianceAccountedFor(t: seq<real>, p: seq<real>): (r: Float)
    requires |t| == |p|
    ensures Var(t).Num? && Var(t).val > 0.0 ==> Within(r, 0.0, 100.0)
    ensures r.Num? && r.val > 0.0 ==> r == VarianceAccountedFor(t, p)
    ensures VarianceAccountedFor(t, p).Num? && VarianceAccountedFor(t, p).val >= 0.0 ==> r == VarianceAccountedFor(t, p)
  {
    var v := VarianceAccountedFor(t, p);
    if v.NegInf? || (v.Num? && v.val < 0.0) then Num(0.0) else v
  }

  /** deviation_of_runoff_volume: `sum(p) / sum(t)`. */
  function DeviationOfRunoffVolume(t: seq<real>, p: seq<real>): (r: Float)
    requires |t| == |p|
    ensures r.Num? <==> Sum(t) != 0.0
    ensures t == p && Sum(t) != 0.0 ==> r == Num(1.0)
  {
    Quot(Sum(p), Sum(t))
  }

  /**
    The relative runoff-volume error `(sum(p) - sum(t)) / sum(t)`: DRV shifted by 1, so that a
    prediction with the true total volume scores the documented best value 0.
  */
  function RunoffVolumeError(t: seq<real>, p: seq<real>): (r: Float)
    requires |t| == |p|
    ensures r.Num? <==> Sum(t) != 0.0
    ensures r.Num? ==> (r.val == 0.0 <==> Sum(p) == Sum(t))
    ensures r.Num? ==> r.val == DeviationOfRunoffVolume(t, p).val - 1.0
  {
    if Sum(t) != 0.0 then
      ShiftedQuotient(Sum(p), Sum(t));
      Quot(Sum(p) - Sum(t), Sum(t))
    else Quot(Sum(p) - Sum(t), Sum(t))
  }

  lemma ShiftedQuotient(a: real, b: real)
    requires b != 0.0
    ensures (a - b) / b == a / b - 1.0
    ensures (a - b) / b == 0.0 <==> a == b
  {
    assert (a - b) / b == a / b - b / b;
    assert b / b == 1.0;
  }

  /** Swapping the arguments inverts DRV where both totals are non-zero. */
  lemma DrvSwapInverts(t: seq<real>, p: seq<real>)
    requires |t| == |p| && Sum(t) != 0.0 && Sum(p) != 0.0
    ensures DeviationOfRunoffVolume(t, p).val * DeviationOfRunoffVolume(p, t).val == 1.0
  {
  }

  // ---------------------------------------------------------------------------------
  // Direction and ratio-window scores: PCD, A10, A20, RSE
  // ---------------------------------------------------------------------------------

  /** `np.sign`. */
  function Sign(x: real): (s: int)
    ensures s == (if x > 0.0 then 1 else if x < 0.0 then -1 else 0)
  {
    if x > 0.0 then 1 else if x < 0.0 then -1 else 0
  }

  /** `np.sign(np.diff(t)) == np.sign(np.diff(p))`: one flag per consecutive step. */
  function DirectionMatches(t: seq<real>, p: seq<real>): (r: seq<bool>)
    requires |t| == |p|
    ensures |r| == if |t| == 0 then 0 else |t| - 1
    ensures forall i :: 0 <= i < |r| ==>
      (r[i] <==> Sign(t[i + 1] - t[i]) == Sign(p[i + 1] - p[i]))
  {
    if |t| == 0 then []
    else seq(|t| - 1, i requires 0 <= i < |t| - 1 => Sign(t[i + 1] - t[i]) == Sign(p[i + 1] - p[i]))
  }

  /** prediction_of_change_in_direction: the share of steps whose direction is predicted. */
  function PredictionOfChangeInDirection(t: seq<real>, p: seq<real>): (r: Float)
    requires |t| == |p|
    ensures |t| >= 2 ==> Within(r, 0.0, 1.0)
    ensures |t| < 2 ==> r.NaN?
  {
    var d := DirectionMatches(t, p);
    if |d| > 0 then
      RatioInUnit(Count(d) as real, |d| as real);
      Quot(Count(d) as real, |d| as real)
    else Quot(Count(d) as real, |d| as real)
  }

  /** PCD is 1 when the prediction is the truth and there is at least one step. */
  lemma PcdOneOnIdentical(t: seq<real>)
    requires |t| >= 2
    ensures PredictionOfChangeInDirection(t, t) == Num(1.0)
  {
    var d := DirectionMatches(t, t);
    CountAllTrue(d);
    assert Count(d) as real / |d| as real == 1.0;
  }

  /** `np.logical_and(t / p >= lo, t / p <= hi)`, element-wise. */
  function InRatioWindow(t: seq<real>, p: seq<real>, lo: real, hi: real): (r: seq<bool>)
    requires |t| == |p| && 0.0 < lo <= hi
    ensures |r| == |t|
    ensures forall i :: 0 <= i < |t| ==> (r[i] <==> p[i] != 0.0 && lo <= t[i] / p[i] <= hi)
  {
    seq(|t|, i requires 0 <= i < |t| => AtLeast(Quot(t[i], p[i]), lo) && AtMost(Quot(t[i], p[i]), hi))
  }

  /** The mean of the window flags: the share of samples whose ratio t/p lies in [lo, hi]. */
  function RatioIndex(t: seq<real>, p: seq<real>, lo: real, hi: real): (r: Float)
    requires |t| == |p| && 0.0 < lo <= hi
    ensures |t| > 0 ==> Within(r, 0.0, 1.0)
    ensures |t| == 0 ==> r.NaN?
  {
    var w := InRatioWindow(t, p, lo, hi);
    if |t| > 0 then
      RatioInUnit(Count(w) as real, |t| as real);
      Quot(Count(w) as real, |t| as real)
    else Quot(Count(w) as real, |t| as real)
  }

  /** a10_index: the share of ratios within 10% of 1. */
  function A10Index(t: seq<real>, p: seq<real>): (r: Float)
    requires |t| == |p|
    ensures |t| > 0 ==> Within(r, 0.0, 1.0)
    ensures |t| == 0 ==> r.NaN?
  {
    RatioIndex(t, p, 0.9, 1.1)
  }

  /** a20_index: the share of ratios within 20% of 1. */
  function A20Index(t: seq<real>, p: seq<real>): (r: Float)
    requires |t| == |p|
    ensures |t| > 0 ==> Within(r, 0.0, 1.0)
    ensures |t| == 0 ==> r.NaN?
  {
    RatioIndex(t, p, 0.8, 1.2)
  }

  /** Since [0.9, 1.1] lies inside [0.8, 1.2], A10 never exceeds A20. */
  lemma A10AtMostA20(t: seq<real>, p: seq<real>)
    requires |t| == |p| && |t| > 0
    ensures A10Index(t, p).val <= A20Index(t, p).val
  {
    var w10, w20 := InRatioWindow(t, p, 0.9, 1.1), InRatioWindow(t, p, 0.8, 1.2);
    CountMonotone(w10, w20);
    var n := |t| as real;
    assert Count(w10) as real <= Count(w20) as real;
    DivMonotone(Count(w10) as real, Count(w20) as real, n);
  }

  /** Dividing by a positive value keeps the order. */
  lemma DivMonotone(a: real, b: real, n: real)
    requires a <= b && n > 0.0
    ensures a / n <= b / n
  {
  }

  /** Both indices are 1 on identical inputs with no zero prediction. */
  lemma RatioIndicesOneOnIdentical(t: seq<real>)
    requires |t| > 0 && forall i :: 0 <= i < |t| ==> t[i] != 0.0
    ensures A10Index(t, t) == Num(1.0) && A20Index(t, t) == Num(1.0)
  {
    RatioIndexOneOnIdentical(t, 0.9, 1.1);
    RatioIndexOneOnIdentical(t, 0.8, 1.2);
  }

  /** A window around 1 holds every ratio t/t, so its share is 1. */
  lemma RatioIndexOneOnIdentical(t: seq<real>, lo: real, hi: real)
    requires |t| > 0 && forall i :: 0 <= i < |t| ==> t[i] != 0.0
    requires 0.0 < lo <= 1.0 <= hi
    ensures RatioIndex(t, t, lo, hi) == Num(1.0)
  {
    var w := InRatioWindow(t, t, lo, hi);
    forall i | 0 <= i < |t| ensures w[i] {
      SelfQuotient(t[i]);
    }
    CountAllTrue(w);
    SelfQuotient(|t| as real);
  }

  /** A non-zero value over itself is exactly 1. */
  lemma SelfQuotient(a: real)
    requires a != 0.0
    ensures Quot(a, a) == Num(1.0)
  {
    assert a / a == 1.0;
  }

  /** `(a - ma) * (b - mb)` element-wise on float arrays. */
  function CentredProducts(a: seq<Float>, ma: Float, b: seq<Float>, mb: Float): (r: seq<Float>)
    requires |a| == |b|
    ensures |r| == |a|
  {
    seq(|a|, i requires 0 <= i < |a| => Mul(Sub(a[i], ma), Sub(b[i], mb)))
  }

  /**
    residual_standard_error: with q = t / p,
    `(sum((p - mean p) * (q - mean q))) ** 2 / (sum((p - mean p) ** 2) * sum((q - mean q) ** 2))`.
  */
  function ResidualStandardError(t: seq<real>, p: seq<real>): (r: Float)
    requires |t| == |p|
    ensures |t| == 0 ==> r.NaN?
  {
    var q, fp := Quotients(t, p), Lift(p);
    SquaredCorrelation(CentredFSum(fp, q), CentredFSum(fp, fp), CentredFSum(q, q))
  }

  /** The float sum of the products of two arrays centred on their own means. */
  function CentredFSum(a: seq<Float>, b: seq<Float>): Float
    requires |a| == |b|
  {
    FSum(CentredProducts(a, FMean(a), b, FMean(b)))
  }

  /** A squared cross sum over the product of two sums of squares, in float arithmetic. */
  function SquaredCorrelation(up: Float, left: Float, right: Float): Float {
    Div(Mul(up, up), Mul(left, right))
  }

  /** With finite vectors, the float sum of centred products is the real sum of centred products. */
  lemma CentredProductsFinite(a: seq<real>, b: seq<real>)
    requires |a| == |b| && |a| > 0
    ensures CentredFSum(Lift(a), Lift(b)) == Num(CentredSum(a, b))
  {
    FMeanLift(a);
    FMeanLift(b);
    var c := CentredProducts(Lift(a), FMean(Lift(a)), Lift(b), FMean(Lift(b)));
    var s := Times(Shift(a, RealMean(a)), Shift(b, RealMean(b)));
    assert forall i :: 0 <= i < |c| ==> c[i] == Num(s[i]);
    FSumFinite(c);
    assert Vals(c) == s;
  }

  /** A squared covariance over a product of variances it does not exceed lies in [0, 1], or is 0/0. */
  lemma SquaredRatioBounds(r: Float, c: real, x: real, y: real)
    requires r == SquaredCorrelation(Num(c), Num(x), Num(y))
    requires x >= 0.0 && y >= 0.0 && c * c <= x * y
    ensures Within(r, 0.0, 1.0) || r.NaN?
  {
    var cc, d := c * c, x * y;
    SquareNonNeg(c, cc);
    if d != 0.0 {
      RatioInUnit(cc, d);
    }
  }

  /** Centred sums of squares and cross products as reals: RSE's three sums when nothing is infinite. */
  function CentredSum(a: seq<real>, b: seq<real>): real
    requires |a| == |b|
  {
    Sum(Times(Shift(a, RealMean(a)), Shift(b, RealMean(b))))
  }

  /** Cauchy-Schwarz for centred vectors: the squared cross sum is at most the product of the sums of squares. */
  lemma CentredCauchySchwarz(x: seq<real>, y: seq<real>)
    requires |x| == |y|
    ensures CentredSum(x, x) >= 0.0 && CentredSum(y, y) >= 0.0
    ensures CentredSum(x, y) * CentredSum(x, y) <= CentredSum(x, x) * CentredSum(y, y)
  {
    var a, b := Shift(x, RealMean(x)), Shift(y, RealMean(y));
    CauchySchwarz(a, b);
    SumNonNeg(Times(a, a));
    SumNonNeg(Times(b, b));
  }

  /** Without a zero prediction RSE is computed from three real sums. */
  lemma ResidualStandardErrorFinite(t: seq<real>, p: seq<real>)
    requires |t| == |p| && |t| > 0
    requires forall i :: 0 <= i < |t| ==> p[i] != 0.0
    ensures var v := RealQuotients(t, p);
      ResidualStandardError(t, p)
      == SquaredCorrelation(Num(CentredSum(p, v)), Num(CentredSum(p, p)), Num(CentredSum(v, v)))
  {
    var v := RealQuotients(t, p);
    CentredProductsFinite(p, v);
    CentredProductsFinite(p, p);
    CentredProductsFinite(v, v);
  }

  /**
    When no prediction is zero and the inputs are not empty, RSE is the squared correlation
    of p with t / p: a value in [0, 1] by Cauchy-Schwarz, or nan when either vector is constant.
  */
  lemma ResidualStandardErrorBounds(t: seq<real>, p: seq<real>)
    requires |t| == |p| && |t| > 0
    requires forall i :: 0 <= i < |t| ==> p[i] != 0.0
    ensures var r := ResidualStandardError(t, p); Within(r, 0.0, 1.0) || r.NaN?
  {
    ResidualStandardErrorFinite(t, p);
    CorrelationBounded(p, RealQuotients(t, p));
  }

  /** The squared correlation of two real vectors, evaluated in floats, lies in [0, 1] or is nan. */
  lemma CorrelationBounded(a: seq<real>, b: seq<real>)
    requires |a| == |b|
    ensures var r := SquaredCorrelation(Num(CentredSum(a, b)), Num(CentredSum(a, a)), Num(CentredSum(b, b)));
      Within(r, 0.0, 1.0) || r.NaN?
  {
    CentredCauchySchwarz(a, b);
    var c, x, y := CentredSum(a, b), CentredSum(a, a), CentredSum(b, b);
    SquaredRatioBounds(SquaredCorrelation(Num(c), Num(x), Num(y)), c, x, y);
  }

  /**
    A perfect prediction makes t / p a vector of ones, whose centred sums are all zero:
    RSE is then 0 / 0, nan, rather than its documented best 1.0.
  */
  lemma ResidualStandardErrorUndefinedOnPerfect(t: seq<real>)
    requires |t| > 0
    requires forall i :: 0 <= i < |t| ==> t[i] != 0.0
    ensures ResidualStandardError(t, t).NaN?
  {
    var v := RealQuotients(t, t);
    SelfQuotientsAreOnes(t);
    CentredSumOfConstant(t, v, 1.0);
    CentredSumOfConstant(v, v, 1.0);
    ResidualStandardErrorFinite(t, t);
    assert ResidualStandardError(t, t) == SquaredCorrelation(Num(0.0), Num(CentredSum(t, t)), Num(0.0));
    ZeroCorrelation(CentredSum(t, t));
  }

  /** t / t is a vector of ones when t has no zero. */
  lemma SelfQuotientsAreOnes(t: seq<real>)
    requires forall i :: 0 <= i < |t| ==> t[i] != 0.0
    ensures forall i :: 0 <= i < |t| ==> RealQuotients(t, t)[i] == 1.0
  {
    forall i | 0 <= i < |t| ensures t[i] / t[i] == 1.0 {
      assert t[i] != 0.0;
    }
  }

  /** A zero cross sum over a zero sum of squares is 0 / 0. */
  lemma ZeroCorrelation(x: real)
    ensures SquaredCorrelation(Num(0.0), Num(x), Num(0.0)).NaN?
  {
    assert Mul(Num(x), Num(0.0)) == Num(0.0);
  }

  /** Centring a constant vector leaves only zeros, so every centred sum with it is 0. */
  lemma CentredSumOfConstant(x: seq<real>, v: seq<real>, k: real)
    requires |x| == |v|
    requires forall i :: 0 <= i < |v| ==> v[i] == k
    ensures CentredSum(x, v) == 0.0
  {
    if v != [] {
      SumConstant(v, k);
      MeanOfConstant(|v| as real, k);
    }
    var c, d := Shift(v, RealMean(v)), Shift(x, RealMean(x));
    assert forall i :: 0 <= i < |v| ==> c[i] == 0.0;
    SumAllZero(Times(d, c));
  }

  /** n copies of k, averaged, give k. */
  lemma MeanOfConstant(n: real, k: real)
    requires n > 0.0
    ensures (n * k) / n == k
  {
  }

  /**
    The squared correlation of the prediction with the truth itself: a score in [0, 1]
    (or nan when either vector is constant) that is 1 on a perfect prediction.
  */
  function TruthCorrelation(t: seq<real>, p: seq<real>): (r: Float)
    requires |t| == |p|
    ensures |t| == 0 ==> r.NaN?
    ensures Within(r, 0.0, 1.0) || r.NaN?
  {
    LiftedCorrelationBounded(t, p);
    SquaredCorrelation(CentredFSum(Lift(p), Lift(t)), CentredFSum(Lift(p), Lift(p)), CentredFSum(Lift(t), Lift(t)))
  }

  /** The float squared correlation of two finite vectors is nan when they are empty, and otherwise in [0, 1] or nan. */
  lemma LiftedCorrelationBounded(t: seq<real>, p: seq<real>)
    requires |t| == |p|
    ensures var r := SquaredCorrelation(CentredFSum(Lift(p), Lift(t)), CentredFSum(Lift(p), Lift(p)), CentredFSum(Lift(t), Lift(t)));
      (|t| == 0 ==> r.NaN?) && (Within(r, 0.0, 1.0) || r.NaN?)
  {
    if |t| > 0 {
      CentredProductsFinite(p, t);
      CentredProductsFinite(p, p);
      CentredProductsFinite(t, t);
      CorrelationBounded(p, t);
    } else {
      EmptyCentredFSum(Lift(p), Lift(t));
      EmptyCentredFSum(Lift(p), Lift(p));
      EmptyCentredFSum(Lift(t), Lift(t));
      ZeroCorrelation(0.0);
    }
  }

  /** The centred float sum over empty arrays is the empty sum, 0. */
  lemma EmptyCentredFSum(a: seq<Float>, b: seq<Float>)
    requires |a| == |b| == 0
    ensures CentredFSum(a, b) == Num(0.0)
  {
    assert CentredProducts(a, FMean(a), b, FMean(b)) == [];
  }

  /** On a perfect prediction of a truth that varies, the corrected score is its best, 1.0. */
  lemma TruthCorrelationOneOnPerfect(t: seq<real>)
    requires |t| > 0
    requires CentredSum(t, t) != 0.0
    ensures TruthCorrelation(t, t) == Num(1.0)
  {
    CentredProductsFinite(t, t);
    UnitCorrelation(CentredSum(t, t));
  }

  /** A cross sum equal to both sums of squares, when non-zero, gives a squared correlation of 1. */
  lemma UnitCorrelation(c: real)
    requires c != 0.0
    ensures SquaredCorrelation(Num(c), Num(c), Num(c)) == Num(1.0)
  {
    SquarePositive(c, c * c);
    SelfQuotient(c * c);
  }
}
