/**
  The clustering evaluator object: the evaluation context it keeps (label vectors, feature
  matrix, decimal places, the raise-or-sentinel policy and the two sentinels), how a metric
  call resolves its inputs against that context, the table of supported metric codes, the
  single-cluster guards, and the metric methods that combine resolution with the counting
  algorithms of the other modules.

  The label encoders are not part of this model: label vectors are taken as already encoded,
  and `le` records which vectors the last encoder was built from.
*/
module ClusteringEvaluator {
  import opened Wrappers
  import opened Floats
  import opened PairCounting
  import opened PairCountingMetrics
  import Purity
  import BakerHubert

  const ExternalMissing := "You need to pass y_true and y_pred to calculate external clustering metrics."
  const InternalMissing := "You need to pass y_pred to calculate external clustering metrics."
  const FeaturesMissing := "To calculate internal metrics, you need to pass X."

  /** What the label encoder of the last resolution was built from. */
  datatype Encoding = External(yTrue: seq<nat>, yPred: seq<nat>) | Internal(yPred: seq<nat>)

  /** The inputs of an external metric after resolution. */
  datatype ExternalData = ExternalData(yTrue: seq<nat>, yPred: seq<nat>, decimal: nat)

  /** The inputs of an internal metric after resolution. */
  datatype InternalData = InternalData(yPred: seq<nat>, decimal: nat)

  /** A call-site `decimal` wins over the one the evaluator keeps. */
  function ResolveDecimal(call: Option<nat>, own: nat): (d: nat)
    ensures call.Some? ==> d == call.value
    ensures call.None? ==> d == own
  {
    if call.None? then own else call.value
  }

  /** The external encoder refuses label vectors of different lengths. */
  function EncodeExternal(yt: seq<nat>, yp: seq<nat>, decimal: nat): (r: Result<ExternalData>)
    ensures r.Ok? <==> |yt| == |yp|
    ensures r.Ok? ==> r.value == ExternalData(yt, yp, decimal)
    ensures r.Err? ==> r.error == ShapeError
  {
    if |yt| != |yp| then Err(ShapeError) else Ok(ExternalData(yt, yp, decimal))
  }

  /**
    get_processed_external_data, on values: a call-site y_pred selects the call-site pair
    (and then y_true must be given too); without one, both stored vectors are used.
  */
  function ResolveExternal(
    callTrue: Option<seq<nat>>, callPred: Option<seq<nat>>, callDecimal: Option<nat>,
    ownTrue: Option<seq<nat>>, ownPred: Option<seq<nat>>, ownDecimal: nat): (r: Result<ExternalData>)
    ensures r.Err? ==> r.error == ValueError(ExternalMissing) || r.error == ShapeError
    ensures r.Ok? ==> |r.value.yTrue| == |r.value.yPred|
    ensures r.Ok? && callPred.Some? ==>
      callTrue.Some? && r.value == ExternalData(callTrue.value, callPred.value, ResolveDecimal(callDecimal, ownDecimal))
    ensures r.Ok? && callPred.None? ==>
      ownTrue.Some? && ownPred.Some? && r.value == ExternalData(ownTrue.value, ownPred.value, ResolveDecimal(callDecimal, ownDecimal))
  {
    var decimal := ResolveDecimal(callDecimal, ownDecimal);
    if callPred.None? then
      if ownPred.None? then Err(ValueError(ExternalMissing))
      else if ownTrue.None? then Err(ValueError(ExternalMissing))
      else EncodeExternal(ownTrue.value, ownPred.value, decimal)
    else if callTrue.None? then Err(ValueError(ExternalMissing))
    else EncodeExternal(callTrue.value, callPred.value, decimal)
  }

  /**
    Which vectors an external metric uses: the call-site pair whenever a y_pred is passed,
    the stored pair otherwise; a y_true passed alone is ignored.
  */
  lemma ExternalSources(
    callTrue: Option<seq<nat>>, callPred: Option<seq<nat>>, callDecimal: Option<nat>,
    ownTrue: Option<seq<nat>>, ownPred: Option<seq<nat>>, ownDecimal: nat)
    ensures var r := ResolveExternal(callTrue, callPred, callDecimal, ownTrue, ownPred, ownDecimal);
      (r == Err(ValueError(ExternalMissing)) <==>
        (callPred.Some? && callTrue.None?) || (callPred.None? && (ownPred.None? || ownTrue.None?))) &&
      (callPred.Some? && callTrue.Some? ==>
        r == EncodeExternal(callTrue.value, callPred.value, ResolveDecimal(callDecimal, ownDecimal))) &&
      (callPred.None? && ownPred.Some? && ownTrue.Some? ==>
        r == EncodeExternal(ownTrue.value, ownPred.value, ResolveDecimal(callDecimal, ownDecimal)))
  {
  }

  /** get_processed_internal_data, on values: a call-site y_pred wins over the stored one. */
  function ResolveInternal(callPred: Option<seq<nat>>, callDecimal: Option<nat>, ownPred: Option<seq<nat>>, ownDecimal: nat)
    : (r: Result<InternalData>)
    ensures r.Err? <==> callPred.None? && ownPred.None?
    ensures r.Err? ==> r.error == ValueError(InternalMissing)
    ensures r.Ok? ==> r.value.yPred == (if callPred.Some? then callPred.value else ownPred.value)
    ensures r.Ok? ==> r.value.decimal == ResolveDecimal(callDecimal, ownDecimal)
  {
    var decimal := ResolveDecimal(callDecimal, ownDecimal);
    if callPred.None? then
      if ownPred.None? then Err(ValueError(InternalMissing))
      else Ok(InternalData(ownPred.value, decimal))
    else Ok(InternalData(callPred.value, decimal))
  }

  /** check_X, on values: a call-site matrix wins over the stored one. */
  function ResolveFeatures(call: Option<seq<seq<real>>>, own: Option<seq<seq<real>>>): (r: Result<seq<seq<real>>>)
    ensures r.Err? <==> call.None? && own.None?
    ensures r.Err? ==> r.error == ValueError(FeaturesMissing)
    ensures r.Ok? ==> r.value == (if call.Some? then call.value else own.value)
  {
    if call.None? then
      if own.None? then Err(ValueError(FeaturesMissing)) else Ok(own.value)
    else Ok(call.value)
  }

  /** Whether a metric is minimised or maximised. */
  datatype Kind = Min | Max

  /** One row of the table of supported metrics. */
  datatype MetricInfo = MetricInfo(kind: Kind, range: string, best: string)

  /** The supported metric codes. */
  const Support: map<string, MetricInfo> := map[
      "BHI" := MetricInfo(Min, "[0, +inf)", "0"),
      "XBI" := MetricInfo(Min, "[0, +inf)", "0"),
      "DBI" := MetricInfo(Min, "[0, +inf)", "0"),
      "BRI" := MetricInfo(Min, "(-inf, +inf)", "no best"),
      "KDI" := MetricInfo(Min, "(-inf, +inf)", "no best"),
      "DRI" := MetricInfo(Max, "[0, +inf)", "no best"),
      "DI" := MetricInfo(Max, "[0, +inf)", "no best"),
      "CHI" := MetricInfo(Max, "[0, +inf)", "no best"),
      "LDRI" := MetricInfo(Max, "(-inf, +inf)", "no best"),
      "LSRI" := MetricInfo(Max, "(-inf, +inf)", "no best"),
      "SI" := MetricInfo(Max, "[-1, +1]", "1"),
      "SSEI" := MetricInfo(Min, "[0, +inf)", "0"),
      "DHI" := MetricInfo(Min, "[0, +inf)", "0"),
      "BI" := MetricInfo(Min, "[0, +inf)", "0"),
      "RSI" := MetricInfo(Max, "(-inf, +1]", "1"),
      "DBCVI" := MetricInfo(Min, "[0, 1]", "0"),
      "HI" := MetricInfo(Min, "[0, +inf)", "0"),
      "MIS" := MetricInfo(Max, "[0, +inf)", "no best"),
      "NMIS" := MetricInfo(Max, "[0, 1]", "1"),
      "RaS" := MetricInfo(Max, "[0, 1]", "1"),
      "FMS" := MetricInfo(Max, "[0, 1]", "1"),
      "HS" := MetricInfo(Max, "[0, 1]", "1"),
      "CS" := MetricInfo(Max, "[0, 1]", "1"),
      "VMS" := MetricInfo(Max, "[0, 1]", "1"),
      "PrS" := MetricInfo(Max, "[0, 1]", "1"),
      "ReS" := MetricInfo(Max, "[0, 1]", "1"),
      "FmS" := MetricInfo(Max, "[0, 1]", "1"),
      "CDS" := MetricInfo(Max, "[0, 1]", "1"),
      "HGS" := MetricInfo(Max, "[-1, 1]", "1"),
      "JS" := MetricInfo(Max, "[0, 1]", "1"),
      "KS" := MetricInfo(Max, "[0, 1]", "1"),
      "MNS" := MetricInfo(Max, "(-inf, +inf)", "no best"),
      "PhS" := MetricInfo(Max, "(-inf, +inf)", "no best"),
      "RTS" := MetricInfo(Max, "[0, 1]", "1"),
      "RRS" := MetricInfo(Max, "[0, 1]", "1"),
      "SS1S" := MetricInfo(Max, "[0, 1]", "1"),
      "SS2S" := MetricInfo(Max, "[0, 1]", "1"),
      "PuS" := MetricInfo(Max, "[0, 1]", "1"),
      "ES" := MetricInfo(Min, "[0, 1]", "0"),
      "TS" := MetricInfo(Max, "[-1, +1]", "1")
    ]

  /** What get_support answers: the whole table, or one row. */
  datatype SupportAnswer = Whole(table: map<string, MetricInfo>) | Entry(info: MetricInfo)

  /** get_support without its printing: "all" gives the table, a known code its row. */
  function GetSupport(name: string): (r: Result<SupportAnswer>)
    ensures name == "all" ==> r == Ok(Whole(Support))
    ensures name != "all" && name in Support ==> r == Ok(Entry(Support[name]))
    ensures name != "all" && name !in Support ==>
      r == Err(ValueError("ClusteringMetric doesn't support metric named: " + name))
  {
    if name == "all" then Ok(Whole(Support))
    else if name !in Support then Err(ValueError("ClusteringMetric doesn't support metric named: " + name))
    else Ok(Entry(Support[name]))
  }

  /** "all" is not itself a metric code, so it always selects the whole table. */
  lemma AllIsNotACode()
    ensures "all" !in Support
  {
  }

  /** The rows of tau and purity advertise the ranges proved for them in this model. */
  lemma TauAndPurityRows()
    ensures GetSupport("TS") == Ok(Entry(MetricInfo(Max, "[-1, +1]", "1")))
    ensures GetSupport("PuS") == Ok(Entry(MetricInfo(Max, "[0, 1]", "1")))
  {
  }

  /** The distinct labels of a vector (`np.unique`). */
  function Labels(y: seq<nat>): set<nat> {
    set i | 0 <= i < |y| :: y[i]
  }

  /** The number of clusters in a label vector. */
  function ClusterCount(y: seq<nat>): nat {
    |Labels(y)|
  }

  /** One cluster exactly when the vector is non-empty and every label equals the first. */
  lemma OneCluster(y: seq<nat>)
    ensures ClusterCount(y) == 1 <==> |y| > 0 && forall i :: 0 <= i < |y| ==> y[i] == y[0]
  {
    if |y| > 0 && forall i :: 0 <= i < |y| ==> y[i] == y[0] {
      assert Labels(y) == {y[0]};
    }
    if ClusterCount(y) == 1 {
      forall i | 0 <= i < |y| ensures y[i] == y[0] {
        SingletonMembers(Labels(y), y[i], y[0]);
      }
    }
  }

  lemma SingletonMembers(s: set<nat>, a: nat, b: nat)
    requires |s| == 1 && a in s && b in s
    ensures a == b
  {
    if a != b {
      assert {a, b} <= s;
      assert |{a, b}| == 2;
      SubsetSize({a, b}, s);
    }
  }

  lemma SubsetSize(t: set<nat>, s: set<nat>)
    requires t <= s
    ensures |t| <= |s|
  {
    assert s == t + (s - t);
  }

  /** What a single-cluster guard decides: return this result now, or go on with the metric. */
  datatype Guard = Stop(result: Result<Float>) | Proceed

  /**
    The guard of hubert_gamma_score, phi_score and log_ss_ratio_index: with one predicted
    cluster, raise the metric's message or return its fallback value.
  */
  function SingleClusterGuard(y: seq<nat>, raiseError: bool, message: string, fallback: Float): (g: Guard)
    ensures g.Proceed? <==> ClusterCount(y) != 1
    ensures g.Stop? ==> g.result == (if raiseError then Err(ValueError(message)) else Ok(fallback))
  {
    if ClusterCount(y) != 1 then Proceed
    else if raiseError then Stop(Err(ValueError(message)))
    else Stop(Ok(fallback))
  }

  const HubertMessage := "The Hubert Gamma score is undefined when y_pred has only 1 cluster."
  const PhiMessage := "The Phi score is undefined when y_pred has only 1 cluster."
  const LogSsMessage := "The Log SS Ratio Index is undefined when y_pred has only 1 cluster."

  /** The clustering evaluator and its evaluation context. */
  class ClusteringMetric {
    var yTrue: Option<seq<nat>>
    var yPred: Option<seq<nat>>
    var x: Option<seq<seq<real>>>
    var decimal: nat
    var raiseError: bool
    var biggestValue: Float
    var smallestValue: Float
    var le: Option<Encoding>

    /** The sentinels default to +inf and -inf; no encoder exists yet. */
    constructor (yTrue: Option<seq<nat>> := None, yPred: Option<seq<nat>> := None,
                 x: Option<seq<seq<real>>> := None, decimal: nat := 5, raiseError: bool := false,
                 biggestValue: Option<Float> := None, smallestValue: Option<Float> := None)
      ensures this.yTrue == yTrue && this.yPred == yPred && this.x == x
      ensures this.decimal == decimal && this.raiseError == raiseError
      ensures this.biggestValue == (if biggestValue.None? then PosInf else biggestValue.value)
      ensures this.smallestValue == (if smallestValue.None? then NegInf else smallestValue.value)
      ensures le.None?
    {
      this.yTrue := yTrue;
      this.yPred := yPred;
      this.x := x;
      this.decimal := decimal;
      this.raiseError := raiseError;
      this.biggestValue := if biggestValue.None? then PosInf else biggestValue.value;
      this.smallestValue := if smallestValue.None? then NegInf else smallestValue.value;
      le := None;
    }

    /** Every field but the encoder is as it was. */
    twostate predicate ContextUnchanged()
      reads this
    {
      yTrue == old(yTrue) && yPred == old(yPred) && x == old(x) && decimal == old(decimal) &&
      raiseError == old(raiseError) && biggestValue == old(biggestValue) && smallestValue == old(smallestValue)
    }

    /** get_processed_external_data: resolve the inputs; a successful resolution replaces the encoder. */
    method GetProcessedExternalData(callTrue: Option<seq<nat>>, callPred: Option<seq<nat>>, callDecimal: Option<nat>)
      returns (r: Result<ExternalData>)
      modifies this
      ensures r == ResolveExternal(callTrue, callPred, callDecimal, yTrue, yPred, decimal)
      ensures r.Ok? ==> le == Some(External(r.value.yTrue, r.value.yPred))
      ensures r.Err? ==> le == old(le)
      ensures ContextUnchanged()
    {
      r := ResolveExternal(callTrue, callPred, callDecimal, yTrue, yPred, decimal);
      if r.Ok? {
        le := Some(External(r.value.yTrue, r.value.yPred));
      }
    }

    /** get_processed_internal_data: resolve y_pred; a successful resolution replaces the encoder. */
    method GetProcessedInternalData(callPred: Option<seq<nat>>, callDecimal: Option<nat>)
      returns (r: Result<InternalData>)
      modifies this
      ensures r == ResolveInternal(callPred, callDecimal, yPred, decimal)
      ensures r.Ok? ==> le == Some(Internal(r.value.yPred))
      ensures r.Err? ==> le == old(le)
      ensures ContextUnchanged()
    {
      r := ResolveInternal(callPred, callDecimal, yPred, decimal);
      if r.Ok? {
        le := Some(Internal(r.value.yPred));
      }
    }

    /** check_X. */
    method CheckX(call: Option<seq<seq<real>>>) returns (r: Result<seq<seq<real>>>)
      ensures r == ResolveFeatures(call, x)
    {
      r := ResolveFeatures(call, x);
    }

    /** rand_score: resolution, then the pair-counting loops. */
    method RandScore(callTrue: Option<seq<nat>>, callPred: Option<seq<nat>>, callDecimal: Option<nat>)
      returns (r: Result<real>)
      modifies this
      ensures var d := ResolveExternal(callTrue, callPred, callDecimal, old(yTrue), old(yPred), old(decimal));
        r == if d.Err? then Err(d.error) else RandIndex(d.value.yTrue, d.value.yPred)
      ensures var d := ResolveExternal(callTrue, callPred, callDecimal, old(yTrue), old(yPred), old(decimal));
        (d.Ok? ==> le == Some(External(d.value.yTrue, d.value.yPred))) && (d.Err? ==> le == old(le))
      ensures ContextUnchanged()
    {
      var d := GetProcessedExternalData(callTrue, callPred, callDecimal);
      if d.Err? {
        return Err(d.error);
      }
      r := PairCountingMetrics.RandScore(d.value.yTrue, d.value.yPred);
    }

    /** tau_score: resolution, then the concordance loops. */
    method TauScore(callTrue: Option<seq<nat>>, callPred: Option<seq<nat>>, callDecimal: Option<nat>)
      returns (r: Result<real>)
      modifies this
      ensures var d := ResolveExternal(callTrue, callPred, callDecimal, old(yTrue), old(yPred), old(decimal));
        r == if d.Err? then Err(d.error) else TauIndex(d.value.yTrue, d.value.yPred)
      ensures var d := ResolveExternal(callTrue, callPred, callDecimal, old(yTrue), old(yPred), old(decimal));
        (d.Ok? ==> le == Some(External(d.value.yTrue, d.value.yPred))) && (d.Err? ==> le == old(le))
      ensures ContextUnchanged()
    {
      var d := GetProcessedExternalData(callTrue, callPred, callDecimal);
      if d.Err? {
        return Err(d.error);
      }
      r := PairCountingMetrics.TauScore(d.value.yTrue, d.value.yPred);
    }

    /** purity_score: resolution, then the per-class majority loop; labels arrive encoded. */
    method PurityScore(callTrue: Option<seq<nat>>, callPred: Option<seq<nat>>, callDecimal: Option<nat>)
      returns (r: Result<real>)
      requires callTrue.Some? ==> Purity.Encoded(callTrue.value)
      requires yTrue.Some? ==> Purity.Encoded(yTrue.value)
      modifies this
      ensures var d := ResolveExternal(callTrue, callPred, callDecimal, old(yTrue), old(yPred), old(decimal));
        r == if d.Err? then Err(d.error) else Purity.PurityValue(d.value.yTrue, d.value.yPred)
      ensures var d := ResolveExternal(callTrue, callPred, callDecimal, old(yTrue), old(yPred), old(decimal));
        (d.Ok? ==> le == Some(External(d.value.yTrue, d.value.yPred))) && (d.Err? ==> le == old(le))
      ensures ContextUnchanged()
    {
      var d := GetProcessedExternalData(callTrue, callPred, callDecimal);
      if d.Err? {
        return Err(d.error);
      }
      r := Purity.Purity(d.value.yTrue, d.value.yPred);
    }

    /**
      baker_hubert_gamma_index: the matrix first, then y_pred. The pair loops read y_pred only
      when the matrix has two rows or more; then a label vector shorter than the matrix fails
      on the first missing index.
    */
    method BakerHubertGammaIndex(callX: Option<seq<seq<real>>>, callPred: Option<seq<nat>>, callDecimal: Option<nat>)
      returns (r: Result<real>)
      requires callX.Some? ==> BakerHubert.Matrix(callX.value)
      requires x.Some? ==> BakerHubert.Matrix(x.value)
      modifies this
      ensures var f := ResolveFeatures(callX, old(x));
        var d := ResolveInternal(callPred, callDecimal, old(yPred), old(decimal));
        r == if f.Err? then Err(f.error)
             else if d.Err? then Err(d.error)
             else if 2 <= |f.value| && |d.value.yPred| < |f.value| then Err(IndexError)
             else Ok(BakerHubert.GammaOf(f.value, d.value.yPred))
      ensures r.Ok? ==> -1.0 <= r.value <= 1.0
      ensures var f := ResolveFeatures(callX, old(x));
        var d := ResolveInternal(callPred, callDecimal, old(yPred), old(decimal));
        (f.Ok? && d.Ok? ==> le == Some(Internal(d.value.yPred))) && (f.Err? || d.Err? ==> le == old(le))
      ensures ContextUnchanged()
    {
      var f := CheckX(callX);
      if f.Err? {
        return Err(f.error);
      }
      var d := GetProcessedInternalData(callPred, callDecimal);
      if d.Err? {
        return Err(d.error);
      }
      if 2 <= |f.value| && |d.value.yPred| < |f.value| {
        return Err(IndexError);
      }
      var g := BakerHubert.BakerHubertGamma(f.value, d.value.yPred);
      r := Ok(g);
    }

    /**
      The part of hubert_gamma_score this model covers: resolution and the single-cluster
      guard, whose fallback is the literal -1.0 rather than the smallest-value sentinel.
    */
    method HubertGammaGuard(callTrue: Option<seq<nat>>, callPred: Option<seq<nat>>, callDecimal: Option<nat>)
      returns (g: Guard)
      modifies this
      ensures var d := ResolveExternal(callTrue, callPred, callDecimal, old(yTrue), old(yPred), old(decimal));
        g == if d.Err? then Stop(Err(d.error))
             else SingleClusterGuard(d.value.yPred, old(raiseError), HubertMessage, Num(-1.0))
      ensures var d := ResolveExternal(callTrue, callPred, callDecimal, old(yTrue), old(yPred), old(decimal));
        (d.Ok? ==> le == Some(External(d.value.yTrue, d.value.yPred))) && (d.Err? ==> le == old(le))
      ensures ContextUnchanged()
    {
      var d := GetProcessedExternalData(callTrue, callPred, callDecimal);
      if d.Err? {
        return Stop(Err(d.error));
      }
      g := SingleClusterGuard(d.value.yPred, raiseError, HubertMessage, Num(-1.0));
    }

    /** The part of phi_score this model covers: resolution and the single-cluster guard. */
    method PhiGuard(callTrue: Option<seq<nat>>, callPred: Option<seq<nat>>, callDecimal: Option<nat>)
      returns (g: Guard)
      modifies this
      ensures var d := ResolveExternal(callTrue, callPred, callDecimal, old(yTrue), old(yPred), old(decimal));
        g == if d.Err? then Stop(Err(d.error))
             else SingleClusterGuard(d.value.yPred, old(raiseError), PhiMessage, old(smallestValue))
      ensures var d := ResolveExternal(callTrue, callPred, callDecimal, old(yTrue), old(yPred), old(decimal));
        (d.Ok? ==> le == Some(External(d.value.yTrue, d.value.yPred))) && (d.Err? ==> le == old(le))
      ensures ContextUnchanged()
    {
      var d := GetProcessedExternalData(callTrue, callPred, callDecimal);
      if d.Err? {
        return Stop(Err(d.error));
      }
      g := SingleClusterGuard(d.value.yPred, raiseError, PhiMessage, smallestValue);
    }

    /** The part of log_ss_ratio_index this model covers: the matrix, y_pred and the single-cluster guard. */
    method LogSsRatioGuard(callX: Option<seq<seq<real>>>, callPred: Option<seq<nat>>, callDecimal: Option<nat>)
      returns (g: Guard)
      modifies this
      ensures var f := ResolveFeatures(callX, old(x));
        var d := ResolveInternal(callPred, callDecimal, old(yPred), old(decimal));
        g == if f.Err? then Stop(Err(f.error))
             else if d.Err? then Stop(Err(d.error))
             else SingleClusterGuard(d.value.yPred, old(raiseError), LogSsMessage, old(smallestValue))
      ensures var f := ResolveFeatures(callX, old(x));
        var d := ResolveInternal(callPred, callDecimal, old(yPred), old(decimal));
        (f.Ok? && d.Ok? ==> le == Some(Internal(d.value.yPred))) && (f.Err? || d.Err? ==> le == old(le))
      ensures ContextUnchanged()
    {
      var f := CheckX(callX);
      if f.Err? {
        return Stop(Err(f.error));
      }
      var d := GetProcessedInternalData(callPred, callDecimal);
      if d.Err? {
        return Stop(Err(d.error));
      }
      g := SingleClusterGuard(d.value.yPred, raiseError, LogSsMessage, smallestValue);
    }
  }

  /**
    With one predicted cluster and no raising, Hubert's gamma returns -1.0 whatever the
    smallest-value sentinel is, while phi and the log SS ratio return the sentinel; with
    raising, all three fail with their own message; with two clusters or more, all go on.
  */
  lemma SingleClusterFallbacks(y: seq<nat>, raiseError: bool, smallest: Float)
    requires |y| > 0 && forall i :: 0 <= i < |y| ==> y[i] == y[0]
    ensures !raiseError ==> SingleClusterGuard(y, raiseError, HubertMessage, Num(-1.0)) == Stop(Ok(Num(-1.0)))
    ensures !raiseError ==> SingleClusterGuard(y, raiseError, PhiMessage, smallest) == Stop(Ok(smallest))
    ensures !raiseError ==> SingleClusterGuard(y, raiseError, LogSsMessage, smallest) == Stop(Ok(smallest))
    ensures raiseError ==> SingleClusterGuard(y, raiseError, HubertMessage, Num(-1.0)) == Stop(Err(ValueError(HubertMessage)))
    ensures raiseError ==> SingleClusterGuard(y, raiseError, PhiMessage, smallest) == Stop(Err(ValueError(PhiMessage)))
    ensures raiseError ==> SingleClusterGuard(y, raiseError, LogSsMessage, smallest) == Stop(Err(ValueError(LogSsMessage)))
  {
    OneCluster(y);
  }

  /** Two distinct labels always let the metric go on. */
  lemma TwoClustersProceed(y: seq<nat>, i: nat, j: nat, raiseError: bool, message: string, fallback: Float)
    requires i < |y| && j < |y| && y[i] != y[j]
    ensures SingleClusterGuard(y, raiseError, message, fallback) == Proceed
  {
    OneCluster(y);
  }
}
