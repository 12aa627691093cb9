/**
  The external clustering metrics of `ClusteringMetric` (permetrics/clustering.py) that
  count pairs in nested `i < j` loops: `rand_score`, `fowlkes_mallows_score` and
  `tau_score`. Each method's counters are tied, pass by pass, to the pair-agreement table
  of the pairs enumerated so far; the scores are specified on the table of all pairs.
  Labels are the encoded vectors that `get_processed_external_data` hands over.
*/
module PairCountingMetrics {

  import opened Wrappers
  import opened Sums
  import opened PairCounting

  /** `n_samples * (n_samples - 1) / 2`, a Python true division. */
  function PairCount(n: nat): real {
    (n * (n - 1)) as real / 2.0
  }

  /** rand_score: the share of pairs on which both partitions agree; the division by 0.0 raises for n < 2. */
  function RandIndex(yt: seq<nat>, yp: seq<nat>): (r: Result<real>)
    requires |yt| == |yp|
    ensures r.Ok? <==> |yt| >= 2
    ensures r.Err? ==> r.error == ZeroDivisionError
  {
    PairCountIsTotal(yt, yp);
    var c := ContingencyOf(yt, yp);
    if PairCount(|yt|) == 0.0 then Err(ZeroDivisionError)
    else Ok((c.yy + c.nn) as real / PairCount(|yt|))
  }

  /** rand_score's loops: a counts the pairs together in both partitions, b those apart in both. */
  method RandScore(yt: seq<nat>, yp: seq<nat>) returns (r: Result<real>)
    requires |yt| == |yp|
    ensures r == RandIndex(yt, yp)
  {
    var n := |yt|;
    var a: nat, b: nat := 0, 0;
    var i := 0;
    while i < n
      invariant 0 <= i <= n
      invariant a == TableBefore(yt, yp, i).yy && b == TableBefore(yt, yp, i).nn
    {
      a, b := RandRow(yt, yp, i, a, b);
      assert TableBefore(yt, yp, i + 1) == AddCells(TableBefore(yt, yp, i), RowTable(yt, yp, i, n));
      i := i + 1;
    }
    var nPairs := PairCount(n);
    if nPairs == 0.0 {
      return Err(ZeroDivisionError);
    }
    return Ok((a + b) as real / nPairs);
  }

  /** The inner loop of rand_score for sample i: count the later pairs together in both, or apart in both. */
  method RandRow(yt: seq<nat>, yp: seq<nat>, i: nat, a0: nat, b0: nat) returns (a: nat, b: nat)
    requires |yt| == |yp| && i < |yt|
    ensures a == a0 + RowTable(yt, yp, i, |yt|).yy && b == b0 + RowTable(yt, yp, i, |yt|).nn
  {
    var n := |yt|;
    a, b := a0, b0;
    var j := i + 1;
    while j < n
      invariant i < j <= n
      invariant a == a0 + RowTable(yt, yp, i, j).yy && b == b0 + RowTable(yt, yp, i, j).nn
    {
      var sameTrue := yt[i] == yt[j];
      var samePred := yp[i] == yp[j];
      if sameTrue && samePred {
        a := a + 1;
      } else if !sameTrue && !samePred {
        b := b + 1;
      }
      j := j + 1;
    }
  }

  /** Halving n(n-1) = 2t gives t, which is zero exactly for n < 2. */
  lemma HalfProduct(n: nat, t: nat)
    requires 2 * t == n * (n - 1)
    ensures PairCount(n) == t as real
    ensures t == 0 <==> n < 2
  {
    var m := n * (n - 1);
    assert m as real == 2.0 * t as real;
    if n >= 2 {
      assert m >= n;
    }
  }

  /** The pair count as a real is the table total, and it is zero exactly for fewer than two samples. */
  lemma PairCountIsTotal(yt: seq<nat>, yp: seq<nat>)
    requires |yt| == |yp|
    ensures PairCount(|yt|) == Total(ContingencyOf(yt, yp)) as real
    ensures Total(ContingencyOf(yt, yp)) == 0 <==> |yt| < 2
    ensures PairCount(|yt|) == 0.0 <==> |yt| < 2
  {
    ContingencyTotal(yt, yp);
    HalfProduct(|yt|, Total(ContingencyOf(yt, yp)));
  }

  /** The Rand index is defined for two samples or more and then lies in [0, 1]. */
  lemma RandBounds(yt: seq<nat>, yp: seq<nat>)
    requires |yt| == |yp|
    ensures RandIndex(yt, yp).Ok? <==> |yt| >= 2
    ensures RandIndex(yt, yp).Err? ==> RandIndex(yt, yp).error == ZeroDivisionError
    ensures RandIndex(yt, yp).Ok? ==> 0.0 <= RandIndex(yt, yp).value <= 1.0
  {
    PairCountIsTotal(yt, yp);
    var c := ContingencyOf(yt, yp);
    if |yt| >= 2 {
      RatioInUnit((c.yy + c.nn) as real, Total(c) as real);
    }
  }

  /** The Rand index does not depend on which vector is the truth. */
  lemma RandSymmetric(yt: seq<nat>, yp: seq<nat>)
    requires |yt| == |yp|
    ensures RandIndex(yt, yp) == RandIndex(yp, yt)
  {
    ContingencySwap(yt, yp);
  }

  /** A partition compared with itself scores 1. */
  lemma RandOneOnIdentical(y: seq<nat>)
    requires |y| >= 2
    ensures RandIndex(y, y) == Ok(1.0)
  {
    ContingencyIdentical(y);
    PairCountIsTotal(y, y);
    var t := Total(ContingencyOf(y, y)) as real;
    assert t != 0.0 && t / t == 1.0;
  }

  /** fowlkes_mallows_score's loops: TP = yy, FN = yn (together in truth only), FP = ny (in prediction only). */
  method FowlkesMallowsCounts(yt: seq<nat>, yp: seq<nat>) returns (tp: nat, fp: nat, fn: nat)
    requires |yt| == |yp|
    ensures tp == ContingencyOf(yt, yp).yy
    ensures fp == ContingencyOf(yt, yp).ny
    ensures fn == ContingencyOf(yt, yp).yn
  {
    var n := |yt|;
    tp, fp, fn := 0, 0, 0;
    var i := 0;
    while i < n
      invariant 0 <= i <= n
      invariant tp == TableBefore(yt, yp, i).yy && fp == TableBefore(yt, yp, i).ny
      invariant fn == TableBefore(yt, yp, i).yn
    {
      tp, fp, fn := FowlkesMallowsRow(yt, yp, i, tp, fp, fn);
      assert TableBefore(yt, yp, i + 1) == AddCells(TableBefore(yt, yp, i), RowTable(yt, yp, i, n));
      i := i + 1;
    }
  }

  /** The inner loop of fowlkes_mallows_score for sample i: sort each later pair into TP, FN or FP. */
  method FowlkesMallowsRow(yt: seq<nat>, yp: seq<nat>, i: nat, tp0: nat, fp0: nat, fn0: nat)
    returns (tp: nat, fp: nat, fn: nat)
    requires |yt| == |yp| && i < |yt|
    ensures tp == tp0 + RowTable(yt, yp, i, |yt|).yy && fp == fp0 + RowTable(yt, yp, i, |yt|).ny
    ensures fn == fn0 + RowTable(yt, yp, i, |yt|).yn
  {
    var n := |yt|;
    tp, fp, fn := tp0, fp0, fn0;
    var j := i + 1;
    while j < n
      invariant i < j <= n
      invariant tp == tp0 + RowTable(yt, yp, i, j).yy && fp == fp0 + RowTable(yt, yp, i, j).ny
      invariant fn == fn0 + RowTable(yt, yp, i, j).yn
    {
      var a := yt[i] == yt[j];
      var b := yp[i] == yp[j];
      if a && b {
        tp := tp + 1;
      } else if a && !b {
        fn := fn + 1;
      } else if !a && b {
        fp := fp + 1;
      }
      j := j + 1;
    }
  }

  /** TP, FP and FN count disjoint kinds of pair, so together they are at most n(n-1)/2. */
  lemma FowlkesMallowsCountsBound(yt: seq<nat>, yp: seq<nat>)
    requires |yt| == |yp|
    ensures var c := ContingencyOf(yt, yp);
      2 * (c.yy + c.ny + c.yn) <= |yt| * (|yt| - 1)
  {
    ContingencyTotal(yt, yp);
  }

  /**
    Exchanging truth and prediction exchanges FP and FN and keeps TP, so the product
    (TP + FP) * (TP + FN) under the square root is unchanged.
  */
  lemma FowlkesMallowsSwap(yt: seq<nat>, yp: seq<nat>)
    requires |yt| == |yp|
    ensures var c, d := ContingencyOf(yt, yp), ContingencyOf(yp, yt);
      d.yy == c.yy && d.ny == c.yn && d.yn == c.ny &&
      (d.yy + d.ny) * (d.yy + d.yn) == (c.yy + c.ny) * (c.yy + c.yn)
  {
    ContingencySwap(yt, yp);
  }

  /** tau_score: (concordant - discordant) / (concordant + discordant), an int division. */
  function TauIndex(yt: seq<nat>, yp: seq<nat>): (r: Result<real>)
    requires |yt| == |yp|
    ensures r.Ok? <==> |yt| >= 2
    ensures r.Err? ==> r.error == ZeroDivisionError
  {
    var c := ContingencyOf(yt, yp);
    var concordant, discordant := c.yy + c.nn, c.yn + c.ny;
    TauPairsAreAllPairs(yt, yp);
    HalfProduct(|yt|, concordant + discordant);
    if concordant + discordant == 0 then Err(ZeroDivisionError)
    else Ok((concordant - discordant) as real / (concordant + discordant) as real)
  }

  /** tau_score's loops: a pair is concordant when both partitions agree on it, discordant otherwise. */
  method TauScore(yt: seq<nat>, yp: seq<nat>) returns (r: Result<real>)
    requires |yt| == |yp|
    ensures r == TauIndex(yt, yp)
  {
    var n := |yt|;
    var concordant: nat, discordant: nat := 0, 0;
    var i := 0;
    while i < n
      invariant 0 <= i <= n
      invariant concordant == TableBefore(yt, yp, i).yy + TableBefore(yt, yp, i).nn
      invariant discordant == TableBefore(yt, yp, i).yn + TableBefore(yt, yp, i).ny
    {
      concordant, discordant := TauRow(yt, yp, i, concordant, discordant);
      assert TableBefore(yt, yp, i + 1) == AddCells(TableBefore(yt, yp, i), RowTable(yt, yp, i, n));
      i := i + 1;
    }
    if concordant + discordant == 0 {
      return Err(ZeroDivisionError);
    }
    return Ok((concordant - discordant) as real / (concordant + discordant) as real);
  }

  /** The inner loop of tau_score for sample i: classify (i, j) for every later j. */
  method TauRow(yt: seq<nat>, yp: seq<nat>, i: nat, c0: nat, d0: nat) returns (concordant: nat, discordant: nat)
    requires |yt| == |yp| && i < |yt|
    ensures concordant == c0 + RowTable(yt, yp, i, |yt|).yy + RowTable(yt, yp, i, |yt|).nn
    ensures discordant == d0 + RowTable(yt, yp, i, |yt|).yn + RowTable(yt, yp, i, |yt|).ny
  {
    var n := |yt|;
    concordant, discordant := c0, d0;
    var j := i + 1;
    while j < n
      invariant i < j <= n
      invariant concordant == c0 + RowTable(yt, yp, i, j).yy + RowTable(yt, yp, i, j).nn
      invariant discordant == d0 + RowTable(yt, yp, i, j).yn + RowTable(yt, yp, i, j).ny
    {
      if yt[i] == yt[j] && yp[i] == yp[j] {
        concordant := concordant + 1;
      } else if yt[i] != yt[j] && yp[i] != yp[j] {
        concordant := concordant + 1;
      } else {
        discordant := discordant + 1;
      }
      j := j + 1;
    }
  }

  /** Concordant and discordant pairs together are all n(n-1)/2 pairs. */
  lemma TauPairsAreAllPairs(yt: seq<nat>, yp: seq<nat>)
    requires |yt| == |yp|
    ensures var c := ContingencyOf(yt, yp);
      2 * ((c.yy + c.nn) + (c.yn + c.ny)) == |yt| * (|yt| - 1)
  {
    ContingencyTotal(yt, yp);
  }

  /** Tau is the Rand index rescaled to [-1, 1]: tau = 2 * rand - 1, with the same failure for n < 2. */
  lemma TauFromRand(yt: seq<nat>, yp: seq<nat>)
    requires |yt| == |yp|
    ensures RandIndex(yt, yp).Err? <==> TauIndex(yt, yp).Err?
    ensures TauIndex(yt, yp).Err? ==> TauIndex(yt, yp) == RandIndex(yt, yp)
    ensures TauIndex(yt, yp).Ok? ==> TauIndex(yt, yp).value == 2.0 * RandIndex(yt, yp).value - 1.0
  {
    PairCountIsTotal(yt, yp);
    var c := ContingencyOf(yt, yp);
    var t := Total(c) as real;
    if t != 0.0 {
      var con := (c.yy + c.nn) as real;
      assert (c.yy + c.nn - (c.yn + c.ny)) as real == 2.0 * con - t;
      AffineQuotient(con, t);
    }
  }

  lemma AffineQuotient(a: real, t: real)
    requires t != 0.0
    ensures (2.0 * a - t) / t == 2.0 * (a / t) - 1.0
  {
    assert (2.0 * a - t) / t == 2.0 * a / t - t / t;
    assert 2.0 * a / t == 2.0 * (a / t);
    assert t / t == 1.0;
  }

  /** Tau lies in [-1, 1] and is 1 for a partition compared with itself. */
  lemma TauBounds(yt: seq<nat>, yp: seq<nat>)
    requires |yt| == |yp|
    ensures TauIndex(yt, yp).Ok? ==> -1.0 <= TauIndex(yt, yp).value <= 1.0
    ensures |yt| >= 2 && yt == yp ==> TauIndex(yt, yp) == Ok(1.0)
  {
    TauFromRand(yt, yp);
    RandBounds(yt, yp);
    if |yt| >= 2 && yt == yp {
      RandOneOnIdentical(yt);
    }
  }
}
