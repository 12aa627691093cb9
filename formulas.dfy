/**
  The external clustering scores of `ClusteringMetric` (permetrics/clustering.py) that are
  a single expression on the pair-agreement table `(yy, yn, ny, nn)`, and the combination
  step of `v_measure_score`. The table's counts are integers held by numpy, so a zero
  denominator yields nan or inf instead of raising; every quotient below is numpy's.
*/
module PairFormulas {

  import opened Sums
  import opened Floats
  import opened PairCounting
  import opened PairCountingMetrics

  /** A score that is nan or a finite value in [0, 1]: never infinite. */
  predicate UnitOrNaN(x: Float) {
    x.NaN? || (x.Num? && 0.0 <= x.val <= 1.0)
  }

  /** A ratio of a part to its whole is nan for an empty whole and in [0, 1] otherwise. */
  lemma PartOfWhole(a: real, b: real)
    requires 0.0 <= a <= b
    ensures UnitOrNaN(Quot(a, b))
    ensures Quot(a, b).NaN? <==> b == 0.0
  {
    if b != 0.0 {
      RatioInUnit(a, b);
    }
  }

  /** precision_score: yy / (yy + ny); nan when no pair is together in the prediction. */
  function Precision(c: Contingency): (r: Float)
    ensures UnitOrNaN(r) && (r.NaN? <==> c.yy + c.ny == 0)
    ensures r.Num? ==> (r.val == 0.0 <==> c.yy == 0)
  {
    PartOfWhole(c.yy as real, (c.yy + c.ny) as real);
    Quot(c.yy as real, (c.yy + c.ny) as real)
  }

  /** recall_score: yy / (yy + yn); nan when no pair is together in the truth. */
  function Recall(c: Contingency): (r: Float)
    ensures UnitOrNaN(r) && (r.NaN? <==> c.yy + c.yn == 0)
    ensures r.Num? ==> (r.val == 0.0 <==> c.yy == 0)
  {
    PartOfWhole(c.yy as real, (c.yy + c.yn) as real);
    Quot(c.yy as real, (c.yy + c.yn) as real)
  }

  /** f_measure_score: 2 * p * r / (p + r) on the two float ratios, evaluated left to right. */
  function FMeasure(c: Contingency): (f: Float)
    ensures f.NaN? <==> c.yy == 0
    ensures f.Num? ==> f.val > 0.0
  {
    var p, r := Precision(c), Recall(c);
    assert c.yy > 0 ==> p.Num? && r.Num? && p.val > 0.0 && r.val > 0.0;
    assert c.yy == 0 ==> (p.NaN? || p == Num(0.0)) && (r.NaN? || r == Num(0.0));
    HarmonicOfFloats(p, r);
    Div(Mul(Mul(Num(2.0), p), r), Add(p, r))
  }

  /** czekanowski_dice_score: 2 * yy / (2 * yy + yn + ny); nan when no pair is together anywhere. */
  function CzekanowskiDice(c: Contingency): (r: Float)
    ensures UnitOrNaN(r) && (r.NaN? <==> c.yy + c.yn + c.ny == 0)
  {
    PartOfWhole((2 * c.yy) as real, (2 * c.yy + c.yn + c.ny) as real);
    Quot((2 * c.yy) as real, (2 * c.yy + c.yn + c.ny) as real)
  }

  /** jaccard_score: yy / (yy + yn + ny); nan when no pair is together anywhere. */
  function Jaccard(c: Contingency): (r: Float)
    ensures UnitOrNaN(r) && (r.NaN? <==> c.yy + c.yn + c.ny == 0)
  {
    PartOfWhole(c.yy as real, (c.yy + c.yn + c.ny) as real);
    Quot(c.yy as real, (c.yy + c.yn + c.ny) as real)
  }

  /** kulczynski_score: 0.5 * (yy / (yy + ny) + yy / (yy + yn)); nan when either ratio is. */
  function Kulczynski(c: Contingency): (r: Float)
    ensures UnitOrNaN(r) && (r.NaN? <==> c.yy + c.ny == 0 || c.yy + c.yn == 0)
  {
    Mul(Num(0.5), Add(Precision(c), Recall(c)))
  }

  /** rogers_tanimoto_score: (yy + nn) / (yy + nn + 2 * (yn + ny)); nan only without pairs. */
  function RogersTanimoto(c: Contingency): (r: Float)
    ensures UnitOrNaN(r) && (r.NaN? <==> Total(c) == 0)
  {
    PartOfWhole((c.yy + c.nn) as real, (c.yy + c.nn + 2 * (c.yn + c.ny)) as real);
    Quot((c.yy + c.nn) as real, (c.yy + c.nn + 2 * (c.yn + c.ny)) as real)
  }

  /** russel_rao_score: yy over the sum of the four cells; nan only without pairs. */
  function RusselRao(c: Contingency): (r: Float)
    ensures UnitOrNaN(r) && (r.NaN? <==> Total(c) == 0)
  {
    PartOfWhole(c.yy as real, Total(c) as real);
    Quot(c.yy as real, Total(c) as real)
  }

  /** sokal_sneath1_score: yy / (yy + 2 * (yn + ny)); nan when no pair is together anywhere. */
  function SokalSneath1(c: Contingency): (r: Float)
    ensures UnitOrNaN(r) && (r.NaN? <==> c.yy + c.yn + c.ny == 0)
  {
    PartOfWhole(c.yy as real, (c.yy + 2 * (c.yn + c.ny)) as real);
    Quot(c.yy as real, (c.yy + 2 * (c.yn + c.ny)) as real)
  }

  /** sokal_sneath2_score: (yy + nn) / (yy + nn + 0.5 * (yn + ny)), a float denominator; nan only without pairs. */
  function SokalSneath2(c: Contingency): (r: Float)
    ensures UnitOrNaN(r) && (r.NaN? <==> Total(c) == 0)
  {
    PartOfWhole((c.yy + c.nn) as real, (c.yy + c.nn) as real + 0.5 * (c.yn + c.ny) as real);
    Quot((c.yy + c.nn) as real, (c.yy + c.nn) as real + 0.5 * (c.yn + c.ny) as real)
  }

  /** Precision with the roles of truth and prediction exchanged is recall, and conversely. */
  lemma PrecisionRecallExchange(yt: seq<nat>, yp: seq<nat>)
    requires |yt| == |yp|
    ensures Precision(ContingencyOf(yp, yt)) == Recall(ContingencyOf(yt, yp))
    ensures Recall(ContingencyOf(yp, yt)) == Precision(ContingencyOf(yt, yp))
  {
    ContingencySwap(yt, yp);
  }

  lemma ClearedRatios(a: real, u: real, v: real, p: real, r: real, d: real)
    requires p * (a + u) == a && r * (a + v) == a && d == (a + u) * (a + v)
    ensures 2.0 * p * r * d == (2.0 * a) * a
    ensures (p + r) * d == (2.0 * a + u + v) * a
  {
    assert 2.0 * p * r * d == 2.0 * (p * (a + u)) * (r * (a + v));
    assert (p + r) * d == (p * (a + u)) * (a + v) + (r * (a + v)) * (a + u);
  }

  /** The harmonic mean of a/(a+u) and a/(a+v) is 2a/(2a+u+v). */
  lemma HarmonicOfRatios(a: real, u: real, v: real, p: real, r: real)
    requires a > 0.0 && u >= 0.0 && v >= 0.0 && p == a / (a + u) && r == a / (a + v)
    ensures p > 0.0 && r > 0.0
    ensures 2.0 * p * r / (p + r) == 2.0 * a / (2.0 * a + u + v)
  {
    PositiveRatio(a, a + u);
    PositiveRatio(a, a + v);
    HarmonicOfCleared(a, u, v, p, r);
  }

  lemma HarmonicOfCleared(a: real, u: real, v: real, p: real, r: real)
    requires a > 0.0 && u >= 0.0 && v >= 0.0 && p > 0.0 && r > 0.0
    requires p * (a + u) == a && r * (a + v) == a
    ensures 2.0 * p * r / (p + r) == 2.0 * a / (2.0 * a + u + v)
  {
    var d := (a + u) * (a + v);
    PositiveProduct(a + u, a + v);
    ClearedRatios(a, u, v, p, r, d);
    SameQuotient(2.0 * p * r, p + r, d, 2.0 * a, 2.0 * a + u + v, a);
  }

  /**
    F-measure is the harmonic mean of precision and recall, so it agrees with
    Czekanowski-Dice whenever some pair is together in both partitions; with none, F-measure
    is nan (a 0/0 or a nan operand), and the two agree only when Czekanowski-Dice is nan too.
  */
  lemma FMeasureIsCzekanowskiDice(c: Contingency)
    ensures c.yy > 0 ==> FMeasure(c).Num? && FMeasure(c) == CzekanowskiDice(c)
    ensures c.yy == 0 ==> FMeasure(c).NaN?
    ensures FMeasure(c) == CzekanowskiDice(c) <==> c.yy > 0 || c.yn + c.ny == 0
  {
    if c.yy > 0 {
      FMeasureWithSharedPairs(c);
    } else {
      FMeasureWithoutSharedPairs(c);
    }
  }

  lemma FMeasureWithSharedPairs(c: Contingency)
    requires c.yy > 0
    ensures FMeasure(c).Num? && FMeasure(c) == CzekanowskiDice(c)
  {
    var a, u, v := c.yy as real, c.ny as real, c.yn as real;
    assert (c.yy + c.ny) as real == a + u && (c.yy + c.yn) as real == a + v;
    HarmonicOfRatios(a, u, v, Precision(c).val, Recall(c).val);
    assert (2 * c.yy) as real == 2.0 * a && (2 * c.yy + c.yn + c.ny) as real == 2.0 * a + u + v;
  }

  lemma FMeasureWithoutSharedPairs(c: Contingency)
    requires c.yy == 0
    ensures FMeasure(c).NaN?
  {
    var p, r := Precision(c), Recall(c);
    assert p.NaN? || p == Num(0.0);
    assert r.NaN? || r == Num(0.0);
  }

  /** The arithmetic mean of two positive values is at least their harmonic mean. */
  lemma MeanAtLeastHarmonic(p: real, r: real)
    requires p > 0.0 && r > 0.0
    ensures 2.0 * p * r / (p + r) <= 0.5 * (p + r)
  {
    var s := p + r;
    var h := 2.0 * p * r / s;
    QuotTimes(2.0 * p * r, s);
    assert s * s - 4.0 * p * r == (p - r) * (p - r);
    SquareNonNeg(p - r, (p - r) * (p - r));
    assert h * s <= (0.5 * s) * s;
    CancelPositive(h, 0.5 * s, s);
  }

  /** Kulczynski, the arithmetic mean of precision and recall, is never below the F-measure, their harmonic mean. */
  lemma KulczynskiAtLeastFMeasure(c: Contingency)
    requires c.yy > 0
    ensures FMeasure(c).Num? && Kulczynski(c).Num? && FMeasure(c).val <= Kulczynski(c).val
  {
    PositiveRatio(c.yy as real, (c.yy + c.ny) as real);
    PositiveRatio(c.yy as real, (c.yy + c.yn) as real);
    FloatMeansOrdered(Precision(c), Recall(c));
  }

  /** For two positive ratios the float harmonic mean is a number no larger than the float arithmetic mean. */
  lemma FloatMeansOrdered(p: Float, r: Float)
    requires p.Num? && r.Num? && p.val > 0.0 && r.val > 0.0
    ensures Div(Mul(Mul(Num(2.0), p), r), Add(p, r)).Num? && Mul(Num(0.5), Add(p, r)).Num?
    ensures Div(Mul(Mul(Num(2.0), p), r), Add(p, r)).val <= Mul(Num(0.5), Add(p, r)).val
  {
    var a, b := p.val, r.val;
    assert Add(p, r) == Num(a + b);
    assert Mul(Mul(Num(2.0), p), r) == Num(2.0 * a * b);
    assert Div(Num(2.0 * a * b), Num(a + b)) == Num(2.0 * a * b / (a + b));
    MeanAtLeastHarmonic(a, b);
  }

  /** Among defined values: Russel-Rao, and Sokal-Sneath 1, <= Jaccard <= Czekanowski-Dice. */
  lemma OverlapScoresOrdered(c: Contingency)
    requires c.yy > 0
    ensures RusselRao(c).Num? && Jaccard(c).Num? && SokalSneath1(c).Num? && CzekanowskiDice(c).Num?
    ensures RusselRao(c).val <= Jaccard(c).val
    ensures SokalSneath1(c).val <= Jaccard(c).val <= CzekanowskiDice(c).val
  {
    var a := c.yy as real;
    var whole := (c.yy + c.yn + c.ny) as real;
    SmallerForLargerWhole(a, whole, Total(c) as real);
    SmallerForLargerWhole(a, whole, (c.yy + 2 * (c.yn + c.ny)) as real);
    DivCancel(a, whole, 2.0);
    assert (2 * c.yy) as real == a * 2.0;
    SmallerForLargerWhole(a * 2.0, (2 * c.yy + c.yn + c.ny) as real, whole * 2.0);
  }

  /**
    Rogers-Tanimoto weighs the disagreeing pairs double and Sokal-Sneath 2 by half, so for
    two samples or more they bracket the Rand index.
  */
  lemma RandBracketed(yt: seq<nat>, yp: seq<nat>)
    requires |yt| == |yp| && |yt| >= 2
    ensures RandIndex(yt, yp).Ok?
    ensures var c := ContingencyOf(yt, yp);
      RogersTanimoto(c).Num? && SokalSneath2(c).Num? &&
      RogersTanimoto(c).val <= RandIndex(yt, yp).value <= SokalSneath2(c).val
  {
    var c := ContingencyOf(yt, yp);
    PairCountIsTotal(yt, yp);
    var a := (c.yy + c.nn) as real;
    var t := Total(c) as real;
    assert t > 0.0;
    SmallerForLargerWhole(a, t, (c.yy + c.nn + 2 * (c.yn + c.ny)) as real);
    SmallerForLargerWhole(a, a + 0.5 * (c.yn + c.ny) as real, t);
  }

  /** On a table without disagreeing pairs every ratio score with a non-empty denominator is 1. */
  lemma AgreementScores(c: Contingency)
    requires c.yn == 0 && c.ny == 0
    ensures c.yy + c.nn > 0 ==> RogersTanimoto(c) == Num(1.0) && SokalSneath2(c) == Num(1.0)
    ensures c.yy > 0 ==>
      Precision(c) == Num(1.0) && Recall(c) == Num(1.0) && FMeasure(c) == Num(1.0) &&
      CzekanowskiDice(c) == Num(1.0) && Jaccard(c) == Num(1.0) && Kulczynski(c) == Num(1.0) &&
      SokalSneath1(c) == Num(1.0)
  {
    if c.yy + c.nn > 0 {
      var t := (c.yy + c.nn) as real;
      assert t / t == 1.0;
      assert (c.yy + c.nn + 2 * (c.yn + c.ny)) as real == t;
      assert t + 0.5 * (c.yn + c.ny) as real == t;
    }
    if c.yy > 0 {
      ScoresOnAgreement(c);
    }
  }

  lemma ScoresOnAgreement(c: Contingency)
    requires c.yn == 0 && c.ny == 0 && c.yy > 0
    ensures Precision(c) == Num(1.0) && Recall(c) == Num(1.0) && Jaccard(c) == Num(1.0)
    ensures SokalSneath1(c) == Num(1.0) && CzekanowskiDice(c) == Num(1.0)
    ensures Kulczynski(c) == Num(1.0) && FMeasure(c) == Num(1.0)
  {
    var a := c.yy as real;
    assert a / a == 1.0;
    assert (c.yy + c.ny) as real == a && (c.yy + c.yn) as real == a;
    assert (c.yy + c.yn + c.ny) as real == a && (c.yy + 2 * (c.yn + c.ny)) as real == a;
    var b := (2 * c.yy) as real;
    assert b / b == 1.0;
    assert (2 * c.yy + c.yn + c.ny) as real == b;
    FMeasureWithSharedPairs(c);
  }

  /** A partition compared with itself: every ratio score is 1 once some pair shares a label. */
  lemma PerfectAgreement(y: seq<nat>)
    requires |y| >= 2
    ensures RogersTanimoto(ContingencyOf(y, y)) == Num(1.0)
    ensures SokalSneath2(ContingencyOf(y, y)) == Num(1.0)
    ensures ContingencyOf(y, y).yy > 0 ==>
      var c := ContingencyOf(y, y);
      Precision(c) == Num(1.0) && Recall(c) == Num(1.0) && FMeasure(c) == Num(1.0) &&
      CzekanowskiDice(c) == Num(1.0) && Jaccard(c) == Num(1.0) && Kulczynski(c) == Num(1.0) &&
      SokalSneath1(c) == Num(1.0)
  {
    ContingencyIdentical(y);
    PairCountIsTotal(y, y);
    AgreementScores(ContingencyOf(y, y));
  }

  /** v_measure_score's combination of homogeneity h and completeness c: 0 when h + c is 0. */
  function VMeasure(h: real, c: real): (v: real)
    ensures h >= 0.0 && c >= 0.0 ==> v >= 0.0
    ensures h == c ==> v == h
  {
    if h + c == 0.0 then 0.0
    else
      HarmonicOfEqual(h, c);
      assert h >= 0.0 && c >= 0.0 ==> h * c >= 0.0 by { if h >= 0.0 && c >= 0.0 { NonNegProduct(h, c); } }
      2.0 * (h * c) / (h + c)
  }

  /** f_measure_score's expression on two ratios: nan from a nan ratio or from 0 / 0, positive from positive ratios. */
  lemma HarmonicOfFloats(p: Float, r: Float)
    requires UnitOrNaN(p) && UnitOrNaN(r)
    ensures p.NaN? || r.NaN? ==> Div(Mul(Mul(Num(2.0), p), r), Add(p, r)).NaN?
    ensures p == Num(0.0) && r == Num(0.0) ==> Div(Mul(Mul(Num(2.0), p), r), Add(p, r)).NaN?
    ensures p.Num? && r.Num? && p.val > 0.0 && r.val > 0.0 ==>
      Div(Mul(Mul(Num(2.0), p), r), Add(p, r)).Num? && Div(Mul(Mul(Num(2.0), p), r), Add(p, r)).val > 0.0
  {
    if p.Num? && r.Num? {
      assert Mul(Mul(Num(2.0), p), r) == Num(2.0 * p.val * r.val);
      assert Add(p, r) == Num(p.val + r.val);
      if p.val > 0.0 && r.val > 0.0 {
        HarmonicOfPositives(p.val, r.val);
      }
    }
  }

  lemma HarmonicOfPositives(a: real, b: real)
    requires a > 0.0 && b > 0.0
    ensures 2.0 * a * b / (a + b) > 0.0
  {
    PositiveProduct(2.0 * a, b);
  }

  /** The harmonic mean of a score with itself is that score. */
  lemma HarmonicOfEqual(h: real, c: real)
    requires h + c != 0.0
    ensures h == c ==> 2.0 * (h * c) / (h + c) == h
  {
    if h == c {
      assert 2.0 * (h * h) == h * (h + h);
    }
  }

  lemma VMeasureSymmetric(h: real, c: real)
    ensures VMeasure(h, c) == VMeasure(c, h)
  {
    assert h * c == c * h;
  }

  /** For non-negative scores the V-measure lies between the smaller and the larger one. */
  lemma VMeasureBetween(h: real, c: real)
    requires h >= 0.0 && c >= 0.0
    ensures (if h <= c then h else c) <= VMeasure(h, c) <= (if h <= c then c else h)
  {
    if h + c != 0.0 {
      assert VMeasure(h, c) == 2.0 * (h * c) / (h + c);
      if h <= c {
        HarmonicBetween(h, c);
      } else {
        HarmonicBetween(c, h);
        assert h * c == c * h;
      }
    }
  }

  lemma HarmonicBetween(lo: real, hi: real)
    requires 0.0 <= lo <= hi && lo + hi > 0.0
    ensures lo <= 2.0 * (lo * hi) / (lo + hi) <= hi
  {
    var s := lo + hi;
    assert lo * s <= 2.0 * (lo * hi) by {
      assert lo * lo <= lo * hi;
    }
    assert 2.0 * (lo * hi) <= hi * s by {
      assert lo * hi <= hi * hi;
    }
    assert lo * s / s == lo && hi * s / s == hi;
  }

  /** Homogeneity and completeness in [0, 1] give a V-measure in [0, 1], equal to both when they agree. */
  lemma VMeasureBounds(h: real, c: real)
    requires 0.0 <= h <= 1.0 && 0.0 <= c <= 1.0
    ensures 0.0 <= VMeasure(h, c) <= 1.0
    ensures h == c ==> VMeasure(h, c) == h
    ensures VMeasure(h, c) <= 0.5 * (h + c)
  {
    VMeasureBetween(h, c);
    if h + c != 0.0 {
      if h == c {
        assert 2.0 * (h * h) == h * (h + h);
        assert h * (h + h) / (h + h) == h;
      }
      MeanAtLeastHarmonic2(h, c);
    }
  }

  lemma MeanAtLeastHarmonic2(h: real, c: real)
    requires h >= 0.0 && c >= 0.0 && h + c > 0.0
    ensures 2.0 * (h * c) / (h + c) <= 0.5 * (h + c)
  {
    if h > 0.0 && c > 0.0 {
      MeanAtLeastHarmonic(h, c);
      assert 2.0 * (h * c) == 2.0 * h * c;
    } else {
      assert h * c == 0.0;
    }
  }
}
