/**
  The two Gini coefficients of `RegressionMetric` (permetrics/regression.py), both loops
  over the samples: `gini_coefficient` walks the samples in decreasing order of prediction
  and accumulates loss and population shares; `gini_coefficient_wiki` sums the absolute
  differences of every ordered pair of the concatenated vectors.
*/
module Gini {

  import opened Sums
  import opened Floats
  import opened Wrappers
  import opened Regression

  // ---------------------------------------------------------------------------------
  // gini_coefficient
  // ---------------------------------------------------------------------------------

  /**
    `order` is what `np.argsort(-p)` returns: a permutation of the indices of `p` listing
    them by decreasing prediction (the order among equal predictions is not specified).
  */
  predicate SortsDescending(p: seq<real>, order: seq<nat>) {
    IsPermutation(order, |p|) &&
    forall i, j :: 0 <= i < j < |order| ==> p[order[i]] >= p[order[j]]
  }

  /** Each index below n appears exactly once in `order`. */
  predicate IsPermutation(order: seq<nat>, n: nat) {
    |order| == n &&
    (forall i :: 0 <= i < n ==> order[i] < n) &&
    (forall i, j :: 0 <= i < j < n ==> order[i] != order[j]) &&
    (forall k :: 0 <= k < n ==> k in order)
  }

  /** `t` read in the order `order`. */
  function Permuted(t: seq<real>, order: seq<nat>): (r: seq<real>)
    requires forall i :: 0 <= i < |order| ==> order[i] < |t|
    ensures |r| == |order|
    ensures forall i :: 0 <= i < |order| ==> r[i] == t[order[i]]
  {
    seq(|order|, i requires 0 <= i < |order| => t[order[i]])
  }

  /** The population share after k steps of `population_delta`. */
  function PopulationShare(delta: real, k: nat): real {
    if k == 0 then 0.0 else PopulationShare(delta, k - 1) + delta
  }

  /** The loss share after k steps: the first k losses in `order`, each over the total. */
  function LossShare(t: seq<real>, order: seq<nat>, total: real, k: nat): (r: Float)
    requires k <= |order|
    requires forall i :: 0 <= i < |order| ==> order[i] < |t|
    ensures total != 0.0 ==> r.Num?
  {
    if k == 0 then Num(0.0)
    else Add(LossShare(t, order, total, k - 1), Quot(t[order[k - 1]], total))
  }

  /** The score after k steps: the running sum of loss share minus population share. */
  function GiniScore(t: seq<real>, order: seq<nat>, total: real, delta: real, k: nat): (r: Float)
    requires k <= |order|
    requires forall i :: 0 <= i < |order| ==> order[i] < |t|
    ensures total != 0.0 ==> r.Num?
  {
    if k == 0 then Num(0.0)
    else Add(GiniScore(t, order, total, delta, k - 1),
             Sub(LossShare(t, order, total, k), Num(PopulationShare(delta, k))))
  }

  /** The value gini_coefficient returns for non-empty input: the final score over n. */
  function GiniValue(t: seq<real>, order: seq<nat>): (r: Float)
    requires |t| > 0 && |order| == |t|
    requires forall i :: 0 <= i < |order| ==> order[i] < |t|
    ensures Sum(t) != 0.0 ==> r.Num?
  {
    var n := |t| as real;
    Div(GiniScore(t, order, Sum(t), 1.0 / n, |t|), Num(n))
  }

  /**
    gini_coefficient. `1.0 / len(y_true)` is a Python float division, which raises
    ZeroDivisionError on empty input; the divisions by the total loss are numpy ones.
  */
  method GiniCoefficient(t: seq<real>, p: seq<real>, order: seq<nat>) returns (r: Result<Float>)
    requires |t| == |p|
    requires SortsDescending(p, order)
    ensures |t| == 0 ==> r == Err(ZeroDivisionError)
    ensures |t| > 0 ==> r == Ok(GiniValue(t, order))
  {
    if |t| == 0 {
      return Err(ZeroDivisionError);
    }
    var n := |t|;
    var delta := 1.0 / n as real;
    var accPopulation := 0.0;
    var accLoss := Num(0.0);
    var score := Num(0.0);
    var total := Sum(t);
    var i := 0;
    while i < n
      invariant 0 <= i <= n
      invariant accPopulation == PopulationShare(delta, i)
      invariant accLoss == LossShare(t, order, total, i)
      invariant score == GiniScore(t, order, total, delta, i)
    {
      accLoss := Add(accLoss, Quot(t[order[i]], total));
      accPopulation := accPopulation + delta;
      score := Add(score, Sub(accLoss, Num(accPopulation)));
      i := i + 1;
    }
    return Ok(Div(score, Num(n as real)));
  }

  lemma {:induction false} PopulationShareIsMultiple(delta: real, k: nat)
    ensures PopulationShare(delta, k) == k as real * delta
  {
    if k > 0 {
      PopulationShareIsMultiple(delta, k - 1);
    }
  }

  /** After n steps of 1/n the accumulated population share is exactly 1. */
  lemma PopulationShareEndsAtOne(n: nat)
    requires n > 0
    ensures PopulationShare(1.0 / n as real, n) == 1.0
  {
    PopulationShareIsMultiple(1.0 / n as real, n);
  }

  /** With a non-zero total the loss share after k steps is the finite share of the first k losses. */
  lemma {:induction false} LossShareFinite(t: seq<real>, order: seq<nat>, k: nat)
    requires k <= |order|
    requires forall i :: 0 <= i < |order| ==> order[i] < |t|
    requires Sum(t) != 0.0
    ensures LossShare(t, order, Sum(t), k) == Num(Sum(Permuted(t, order)[..k]) / Sum(t))
  {
    if k > 0 {
      LossShareFinite(t, order, k - 1);
      var s := Permuted(t, order);
      assert s[..k][..k - 1] == s[..k - 1];
      DivAdd(Sum(s[..k - 1]), s[k - 1], Sum(t));
    }
  }

  /** Division distributes over a sum. */
  lemma DivAdd(a: real, b: real, c: real)
    requires c != 0.0
    ensures a / c + b / c == (a + b) / c
  {
  }

  /** With a non-zero total the accumulated loss share also ends at exactly 1. */
  lemma LossShareEndsAtOne(t: seq<real>, p: seq<real>, order: seq<nat>)
    requires |t| == |p| && SortsDescending(p, order)
    requires Sum(t) != 0.0
    ensures LossShare(t, order, Sum(t), |t|) == Num(1.0)
  {
    var s := Permuted(t, order);
    assert Sum(s[..|t|]) == Sum(t) by {
      assert s[..|t|] == s;
      SumPermuted(t, order);
    }
    LossShareFinite(t, order, |t|);
    SelfQuotient(Sum(t));
  }

  /** Dropping the position of the largest index from a permutation leaves a permutation of the rest. */
  lemma DropLargest(order: seq<nat>, n: nat, j: nat)
    requires n > 0 && IsPermutation(order, n)
    requires j < n && order[j] == n - 1
    ensures IsPermutation(order[..j] + order[j + 1..], n - 1)
  {
    var rest := order[..j] + order[j + 1..];
    assert forall i :: 0 <= i < n - 1 ==> rest[i] == (if i < j then order[i] else order[i + 1]);
    forall k | 0 <= k < n - 1 ensures k in rest {
      assert k in order;
      var m :| 0 <= m < n && order[m] == k;
      if m < j {
        assert rest[m] == k;
      } else {
        assert rest[m - 1] == k;
      }
    }
  }

  /** Reading a vector in any permuted order keeps its sum. */
  lemma {:induction false} SumPermuted(t: seq<real>, order: seq<nat>)
    requires IsPermutation(order, |t|)
    ensures Sum(Permuted(t, order)) == Sum(t)
  {
    var n := |t|;
    if n > 0 {
      assert n - 1 in order;
      var j :| 0 <= j < n && order[j] == n - 1;
      var rest := order[..j] + order[j + 1..];
      DropLargest(order, n, j);
      SumPermuted(t[..n - 1], rest);
      PermutedSumStep(t, order, j);
    }
  }

  /** Reading t through a permutation sums to reading t without its last element, plus that element. */
  lemma PermutedSumStep(t: seq<real>, order: seq<nat>, j: nat)
    requires |t| > 0 && IsPermutation(order, |t|)
    requires j < |t| && order[j] == |t| - 1
    requires IsPermutation(order[..j] + order[j + 1..], |t| - 1)
    ensures Sum(Permuted(t, order)) == Sum(Permuted(t[..|t| - 1], order[..j] + order[j + 1..])) + t[|t| - 1]
  {
    var s := Permuted(t, order);
    PermutedSplit(t, order, j);
    SumWithout(s[..j], t[|t| - 1], s[j + 1..]);
  }

  /** Reading t through a permutation, the last element of t sits at the position j of n - 1. */
  lemma PermutedSplit(t: seq<real>, order: seq<nat>, j: nat)
    requires |t| > 0 && IsPermutation(order, |t|)
    requires j < |t| && order[j] == |t| - 1
    requires IsPermutation(order[..j] + order[j + 1..], |t| - 1)
    ensures var s := Permuted(t, order);
      s == s[..j] + [t[|t| - 1]] + s[j + 1..] &&
      Permuted(t[..|t| - 1], order[..j] + order[j + 1..]) == s[..j] + s[j + 1..]
  {
    var s := Permuted(t, order);
    var rest := order[..j] + order[j + 1..];
    var u := Permuted(t[..|t| - 1], rest);
    assert s == s[..j] + [t[|t| - 1]] + s[j + 1..];
    forall i | 0 <= i < |u| ensures u[i] == (s[..j] + s[j + 1..])[i] {
      if i < j {
        assert rest[i] == order[i];
      } else {
        assert rest[i] == order[i + 1];
      }
    }
  }

  // ---------------------------------------------------------------------------------
  // What gini_coefficient's value is: bounds, a counterexample, the normalised coefficient
  // ---------------------------------------------------------------------------------

  /** The score after k steps on the reals, for a total that is not zero. */
  function RealScore(s: seq<real>, total: real, delta: real, k: nat): real
    requires k <= |s| && total != 0.0
  {
    if k == 0 then 0.0
    else RealScore(s, total, delta, k - 1) + (Sum(s[..k]) / total - PopulationShare(delta, k))
  }

  /** With a non-zero total every step of the score is a finite number. */
  lemma {:induction false} GiniScoreFinite(t: seq<real>, order: seq<nat>, delta: real, k: nat)
    requires k <= |order|
    requires forall i :: 0 <= i < |order| ==> order[i] < |t|
    requires Sum(t) != 0.0
    ensures GiniScore(t, order, Sum(t), delta, k) == Num(RealScore(Permuted(t, order), Sum(t), delta, k))
  {
    if k > 0 {
      GiniScoreFinite(t, order, delta, k - 1);
      LossShareFinite(t, order, k);
    }
  }

  /** With a non-zero total the coefficient is the finite score over n. */
  lemma GiniValueFinite(t: seq<real>, order: seq<nat>)
    requires |t| > 0 && |order| == |t|
    requires forall i :: 0 <= i < |order| ==> order[i] < |t|
    requires Sum(t) != 0.0
    ensures GiniValue(t, order)
         == Num(RealScore(Permuted(t, order), Sum(t), 1.0 / |t| as real, |t|) / |t| as real)
  {
    var n := |t| as real;
    var g := GiniScore(t, order, Sum(t), 1.0 / n, |t|);
    var score := RealScore(Permuted(t, order), Sum(t), 1.0 / n, |t|);
    assert GiniValue(t, order) == Div(g, Num(n));
    assert g == Num(score) by {
      GiniScoreFinite(t, order, 1.0 / n, |t|);
    }
    DivFinite(score, n);
  }

  /** numpy division of two finite numbers by a non-zero divisor is the real quotient. */
  lemma DivFinite(a: real, b: real)
    requires b != 0.0
    ensures Div(Num(a), Num(b)) == Num(a / b)
  {
  }

  /**
    The coefficient leaves the documented range [0, 1]: y_true = [0, 1] with y_pred = [1, 0]
    walks the samples in the order [0, 1] and returns -0.25.
  */
  lemma GiniBelowDocumentedRange(t: seq<real>, p: seq<real>, order: seq<nat>)
    requires t == [0.0, 1.0] && p == [1.0, 0.0] && order == [0, 1]
    ensures SortsDescending(p, order)
    ensures GiniValue(t, order) == Num(-0.25)
  {
    assert SortsDescending(p, order) by {
      assert 0 in order && 1 in order;
    }
    assert Sum(t) == 1.0 by {
      assert t[..1][..0] == [];
      assert Sum(t[..1]) == Sum(t[..1][..0]) + t[0];
      assert Sum(t) == Sum(t[..1]) + t[1];
    }
    var s := Permuted(t, order);
    assert s == t;
    var score := RealScore(s, 1.0, 0.5, 2);
    assert score == -0.5 by {
      assert Sum(s[..1]) == 0.0 by {
        assert s[..1] == [0.0];
        assert s[..1][..0] == [];
      }
      assert s[..2] == s;
      assert PopulationShare(0.5, 2) == 1.0;
      assert RealScore(s, 1.0, 0.5, 1) == -0.5;
    }
    assert GiniValue(t, order) == Num(score / 2.0) by {
      GiniValueFinite(t, order);
      assert 1.0 / |t| as real == 0.5;
    }
  }

  /** The population shares of the first k steps, added up. */
  function PopulationTotal(delta: real, k: nat): real {
    if k == 0 then 0.0 else PopulationTotal(delta, k - 1) + PopulationShare(delta, k)
  }

  /** The population shares add up to delta * k(k+1)/2. */
  lemma {:induction false} PopulationTotalClosed(delta: real, k: nat)
    ensures 2.0 * PopulationTotal(delta, k) == delta * (k * (k + 1)) as real
  {
    if k > 0 {
      PopulationTotalClosed(delta, k - 1);
      PopulationShareIsMultiple(delta, k);
      assert (k * (k + 1)) as real == ((k - 1) * k) as real + 2.0 * k as real;
      TriangleStep(delta, ((k - 1) * k) as real, k as real, (k * (k + 1)) as real);
    }
  }

  /** delta * prev + 2 * (k * delta) is delta * next when next = prev + 2k. */
  lemma TriangleStep(delta: real, prev: real, k: real, next: real)
    requires next == prev + 2.0 * k
    ensures delta * prev + 2.0 * (k * delta) == delta * next
  {
  }

  /**
    For non-negative values every loss share lies in [0, 1], so after k steps the score lies
    between minus the population total and k minus it.
  */
  lemma {:induction false} RealScoreBounds(s: seq<real>, delta: real, k: nat)
    requires k <= |s|
    requires forall i :: 0 <= i < |s| ==> s[i] >= 0.0
    requires Sum(s) > 0.0
    ensures -PopulationTotal(delta, k) <= RealScore(s, Sum(s), delta, k)
    ensures RealScore(s, Sum(s), delta, k) <= k as real - PopulationTotal(delta, k)
  {
    if k > 0 {
      RealScoreBounds(s, delta, k - 1);
      PrefixWithinSum(s, k);
      RatioInUnit(Sum(s[..k]), Sum(s));
    }
  }

  /** The arithmetic that turns the bound on twice the score into the bound on the coefficient. */
  lemma HalfShareBound(score: real, n: real)
    requires n >= 1.0
    requires -(n - 1.0) <= 2.0 * score <= n - 1.0
    ensures -(n - 1.0) / (2.0 * n) <= score / n <= (n - 1.0) / (2.0 * n)
    ensures score / n < 0.5
  {
    var q := score / n;
    assert q * n == score;
    assert (n - 1.0) / (2.0 * n) * (2.0 * n) == n - 1.0;
    assert -(n - 1.0) / (2.0 * n) * (2.0 * n) == -(n - 1.0);
    assert 2.0 * q * n == 2.0 * score;
    CancelPositive(q, (n - 1.0) / (2.0 * n), 2.0 * n);
    CancelPositive(-(n - 1.0) / (2.0 * n), q, 2.0 * n);
    assert (n - 1.0) / (2.0 * n) < 0.5 by {
      CancelPositive((n - 1.0) / (2.0 * n), 0.5, 2.0 * n);
    }
  }

  /**
    For non-negative values with a positive total the score after all n steps lies within
    (n - 1) / 2 of 0: the last step adds nothing, as both shares have reached 1.
  */
  lemma FinalScoreBounds(s: seq<real>)
    requires |s| > 0
    requires forall i :: 0 <= i < |s| ==> s[i] >= 0.0
    requires Sum(s) > 0.0
    ensures var n := |s|;
      -((n - 1) as real) <= 2.0 * RealScore(s, Sum(s), 1.0 / n as real, n) <= (n - 1) as real
  {
    var n := |s|;
    var delta := 1.0 / n as real;
    RealScoreBounds(s, delta, n - 1);
    LastStepAddsNothing(s);
    assert 2.0 * PopulationTotal(delta, n - 1) == (n - 1) as real by {
      PopulationTotalClosed(delta, n - 1);
      HalfOfTriangle(n);
    }
  }

  /** (1/n) * (n-1)n is n - 1. */
  lemma HalfOfTriangle(n: nat)
    requires n > 0
    ensures 1.0 / n as real * ((n - 1) * (n - 1 + 1)) as real == (n - 1) as real
  {
    assert ((n - 1) * (n - 1 + 1)) as real == (n - 1) as real * n as real;
  }

  /** The n-th step adds nothing to the score: both shares have reached exactly 1. */
  lemma LastStepAddsNothing(s: seq<real>)
    requires |s| > 0 && Sum(s) != 0.0
    ensures var n := |s|;
      RealScore(s, Sum(s), 1.0 / n as real, n) == RealScore(s, Sum(s), 1.0 / n as real, n - 1)
  {
    var n := |s|;
    var delta := 1.0 / n as real;
    assert Sum(s[..n]) / Sum(s) == 1.0 by {
      assert s[..n] == s;
      UnitQuotient(Sum(s[..n]), Sum(s));
    }
    assert PopulationShare(delta, n) == 1.0 by {
      PopulationShareEndsAtOne(n);
    }
  }

  lemma UnitQuotient(a: real, b: real)
    requires a == b && b != 0.0
    ensures a / b == 1.0
  {
  }

  /**
    For non-negative losses with a positive total the coefficient is finite and within
    (n - 1) / (2n) of 0 whatever the ranking: it never reaches 1/2, let alone the documented 1.
  */
  lemma GiniValueBounded(t: seq<real>, order: seq<nat>)
    requires |t| > 0 && IsPermutation(order, |t|)
    requires forall i :: 0 <= i < |t| ==> t[i] >= 0.0
    requires Sum(t) > 0.0
    ensures var n := |t| as real;
      Within(GiniValue(t, order), -(n - 1.0) / (2.0 * n), (n - 1.0) / (2.0 * n))
    ensures GiniValue(t, order).val < 0.5
  {
    var s := Permuted(t, order);
    SumPermuted(t, order);
    FinalScoreBounds(s);
    GiniValueFinite(t, order);
    HalfShareBound(RealScore(s, Sum(t), 1.0 / |t| as real, |t|), |t| as real);
  }

  /** Reading t through a permutation keeps its values, with their multiplicities. */
  lemma {:induction false} MultisetPermuted(t: seq<real>, order: seq<nat>)
    requires IsPermutation(order, |t|)
    ensures multiset(Permuted(t, order)) == multiset(t)
  {
    var n := |t|;
    if n > 0 {
      assert n - 1 in order;
      var j :| 0 <= j < n && order[j] == n - 1;
      var rest := order[..j] + order[j + 1..];
      DropLargest(order, n, j);
      var s := Permuted(t, order);
      var u := s[..j] + s[j + 1..];
      assert multiset(u) == multiset(t[..n - 1]) by {
        PermutedSplit(t, order, j);
        MultisetPermuted(t[..n - 1], rest);
      }
      assert multiset(s) == multiset(u) + multiset{t[n - 1]} by {
        PermutedSplit(t, order, j);
      }
      assert t == t[..n - 1] + [t[n - 1]];
    }
  }

  /** Larger loss shares at every step give a larger score. */
  lemma {:induction false} RealScoreMonotone(s: seq<real>, u: seq<real>, total: real, delta: real, k: nat)
    requires k <= |s| && k <= |u| && total > 0.0
    requires forall j :: 0 <= j <= k ==> Sum(s[..j]) <= Sum(u[..j])
    ensures RealScore(s, total, delta, k) <= RealScore(u, total, delta, k)
  {
    if k > 0 {
      RealScoreMonotone(s, u, total, delta, k - 1);
      DivMonotone(Sum(s[..k]), Sum(u[..k]), total);
    }
  }

  /**
    For non-negative losses with a positive total no ranking scores above the ranking by the
    losses themselves.
  */
  lemma GiniValueAtMostIdeal(t: seq<real>, order: seq<nat>, ideal: seq<nat>)
    requires |t| > 0 && IsPermutation(order, |t|) && SortsDescending(t, ideal)
    requires forall i :: 0 <= i < |t| ==> t[i] >= 0.0
    requires Sum(t) > 0.0
    ensures GiniValue(t, order).Num? && GiniValue(t, ideal).Num?
    ensures GiniValue(t, order).val <= GiniValue(t, ideal).val
  {
    var n := |t|;
    var delta := 1.0 / n as real;
    var s, u := Permuted(t, order), Permuted(t, ideal);
    GiniValueFinite(t, order);
    GiniValueFinite(t, ideal);
    assert multiset(s) == multiset(u) by {
      MultisetPermuted(t, order);
      MultisetPermuted(t, ideal);
    }
    assert Descending(u);
    forall j | 0 <= j <= n ensures Sum(s[..j]) <= Sum(u[..j]) {
      PrefixBelowDescending(s, u, j);
    }
    RealScoreMonotone(s, u, Sum(t), delta, n);
    DivMonotone(RealScore(s, Sum(t), delta, n), RealScore(u, Sum(t), delta, n), n as real);
  }

  /**
    The normalised coefficient: the coefficient of the ranking by prediction over the
    coefficient of the ranking by the losses themselves.
  */
  function NormalizedGini(t: seq<real>, order: seq<nat>, ideal: seq<nat>): Float
    requires |t| > 0 && |order| == |t| && |ideal| == |t|
    requires forall i :: 0 <= i < |t| ==> order[i] < |t| && ideal[i] < |t|
  {
    Div(GiniValue(t, order), GiniValue(t, ideal))
  }

  /**
    The normalised coefficient meets the documented best score: for non-negative losses whose
    ideal ranking scores above 0 it is never above 1, and that ranking scores exactly 1.
  */
  lemma NormalizedGiniAtMostOne(t: seq<real>, order: seq<nat>, ideal: seq<nat>)
    requires |t| > 0 && IsPermutation(order, |t|) && SortsDescending(t, ideal)
    requires forall i :: 0 <= i < |t| ==> t[i] >= 0.0
    requires Sum(t) > 0.0
    requires GiniValue(t, ideal).Num? && GiniValue(t, ideal).val > 0.0
    ensures NormalizedGini(t, order, ideal).Num? && NormalizedGini(t, order, ideal).val <= 1.0
    ensures NormalizedGini(t, ideal, ideal) == Num(1.0)
  {
    GiniValueAtMostIdeal(t, order, ideal);
    var g, gi := GiniValue(t, order).val, GiniValue(t, ideal).val;
    assert NormalizedGini(t, order, ideal) == Num(g / gi);
    assert NormalizedGini(t, ideal, ideal) == Num(gi / gi);
    DivMonotone(g, gi, gi);
    UnitQuotient(gi, gi);
  }

  // ---------------------------------------------------------------------------------
  // gini_coefficient_wiki
  // ---------------------------------------------------------------------------------

  /** `sum(|y[i] - y[j]| for j < m)`. */
  function RowAbsSum(y: seq<real>, i: nat, m: nat): real
    requires i < |y| && m <= |y|
  {
    if m == 0 then 0.0 else RowAbsSum(y, i, m - 1) + Abs(y[i] - y[m - 1])
  }

  /** `sum(|y[i] - y[j]| for i < k, j < len(y))`. */
  function PairAbsSum(y: seq<real>, k: nat): real
    requires k <= |y|
  {
    if k == 0 then 0.0 else PairAbsSum(y, k - 1) + RowAbsSum(y, k - 1, |y|)
  }

  /** The value gini_coefficient_wiki returns: the pair sum over `2 * len(y) ** 2 * mean(y)`. */
  function GiniWikiValue(y: seq<real>): Float {
    Div(Num(PairAbsSum(y, |y|)), Mul(Num(2.0 * (|y| * |y|) as real), Mean(y)))
  }

  /** gini_coefficient_wiki on `y = concatenate(t, p)`. */
  method GiniCoefficientWiki(t: seq<real>, p: seq<real>) returns (r: Float)
    requires |t| == |p|
    ensures r == GiniWikiValue(t + p)
  {
    var y := t + p;
    var n := |y|;
    var score := 0.0;
    var i := 0;
    while i < n
      invariant 0 <= i <= n
      invariant score == PairAbsSum(y, i)
    {
      var j := 0;
      while j < n
        invariant 0 <= j <= n
        invariant score == PairAbsSum(y, i) + RowAbsSum(y, i, j)
      {
        score := score + Abs(y[i] - y[j]);
        j := j + 1;
      }
      i := i + 1;
    }
    r := Div(Num(score), Mul(Num(2.0 * (n * n) as real), Mean(y)));
  }

  lemma {:induction false} RowAbsSumNonNeg(y: seq<real>, i: nat, m: nat)
    requires i < |y| && m <= |y|
    ensures RowAbsSum(y, i, m) >= 0.0
  {
    if m > 0 {
      RowAbsSumNonNeg(y, i, m - 1);
    }
  }

  /** The double-loop numerator is never negative. */
  lemma {:induction false} PairAbsSumNonNeg(y: seq<real>, k: nat)
    requires k <= |y|
    ensures PairAbsSum(y, k) >= 0.0
  {
    if k > 0 {
      PairAbsSumNonNeg(y, k - 1);
      RowAbsSumNonNeg(y, k - 1, |y|);
    }
  }

  lemma {:induction false} RowAbsSumEqual(y: seq<real>, i: nat, m: nat)
    requires i < |y| && m <= |y|
    requires forall j :: 0 <= j < |y| ==> y[j] == y[0]
    ensures RowAbsSum(y, i, m) == 0.0
  {
    if m > 0 {
      RowAbsSumEqual(y, i, m - 1);
    }
  }

  lemma {:induction false} PairAbsSumEqual(y: seq<real>, k: nat)
    requires k <= |y|
    requires forall j :: 0 <= j < |y| ==> y[j] == y[0]
    ensures PairAbsSum(y, k) == 0.0
  {
    if k > 0 {
      PairAbsSumEqual(y, k - 1);
      RowAbsSumEqual(y, k - 1, |y|);
    }
  }

  /** When every concatenated value is the same non-zero number, the wiki Gini is exactly 0. */
  lemma GiniWikiZeroOnEqualValues(t: seq<real>, p: seq<real>)
    requires |t| == |p| && |t| > 0
    requires forall j :: 0 <= j < |t + p| ==> (t + p)[j] == (t + p)[0]
    requires (t + p)[0] != 0.0
    ensures GiniWikiValue(t + p) == Num(0.0)
  {
    var y := t + p;
    PairAbsSumEqual(y, |y|);
    SumConstant(y, y[0]);
    var n := |y| as real;
    assert Sum(y) / n == y[0];
  }

  /** For non-negative values, one row of absolute differences is at most m * y[i] + sum(y[:m]). */
  lemma {:induction false} RowAbsSumBound(y: seq<real>, i: nat, m: nat)
    requires i < |y| && m <= |y|
    requires forall j :: 0 <= j < |y| ==> y[j] >= 0.0
    ensures RowAbsSum(y, i, m) <= m as real * y[i] + Sum(y[..m])
  {
    if m > 0 {
      RowAbsSumBound(y, i, m - 1);
      assert y[..m][..m - 1] == y[..m - 1];
      RowBoundStep(RowAbsSum(y, i, m - 1), Abs(y[i] - y[m - 1]), y[i], Sum(y[..m - 1]), y[m - 1],
                   Sum(y[..m]), (m - 1) as real, m as real);
    }
  }

  /** For non-negative values, k rows come to at most sum(y[:k]) * n + k * sum(y). */
  lemma {:induction false} PairAbsSumBound(y: seq<real>, k: nat)
    requires k <= |y|
    requires forall j :: 0 <= j < |y| ==> y[j] >= 0.0
    ensures PairAbsSum(y, k) <= |y| as real * Sum(y[..k]) + k as real * Sum(y)
  {
    if k > 0 {
      PairAbsSumBound(y, k - 1);
      PairAbsSumBoundStep(y, k);
    }
  }

  /** The induction step of PairAbsSumBound: row k - 1 adds at most n * y[k - 1] + sum(y). */
  lemma PairAbsSumBoundStep(y: seq<real>, k: nat)
    requires 0 < k <= |y|
    requires forall j :: 0 <= j < |y| ==> y[j] >= 0.0
    requires PairAbsSum(y, k - 1) <= |y| as real * Sum(y[..k - 1]) + (k - 1) as real * Sum(y)
    ensures PairAbsSum(y, k) <= |y| as real * Sum(y[..k]) + k as real * Sum(y)
  {
    var row := RowAbsSum(y, k - 1, |y|);
    assert PairAbsSum(y, k) == PairAbsSum(y, k - 1) + row;
    RowAbsSumWhole(y, k - 1);
    PrefixSnoc(y, k);
    PairBoundStep(PairAbsSum(y, k - 1), row, |y| as real, Sum(y[..k - 1]),
                  y[k - 1], Sum(y[..k]), Sum(y), (k - 1) as real, k as real);
  }

  /** Row i against all n values comes to at most n * y[i] + sum(y). */
  lemma RowAbsSumWhole(y: seq<real>, i: nat)
    requires i < |y|
    requires forall j :: 0 <= j < |y| ==> y[j] >= 0.0
    ensures RowAbsSum(y, i, |y|) <= |y| as real * y[i] + Sum(y)
  {
    var n := |y|;
    assert Sum(y[..n]) == Sum(y) by {
      assert y[..n] == y;
    }
    RowAbsSumBound(y, i, n);
  }

  /** The prefix of length k is the prefix of length k - 1 plus y[k - 1]. */
  lemma PrefixSnoc(y: seq<real>, k: nat)
    requires 0 < k <= |y|
    ensures Sum(y[..k]) == Sum(y[..k - 1]) + y[k - 1]
  {
    assert y[..k][..k - 1] == y[..k - 1];
  }

  /** The arithmetic of one step of RowAbsSumBound: |y[i] - y[m]| <= y[i] + y[m] joins the bound. */
  lemma RowBoundStep(before: real, added: real, c: real, prefix: real, next: real, whole: real,
                     rows: real, k: real)
    requires before <= rows * c + prefix
    requires added <= c + next
    requires whole == prefix + next && k == rows + 1.0
    ensures before + added <= k * c + whole
  {
    assert k * c == rows * c + c;
  }

  /** The arithmetic of one step of PairAbsSumBound: add a row's bound to the bound of the rows before. */
  lemma PairBoundStep(before: real, row: real, n: real, prefix: real, next: real, whole: real,
                      total: real, rows: real, k: real)
    requires before <= n * prefix + rows * total
    requires row <= n * next + total
    requires whole == prefix + next && k == rows + 1.0
    ensures before + row <= n * whole + k * total
  {
    assert n * whole == n * prefix + n * next;
    assert k * total == rows * total + total;
  }
  /** n * s + n * s is 2 * n * s, whichever name the sum goes by. */
  lemma DoubledBound(a: real, n: real, s: real, s': real)
    requires a <= n * s + n * s && s == s'
    ensures a <= 2.0 * n * s'
  {
  }

  /** The wiki Gini's denominator is 2 * n * sum(y) for non-empty y. */
  lemma WikiDenominator(y: seq<real>)
    requires |y| > 0
    ensures Mul(Num(2.0 * (|y| * |y|) as real), Mean(y)) == Num(2.0 * |y| as real * Sum(y))
  {
    var n := |y| as real;
    assert (|y| * |y|) as real == n * n;
    assert 2.0 * (n * n) * (Sum(y) / n) == 2.0 * n * Sum(y);
  }

  /** For non-negative data with a positive total the wiki Gini lies in its documented range [0, 1]. */
  lemma GiniWikiInUnitRange(t: seq<real>, p: seq<real>)
    requires |t| == |p|
    requires forall j :: 0 <= j < |t + p| ==> (t + p)[j] >= 0.0
    requires Sum(t + p) > 0.0
    ensures Within(GiniWikiValue(t + p), 0.0, 1.0)
  {
    WikiValueInUnit(t + p);
  }

  /** The wiki Gini of one non-negative vector with a positive total lies in [0, 1]. */
  lemma WikiValueInUnit(y: seq<real>)
    requires forall j :: 0 <= j < |y| ==> y[j] >= 0.0
    requires Sum(y) > 0.0
    ensures Within(GiniWikiValue(y), 0.0, 1.0)
  {
    var n := |y|;
    var a, d := PairAbsSum(y, n), 2.0 * n as real * Sum(y);
    assert 0.0 <= a <= d by {
      PairAbsSumWithin(y);
    }
    assert d > 0.0 by {
      PositiveProduct(2.0 * n as real, Sum(y));
    }
    WikiDenominator(y);
    RatioInUnit(a, d);
  }

  /** Over all rows, the sum of absolute differences lies between 0 and 2 n sum(y). */
  lemma PairAbsSumWithin(y: seq<real>)
    requires forall j :: 0 <= j < |y| ==> y[j] >= 0.0
    ensures 0.0 <= PairAbsSum(y, |y|) <= 2.0 * |y| as real * Sum(y)
  {
    var n := |y|;
    PairAbsSumBound(y, n);
    PairAbsSumNonNeg(y, n);
    assert y[..n] == y;
    DoubledBound(PairAbsSum(y, n), n as real, Sum(y[..n]), Sum(y));
  }
}
