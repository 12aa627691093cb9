/**
  `purity_score` of `ClusteringMetric` (permetrics/clustering.py): for every true class,
  the size of the largest group of its samples that share one predicted label (the maximum
  of `np.bincount` over the class's predictions), summed over the classes and divided by
  the number of samples. Labels are the encoder's output: every class `0..K-1` occurs.
*/
module Purity {

  import opened Wrappers

  function Max(a: nat, b: nat): nat {
    if a < b then b else a
  }

  /** One more than the largest label, 0 for no labels: the length of `np.bincount`. */
  function LabelBound(y: seq<nat>): (k: nat)
    ensures forall i :: 0 <= i < |y| ==> y[i] < k
    ensures |y| > 0 ==> k > 0
  {
    if y == [] then 0 else Max(LabelBound(y[..|y| - 1]), y[|y| - 1] + 1)
  }

  /** The encoder's output: the labels are exactly `0..K-1`, each occurring. */
  predicate Encoded(y: seq<nat>) {
    forall c :: 0 <= c < LabelBound(y) ==> c in y
  }

  /** The number of samples labelled c (`len(np.where(y == c)[0])`). */
  function ClassSize(y: seq<nat>, c: nat): (k: nat)
    ensures k <= |y|
  {
    if y == [] then 0
    else ClassSize(y[..|y| - 1], c) + (if y[|y| - 1] == c then 1 else 0)
  }

  /** The number of samples of true class c predicted as l (entry l of the class's `np.bincount`). */
  function JointCount(yt: seq<nat>, yp: seq<nat>, c: nat, l: nat): nat
    requires |yt| == |yp|
  {
    if yt == [] then 0
    else JointCount(yt[..|yt| - 1], yp[..|yp| - 1], c, l)
         + (if yt[|yt| - 1] == c && yp[|yp| - 1] == l then 1 else 0)
  }

  /** The largest of the joint counts of class c over the predicted labels below m. */
  function MaxJoint(yt: seq<nat>, yp: seq<nat>, c: nat, m: nat): nat
    requires |yt| == |yp|
  {
    if m == 0 then 0 else Max(MaxJoint(yt, yp, c, m - 1), JointCount(yt, yp, c, m - 1))
  }

  /** `np.max(np.bincount(class_predictions))`: the size of the majority predicted label in class c. */
  function MajorityCount(yt: seq<nat>, yp: seq<nat>, c: nat): nat
    requires |yt| == |yp|
  {
    MaxJoint(yt, yp, c, LabelBound(yp))
  }

  /** The majority counts of the classes below k, added up. */
  function MajoritySum(yt: seq<nat>, yp: seq<nat>, k: nat): nat
    requires |yt| == |yp|
  {
    if k == 0 then 0 else MajoritySum(yt, yp, k - 1) + MajorityCount(yt, yp, k - 1)
  }

  /** purity_score: the majority counts over the classes divided by N, an int division that raises for N = 0. */
  function PurityValue(yt: seq<nat>, yp: seq<nat>): (r: Result<real>)
    requires |yt| == |yp|
    ensures r.Ok? <==> |yt| > 0
    ensures r.Err? ==> r.error == ZeroDivisionError
    ensures r.Ok? ==> r.value >= 0.0
  {
    if |yt| == 0 then Err(ZeroDivisionError)
    else Ok(MajoritySum(yt, yp, LabelBound(yt)) as real / |yt| as real)
  }

  /** purity_score's loop over the classes `np.unique(y_true)`, which the encoding makes `0..K-1`. */
  method Purity(yt: seq<nat>, yp: seq<nat>) returns (r: Result<real>)
    requires |yt| == |yp| && Encoded(yt)
    ensures r == PurityValue(yt, yp)
  {
    var n := |yt|;
    var classes := LabelBound(yt);
    var purity := 0;
    var c := 0;
    while c < classes
      invariant c <= classes
      invariant purity == MajoritySum(yt, yp, c)
    {
      purity := purity + MajorityCount(yt, yp, c);
      c := c + 1;
    }
    if n == 0 {
      return Err(ZeroDivisionError);
    }
    return Ok(purity as real / n as real);
  }

  /** Within a class, one predicted label never covers more samples than the class has. */
  lemma {:induction false} JointAtMostClass(yt: seq<nat>, yp: seq<nat>, c: nat, l: nat)
    requires |yt| == |yp|
    ensures JointCount(yt, yp, c, l) <= ClassSize(yt, c)
  {
    if yt != [] {
      JointAtMostClass(yt[..|yt| - 1], yp[..|yp| - 1], c, l);
    }
  }

  lemma {:induction false} MaxJointAtMostClass(yt: seq<nat>, yp: seq<nat>, c: nat, m: nat)
    requires |yt| == |yp|
    ensures MaxJoint(yt, yp, c, m) <= ClassSize(yt, c)
  {
    if m > 0 {
      MaxJointAtMostClass(yt, yp, c, m - 1);
      JointAtMostClass(yt, yp, c, m - 1);
    }
  }

  lemma {:induction false} MaxJointAtLeast(yt: seq<nat>, yp: seq<nat>, c: nat, m: nat, l: nat)
    requires |yt| == |yp| && l < m
    ensures JointCount(yt, yp, c, l) <= MaxJoint(yt, yp, c, m)
  {
    if l < m - 1 {
      MaxJointAtLeast(yt, yp, c, m - 1, l);
    }
  }

  /** Sample k counts towards the joint count of its own class and prediction. */
  lemma {:induction false} JointCountsSample(yt: seq<nat>, yp: seq<nat>, k: nat)
    requires |yt| == |yp| && k < |yt|
    ensures JointCount(yt, yp, yt[k], yp[k]) >= 1
  {
    if k < |yt| - 1 {
      JointCountsSample(yt[..|yt| - 1], yp[..|yp| - 1], k);
    }
  }

  /** The majority label of a class covers at least one and at most all of its samples. */
  lemma MajorityBounds(yt: seq<nat>, yp: seq<nat>, c: nat)
    requires |yt| == |yp|
    ensures MajorityCount(yt, yp, c) <= ClassSize(yt, c)
    ensures c in yt ==> MajorityCount(yt, yp, c) >= 1
  {
    MaxJointAtMostClass(yt, yp, c, LabelBound(yp));
    if c in yt {
      var k :| 0 <= k < |yt| && yt[k] == c;
      JointCountsSample(yt, yp, k);
      MaxJointAtLeast(yt, yp, c, LabelBound(yp), yp[k]);
    }
  }

  /** When every sample of class c is predicted as l, that label covers the whole class. */
  lemma {:induction false} JointFull(yt: seq<nat>, yp: seq<nat>, c: nat, l: nat)
    requires |yt| == |yp|
    requires forall i :: 0 <= i < |yt| && yt[i] == c ==> yp[i] == l
    ensures JointCount(yt, yp, c, l) == ClassSize(yt, c)
  {
    if yt != [] {
      JointFull(yt[..|yt| - 1], yp[..|yp| - 1], c, l);
    }
  }

  /** The class sizes of the classes below k, added up. */
  function SizeSum(y: seq<nat>, k: nat): nat {
    if k == 0 then 0 else SizeSum(y, k - 1) + ClassSize(y, k - 1)
  }

  lemma {:induction false} SizeSumSnoc(y: seq<nat>, x: nat, k: nat)
    ensures SizeSum(y + [x], k) == SizeSum(y, k) + (if x < k then 1 else 0)
  {
    assert (y + [x])[..|y|] == y;
    if k > 0 {
      SizeSumSnoc(y, x, k - 1);
    }
  }

  lemma {:induction false} SizeSumEmpty(k: nat)
    ensures SizeSum([], k) == 0
  {
    if k > 0 {
      SizeSumEmpty(k - 1);
    }
  }

  /** The classes below a bound on every label partition the samples. */
  lemma {:induction false} SizeSumTotal(y: seq<nat>, k: nat)
    requires forall i :: 0 <= i < |y| ==> y[i] < k
    ensures SizeSum(y, k) == |y|
  {
    if y == [] {
      SizeSumEmpty(k);
    } else {
      var init := y[..|y| - 1];
      SizeSumTotal(init, k);
      assert init + [y[|y| - 1]] == y;
      SizeSumSnoc(init, y[|y| - 1], k);
    }
  }

  /** Each present class contributes between 1 and its size. */
  lemma {:induction false} MajoritySumBounds(yt: seq<nat>, yp: seq<nat>, k: nat)
    requires |yt| == |yp| && Encoded(yt) && k <= LabelBound(yt)
    ensures k <= MajoritySum(yt, yp, k) <= SizeSum(yt, k)
  {
    if k > 0 {
      MajoritySumBounds(yt, yp, k - 1);
      assert k - 1 in yt;
      MajorityBounds(yt, yp, k - 1);
    }
  }

  /** Purity is defined for a non-empty input and lies in (0, 1]. */
  lemma PurityBounds(yt: seq<nat>, yp: seq<nat>)
    requires |yt| == |yp| && Encoded(yt)
    ensures PurityValue(yt, yp).Ok? <==> |yt| > 0
    ensures PurityValue(yt, yp).Ok? ==> 0.0 < PurityValue(yt, yp).value <= 1.0
  {
    if |yt| > 0 {
      var k := LabelBound(yt);
      assert 0 < MajoritySum(yt, yp, k) <= |yt| by {
        MajoritySumBounds(yt, yp, k);
        SizeSumTotal(yt, k);
      }
      CountShare(MajoritySum(yt, yp, k), |yt|);
    }
  }

  /** A positive count out of a total it does not exceed is a share in (0, 1]. */
  lemma CountShare(a: nat, n: nat)
    requires 0 < a <= n
    ensures 0.0 < a as real / n as real <= 1.0
  {
  }

  /** With samples of one class always predicted alike, every class is its own majority. */
  lemma {:induction false} MajoritySumFull(yt: seq<nat>, yp: seq<nat>, k: nat)
    requires |yt| == |yp| && Encoded(yt) && k <= LabelBound(yt)
    requires forall i, j :: 0 <= i < |yt| && 0 <= j < |yt| && yt[i] == yt[j] ==> yp[i] == yp[j]
    ensures MajoritySum(yt, yp, k) == SizeSum(yt, k)
  {
    if k > 0 {
      MajoritySumFull(yt, yp, k - 1);
      var c := k - 1;
      assert c in yt;
      var s :| 0 <= s < |yt| && yt[s] == c;
      JointFull(yt, yp, c, yp[s]);
      MaxJointAtLeast(yt, yp, c, LabelBound(yp), yp[s]);
      MaxJointAtMostClass(yt, yp, c, LabelBound(yp));
    }
  }

  /**
    Purity is 1 when samples of one true class always share a predicted label, in
    particular when the prediction is the truth under other label names.
  */
  lemma PurityOneWhenClassesAgree(yt: seq<nat>, yp: seq<nat>)
    requires |yt| == |yp| && |yt| > 0 && Encoded(yt)
    requires forall i, j :: 0 <= i < |yt| && 0 <= j < |yt| && yt[i] == yt[j] ==> yp[i] == yp[j]
    ensures PurityValue(yt, yp) == Ok(1.0)
  {
    var k := LabelBound(yt);
    assert MajoritySum(yt, yp, k) == |yt| by {
      MajoritySumFull(yt, yp, k);
      SizeSumTotal(yt, k);
    }
    WholeShare(|yt|);
  }

  /** A non-zero count out of itself is the share 1. */
  lemma WholeShare(n: nat)
    requires n > 0
    ensures n as real / n as real == 1.0
  {
  }

  /**
    As written, the loop runs over the true classes and takes each class's majority
    prediction, so a prediction that merges every class into one cluster scores 1.
  */
  lemma PurityOfMergedClusters()
    ensures PurityValue([0, 1], [0, 0]) == Ok(1.0)
  {
    PurityOneWhenClassesAgree([0, 1], [0, 0]);
  }

  /**
    Purity as its documentation describes it: for each predicted cluster, the size of its
    majority true class, summed and divided by N. The roles of the two vectors are those
    of `PurityValue` exchanged.
  */
  function ClusterPurity(yt: seq<nat>, yp: seq<nat>): (r: Result<real>)
    requires |yt| == |yp| && Encoded(yp)
    ensures r.Ok? <==> |yt| > 0
    ensures r.Ok? ==> 0.0 < r.value <= 1.0
  {
    PurityBounds(yp, yt);
    PurityValue(yp, yt)
  }

  /** Clusters that never mix true classes have purity 1. */
  lemma ClusterPurityOneOnPureClusters(yt: seq<nat>, yp: seq<nat>)
    requires |yt| == |yp| && |yt| > 0 && Encoded(yp)
    requires forall i, j :: 0 <= i < |yt| && 0 <= j < |yt| && yp[i] == yp[j] ==> yt[i] == yt[j]
    ensures ClusterPurity(yt, yp) == Ok(1.0)
  {
    PurityOneWhenClassesAgree(yp, yt);
  }

  /** Merging two classes of one sample each into one cluster scores 1/2, not 1. */
  lemma ClusterPurityOfMergedClusters()
    ensures ClusterPurity([0, 1], [0, 0]) == Ok(0.5)
  {
    var yt, yp := [0, 1], [0, 0];
    assert LabelBound(yp) == 1;
    assert 0 in yp;
    assert LabelBound(yt) == 2;
    assert JointCount(yp, yt, 0, 0) == 1;
    assert JointCount(yp, yt, 0, 1) == 1;
    assert MajorityCount(yp, yt, 0) == 1;
  }
}
