/**
  The enumeration of unordered sample pairs shared by the pair-counting clustering metrics:
  every `(idx, jdx)` with `idx < jdx < n`, in the order of the nested loops
  `for idx in range(n): for jdx in range(idx + 1, n)`, and the pair-agreement table
  `(yy, yn, ny, nn)` obtained by classifying each pair under the true and the predicted
  partition.
*/
module PairCounting {

  /** The pairs `(i, k)` for `i < k < j`, in increasing k: one pass of the inner loop stopped at j. */
  function Row(i: nat, j: nat): (r: seq<(nat, nat)>)
    ensures |r| == if j > i then j - i - 1 else 0
    ensures forall k :: 0 <= k < |r| ==> r[k] == (i, i + 1 + k)
  {
    if j <= i + 1 then [] else Row(i, j - 1) + [(i, j - 1)]
  }

  /** The pairs enumerated by the first i passes of the outer loop over n samples. */
  function PairsBefore(n: nat, i: nat): (r: seq<(nat, nat)>)
    requires i <= n
    ensures forall k :: 0 <= k < |r| ==> r[k].0 < r[k].1 < n && r[k].0 < i
  {
    if i == 0 then [] else PairsBefore(n, i - 1) + Row(i - 1, n)
  }

  /** Every unordered pair of n samples, in loop order. */
  function Pairs(n: nat): (r: seq<(nat, nat)>)
    ensures forall k :: 0 <= k < |r| ==> r[k].0 < r[k].1 < n
  {
    PairsBefore(n, n)
  }

  lemma {:induction false} PairsBeforeLength(n: nat, i: nat)
    requires i <= n
    ensures 2 * |PairsBefore(n, i)| == i * (2 * n - i - 1)
  {
    if i > 0 {
      PairsBeforeLength(n, i - 1);
      assert |PairsBefore(n, i)| == |PairsBefore(n, i - 1)| + (n - i);
      assert (i - 1) * (2 * n - i) + 2 * (n - i) == i * (2 * n - i - 1);
    }
  }

  /** There are n(n-1)/2 unordered pairs. */
  lemma PairsLength(n: nat)
    ensures 2 * |Pairs(n)| == n * (n - 1)
  {
    PairsBeforeLength(n, n);
  }

  lemma {:induction false} PairsBeforeMonotone(n: nat, i: nat, m: nat)
    requires i <= m <= n
    ensures |PairsBefore(n, i)| <= |PairsBefore(n, m)|
  {
    if i < m {
      PairsBeforeMonotone(n, i, m - 1);
    }
  }

  lemma {:induction false} PairsBeforeComplete(n: nat, i: nat, a: nat, b: nat)
    requires i <= n && a < i && a < b < n
    ensures (a, b) in PairsBefore(n, i)
  {
    if a == i - 1 {
      assert Row(a, n)[b - a - 1] == (a, b);
      assert PairsBefore(n, i)[|PairsBefore(n, i - 1)| + (b - a - 1)] == (a, b);
    } else {
      PairsBeforeComplete(n, i - 1, a, b);
    }
  }

  /** Every pair a < b < n is enumerated. */
  lemma PairsComplete(n: nat, a: nat, b: nat)
    requires a < b < n
    ensures (a, b) in Pairs(n)
  {
    PairsBeforeComplete(n, n, a, b);
  }

  /**
    The pair-agreement table: yy = pairs together in both partitions, yn = together in
    the true partition only, ny = together in the predicted partition only, nn = together
    in neither.
  */
  datatype Contingency = Contingency(yy: nat, yn: nat, ny: nat, nn: nat)

  const Empty := Contingency(0, 0, 0, 0)

  function Total(c: Contingency): nat {
    c.yy + c.yn + c.ny + c.nn
  }

  /** The table seen from the other side: the roles of truth and prediction exchanged. */
  function Transposed(c: Contingency): Contingency {
    Contingency(c.yy, c.ny, c.yn, c.nn)
  }

  function AddCells(c: Contingency, d: Contingency): Contingency {
    Contingency(c.yy + d.yy, c.yn + d.yn, c.ny + d.ny, c.nn + d.nn)
  }

  /** The one cell of the table that the pair (i, j) falls into. */
  function Classify(yt: seq<nat>, yp: seq<nat>, i: nat, j: nat): Contingency
    requires i < |yt| && j < |yt| && |yt| == |yp|
  {
    var sameTrue := yt[i] == yt[j];
    var samePred := yp[i] == yp[j];
    Contingency(if sameTrue && samePred then 1 else 0,
                if sameTrue && !samePred then 1 else 0,
                if !sameTrue && samePred then 1 else 0,
                if !sameTrue && !samePred then 1 else 0)
  }

  /** Each pair falls into exactly one cell. */
  lemma ClassifyOneCell(yt: seq<nat>, yp: seq<nat>, i: nat, j: nat)
    requires i < |yt| && j < |yt| && |yt| == |yp|
    ensures Total(Classify(yt, yp, i, j)) == 1
  {
  }

  /** The table of the pairs (i, k), i < k < j: one pass of the inner loop stopped at j. */
  function RowTable(yt: seq<nat>, yp: seq<nat>, i: nat, j: nat): Contingency
    requires |yt| == |yp| && i < |yt| && j <= |yt|
  {
    if j <= i + 1 then Empty
    else AddCells(RowTable(yt, yp, i, j - 1), Classify(yt, yp, i, j - 1))
  }

  /** The table of the pairs enumerated by the first i passes of the outer loop. */
  function TableBefore(yt: seq<nat>, yp: seq<nat>, i: nat): Contingency
    requires |yt| == |yp| && i <= |yt|
  {
    if i == 0 then Empty
    else AddCells(TableBefore(yt, yp, i - 1), RowTable(yt, yp, i - 1, |yt|))
  }

  /** The table of all pairs of two label vectors (the tuple that `compute_confusion_matrix` returns). */
  function ContingencyOf(yt: seq<nat>, yp: seq<nat>): Contingency
    requires |yt| == |yp|
  {
    TableBefore(yt, yp, |yt|)
  }

  lemma {:induction false} RowTableTotal(yt: seq<nat>, yp: seq<nat>, i: nat, j: nat)
    requires |yt| == |yp| && i < |yt| && j <= |yt|
    ensures Total(RowTable(yt, yp, i, j)) == if j > i then j - i - 1 else 0
  {
    if j > i + 1 {
      RowTableTotal(yt, yp, i, j - 1);
      ClassifyOneCell(yt, yp, i, j - 1);
    }
  }

  /** The table of the first i passes counts exactly the pairs those passes enumerate. */
  lemma {:induction false} TableBeforeTotal(yt: seq<nat>, yp: seq<nat>, i: nat)
    requires |yt| == |yp| && i <= |yt|
    ensures Total(TableBefore(yt, yp, i)) == |PairsBefore(|yt|, i)|
  {
    if i > 0 {
      TableBeforeTotal(yt, yp, i - 1);
      RowTableTotal(yt, yp, i - 1, |yt|);
    }
  }

  /** Every pair lands in exactly one cell: the four counts add up to n(n-1)/2. */
  lemma ContingencyTotal(yt: seq<nat>, yp: seq<nat>)
    requires |yt| == |yp|
    ensures Total(ContingencyOf(yt, yp)) == |Pairs(|yt|)|
    ensures 2 * Total(ContingencyOf(yt, yp)) == |yt| * (|yt| - 1)
  {
    TableBeforeTotal(yt, yp, |yt|);
    PairsLength(|yt|);
  }

  lemma {:induction false} RowTableSwap(yt: seq<nat>, yp: seq<nat>, i: nat, j: nat)
    requires |yt| == |yp| && i < |yt| && j <= |yt|
    ensures RowTable(yp, yt, i, j) == Transposed(RowTable(yt, yp, i, j))
  {
    if j > i + 1 {
      RowTableSwap(yt, yp, i, j - 1);
    }
  }

  lemma {:induction false} TableBeforeSwap(yt: seq<nat>, yp: seq<nat>, i: nat)
    requires |yt| == |yp| && i <= |yt|
    ensures TableBefore(yp, yt, i) == Transposed(TableBefore(yt, yp, i))
  {
    if i > 0 {
      TableBeforeSwap(yt, yp, i - 1);
      RowTableSwap(yt, yp, i - 1, |yt|);
    }
  }

  /** Exchanging the two label vectors exchanges yn and ny and keeps yy and nn. */
  lemma ContingencySwap(yt: seq<nat>, yp: seq<nat>)
    requires |yt| == |yp|
    ensures ContingencyOf(yp, yt) == Transposed(ContingencyOf(yt, yp))
  {
    TableBeforeSwap(yt, yp, |yt|);
  }

  lemma {:induction false} RowTableIdentical(y: seq<nat>, i: nat, j: nat)
    requires i < |y| && j <= |y|
    ensures RowTable(y, y, i, j).yn == 0 && RowTable(y, y, i, j).ny == 0
  {
    if j > i + 1 {
      RowTableIdentical(y, i, j - 1);
    }
  }

  lemma {:induction false} TableBeforeIdentical(y: seq<nat>, i: nat)
    requires i <= |y|
    ensures TableBefore(y, y, i).yn == 0 && TableBefore(y, y, i).ny == 0
  {
    if i > 0 {
      TableBeforeIdentical(y, i - 1);
      RowTableIdentical(y, i - 1, |y|);
    }
  }

  /** A partition compared with itself has no disagreeing pair. */
  lemma ContingencyIdentical(y: seq<nat>)
    ensures ContingencyOf(y, y).yn == 0 && ContingencyOf(y, y).ny == 0
  {
    TableBeforeIdentical(y, |y|);
  }
}
