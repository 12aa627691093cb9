/**
  The Baker-Hubert gamma index of a labelled point set. Every unordered sample pair gets a
  distance and a flag saying whether its two samples lie in different clusters; then every
  pair of those pairs, the earlier one within a cluster and the later one between clusters,
  is scored as concordant (the within-cluster distance is smaller) or discordant (larger).
  gamma = (s+ - s-) / (s+ + s-), or 0 when nothing was scored.

  Distances are squared Euclidean distances: only their order is ever used, and squaring
  keeps the order of the Euclidean norm.
*/
module BakerHubert {
  import opened PairCounting
  import opened Sums

  /** A data matrix: every row has the width of the first. */
  predicate Matrix(x: seq<seq<real>>) {
    forall i :: 0 <= i < |x| ==> |x[i]| == |x[0]|
  }

  /** The squared Euclidean distance between two rows of the same width. */
  function SquaredDistance(a: seq<real>, b: seq<real>): (d: real)
    requires |a| == |b|
    ensures d >= 0.0
  {
    if |a| == 0 then 0.0
    else (a[0] - b[0]) * (a[0] - b[0]) + SquaredDistance(a[1..], b[1..])
  }

  lemma {:induction false} SquaredDistanceSymmetric(a: seq<real>, b: seq<real>)
    requires |a| == |b|
    ensures SquaredDistance(a, b) == SquaredDistance(b, a)
  {
    if |a| > 0 {
      SquaredDistanceSymmetric(a[1..], b[1..]);
      assert (a[0] - b[0]) * (a[0] - b[0]) == (b[0] - a[0]) * (b[0] - a[0]);
    }
  }

  /** A row is at distance zero from itself, and only from itself. */
  lemma {:induction false} SquaredDistanceZero(a: seq<real>, b: seq<real>)
    requires |a| == |b|
    ensures SquaredDistance(a, b) == 0.0 <==> a == b
  {
    if |a| > 0 {
      SquaredDistanceZero(a[1..], b[1..]);
      if a[0] != b[0] {
        SquarePositive(a[0] - b[0], (a[0] - b[0]) * (a[0] - b[0]));
      }
      assert a == [a[0]] + a[1..] && b == [b[0]] + b[1..];
    }
  }

  /** The distance of the pair p of rows of x. */
  function PairDistance(x: seq<seq<real>>, p: (nat, nat)): real
    requires Matrix(x) && p.0 < |x| && p.1 < |x|
  {
    SquaredDistance(x[p.0], x[p.1])
  }

  /**
    The labels cover every row the loops read: with fewer than two rows no pair exists and
    y_pred is never indexed.
  */
  predicate Labelled(x: seq<seq<real>>, y: seq<nat>) {
    |x| < 2 || |x| <= |y|
  }

  /** Pairs of sample indices below n. */
  predicate InRange(ps: seq<(nat, nat)>, n: nat) {
    forall k :: 0 <= k < |ps| ==> ps[k].0 < n && ps[k].1 < n
  }

  /** The distance of every listed pair, in order. */
  function DistancesOf(x: seq<seq<real>>, ps: seq<(nat, nat)>): (r: seq<real>)
    requires Matrix(x) && InRange(ps, |x|)
    ensures |r| == |ps|
    ensures forall k :: 0 <= k < |ps| ==> r[k] == PairDistance(x, ps[k])
  {
    seq(|ps|, k requires 0 <= k < |ps| => PairDistance(x, ps[k]))
  }

  /** For every listed pair, whether its two samples carry different predicted labels. */
  function BetweenOf(y: seq<nat>, ps: seq<(nat, nat)>): (r: seq<bool>)
    requires InRange(ps, |y|)
    ensures |r| == |ps|
    ensures forall k :: 0 <= k < |ps| ==> r[k] == (y[ps[k].0] != y[ps[k].1])
  {
    seq(|ps|, k requires 0 <= k < |ps| => y[ps[k].0] != y[ps[k].1])
  }

  /**
    The first phase: the distance and the between-cluster flag of every sample pair, written
    into fresh arrays of n(n-1)/2 slots in the order of the nested loops.
  */
  method FillPairs(x: seq<seq<real>>, y: seq<nat>) returns (distances: array<real>, between: array<bool>)
    requires Matrix(x) && Labelled(x, y)
    ensures fresh(distances) && fresh(between)
    ensures 2 * distances.Length == |x| * (|x| - 1)
    ensures distances[..] == DistancesOf(x, Pairs(|x|))
    ensures between[..] == BetweenOf(y, Pairs(|x|))
  {
    var n := |x|;
    var nPairs := (n * (n - 1)) / 2;
    PairsLength(n);
    distances := new real[nPairs];
    between := new bool[nPairs];
    var index := 0;
    var idx := 0;
    while idx + 1 < n
      invariant idx <= n
      invariant index == |PairsBefore(n, idx)| <= distances.Length
      invariant distances[..index] == DistancesOf(x, PairsBefore(n, idx))
      invariant between[..index] == BetweenOf(y, PairsBefore(n, idx))
    {
      ghost var ds, bs := distances[..index], between[..index];
      PairsBeforeMonotone(n, idx + 1, n);
      var next := FillRow(x, y, distances, between, idx, index);
      PrefixExtended(distances, index, next, ds);
      PrefixExtended(between, index, next, bs);
      PassFilled(x, y, idx, ds, bs, distances[..next], between[..next]);
      index, idx := next, idx + 1;
    }
    LastPassEmpty(n, idx);
    assert distances[..] == distances[..index];
    assert between[..] == between[..index];
  }

  /** One pass of the outer loop of the first phase: the pairs (i, j) for every j > i. */
  method FillRow(x: seq<seq<real>>, y: seq<nat>, distances: array<real>, between: array<bool>, i: nat, start: nat)
      returns (index: nat)
    requires Matrix(x) && |x| <= |y| && i < |x|
    requires start + (|x| - i - 1) <= distances.Length == between.Length
    modifies distances, between
    ensures index == start + (|x| - i - 1)
    ensures distances[..start] == old(distances[..start]) && between[..start] == old(between[..start])
    ensures distances[start..index] == DistancesOf(x, Row(i, |x|))
    ensures between[start..index] == BetweenOf(y, Row(i, |x|))
  {
    var n := |x|;
    index := start;
    var jdx := i + 1;
    while jdx < n
      invariant i < jdx <= n
      invariant index == start + (jdx - i - 1)
      invariant distances[..start] == old(distances[..start]) && between[..start] == old(between[..start])
      invariant distances[start..index] == DistancesOf(x, Row(i, jdx))
      invariant between[start..index] == BetweenOf(y, Row(i, jdx))
    {
      distances[index] := SquaredDistance(x[i], x[jdx]);
      between[index] := y[i] != y[jdx];
      assert distances[start..index + 1] == distances[start..index] + [distances[index]];
      assert between[start..index + 1] == between[start..index] + [between[index]];
      index := index + 1;
      jdx := jdx + 1;
    }
  }

  /** The listings of the first i passes followed by pass i are those of the first i + 1 passes. */
  lemma PassFilled(x: seq<seq<real>>, y: seq<nat>, i: nat, ds: seq<real>, bs: seq<bool>, ds': seq<real>, bs': seq<bool>)
    requires Matrix(x) && |x| <= |y| && i < |x|
    requires ds == DistancesOf(x, PairsBefore(|x|, i)) && ds' == ds + DistancesOf(x, Row(i, |x|))
    requires bs == BetweenOf(y, PairsBefore(|x|, i)) && bs' == bs + BetweenOf(y, Row(i, |x|))
    ensures ds' == DistancesOf(x, PairsBefore(|x|, i + 1))
    ensures bs' == BetweenOf(y, PairsBefore(|x|, i + 1))
  {
    DistancesSplit(x, PairsBefore(|x|, i), Row(i, |x|));
    BetweenSplit(y, PairsBefore(|x|, i), Row(i, |x|));
  }

  /** An array whose first slots are unchanged holds them followed by what was written after them. */
  lemma PrefixExtended<T>(a: array<T>, start: nat, next: nat, prefix: seq<T>)
    requires start <= next <= a.Length && a[..start] == prefix
    ensures a[..next] == prefix + a[start..next]
  {
    assert a[..next] == a[..start] + a[start..next];
  }

  /** The distances of two listings one after the other. */
  lemma DistancesSplit(x: seq<seq<real>>, ps: seq<(nat, nat)>, qs: seq<(nat, nat)>)
    requires Matrix(x) && InRange(ps, |x|) && InRange(qs, |x|)
    ensures DistancesOf(x, ps + qs) == DistancesOf(x, ps) + DistancesOf(x, qs)
  {
    assert InRange(ps + qs, |x|);
  }

  /** The between-cluster flags of two listings one after the other. */
  lemma BetweenSplit(y: seq<nat>, ps: seq<(nat, nat)>, qs: seq<(nat, nat)>)
    requires InRange(ps, |y|) && InRange(qs, |y|)
    ensures BetweenOf(y, ps + qs) == BetweenOf(y, ps) + BetweenOf(y, qs)
  {
    assert InRange(ps + qs, |y|);
  }

  /** The outer loop may stop one pass early: the last pass enumerates no pair. */
  lemma LastPassEmpty(n: nat, i: nat)
    requires i <= n && i + 1 >= n
    ensures PairsBefore(n, i) == Pairs(n)
  {
    if i < n {
      assert Row(i, n) == [];
    }
  }

  /** The two counters of the second phase: s+ (concordant) and s- (discordant). */
  datatype Tally = Tally(plus: nat, minus: nat)

  /** What comparing the two pairs at positions a and b adds to the counters. */
  function Compare(d: seq<real>, w: seq<bool>, a: nat, b: nat): Tally
    requires a < |d| && b < |d| && |w| == |d|
  {
    if !w[a] && w[b] then
      Tally(if d[a] < d[b] then 1 else 0, if d[a] > d[b] then 1 else 0)
    else Tally(0, 0)
  }

  /** The counters after comparing every listed pair of pair positions, in order. */
  function TallyOf(d: seq<real>, w: seq<bool>, qs: seq<(nat, nat)>): Tally
    requires |w| == |d| && InRange(qs, |d|)
  {
    if |qs| == 0 then Tally(0, 0)
    else
      var t := TallyOf(d, w, qs[..|qs| - 1]);
      var e := Compare(d, w, qs[|qs| - 1].0, qs[|qs| - 1].1);
      Tally(t.plus + e.plus, t.minus + e.minus)
  }

  /** The number of listed comparisons whose first pair is within a cluster and whose second is between. */
  function Candidates(w: seq<bool>, qs: seq<(nat, nat)>): nat
    requires InRange(qs, |w|)
  {
    if |qs| == 0 then 0
    else
      var q := qs[|qs| - 1];
      Candidates(w, qs[..|qs| - 1]) + (if !w[q.0] && w[q.1] then 1 else 0)
  }

  /** The gamma index of the two counters; 0 when nothing was scored. */
  function Gamma(t: Tally): real {
    if t.plus + t.minus == 0 then 0.0
    else (t.plus - t.minus) as real / (t.plus + t.minus) as real
  }

  /**
    The second phase: both counters over every pair of pair positions below m, in the order
    of the nested loops, read from the two arrays filled by the first phase.
  */
  method CountConcordance(distances: array<real>, between: array<bool>) returns (t: Tally)
    requires distances.Length == between.Length
    ensures t == TallyOf(distances[..], between[..], Pairs(distances.Length))
  {
    var m := distances.Length;
    t := Tally(0, 0);
    var idx := 0;
    while idx + 1 < m
      invariant idx <= m
      invariant t == TallyOf(distances[..], between[..], PairsBefore(m, idx))
    {
      t := CountRow(distances, between, idx, t);
      PassTally(distances[..], between[..], idx);
      idx := idx + 1;
    }
    LastPassEmpty(m, idx);
  }

  /** One pass of the outer loop of the second phase: compare pair idx with every later pair. */
  method CountRow(distances: array<real>, between: array<bool>, idx: nat, start: Tally) returns (t: Tally)
    requires distances.Length == between.Length && idx < distances.Length
    ensures t == Merge(start, RowGain(distances[..], between[..], idx, distances.Length))
  {
    var m := distances.Length;
    ghost var d, w := distances[..], between[..];
    var sPlus: nat, sMinus: nat := start.plus, start.minus;
    var jdx := idx + 1;
    while jdx < m
      invariant idx < jdx <= m
      invariant Tally(sPlus, sMinus) == Merge(start, RowGain(d, w, idx, jdx))
    {
      ghost var before, e := Tally(sPlus, sMinus), Compare(d, w, idx, jdx);
      assert distances[idx] == d[idx] && distances[jdx] == d[jdx];
      assert between[idx] == w[idx] && between[jdx] == w[jdx];
      if !between[idx] && between[jdx] {
        if distances[idx] < distances[jdx] {
          sPlus := sPlus + 1;
        }
        if distances[idx] > distances[jdx] {
          sMinus := sMinus + 1;
        }
      }
      assert Tally(sPlus, sMinus) == Merge(before, e);
      jdx := jdx + 1;
    }
    t := Tally(sPlus, sMinus);
  }

  /** The sum of two tallies, counter by counter. */
  function Merge(a: Tally, b: Tally): (r: Tally)
    ensures r.plus == a.plus + b.plus && r.minus == a.minus + b.minus
  {
    Tally(a.plus + b.plus, a.minus + b.minus)
  }

  /** What pass i adds to the counters by comparing pair i with the pairs before position j. */
  ghost function RowGain(d: seq<real>, w: seq<bool>, i: nat, j: nat): Tally
    requires |w| == |d| && i < j <= |d|
    decreases j
  {
    if j == i + 1 then Tally(0, 0) else Merge(RowGain(d, w, i, j - 1), Compare(d, w, i, j - 1))
  }

  /** A whole pass i adds its gain to the counters of the earlier passes. */
  lemma PassTally(d: seq<real>, w: seq<bool>, i: nat)
    requires |w| == |d| && i < |d|
    ensures TallyOf(d, w, PairsBefore(|d|, i + 1)) == Merge(TallyOf(d, w, PairsBefore(|d|, i)), RowGain(d, w, i, |d|))
  {
    TallyConcat(d, w, PairsBefore(|d|, i), Row(i, |d|));
    RowGainIsTally(d, w, i, |d|);
  }

  /** Counting two lists one after the other adds up their counters. */
  lemma {:induction false} TallyConcat(d: seq<real>, w: seq<bool>, a: seq<(nat, nat)>, b: seq<(nat, nat)>)
    requires |w| == |d| && InRange(a, |d|) && InRange(b, |d|)
    ensures TallyOf(d, w, a + b) == Merge(TallyOf(d, w, a), TallyOf(d, w, b))
    decreases |b|
  {
    if b == [] {
      assert a + b == a;
    } else {
      var init := b[..|b| - 1];
      TallyConcat(d, w, a, init);
      assert (a + b)[..|a + b| - 1] == a + init;
    }
  }

  /** The gain of pass i up to j counts the row of pairs (i, i + 1), ..., (i, j - 1). */
  lemma {:induction false} RowGainIsTally(d: seq<real>, w: seq<bool>, i: nat, j: nat)
    requires |w| == |d| && i < j <= |d|
    ensures RowGain(d, w, i, j) == TallyOf(d, w, Row(i, j))
    decreases j
  {
    if j > i + 1 {
      RowGainIsTally(d, w, i, j - 1);
      RowGainTallyStep(d, w, i, j);
    }
  }

  /** The induction step of RowGainIsTally: both sides add the comparison of (i, j - 1). */
  lemma RowGainTallyStep(d: seq<real>, w: seq<bool>, i: nat, j: nat)
    requires |w| == |d| && i + 1 < j <= |d|
    requires RowGain(d, w, i, j - 1) == TallyOf(d, w, Row(i, j - 1))
    ensures RowGain(d, w, i, j) == TallyOf(d, w, Row(i, j))
  {
    var r := Row(i, j);
    assert r[..|r| - 1] == Row(i, j - 1);
    assert r[|r| - 1] == (i, j - 1);
  }

  /** baker_hubert_gamma_index on a data matrix and labels that cover every row. */
  method BakerHubertGamma(x: seq<seq<real>>, y: seq<nat>) returns (g: real)
    requires Matrix(x) && Labelled(x, y)
    ensures g == GammaOf(x, y)
    ensures -1.0 <= g <= 1.0
  {
    var distances, between := FillPairs(x, y);
    var t := CountConcordance(distances, between);
    g := Gamma(t);
    GammaBounds(t);
  }

  /** The index as a function of the data and the labels. */
  function GammaOf(x: seq<seq<real>>, y: seq<nat>): (r: real)
    requires Matrix(x) && Labelled(x, y)
    ensures -1.0 <= r <= 1.0
  {
    var ps := Pairs(|x|);
    PairsLength(|x|);
    var tally := TallyOf(DistancesOf(x, ps), BetweenOf(y, ps), Pairs(|ps|));
    GammaBounds(tally);
    Gamma(tally)
  }

  /** gamma lies in [-1, 1]; it is 1 exactly when some comparison was scored and none was discordant. */
  lemma GammaBounds(t: Tally)
    ensures -1.0 <= Gamma(t) <= 1.0
    ensures Gamma(t) == 1.0 <==> t.minus == 0 && t.plus > 0
    ensures Gamma(t) == -1.0 <==> t.plus == 0 && t.minus > 0
  {
    if t.plus + t.minus > 0 {
      var s := (t.plus + t.minus) as real;
      var q := (t.plus - t.minus) as real;
      MeanAtMost(q, s, 1.0);
      MeanAtLeast(q, s, -1.0);
      QuotTimes(q, s);
    }
  }

  /** Only a within-cluster pair followed by a between-cluster pair is scored, at most once. */
  lemma {:induction false} TallyAtMostCandidates(d: seq<real>, w: seq<bool>, qs: seq<(nat, nat)>)
    requires |w| == |d| && InRange(qs, |d|)
    ensures TallyOf(d, w, qs).plus + TallyOf(d, w, qs).minus <= Candidates(w, qs)
    ensures Candidates(w, qs) == 0 ==> TallyOf(d, w, qs) == Tally(0, 0)
  {
    if |qs| > 0 {
      TallyAtMostCandidates(d, w, qs[..|qs| - 1]);
    }
  }

  /** Without ties among the scored distances, every candidate comparison is scored. */
  lemma {:induction false} TallyOfDistinct(d: seq<real>, w: seq<bool>, qs: seq<(nat, nat)>)
    requires |w| == |d| && InRange(qs, |d|)
    requires forall k :: 0 <= k < |qs| ==> d[qs[k].0] != d[qs[k].1]
    ensures TallyOf(d, w, qs).plus + TallyOf(d, w, qs).minus == Candidates(w, qs)
  {
    if |qs| > 0 {
      TallyOfDistinct(d, w, qs[..|qs| - 1]);
    }
  }

  /** With no between-cluster pair there is no candidate comparison. */
  lemma {:induction false} NoCandidatesWithoutBetween(w: seq<bool>, qs: seq<(nat, nat)>)
    requires InRange(qs, |w|)
    requires forall k :: 0 <= k < |w| ==> !w[k]
    ensures Candidates(w, qs) == 0
  {
    if |qs| > 0 {
      NoCandidatesWithoutBetween(w, qs[..|qs| - 1]);
    }
  }

  /** A single predicted cluster leaves nothing to compare, so the index is 0. */
  lemma SingleClusterGamma(x: seq<seq<real>>, y: seq<nat>)
    requires Matrix(x) && |x| <= |y|
    requires forall i :: 0 <= i < |x| ==> y[i] == y[0]
    ensures GammaOf(x, y) == 0.0
  {
    var ps := Pairs(|x|);
    PairsLength(|x|);
    var d, w := DistancesOf(x, ps), BetweenOf(y, ps);
    var qs := Pairs(|ps|);
    NoCandidatesWithoutBetween(w, qs);
    TallyAtMostCandidates(d, w, qs);
  }

  /**
    The loops above compare a within-cluster pair only with the between-cluster pairs
    enumerated AFTER it, so a within-cluster pair enumerated late is never scored. The index
    as intended compares every within-cluster distance with every between-cluster distance:
    each comparison of positions (a, b) in either order.
  */
  function Flipped(qs: seq<(nat, nat)>): (r: seq<(nat, nat)>)
    ensures |r| == |qs|
    ensures forall k :: 0 <= k < |qs| ==> r[k] == (qs[k].1, qs[k].0)
  {
    seq(|qs|, k requires 0 <= k < |qs| => (qs[k].1, qs[k].0))
  }

  /** The counters over every ordered pair of distinct pair positions. */
  function SymmetricTally(d: seq<real>, w: seq<bool>): Tally
    requires |w| == |d|
  {
    var qs := Pairs(|d|);
    var t, u := TallyOf(d, w, qs), TallyOf(d, w, Flipped(qs));
    Tally(t.plus + u.plus, t.minus + u.minus)
  }

  /** The corrected index: every within-cluster distance against every between-cluster distance. */
  function SymmetricGammaOf(x: seq<seq<real>>, y: seq<nat>): real
    requires Matrix(x) && Labelled(x, y)
  {
    var ps := Pairs(|x|);
    Gamma(SymmetricTally(DistancesOf(x, ps), BetweenOf(y, ps)))
  }

  /** Every within-cluster distance is smaller than every between-cluster distance. */
  predicate Separated(d: seq<real>, w: seq<bool>)
    requires |w| == |d|
  {
    forall a, b :: 0 <= a < |d| && 0 <= b < |d| && !w[a] && w[b] ==> d[a] < d[b]
  }

  lemma {:induction false} NoDiscordance(d: seq<real>, w: seq<bool>, qs: seq<(nat, nat)>)
    requires |w| == |d| && InRange(qs, |d|) && Separated(d, w)
    ensures TallyOf(d, w, qs).minus == 0
  {
    if |qs| > 0 {
      NoDiscordance(d, w, qs[..|qs| - 1]);
    }
  }

  lemma {:induction false} ScoredWhenListed(d: seq<real>, w: seq<bool>, qs: seq<(nat, nat)>, k: nat)
    requires |w| == |d| && InRange(qs, |d|) && k < |qs|
    requires Compare(d, w, qs[k].0, qs[k].1).plus == 1
    ensures TallyOf(d, w, qs).plus >= 1
  {
    if k < |qs| - 1 {
      ScoredWhenListed(d, w, qs[..|qs| - 1], k);
    }
  }

  /**
    On separated clusters with at least one pair of each kind, the corrected index is 1:
    every comparison is concordant, and some comparison is made.
  */
  lemma SymmetricGammaOnSeparation(d: seq<real>, w: seq<bool>, a: nat, b: nat)
    requires |w| == |d| && a < |d| && b < |d| && !w[a] && w[b]
    requires Separated(d, w)
    ensures Gamma(SymmetricTally(d, w)) == 1.0
  {
    var qs := Pairs(|d|);
    NoDiscordance(d, w, qs);
    NoDiscordance(d, w, Flipped(qs));
    assert SymmetricTally(d, w).minus == 0;
    if a < b {
      ScoredForward(d, w, a, b);
    } else {
      ScoredBackward(d, w, a, b);
    }
    GammaBounds(SymmetricTally(d, w));
  }

  /** A within pair listed before a between pair is scored concordant by the forward count. */
  lemma ScoredForward(d: seq<real>, w: seq<bool>, a: nat, b: nat)
    requires |w| == |d| && a < b < |d| && !w[a] && w[b]
    requires Separated(d, w)
    ensures TallyOf(d, w, Pairs(|d|)).plus >= 1
  {
    var qs := Pairs(|d|);
    PairsComplete(|d|, a, b);
    var k :| 0 <= k < |qs| && qs[k] == (a, b);
    ScoredWhenListed(d, w, qs, k);
  }

  /** A within pair listed after a between pair is scored concordant by the reversed count. */
  lemma ScoredBackward(d: seq<real>, w: seq<bool>, a: nat, b: nat)
    requires |w| == |d| && b < a < |d| && !w[a] && w[b]
    requires Separated(d, w)
    ensures TallyOf(d, w, Flipped(Pairs(|d|))).plus >= 1
  {
    var qs := Pairs(|d|);
    PairsComplete(|d|, b, a);
    var k :| 0 <= k < |qs| && qs[k] == (b, a);
    ScoredWhenListed(d, w, Flipped(qs), k);
  }

  /**
    Three points on a line, [0], [10] and [11], labelled [0, 1, 1]: the only within-cluster
    pair (1, 2) is enumerated last, so the loops score nothing and return 0, while the clusters
    are perfectly separated and the corrected index is 1.
  */
  lemma LateWithinPairIgnored()
    ensures GammaOf([[0.0], [10.0], [11.0]], [0, 1, 1]) == 0.0
    ensures SymmetricGammaOf([[0.0], [10.0], [11.0]], [0, 1, 1]) == 1.0
  {
    LateWithinGamma();
    LateWithinSymmetricGamma();
  }

  /** The loops as written score no comparison on the three points. */
  lemma LateWithinGamma()
    ensures GammaOf([[0.0], [10.0], [11.0]], [0, 1, 1]) == 0.0
  {
    ThreePoints();
    var d, w := [100.0, 121.0, 1.0], [true, true, false];
    PairsOfThree();
    LaterWithinNeverCandidate(w);
    TallyAtMostCandidates(d, w, Pairs(3));
  }

  /** The symmetric count sees the within pair below both between pairs. */
  lemma LateWithinSymmetricGamma()
    ensures SymmetricGammaOf([[0.0], [10.0], [11.0]], [0, 1, 1]) == 1.0
  {
    ThreePoints();
    var d, w := [100.0, 121.0, 1.0], [true, true, false];
    assert Separated(d, w);
    SymmetricGammaOnSeparation(d, w, 2, 0);
  }

  /** The squared distances and the between flags of the three points, in loop order. */
  lemma ThreePoints()
    ensures DistancesOf([[0.0], [10.0], [11.0]], Pairs(3)) == [100.0, 121.0, 1.0]
    ensures BetweenOf([0, 1, 1], Pairs(3)) == [true, true, false]
  {
    PairsOfThree();
  }

  lemma PairsOfThree()
    ensures Pairs(3) == [(0, 1), (0, 2), (1, 2)]
  {
    assert Row(0, 3) == [(0, 1), (0, 2)];
    assert Row(1, 3) == [(1, 2)];
    assert Row(2, 3) == [];
  }

  lemma LaterWithinNeverCandidate(w: seq<bool>)
    requires w == [true, true, false]
    ensures Candidates(w, [(0, 1), (0, 2), (1, 2)]) == 0
  {
    var qs: seq<(nat, nat)> := [(0, 1), (0, 2), (1, 2)];
    assert qs[..2][..1] == qs[..1];
    assert Candidates(w, qs[..1]) == 0;
    assert Candidates(w, qs[..2]) == 0;
  }
}
