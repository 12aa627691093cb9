/**
  Exact sums over real vectors: the reductions (`np.sum`, `np.mean`, `np.var`, counting
  with `np.where`) that the regression formulas are built from, with the facts about
  them that the metric bounds need.
*/
module Sums {

  function Abs(x: real): (r: real)
    ensures r >= 0.0 && (r == x || r == -x)
  {
    if x < 0.0 then -x else x
  }

  function Sq(x: real): (r: real)
    ensures r >= 0.0
  {
    x * x
  }

  /** `np.sum`, accumulated from the first element to the last. */
  function Sum(s: seq<real>): real {
    if s == [] then 0.0 else Sum(s[..|s| - 1]) + s[|s| - 1]
  }

  /** Element-wise sum of two vectors of equal length. */
  function Plus(s: seq<real>, u: seq<real>): (r: seq<real>)
    requires |s| == |u|
    ensures |r| == |s|
  {
    seq(|s|, i requires 0 <= i < |s| => s[i] + u[i])
  }

  /** Every element multiplied by `c`. */
  function Scale(c: real, s: seq<real>): (r: seq<real>)
    ensures |r| == |s|
  {
    seq(|s|, i requires 0 <= i < |s| => c * s[i])
  }

  /** Element-wise product of two vectors of equal length. */
  function Times(s: seq<real>, u: seq<real>): (r: seq<real>)
    requires |s| == |u|
    ensures |r| == |s|
  {
    seq(|s|, i requires 0 <= i < |s| => s[i] * u[i])
  }

  /** Every element minus `c` (`x - np.mean(x)` when c is the mean). */
  function Shift(s: seq<real>, c: real): (r: seq<real>)
    ensures |r| == |s|
  {
    seq(|s|, i requires 0 <= i < |s| => s[i] - c)
  }

  /** The real mean of a non-empty vector, 0.0 for an empty one (whose elements it never meets). */
  function RealMean(s: seq<real>): real {
    if s == [] then 0.0 else Sum(s) / |s| as real
  }

  /** Number of true entries (`np.sum` of a boolean vector). */
  function Count(bs: seq<bool>): (k: nat)
    ensures k <= |bs|
  {
    if bs == [] then 0 else Count(bs[..|bs| - 1]) + (if bs[|bs| - 1] then 1 else 0)
  }

  /** Sum of the concatenation. */
  lemma {:induction false} SumConcat(a: seq<real>, b: seq<real>)
    ensures Sum(a + b) == Sum(a) + Sum(b)
  {
    if b != [] {
      SumConcat(a, b[..|b| - 1]);
      assert (a + b)[..|a + b| - 1] == a + b[..|b| - 1];
    } else {
      assert a + b == a;
    }
  }

  /** Taking one element out of the middle lowers the sum by that element. */
  lemma SumWithout(a: seq<real>, x: real, b: seq<real>)
    ensures Sum(a + [x] + b) == Sum(a + b) + x
  {
    SumConcat(a + [x], b);
    SumConcat(a, [x]);
    SumConcat(a, b);
    assert [x][..0] == [];
  }

  /** The sum splits at any position into the sums of the two parts. */
  lemma SumSplit(s: seq<real>, k: nat)
    requires k <= |s|
    ensures Sum(s) == Sum(s[..k]) + Sum(s[k..])
  {
    assert s == s[..k] + s[k..];
    SumConcat(s[..k], s[k..]);
  }

  /** A prefix of non-negative values sums to between 0 and the whole sum. */
  lemma PrefixWithinSum(s: seq<real>, k: nat)
    requires k <= |s|
    requires forall i :: 0 <= i < |s| ==> s[i] >= 0.0
    ensures 0.0 <= Sum(s[..k]) <= Sum(s)
  {
    SumSplit(s, k);
    SumNonNeg(s[..k]);
    SumNonNeg(s[k..]);
  }

  lemma {:induction false} SumNonNeg(s: seq<real>)
    requires forall i :: 0 <= i < |s| ==> s[i] >= 0.0
    ensures Sum(s) >= 0.0
  {
    if s != [] {
      SumNonNeg(s[..|s| - 1]);
    }
  }

  /** A sum of non-negative terms is zero only when every term is. */
  lemma {:induction false} SumZeroOnlyIfAllZero(s: seq<real>, k: nat)
    requires forall i :: 0 <= i < |s| ==> s[i] >= 0.0
    requires k < |s| && s[k] > 0.0
    ensures Sum(s) > 0.0
  {
    var init := s[..|s| - 1];
    if k == |s| - 1 {
      SumNonNeg(init);
    } else {
      SumZeroOnlyIfAllZero(init, k);
    }
  }

  lemma {:induction false} SumAllZero(s: seq<real>)
    requires forall i :: 0 <= i < |s| ==> s[i] == 0.0
    ensures Sum(s) == 0.0
  {
    if s != [] {
      SumAllZero(s[..|s| - 1]);
    }
  }

  /** Each term at most `c` bounds the sum by |s| * c. */
  lemma {:induction false} SumAtMost(s: seq<real>, c: real)
    requires forall i :: 0 <= i < |s| ==> s[i] <= c
    ensures Sum(s) <= |s| as real * c
  {
    if s != [] {
      SumAtMost(s[..|s| - 1], c);
    }
  }

  /** Each term at least `c` bounds the sum below by |s| * c. */
  lemma {:induction false} SumAtLeast(s: seq<real>, c: real)
    requires forall i :: 0 <= i < |s| ==> c <= s[i]
    ensures |s| as real * c <= Sum(s)
  {
    if s != [] {
      SumAtLeast(s[..|s| - 1], c);
    }
  }

  /** Summing is monotone in every term. */
  lemma {:induction false} SumMonotone(s: seq<real>, u: seq<real>)
    requires |s| == |u|
    requires forall i :: 0 <= i < |s| ==> s[i] <= u[i]
    ensures Sum(s) <= Sum(u)
  {
    if s != [] {
      SumMonotone(s[..|s| - 1], u[..|u| - 1]);
    }
  }

  lemma {:induction false} SumPlus(s: seq<real>, u: seq<real>)
    requires |s| == |u|
    ensures Sum(Plus(s, u)) == Sum(s) + Sum(u)
  {
    if s != [] {
      var n := |s| - 1;
      SumPlus(s[..n], u[..n]);
      assert Plus(s, u)[..n] == Plus(s[..n], u[..n]);
    }
  }

  lemma {:induction false} SumScale(c: real, s: seq<real>)
    ensures Sum(Scale(c, s)) == c * Sum(s)
  {
    if s != [] {
      var n := |s| - 1;
      SumScale(c, s[..n]);
      forall i | 0 <= i < n ensures Scale(c, s)[..n][i] == Scale(c, s[..n])[i] {
      }
      assert Scale(c, s)[..n] == Scale(c, s[..n]);
    }
  }

  /** Equal vectors of equal length have equal sums; a pointwise equality suffices. */
  lemma SumCongruent(s: seq<real>, u: seq<real>)
    requires |s| == |u|
    requires forall i :: 0 <= i < |s| ==> s[i] == u[i]
    ensures Sum(s) == Sum(u)
  {
    assert s == u;
  }

  /** The centred values of a non-empty vector sum to zero. */
  lemma SumShiftMean(s: seq<real>)
    ensures Sum(Shift(s, RealMean(s))) == 0.0
  {
    if s != [] {
      var m := RealMean(s);
      var ones := seq(|s|, i requires 0 <= i < |s| => 1.0);
      assert Shift(s, m) == Plus(s, Scale(-m, ones));
      SumPlus(s, Scale(-m, ones));
      SumScale(-m, ones);
      SumConstant(ones, 1.0);
    }
  }

  lemma {:induction false} SumConstant(s: seq<real>, c: real)
    requires forall i :: 0 <= i < |s| ==> s[i] == c
    ensures Sum(s) == |s| as real * c
  {
    if s != [] {
      SumConstant(s[..|s| - 1], c);
    }
  }

  /** The square of p*x + q*y, expanded. */
  lemma ExpandSquare(p: real, q: real, x: real, y: real)
    ensures (p * x + q * y) * (p * x + q * y)
         == p * p * (x * x) + 2.0 * p * q * (x * y) + q * q * (y * y)
  {
  }

  /** Element i of the squares of p*a + q*b, expanded. */
  lemma ExpandSquareAt(a: seq<real>, b: seq<real>, p: real, q: real, i: int)
    requires |a| == |b| && 0 <= i < |a|
    ensures Times(Plus(Scale(p, a), Scale(q, b)), Plus(Scale(p, a), Scale(q, b)))[i]
         == Plus(Scale(p * p, Times(a, a)), Plus(Scale(2.0 * p * q, Times(a, b)), Scale(q * q, Times(b, b))))[i]
  {
    ExpandSquare(p, q, a[i], b[i]);
  }

  /** The quadratic form sum((p*a[i] + q*b[i])^2) is non-negative for every p and q. */
  lemma QuadraticNonNeg(a: seq<real>, b: seq<real>, p: real, q: real)
    requires |a| == |b|
    ensures p * p * Sum(Times(a, a)) + 2.0 * p * q * Sum(Times(a, b)) + q * q * Sum(Times(b, b)) >= 0.0
  {
    var r := Plus(Scale(p, a), Scale(q, b));
    var w := Times(r, r);
    forall i | 0 <= i < |w| ensures w[i] >= 0.0 {
      assert w[i] == r[i] * r[i];
    }
    SumNonNeg(w);
    var aa, ab, bb := Scale(p * p, Times(a, a)), Scale(2.0 * p * q, Times(a, b)), Scale(q * q, Times(b, b));
    forall i | 0 <= i < |a| ensures w[i] == Plus(aa, Plus(ab, bb))[i] {
      ExpandSquareAt(a, b, p, q, i);
    }
    SumCongruent(w, Plus(aa, Plus(ab, bb)));
    SumPlus(aa, Plus(ab, bb));
    SumPlus(ab, bb);
    SumScale(p * p, Times(a, a));
    SumScale(2.0 * p * q, Times(a, b));
    SumScale(q * q, Times(b, b));
  }

  /**
    Cauchy-Schwarz for finite vectors: (sum a*b)^2 <= (sum a*a) * (sum b*b).
    With A, B, C the sums of a*a, b*b, a*b: taking p, q = B, -C in the quadratic form gives
    B * (A*B - C*C) >= 0; when B is zero, p, q = 1, -(A+1)/(2C) would make it -1 unless C is zero.
  */
  lemma CauchySchwarz(a: seq<real>, b: seq<real>)
    requires |a| == |b|
    ensures Sq(Sum(Times(a, b))) <= Sum(Times(a, a)) * Sum(Times(b, b))
  {
    var A, B, C := Sum(Times(a, a)), Sum(Times(b, b)), Sum(Times(a, b));
    QuadraticNonNeg(a, b, 1.0, 0.0);
    QuadraticNonNeg(a, b, 0.0, 1.0);
    if B == 0.0 {
      if C != 0.0 {
        var q := -(A + 1.0) / (2.0 * C);
        assert 2.0 * q * C == -(A + 1.0);
        QuadraticNonNeg(a, b, 1.0, q);
      }
    } else {
      QuadraticNonNeg(a, b, B, -C);
      assert B * B * A + 2.0 * B * -C * C + -C * -C * B == B * (A * B - C * C);
    }
  }

  /** Counting is monotone: pointwise implication bounds the counts. */
  lemma {:induction false} CountMonotone(bs: seq<bool>, cs: seq<bool>)
    requires |bs| == |cs|
    requires forall i :: 0 <= i < |bs| ==> bs[i] ==> cs[i]
    ensures Count(bs) <= Count(cs)
  {
    if bs != [] {
      CountMonotone(bs[..|bs| - 1], cs[..|cs| - 1]);
    }
  }

  lemma {:induction false} CountAllTrue(bs: seq<bool>)
    requires forall i :: 0 <= i < |bs| ==> bs[i]
    ensures Count(bs) == |bs|
  {
    if bs != [] {
      CountAllTrue(bs[..|bs| - 1]);
    }
  }

  /** A quotient of a non-negative value by a larger positive one lies in [0, 1]. */
  lemma RatioInUnit(a: real, b: real)
    requires 0.0 <= a <= b && b > 0.0
    ensures 0.0 <= a / b <= 1.0
  {
  }

  /** A sum bounded by n * c has its mean bounded by c. */
  lemma MeanAtMost(a: real, n: real, c: real)
    requires n > 0.0 && a <= n * c
    ensures a / n <= c
  {
  }

  /** The product of two non-zero values of the same sign is positive. */
  lemma ProductPositive(x: real, y: real, t: real)
    requires t == x * y && x != 0.0 && y != 0.0 && (x > 0.0 <==> y > 0.0)
    ensures t > 0.0
  {
    if x < 0.0 {
      assert t == (-x) * (-y);
    }
  }

  /** A square t is never negative. */
  lemma SquareNonNeg(x: real, t: real)
    requires t == x * x
    ensures t >= 0.0
  {
  }

  /** A non-zero value has a positive square t. */
  lemma SquarePositive(x: real, t: real)
    requires t == x * x && x != 0.0
    ensures t > 0.0
  {
    ProductPositive(x, x, t);
  }

  /** A sum bounded below by n * c has its mean bounded below by c. */
  lemma MeanAtLeast(a: real, n: real, c: real)
    requires n > 0.0 && n * c <= a
    ensures c <= a / n
  {
  }

  /** Squaring is monotone on non-negative values. */
  lemma SquareMonotone(x: real, y: real)
    requires 0.0 <= x <= y
    ensures x * x <= y * y
  {
    assert x * x <= x * y;
    assert x * y <= y * y;
  }

  /** A positive share of a positive whole is positive, and multiplying back restores the part. */
  lemma PositiveRatio(x: real, y: real)
    requires x > 0.0 && y > 0.0
    ensures x / y > 0.0 && (x / y) * y == x
  {
  }

  lemma PositiveProduct(x: real, y: real)
    requires x > 0.0 && y > 0.0
    ensures x * y > 0.0
  {
  }

  lemma NonNegProduct(x: real, y: real)
    requires x >= 0.0 && y >= 0.0
    ensures x * y >= 0.0
  {
  }

  lemma QuotTimes(x: real, y: real)
    requires y != 0.0
    ensures (x / y) * y == x
  {
  }

  /** A quotient is unchanged when both sides are multiplied by the same non-zero k. */
  lemma DivCancel(x: real, y: real, k: real)
    requires y != 0.0 && k != 0.0
    ensures x / y == (x * k) / (y * k)
  {
    var q := x / y;
    QuotTimes(x, y);
    assert y * k != 0.0;
    assert q * (y * k) == x * k;
  }

  /** n/m == x/y once both are cleared to the same fraction: n*d == x*k and m*d == y*k. */
  lemma SameQuotient(n: real, m: real, d: real, x: real, y: real, k: real)
    requires m != 0.0 && d != 0.0 && y != 0.0 && k != 0.0
    requires n * d == x * k && m * d == y * k
    ensures n / m == x / y
  {
    DivCancel(n, m, d);
    DivCancel(x, y, k);
  }

  /** A positive factor can be cancelled from both sides of an inequality. */
  lemma CancelPositive(x: real, y: real, s: real)
    requires s > 0.0 && x * s <= y * s
    ensures x <= y
  {
    if x > y {
      PositiveProduct(x - y, s);
    }
  }

  /** Multiplying by a non-negative value keeps the order. */
  lemma MulMonotone(q: real, b: real, b': real)
    requires q >= 0.0 && b <= b'
    ensures q * b <= q * b'
  {
    assert q * b' - q * b == q * (b' - b);
  }

  /** The same non-negative part of a larger whole is a smaller share. */
  lemma SmallerForLargerWhole(a: real, b: real, b': real)
    requires 0.0 <= a && 0.0 < b <= b'
    ensures a / b' <= a / b
  {
    var q, q' := a / b, a / b';
    QuotTimes(a, b);
    QuotTimes(a, b');
    assert q' >= 0.0;
    MulMonotone(q', b, b');
    CancelPositive(q', q, b);
  }

  // ---------------------------------------------------------------------------------
  // Prefix sums of a vector listed from its largest value down
  // ---------------------------------------------------------------------------------

  /** Values listed from the largest to the smallest. */
  predicate Descending(u: seq<real>) {
    forall i, j :: 0 <= i < j < |u| ==> u[i] >= u[j]
  }

  /** Taking the element at j out of a sequence takes one copy of it out of its multiset. */
  lemma MultisetWithout(s: seq<real>, j: nat)
    requires j < |s|
    ensures multiset(s[..j] + s[j + 1..]) == multiset(s) - multiset{s[j]}
  {
    assert s == s[..j] + [s[j]] + s[j + 1..];
  }

  /** A prefix through position j sums to the same prefix with j taken out, plus s[j]. */
  lemma PrefixWithout(s: seq<real>, j: nat, k: nat)
    requires j < k <= |s|
    ensures Sum(s[..k]) == Sum((s[..j] + s[j + 1..])[..k - 1]) + s[j]
  {
    assert s[..k] == s[..j] + [s[j]] + s[j + 1..k];
    assert (s[..j] + s[j + 1..])[..k - 1] == s[..j] + s[j + 1..k];
    SumWithout(s[..j], s[j], s[j + 1..k]);
  }

  /** A prefix of k >= 1 elements is the head plus the first k - 1 of the tail. */
  lemma PrefixHead(u: seq<real>, k: nat)
    requires 0 < k <= |u|
    ensures Sum(u[..k]) == u[0] + Sum(u[1..][..k - 1])
  {
    assert u[..k] == [u[0]] + u[1..][..k - 1];
    SumConcat([u[0]], u[1..][..k - 1]);
    assert [u[0]][..0] == [];
  }

  /**
    Where the head of u sits in a reordering s of it; taking it out of both leaves
    reorderings of each other.
  */
  lemma LargestPosition(s: seq<real>, u: seq<real>) returns (j: nat)
    requires multiset(s) == multiset(u) && |u| > 0
    ensures j < |s| && s[j] == u[0]
    ensures multiset(s[..j] + s[j + 1..]) == multiset(u[1..])
  {
    assert u[0] in multiset(s);
    j :| 0 <= j < |s| && s[j] == u[0];
    MultisetWithout(s, j);
    MultisetWithout(u, 0);
    assert u[..0] + u[1..] == u[1..];
  }

  /**
    One step of PrefixBelowDescending when the largest value u[0] sits at j inside the
    prefix: both prefixes lose it and the rest compares one element shorter.
  */
  lemma PrefixStepWithin(s: seq<real>, u: seq<real>, k: nat, j: nat)
    requires 0 < k <= |s| && |s| == |u| && j < k && s[j] == u[0]
    requires Sum((s[..j] + s[j + 1..])[..k - 1]) <= Sum(u[1..][..k - 1])
    ensures Sum(s[..k]) <= Sum(u[..k])
  {
    PrefixHead(u, k);
    PrefixWithout(s, j, k);
  }

  /**
    One step of PrefixBelowDescending when u[0] sits at j beyond the prefix: the prefix of s
    is unchanged and trading u[k] for the larger u[0] only raises the other side.
  */
  lemma PrefixStepBeyond(s: seq<real>, u: seq<real>, k: nat, j: nat)
    requires Descending(u)
    requires 0 < k <= |s| && |s| == |u| && k <= j < |s| && s[j] == u[0]
    requires Sum((s[..j] + s[j + 1..])[..k]) <= Sum(u[1..][..k])
    ensures Sum(s[..k]) <= Sum(u[..k])
  {
    assert (s[..j] + s[j + 1..])[..k] == s[..k];
    PrefixHead(u, k + 1);
    assert u[..k + 1][..k] == u[..k];
  }

  /**
    Any k of the values sum to at most the k largest: every prefix of a reordering of a
    descending sequence sums to at most the same prefix of that sequence.
  */
  lemma {:induction false} PrefixBelowDescending(s: seq<real>, u: seq<real>, k: nat)
    requires multiset(s) == multiset(u) && Descending(u)
    requires k <= |s|
    ensures |s| == |u|
    ensures Sum(s[..k]) <= Sum(u[..k])
    decreases |u|
  {
    assert |s| == |multiset(s)| == |multiset(u)| == |u|;
    if k > 0 {
      var j := LargestPosition(s, u);
      var s', u' := s[..j] + s[j + 1..], u[1..];
      assert Descending(u');
      if j < k {
        PrefixBelowDescending(s', u', k - 1);
        PrefixStepWithin(s, u, k, j);
      } else {
        PrefixBelowDescending(s', u', k);
        PrefixStepBeyond(s, u, k, j);
      }
    }
  }
}
