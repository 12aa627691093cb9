/**
  Double-precision results as numpy produces them, with the rounding of each operation
  left out: a finite value carries the exact real, and the three non-finite outcomes of
  IEEE 754 arithmetic (+inf, -inf, nan) are kept apart. numpy does not raise on a float
  division by zero; it returns one of them (x/0 is +-inf for x != 0, 0/0 is nan).
  Signed zero is not modelled: every zero divisor behaves as +0.
*/
module Floats {

  import opened Sums

  datatype Float = Num(val: real) | PosInf | NegInf | NaN

  /** Sign of a value that is not nan: -1, 0 or 1. */
  function SignOf(x: Float): (s: int)
    requires !x.NaN?
    ensures -1 <= s <= 1
    ensures s == 0 <==> x == Num(0.0)
  {
    match x
    case Num(v) => if v > 0.0 then 1 else if v < 0.0 then -1 else 0
    case PosInf => 1
    case NegInf => -1
  }

  function Neg(x: Float): Float {
    match x
    case Num(v) => Num(-v)
    case PosInf => NegInf
    case NegInf => PosInf
    case NaN => NaN
  }

  /** IEEE addition: nan absorbs, +inf + -inf is nan. */
  function Add(x: Float, y: Float): Float {
    if x.NaN? || y.NaN? then NaN
    else if x.Num? && y.Num? then Num(x.val + y.val)
    else if x.Num? then y
    else if y.Num? then x
    else if x == y then x
    else NaN
  }

  function Sub(x: Float, y: Float): Float {
    Add(x, Neg(y))
  }

  /** IEEE multiplication: inf * 0 is nan, otherwise the signs multiply. */
  function Mul(x: Float, y: Float): Float {
    if x.NaN? || y.NaN? then NaN
    else if x.Num? && y.Num? then Num(x.val * y.val)
    else if SignOf(x) == 0 || SignOf(y) == 0 then NaN
    else if SignOf(x) == SignOf(y) then PosInf
    else NegInf
  }

  /** IEEE division with an unsigned zero divisor. */
  function Div(x: Float, y: Float): Float {
    if x.NaN? || y.NaN? then NaN
    else if x.Num? && y.Num? then
      if y.val != 0.0 then Num(x.val / y.val)
      else if x.val == 0.0 then NaN
      else if x.val > 0.0 then PosInf
      else NegInf
    else if !x.Num? && !y.Num? then NaN
    else if x.Num? then Num(0.0)
    else if SignOf(y) >= 0 then x
    else Neg(x)
  }

  /** numpy's `a / b` on two finite values. */
  function Quot(a: real, b: real): (r: Float)
    ensures r.Num? <==> b != 0.0
    ensures b != 0.0 ==> r.val == a / b
    ensures b == 0.0 ==> (r.NaN? <==> a == 0.0)
  {
    Div(Num(a), Num(b))
  }

  /** numpy's `x >= c` for a finite constant c: false on nan. */
  predicate AtLeast(x: Float, c: real) {
    (x.Num? && x.val >= c) || x.PosInf?
  }

  /** numpy's `x <= c` for a finite constant c: false on nan. */
  predicate AtMost(x: Float, c: real) {
    (x.Num? && x.val <= c) || x.NegInf?
  }

  /** The sum of a float array, accumulated left to right from 0.0. */
  function FSum(xs: seq<Float>): Float
  {
    if xs == [] then Num(0.0) else Add(FSum(xs[..|xs| - 1]), xs[|xs| - 1])
  }

  /** `np.mean` of a float array: its sum over its length, nan when it is empty. */
  function FMean(xs: seq<Float>): Float {
    Div(FSum(xs), Num(|xs| as real))
  }

  /** One nan entry makes the mean nan. */
  lemma FMeanNaN(xs: seq<Float>)
    ensures (exists k :: 0 <= k < |xs| && xs[k].NaN?) ==> FMean(xs).NaN?
  {
    if exists k :: 0 <= k < |xs| && xs[k].NaN? {
      var k :| 0 <= k < |xs| && xs[k].NaN?;
      FSumNaN(xs, k);
    }
  }

  /** The finite values of an all-finite float array. */
  function Vals(xs: seq<Float>): seq<real>
    requires forall i :: 0 <= i < |xs| ==> xs[i].Num?
  {
    seq(|xs|, i requires 0 <= i < |xs| => xs[i].val)
  }

  /** A float array with only finite entries sums to the real sum of its entries. */
  lemma {:induction false} FSumFinite(xs: seq<Float>)
    requires forall i :: 0 <= i < |xs| ==> xs[i].Num?
    ensures FSum(xs) == Num(Sum(Vals(xs)))
  {
    if xs != [] {
      var init := xs[..|xs| - 1];
      FSumFinite(init);
      assert Vals(xs)[..|xs| - 1] == Vals(init);
    }
  }

  /** One nan entry makes the whole sum nan. */
  lemma {:induction false} FSumNaN(xs: seq<Float>, k: nat)
    requires k < |xs| && xs[k].NaN?
    ensures FSum(xs).NaN?
  {
    if k < |xs| - 1 {
      FSumNaN(xs[..|xs| - 1], k);
    }
  }
}
