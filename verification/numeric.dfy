/** Exact real arithmetic standing in for numpy's float64 reductions. */
module Numeric {
  import opened Wrappers

  /** A float as numpy reports it: a finite value or NaN (infinities are not modelled). */
  datatype Float = Finite(v: real) | NaN

  /** Python truthiness of an optional float: `None` and `0.0` are false, NaN is true. */
  predicate Truthy(x: Option<Float>)
  {
    x.Some? && (x.value.NaN? || x.value.v != 0.0)
  }

  /** IEEE subtraction restricted to finite values and NaN: NaN is absorbing. */
  function Sub(a: Float, b: Float): (r: Float)
    ensures r.NaN? <==> a.NaN? || b.NaN?
    ensures r.Finite? ==> r.v + b.v == a.v
  {
    if a.NaN? || b.NaN? then NaN else Finite(a.v - b.v)
  }

  /** `abs` */
  function Abs(x: real): (r: real)
    ensures r >= 0.0 && (r == x || r == -x)
  {
    if x < 0.0 then -x else x
  }

  function Sum(s: seq<real>): real
  {
    if |s| == 0 then 0.0 else Sum(s[..|s| - 1]) + s[|s| - 1]
  }

  /** `np.mean` of a non-empty array. */
  function Mean(s: seq<real>): real
    requires |s| > 0
  {
    Sum(s) / (|s| as real)
  }

  /** `Σ (x - m)²` */
  function SumSquaredDeviations(s: seq<real>, m: real): real
  {
    if |s| == 0 then 0.0
    else SumSquaredDeviations(s[..|s| - 1], m) + (s[|s| - 1] - m) * (s[|s| - 1] - m)
  }

  /** `np.var` (population variance) of a non-empty array. */
  function Variance(s: seq<real>): real
    requires |s| > 0
  {
    SumSquaredDeviations(s, Mean(s)) / (|s| as real)
  }

  lemma {:induction false} SumNonNegative(s: seq<real>)
    requires forall i :: 0 <= i < |s| ==> s[i] >= 0.0
    ensures Sum(s) >= 0.0
  {
    if |s| > 0 {
      SumNonNegative(s[..|s| - 1]);
    }
  }

  /** The mean of non-negative values is non-negative. */
  lemma MeanNonNegative(s: seq<real>)
    requires |s| > 0 && forall i :: 0 <= i < |s| ==> s[i] >= 0.0
    ensures Mean(s) >= 0.0
  {
    SumNonNegative(s);
  }

  lemma {:induction false} SumSquaredDeviationsNonNegative(s: seq<real>, m: real)
    ensures SumSquaredDeviations(s, m) >= 0.0
  {
    if |s| > 0 {
      SumSquaredDeviationsNonNegative(s[..|s| - 1], m);
      SquareNonNegative(s[|s| - 1] - m);
    }
  }

  lemma SquareNonNegative(y: real)
    ensures y * y >= 0.0
  {
    if y < 0.0 {
      assert y * y == (-y) * (-y);
    }
  }

  lemma VarianceNonNegative(s: seq<real>)
    requires |s| > 0
    ensures Variance(s) >= 0.0
  {
    SumSquaredDeviationsNonNegative(s, Mean(s));
  }

  /** A sequence holding one value throughout sums to its length times that value. */
  lemma {:induction false} SumOfConstant(s: seq<real>, c: real)
    requires forall i :: 0 <= i < |s| ==> s[i] == c
    ensures Sum(s) == (|s| as real) * c
  {
    if |s| > 0 {
      SumOfConstant(s[..|s| - 1], c);
    }
  }

  /** The mean of a constant sequence is that constant. */
  lemma MeanOfConstant(s: seq<real>, c: real)
    requires |s| > 0 && forall i :: 0 <= i < |s| ==> s[i] == c
    ensures Mean(s) == c
  {
    SumOfConstant(s, c);
  }

  lemma {:induction false} DeviationsFromConstant(s: seq<real>, c: real)
    requires forall i :: 0 <= i < |s| ==> s[i] == c
    ensures SumSquaredDeviations(s, c) == 0.0
  {
    if |s| > 0 {
      DeviationsFromConstant(s[..|s| - 1], c);
    }
  }

  /** A constant sequence has no spread. */
  lemma VarianceOfConstant(s: seq<real>, c: real)
    requires |s| > 0 && forall i :: 0 <= i < |s| ==> s[i] == c
    ensures Variance(s) == 0.0
  {
    MeanOfConstant(s, c);
    DeviationsFromConstant(s, c);
  }

  /** The largest element of a non-empty sequence. */
  function MaxOf(s: seq<real>): (r: real)
    requires |s| > 0
    ensures r in s
    ensures forall i :: 0 <= i < |s| ==> s[i] <= r
  {
    if |s| == 1 then s[0]
    else
      var m := MaxOf(s[..|s| - 1]);
      assert forall i :: 0 <= i < |s| - 1 ==> s[..|s| - 1][i] == s[i];
      if s[|s| - 1] > m then s[|s| - 1] else m
  }

  function Finites(s: seq<Float>): (r: seq<real>)
    ensures |r| <= |s|
  {
    if |s| == 0 then []
    else Finites(s[..|s| - 1]) + (if s[|s| - 1].Finite? then [s[|s| - 1].v] else [])
  }

  /** `np.nanmean`: the mean of the non-NaN entries, NaN when there are none. */
  function NanMean(s: seq<Float>): (r: Float)
    ensures r.NaN? <==> |Finites(s)| == 0
  {
    var f := Finites(s);
    if |f| == 0 then NaN else Finite(Mean(f))
  }

  /** `np.mean` over floats: NaN as soon as one entry is NaN (or the array is empty). */
  function MeanFloat(s: seq<Float>): (r: Float)
    ensures r.NaN? <==> |s| == 0 || exists i :: 0 <= i < |s| && s[i].NaN?
  {
    if |s| == 0 || exists i :: 0 <= i < |s| && s[i].NaN? then NaN
    else Finite(Mean(seq(|s|, i requires 0 <= i < |s| => s[i].v)))
  }
}
