/** The Kish effective sample size and the sampling efficiency of
    `bgflow/bg.py`, in weight space: the log-space formula
    `exp(2 logsumexp(logw) - logsumexp(2 logw))` is `(sum w)^2 / sum w^2` for
    the weights `w_i = exp(logw_i)`, which are positive. An empty batch gives
    NaN in torch; it is `None` here. */
module Ess {
  import opened Common

  /** Sum of squares. */
  function SumSq(v: seq<real>): real
  {
    if |v| == 0 then 0.0 else v[0] * v[0] + SumSq(v[1..])
  }

  predicate Positive(w: seq<real>)
  {
    forall i :: 0 <= i < |w| ==> w[i] > 0.0
  }

  function Scale(c: real, w: seq<real>): (s: seq<real>)
    ensures |s| == |w|
    ensures forall i :: 0 <= i < |w| ==> s[i] == c * w[i]
  {
    seq(|w|, i requires 0 <= i < |w| => c * w[i])
  }

  /** Pairwise products, summed; `SumSq(w)` is `Dot(w, w)`. */
  function Dot(u: seq<real>, v: seq<real>): real
    requires |u| == |v|
  {
    if |u| == 0 then 0.0 else u[0] * v[0] + Dot(u[1..], v[1..])
  }

  lemma {:induction false} SumSqIsDot(w: seq<real>)
    ensures SumSq(w) == Dot(w, w)
  {
    if |w| > 0 {
      SumSqIsDot(w[1..]);
    }
  }

  lemma {:induction false} DotPositive(u: seq<real>, v: seq<real>)
    requires |u| == |v| > 0 && Positive(u) && Positive(v)
    ensures Dot(u, v) > 0.0
  {
    if |u| > 1 {
      DotPositive(u[1..], v[1..]);
    }
  }

  lemma {:induction false} SumPositive(w: seq<real>)
    requires Positive(w) && |w| > 0
    ensures Sum(w) > 0.0 && SumSq(w) > 0.0
  {
    SumSqIsDot(w);
    DotPositive(w, w);
    if |w| > 1 {
      SumPositive(w[1..]);
    }
  }

  lemma MulPositive(a: real, b: real)
    requires a > 0.0 && b > 0.0
    ensures a * b > 0.0
  {
  }

  /** For non-negative weights the square of the sum is at least the sum of
      squares. */
  lemma {:induction false} SquareOfSumAtLeast(w: seq<real>)
    requires Positive(w)
    ensures Sum(w) >= 0.0
    ensures Sum(w) * Sum(w) >= SumSq(w)
  {
    if |w| > 0 {
      var a, s := w[0], Sum(w[1..]);
      SquareOfSumAtLeast(w[1..]);
      assert a * s >= 0.0;
      assert (a + s) * (a + s) == a * a + 2.0 * a * s + s * s;
    }
  }

  /** The squared deviations from `a` add up to a non-negative amount. */
  lemma {:induction false} Deviation(w: seq<real>, a: real)
    ensures SumSq(w) - 2.0 * a * Sum(w) + (|w| as real) * a * a >= 0.0
  {
    if |w| > 0 {
      var b := w[0];
      Deviation(w[1..], a);
      assert (b - a) * (b - a) >= 0.0;
      assert (|w| as real) * a * a == (|w[1..]| as real) * a * a + a * a;
    }
  }

  /** Cauchy-Schwarz for a sum: `(sum w)^2 <= n * sum w^2`. */
  lemma {:induction false} CauchySchwarz(w: seq<real>)
    ensures Sum(w) * Sum(w) <= (|w| as real) * SumSq(w)
  {
    if |w| > 0 {
      var a, rest := w[0], w[1..];
      var s, q, m := Sum(rest), SumSq(rest), |rest| as real;
      CauchySchwarz(rest);
      Deviation(rest, a);
      assert (a + s) * (a + s) == a * a + 2.0 * a * s + s * s;
      assert (m + 1.0) * (a * a + q) == m * q + q + m * a * a + a * a;
    }
  }

  /** `effective_sample_size`: lies between 1 and the number of weights. */
  function EffectiveSampleSize(w: seq<real>): (r: Option<real>)
    requires Positive(w)
    ensures r.None? <==> |w| == 0
    ensures r.Some? ==> 1.0 <= r.value <= |w| as real
  {
    if |w| == 0 then None
    else
      SumPositive(w);
      SquareOfSumAtLeast(w);
      CauchySchwarz(w);
      DivBounds(Sum(w) * Sum(w), SumSq(w), |w| as real);
      Some(Sum(w) * Sum(w) / SumSq(w))
  }

  lemma DivBounds(num: real, den: real, n: real)
    requires den > 0.0 && den <= num && num <= n * den
    ensures 1.0 <= num / den <= n
  {
  }

  lemma ScaleTail(c: real, w: seq<real>)
    requires |w| > 0
    ensures Scale(c, w)[0] == c * w[0]
    ensures Scale(c, w)[1..] == Scale(c, w[1..])
  {
    var t, u := Scale(c, w)[1..], Scale(c, w[1..]);
    forall i | 0 <= i < |u|
      ensures t[i] == u[i]
    {
      assert t[i] == Scale(c, w)[i + 1];
    }
  }

  /** Scaling every weight scales the sum. */
  lemma {:induction false} ScaleSum(c: real, w: seq<real>)
    ensures Sum(Scale(c, w)) == c * Sum(w)
  {
    if |w| > 0 {
      ScaleTail(c, w);
      ScaleSum(c, w[1..]);
      ScaleStep(c, w[0], Sum(w[1..]));
    }
  }

  lemma ScaleStep(c: real, a: real, s: real)
    ensures c * a + c * s == c * (a + s)
  {
  }

  /** Scaling every weight by `c` scales the sum of squares by `c * c`. */
  lemma {:induction false} ScaleSumSq(c: real, w: seq<real>)
    ensures SumSq(Scale(c, w)) == c * c * SumSq(w)
  {
    if |w| > 0 {
      ScaleTail(c, w);
      ScaleSumSq(c, w[1..]);
      ScaleSqStep(c, w[0], SumSq(w[1..]));
    }
  }

  lemma ScaleSqStep(c: real, a: real, q: real)
    ensures (c * a) * (c * a) + c * c * q == c * c * (a * a + q)
  {
  }

  /** The weights need not be normalised: scaling all of them by one positive
      factor (shifting all log-weights by one constant) leaves the effective
      sample size unchanged. */
  lemma ScaleInvariant(c: real, w: seq<real>)
    requires c > 0.0 && Positive(w)
    ensures Positive(Scale(c, w))
    ensures EffectiveSampleSize(Scale(c, w)) == EffectiveSampleSize(w)
  {
    forall i | 0 <= i < |w|
      ensures Scale(c, w)[i] > 0.0
    {
      MulPositive(c, w[i]);
    }
    if |w| > 0 {
      ScaleSum(c, w);
      ScaleSumSq(c, w);
      SumPositive(w);
      SumPositive(Scale(c, w));
      ScaledRatio(c, Sum(w), SumSq(w), Sum(Scale(c, w)), SumSq(Scale(c, w)));
      EssValue(w);
      EssValue(Scale(c, w));
    }
  }

  lemma EssValue(w: seq<real>)
    requires Positive(w) && |w| > 0
    ensures SumSq(w) > 0.0
    ensures EffectiveSampleSize(w) == Some(Sum(w) * Sum(w) / SumSq(w))
  {
    SumPositive(w);
    var e := EffectiveSampleSize(w);
    assert e.Some?;
    assert e.value == Sum(w) * Sum(w) / SumSq(w);
  }

  lemma ScaledRatio(c: real, s: real, q: real, cs: real, ccq: real)
    requires c > 0.0 && q > 0.0 && ccq > 0.0 && cs == c * s && ccq == c * c * q
    ensures cs * cs / ccq == s * s / q
  {
    CancelScales(c, c, s, s, q);
    SameRatio(cs, c * s, ccq, c * c * q);
  }

  lemma SameRatio(a: real, a': real, b: real, b': real)
    requires a == a' && b == b' && b != 0.0
    ensures a * a / b == a' * a' / b'
  {
  }

  /** Stated over distinct factors: the solver reasons poorly about a
      product of a term with itself. */
  lemma CancelScales(c: real, d: real, s: real, t: real, q: real)
    requires c > 0.0 && d > 0.0 && q > 0.0
    ensures (c * s) * (d * t) / (c * d * q) == s * t / q
  {
    MulPositive(c, d);
    assert (c * s) * (d * t) == (c * d) * (s * t);
    CancelFactor(c * d, s * t, q);
  }

  lemma UniformRatio(n: real, c: real)
    requires n > 0.0 && c > 0.0
    ensures n * c * c > 0.0
    ensures (n * c) * (n * c) / (n * c * c) == n
  {
    MulPositive(n, c);
    MulPositive(n * c, c);
    assert (n * c) * (n * c) == n * (n * c * c);
  }

  lemma CancelFactor(k: real, num: real, den: real)
    requires k > 0.0 && den > 0.0
    ensures (k * num) / (k * den) == num / den
  {
  }

  /** Weights that are all equal give the largest value, the number of
      weights. */
  lemma {:induction false} UniformWeights(w: seq<real>, c: real)
    requires c > 0.0 && |w| > 0
    requires forall i :: 0 <= i < |w| ==> w[i] == c
    ensures EffectiveSampleSize(w) == Some(|w| as real)
  {
    UniformSums(w, c);
    UniformRatio(|w| as real, c);
  }

  lemma {:induction false} UniformSums(w: seq<real>, c: real)
    requires forall i :: 0 <= i < |w| ==> w[i] == c
    ensures Sum(w) == (|w| as real) * c
    ensures SumSq(w) == (|w| as real) * c * c
  {
    if |w| > 0 {
      UniformSums(w[1..], c);
    }
  }

  /** `sampling_efficiency`: the effective sample size per sample, in
      (0, 1]. */
  function SamplingEfficiency(w: seq<real>): (r: Option<real>)
    requires Positive(w)
    ensures r.None? <==> |w| == 0
    ensures r.Some? ==> 1.0 / (|w| as real) <= r.value <= 1.0
    ensures r.Some? ==> r.value * (|w| as real) == EffectiveSampleSize(w).value
  {
    match EffectiveSampleSize(w)
    case None => None
    case Some(ess) =>
      var n := |w| as real;
      PerSample(ess, n);
      Some(ess / n)
  }

  lemma PerSample(ess: real, n: real)
    requires 1.0 <= ess <= n
    ensures 1.0 / n <= ess / n <= 1.0
    ensures (ess / n) * n == ess
  {
  }
}
