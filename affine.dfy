/** `AffineTransformer` (bgflow/nn/flow/transformer/affine.py): the
    RealNVP/NICE coupling transform `y -> exp(log_sigma) * y + mu`, where `mu`
    and `log_sigma` come from networks applied to the conditioning input `x`.

    One row is modelled: every operation acts row by row on a batch, and the
    networks' context argument is folded into the network functions. The
    elementary functions `exp` and `tanh` are parameters; the lemmas assume
    only the laws in `ExpInverts` and `Bounded`. */
module Affine {
  import opened Common

  /** The boolean tensor `torch.as_tensor(is_circular)`: a 0-d flag or one
      flag per dimension. */
  datatype Mask = Scalar(flag: bool) | PerDim(flags: seq<bool>)

  /** The field `_is_circular`: still the tensor, or the Python `False` the
      constructor writes over it when a scale network is given. */
  datatype Circularity = Disabled | Circular(mask: Mask)

  datatype AffineTransformer = AffineTransformer(
    shift: Option<Vec -> Vec>,
    scale: Option<Vec -> Vec>,
    logAlpha: real,
    preserveVolume: bool,
    circular: Circularity,
    restrictToUnitInterval: bool)

  /** `exp` and `tanh`, as the caller's implementation provides them. */
  datatype Elementary = Elementary(exp: real -> real, tanh: real -> real)

  /** `exp(0) = 1` and `exp(-a) * exp(a) = 1`. */
  ghost predicate ExpInverts(exp: real -> real)
  {
    && exp(0.0) == 1.0
    && (forall a, b {:trigger exp(a), exp(b)} :: a + b == 0.0 ==> exp(a) * exp(b) == 1.0)
  }

  /** `exp` is positive and `tanh` lies in (-1, 1). */
  ghost predicate Bounded(el: Elementary)
  {
    && (forall a :: el.exp(a) > 0.0)
    && (forall a :: -1.0 < el.tanh(a) < 1.0)
  }

  /** The inverse law at one point. */
  lemma ExpCancels(exp: real -> real, l: real)
    requires ExpInverts(exp)
    ensures exp(-l) * exp(l) == 1.0
    ensures l == 0.0 ==> exp(l) == 1.0 && exp(-l) == 1.0
  {
    assert -l + l == 0.0;
  }

  /** The bounds at one point. */
  lemma BoundsAt(el: Elementary, a: real, u: real)
    requires Bounded(el)
    ensures el.exp(a) > 0.0
    ensures -1.0 < el.tanh(u) < 1.0
  {
  }

  /** `self._is_circular.any()`. */
  predicate AnyFlag(m: Mask)
  {
    match m
    case Scalar(b) => b
    case PerDim(flags) => exists i :: 0 <= i < |flags| && flags[i]
  }

  /** The result of `__init__`, and whether it warned. */
  datatype Init = Init(transformer: AffineTransformer, warned: bool)

  /** What the constructor guarantees: periodicity never survives next to a
      scale network. */
  predicate WellFormed(t: AffineTransformer)
  {
    t.scale.Some? ==> t.circular == Disabled
  }

  /** `__init__`: `log_alpha` starts at `-init_downscale`; a scale network
      switches periodicity off, with a warning exactly when some dimension was
      periodic. */
  function New(shift: Option<Vec -> Vec>, scale: Option<Vec -> Vec>, initDownscale: real,
               preserveVolume: bool, isCircular: Mask, restrictToUnitInterval: bool): (r: Init)
    ensures WellFormed(r.transformer)
    ensures r.transformer.logAlpha == -initDownscale
    ensures r.transformer.circular == (if scale.Some? then Disabled else Circular(isCircular))
    ensures r.warned <==> scale.Some? && AnyFlag(isCircular)
    ensures r.transformer.shift == shift && r.transformer.scale == scale
    ensures r.transformer.preserveVolume == preserveVolume
    ensures r.transformer.restrictToUnitInterval == restrictToUnitInterval
  {
    var circular := if scale.Some? then Disabled else Circular(isCircular);
    var warned := scale.Some? && AnyFlag(isCircular);
    Init(AffineTransformer(shift, scale, 0.0 - initDownscale, preserveVolume, circular, restrictToUnitInterval), warned)
  }

  function Zeros(n: nat): (z: Vec)
    ensures |z| == n
    ensures forall i :: 0 <= i < n ==> z[i] == 0.0
  {
    seq(n, i => 0.0)
  }

  /** `v - v.mean(dim=-1, keepdim=True)`. */
  function Recentre(v: Vec): (r: Vec)
    ensures |r| == |v|
    ensures forall i :: 0 <= i < |v| ==> r[i] == v[i] - Sum(v) / (|v| as real)
  {
    seq(|v|, i requires 0 <= i < |v| => v[i] - Sum(v) / (|v| as real))
  }

  /** `alpha * tanh(scale(x))`, before any recentring. */
  function Squashed(el: Elementary, alpha: real, raw: Vec): (r: Vec)
    ensures |r| == |raw|
    ensures forall i :: 0 <= i < |raw| ==> r[i] == el.tanh(raw[i]) * alpha
  {
    seq(|raw|, i requires 0 <= i < |raw| => el.tanh(raw[i]) * alpha)
  }

  datatype Params = Params(mu: Vec, logSigma: Vec)

  /** `_get_mu_and_log_sigma`: zeros shaped like `y` for a missing network;
      otherwise network outputs, the log-scale squashed by `tanh` and scaled
      by `exp(log_alpha)`, and recentred when volume is preserved. Only the
      length of `y` is used. */
  function GetMuAndLogSigma(t: AffineTransformer, el: Elementary, x: Vec, y: Vec): (p: Params)
    ensures p.mu == (if t.shift.Some? then t.shift.value(x) else Zeros(|y|))
    ensures t.scale.None? ==> p.logSigma == Zeros(|y|)
    ensures t.scale.Some? ==> |p.logSigma| == |t.scale.value(x)|
    ensures t.scale.Some? && !t.preserveVolume ==>
      forall i :: 0 <= i < |p.logSigma| ==> p.logSigma[i] == el.tanh(t.scale.value(x)[i]) * el.exp(t.logAlpha)
  {
    var mu := if t.shift.Some? then t.shift.value(x) else Zeros(|y|);
    var logSigma :=
      if t.scale.None? then Zeros(|y|)
      else
        var squashed := Squashed(el, el.exp(t.logAlpha), t.scale.value(x));
        if t.preserveVolume then Recentre(squashed) else squashed;
    Params(mu, logSigma)
  }

  /** Whether dimension `i` is reduced modulo 1. A 0-d mask selects every
      dimension or none; a per-dimension mask selects its set flags. */
  predicate Wraps(c: Circularity, i: nat)
  {
    match c
    case Disabled => false
    case Circular(Scalar(b)) => b
    case Circular(PerDim(flags)) => i < |flags| && flags[i]
  }

  /** A per-dimension mask must match the last axis of `y`. */
  predicate MaskFits(c: Circularity, n: nat)
  {
    c.Circular? && c.mask.PerDim? ==> |c.mask.flags| == n
  }

  /** Python's `v % 1.0`: the fractional part, in [0, 1). */
  function Wrap(v: real): (w: real)
    ensures 0.0 <= w < 1.0
  {
    v - v.Floor as real
  }

  /** One coordinate of the forward map: `sigma * y + mu`, reduced modulo 1
      on a periodic dimension (the masked `% 1.0`). */
  function AffineForward(sigma: real, y: real, mu: real, wrap: bool): (v: real)
    ensures wrap ==> 0.0 <= v < 1.0
  {
    if wrap then Wrap(sigma * y + mu) else sigma * y + mu
  }

  /** One coordinate of the inverse map: `sigma_inv * (y - mu)`, reduced
      modulo 1 on a periodic dimension. */
  function AffineInverse(sigmaInv: real, y: real, mu: real, wrap: bool): (v: real)
    ensures wrap ==> 0.0 <= v < 1.0
  {
    if wrap then Wrap(sigmaInv * (y - mu)) else sigmaInv * (y - mu)
  }

  datatype Transformed = Transformed(y: Vec, dlogp: real)

  /** Both directions assert that the network outputs match `y`'s width. */
  predicate ShapesMatch(p: Params, y: Vec)
  {
    |p.mu| == |y| && |p.logSigma| == |y|
  }

  /** The forward map for given network outputs: `sigma * y + mu` with
      `sigma = exp(log_sigma)`, wrapped on periodic dimensions, and
      `dlogp = sum(log_sigma)`. */
  function ForwardMap(c: Circularity, el: Elementary, p: Params, y: Vec): (out: Transformed)
    requires ShapesMatch(p, y)
    ensures |out.y| == |y| && out.dlogp == Sum(p.logSigma)
    ensures forall i :: 0 <= i < |y| ==>
      out.y[i] == AffineForward(el.exp(p.logSigma[i]), y[i], p.mu[i], Wraps(c, i))
    ensures forall i :: 0 <= i < |y| && Wraps(c, i) ==> 0.0 <= out.y[i] < 1.0
  {
    var moved := seq(|y|, i requires 0 <= i < |y| => AffineForward(el.exp(p.logSigma[i]), y[i], p.mu[i], Wraps(c, i)));
    Transformed(moved, Sum(p.logSigma))
  }

  function Negated(v: Vec): (r: Vec)
    ensures |r| == |v|
    ensures forall i :: 0 <= i < |v| ==> r[i] == -v[i]
  {
    seq(|v|, i requires 0 <= i < |v| => -v[i])
  }

  lemma {:induction false} SumNegated(v: Vec)
    ensures Sum(Negated(v)) == -Sum(v)
  {
    if |v| > 0 {
      assert Negated(v)[1..] == Negated(v[1..]);
      SumNegated(v[1..]);
    }
  }

  /** The inverse map for given network outputs: `sigma_inv * (y - mu)` with
      `sigma_inv = exp(-log_sigma)`, wrapped on periodic dimensions, and
      `dlogp = sum(-log_sigma)`. */
  function InverseMap(c: Circularity, el: Elementary, p: Params, y: Vec): (out: Transformed)
    requires ShapesMatch(p, y)
    ensures |out.y| == |y| && out.dlogp == -Sum(p.logSigma)
    ensures forall i :: 0 <= i < |y| ==>
      out.y[i] == AffineInverse(el.exp(-p.logSigma[i]), y[i], p.mu[i], Wraps(c, i))
    ensures forall i :: 0 <= i < |y| && Wraps(c, i) ==> 0.0 <= out.y[i] < 1.0
  {
    var moved := seq(|y|, i requires 0 <= i < |y| => AffineInverse(el.exp(-p.logSigma[i]), y[i], p.mu[i], Wraps(c, i)));
    SumNegated(p.logSigma);
    Transformed(moved, Sum(Negated(p.logSigma)))
  }

  /** `_forward`: the network outputs for `x`, the two width assertions, the
      masked wrap (whose mask must fit the width), then the forward map. */
  function Forward(t: AffineTransformer, el: Elementary, x: Vec, y: Vec): (r: Result<Transformed>)
    ensures var p := GetMuAndLogSigma(t, el, x, y);
      && (r.Ok? <==> ShapesMatch(p, y) && MaskFits(t.circular, |y|))
      && (r.Err? ==> r.error == if ShapesMatch(p, y) then IndexError else AssertionError)
      && (r.Ok? ==> ShapesMatch(p, y) && r.value == ForwardMap(t.circular, el, p, y))
  {
    var p := GetMuAndLogSigma(t, el, x, y);
    if !ShapesMatch(p, y) then Err(AssertionError)
    else if !MaskFits(t.circular, |y|) then Err(IndexError)
    else Ok(ForwardMap(t.circular, el, p, y))
  }

  /** `_inverse`: the same checks as `_forward`, then the inverse map. */
  function Inverse(t: AffineTransformer, el: Elementary, x: Vec, y: Vec): (r: Result<Transformed>)
    ensures var p := GetMuAndLogSigma(t, el, x, y);
      && (r.Ok? <==> ShapesMatch(p, y) && MaskFits(t.circular, |y|))
      && (r.Err? ==> r.error == if ShapesMatch(p, y) then IndexError else AssertionError)
      && (r.Ok? ==> ShapesMatch(p, y) && r.value == InverseMap(t.circular, el, p, y))
  {
    var p := GetMuAndLogSigma(t, el, x, y);
    if !ShapesMatch(p, y) then Err(AssertionError)
    else if !MaskFits(t.circular, |y|) then Err(IndexError)
    else Ok(InverseMap(t.circular, el, p, y))
  }

  /** The network outputs depend on `x` and on `y`'s width only. */
  lemma ParamsIgnoreValues(t: AffineTransformer, el: Elementary, x: Vec, y1: Vec, y2: Vec)
    requires |y1| == |y2|
    ensures GetMuAndLogSigma(t, el, x, y1) == GetMuAndLogSigma(t, el, x, y2)
  {
  }

  /** Forward and inverse accept the same inputs, and their log-density
      corrections for one `x` cancel whatever the rows transformed. */
  lemma DlogpCancel(t: AffineTransformer, el: Elementary, x: Vec, y1: Vec, y2: Vec)
    requires |y1| == |y2|
    ensures Forward(t, el, x, y1).Ok? <==> Inverse(t, el, x, y2).Ok?
    ensures Forward(t, el, x, y1).Ok? ==> Forward(t, el, x, y1).value.dlogp + Inverse(t, el, x, y2).value.dlogp == 0.0
  {
    ParamsIgnoreValues(t, el, x, y1, y2);
  }

  lemma Undo(s: real, si: real, y: real, m: real)
    requires si * s == 1.0
    ensures si * ((s * y + m) - m) == y
    ensures s * (si * (y - m)) + m == y
  {
    assert si * ((s * y + m) - m) == (si * s) * y;
    assert s * (si * (y - m)) == (si * s) * (y - m);
  }

  lemma FloorShift(v: real, k: int)
    ensures (v - k as real).Floor == v.Floor - k
  {
  }

  /** Reducing modulo 1 ignores integer offsets. */
  lemma WrapInteger(v: real, k: int)
    ensures Wrap(v - k as real) == Wrap(v)
  {
    FloorShift(v, k);
  }

  lemma WrapShift(v: real, m: real)
    ensures Wrap(Wrap(v + m) - m) == Wrap(v)
    ensures Wrap(Wrap(v - m) + m) == Wrap(v)
  {
    var k := (v + m).Floor;
    assert Wrap(v + m) - m == v - k as real;
    WrapInteger(v, k);
    var j := (v - m).Floor;
    assert Wrap(v - m) + m == v - j as real;
    WrapInteger(v, j);
  }

  /** Network outputs under which periodic dimensions are not scaled. */
  predicate UnscaledWhereWrapped(c: Circularity, p: Params)
  {
    forall i :: 0 <= i < |p.logSigma| && Wraps(c, i) ==> p.logSigma[i] == 0.0
  }

  /** The coordinate maps undo each other: exactly on an ordinary dimension,
      modulo 1 on a periodic one, where the scale is 1. */
  lemma AffineRoundTrip(s: real, si: real, y: real, m: real, wrap: bool)
    requires si * s == 1.0
    requires wrap ==> s == 1.0 && si == 1.0
    ensures AffineInverse(si, AffineForward(s, y, m, wrap), m, wrap) == if wrap then Wrap(y) else y
    ensures AffineForward(s, AffineInverse(si, y, m, wrap), m, wrap) == if wrap then Wrap(y) else y
  {
    if wrap {
      assert s * y + m == y + m && si * (y - m) == y - m;
      assert AffineInverse(si, AffineForward(s, y, m, wrap), m, wrap) == Wrap(Wrap(y + m) - m);
      assert AffineForward(s, AffineInverse(si, y, m, wrap), m, wrap) == Wrap(Wrap(y - m) + m);
      WrapShift(y, m);
    } else {
      Undo(s, si, y, m);
    }
  }

  /** `InverseMap` undoes `ForwardMap`: exactly on ordinary dimensions, modulo
      1 on periodic ones. */
  lemma ForwardMapInverts(c: Circularity, el: Elementary, p: Params, y: Vec)
    requires ExpInverts(el.exp) && ShapesMatch(p, y) && UnscaledWhereWrapped(c, p)
    ensures var back := InverseMap(c, el, p, ForwardMap(c, el, p, y).y).y;
      forall i :: 0 <= i < |y| ==> back[i] == if Wraps(c, i) then Wrap(y[i]) else y[i]
  {
    forall i | 0 <= i < |y|
      ensures InverseMap(c, el, p, ForwardMap(c, el, p, y).y).y[i] == if Wraps(c, i) then Wrap(y[i]) else y[i]
    {
      ExpCancels(el.exp, p.logSigma[i]);
      AffineRoundTrip(el.exp(p.logSigma[i]), el.exp(-p.logSigma[i]), y[i], p.mu[i], Wraps(c, i));
    }
  }

  /** `ForwardMap` undoes `InverseMap`, in the same sense. */
  lemma InverseMapInverts(c: Circularity, el: Elementary, p: Params, y: Vec)
    requires ExpInverts(el.exp) && ShapesMatch(p, y) && UnscaledWhereWrapped(c, p)
    ensures var back := ForwardMap(c, el, p, InverseMap(c, el, p, y).y).y;
      forall i :: 0 <= i < |y| ==> back[i] == if Wraps(c, i) then Wrap(y[i]) else y[i]
  {
    forall i | 0 <= i < |y|
      ensures ForwardMap(c, el, p, InverseMap(c, el, p, y).y).y[i] == if Wraps(c, i) then Wrap(y[i]) else y[i]
    {
      ExpCancels(el.exp, p.logSigma[i]);
      AffineRoundTrip(el.exp(p.logSigma[i]), el.exp(-p.logSigma[i]), y[i], p.mu[i], Wraps(c, i));
    }
  }

  /** Periodic dimensions only occur without a scale network, where every
      log-scale is zero. */
  lemma UnscaledWhenWellFormed(t: AffineTransformer, el: Elementary, x: Vec, y: Vec)
    requires WellFormed(t)
    ensures UnscaledWhereWrapped(t.circular, GetMuAndLogSigma(t, el, x, y))
  {
  }

  /** The round trip `inverse(x, forward(x, y)) == y`: exact on ordinary
      dimensions, modulo 1 on periodic ones. */
  lemma ForwardThenInverse(t: AffineTransformer, el: Elementary, x: Vec, y: Vec)
    requires ExpInverts(el.exp) && WellFormed(t)
    requires Forward(t, el, x, y).Ok?
    ensures Inverse(t, el, x, Forward(t, el, x, y).value.y).Ok?
    ensures var back := Inverse(t, el, x, Forward(t, el, x, y).value.y).value.y;
      |back| == |y| && forall i :: 0 <= i < |y| ==> back[i] == if Wraps(t.circular, i) then Wrap(y[i]) else y[i]
  {
    var p := GetMuAndLogSigma(t, el, x, y);
    var fy := ForwardMap(t.circular, el, p, y).y;
    ParamsIgnoreValues(t, el, x, y, fy);
    UnscaledWhenWellFormed(t, el, x, y);
    ForwardMapInverts(t.circular, el, p, y);
  }

  /** The other round trip, `forward(x, inverse(x, y)) == y`. */
  lemma InverseThenForward(t: AffineTransformer, el: Elementary, x: Vec, y: Vec)
    requires ExpInverts(el.exp) && WellFormed(t)
    requires Inverse(t, el, x, y).Ok?
    ensures Forward(t, el, x, Inverse(t, el, x, y).value.y).Ok?
    ensures var back := Forward(t, el, x, Inverse(t, el, x, y).value.y).value.y;
      |back| == |y| && forall i :: 0 <= i < |y| ==> back[i] == if Wraps(t.circular, i) then Wrap(y[i]) else y[i]
  {
    var p := GetMuAndLogSigma(t, el, x, y);
    var iy := InverseMap(t.circular, el, p, y).y;
    ParamsIgnoreValues(t, el, x, y, iy);
    UnscaledWhenWellFormed(t, el, x, y);
    InverseMapInverts(t.circular, el, p, y);
  }

  lemma {:induction false} SumZeros(n: nat)
    ensures Sum(Zeros(n)) == 0.0
  {
    if n > 0 {
      assert Zeros(n)[1..] == Zeros(n - 1);
      SumZeros(n - 1);
    }
  }

  /** With neither network and no periodic dimension, the transform is the
      identity and changes no density. */
  lemma IdentityWithoutNetworks(t: AffineTransformer, el: Elementary, x: Vec, y: Vec)
    requires ExpInverts(el.exp)
    requires t.shift.None? && t.scale.None?
    requires MaskFits(t.circular, |y|)
    requires forall i :: 0 <= i < |y| ==> !Wraps(t.circular, i)
    ensures Forward(t, el, x, y) == Ok(Transformed(y, 0.0))
  {
    SumZeros(|y|);
    assert GetMuAndLogSigma(t, el, x, y) == Params(Zeros(|y|), Zeros(|y|));
    forall i | 0 <= i < |y|
      ensures ForwardMap(t.circular, el, Params(Zeros(|y|), Zeros(|y|)), y).y[i] == y[i]
    {
      ExpCancels(el.exp, Zeros(|y|)[i]);
      UnitAffine(el.exp(Zeros(|y|)[i]), y[i], Zeros(|y|)[i]);
    }
    assert ForwardMap(t.circular, el, Params(Zeros(|y|), Zeros(|y|)), y).y == y;
  }

  lemma UnitAffine(s: real, y: real, m: real)
    requires s == 1.0 && m == 0.0
    ensures AffineForward(s, y, m, false) == y
  {
  }

  function Shifted(v: Vec, c: real): (r: Vec)
    ensures |r| == |v|
    ensures forall i :: 0 <= i < |v| ==> r[i] == v[i] - c
  {
    seq(|v|, i requires 0 <= i < |v| => v[i] - c)
  }

  lemma {:induction false} SumShifted(v: Vec, c: real)
    ensures Sum(Shifted(v, c)) == Sum(v) - (|v| as real) * c
  {
    if |v| > 0 {
      assert Shifted(v, c)[1..] == Shifted(v[1..], c);
      SumShifted(v[1..], c);
    }
  }

  lemma MeanTimesCount(s: real, n: nat)
    requires n > 0
    ensures s - (n as real) * (s / (n as real)) == 0.0
  {
  }

  /** Recentring to zero mean leaves a vector summing to zero. */
  lemma RecentredSumsToZero(v: Vec)
    ensures Sum(Recentre(v)) == 0.0
  {
    if |v| > 0 {
      var c := Sum(v) / (|v| as real);
      assert Recentre(v) == Shifted(v, c);
      SumShifted(v, c);
      MeanTimesCount(Sum(v), |v|);
    }
  }

  /** With `preserve_volume` the forward log-density correction is zero. */
  lemma VolumePreserved(t: AffineTransformer, el: Elementary, x: Vec, y: Vec)
    requires t.scale.Some? && t.preserveVolume
    requires Forward(t, el, x, y).Ok?
    ensures Forward(t, el, x, y).value.dlogp == 0.0
  {
    RecentredSumsToZero(Squashed(el, el.exp(t.logAlpha), t.scale.value(x)));
  }

  lemma TanhScaled(th: real, a: real, l: real)
    requires -1.0 < th < 1.0 && a > 0.0 && l == th * a
    ensures -a < l < a
  {
  }

  /** Without recentring, every log-scale is bounded by `exp(log_alpha)`, the
      bound the tanh squashing is there to enforce. */
  lemma LogSigmaBounded(t: AffineTransformer, el: Elementary, x: Vec, y: Vec)
    requires Bounded(el) && t.scale.Some? && !t.preserveVolume
    ensures var ls := GetMuAndLogSigma(t, el, x, y).logSigma;
      forall i :: 0 <= i < |ls| ==> -el.exp(t.logAlpha) < ls[i] < el.exp(t.logAlpha)
  {
    var ls := GetMuAndLogSigma(t, el, x, y).logSigma;
    var alpha := el.exp(t.logAlpha);
    forall i | 0 <= i < |ls|
      ensures -alpha < ls[i] < alpha
    {
      var th := el.tanh(t.scale.value(x)[i]);
      BoundsAt(el, t.logAlpha, t.scale.value(x)[i]);
      TanhScaled(th, alpha, ls[i]);
    }
  }
}
