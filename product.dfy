/** Product-space composition (bgflow/distribution/product.py): event-shape
    arithmetic for concatenation along an axis, the summed energy of
    independent components, the product sampler and the product log-density.

    One sample's event is a flat vector; concatenation joins the components'
    vectors along the last axis, and the energies are evaluated per sample. */
module Product {
  import opened Common

  /** An event shape: the sizes of a sample's axes, without the batch axis. */
  type Shape = seq<nat>

  /** One component distribution, given by the capabilities the product uses.
      `sample(n, t)` stands for `_sample(n)` when `t` is None and for
      `_sample_with_temperature(n, t)` otherwise; `sampleFrom` is the same
      fed a pre-supplied block of uniforms (`rand_samples`). */
  datatype Component = Component(
    eventShape: Shape,
    energy: Vec -> real,
    logProb: Vec -> seq<real>,
    sample: (nat, Option<real>) -> Batch,
    sampleFrom: (nat, Option<real>, Batch) -> Batch)

  function Shapes(components: seq<Component>): (s: seq<Shape>)
    ensures |s| == |components|
    ensures forall k :: 0 <= k < |s| ==> s[k] == components[k].eventShape
  {
    seq(|components|, k requires 0 <= k < |components| => components[k].eventShape)
  }

  // ---------------------------------------------------------------------
  // Event-shape arithmetic

  /** `axis` indexes a Python sequence of length `rank` (negative from the end). */
  predicate InRange(axis: int, rank: nat)
  {
    -(rank as int) <= axis < rank
  }

  /** The non-negative position Python's indexing selects. */
  function Normalize(axis: int, rank: nat): (d: nat)
    requires InRange(axis, rank)
    ensures d < rank
    ensures d == axis || d == axis + rank
  {
    if axis < 0 then axis + rank else axis
  }

  /** `np.abs(np.array(shape1) - shape2)`. */
  function AbsDiff(s1: Shape, s2: Shape): (diff: seq<nat>)
    requires |s1| == |s2|
    ensures |diff| == |s1|
  {
    seq(|s1|, i requires 0 <= i < |s1| => if s1[i] >= s2[i] then s1[i] - s2[i] else s2[i] - s1[i])
  }

  /** `_shapes_consistent`: the summed absolute difference of two shapes
      equals its entry at `catDim`. */
  predicate ShapesConsistent(s1: Shape, s2: Shape, catDim: int)
    requires |s1| == |s2| && InRange(catDim, |s1|)
  {
    var diff := AbsDiff(s1, s2);
    SumNat(diff) == diff[Normalize(catDim, |s1|)]
  }

  /** Two shapes of equal rank are consistent exactly when they agree on every
      axis other than `catDim`: the differences are never negative, so their
      sum equals one of them only if all others vanish. */
  lemma ShapesConsistentIff(s1: Shape, s2: Shape, catDim: int)
    requires |s1| == |s2| && InRange(catDim, |s1|)
    ensures ShapesConsistent(s1, s2, catDim) <==>
      (forall i :: 0 <= i < |s1| && i != Normalize(catDim, |s1|) ==> s1[i] == s2[i])
  {
    var diff := AbsDiff(s1, s2);
    var d := Normalize(catDim, |s1|);
    SumNatIsEntry(diff, d);
    assert forall i :: 0 <= i < |s1| ==> (diff[i] == 0 <==> s1[i] == s2[i]);
  }

  lemma {:induction false} SumNatZero(v: seq<nat>)
    ensures SumNat(v) == 0 <==> forall i :: 0 <= i < |v| ==> v[i] == 0
  {
    if |v| > 0 {
      SumNatZero(v[1..]);
      assert forall i :: 1 <= i < |v| ==> v[i] == v[1..][i - 1];
    }
  }

  lemma {:induction false} SumNatAtLeastEntry(v: seq<nat>, k: nat)
    requires k < |v|
    ensures SumNat(v) >= v[k]
  {
    if k > 0 {
      SumNatAtLeastEntry(v[1..], k - 1);
    }
  }

  /** A sum of naturals equals its `k`-th term exactly when every other term is 0. */
  lemma {:induction false} SumNatIsEntry(v: seq<nat>, k: nat)
    requires k < |v|
    ensures SumNat(v) == v[k] <==> forall i :: 0 <= i < |v| && i != k ==> v[i] == 0
  {
    if k == 0 {
      SumNatZero(v[1..]);
      assert forall i :: 1 <= i < |v| ==> v[i] == v[1..][i - 1];
    } else {
      SumNatIsEntry(v[1..], k - 1);
      SumNatAtLeastEntry(v[1..], k - 1);
      assert forall i :: 1 <= i < |v| ==> v[i] == v[1..][i - 1];
    }
  }

  /** Every shape fits `axis` as a Python index. */
  predicate AxisFitsAll(shapes: seq<Shape>, axis: int)
  {
    forall k :: 0 <= k < |shapes| ==> InRange(axis, |shapes[k]|)
  }

  /** The shapes can be concatenated along `axis`: there is at least one, all
      have the first one's rank, `axis` indexes it, and all agree with it on
      every other axis. */
  predicate StackableAlong(shapes: seq<Shape>, axis: int)
  {
    && |shapes| > 0
    && (forall k :: 0 <= k < |shapes| ==> |shapes[k]| == |shapes[0]|)
    && InRange(axis, |shapes[0]|)
    && (forall k, i :: 0 <= k < |shapes| && 0 <= i < |shapes[0]| && i != Normalize(axis, |shapes[0]|) ==>
          shapes[k][i] == shapes[0][i])
  }

  /** What `_stacked_event_shapes` returns: the shapes themselves when there is
      no concatenation axis, otherwise the joint shape and the components'
      lengths along the axis. */
  datatype Stacked = Separate(shapes: seq<Shape>) | Concatenated(shape: Shape, lengths: seq<nat>)

  /** `_stacked_event_shapes`: collects each shape's length along `catDim`,
      checks rank and consistency against the first shape, and replaces the
      first shape's `catDim` entry by the total length. */
  method StackedEventShapes(eventShapes: seq<Shape>, catDim: Option<int>) returns (r: Result<Stacked>)
    ensures catDim.None? ==> r == Ok(Separate(eventShapes))
    ensures catDim.Some? ==> (r.Ok? <==> StackableAlong(eventShapes, catDim.value))
    ensures catDim.Some? && r.Err? ==>
      r.error == (if |eventShapes| > 0 && AxisFitsAll(eventShapes, catDim.value) then AssertionError else IndexError)
    ensures catDim.Some? && r.Ok? ==>
      && r.value.Concatenated?
      && |eventShapes| > 0
      && InRange(catDim.value, |eventShapes[0]|)
      && (var d := Normalize(catDim.value, |eventShapes[0]|);
          && |r.value.lengths| == |eventShapes|
          && (forall k :: 0 <= k < |eventShapes| ==> r.value.lengths[k] == eventShapes[k][d])
          && |r.value.shape| == |eventShapes[0]|
          && (forall i :: 0 <= i < |eventShapes[0]| && i != d ==> r.value.shape[i] == eventShapes[0][i])
          && r.value.shape[d] == SumNat(r.value.lengths))
  {
    if catDim.None? {
      return Ok(Separate(eventShapes));
    }
    var axis := catDim.value;
    // lengths = [e[cat_dim] for e in event_shapes]
    var lengths: seq<nat> := [];
    var k := 0;
    while k < |eventShapes|
      invariant 0 <= k <= |eventShapes|
      invariant |lengths| == k
      invariant forall m :: 0 <= m < k ==> InRange(axis, |eventShapes[m]|)
      invariant forall m :: 0 <= m < k ==> lengths[m] == eventShapes[m][Normalize(axis, |eventShapes[m]|)]
    {
      if !InRange(axis, |eventShapes[k]|) {
        return Err(IndexError);
      }
      lengths := lengths + [eventShapes[k][Normalize(axis, |eventShapes[k]|)]];
      k := k + 1;
    }
    if |eventShapes| == 0 {
      return Err(IndexError);
    }
    var shape := eventShapes[0];
    var d := Normalize(axis, |shape|);
    k := 0;
    while k < |eventShapes|
      invariant 0 <= k <= |eventShapes|
      invariant forall m :: 0 <= m < k ==> |eventShapes[m]| == |shape|
      invariant forall m, i :: 0 <= m < k && 0 <= i < |shape| && i != d ==> eventShapes[m][i] == shape[i]
    {
      var e := eventShapes[k];
      if |e| != |shape| {
        return Err(AssertionError);
      }
      ShapesConsistentIff(e, shape, axis);
      if !ShapesConsistent(e, shape, axis) {
        return Err(AssertionError);
      }
      k := k + 1;
    }
    shape := shape[d := SumNat(lengths)];
    return Ok(Concatenated(shape, lengths));
  }

  // ---------------------------------------------------------------------
  // ProductEnergy

  /** `ProductEnergy`: the components and the stacked event shapes computed
      at construction; `Separate` stands for `cat_dim=None`. */
  datatype ProductEnergy = ProductEnergy(components: seq<Component>, eventShape: Stacked)

  /** `ProductEnergy.__init__`: fails as `_stacked_event_shapes` does; in
      concatenated mode it keeps one length per component. */
  method NewProductEnergy(components: seq<Component>, catDim: Option<int>) returns (r: Result<ProductEnergy>)
    ensures r.Ok? <==> (catDim.None? || StackableAlong(Shapes(components), catDim.value))
    ensures r.Ok? ==> r.value.components == components
    ensures r.Ok? ==> (r.value.eventShape.Separate? <==> catDim.None?)
    ensures r.Ok? && catDim.Some? ==>
      && |components| > 0
      && InRange(catDim.value, |components[0].eventShape|)
      && |r.value.eventShape.lengths| == |components|
      && forall k :: 0 <= k < |components| ==>
           r.value.eventShape.lengths[k] == components[k].eventShape[Normalize(catDim.value, |components[0].eventShape|)]
  {
    var stacked := StackedEventShapes(Shapes(components), catDim);
    if stacked.Err? {
      return Err(stacked.error);
    }
    return Ok(ProductEnergy(components, stacked.value));
  }

  function Min(a: nat, b: nat): nat
  {
    if a <= b then a else b
  }

  /** `[dist.energy(x) for dist, x in zip(components, xs)]`: Python's `zip`
      stops at the shorter list. */
  function ZipEnergies(components: seq<Component>, xs: seq<Vec>): (es: seq<real>)
    ensures |es| == Min(|components|, |xs|)
    ensures forall i :: 0 <= i < |es| ==> es[i] == components[i].energy(xs[i])
  {
    var m := Min(|components|, |xs|);
    seq(m, i requires 0 <= i < m => components[i].energy(xs[i]))
  }

  /** `torch.sum(torch.stack(energies, dim=-1), dim=-1)`. */
  function StackSum(components: seq<Component>, xs: seq<Vec>): real
  {
    Sum(ZipEnergies(components, xs))
  }

  /** `ProductEnergy._energy` on one sample: in separate mode exactly one
      input per component, in concatenated mode exactly one input, split
      into consecutive pieces of the stacked lengths. `torch.stack` of no
      energies at all fails, so a product with nothing to pair fails too. */
  function Energy(pe: ProductEnergy, xs: seq<Vec>): (r: Result<real>)
    ensures pe.eventShape.Separate? ==> (r.Ok? <==> |xs| == |pe.components| > 0)
    ensures pe.eventShape.Separate? && r.Ok? ==> r.value == StackSum(pe.components, xs)
    ensures pe.eventShape.Concatenated? ==>
      (r.Ok? <==> |xs| == 1 && SumNat(pe.eventShape.lengths) == |xs[0]| &&
                  |pe.components| > 0 && |pe.eventShape.lengths| > 0)
    ensures pe.eventShape.Concatenated? && r.Ok? ==>
      r.value == StackSum(pe.components, Split(xs[0], pe.eventShape.lengths))
    ensures r.Err? ==>
      r.error == (if |xs| == (if pe.eventShape.Concatenated? then 1 else |pe.components|)
                  then RuntimeError else AssertionError)
  {
    match pe.eventShape
    case Separate(_) =>
      if |xs| != |pe.components| then Err(AssertionError)
      else if |pe.components| == 0 then Err(RuntimeError)
      else Ok(StackSum(pe.components, xs))
    case Concatenated(_, lengths) =>
      if |xs| != 1 then Err(AssertionError)
      else if SumNat(lengths) != |xs[0]| then Err(RuntimeError)
      else if Min(|pe.components|, |lengths|) == 0 then Err(RuntimeError)
      else Ok(StackSum(pe.components, Split(xs[0], lengths)))
  }

  /** The product energy of independent parts is additive: the energy of the
      components `c1 + c2` on inputs `x1 + x2` is the energy of `c1` on `x1`
      plus that of `c2` on `x2`. */
  lemma StackSumAdditive(c1: seq<Component>, x1: seq<Vec>, c2: seq<Component>, x2: seq<Vec>)
    requires |x1| == |c1| && |x2| == |c2|
    ensures StackSum(c1 + c2, x1 + x2) == StackSum(c1, x1) + StackSum(c2, x2)
  {
    var all, left, right := ZipEnergies(c1 + c2, x1 + x2), ZipEnergies(c1, x1), ZipEnergies(c2, x2);
    forall i | 0 <= i < |all|
      ensures all[i] == (left + right)[i]
    {
      if i < |c1| {
        assert (c1 + c2)[i] == c1[i] && (x1 + x2)[i] == x1[i];
      } else {
        assert (c1 + c2)[i] == c2[i - |c1|] && (x1 + x2)[i] == x2[i - |c1|];
      }
    }
    assert all == left + right;
    SumAppend(left, right);
  }

  /** Separate mode in terms of the components: one input per component gives
      the energy of the first plus that of the product of the rest. */
  lemma EnergySeparateUnfolds(components: seq<Component>, xs: seq<Vec>)
    requires |xs| == |components| > 0
    ensures Energy(ProductEnergy(components, Separate(Shapes(components))), xs) ==
      Ok(components[0].energy(xs[0]) + StackSum(components[1..], xs[1..]))
  {
    StackSumAdditive(components[..1], xs[..1], components[1..], xs[1..]);
    assert components[..1] + components[1..] == components;
    assert xs[..1] + xs[1..] == xs;
    assert ZipEnergies(components[..1], xs[..1]) == [components[0].energy(xs[0])];
    var e := components[0].energy(xs[0]);
    assert [e][1..] == [];
    assert Sum([e]) == e + Sum([]);
  }

  /** Both input modes agree: concatenating the per-component inputs and
      splitting them by the same lengths gives the separate-mode energy. */
  lemma EnergyModesAgree(components: seq<Component>, shape: Shape, parts: seq<Vec>)
    requires |parts| == |components|
    ensures Energy(ProductEnergy(components, Concatenated(shape, Widths(parts))), [Flatten(parts)]) ==
            Energy(ProductEnergy(components, Separate(Shapes(components))), parts)
  {
    SplitFlatten(parts);
  }

  // ---------------------------------------------------------------------
  // ProductSampler

  /** Whether samples are returned as a tuple or concatenated. */
  datatype Layout = Tuple | Concatenate

  /** A tuple of per-component batches, or their concatenation. */
  datatype SampleOut = Parts(parts: seq<Batch>) | Joined(batch: Batch)

  /** `torch.cat(samples, dim=-1)` for batches of rows: every part must have
      the same number of rows, and row `r` of the result joins the parts'
      rows `r` in component order. */
  function CatLast(parts: seq<Batch>): (r: Result<Batch>)
    ensures r.Ok? <==> |parts| > 0 && forall k :: 0 <= k < |parts| ==> |parts[k]| == |parts[0]|
    ensures r.Err? ==> r.error == RuntimeError
    ensures r.Ok? ==> |r.value| == |parts[0]|
  {
    if |parts| == 0 then Err(RuntimeError)
    else if exists k :: 0 <= k < |parts| && |parts[k]| != |parts[0]| then Err(RuntimeError)
    else Ok(seq(|parts[0]|, row requires 0 <= row < |parts[0]| =>
              Flatten(seq(|parts|, k requires 0 <= k < |parts| => parts[k][row]))))
  }

  /** Splitting a concatenated row by the components' widths recovers each
      component's row: the concatenated layout loses nothing. */
  lemma CatLastSplit(parts: seq<Batch>, widths: seq<nat>, row: nat)
    requires CatLast(parts).Ok? && |widths| == |parts| && row < |parts[0]|
    requires forall k, j :: 0 <= k < |parts| && 0 <= j < |parts[k]| ==> |parts[k][j]| == widths[k]
    ensures SumNat(widths) == |CatLast(parts).value[row]|
    ensures forall k :: 0 <= k < |parts| ==> Split(CatLast(parts).value[row], widths)[k] == parts[k][row]
  {
    var pieces := seq(|parts|, k requires 0 <= k < |parts| => parts[k][row]);
    assert Widths(pieces) == widths;
    SplitFlatten(pieces);
  }

  /** Joins per-component batches as the layout asks. */
  function Combine(parts: seq<Batch>, layout: Layout): (r: Result<SampleOut>)
    ensures layout == Tuple ==> r == Ok(Parts(parts))
    ensures layout == Concatenate ==> (r.Ok? <==> CatLast(parts).Ok?)
    ensures layout == Concatenate && r.Ok? ==> r.value == Joined(CatLast(parts).value)
  {
    match layout
    case Tuple => Ok(Parts(parts))
    case Concatenate =>
      match CatLast(parts)
      case Ok(b) => Ok(Joined(b))
      case Err(e) => Err(e)
  }

  /** `ProductSampler._sample` (temperature None) and
      `ProductSampler._sample_with_temperature`: every component draws `n`
      samples with the temperature passed on unchanged, in component order. */
  function ProductSample(components: seq<Component>, layout: Layout, n: nat, temperature: Option<real>): (r: Result<SampleOut>)
    ensures layout == Tuple ==>
      && r.Ok? && r.value.Parts? && |r.value.parts| == |components|
      && forall k :: 0 <= k < |components| ==> r.value.parts[k] == components[k].sample(n, temperature)
    ensures layout == Concatenate ==>
      (r.Ok? <==>
         (|components| > 0 &&
          forall k :: 0 <= k < |components| ==>
            |components[k].sample(n, temperature)| == |components[0].sample(n, temperature)|))
    ensures layout == Concatenate && r.Ok? ==>
      r.value == Joined(CatLast(seq(|components|, k requires 0 <= k < |components| =>
                                      components[k].sample(n, temperature))).value)
  {
    var parts := seq(|components|, k requires 0 <= k < |components| => components[k].sample(n, temperature));
    assert forall k :: 0 <= k < |components| ==> parts[k] == components[k].sample(n, temperature);
    Combine(parts, layout)
  }

  /** The energy of a concatenated product sample is the sum of the
      components' energies on their own samples: split by the components'
      widths, row `row` of the joined batch gives back each component's
      row. */
  lemma ConcatenatedSampleEnergy(components: seq<Component>, shape: Shape, n: nat, temperature: Option<real>,
                                 widths: seq<nat>, row: nat)
    requires ProductSample(components, Concatenate, n, temperature).Ok?
    requires |widths| == |components|
    requires forall k, j :: 0 <= k < |components| && 0 <= j < |components[k].sample(n, temperature)| ==>
      |components[k].sample(n, temperature)[j]| == widths[k]
    requires row < |components[0].sample(n, temperature)|
    ensures
      var joined := ProductSample(components, Concatenate, n, temperature).value.batch;
      var own := seq(|components|, k requires 0 <= k < |components| => components[k].sample(n, temperature)[row]);
      row < |joined| &&
      Energy(ProductEnergy(components, Concatenated(shape, widths)), [joined[row]]) ==
      Energy(ProductEnergy(components, Separate(Shapes(components))), own)
  {
    var parts := seq(|components|, k requires 0 <= k < |components| => components[k].sample(n, temperature));
    var own := seq(|components|, k requires 0 <= k < |components| => components[k].sample(n, temperature)[row]);
    CatLastSplit(parts, widths, row);
    var joined := CatLast(parts).value;
    assert Split(joined[row], widths) == own;
  }

  // ---------------------------------------------------------------------
  // ProductDistribution.log_prob

  /** `ProductDistribution.log_prob` on one sample, as written: in separate
      mode the sum of all entries of the components' flattened log-densities,
      failing like `torch.cat` of no tensors when there are no components;
      in concatenated mode it reads `self._lengths`, which the class never
      assigns, so it fails with AttributeError once the input count check
      has passed. */
  function LogProb(components: seq<Component>, layout: Layout, xs: seq<Vec>): (r: Result<real>)
    ensures layout == Tuple ==> (r.Ok? <==> |xs| == |components| > 0)
    ensures layout == Tuple && r.Ok? ==>
      r.value == Sum(seq(|components|, k requires 0 <= k < |components| => Sum(components[k].logProb(xs[k]))))
    ensures layout == Concatenate ==> r == Err(if |xs| == 1 then AttributeError else AssertionError)
    ensures r.Err? && r.error == AssertionError <==> |xs| != (if layout == Tuple then |components| else 1)
    ensures layout == Tuple && r.Err? && |xs| == |components| ==> r.error == RuntimeError
  {
    match layout
    case Tuple =>
      if |xs| != |components| then Err(AssertionError)
      else if |components| == 0 then Err(RuntimeError)
      else
        var lps := seq(|components|, k requires 0 <= k < |components| => components[k].logProb(xs[k]));
        assert Sum(Flatten(lps)) ==
               Sum(seq(|components|, k requires 0 <= k < |components| => Sum(components[k].logProb(xs[k])))) by {
          SumFlatten(lps);
          assert seq(|lps|, k requires 0 <= k < |lps| => Sum(lps[k])) ==
                 seq(|components|, k requires 0 <= k < |components| => Sum(components[k].logProb(xs[k])));
        }
        Ok(Sum(Flatten(lps)))
    case Concatenate =>
      if |xs| != 1 then Err(AssertionError)
      else Err(AttributeError)
  }

  /** `log_prob` with the concatenated mode reading the lengths that
      `ProductEnergy` computed, as the separate mode and `ProductEnergy._energy`
      evidently intend. */
  function LogProbWithLengths(components: seq<Component>, eventShape: Stacked, xs: seq<Vec>): (r: Result<real>)
    ensures eventShape.Separate? ==> r == LogProb(components, Tuple, xs)
    ensures eventShape.Concatenated? ==>
      (r.Ok? <==> |xs| == 1 && SumNat(eventShape.lengths) == |xs[0]| &&
                  |eventShape.lengths| == |components| > 0)
  {
    match eventShape
    case Separate(_) => LogProb(components, Tuple, xs)
    case Concatenated(_, lengths) =>
      if |xs| != 1 then Err(AssertionError)
      else if SumNat(lengths) != |xs[0]| then Err(RuntimeError)
      else LogProb(components, Tuple, Split(xs[0], lengths))
  }

  /** With the lengths in place, both modes agree: the concatenated input's
      log-density is the sum of the components' log-densities on their
      pieces, and it exists whenever there is at least one component. */
  lemma LogProbModesAgree(components: seq<Component>, shape: Shape, parts: seq<Vec>)
    requires |parts| == |components|
    ensures LogProbWithLengths(components, Concatenated(shape, Widths(parts)), [Flatten(parts)]) ==
            LogProb(components, Tuple, parts)
    ensures LogProb(components, Tuple, parts).Ok? <==> |components| > 0
  {
    SplitFlatten(parts);
  }

  /** The discrepancy, on any input: as written, concatenated mode fails
      with AttributeError on a joined row that the lengths `ProductEnergy`
      computes would split, and that the corrected version scores. */
  lemma LogProbConcatenatedFails(components: seq<Component>, shape: Shape, parts: seq<Vec>)
    requires |parts| == |components|
    ensures LogProb(components, Concatenate, [Flatten(parts)]) == Err(AttributeError)
    ensures |components| > 0 ==>
      LogProbWithLengths(components, Concatenated(shape, Widths(parts)), [Flatten(parts)]).Ok?
  {
    LogProbModesAgree(components, shape, parts);
  }
}
