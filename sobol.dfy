/** `SobolProductSampler` (bgflow/distribution/product.py): a product sampler
    that feeds every component a slice of one shared quasi-random block.

    The scipy Sobol engine is modelled by its cursor `numGenerated`, its
    capacity `maxn`, and the points it yields: `points(epoch, i)` is point `i`
    of the scrambled sequence of the engine created by the `epoch`-th call of
    `init_sobol` (the fresh random seed that call draws is what tells epochs
    apart). */
module Sobol {
  import opened Common
  import opened Product

  function Pow2(k: nat): (p: nat)
    ensures p >= 1
  {
    if k == 0 then 1 else 2 * Pow2(k - 1)
  }

  /** What `np.log2(n_samples) % 1 == 0` accepts, over exact arithmetic: a
      positive power of two (for 0 and negative `n` numpy yields -inf or nan,
      which fail the test). */
  predicate IsPowerOfTwo(n: int)
    decreases if n > 0 then n else 0
  {
    n >= 1 && (n == 1 || (n % 2 == 0 && IsPowerOfTwo(n / 2)))
  }

  lemma {:induction false} PowerOfTwoHasExponent(n: int) returns (k: nat)
    requires IsPowerOfTwo(n)
    ensures n == Pow2(k)
    decreases n
  {
    if n == 1 {
      k := 0;
    } else {
      var k' := PowerOfTwoHasExponent(n / 2);
      k := k' + 1;
    }
  }

  lemma {:induction false} Pow2IsPowerOfTwo(k: nat)
    ensures IsPowerOfTwo(Pow2(k))
  {
    if k > 0 {
      Pow2IsPowerOfTwo(k - 1);
      assert Pow2(k) / 2 == Pow2(k - 1);
    }
  }

  /** The power-of-two test accepts exactly the numbers `2^k`. */
  lemma PowerOfTwoIff(n: int)
    ensures IsPowerOfTwo(n) <==> exists k: nat :: n == Pow2(k)
  {
    if IsPowerOfTwo(n) {
      var k := PowerOfTwoHasExponent(n);
    }
    if exists k: nat :: n == Pow2(k) {
      var k: nat :| n == Pow2(k);
      Pow2IsPowerOfTwo(k);
    }
  }

  /** `dims = [c.event_shape[0] for c in components]`; IndexError when a
      component's event shape has no axis. */
  function Dims(components: seq<Component>): (r: Result<seq<nat>>)
    ensures r.Ok? <==> forall k :: 0 <= k < |components| ==> |components[k].eventShape| > 0
    ensures r.Err? ==> r.error == IndexError
    ensures r.Ok? ==> |r.value| == |components|
    ensures r.Ok? ==> forall k :: 0 <= k < |components| ==> r.value[k] == components[k].eventShape[0]
  {
    if exists k :: 0 <= k < |components| && |components[k].eventShape| == 0 then Err(IndexError)
    else Ok(seq(|components|, k requires 0 <= k < |components| => components[k].eventShape[0]))
  }

  /** The engine's contract: every point has `d` coordinates in [0, 1). */
  ghost predicate UnitPoints(points: (nat, nat) -> Vec, d: nat)
  {
    forall epoch: nat, i: nat :: |points(epoch, i)| == d &&
      forall j :: 0 <= j < d ==> 0.0 <= points(epoch, i)[j] < 1.0
  }

  /** `sobol.random(n)` on an engine that has already produced `start` points. */
  function Block(points: (nat, nat) -> Vec, epoch: nat, start: nat, n: nat): (b: Batch)
    ensures |b| == n
    ensures forall k :: 0 <= k < n ==> b[k] == points(epoch, start + k)
  {
    seq(n, k requires 0 <= k < n => points(epoch, start + k))
  }

  /** `_split_according_to_dims`: splits every row of an (n, sum(dims)) block
      into consecutive column ranges of widths `dims`. */
  function SplitColumns(block: Batch, dims: seq<nat>): (pieces: seq<Batch>)
    requires forall row :: 0 <= row < |block| ==> |block[row]| == SumNat(dims)
    ensures |pieces| == |dims|
    ensures forall k :: 0 <= k < |dims| ==> |pieces[k]| == |block|
    ensures forall k, row :: 0 <= k < |dims| && 0 <= row < |block| ==> |pieces[k][row]| == dims[k]
  {
    seq(|dims|, k requires 0 <= k < |dims| =>
      seq(|block|, row requires 0 <= row < |block| => Split(block[row], dims)[k]))
  }

  /** Concatenating the pieces back along the last axis gives the block: piece
      `k` is exactly component `k`'s share of the columns. */
  lemma SplitColumnsCat(block: Batch, dims: seq<nat>)
    requires forall row :: 0 <= row < |block| ==> |block[row]| == SumNat(dims)
    requires |dims| > 0
    ensures CatLast(SplitColumns(block, dims)) == Ok(block)
  {
    var pieces := SplitColumns(block, dims);
    assert CatLast(pieces).Ok?;
    var joined := CatLast(pieces).value;
    forall row | 0 <= row < |block|
      ensures joined[row] == block[row]
    {
      var s := Split(block[row], dims);
      var col := seq(|pieces|, k requires 0 <= k < |pieces| => pieces[k][row]);
      assert forall k :: 0 <= k < |pieces| ==> col[k] == s[k];
      assert col == s;
      assert joined[row] == Flatten(col);
    }
    assert joined == block;
  }

  /** Every entry of a piece is an entry of the input. */
  lemma {:induction false} SplitEntries<T>(x: seq<T>, widths: seq<nat>)
    requires SumNat(widths) == |x|
    ensures forall k, j :: 0 <= k < |widths| && 0 <= j < widths[k] ==> Split(x, widths)[k][j] in x
  {
    if |widths| > 0 {
      SplitEntries(x[widths[0]..], widths[1..]);
      var r := Split(x, widths);
      forall k, j | 0 <= k < |widths| && 0 <= j < widths[k]
        ensures r[k][j] in x
      {
        if k == 0 {
          assert r[0][j] == x[j];
        } else {
          assert r[k] == Split(x[widths[0]..], widths[1..])[k - 1];
          assert forall v :: v in x[widths[0]..] ==> v in x;
        }
      }
    }
  }

  /** A row of reals in [0, 1). */
  predicate InUnitCube(row: Vec)
  {
    forall j :: 0 <= j < |row| ==> 0.0 <= row[j] < 1.0
  }

  /** A drawn block has `n` rows of `d` coordinates, all in [0, 1). */
  lemma BlockInUnitCube(points: (nat, nat) -> Vec, d: nat, epoch: nat, start: nat, n: nat)
    requires UnitPoints(points, d)
    ensures forall row :: 0 <= row < n ==>
      |Block(points, epoch, start, n)[row]| == d && InUnitCube(Block(points, epoch, start, n)[row])
  {
    var block := Block(points, epoch, start, n);
    forall row | 0 <= row < n
      ensures |block[row]| == d && InUnitCube(block[row])
    {
      assert block[row] == points(epoch, start + row);
    }
  }

  /** The uniforms each component receives lie in [0, 1) when the block does. */
  lemma PiecesInUnitCube(block: Batch, dims: seq<nat>)
    requires forall row :: 0 <= row < |block| ==> |block[row]| == SumNat(dims) && InUnitCube(block[row])
    ensures forall k, row :: 0 <= k < |dims| && 0 <= row < |block| ==> InUnitCube(SplitColumns(block, dims)[k][row])
  {
    var pieces := SplitColumns(block, dims);
    forall k, row | 0 <= k < |dims| && 0 <= row < |block|
      ensures InUnitCube(pieces[k][row])
    {
      var p := block[row];
      SplitEntries(p, dims);
      assert pieces[k][row] == Split(p, dims)[k];
      forall j | 0 <= j < |pieces[k][row]|
        ensures 0.0 <= pieces[k][row][j] < 1.0
      {
        assert pieces[k][row][j] in p;
      }
    }
  }

  /** What the components draw from their pieces of `block`, in component order. */
  function SobolDraws(components: seq<Component>, dims: seq<nat>, n: nat, temperature: Option<real>, block: Batch): (parts: seq<Batch>)
    requires |dims| == |components|
    requires forall row :: 0 <= row < |block| ==> |block[row]| == SumNat(dims)
    ensures |parts| == |components|
  {
    var pieces := SplitColumns(block, dims);
    seq(|components|, k requires 0 <= k < |components| => components[k].sampleFrom(n, temperature, pieces[k]))
  }

  class SobolProductSampler {
    const components: seq<Component>
    const layout: Layout
    const dims: seq<nat>
    const maxn: nat
    const points: (nat, nat) -> Vec
    /** Which engine `sobol` currently is: 0 for the one built at construction. */
    var epoch: nat
    /** `sobol.num_generated`. */
    var numGenerated: nat

    ghost predicate Valid()
      reads this
    {
      && Dims(components) == Ok(dims)
      && numGenerated <= maxn
      && UnitPoints(points, SumNat(dims))
    }

    /** `__init__`, which ends by calling `init_sobol`: a fresh engine over
        `sum(dims)` dimensions with nothing generated yet. */
    constructor (components: seq<Component>, layout: Layout, maxn: nat, points: (nat, nat) -> Vec)
      requires Dims(components).Ok?
      requires UnitPoints(points, SumNat(Dims(components).value))
      ensures Valid()
      ensures this.components == components && this.layout == layout
      ensures this.maxn == maxn && this.points == points
      ensures dims == Dims(components).value
      ensures epoch == 0 && numGenerated == 0
    {
      this.components := components;
      this.layout := layout;
      this.dims := Dims(components).value;
      this.maxn := maxn;
      this.points := points;
      epoch := 0;
      numGenerated := 0;
    }

    /** `init_sobol`: replaces the engine by a freshly seeded one. */
    method InitSobol()
      requires Valid()
      modifies this
      ensures Valid()
      ensures epoch == old(epoch) + 1 && numGenerated == 0
    {
      epoch := epoch + 1;
      numGenerated := 0;
    }

    /** `_get_sobol_samples`: reinitialises the engine exactly when the draw
        would exceed its capacity, and only then checks that `n` is a power
        of two; the engine itself refuses a draw larger than its capacity. */
    method GetSobolSamples(n: int) returns (r: Result<Batch>)
      requires Valid()
      modifies this
      ensures Valid()
      ensures epoch == old(epoch) + (if old(numGenerated) + n > maxn then 1 else 0)
      ensures r.Ok? <==> IsPowerOfTwo(n) && n <= maxn
      ensures r.Err? ==> r.error == ValueError
      ensures var start := if old(numGenerated) + n > maxn then 0 else old(numGenerated);
        && numGenerated == (if r.Ok? then start + n else start)
        && (r.Ok? ==> r.value == Block(points, epoch, start, n))
    {
      if numGenerated + n > maxn {
        InitSobol();
      }
      if !IsPowerOfTwo(n) {
        return Err(ValueError);
      }
      if numGenerated + n > maxn {
        return Err(ValueError);
      }
      r := Ok(Block(points, epoch, numGenerated, n));
      numGenerated := numGenerated + n;
    }

    /** `_sample` (temperature None) and `_sample_with_temperature`: one block
        per call, split by `dims`, piece `k` fed to component `k`, joined as
        the layout asks. */
    method Sample(n: int, temperature: Option<real>) returns (r: Result<SampleOut>)
      requires Valid()
      modifies this
      ensures Valid()
      ensures epoch == old(epoch) + (if old(numGenerated) + n > maxn then 1 else 0)
      ensures var start := if old(numGenerated) + n > maxn then 0 else old(numGenerated);
        if IsPowerOfTwo(n) && n <= maxn then
          && numGenerated == start + n
          && r == Combine(SobolDraws(components, dims, n, temperature, Block(points, epoch, start, n)), layout)
        else
          && numGenerated == start
          && r == Err(ValueError)
    {
      var block := GetSobolSamples(n);
      if block.Err? {
        return Err(block.error);
      }
      var parts := SobolDraws(components, dims, n, temperature, block.value);
      r := Combine(parts, layout);
    }
  }
}
