/** Boltzmann-Generator bookkeeping (bgflow/bg.py): the change-of-variables
    and importance-weight formulas over a prior energy, a flow and a target
    energy, the flag-driven output of `sample`, and the batched driver
    `log_weights_from_samples`.

    The prior's samples are supplied as inputs (`z`, or `draw(b)` for the
    `b`-th call); the flow's context argument is folded into the flow; a
    sample has one event tensor, flattened to a vector. */
module BG {
  import opened Common

  /** A flow's result on one sample: the transformed point and its
      log-Jacobian term. */
  datatype FlowOut = FlowOut(y: Vec, dlogp: real)

  /** `flow(z)` and `flow(x, inverse=True)`, sample by sample. */
  datatype Flow = Flow(forward: Vec -> FlowOut, inverse: Vec -> FlowOut)

  /** `target.energy(x, temperature=t)` on one sample. */
  type TargetEnergy = (Vec, Option<real>) -> real

  /** `BoltzmannGenerator(prior, flow, target)`; the target may be None. */
  datatype BoltzmannGenerator = BoltzmannGenerator(
    priorEnergy: Vec -> real,
    flow: Flow,
    target: Option<TargetEnergy>)

  /** The flow's outputs on a batch. */
  function Pushed(flow: Flow, z: Batch): (x: Batch)
    ensures |x| == |z|
    ensures forall i :: 0 <= i < |z| ==> x[i] == flow.forward(z[i]).y
  {
    seq(|z|, i requires 0 <= i < |z| => flow.forward(z[i]).y)
  }

  /** The flow's log-Jacobian terms on a batch. */
  function PushedDlogp(flow: Flow, z: Batch): (d: seq<real>)
    ensures |d| == |z|
    ensures forall i :: 0 <= i < |z| ==> d[i] == flow.forward(z[i]).dlogp
  {
    seq(|z|, i requires 0 <= i < |z| => flow.forward(z[i]).dlogp)
  }

  // ---------------------------------------------------------------------
  // Training objective and likelihood

  /** `target.energy(*x, temperature=t).view(-1, 1)`: the target energy of
      every sample, as one column. */
  function TargetEnergies(target: TargetEnergy, x: Batch, temperature: Option<real>): (e: seq<real>)
    ensures |e| == |x|
    ensures forall i :: 0 <= i < |x| ==> e[i] == target(x[i], temperature)
  {
    seq(|x|, i requires 0 <= i < |x| => target(x[i], temperature))
  }

  /** The energy column after `energy_regularizer_fn`, which sees the whole
      column and returns a column of its own choosing. */
  function Regularized(regularizer: Option<seq<real> -> seq<real>>, e: seq<real>): seq<real>
  {
    match regularizer
    case None => e
    case Some(f) => f(e)
  }

  /** The entry of a broadcast column that row `i` reads: a column of one
      row is repeated, any other is read row by row. */
  function Pick(len: nat, i: nat): nat
  {
    if len == 1 then 0 else i
  }

  /** Whether columns of `m` and `n` rows broadcast against each other. */
  predicate Broadcastable(m: nat, n: nat)
  {
    m == n || m == 1 || n == 1
  }

  /** `a - b` on two columns under torch's broadcasting: equal lengths
      subtract row by row, a column of one row is repeated against the
      other, and any other pair of lengths fails. */
  function ColumnMinus(a: seq<real>, b: seq<real>): (r: Result<seq<real>>)
    ensures r.Ok? <==> Broadcastable(|a|, |b|)
    ensures r.Err? ==> r.error == RuntimeError
    ensures r.Ok? ==> |r.value| == (if |a| == 1 then |b| else |a|)
    ensures r.Ok? ==> forall i :: 0 <= i < |r.value| ==>
      Pick(|a|, i) < |a| && Pick(|b|, i) < |b| && r.value[i] == a[Pick(|a|, i)] - b[Pick(|b|, i)]
  {
    if !Broadcastable(|a|, |b|) then Err(RuntimeError)
    else
      var n := if |a| == 1 then |b| else |a|;
      Ok(seq(n, i requires 0 <= i < n => a[Pick(|a|, i)] - b[Pick(|b|, i)]))
  }

  /** The per-sample objective and, when asked for, the energies it used. */
  datatype KlOut = KlOut(loss: seq<real>, energies: Option<seq<real>>)

  /** `unnormalized_kl_div` on the prior samples `z`: the column of target
      energies of the pushed-forward samples, passed through the regulariser,
      minus the flow's log-Jacobian terms; `return_energies` returns that same
      regularised column. A regulariser that changes the column's length
      leaves the subtraction to broadcasting, which fails unless one side
      has a single row. */
  function UnnormalizedKlDiv(flow: Flow, target: TargetEnergy, z: Batch, temperature: Option<real>,
                             regularizer: Option<seq<real> -> seq<real>>, returnEnergies: bool): (r: Result<KlOut>)
    ensures
      var e := Regularized(regularizer, TargetEnergies(target, Pushed(flow, z), temperature));
      && (r.Ok? <==> Broadcastable(|e|, |z|))
      && (r.Err? ==> r.error == RuntimeError)
      && (r.Ok? ==> |r.value.loss| == (if |e| == 1 then |z| else |e|))
      && (r.Ok? ==> forall i :: 0 <= i < |r.value.loss| ==>
            Pick(|e|, i) < |e| && Pick(|z|, i) < |z| &&
            r.value.loss[i] + flow.forward(z[Pick(|z|, i)]).dlogp == e[Pick(|e|, i)])
      && (r.Ok? ==> (r.value.energies.Some? <==> returnEnergies))
      && (r.Ok? && returnEnergies ==> r.value.energies.value == e)
    ensures regularizer.None? ==>
      && r.Ok? && |r.value.loss| == |z|
      && forall i :: 0 <= i < |z| ==>
           r.value.loss[i] + flow.forward(z[i]).dlogp == target(flow.forward(z[i]).y, temperature)
  {
    var energy := Regularized(regularizer, TargetEnergies(target, Pushed(flow, z), temperature));
    match ColumnMinus(energy, PushedDlogp(flow, z))
    case Err(e) => Err(e)
    case Ok(loss) => Ok(KlOut(loss, if returnEnergies then Some(energy) else None))
  }

  /** `BoltzmannGenerator.kldiv`: `unnormalized_kl_div` with the generator's
      own flow and target; a generator without a target fails on
      `target.energy`. */
  function KlDiv(bg: BoltzmannGenerator, z: Batch, temperature: Option<real>,
                 regularizer: Option<seq<real> -> seq<real>>, returnEnergies: bool): (r: Result<KlOut>)
    ensures bg.target.None? ==> r == Err(AttributeError)
    ensures bg.target.Some? ==> r == UnnormalizedKlDiv(bg.flow, bg.target.value, z, temperature, regularizer, returnEnergies)
  {
    match bg.target
    case None => Err(AttributeError)
    case Some(target) => UnnormalizedKlDiv(bg.flow, target, z, temperature, regularizer, returnEnergies)
  }

  /** `unormalized_nll`, which `BoltzmannGenerator.energy` is: invert the flow
      and add the accumulated negative log-Jacobian to the prior energy of the
      latent point, i.e. the change-of-variables formula. */
  function UnnormalizedNll(priorEnergy: Vec -> real, flow: Flow, x: Batch): (nll: seq<real>)
    ensures |nll| == |x|
    ensures forall i :: 0 <= i < |x| ==>
      nll[i] + flow.inverse(x[i]).dlogp == priorEnergy(flow.inverse(x[i]).y)
  {
    seq(|x|, i requires 0 <= i < |x| => priorEnergy(flow.inverse(x[i]).y) - flow.inverse(x[i]).dlogp)
  }

  // ---------------------------------------------------------------------
  // Importance weights

  /** `log_weights_given_latent`: prior energy plus log-Jacobian minus target
      energy, per sample; with `normalize` one scalar (`logsumexp` of the whole
      batch, an uninterpreted `lse`) is subtracted from every entry. */
  function LogWeightsGivenLatent(priorEnergy: Vec -> real, target: TargetEnergy, x: Batch, z: Batch, dlogp: seq<real>,
                                 temperature: Option<real>, normalize: bool, lse: seq<real> -> real): (logw: seq<real>)
    requires |z| == |x| && |dlogp| == |x|
    ensures |logw| == |x|
    ensures !normalize ==> forall i :: 0 <= i < |x| ==>
      logw[i] + target(x[i], temperature) == priorEnergy(z[i]) + dlogp[i]
    ensures forall i, j :: 0 <= i < |x| && 0 <= j < |x| ==>
      logw[i] - logw[j] ==
        (priorEnergy(z[i]) + dlogp[i] - target(x[i], temperature)) -
        (priorEnergy(z[j]) + dlogp[j] - target(x[j], temperature))
  {
    var raw := seq(|x|, i requires 0 <= i < |x| => priorEnergy(z[i]) + dlogp[i] - target(x[i], temperature));
    if normalize then
      var c := lse(raw);
      seq(|x|, i requires 0 <= i < |x| => raw[i] - c)
    else raw
  }

  /** `log_weights`: invert the flow on the given samples and pass the
      negated inverse log-Jacobian as the forward one. */
  function LogWeights(priorEnergy: Vec -> real, flow: Flow, target: TargetEnergy, x: Batch,
                      temperature: Option<real>, normalize: bool, lse: seq<real> -> real): (logw: seq<real>)
    ensures |logw| == |x|
    ensures !normalize ==> forall i :: 0 <= i < |x| ==>
      logw[i] + target(x[i], temperature) + flow.inverse(x[i]).dlogp == priorEnergy(flow.inverse(x[i]).y)
    ensures forall i, j :: 0 <= i < |x| && 0 <= j < |x| ==>
      logw[i] - logw[j] ==
        (priorEnergy(flow.inverse(x[i]).y) - flow.inverse(x[i]).dlogp - target(x[i], temperature)) -
        (priorEnergy(flow.inverse(x[j]).y) - flow.inverse(x[j]).dlogp - target(x[j], temperature))
  {
    var z := seq(|x|, i requires 0 <= i < |x| => flow.inverse(x[i]).y);
    var dlogp := seq(|x|, i requires 0 <= i < |x| => -flow.inverse(x[i]).dlogp);
    LogWeightsGivenLatent(priorEnergy, target, x, z, dlogp, temperature, normalize, lse)
  }

  /** Unnormalised log-weights are the generator's own energy (its negative
      log-likelihood) minus the target energy. */
  lemma LogWeightsAreNllMinusTarget(priorEnergy: Vec -> real, flow: Flow, target: TargetEnergy, x: Batch,
                                    temperature: Option<real>, lse: seq<real> -> real)
    ensures forall i :: 0 <= i < |x| ==>
      LogWeights(priorEnergy, flow, target, x, temperature, false, lse)[i] ==
      UnnormalizedNll(priorEnergy, flow, x)[i] - target(x[i], temperature)
  {
    var z := seq(|x|, i requires 0 <= i < |x| => flow.inverse(x[i]).y);
    var dlogp := seq(|x|, i requires 0 <= i < |x| => -flow.inverse(x[i]).dlogp);
    var logw := LogWeightsGivenLatent(priorEnergy, target, x, z, dlogp, temperature, false, lse);
    assert forall i :: 0 <= i < |x| ==> logw[i] + target(x[i], temperature) == priorEnergy(z[i]) + dlogp[i];
  }

  /** The flow inverts exactly on `z`: its inverse maps `forward(z)` back to
      `z` with the negated log-Jacobian term. */
  predicate InvertsOn(flow: Flow, z: Batch)
  {
    forall i :: 0 <= i < |z| ==>
      flow.inverse(flow.forward(z[i]).y) == FlowOut(z[i], -flow.forward(z[i]).dlogp)
  }

  /** On a flow that inverts on its samples, the generator's energy of a
      sample is the prior energy of its latent point plus the forward
      log-Jacobian (the `bg_energy` of `sample`), and the log-weights computed
      from the samples alone equal those computed from the latent points. */
  lemma SampleEnergyAgrees(priorEnergy: Vec -> real, flow: Flow, target: TargetEnergy, z: Batch,
                           temperature: Option<real>, normalize: bool, lse: seq<real> -> real)
    requires InvertsOn(flow, z)
    ensures forall i :: 0 <= i < |z| ==>
      UnnormalizedNll(priorEnergy, flow, Pushed(flow, z))[i] == priorEnergy(z[i]) + flow.forward(z[i]).dlogp
    ensures LogWeights(priorEnergy, flow, target, Pushed(flow, z), temperature, normalize, lse) ==
      LogWeightsGivenLatent(priorEnergy, target, Pushed(flow, z), z, PushedDlogp(flow, z), temperature, normalize, lse)
  {
    var x := Pushed(flow, z);
    var zBack := seq(|x|, i requires 0 <= i < |x| => flow.inverse(x[i]).y);
    var dBack := seq(|x|, i requires 0 <= i < |x| => -flow.inverse(x[i]).dlogp);
    assert zBack == z;
    assert dBack == PushedDlogp(flow, z);
  }

  /** Normalising shifts every log-weight by the same amount. */
  lemma NormalizeShifts(priorEnergy: Vec -> real, target: TargetEnergy, x: Batch, z: Batch, dlogp: seq<real>,
                        temperature: Option<real>, lse: seq<real> -> real)
    requires |z| == |x| && |dlogp| == |x|
    ensures
      var raw := LogWeightsGivenLatent(priorEnergy, target, x, z, dlogp, temperature, false, lse);
      var normalized := LogWeightsGivenLatent(priorEnergy, target, x, z, dlogp, temperature, true, lse);
      forall i :: 0 <= i < |x| ==> normalized[i] == raw[i] - lse(raw)
  {
  }

  /** The training objective and the unnormalised log-weight of a sample add
      up to the prior energy of its latent point (without a regulariser). */
  lemma KlLossPlusLogWeight(priorEnergy: Vec -> real, flow: Flow, target: TargetEnergy, z: Batch,
                            temperature: Option<real>, lse: seq<real> -> real)
    ensures
      var kl := UnnormalizedKlDiv(flow, target, z, temperature, None, false);
      var logw := LogWeightsGivenLatent(priorEnergy, target, Pushed(flow, z), z, PushedDlogp(flow, z), temperature, false, lse);
      kl.Ok? && |kl.value.loss| == |z| &&
      forall i :: 0 <= i < |z| ==> kl.value.loss[i] + logw[i] == priorEnergy(z[i])
  {
    var kl := UnnormalizedKlDiv(flow, target, z, temperature, None, false).value;
    var x := Pushed(flow, z);
    var logw := LogWeightsGivenLatent(priorEnergy, target, x, z, PushedDlogp(flow, z), temperature, false, lse);
    forall i | 0 <= i < |z|
      ensures kl.loss[i] + logw[i] == priorEnergy(z[i])
    {
      assert kl.loss[i] + flow.forward(z[i]).dlogp == target(x[i], temperature);
      assert logw[i] + target(x[i], temperature) == priorEnergy(z[i]) + flow.forward(z[i]).dlogp;
    }
  }

  /** `BoltzmannGenerator.log_weights`; a generator without a target fails. */
  function GeneratorLogWeights(bg: BoltzmannGenerator, x: Batch, temperature: Option<real>,
                               normalize: bool, lse: seq<real> -> real): (r: Result<seq<real>>)
    ensures r.Err? <==> bg.target.None?
    ensures r.Err? ==> r.error == AttributeError
    ensures r.Ok? ==> r.value == LogWeights(bg.priorEnergy, bg.flow, bg.target.value, x, temperature, normalize, lse)
  {
    match bg.target
    case None => Err(AttributeError)
    case Some(target) => Ok(LogWeights(bg.priorEnergy, bg.flow, target, x, temperature, normalize, lse))
  }

  // ---------------------------------------------------------------------
  // sample

  /** The items `sample` can return. */
  datatype Item =
    | Samples(x: Batch)
    | Latent(z: Batch)
    | Dlogp(d: seq<real>)
    | BgEnergy(e: seq<real>)
    | LogWeightsItem(lw: seq<real>)
    | WeightsItem(w: seq<real>)

  /** The `with_*` flags of `sample`. */
  datatype Flags = Flags(withLatent: bool, withDlogp: bool, withEnergy: bool, withLogWeights: bool, withWeights: bool)

  /** A bare value when only one item results, a tuple otherwise. */
  datatype Sampled = Bare(item: Item) | Several(items: seq<Item>)

  function Items(s: Sampled): seq<Item>
  {
    match s
    case Bare(item) => [item]
    case Several(items) => items
  }

  /** `(*results,)` for several items, the item itself for one. */
  function Package(items: seq<Item>): (s: Sampled)
    requires |items| > 0
    ensures Items(s) == items
    ensures s.Bare? <==> |items| == 1
  {
    if |items| > 1 then Several(items) else Bare(items[0])
  }

  /** The position of an item's kind in the fixed output order. */
  function Rank(item: Item): nat
  {
    match item
    case Samples(_) => 0
    case Latent(_) => 1
    case Dlogp(_) => 2
    case BgEnergy(_) => 3
    case LogWeightsItem(_) => 4
    case WeightsItem(_) => 5
  }

  /** Whether the flags ask for the kind at position `rank`. */
  predicate Requested(flags: Flags, rank: nat)
  {
    match rank
    case 0 => true
    case 1 => flags.withLatent
    case 2 => flags.withDlogp
    case 3 => flags.withEnergy
    case 4 => flags.withLogWeights
    case 5 => flags.withWeights
    case _ => false
  }

  function B2N(b: bool): nat
  {
    if b then 1 else 0
  }

  function CountFlags(flags: Flags): nat
  {
    B2N(flags.withLatent) + B2N(flags.withDlogp) + B2N(flags.withEnergy) + B2N(flags.withLogWeights) + B2N(flags.withWeights)
  }

  /** An item holds what `sample` computes for the latent batch `z`: the
      flow's outputs and log-Jacobian, `bg_energy = prior.energy(z) + dlogp`,
      the unnormalised log-weights `bg_energy - target_energy`, and their
      softmax. */
  predicate ItemHolds(item: Item, bg: BoltzmannGenerator, z: Batch, temperature: Option<real>, softmax: seq<real> -> seq<real>)
  {
    var x, dlogp := Pushed(bg.flow, z), PushedDlogp(bg.flow, z);
    match item
    case Samples(xs) => xs == x
    case Latent(zs) => zs == z
    case Dlogp(d) => d == dlogp
    case BgEnergy(e) => e == BgEnergies(bg.priorEnergy, z, dlogp)
    case LogWeightsItem(lw) =>
      bg.target.Some? && lw == Minus(BgEnergies(bg.priorEnergy, z, dlogp), TargetEnergies(bg.target.value, x, temperature))
    case WeightsItem(w) =>
      bg.target.Some? && w == softmax(Minus(BgEnergies(bg.priorEnergy, z, dlogp), TargetEnergies(bg.target.value, x, temperature)))
  }

  /** `bg_energy` in `sample`: prior energy plus log-Jacobian, per sample. */
  function BgEnergies(priorEnergy: Vec -> real, z: Batch, dlogp: seq<real>): (e: seq<real>)
    requires |dlogp| == |z|
    ensures |e| == |z|
    ensures forall i :: 0 <= i < |z| ==> e[i] == priorEnergy(z[i]) + dlogp[i]
  {
    seq(|z|, i requires 0 <= i < |z| => priorEnergy(z[i]) + dlogp[i])
  }

  /** Element-wise difference of two equally long vectors. */
  function Minus(a: seq<real>, b: seq<real>): (d: seq<real>)
    requires |a| == |b|
    ensures |d| == |a|
    ensures forall i :: 0 <= i < |a| ==> d[i] == a[i] - b[i]
  {
    seq(|a|, i requires 0 <= i < |a| => a[i] - b[i])
  }

  /** Stands for the `lse` argument where normalisation is off and it is never applied. */
  function UnusedLse(s: seq<real>): real
  {
    0.0
  }

  /** How many of the kinds at positions below `upTo` the flags ask for. */
  function CountBelow(flags: Flags, upTo: nat): nat
  {
    if upTo == 0 then 0 else CountBelow(flags, upTo - 1) + (if Requested(flags, upTo - 1) then 1 else 0)
  }

  /** All six positions: one item for the flow outputs and one per flag set. */
  lemma CountAll(flags: Flags)
    ensures CountBelow(flags, 6) == 1 + CountFlags(flags)
  {
    assert CountBelow(flags, 1) == 1;
    assert CountBelow(flags, 2) == 1 + B2N(flags.withLatent);
    assert CountBelow(flags, 3) == CountBelow(flags, 2) + B2N(flags.withDlogp);
    assert CountBelow(flags, 4) == CountBelow(flags, 3) + B2N(flags.withEnergy);
    assert CountBelow(flags, 5) == CountBelow(flags, 4) + B2N(flags.withLogWeights);
    assert CountBelow(flags, 6) == CountBelow(flags, 5) + B2N(flags.withWeights);
  }

  /** The item of kind `rank` as `sample` computes it from `z`; the last two
      kinds need the target. */
  function ItemOf(bg: BoltzmannGenerator, z: Batch, temperature: Option<real>,
                  softmax: seq<real> -> seq<real>, rank: nat): Item
    requires rank < 6
    requires rank >= 4 ==> bg.target.Some?
  {
    var x, dlogp := Pushed(bg.flow, z), PushedDlogp(bg.flow, z);
    if rank == 0 then Samples(x)
    else if rank == 1 then Latent(z)
    else if rank == 2 then Dlogp(dlogp)
    else if rank == 3 then BgEnergy(BgEnergies(bg.priorEnergy, z, dlogp))
    else if rank == 4 then LogWeightsItem(Minus(BgEnergies(bg.priorEnergy, z, dlogp), TargetEnergies(bg.target.value, x, temperature)))
    else WeightsItem(softmax(Minus(BgEnergies(bg.priorEnergy, z, dlogp), TargetEnergies(bg.target.value, x, temperature))))
  }

  /** The log-weights `sample` computes are the unnormalised
      `log_weights_given_latent` of its own samples. */
  lemma SampleLogWeights(bg: BoltzmannGenerator, z: Batch, temperature: Option<real>)
    requires bg.target.Some?
    ensures
      var x, dlogp := Pushed(bg.flow, z), PushedDlogp(bg.flow, z);
      Minus(BgEnergies(bg.priorEnergy, z, dlogp), TargetEnergies(bg.target.value, x, temperature)) ==
        LogWeightsGivenLatent(bg.priorEnergy, bg.target.value, x, z, dlogp, temperature, false, UnusedLse)
  {
  }

  lemma ItemOfRank(bg: BoltzmannGenerator, z: Batch, temperature: Option<real>,
                   softmax: seq<real> -> seq<real>, rank: nat)
    requires rank < 6
    requires rank >= 4 ==> bg.target.Some?
    ensures Rank(ItemOf(bg, z, temperature, softmax, rank)) == rank
  {
  }

  /** Each computed item is of its kind and holds the value `sample` promises. */
  lemma ItemOfHolds(bg: BoltzmannGenerator, z: Batch, temperature: Option<real>,
                    softmax: seq<real> -> seq<real>, rank: nat)
    requires rank < 6
    requires rank >= 4 ==> bg.target.Some?
    ensures Rank(ItemOf(bg, z, temperature, softmax, rank)) == rank
    ensures ItemHolds(ItemOf(bg, z, temperature, softmax, rank), bg, z, temperature, softmax)
  {
  }

  /** A generator without a target can still serve every request that does
      not need it. */
  predicate TargetAvailable(bg: BoltzmannGenerator, flags: Flags)
  {
    flags.withLogWeights || flags.withWeights ==> bg.target.Some?
  }

  /** The list `results` after the appends for the positions below `upTo`. */
  function Appended(bg: BoltzmannGenerator, z: Batch, temperature: Option<real>, flags: Flags,
                    softmax: seq<real> -> seq<real>, upTo: nat): seq<Item>
    requires upTo <= 6
    requires upTo <= 4 || TargetAvailable(bg, flags)
  {
    if upTo == 0 then []
    else
      Appended(bg, z, temperature, flags, softmax, upTo - 1) +
        (if Requested(flags, upTo - 1) then [ItemOf(bg, z, temperature, softmax, upTo - 1)] else [])
  }

  /** The positions of the kinds below `upTo` that the flags ask for, in
      increasing order. */
  function Ranks(flags: Flags, upTo: nat): seq<nat>
  {
    if upTo == 0 then [] else Ranks(flags, upTo - 1) + (if Requested(flags, upTo - 1) then [upTo - 1] else [])
  }

  lemma {:induction false} RanksOrdered(flags: Flags, upTo: nat)
    ensures var ranks := Ranks(flags, upTo);
      && |ranks| == CountBelow(flags, upTo)
      && (upTo > 0 ==> |ranks| > 0 && ranks[0] == 0)
      && (forall i, j :: 0 <= i < j < |ranks| ==> ranks[i] < ranks[j])
      && (forall i :: 0 <= i < |ranks| ==> ranks[i] < upTo && Requested(flags, ranks[i]))
  {
    if upTo > 0 {
      RanksOrdered(flags, upTo - 1);
    }
  }

  /** The appends are of the kinds `Ranks` lists. */
  lemma {:induction false} AppendedKinds(bg: BoltzmannGenerator, z: Batch, temperature: Option<real>, flags: Flags,
                                         softmax: seq<real> -> seq<real>, upTo: nat)
    requires upTo <= 6
    requires upTo <= 4 || TargetAvailable(bg, flags)
    ensures |Appended(bg, z, temperature, flags, softmax, upTo)| == |Ranks(flags, upTo)|
    ensures forall i :: 0 <= i < |Ranks(flags, upTo)| ==>
      Rank(Appended(bg, z, temperature, flags, softmax, upTo)[i]) == Ranks(flags, upTo)[i]
  {
    if upTo > 0 {
      AppendedKinds(bg, z, temperature, flags, softmax, upTo - 1);
      if Requested(flags, upTo - 1) {
        ItemOfRank(bg, z, temperature, softmax, upTo - 1);
      }
    }
  }

  /** Every appended item holds the value `sample` promises for its kind. */
  lemma {:induction false} AppendedHold(bg: BoltzmannGenerator, z: Batch, temperature: Option<real>, flags: Flags,
                                        softmax: seq<real> -> seq<real>, upTo: nat)
    requires upTo <= 6
    requires upTo <= 4 || TargetAvailable(bg, flags)
    ensures forall i :: 0 <= i < |Appended(bg, z, temperature, flags, softmax, upTo)| ==>
      ItemHolds(Appended(bg, z, temperature, flags, softmax, upTo)[i], bg, z, temperature, softmax)
  {
    if upTo > 0 {
      AppendedHold(bg, z, temperature, flags, softmax, upTo - 1);
      var prefix := Appended(bg, z, temperature, flags, softmax, upTo - 1);
      if Requested(flags, upTo - 1) {
        var item := ItemOf(bg, z, temperature, softmax, upTo - 1);
        ItemOfHolds(bg, z, temperature, softmax, upTo - 1);
        var items := prefix + [item];
        assert Appended(bg, z, temperature, flags, softmax, upTo) == items;
        forall i | 0 <= i < |items|
          ensures ItemHolds(items[i], bg, z, temperature, softmax)
        {
          if i < |prefix| {
            assert items[i] == prefix[i];
          } else {
            assert items[i] == item;
          }
        }
      } else {
        assert Appended(bg, z, temperature, flags, softmax, upTo) == prefix;
      }
    }
  }

  /** The `if with_energy or with_log_weights or with_weights` block of
      `sample`: appends the energy, log-weight and weight items; reads the
      target only for the last two. */
  method AppendScored(bg: BoltzmannGenerator, z: Batch, temperature: Option<real>, flags: Flags,
                      softmax: seq<real> -> seq<real>, prefix: seq<Item>) returns (r: Result<seq<Item>>)
    requires prefix == Appended(bg, z, temperature, flags, softmax, 3)
    ensures r.Err? <==> (flags.withLogWeights || flags.withWeights) && bg.target.None?
    ensures r.Err? ==> r.error == AttributeError
    ensures r.Ok? ==> TargetAvailable(bg, flags) && r.value == Appended(bg, z, temperature, flags, softmax, 6)
  {
    var x, dlogp := Pushed(bg.flow, z), PushedDlogp(bg.flow, z);
    var results := prefix;
    if flags.withEnergy || flags.withLogWeights || flags.withWeights {
      var bgEnergy := BgEnergies(bg.priorEnergy, z, dlogp);
      if flags.withEnergy {
        results := results + [BgEnergy(bgEnergy)];
      }
      assert results == Appended(bg, z, temperature, flags, softmax, 4);
      if flags.withLogWeights || flags.withWeights {
        if bg.target.None? {
          return Err(AttributeError);
        }
        var targetEnergy := TargetEnergies(bg.target.value, x, temperature);
        var logWeights := Minus(bgEnergy, targetEnergy);
        if flags.withLogWeights {
          results := results + [LogWeightsItem(logWeights)];
        }
        assert results == Appended(bg, z, temperature, flags, softmax, 5);
        if flags.withWeights {
          results := results + [WeightsItem(softmax(logWeights))];
        }
        assert results == Appended(bg, z, temperature, flags, softmax, 6);
      } else {
        assert results == Appended(bg, z, temperature, flags, softmax, 5);
        assert results == Appended(bg, z, temperature, flags, softmax, 6);
      }
    } else {
      assert results == Appended(bg, z, temperature, flags, softmax, 4);
      assert results == Appended(bg, z, temperature, flags, softmax, 5);
      assert results == Appended(bg, z, temperature, flags, softmax, 6);
    }
    r := Ok(results);
  }

  /** What `sample` promises of the items it returns: the flow outputs
      first, then exactly the kinds the flags ask for, in the fixed order,
      each holding its value. */
  predicate SampleOutput(items: seq<Item>, bg: BoltzmannGenerator, z: Batch, temperature: Option<real>,
                         flags: Flags, softmax: seq<real> -> seq<real>)
  {
    && |items| == 1 + CountFlags(flags)
    && items[0] == Samples(Pushed(bg.flow, z))
    && (forall i, j :: 0 <= i < j < |items| ==> Rank(items[i]) < Rank(items[j]))
    && (forall i :: 0 <= i < |items| ==> Requested(flags, Rank(items[i])))
    && (forall i :: 0 <= i < |items| ==> ItemHolds(items[i], bg, z, temperature, softmax))
  }

  /** All six positions considered: what `sample` promises of its result. */
  lemma AppendedComplete(items: seq<Item>, bg: BoltzmannGenerator, z: Batch, temperature: Option<real>, flags: Flags,
                         softmax: seq<real> -> seq<real>)
    requires TargetAvailable(bg, flags)
    requires items == Appended(bg, z, temperature, flags, softmax, 6)
    ensures SampleOutput(items, bg, z, temperature, flags, softmax)
  {
    AppendedKinds(bg, z, temperature, flags, softmax, 6);
    AppendedHold(bg, z, temperature, flags, softmax, 6);
    RanksOrdered(flags, 6);
    CountAll(flags);
  }

  /** `BoltzmannGenerator.sample` on the prior samples `z`: the flow outputs
      first, then exactly the requested items in the fixed order latent,
      dlogp, energy, log-weights, weights; the target is consulted only for
      log-weights or weights, so a generator without a target fails only
      then. */
  method Sample(bg: BoltzmannGenerator, z: Batch, temperature: Option<real>, flags: Flags,
                softmax: seq<real> -> seq<real>) returns (r: Result<Sampled>)
    ensures r.Err? <==> (flags.withLogWeights || flags.withWeights) && bg.target.None?
    ensures r.Err? ==> r.error == AttributeError
    ensures r.Ok? ==> (r.value.Bare? <==> CountFlags(flags) == 0)
    ensures r.Ok? ==> SampleOutput(Items(r.value), bg, z, temperature, flags, softmax)
  {
    var x, dlogp := Pushed(bg.flow, z), PushedDlogp(bg.flow, z);
    var results := [Samples(x)];
    assert results == Appended(bg, z, temperature, flags, softmax, 1);
    if flags.withLatent {
      results := results + [Latent(z)];
    }
    assert results == Appended(bg, z, temperature, flags, softmax, 2);
    if flags.withDlogp {
      results := results + [Dlogp(dlogp)];
    }
    assert results == Appended(bg, z, temperature, flags, softmax, 3);
    var scored := AppendScored(bg, z, temperature, flags, softmax, results);
    if scored.Err? {
      return Err(scored.error);
    }
    results := scored.value;
    AppendedComplete(results, bg, z, temperature, flags, softmax);
    r := Ok(Package(results));
  }

  // ---------------------------------------------------------------------
  // log_weights_from_samples

  /** Pushing a concatenation pushes its parts. */
  lemma PushedAppend(flow: Flow, a: Batch, b: Batch)
    ensures Pushed(flow, a + b) == Pushed(flow, a) + Pushed(flow, b)
    ensures PushedDlogp(flow, a + b) == PushedDlogp(flow, a) + PushedDlogp(flow, b)
  {
  }

  /** The first `count` calls of the prior, in call order. */
  function Draws(draw: nat -> Batch, count: nat): (d: seq<Batch>)
    ensures |d| == count
    ensures forall k :: 0 <= k < count ==> d[k] == draw(k)
  {
    seq(count, k requires 0 <= k < count => draw(k))
  }

  /** Position `k` of the concatenation of calls of `width` samples each is
      sample `k % width` of call `k / width`. */
  lemma DrawsAt(draw: nat -> Batch, batchSize: nat, batches: nat)
    requires forall b :: |draw(b)| == batchSize
    ensures |Flatten(Draws(draw, batches))| == batches * batchSize
    ensures forall k :: 0 <= k < |Flatten(Draws(draw, batches))| ==>
      Flatten(Draws(draw, batches))[k] == draw(k / batchSize)[k % batchSize]
  {
    var d := Draws(draw, batches);
    FlattenUniformLength(d, batchSize);
    forall k | 0 <= k < |Flatten(d)|
      ensures Flatten(d)[k] == draw(k / batchSize)[k % batchSize]
    {
      DivBound(k, batchSize, batches);
      FlattenAt(d, batchSize, k / batchSize, k % batchSize);
    }
  }

  lemma DivBound(k: nat, width: nat, count: nat)
    requires k < count * width
    ensures width > 0 && k / width < count && k == (k / width) * width + k % width
  {
  }

  /** The sampling loop of `log_weights_from_samples`: `batches` calls of the
      prior, each pushed through the flow, concatenated in call order. */
  method DrawBatches(flow: Flow, draw: nat -> Batch, batchSize: nat, batches: nat)
    returns (z: Batch, x: Batch, dlogp: seq<real>)
    requires forall b :: |draw(b)| == batchSize
    ensures z == Flatten(Draws(draw, batches))
    ensures |z| == batches * batchSize
    ensures x == Pushed(flow, z) && dlogp == PushedDlogp(flow, z)
    ensures forall k :: 0 <= k < |z| ==> z[k] == draw(k / batchSize)[k % batchSize]
  {
    z, x, dlogp := [], [], [];
    var b := 0;
    while b < batches
      invariant 0 <= b <= batches
      invariant z == Flatten(Draws(draw, b))
      invariant x == Pushed(flow, z) && dlogp == PushedDlogp(flow, z)
    {
      var zBatch := draw(b);
      assert Draws(draw, b + 1) == Draws(draw, b) + [zBatch];
      FlattenSnoc(Draws(draw, b), zBatch);
      PushedAppend(flow, z, zBatch);
      z := z + zBatch;
      x := x + Pushed(flow, zBatch);
      dlogp := dlogp + PushedDlogp(flow, zBatch);
      b := b + 1;
    }
    DrawsAt(draw, batchSize, batches);
  }

  /** `log_weights_from_samples`: `num_samples // batch_size` batches (the
      remainder is dropped), then `log_weights_given_latent` on the
      concatenation. Python raises ZeroDivisionError for a zero batch size
      and IndexError (`z[0]`) when no batch runs. */
  method LogWeightsFromSamples(priorEnergy: Vec -> real, draw: nat -> Batch, flow: Flow, target: TargetEnergy,
                               numSamples: nat, batchSize: nat, temperature: Option<real>, normalize: bool,
                               lse: seq<real> -> real) returns (r: Result<seq<real>>)
    requires forall b :: |draw(b)| == batchSize
    ensures batchSize == 0 ==> r == Err(ZeroDivisionError)
    ensures batchSize > 0 && numSamples < batchSize ==> r == Err(IndexError)
    ensures batchSize > 0 && numSamples >= batchSize ==>
      var z := Flatten(Draws(draw, numSamples / batchSize));
      && |z| == (numSamples / batchSize) * batchSize
      && r == Ok(LogWeightsGivenLatent(priorEnergy, target, Pushed(flow, z), z, PushedDlogp(flow, z),
                                       temperature, normalize, lse))
  {
    if batchSize == 0 {
      return Err(ZeroDivisionError);
    }
    var batches := numSamples / batchSize;
    var z, x, dlogp := DrawBatches(flow, draw, batchSize, batches);
    if batches == 0 {
      return Err(IndexError);
    }
    r := Ok(LogWeightsGivenLatent(priorEnergy, target, x, z, dlogp, temperature, normalize, lse));
  }
}
