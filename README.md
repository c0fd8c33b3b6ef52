# bgflow core in Dafny

A Dafny model of the core of bgflow, a library for Boltzmann generators:
normalizing flows trained to sample a target Boltzmann density. The model
covers four parts, and proves properties of each.

- **Product spaces** (`product.dfy`, `sobol.dfy`): `bgflow/distribution/product.py`.
  - Stacking event shapes along a concatenation axis.
  - `ProductEnergy`: the sum of independent component energies, taking one
    input per component or one concatenated input that is split.
  - `ProductSampler` and `SobolProductSampler`. The Sobol sampler is a class
    with the engine's cursor and reseeding epoch as mutable fields.
  - `ProductDistribution.log_prob`.
- **Boltzmann-generator bookkeeping** (`bg.py` → `bg.dfy`, `ess.dfy`):
  - the KL training objective;
  - the change-of-variables negative log-likelihood;
  - importance log-weights;
  - the flag-driven output of `BoltzmannGenerator.sample`;
  - the batched loop `log_weights_from_samples`;
  - the Kish effective sample size and the sampling efficiency.
- **The affine coupling transformer** (`affine.dfy`): `bgflow/nn/flow/transformer/affine.py`.
  - Construction, including periodicity being switched off next to a scale
    network.
  - The network parameters `mu` and `log_sigma`.
  - The forward and inverse maps, with their shape assertions and the
    modulo-1 wrap on periodic dimensions.
- **The Metropolis Monte Carlo flow** (`mcmc.dfy`): `bgtorch/nn/flow/stochastic/mcmc.py`.
  `_forward` is a method whose loop is proved against a step-by-step
  specification `Run`. The work it returns is the energy change of each row.

Shared vocabulary lives in `common.dfy`:
- vectors and batches of reals;
- the Python exceptions, as an `Error` in a `Result`;
- sums;
- torch's `split`/`cat` on one axis, with `split` undoing `cat`.

Tensors are sequences of reals, and batches are sequences of rows. Several
things are parameters:
- collaborators: networks, energies, samplers and flows;
- elementary functions: `exp`, `tanh`, `softmax`, `logsumexp`. Lemmas
  assume only the algebraic laws they state;
- random draws: prior samples, Gaussian noise, uniforms and Sobol points.

`MetropolisMCFlow._forward`'s docstring says the returned work is "always 0".
The code returns `E - E0`, and the model follows the code: work is zero only
when nothing moves (`Mcmc.ZeroWorkWhenNothingMoves`).

## Model

| member | source | states |
|---|---|---|
| Product.ShapesConsistentIff | bgflow/distribution/product.py:239-242 | `ShapesConsistent` (`_shapes_consistent`) holds of two equal-rank shapes iff they agree on every axis except `cat_dim` |
| Product.StackedEventShapes | bgflow/distribution/product.py:223-236 | shapes returned unchanged without an axis; otherwise Ok iff stackable; IndexError / AssertionError by cause; the joint shape has the summed length on the axis; one length per component |
| Product.NewProductEnergy | bgflow/distribution/product.py:29-36 | construction succeeds iff the component shapes stack; keeps the components and one length per component |
| Product.Energy | bgflow/distribution/product.py:38-46 | accepts exactly one input per component (separate) or one input of the summed length (concatenated), and needs at least one component to pair, since `torch.stack` of nothing fails; AssertionError on a wrong input count, RuntimeError otherwise; the value is the sum of the components' energies on their inputs or pieces |
| Product.StackSumAdditive | bgflow/distribution/product.py:46 | the product energy of `c1 + c2` on `x1 + x2` is the sum of the two products' energies |
| Product.EnergySeparateUnfolds | bgflow/distribution/product.py:38-46 | separate-mode energy is the first component's energy plus the product energy of the rest |
| Product.EnergyModesAgree | bgflow/distribution/product.py:38-46 | concatenating the inputs and splitting them by their widths gives the separate-mode energy |
| Product.CatLast | bgflow/distribution/product.py:80 | `cat` succeeds iff there is a part and all parts have the same row count; RuntimeError otherwise; row count preserved |
| Product.CatLastSplit | bgflow/distribution/product.py:75-80 | splitting a concatenated row by the parts' widths returns each part's row |
| Product.Combine | bgflow/distribution/product.py:77-80 | tuple layout returns the parts; concatenated layout returns their `cat`, failing exactly when `cat` does |
| Product.ProductSample | bgflow/distribution/product.py:75-90 | tuple layout returns component `k`'s own `n` samples at temperature `t` in position `k`; concatenated layout fails iff no component or row counts differ, and otherwise returns the `cat` of the components' samples in component order |
| Product.ConcatenatedSampleEnergy | bgflow/distribution/product.py:75-80 | the concatenated-mode energy of a joined sample row equals the separate-mode energy of the components' own rows |
| Product.LogProb | bgflow/distribution/product.py:212-221 | as written: separate mode sums all entries of the components' log-densities, RuntimeError (`torch.cat` of nothing) with no components; concatenated mode raises AttributeError after the count check |
| Product.LogProbWithLengths | bgflow/distribution/product.py:212-221 | corrected: concatenated mode splits by the stacked lengths, Ok iff one input of the summed length, one length per component and at least one component |
| Product.LogProbModesAgree | bgflow/distribution/product.py:212-221 | corrected concatenated-mode log-density equals the separate-mode one on the pieces, which succeeds iff there is a component |
| Product.LogProbConcatenatedFails | bgflow/distribution/product.py:218 | as written, a well-formed concatenated input fails with AttributeError while the corrected version succeeds on it whenever there is a component |
| Sobol.PowerOfTwoIff | bgflow/distribution/product.py:136-137 | `IsPowerOfTwo`, the `log2(n) % 1 == 0` test, accepts exactly the numbers `2^k` |
| Sobol.Dims | bgflow/distribution/product.py:120 | one entry per component, its first event axis; IndexError iff some component has a 0-d event |
| Sobol.SplitColumns | bgflow/distribution/product.py:129-130 | one piece per entry of `dims`, each holding every row of the block, `dims[k]` columns wide |
| Sobol.SplitColumnsCat | bgflow/distribution/product.py:129-130 | concatenating the pieces of `SplitColumns` gives the Sobol block back |
| Sobol.Block | bgflow/distribution/product.py:139-141 | `n` rows, the engine's points `start`, ..., `start + n - 1` of the current epoch in order |
| Sobol.BlockInUnitCube | bgflow/distribution/product.py:139-141 | every drawn row has `sum(dims)` coordinates in [0, 1) |
| Sobol.PiecesInUnitCube | bgflow/distribution/product.py:144-150 | every component's `rand_samples` lie in [0, 1) |
| Sobol.SobolProductSampler.constructor | bgflow/distribution/product.py:115-122 | a fresh engine over `sum(dims)` dimensions with nothing generated; components and layout kept |
| Sobol.SobolProductSampler.InitSobol | bgflow/distribution/product.py:124-127 | a new epoch with the cursor reset to 0 |
| Sobol.SobolProductSampler.GetSobolSamples | bgflow/distribution/product.py:132-141 | reseeds exactly when the draw would overflow; succeeds iff `n` is a power of two within capacity, ValueError otherwise; returns the next `n` points and advances the cursor by `n` |
| Sobol.SobolProductSampler.Sample | bgflow/distribution/product.py:143-171 | one block per call split by `dims`, piece `k` fed to component `k`, combined as the layout asks; on a refused draw, ValueError with no points consumed, the engine reseeded with the cursor reset to 0 when the draw would have overflowed and the cursor untouched otherwise |
| BG.ColumnMinus | bgflow/bg.py:36-39 | `energy - dlogp` on columns: Ok iff the lengths broadcast (equal, or one of them 1), RuntimeError otherwise; row `i` subtracts the entries broadcasting assigns it |
| BG.UnnormalizedKlDiv | bgflow/bg.py:17-39 | the regulariser sees the whole column of target energies of the pushed samples; Ok iff its result broadcasts against `dlogp`, RuntimeError otherwise; loss plus the log-Jacobian is the regularised energy row by row; energies returned iff asked and equal to that column; without a regulariser it always succeeds with one loss per sample equal to target energy minus `dlogp` |
| BG.KlDiv | bgflow/bg.py:186-203 | the generator's own flow, target and regulariser; AttributeError without a target |
| BG.UnnormalizedNll | bgflow/bg.py:42-44 | the definition only: nll plus the inverse log-Jacobian is the prior energy of the inverted point; its meaning as the generator's energy is proved in `BG.SampleEnergyAgrees` and `BG.LogWeightsAreNllMinusTarget` |
| BG.LogWeightsGivenLatent | bgflow/bg.py:89-97 | unnormalised: log-weight plus target energy is prior energy plus `dlogp`; normalised or not, differences between samples are the raw differences |
| BG.LogWeights | bgflow/bg.py:47-53 | one log-weight per sample; unnormalised, log-weight plus target energy plus the inverse log-Jacobian is the prior energy of the latent point; normalised or not, differences between samples are the raw differences |
| BG.LogWeightsAreNllMinusTarget | bgflow/bg.py:47-53 | `log_weights` without normalisation is the generator's energy minus the target energy |
| BG.SampleEnergyAgrees | bgflow/bg.py:178-184 | on a flow that inverts on its samples, the generator's energy of a sample equals `prior.energy(z) + dlogp`, and `log_weights` from samples equals `log_weights_given_latent` |
| BG.NormalizeShifts | bgflow/bg.py:95-96 | normalising subtracts the same `logsumexp` from every log-weight |
| BG.KlLossPlusLogWeight | bgflow/bg.py:17-39 | KL loss plus unnormalised log-weight of a sample is the prior energy of its latent point |
| BG.GeneratorLogWeights | bgflow/bg.py:205-214 | `log_weights` with the generator's prior, flow and target; AttributeError iff there is no target |
| BG.Package | bgflow/bg.py:173-176 | a bare item iff exactly one result, a tuple of the results otherwise |
| BG.SampleLogWeights | bgflow/bg.py:162-167 | the log-weights `sample` returns are the unnormalised `log_weights_given_latent` of its own samples |
| BG.AppendScored | bgflow/bg.py:161-172 | appends energy, log-weights and weights as flagged; fails with AttributeError iff log-weights or weights are asked for without a target |
| BG.AppendedComplete | bgflow/bg.py:155-172 | the appends give the flow outputs first, then exactly the flagged kinds in fixed order, each holding its value |
| BG.Sample | bgflow/bg.py:141-176 | error iff log-weights or weights are asked for without a target; a bare value iff no flag is set; otherwise samples first and each flagged item in order with its value |
| BG.DrawsAt | bgflow/bg.py:78-82 | position `k` of the concatenated samples is sample `k % batch_size` of call `k / batch_size` |
| BG.DrawBatches | bgflow/bg.py:72-82 | the loop concatenates the prior calls in call order and pushes each through the flow |
| BG.LogWeightsFromSamples | bgflow/bg.py:56-86 | ZeroDivisionError for batch size 0; IndexError when no batch runs; otherwise `log_weights_given_latent` on `num_samples // batch_size` concatenated batches |
| Ess.EffectiveSampleSize | bgflow/bg.py:100-105 | None iff no weights; otherwise between 1 and the number of weights |
| Ess.ScaleInvariant | bgflow/bg.py:100-105 | scaling all weights by one positive factor (shifting the log-weights) leaves the ESS unchanged |
| Ess.UniformWeights | bgflow/bg.py:100-105 | equal weights give the largest ESS, the number of weights |
| Ess.SamplingEfficiency | bgflow/bg.py:108-110 | None iff no weights; otherwise in [1/n, 1] and equal to ESS / n |
| Affine.New | bgflow/nn/flow/transformer/affine.py:19-38 | `log_alpha = -init_downscale`; a scale network disables periodicity, warning iff some dimension was periodic; other fields kept |
| Affine.GetMuAndLogSigma | bgflow/nn/flow/transformer/affine.py:40-53 | zeros shaped like `y` for a missing network; `log_sigma[i] = tanh(scale(x)[i]) * exp(log_alpha)` without volume preservation |
| Affine.Wrap | bgflow/nn/flow/transformer/affine.py:64 | `% 1.0` lands in [0, 1) |
| Affine.ForwardMap | bgflow/nn/flow/transformer/affine.py:60-66 | coordinate `i` is `exp(log_sigma[i]) * y[i] + mu[i]`, wrapped on periodic dimensions, which land in [0, 1); `dlogp = sum(log_sigma)` |
| Affine.InverseMap | bgflow/nn/flow/transformer/affine.py:74-80 | coordinate `i` is `exp(-log_sigma[i]) * (y[i] - mu[i])`, wrapped on periodic dimensions; `dlogp = -sum(log_sigma)` |
| Affine.Forward | bgflow/nn/flow/transformer/affine.py:55-67 | Ok iff the network widths match `y` and the mask fits; AssertionError on a width mismatch, IndexError on a misfit mask; else the forward map |
| Affine.Inverse | bgflow/nn/flow/transformer/affine.py:69-81 | the same checks, then the inverse map |
| Affine.ParamsIgnoreValues | bgflow/nn/flow/transformer/affine.py:40-53 | the network outputs depend on `x` and the width of `y` only |
| Affine.DlogpCancel | bgflow/nn/flow/transformer/affine.py:55-81 | forward and inverse accept the same inputs and their `dlogp` sum to 0 |
| Affine.AffineRoundTrip | bgflow/nn/flow/transformer/affine.py:62-76 | the coordinate maps undo each other, modulo 1 on a periodic coordinate |
| Affine.ForwardMapInverts | bgflow/nn/flow/transformer/affine.py:55-81 | inverse map after forward map is the identity on ordinary dimensions, `% 1` on periodic ones |
| Affine.InverseMapInverts | bgflow/nn/flow/transformer/affine.py:55-81 | forward map after inverse map is the identity on ordinary dimensions, `% 1` on periodic ones |
| Affine.UnscaledWhenWellFormed | bgflow/nn/flow/transformer/affine.py:34-37 | after construction, periodic dimensions are never scaled |
| Affine.ForwardThenInverse | bgflow/nn/flow/transformer/affine.py:55-81 | `inverse(x, forward(x, y))` succeeds and returns `y` (modulo 1 on periodic dimensions) |
| Affine.InverseThenForward | bgflow/nn/flow/transformer/affine.py:55-81 | `forward(x, inverse(x, y))` succeeds and returns `y` (modulo 1 on periodic dimensions) |
| Affine.IdentityWithoutNetworks | bgflow/nn/flow/transformer/affine.py:41-52 | with neither network and no periodic dimension the transform is the identity with `dlogp = 0` |
| Affine.RecentredSumsToZero | bgflow/nn/flow/transformer/affine.py:49-50 | subtracting the mean leaves a vector summing to 0 |
| Affine.VolumePreserved | bgflow/nn/flow/transformer/affine.py:49-61 | with `preserve_volume` the forward `dlogp` is 0 |
| Affine.LogSigmaBounded | bgflow/nn/flow/transformer/affine.py:45-48 | without recentring every `log_sigma` lies strictly within `±exp(log_alpha)` |
| Mcmc.Propose | bgtorch/nn/flow/stochastic/mcmc.py:36-37 | the proposal has the batch's shape and is `x + stepsize * noise` entry by entry |
| Mcmc.Step | bgtorch/nn/flow/stochastic/mcmc.py:34-46 | each row moves to its proposal iff it passes the Metropolis test, and stays otherwise |
| Mcmc.BlendRowsSelect | bgtorch/nn/flow/stochastic/mcmc.py:45 | blending rows with a 0/1 mask selects the proposal where the mask is 1 and the old row elsewhere |
| Mcmc.BlendValuesSelect | bgtorch/nn/flow/stochastic/mcmc.py:46 | the same selection for the tracked energies |
| Mcmc.LoopBodyIsStep | bgtorch/nn/flow/stochastic/mcmc.py:35-46 | the loop body computes `Step` and keeps `E` equal to the energies of the state |
| Mcmc.Run | bgtorch/nn/flow/stochastic/mcmc.py:34-46 | the state after any number of steps keeps the batch's shape |
| Mcmc.RunVisitsProposals | bgtorch/nn/flow/stochastic/mcmc.py:34-46 | after `k` steps each row is its starting row or that row of a proposal made at an earlier step |
| Mcmc.Forward | bgtorch/nn/flow/stochastic/mcmc.py:14-57 | returns the state after `nsteps` Metropolis steps; the work of each row is its final minus its initial energy |
| Mcmc.Inverse | bgtorch/nn/flow/stochastic/mcmc.py:59-61 | the same trajectory and work as `_forward` |
| Mcmc.DownhillAccepted | bgtorch/nn/flow/stochastic/mcmc.py:41 | a proposal that does not raise the energy passes the test |
| Mcmc.DownhillRowMoves | bgtorch/nn/flow/stochastic/mcmc.py:41-45 | a row with a downhill proposal moves to it |
| Mcmc.RejectedRunStays | bgtorch/nn/flow/stochastic/mcmc.py:34-46 | when every proposal is rejected the state never moves |
| Mcmc.ZeroWorkWhenNothingMoves | bgtorch/nn/flow/stochastic/mcmc.py:55-57 | with no steps or all proposals rejected, the output is the input and every row's work is 0 |

## Left out

- Floating point is modelled as exact reals. Overflow, NaN and rounding are
  not modelled.
- `exp`, `tanh`, `softmax` and `logsumexp` are parameters. Only the laws the
  lemmas state are assumed of them.
- Ess.EffectiveSampleSize: works on the weights `w = exp(logw)` rather than
  the log-weights. `exp(2 lse(l) - lse(2 l))` equals `(sum w)^2 / sum w^2` in
  exact arithmetic. An empty batch gives NaN in torch and None here.
- Ess.SamplingEfficiency: the same weight-space reading. `len` of an empty
  batch would divide NaN by 0; the model returns None.
- Randomness is an input throughout:
  - prior draws (`prior.sample`);
  - Gaussian noise and uniforms in the Metropolis flow;
  - the Sobol engine's points and the seed `np.random.randint` draws.
  scipy's Sobol internals (scrambling, direction numbers) are not modelled.
  The only engine behaviour kept is that a draw beyond the engine's capacity
  raises ValueError.
- Context arguments are folded into the flows and networks. `torch.no_grad`,
  devices, dtypes, `.view`/`.reshape` and `nn.Module` registration are not
  modelled.
- Every event is one vector, concatenated along its last axis. `cat_dim`
  indexes the event shape in `_stacked_event_shapes` but the tensor in
  `split`/`cat`. The two agree only for negative `cat_dim`, which is the case
  the model's concatenation stands for.
- Multi-tensor events are left out: each sample is one tensor here, and
  `results.append(*z)` in `sample` appends that one latent tensor.
- BG.LogWeightsFromSamples: assumes a prior whose `sample` returns a
  one-element tuple `(z,)`; `draw(b)` stands for that tensor. Lines 73-79 of
  `bgflow/bg.py` never pass the draw through `pack_tensor_in_tuple`, unlike
  `unnormalized_kl_div` (lines 27-28) and `sample` (lines 152-153). For a
  prior that returns a bare tensor, `flow(*z_batch)` hands the batch's rows
  to the flow as separate inputs and `len(z[0])` counts rows, not tensors.
  What follows depends on the flow, which is not part of this model, so that
  path is not modelled.
- BG.DrawBatches: the same one-element-tuple assumption about the prior.
- Flows, prior energies and target energies act one sample at a time
  (`BG.Flow` maps a `Vec`). A flow or energy that couples the samples of a
  batch, or draws randomness of its own, is not modelled: the Metropolis
  flow of `mcmc.dfy` is such a flow and is not a `BG.Flow`.
- BG.UnnormalizedKlDiv: the regulariser is modelled as a map from the energy
  column to a column. One that returns a tensor of another rank (a scalar,
  a row) is not modelled.
- `__getitem__`, `__iter__` and `__len__` of the product classes are plain
  list access and are not modelled.
- `BoltzmannGenerator.__init__`'s event-shape choice and
  `BoltzmannGenerator.log_weights_given_latent` are not modelled separately.
  The latter is `BG.LogWeightsGivenLatent` with the generator's prior and
  target.
- `BoltzmannGenerator.trigger` only forwards to the flow and is not modelled.
- The distribution factory is not part of this model.
- Affine: one row at a time. Every operation acts row-wise on a batch.
- Affine: the in-place masked wrap `y[..., mask] %= 1.0` is modelled as
  building a new vector. At that point `y` is already a fresh tensor, so no
  caller-visible aliasing exists.
- Affine: masks of more than one dimension are not modelled.
  `restrict_to_unit_interval` is stored but never read, and the model only
  keeps it.
- Affine: `warn` is modelled as a `warned` flag on the constructor's result.
  `log_alpha` being a trainable parameter is not modelled.
- Mcmc: the input batch is supplied with the same shape as every noise
  batch, and the uniforms lie in [0, 1), as torch's `normal_` and `rand`
  produce them (`DrawsFit`).
- ProductSampler: `_sample` and `_sample_with_temperature` are one function,
  with `None` standing for no temperature.

## Findings

| source | as written | input that shows it | evidently intended | confidence | as-written member | corrected member |
|---|---|---|---|---|---|---|
| bgflow/distribution/product.py:218 | `ProductDistribution.log_prob` in concatenated mode reads `self._lengths`, which `ProductDistribution` never assigns; the lengths live on its `ProductEnergy` | `ProductDistribution(components, cat_dim=-1).log_prob(x)` for any single concatenated `x` raises AttributeError | split by the lengths `ProductEnergy` computed from the components' event shapes, as `ProductEnergy._energy` does | not executed | Product.LogProbConcatenatedFails | Product.LogProbModesAgree |
