/** `MetropolisMCFlow` (bgtorch/nn/flow/stochastic/mcmc.py): a stochastic
    flow layer that runs `nsteps` Metropolis Monte Carlo steps on a batch and
    reports the energy change as the work.

    The random draws are inputs: `noise[k]` is the standard normal batch of
    step `k` and `uniforms[k]` its per-row uniforms in [0, 1). `exp` is a
    parameter; the proofs assume only `ExpAtLeastOne`. */
module Mcmc {
  import opened Common

  datatype MetropolisMCFlow = MetropolisMCFlow(energy: Vec -> real, nsteps: nat, stepsize: real)

  /** `energy_model.energy(x)`, one value per row. */
  function Energies(energy: Vec -> real, x: Batch): (e: seq<real>)
    ensures |e| == |x|
    ensures forall r :: 0 <= r < |x| ==> e[r] == energy(x[r])
  {
    seq(|x|, r requires 0 <= r < |x| => energy(x[r]))
  }

  /** Two batches of the same shape. */
  predicate SameShape(a: Batch, b: Batch)
  {
    |a| == |b| && forall r :: 0 <= r < |a| ==> |a[r]| == |b[r]|
  }

  lemma SameShapeTrans(a: Batch, b: Batch, c: Batch)
    requires SameShape(a, b) && SameShape(b, c)
    ensures SameShape(a, c)
  {
  }

  /** `x + stepsize * noise`, entry by entry. */
  function Propose(x: Batch, stepsize: real, noise: Batch): (xp: Batch)
    requires SameShape(x, noise)
    ensures SameShape(xp, x)
    ensures forall r, j :: 0 <= r < |x| && 0 <= j < |x[r]| ==> xp[r][j] == x[r][j] + stepsize * noise[r][j]
  {
    seq(|x|, r requires 0 <= r < |x| =>
      seq(|x[r]|, j requires 0 <= j < |x[r]| => x[r][j] + stepsize * noise[r][j]))
  }

  /** The Metropolis test: the row's uniform lies below `exp(-(Eprop - E))`. */
  predicate Accepts(exp: real -> real, u: real, e: real, eProp: real)
  {
    u < exp(-(eProp - e))
  }

  /** The draws fit the batch: one noise batch and one row of uniforms per
      step, shaped like `x`, the uniforms in [0, 1). */
  predicate DrawsFit(x: Batch, nsteps: nat, noise: seq<Batch>, uniforms: seq<seq<real>>)
  {
    && |noise| == nsteps && |uniforms| == nsteps
    && (forall k :: 0 <= k < nsteps ==> SameShape(x, noise[k]))
    && (forall k :: 0 <= k < nsteps ==> |uniforms[k]| == |x|)
    && (forall k, r :: 0 <= k < nsteps && 0 <= r < |uniforms[k]| ==> 0.0 <= uniforms[k][r] < 1.0)
  }

  /** One Metropolis step, stated by selection: each row independently moves
      to its proposal when the proposal passes the test, and stays otherwise. */
  function Step(energy: Vec -> real, exp: real -> real, stepsize: real, x: Batch, noise: Batch, u: seq<real>): (x': Batch)
    requires SameShape(x, noise) && |u| == |x|
    ensures SameShape(x', x)
    ensures forall r :: 0 <= r < |x| ==>
      x'[r] == if Accepts(exp, u[r], energy(x[r]), energy(Propose(x, stepsize, noise)[r]))
               then Propose(x, stepsize, noise)[r] else x[r]
  {
    var xp := Propose(x, stepsize, noise);
    seq(|x|, r requires 0 <= r < |x| => if Accepts(exp, u[r], energy(x[r]), energy(xp[r])) then xp[r] else x[r])
  }

  /** The state after the first `k` steps. */
  function Run(energy: Vec -> real, exp: real -> real, stepsize: real, x0: Batch,
               noise: seq<Batch>, uniforms: seq<seq<real>>, k: nat): (x: Batch)
    requires k <= |noise| && k <= |uniforms|
    requires forall i :: 0 <= i < k ==> SameShape(x0, noise[i]) && |uniforms[i]| == |x0|
    ensures SameShape(x, x0)
  {
    if k == 0 then x0
    else
      var prev := Run(energy, exp, stepsize, x0, noise, uniforms, k - 1);
      SameShapeTrans(prev, x0, noise[k - 1]);
      Step(energy, exp, stepsize, prev, noise[k - 1], uniforms[k - 1])
  }

  /** The proposal made at step `j` of a run: the state after `j` steps
      moved by that step's noise. */
  function ProposalAt(energy: Vec -> real, exp: real -> real, stepsize: real, x0: Batch,
                      noise: seq<Batch>, uniforms: seq<seq<real>>, j: nat): (xp: Batch)
    requires j < |noise| && j < |uniforms|
    requires forall i :: 0 <= i <= j ==> SameShape(x0, noise[i]) && |uniforms[i]| == |x0|
    ensures SameShape(xp, x0)
  {
    var x := Run(energy, exp, stepsize, x0, noise, uniforms, j);
    SameShapeTrans(x, x0, noise[j]);
    Propose(x, stepsize, noise[j])
  }

  /** The chain only ever moves a row to a proposal: after `k` steps each row
      is its starting row or that row of a proposal made at an earlier step. */
  lemma {:induction false} RunVisitsProposals(energy: Vec -> real, exp: real -> real, stepsize: real, x0: Batch,
                                             noise: seq<Batch>, uniforms: seq<seq<real>>, k: nat, r: nat)
    requires k <= |noise| && k <= |uniforms|
    requires forall i :: 0 <= i < k ==> SameShape(x0, noise[i]) && |uniforms[i]| == |x0|
    requires r < |x0|
    ensures var x := Run(energy, exp, stepsize, x0, noise, uniforms, k);
      x[r] == x0[r] ||
      exists j :: 0 <= j < k && x[r] == ProposalAt(energy, exp, stepsize, x0, noise, uniforms, j)[r]
  {
    if k > 0 {
      RunVisitsProposals(energy, exp, stepsize, x0, noise, uniforms, k - 1, r);
      var prev := Run(energy, exp, stepsize, x0, noise, uniforms, k - 1);
      var x := Run(energy, exp, stepsize, x0, noise, uniforms, k);
      var xp := ProposalAt(energy, exp, stepsize, x0, noise, uniforms, k - 1);
      assert x[r] == xp[r] || x[r] == prev[r];
      if x[r] != xp[r] {
        assert x[r] == prev[r];
        if prev[r] != x0[r] {
          var j :| 0 <= j < k - 1 && prev[r] == ProposalAt(energy, exp, stepsize, x0, noise, uniforms, j)[r];
          assert x[r] == ProposalAt(energy, exp, stepsize, x0, noise, uniforms, j)[r];
        }
      }
    }
  }

  /** `(1 - acc) * v + acc * w` for a selection variable `acc` in {0, 1}. */
  function Blend(acc: real, v: real, w: real): real
  {
    (1.0 - acc) * v + acc * w
  }

  lemma BlendSelects(acc: real, v: real, w: real, b: real)
    requires (acc == 0.0 || acc == 1.0) && b == Blend(acc, v, w)
    ensures b == if acc == 1.0 then w else v
  {
  }

  /** The accept mask as floats: 1.0 where the test passes, 0.0 elsewhere. */
  function AcceptMask(exp: real -> real, u: seq<real>, e: seq<real>, eProp: seq<real>): (acc: seq<real>)
    requires |u| == |e| == |eProp|
    ensures |acc| == |u|
    ensures forall r :: 0 <= r < |u| ==> acc[r] == if Accepts(exp, u[r], e[r], eProp[r]) then 1.0 else 0.0
  {
    seq(|u|, r requires 0 <= r < |u| => if Accepts(exp, u[r], e[r], eProp[r]) then 1.0 else 0.0)
  }

  /** `(1 - acc) * x + acc * xprop`, the mask broadcast along each row. */
  function BlendRows(acc: seq<real>, x: Batch, xp: Batch): (b: Batch)
    requires |acc| == |x| && SameShape(x, xp)
    ensures SameShape(b, x)
    ensures forall r, j :: 0 <= r < |x| && 0 <= j < |x[r]| ==> b[r][j] == Blend(acc[r], x[r][j], xp[r][j])
  {
    seq(|x|, r requires 0 <= r < |x| =>
      seq(|x[r]|, j requires 0 <= j < |x[r]| => Blend(acc[r], x[r][j], xp[r][j])))
  }

  /** `(1 - acc) * E + acc * Eprop`. */
  function BlendValues(acc: seq<real>, e: seq<real>, eProp: seq<real>): (b: seq<real>)
    requires |acc| == |e| == |eProp|
    ensures |b| == |e|
    ensures forall r :: 0 <= r < |e| ==> b[r] == Blend(acc[r], e[r], eProp[r])
  {
    seq(|e|, r requires 0 <= r < |e| => Blend(acc[r], e[r], eProp[r]))
  }

  predicate IsMask(acc: seq<real>)
  {
    forall r :: 0 <= r < |acc| ==> acc[r] == 0.0 || acc[r] == 1.0
  }

  /** Blending with a 0/1 mask selects whole rows. */
  lemma BlendRowsSelect(acc: seq<real>, x: Batch, xp: Batch)
    requires |acc| == |x| && SameShape(x, xp) && IsMask(acc)
    ensures forall r :: 0 <= r < |x| ==> BlendRows(acc, x, xp)[r] == if acc[r] == 1.0 then xp[r] else x[r]
  {
    forall r | 0 <= r < |x|
      ensures BlendRows(acc, x, xp)[r] == if acc[r] == 1.0 then xp[r] else x[r]
    {
      forall j | 0 <= j < |x[r]|
        ensures BlendRows(acc, x, xp)[r][j] == if acc[r] == 1.0 then xp[r][j] else x[r][j]
      {
        BlendSelects(acc[r], x[r][j], xp[r][j], BlendRows(acc, x, xp)[r][j]);
      }
    }
  }

  lemma BlendValuesSelect(acc: seq<real>, e: seq<real>, eProp: seq<real>)
    requires |acc| == |e| == |eProp| && IsMask(acc)
    ensures forall r :: 0 <= r < |e| ==> BlendValues(acc, e, eProp)[r] == if acc[r] == 1.0 then eProp[r] else e[r]
  {
    forall r | 0 <= r < |e|
      ensures BlendValues(acc, e, eProp)[r] == if acc[r] == 1.0 then eProp[r] else e[r]
    {
      BlendSelects(acc[r], e[r], eProp[r], BlendValues(acc, e, eProp)[r]);
    }
  }

  /** One iteration of the loop body agrees with `Step` and keeps the tracked
      energies equal to the energies of the state. */
  lemma LoopBodyIsStep(energy: Vec -> real, exp: real -> real, stepsize: real, x: Batch, noise: Batch, u: seq<real>)
    requires SameShape(x, noise) && |u| == |x|
    ensures var xp := Propose(x, stepsize, noise);
      var acc := AcceptMask(exp, u, Energies(energy, x), Energies(energy, xp));
      && BlendRows(acc, x, xp) == Step(energy, exp, stepsize, x, noise, u)
      && BlendValues(acc, Energies(energy, x), Energies(energy, xp)) == Energies(energy, Step(energy, exp, stepsize, x, noise, u))
  {
    var xp := Propose(x, stepsize, noise);
    var e, eProp := Energies(energy, x), Energies(energy, xp);
    var acc := AcceptMask(exp, u, e, eProp);
    BlendRowsSelect(acc, x, xp);
    BlendValuesSelect(acc, e, eProp);
    var next := Step(energy, exp, stepsize, x, noise, u);
    assert BlendRows(acc, x, xp) == next;
    assert BlendValues(acc, e, eProp) == Energies(energy, next);
  }

  /** `_forward`: `nsteps` proposal and acceptance steps, then the work
      `dW = E - E0`, which is the energy change of every row. */
  method Forward(flow: MetropolisMCFlow, exp: real -> real, x0: Batch, noise: seq<Batch>, uniforms: seq<seq<real>>)
    returns (x: Batch, dW: seq<real>)
    requires DrawsFit(x0, flow.nsteps, noise, uniforms)
    ensures x == Run(flow.energy, exp, flow.stepsize, x0, noise, uniforms, flow.nsteps)
    ensures |dW| == |x0|
    ensures forall r :: 0 <= r < |x0| ==> dW[r] == flow.energy(x[r]) - flow.energy(x0[r])
  {
    var e0 := Energies(flow.energy, x0);
    var e := e0;
    x := x0;
    for i := 0 to flow.nsteps
      invariant x == Run(flow.energy, exp, flow.stepsize, x0, noise, uniforms, i)
      invariant e == Energies(flow.energy, x)
    {
      var xProp := Propose(x, flow.stepsize, noise[i]);
      var eProp := Energies(flow.energy, xProp);
      var acc := AcceptMask(exp, uniforms[i], e, eProp);
      LoopBodyIsStep(flow.energy, exp, flow.stepsize, x, noise[i], uniforms[i]);
      x := BlendRows(acc, x, xProp);
      e := BlendValues(acc, e, eProp);
    }
    dW := seq(|x0|, r requires 0 <= r < |x0| => e[r] - e0[r]);
  }

  /** `_inverse`: the same trajectory as `_forward`. */
  method Inverse(flow: MetropolisMCFlow, exp: real -> real, x0: Batch, noise: seq<Batch>, uniforms: seq<seq<real>>)
    returns (x: Batch, dW: seq<real>)
    requires DrawsFit(x0, flow.nsteps, noise, uniforms)
    ensures x == Run(flow.energy, exp, flow.stepsize, x0, noise, uniforms, flow.nsteps)
    ensures |dW| == |x0|
    ensures forall r :: 0 <= r < |x0| ==> dW[r] == flow.energy(x[r]) - flow.energy(x0[r])
  {
    x, dW := Forward(flow, exp, x0, noise, uniforms);
  }

  /** `exp` is at least 1 on non-negative arguments. */
  ghost predicate ExpAtLeastOne(exp: real -> real)
  {
    forall a :: a >= 0.0 ==> exp(a) >= 1.0
  }

  lemma ExpAtLeastOneAt(exp: real -> real, a: real)
    requires ExpAtLeastOne(exp) && a >= 0.0
    ensures exp(a) >= 1.0
  {
  }

  /** A proposal that does not raise the energy is always accepted, since
      the uniform is below 1. */
  lemma DownhillAccepted(exp: real -> real, u: real, e: real, eProp: real)
    requires ExpAtLeastOne(exp) && 0.0 <= u < 1.0 && eProp <= e
    ensures Accepts(exp, u, e, eProp)
  {
    ExpAtLeastOneAt(exp, -(eProp - e));
  }

  /** In `Step`, a row whose proposal is downhill moves to it. */
  lemma DownhillRowMoves(energy: Vec -> real, exp: real -> real, stepsize: real, x: Batch, noise: Batch, u: seq<real>, r: nat)
    requires ExpAtLeastOne(exp) && SameShape(x, noise) && |u| == |x| && r < |x| && 0.0 <= u[r] < 1.0
    requires energy(Propose(x, stepsize, noise)[r]) <= energy(x[r])
    ensures Step(energy, exp, stepsize, x, noise, u)[r] == Propose(x, stepsize, noise)[r]
  {
    DownhillAccepted(exp, u[r], energy(x[r]), energy(Propose(x, stepsize, noise)[r]));
  }

  /** Every step of the supplied draws rejects every row of `x0`. */
  predicate AllRejected(energy: Vec -> real, exp: real -> real, stepsize: real, x0: Batch,
                        noise: seq<Batch>, uniforms: seq<seq<real>>, k: nat)
    requires k <= |noise| && k <= |uniforms|
    requires forall i :: 0 <= i < k ==> SameShape(x0, noise[i]) && |uniforms[i]| == |x0|
  {
    forall i, r :: 0 <= i < k && 0 <= r < |x0| ==>
      !Accepts(exp, uniforms[i][r], energy(x0[r]), energy(Propose(x0, stepsize, noise[i])[r]))
  }

  /** When every proposal is rejected the state never moves. */
  lemma {:induction false} RejectedRunStays(energy: Vec -> real, exp: real -> real, stepsize: real, x0: Batch,
                                           noise: seq<Batch>, uniforms: seq<seq<real>>, k: nat)
    requires k <= |noise| && k <= |uniforms|
    requires forall i :: 0 <= i < k ==> SameShape(x0, noise[i]) && |uniforms[i]| == |x0|
    requires AllRejected(energy, exp, stepsize, x0, noise, uniforms, k)
    ensures Run(energy, exp, stepsize, x0, noise, uniforms, k) == x0
  {
    if k > 0 {
      RejectedRunStays(energy, exp, stepsize, x0, noise, uniforms, k - 1);
      var next := Step(energy, exp, stepsize, x0, noise[k - 1], uniforms[k - 1]);
      forall r | 0 <= r < |x0|
        ensures next[r] == x0[r]
      {
        assert !Accepts(exp, uniforms[k - 1][r], energy(x0[r]), energy(Propose(x0, stepsize, noise[k - 1])[r]));
      }
    }
  }

  /** When no step runs, or every proposal is rejected, the output is the
      input and the work of every row is zero. */
  lemma ZeroWorkWhenNothingMoves(flow: MetropolisMCFlow, exp: real -> real, x0: Batch,
                                 noise: seq<Batch>, uniforms: seq<seq<real>>, x: Batch, dW: seq<real>)
    requires DrawsFit(x0, flow.nsteps, noise, uniforms)
    requires flow.nsteps == 0 || AllRejected(flow.energy, exp, flow.stepsize, x0, noise, uniforms, flow.nsteps)
    requires x == Run(flow.energy, exp, flow.stepsize, x0, noise, uniforms, flow.nsteps)
    requires |dW| == |x0| && forall r :: 0 <= r < |x0| ==> dW[r] == flow.energy(x[r]) - flow.energy(x0[r])
    ensures x == x0
    ensures forall r :: 0 <= r < |x0| ==> dW[r] == 0.0
  {
    if flow.nsteps > 0 {
      RejectedRunStays(flow.energy, exp, flow.stepsize, x0, noise, uniforms, flow.nsteps);
    }
  }
}
