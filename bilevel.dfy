/**
 * The DARTS architecture-gradient design shared by FastAutoAugment/nas/arch.py
 * and FastAutoAugment/darts/arch.py: the simulated ("unrolled") SGD step on
 * the weights, the two momentum policies, the finite-difference
 * Hessian-vector product and the resulting alpha gradient (equations 6-8 of
 * the DARTS paper).
 *
 * Losses and autograd are outside the model: a `GradOracle` stands for "the
 * gradient of the loss on one fixed batch", as a function of the weights and
 * the alphas it is evaluated at. The L2 norm is an oracle as well.
 */
module Bilevel {
  import opened Common
  import opened Tensors

  /** The gradient of a loss with respect to the alphas and the weights. */
  datatype LossGrad = LossGrad(dAlphas: Params, dWeights: Params)

  /** `(weights, alphas) -> gradients` of the loss on one fixed batch. */
  type GradOracle = (Params, Params) -> LossGrad

  /** What autograd guarantees: one gradient per input tensor, of the same size. */
  ghost predicate Conforms(loss: GradOracle)
  {
    forall w: Params, a: Params ::
      SameShape(loss(w, a).dAlphas, a) && SameShape(loss(w, a).dWeights, w)
  }

  /** `torch.norm` of a flat vector. */
  type NormOracle = Vec -> real

  // ---- the simulated weight step

  /**
   * Momentum buffers of the weight optimizer, keyed by the position of the
   * weight in `weights()`; a weight without a key has no buffer yet.
   */
  type MomentumState = map<nat, Vec>

  ghost predicate BuffersConform(bufs: MomentumState, w: Params)
  {
    forall i :: i in bufs && i < |w| ==> |bufs[i]| == |w[i]|
  }

  /**
   * The refactored policy: `state[w].get('momentum_buffer', 0.) * momentum`,
   * decided weight by weight; a missing buffer contributes zero.
   */
  function PerWeightMomentum(bufs: MomentumState, w: Params, momentum: real): (m: Params)
    requires BuffersConform(bufs, w)
    ensures SameShape(m, w)
  {
    seq(|w|, i requires 0 <= i < |w| =>
      if i in bufs then Scale(momentum, bufs[i]) else Zeros(|w[i]|))
  }

  predicate AllBuffersPresent(bufs: MomentumState, n: nat)
  {
    forall i | 0 <= i < n :: i in bufs
  }

  function BufferTuple(bufs: MomentumState, n: nat): Params
    requires AllBuffersPresent(bufs, n)
  {
    seq(n, i requires 0 <= i < n => bufs[i])
  }

  /**
   * The older policy: flatten every buffer and scale by `momentum`, but fall
   * back to all zeros as soon as one buffer is missing (the `except` branch).
   */
  function AllOrNothingMomentum(bufs: MomentumState, w: Params, momentum: real): (m: Vec)
    requires BuffersConform(bufs, w)
    ensures |m| == |Flatten(w)|
  {
    if AllBuffersPresent(bufs, |w|) then
      var b := BufferTuple(bufs, |w|);
      assert Numels(b) == Numels(w);
      Scale(momentum, Flatten(b))
    else Zeros(|Flatten(w)|)
  }

  /** `w - lr * (m + g + wd * w)`, element by element. */
  function SgdStep(w: Vec, m: Vec, g: Vec, lr: real, wd: real): Vec
    requires |m| == |w| && |g| == |w|
  {
    seq(|w|, k requires 0 <= k < |w| => w[k] - lr * (m[k] + g[k] + wd * w[k]))
  }

  /** The fused SGD step applied tensor by tensor. */
  function UnrolledWeights(w: Params, m: Params, g: Params, lr: real, wd: real): (r: Params)
    requires SameShape(m, w) && SameShape(g, w)
    ensures SameShape(r, w)
  {
    seq(|w|, i requires 0 <= i < |w| => SgdStep(w[i], m[i], g[i], lr, wd))
  }

  /**
   * The simulated weights `w'` of equation 6: one fused step of SGD with
   * momentum and weight decay on the training gradient, with the per-weight
   * momentum policy.
   */
  function VirtualWeights(trainLoss: GradOracle, w: Params, a: Params, bufs: MomentumState,
                          momentum: real, lr: real, wd: real): (r: Params)
    requires Conforms(trainLoss) && BuffersConform(bufs, w)
    ensures SameShape(r, w)
  {
    UnrolledWeights(w, PerWeightMomentum(bufs, w, momentum), trainLoss(w, a).dWeights, lr, wd)
  }

  lemma SgdStepAppend(w1: Vec, w2: Vec, m1: Vec, m2: Vec, g1: Vec, g2: Vec, lr: real, wd: real)
    requires |m1| == |w1| && |g1| == |w1| && |m2| == |w2| && |g2| == |w2|
    ensures SgdStep(w1 + w2, m1 + m2, g1 + g2, lr, wd) == SgdStep(w1, m1, g1, lr, wd) + SgdStep(w2, m2, g2, lr, wd)
  {
    var l, r := SgdStep(w1 + w2, m1 + m2, g1 + g2, lr, wd), SgdStep(w1, m1, g1, lr, wd) + SgdStep(w2, m2, g2, lr, wd);
    assert |l| == |r|;
    forall k | 0 <= k < |l|
      ensures l[k] == r[k]
    {
      if k >= |w1| {
        assert (w1 + w2)[k] == w2[k - |w1|];
      }
    }
  }

  /**
   * Stepping tensor by tensor and stepping the flattened vector agree: the
   * refactored update (per weight) and the older one (on `concat(theta)`)
   * produce the same numbers.
   */
  lemma {:induction false} FlattenUnrolledWeights(w: Params, m: Params, g: Params, lr: real, wd: real)
    requires SameShape(m, w) && SameShape(g, w)
    ensures |Flatten(m)| == |Flatten(w)| && |Flatten(g)| == |Flatten(w)|
    ensures Flatten(UnrolledWeights(w, m, g, lr, wd)) == SgdStep(Flatten(w), Flatten(m), Flatten(g), lr, wd)
  {
    assert Numels(m) == Numels(w) && Numels(g) == Numels(w);
    if w != [] {
      var r := UnrolledWeights(w, m, g, lr, wd);
      assert r[1..] == UnrolledWeights(w[1..], m[1..], g[1..], lr, wd);
      FlattenUnrolledWeights(w[1..], m[1..], g[1..], lr, wd);
      SgdStepAppend(w[0], Flatten(w[1..]), m[0], Flatten(m[1..]), g[0], Flatten(g[1..]), lr, wd);
    }
  }

  function ScaleAll(c: real, ps: Params): Params
  {
    seq(|ps|, i requires 0 <= i < |ps| => Scale(c, ps[i]))
  }

  lemma ScaleAppend(c: real, x: Vec, y: Vec)
    ensures Scale(c, x + y) == Scale(c, x) + Scale(c, y)
  {
    var l, r := Scale(c, x + y), Scale(c, x) + Scale(c, y);
    forall k | 0 <= k < |l|
      ensures l[k] == r[k]
    {
      if k >= |x| {
        assert (x + y)[k] == y[k - |x|];
      }
    }
  }

  lemma {:induction false} FlattenScaleAll(c: real, ps: Params)
    ensures Flatten(ScaleAll(c, ps)) == Scale(c, Flatten(ps))
  {
    if ps != [] {
      assert ScaleAll(c, ps)[1..] == ScaleAll(c, ps[1..]);
      FlattenScaleAll(c, ps[1..]);
      ScaleAppend(c, ps[0], Flatten(ps[1..]));
    }
  }

  lemma {:induction false} FlattenZerosLike(ps: Params)
    ensures Flatten(ZerosLike(ps)) == Zeros(|Flatten(ps)|)
  {
    if ps != [] {
      assert ZerosLike(ps)[1..] == ZerosLike(ps[1..]);
      FlattenZerosLike(ps[1..]);
    }
  }

  /**
   * The two momentum policies coincide when every weight has a buffer and
   * when none has one; they differ only for a partially filled optimizer
   * state (see `MomentumPoliciesDiffer`).
   */
  lemma MomentumPoliciesAgree(bufs: MomentumState, w: Params, momentum: real)
    requires BuffersConform(bufs, w)
    requires AllBuffersPresent(bufs, |w|) || forall i :: 0 <= i < |w| ==> i !in bufs
    ensures Flatten(PerWeightMomentum(bufs, w, momentum)) == AllOrNothingMomentum(bufs, w, momentum)
  {
    var m := PerWeightMomentum(bufs, w, momentum);
    if AllBuffersPresent(bufs, |w|) {
      assert m == ScaleAll(momentum, BufferTuple(bufs, |w|));
      FlattenScaleAll(momentum, BufferTuple(bufs, |w|));
    } else {
      assert m == ZerosLike(w);
      FlattenZerosLike(w);
    }
  }

  /**
   * With some buffer missing, the older policy drops every buffer while the
   * refactored one still uses each buffer that exists.
   */
  lemma MomentumPoliciesDiffer(bufs: MomentumState, w: Params, momentum: real)
    requires BuffersConform(bufs, w) && !AllBuffersPresent(bufs, |w|)
    ensures AllOrNothingMomentum(bufs, w, momentum) == Zeros(|Flatten(w)|)
    ensures forall i :: 0 <= i < |w| && i in bufs ==>
      PerWeightMomentum(bufs, w, momentum)[i] == Scale(momentum, bufs[i])
  {
  }

  /** A state with one buffer out of two: the refactored step keeps it, the older one drops it. */
  lemma MomentumPoliciesDifferOnExample()
    ensures Flatten(PerWeightMomentum(map[0 := [1.0]], [[1.0], [1.0]], 0.5)) == [0.5, 0.0]
    ensures AllOrNothingMomentum(map[0 := [1.0]], [[1.0], [1.0]], 0.5) == [0.0, 0.0]
  {
    var w: Params := [[1.0], [1.0]];
    var bufs: MomentumState := map[0 := [1.0]];
    assert !AllBuffersPresent(bufs, 2) by {
      assert 1 !in bufs;
    }
    var m := PerWeightMomentum(bufs, w, 0.5);
    assert m[0] == Scale(0.5, [1.0]) == [0.5];
    assert m[1] == Zeros(1) == [0.0];
    assert m == [[0.5], [0.0]];
    assert Flatten(m) == [0.5] + ([0.0] + []);
    assert Flatten(w) == [1.0] + ([1.0] + []);
    assert Zeros(2) == [0.0, 0.0];
  }

  // ---- the finite-difference Hessian-vector product

  /**
   * `epsilon_unit / norm(dw)`: the step along `dw` is scaled so that the
   * perturbation always has length `epsilon_unit`.
   */
  function Epsilon(unit: real, dwNorm: real): (eps: real)
    requires dwNorm > 0.0
    ensures unit > 0.0 ==> eps > 0.0
    ensures unit != 0.0 ==> eps != 0.0
  {
    unit / dwNorm
  }

  /** A norm scales with a non-negative factor, as the Euclidean norm does. */
  ghost predicate IsHomogeneous(norm: NormOracle)
  {
    forall c: real, v: Vec {:trigger norm(Scale(c, v))} ::
      c >= 0.0 ==> norm(Scale(c, v)) == c * norm(v)
  }

  /**
   * Whatever the size of `dw`, the perturbation `eps dw` has length exactly
   * `epsilon_unit`.
   */
  lemma PerturbationHasUnitLength(norm: NormOracle, dw: Vec, unit: real)
    requires IsHomogeneous(norm) && norm(dw) > 0.0 && unit > 0.0
    ensures norm(Scale(Epsilon(unit, norm(dw)), dw)) == unit
  {
    var n := norm(dw);
    var eps := Epsilon(unit, n);
    assert eps * n == unit;
    assert norm(Scale(eps, dw)) == eps * n;
  }

  /** `(gp - gn) / (2 eps)`, tensor by tensor and element by element. */
  function FiniteDifference(gp: Params, gn: Params, eps: real): (h: Params)
    requires SameShape(gp, gn) && eps != 0.0
    ensures SameShape(h, gp)
  {
    seq(|gp|, i requires 0 <= i < |gp| =>
      seq(|gp[i]|, k requires 0 <= k < |gp[i]| => (gp[i][k] - gn[i][k]) / (2.0 * eps)))
  }

  /**
   * Equation 8: the alpha gradient of the training loss at `w + eps dw`
   * minus the one at `w - eps dw`, over `2 eps`, with
   * `eps = unit / norm(concat(dw))`.
   */
  function HessianEstimate(trainLoss: GradOracle, norm: NormOracle, w: Params, a: Params,
                           dw: Params, unit: real): (h: Params)
    requires Conforms(trainLoss) && SameShape(dw, w)
    requires norm(Flatten(dw)) > 0.0 && unit != 0.0
    ensures SameShape(h, a)
  {
    var eps := Epsilon(unit, norm(Flatten(dw)));
    FiniteDifference(trainLoss(AddScaled(w, eps, dw), a).dAlphas,
                     trainLoss(AddScaled(w, -eps, dw), a).dAlphas, eps)
  }

  /**
   * When the alpha gradient of the training loss does not depend on the
   * weights (no mixed second derivative), the estimate is exactly zero.
   */
  lemma HessianVanishesWithoutMixedCurvature(trainLoss: GradOracle, norm: NormOracle,
                                             w: Params, a: Params, dw: Params, unit: real)
    requires Conforms(trainLoss) && SameShape(dw, w)
    requires norm(Flatten(dw)) > 0.0 && unit != 0.0
    requires forall v :: trainLoss(v, a).dAlphas == trainLoss(w, a).dAlphas
    ensures HessianEstimate(trainLoss, norm, w, a, dw, unit) == ZerosLike(a)
  {
    var eps := Epsilon(unit, norm(Flatten(dw)));
    var g := trainLoss(w, a).dAlphas;
    assert trainLoss(AddScaled(w, eps, dw), a).dAlphas == g;
    assert trainLoss(AddScaled(w, -eps, dw), a).dAlphas == g;
    assert HessianEstimate(trainLoss, norm, w, a, dw, unit) == FiniteDifference(g, g, eps);
    FiniteDifferenceOfEqual(g, eps);
    ZerosLikeOfSameShape(g, a);
    assert HessianEstimate(trainLoss, norm, w, a, dw, unit) == ZerosLike(a);
  }

  lemma ZerosLikeOfSameShape(p: Params, q: Params)
    requires SameShape(p, q)
    ensures ZerosLike(p) == ZerosLike(q)
  {
  }

  lemma FiniteDifferenceOfEqual(g: Params, eps: real)
    requires eps != 0.0
    ensures FiniteDifference(g, g, eps) == ZerosLike(g)
  {
    var h := FiniteDifference(g, g, eps);
    forall i | 0 <= i < |g|
      ensures h[i] == ZerosLike(g)[i]
    {
      assert forall k :: 0 <= k < |g[i]| ==> h[i][k] == 0.0;
    }
  }

  /**
   * The alpha gradient of the bilevel step (equation 7): the validation
   * gradient at the unrolled weights `wNext`, minus `lr` times the Hessian
   * estimate taken at the live weights `w` along the validation gradient
   * with respect to `wNext`.
   */
  function Hypergradient(trainLoss: GradOracle, validLoss: GradOracle, norm: NormOracle,
                         w: Params, a: Params, wNext: Params, lr: real, unit: real): (r: Params)
    requires Conforms(trainLoss) && Conforms(validLoss) && SameShape(wNext, w)
    requires norm(Flatten(validLoss(wNext, a).dWeights)) > 0.0 && unit != 0.0
    ensures SameShape(r, a)
  {
    var v := validLoss(wNext, a);
    AddScaled(v.dAlphas, -lr, HessianEstimate(trainLoss, norm, w, a, v.dWeights, unit))
  }

  /**
   * `autograd.grad(loss, alphas + weights)` returns one tuple; its first
   * `len(alphas)` entries are the alpha part and the rest the weight part.
   */
  function SplitGrads(combined: Params, nAlphas: nat): (r: LossGrad)
    requires nAlphas <= |combined|
    ensures |r.dAlphas| == nAlphas
    ensures r.dAlphas + r.dWeights == combined
  {
    LossGrad(combined[..nAlphas], combined[nAlphas..])
  }

  /** Splitting the combined tuple at `len(alphas)` recovers both parts, in order. */
  lemma SplitOfCombined(g: LossGrad)
    ensures SplitGrads(g.dAlphas + g.dWeights, |g.dAlphas|) == g
  {
    var r := SplitGrads(g.dAlphas + g.dWeights, |g.dAlphas|);
    assert r.dAlphas == g.dAlphas;
    assert r.dWeights == g.dWeights;
  }

  // ---- gradient slots (`.grad`) and optimizers

  /** The `.grad` slot of each tensor of a tuple; `None` is a slot never written. */
  type Grads = seq<Option<Vec>>

  ghost predicate GradsConform(gs: Grads, ps: Params)
  {
    |gs| == |ps| && forall i :: 0 <= i < |gs| && gs[i].Some? ==> |gs[i].value| == |ps[i]|
  }

  /** `optimizer.zero_grad()`: existing gradients become zero, missing ones stay missing. */
  function ZeroGrad(gs: Grads): (r: Grads)
    ensures |r| == |gs|
    ensures forall i :: 0 <= i < |gs| ==> (r[i].Some? <==> gs[i].Some?)
  {
    seq(|gs|, i requires 0 <= i < |gs| =>
      if gs[i].Some? then Some(Zeros(|gs[i].value|)) else None)
  }

  /** `n` gradient slots that were never written. */
  function NoGrads(n: nat): (r: Grads)
    ensures |r| == n && forall i :: 0 <= i < n ==> r[i] == None
  {
    seq(n, _ => None)
  }

  /** `loss.backward()`: the new gradient is added into each slot; a missing slot is created. */
  function Accumulate(gs: Grads, g: Params): (r: Grads)
    requires GradsConform(gs, g)
    ensures GradsConform(r, g)
  {
    seq(|gs|, i requires 0 <= i < |gs| =>
      if gs[i].Some? then Some(Axpy(gs[i].value, 1.0, g[i])) else Some(g[i]))
  }

  /** Every slot holds exactly the given gradient. */
  function Assigned(g: Params): Grads
  {
    seq(|g|, i requires 0 <= i < |g| => Some(g[i]))
  }

  /**
   * Clearing before backpropagating makes the slots hold exactly the fresh
   * gradient: nothing from an earlier step is carried over.
   */
  lemma BackwardAfterZeroGrad(gs: Grads, g: Params)
    requires GradsConform(gs, g)
    ensures Accumulate(ZeroGrad(gs), g) == Assigned(g)
  {
    var r := Accumulate(ZeroGrad(gs), g);
    forall i | 0 <= i < |gs|
      ensures r[i] == Some(g[i])
    {
      if gs[i].Some? {
        var z := ZeroGrad(gs)[i].value;
        assert z == Zeros(|g[i]|);
        var v := Axpy(z, 1.0, g[i]);
        assert forall k :: 0 <= k < |g[i]| ==> v[k] == g[i][k];
        assert v == g[i];
      }
    }
  }

  /** `optimizer.step()` as a function of the parameters and their gradient slots. */
  type StepRule = (Params, Grads) -> Params

  ghost predicate PreservesShape(rule: StepRule)
  {
    forall p, g :: SameShape(rule(p, g), p)
  }
}
