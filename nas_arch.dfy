/**
 * The refactored architecture step of FastAutoAugment/nas/arch.py: a live
 * model, a virtual copy `vmodel` that receives the simulated weights `w'`,
 * and an optimizer over the alphas. Losses and autograd are gradient oracles
 * (see module Bilevel); the optimizers are step rules.
 */
module NasArch {
  import opened Common
  import opened Tensors
  import opened Bilevel

  /** The default `epsilon_unit` of `_hessian_vector_product`. */
  const EpsilonUnit: real := 0.01

  /** A search model: its weights, its alphas, and the `.grad` slot of each. */
  class Model {
    var weights: Params
    var alphas: Params
    var weightGrads: Grads
    var alphaGrads: Grads

    ghost predicate Valid()
      reads this
    {
      GradsConform(weightGrads, weights) && GradsConform(alphaGrads, alphas)
    }

    constructor (w: Params, a: Params)
      ensures Valid()
      ensures weights == w && alphas == a
      ensures weightGrads == NoGrads(|w|) && alphaGrads == NoGrads(|a|)
    {
      weights, alphas := w, a;
      weightGrads, alphaGrads := NoGrads(|w|), NoGrads(|a|);
    }

    /**
     * `copy.deepcopy(model)`: a new object holding equal values. A deep-copied
     * parameter is rebuilt from its data alone, so the copy has no gradients.
     */
    constructor Copy(m: Model)
      requires m.Valid()
      ensures Valid()
      ensures weights == m.weights && alphas == m.alphas
      ensures weightGrads == NoGrads(|m.weights|) && alphaGrads == NoGrads(|m.alphas|)
    {
      weights, alphas := m.weights, m.alphas;
      weightGrads, alphaGrads := NoGrads(|m.weights|), NoGrads(|m.alphas|);
    }

    /** `for p, v in zip(weights(), dw): p += c * v`, in place. */
    method AddToWeights(c: real, dw: Params)
      requires Valid() && SameShape(dw, weights)
      modifies this`weights
      ensures Valid()
      ensures weights == AddScaled(old(weights), c, dw)
    {
      var i := 0;
      while i < |weights|
        invariant 0 <= i <= |weights| == |old(weights)|
        invariant forall k :: 0 <= k < i ==> weights[k] == Axpy(old(weights)[k], c, dw[k])
        invariant forall k :: i <= k < |weights| ==> weights[k] == old(weights)[k]
      {
        weights := weights[i := Axpy(weights[i], c, dw[i])];
        i := i + 1;
      }
    }
  }

  class Arch {
    const wMomentum: real
    const wWeightDecay: real
    const bilevel: bool
    const model: Model
    const vmodel: Model
    /** `_alpha_optim.step()` over `model.alphas()`. */
    const alphaOptim: StepRule

    ghost predicate Valid()
      reads this, model, vmodel
    {
      model != vmodel && model.Valid() && vmodel.Valid()
      && SameShape(vmodel.weights, model.weights) && SameShape(vmodel.alphas, model.alphas)
      && PreservesShape(alphaOptim)
    }

    constructor (momentum: real, decay: real, bilevel: bool, model: Model, alphaOptim: StepRule)
      requires model.Valid() && PreservesShape(alphaOptim)
      ensures Valid() && fresh(vmodel)
      ensures this.model == model && this.bilevel == bilevel && this.alphaOptim == alphaOptim
      ensures wMomentum == momentum && wWeightDecay == decay
      ensures vmodel.weights == model.weights && vmodel.alphas == model.alphas
    {
      wMomentum, wWeightDecay, this.bilevel := momentum, decay, bilevel;
      this.model, this.alphaOptim := model, alphaOptim;
      vmodel := new Model.Copy(model);
    }

    /**
     * `_update_vmodel`: each virtual weight becomes the fused SGD step of the
     * live weight; then every virtual alpha is set to the live alpha. The live
     * model is not written.
     */
    method UpdateVModel(trainLoss: GradOracle, lr: real, wOptim: MomentumState)
      requires Valid() && Conforms(trainLoss) && BuffersConform(wOptim, model.weights)
      modifies vmodel`weights, vmodel`alphas
      ensures Valid() && unchanged(model)
      ensures vmodel.weights == VirtualWeights(trainLoss, model.weights, model.alphas, wOptim,
                                               wMomentum, lr, wWeightDecay)
      ensures vmodel.alphas == model.alphas
    {
      var g := trainLoss(model.weights, model.alphas).dWeights;
      ghost var m := PerWeightMomentum(wOptim, model.weights, wMomentum);
      var i := 0;
      while i < |model.weights|
        invariant 0 <= i <= |model.weights|
        invariant SameShape(vmodel.weights, model.weights) && vmodel.Valid()
        invariant vmodel.alphas == old(vmodel.alphas)
        invariant forall k :: 0 <= k < i ==>
          vmodel.weights[k] == SgdStep(model.weights[k], m[k], g[k], lr, wWeightDecay)
      {
        var w := model.weights[i];
        var mi := if i in wOptim then Scale(wMomentum, wOptim[i]) else Zeros(|w|);
        vmodel.weights := vmodel.weights[i := SgdStep(w, mi, g[i], lr, wWeightDecay)];
        i := i + 1;
      }
      ghost var wNext := vmodel.weights;
      assert wNext == VirtualWeights(trainLoss, model.weights, model.alphas, wOptim,
                                     wMomentum, lr, wWeightDecay);
      var j := 0;
      while j < |model.alphas|
        invariant 0 <= j <= |model.alphas|
        invariant SameShape(vmodel.alphas, model.alphas) && vmodel.Valid()
        invariant vmodel.weights == wNext
        invariant forall k :: 0 <= k < j ==> vmodel.alphas[k] == model.alphas[k]
      {
        vmodel.alphas := vmodel.alphas[j := model.alphas[j]];
        j := j + 1;
      }
    }

    /**
     * `_hessian_vector_product`: the live weights are moved by `+eps dw`,
     * `-2 eps dw` and `+eps dw`, the training alpha gradient is read at the
     * two perturbed points, and the weights end where they started.
     */
    method HessianVectorProduct(dw: Params, trainLoss: GradOracle, norm: NormOracle,
                                epsilonUnit: real) returns (h: Params)
      requires Valid() && Conforms(trainLoss) && SameShape(dw, model.weights)
      requires norm(Flatten(dw)) > 0.0 && epsilonUnit != 0.0
      modifies model`weights
      ensures Valid() && model.weights == old(model.weights)
      ensures h == HessianEstimate(trainLoss, norm, model.weights, model.alphas, dw, epsilonUnit)
    {
      var epsilon := Epsilon(epsilonUnit, norm(Flatten(dw)));
      ghost var w0 := model.weights;
      PerturbationRestores(w0, dw, epsilon);
      model.AddToWeights(epsilon, dw);
      var dalphaPlus := trainLoss(model.weights, model.alphas).dAlphas;
      model.AddToWeights(-2.0 * epsilon, dw);
      var dalphaMinus := trainLoss(model.weights, model.alphas).dAlphas;
      model.AddToWeights(epsilon, dw);
      h := FiniteDifference(dalphaPlus, dalphaMinus, epsilon);
    }

    /**
     * `_backward_classic`: `loss.backward()` of the validation loss on the
     * live model adds into both gradient slots; the virtual model is not used.
     */
    method BackwardClassic(validLoss: GradOracle)
      requires Valid() && Conforms(validLoss)
      modifies model`alphaGrads, model`weightGrads
      ensures Valid()
      ensures model.alphaGrads == Accumulate(old(model.alphaGrads),
                                             validLoss(model.weights, model.alphas).dAlphas)
      ensures model.weightGrads == Accumulate(old(model.weightGrads),
                                              validLoss(model.weights, model.alphas).dWeights)
    {
      var g := validLoss(model.weights, model.alphas);
      model.alphaGrads := Accumulate(model.alphaGrads, g.dAlphas);
      model.weightGrads := Accumulate(model.weightGrads, g.dWeights);
    }

    /**
     * `_backward_bilevel`: unroll into the virtual model, take the validation
     * gradient there, split it at `len(alphas)`, and overwrite every live
     * alpha gradient with `da - lr * h`.
     */
    method BackwardBilevel(trainLoss: GradOracle, validLoss: GradOracle, norm: NormOracle,
                           lr: real, wOptim: MomentumState)
      requires Valid() && Conforms(trainLoss) && Conforms(validLoss)
      requires BuffersConform(wOptim, model.weights)
      requires norm(Flatten(validLoss(VirtualWeights(trainLoss, model.weights, model.alphas, wOptim,
                                                     wMomentum, lr, wWeightDecay),
                                      model.alphas).dWeights)) > 0.0
      modifies vmodel`weights, vmodel`alphas, model`weights, model`alphaGrads
      ensures Valid()
      ensures model.weights == old(model.weights) && model.weightGrads == old(model.weightGrads)
      ensures vmodel.weights == VirtualWeights(trainLoss, model.weights, model.alphas, wOptim,
                                               wMomentum, lr, wWeightDecay)
      ensures vmodel.alphas == model.alphas
      ensures model.alphaGrads == Assigned(Hypergradient(trainLoss, validLoss, norm, model.weights,
                                                         model.alphas, vmodel.weights, lr, EpsilonUnit))
    {
      ghost var w0, a0 := model.weights, model.alphas;
      UpdateVModel(trainLoss, lr, wOptim);
      var vAlphas, vWeights := vmodel.alphas, vmodel.weights;
      assert vAlphas == a0 && vWeights == VirtualWeights(trainLoss, w0, a0, wOptim,
                                                         wMomentum, lr, wWeightDecay);
      var vg := validLoss(vWeights, vAlphas);
      var vGrads := vg.dAlphas + vg.dWeights;
      var parts := SplitGrads(vGrads, |vAlphas|);
      SplitOfCombined(vg);
      var dalpha, dw := parts.dAlphas, parts.dWeights;
      assert dalpha == vg.dAlphas && dw == vg.dWeights;
      assert SameShape(dw, w0) && norm(Flatten(dw)) > 0.0;
      var hessian := HessianVectorProduct(dw, trainLoss, norm, EpsilonUnit);
      assert model.weights == w0 && model.alphas == a0;
      ghost var target := AddScaled(dalpha, -lr, hessian);
      var i := 0;
      while i < |model.alphas|
        invariant 0 <= i <= |model.alphas|
        invariant model.Valid() && |model.alphaGrads| == |model.alphas|
        invariant vmodel.weights == vWeights && vmodel.alphas == vAlphas
        invariant model.weights == w0 && model.alphas == a0
        invariant forall k :: 0 <= k < i ==> model.alphaGrads[k] == Some(target[k])
      {
        model.alphaGrads := model.alphaGrads[i := Some(Axpy(dalpha[i], -lr, hessian[i]))];
        i := i + 1;
      }
      assert model.alphaGrads == Assigned(target);
    }

    /**
     * `step`: clear the alpha gradients, fill them by the bilevel or the
     * classic rule as the flag says, then take one alpha-optimizer step.
     */
    method Step(trainLoss: GradOracle, validLoss: GradOracle, norm: NormOracle,
                lr: real, wOptim: MomentumState)
      requires Valid() && Conforms(trainLoss) && Conforms(validLoss)
      requires BuffersConform(wOptim, model.weights)
      requires bilevel ==>
        norm(Flatten(validLoss(VirtualWeights(trainLoss, model.weights, model.alphas, wOptim,
                                              wMomentum, lr, wWeightDecay),
                               model.alphas).dWeights)) > 0.0
      modifies vmodel`weights, vmodel`alphas, model`weights, model`alphas
      modifies model`alphaGrads, model`weightGrads
      ensures Valid()
      ensures model.weights == old(model.weights)
      ensures bilevel ==>
        && model.weightGrads == old(model.weightGrads)
        && vmodel.weights == VirtualWeights(trainLoss, old(model.weights), old(model.alphas), wOptim,
                                            wMomentum, lr, wWeightDecay)
        && vmodel.alphas == old(model.alphas)
        && model.alphaGrads == Assigned(Hypergradient(trainLoss, validLoss, norm, old(model.weights),
                                                      old(model.alphas), vmodel.weights, lr, EpsilonUnit))
      ensures !bilevel ==>
        && unchanged(vmodel)
        && model.alphaGrads == Assigned(validLoss(old(model.weights), old(model.alphas)).dAlphas)
        && model.weightGrads == Accumulate(old(model.weightGrads),
                                           validLoss(old(model.weights), old(model.alphas)).dWeights)
      ensures model.alphas == alphaOptim(old(model.alphas), model.alphaGrads)
    {
      ghost var w0, a0, gs0 := model.weights, model.alphas, model.alphaGrads;
      model.alphaGrads := ZeroGrad(model.alphaGrads);
      if bilevel {
        BackwardBilevel(trainLoss, validLoss, norm, lr, wOptim);
      } else {
        BackwardClassic(validLoss);
        BackwardAfterZeroGrad(gs0, validLoss(w0, a0).dAlphas);
      }
      assert model.weights == w0 && model.alphas == a0;
      model.alphas := alphaOptim(model.alphas, model.alphaGrads);
    }
  }
}
