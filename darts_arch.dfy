/**
 * The older architecture step of FastAutoAugment/darts/arch.py. The same
 * design as module NasArch, written over the flattened parameter vector
 * `theta`: the unrolled step is one vector expression, and the unrolled
 * model is rebuilt from `theta` by cutting it at the `numel` offsets of the
 * named parameters and loading the result into a fresh model's state dict.
 */
module DartsArch {
  import opened Common
  import opened Tensors
  import opened Bilevel

  /** The default `epsilon_unit` of `_hessian_vector_product`. */
  const EpsilonUnit: real := 0.01

  /**
   * The older unrolled step on `theta = concat(parameters())`, with the
   * all-or-nothing momentum policy, cut back into one tensor per parameter.
   */
  function UnrolledTheta(trainLoss: GradOracle, w: Params, a: Params, bufs: MomentumState,
                         momentum: real, eta: real, wd: real): (r: Params)
    requires Conforms(trainLoss) && BuffersConform(bufs, w)
    ensures SameShape(r, w)
  {
    var theta := Flatten(w);
    var dtheta := trainLoss(w, a).dWeights;
    SameShapeIffNumels(dtheta, w);
    var next := SgdStep(theta, AllOrNothingMomentum(bufs, w, momentum), Flatten(dtheta), eta, wd);
    FlattenOfSlices(next, Numels(w));
    SameShapeIffNumels(Slices(next, Numels(w)), w);
    Slices(next, Numels(w))
  }

  /**
   * The two versions unroll to the same weights whenever the momentum
   * policies agree: every weight has a buffer, or none has.
   */
  lemma UnrolledThetaAgreesWithVirtualWeights(trainLoss: GradOracle, w: Params, a: Params,
                                              bufs: MomentumState, momentum: real, eta: real, wd: real)
    requires Conforms(trainLoss) && BuffersConform(bufs, w)
    requires AllBuffersPresent(bufs, |w|) || forall i :: 0 <= i < |w| ==> i !in bufs
    ensures UnrolledTheta(trainLoss, w, a, bufs, momentum, eta, wd)
         == VirtualWeights(trainLoss, w, a, bufs, momentum, eta, wd)
  {
    var g := trainLoss(w, a).dWeights;
    var m := PerWeightMomentum(bufs, w, momentum);
    MomentumPoliciesAgree(bufs, w, momentum);
    FlattenUnrolledWeights(w, m, g, eta, wd);
    var u := UnrolledWeights(w, m, g, eta, wd);
    SameShapeIffNumels(u, w);
    SlicesOfFlatten(u);
  }

  /** A state dict key, as `named_parameters()` and `state_dict()` produce them. */
  type Name = string

  /** The model of darts/model_arch.py as the step sees it. */
  class Network {
    /** The names of `named_parameters()`, in order. */
    const names: seq<Name>
    /** `parameters()`, aligned with `names`. */
    var params: Params
    /** State dict entries that are not parameters (such as batch-norm statistics). */
    var buffers: map<Name, Vec>
    /** `arch_parameters()`. */
    var alphas: Params
    var paramGrads: Grads
    var alphaGrads: Grads

    ghost predicate Valid()
      reads this
    {
      && |params| == |names|
      && (forall i, j :: 0 <= i < j < |names| ==> names[i] != names[j])
      && (forall i :: 0 <= i < |names| ==> names[i] !in buffers)
      && GradsConform(paramGrads, params) && GradsConform(alphaGrads, alphas)
    }

    /** `state_dict()`: every parameter under its name, plus the buffers. */
    function StateDict(): (d: map<Name, Vec>)
      reads this
      requires Valid()
      ensures forall i :: 0 <= i < |names| ==> names[i] in d && d[names[i]] == params[i]
      ensures forall k :: k in buffers ==> k in d && d[k] == buffers[k]
      ensures forall k :: k in d ==> k in buffers || k in names
    {
      buffers + map i | 0 <= i < |names| :: names[i] := params[i]
    }

    /** A model with the given named parameters, buffers and alphas and no gradients yet. */
    constructor (names: seq<Name>, params: Params, buffers: map<Name, Vec>, alphas: Params)
      requires |params| == |names|
      requires forall i, j :: 0 <= i < j < |names| ==> names[i] != names[j]
      requires forall i :: 0 <= i < |names| ==> names[i] !in buffers
      ensures Valid()
      ensures this.names == names && this.params == params
      ensures this.buffers == buffers && this.alphas == alphas
      ensures paramGrads == NoGrads(|params|) && alphaGrads == NoGrads(|alphas|)
    {
      this.names, this.params, this.buffers, this.alphas := names, params, buffers, alphas;
      paramGrads, alphaGrads := NoGrads(|params|), NoGrads(|alphas|);
    }

    /**
     * `model.new()` followed by `load_state_dict(dict)`: the parameter and
     * buffer entries come from `dict`, the alphas are those of `template`,
     * and no gradient has been written yet.
     */
    constructor Loaded(template: Network, dict: map<Name, Vec>)
      requires template.Valid()
      requires forall i :: 0 <= i < |template.names| ==> template.names[i] in dict
      requires forall k :: k in template.buffers ==> k in dict
      ensures Valid()
      ensures names == template.names && alphas == template.alphas
      ensures |params| == |names| && forall i :: 0 <= i < |names| ==> params[i] == dict[names[i]]
      ensures buffers == map k | k in template.buffers :: dict[k]
      ensures paramGrads == NoGrads(|names|) && alphaGrads == NoGrads(|template.alphas|)
    {
      names := template.names;
      params := seq(|template.names|, i requires 0 <= i < |template.names| => dict[template.names[i]]);
      buffers := map k | k in template.buffers :: dict[k];
      alphas := template.alphas;
      paramGrads := NoGrads(|template.names|);
      alphaGrads := NoGrads(|template.alphas|);
    }

    /** `for da, h in zip(dalpha, hessian): da.data.sub_(eta, h.data)` on the alpha gradients. */
    method SubFromAlphaGrads(eta: real, h: Params)
      requires Valid() && SameShape(h, alphas)
      requires forall k :: 0 <= k < |alphaGrads| ==> alphaGrads[k].Some?
      modifies this`alphaGrads
      ensures Valid() && |alphaGrads| == |old(alphaGrads)|
      ensures forall k :: 0 <= k < |alphaGrads| ==>
        alphaGrads[k] == Some(Axpy(old(alphaGrads)[k].value, -eta, h[k]))
    {
      var i := 0;
      while i < |alphaGrads|
        invariant 0 <= i <= |alphaGrads| == |old(alphaGrads)|
        invariant GradsConform(alphaGrads, alphas)
        invariant forall k :: 0 <= k < i ==> alphaGrads[k] == Some(Axpy(old(alphaGrads)[k].value, -eta, h[k]))
        invariant forall k :: i <= k < |alphaGrads| ==> alphaGrads[k] == old(alphaGrads)[k]
      {
        var da := alphaGrads[i].value;
        alphaGrads := alphaGrads[i := Some(Axpy(da, -eta, h[i]))];
        i := i + 1;
      }
    }

    /**
     * `a.grad = d` for an alpha without a gradient, `a.grad.data.copy_(d)`
     * for one with: either way the slot ends holding `d`.
     */
    method SetAlphaGrads(ds: Params)
      requires Valid() && SameShape(ds, alphas)
      modifies this`alphaGrads
      ensures Valid() && alphaGrads == Assigned(ds)
    {
      var j := 0;
      while j < |alphas|
        invariant 0 <= j <= |alphas|
        invariant GradsConform(alphaGrads, alphas)
        invariant forall k :: 0 <= k < j ==> alphaGrads[k] == Some(ds[k])
      {
        alphaGrads := alphaGrads[j := Some(ds[j])];
        j := j + 1;
      }
    }

    /** `for p, v in zip(parameters(), dw): p.data.add_(c, v)`, in place. */
    method AddToParams(c: real, dw: Params)
      requires Valid() && SameShape(dw, params)
      modifies this`params
      ensures Valid()
      ensures params == AddScaled(old(params), c, dw)
    {
      var i := 0;
      while i < |params|
        invariant 0 <= i <= |params| == |old(params)|
        invariant forall k :: 0 <= k < i ==> params[k] == Axpy(old(params)[k], c, dw[k])
        invariant forall k :: i <= k < |params| ==> params[k] == old(params)[k]
      {
        params := params[i := Axpy(params[i], c, dw[i])];
        i := i + 1;
      }
    }
  }

  /**
   * `model_dict = model.state_dict(); model_dict.update(params);
   * model_new.load_state_dict(model_dict)` with `model_new = model.new()`:
   * every named parameter takes its entry from `params`, and every other
   * state entry keeps the live model's value.
   */
  method LoadUpdated(model: Network, params: map<Name, Vec>) returns (modelNew: Network)
    requires model.Valid()
    requires forall j :: 0 <= j < |model.names| ==> model.names[j] in params
    requires forall k :: k in params ==> k in model.names
    ensures fresh(modelNew) && modelNew.Valid()
    ensures modelNew.names == model.names && modelNew.alphas == model.alphas
    ensures |modelNew.params| == |model.names|
    ensures forall j :: 0 <= j < |model.names| ==> modelNew.params[j] == params[model.names[j]]
    ensures modelNew.buffers == model.buffers
    ensures modelNew.paramGrads == NoGrads(|model.names|) && modelNew.alphaGrads == NoGrads(|model.alphas|)
  {
    var modelDict := model.StateDict();
    modelDict := modelDict + params;
    modelNew := new Network.Loaded(model, modelDict);
  }

  /** Which tensors an optimizer was built over. */
  datatype ParamGroup = ModelParameters | ArchParameters

  /** Plain SGD as a step rule: a tensor with a gradient moves by `-lr` times it. */
  function SgdUpdate(lr: real, p: Params, g: Grads): (r: Params)
    ensures SameShape(r, p)
    ensures forall i :: 0 <= i < |p| && (i >= |g| || g[i].None? || |g[i].value| != |p[i]|) ==> r[i] == p[i]
  {
    seq(|p|, i requires 0 <= i < |p| =>
      if i < |g| && g[i].Some? && |g[i].value| == |p[i]| then Axpy(p[i], -lr, g[i].value) else p[i])
  }

  class Arch {
    const momentum: real
    const wd: real
    const bilevel: bool
    const model: Network
    /** The tensors `arch_optimizer` was built over. */
    const archGroup: ParamGroup
    /** `arch_optimizer.step()` over `archGroup`. */
    const archOptim: StepRule

    ghost predicate Valid()
      reads this, model
    {
      model.Valid() && PreservesShape(archOptim)
    }

    /** `__init__` as written: the arch optimizer is built over `model.parameters()`. */
    constructor AsWritten(model: Network, momentum: real, wd: real, bilevel: bool, archOptim: StepRule)
      requires model.Valid() && PreservesShape(archOptim)
      ensures Valid() && archGroup == ModelParameters
      ensures this.model == model && this.momentum == momentum && this.wd == wd
      ensures this.bilevel == bilevel && this.archOptim == archOptim
    {
      this.model, this.momentum, this.wd, this.bilevel := model, momentum, wd, bilevel;
      this.archOptim, archGroup := archOptim, ModelParameters;
    }

    /** `__init__` with the arch optimizer over `model.arch_parameters()`. */
    constructor (model: Network, momentum: real, wd: real, bilevel: bool, archOptim: StepRule)
      requires model.Valid() && PreservesShape(archOptim)
      ensures Valid() && archGroup == ArchParameters
      ensures this.model == model && this.momentum == momentum && this.wd == wd
      ensures this.bilevel == bilevel && this.archOptim == archOptim
    {
      this.model, this.momentum, this.wd, this.bilevel := model, momentum, wd, bilevel;
      this.archOptim, archGroup := archOptim, ArchParameters;
    }

    /**
     * `_construct_model_from_theta`: cut `theta` at the `numel` offsets of
     * the named parameters, update a copy of the live state dict with the
     * pieces and load it into a new model. `None` is the error raised when
     * `theta` is too short for a parameter (the `view` fails) or longer than
     * all of them (the `assert`).
     */
    method ConstructModelFromTheta(theta: Vec) returns (r: Option<Network>)
      requires Valid()
      ensures r.Some? <==> |theta| == Sum(Numels(model.params))
      ensures r.Some? ==>
        && fresh(r.value) && r.value.Valid()
        && r.value.names == model.names
        && r.value.params == Slices(theta, Numels(model.params))
        && r.value.buffers == model.buffers
        && r.value.alphas == model.alphas
        && r.value.paramGrads == NoGrads(|model.names|)
        && r.value.alphaGrads == NoGrads(|model.alphas|)
    {
      var ns := Numels(model.params);
      var params: map<Name, Vec> := map[];
      var offset := 0;
      var i := 0;
      while i < |model.names|
        invariant 0 <= i <= |model.names|
        invariant offset == Offset(ns, i) <= |theta|
        invariant forall k :: k in params ==> k in model.names[..i]
        invariant forall j :: 0 <= j < i ==>
          model.names[j] in params && Offset(ns, j) + ns[j] <= |theta|
          && params[model.names[j]] == theta[Offset(ns, j)..Offset(ns, j) + ns[j]]
      {
        var vLength := |model.params[i]|;
        OffsetStep(ns, i);
        if offset + vLength > |theta| {
          return None;
        }
        ghost var before := params;
        params := params[model.names[i] := theta[offset..offset + vLength]];
        forall k | k in params
          ensures k in model.names[..i + 1]
        {
          if k != model.names[i] {
            assert k in before && k in model.names[..i];
            assert model.names[..i] <= model.names[..i + 1];
          }
        }
        forall j | 0 <= j < i + 1
          ensures model.names[j] in params
          ensures params[model.names[j]] == theta[Offset(ns, j)..Offset(ns, j) + ns[j]]
        {
          if j < i {
            assert model.names[j] != model.names[i];
            assert params[model.names[j]] == before[model.names[j]];
          }
        }
        offset := offset + vLength;
        i := i + 1;
      }
      assert ns[..|ns|] == ns;
      if offset != |theta| {
        return None;
      }
      forall j | 0 <= j < |ns|
        ensures params[model.names[j]] == Slices(theta, ns)[j]
      {
        SlicesAt(theta, ns, j);
      }
      var modelNew := LoadUpdated(model, params);
      assert modelNew.params == Slices(theta, ns);
      r := Some(modelNew);
    }

    /**
     * `_comp_unrolled_model`: one SGD step with momentum and weight decay on
     * the flattened parameters, rebuilt into a new model.
     */
    method CompUnrolledModel(trainLoss: GradOracle, eta: real, bufs: MomentumState)
      returns (unrolled: Network)
      requires Valid() && Conforms(trainLoss) && BuffersConform(bufs, model.params)
      ensures fresh(unrolled) && unrolled.Valid()
      ensures unrolled.names == model.names && unrolled.buffers == model.buffers
      ensures unrolled.alphas == model.alphas
      ensures unrolled.params == UnrolledTheta(trainLoss, model.params, model.alphas, bufs,
                                               momentum, eta, wd)
      ensures unrolled.paramGrads == NoGrads(|model.names|)
      ensures unrolled.alphaGrads == NoGrads(|model.alphas|)
    {
      var theta := Flatten(model.params);
      var moment := AllOrNothingMomentum(bufs, model.params, momentum);
      var g := trainLoss(model.params, model.alphas).dWeights;
      SameShapeIffNumels(g, model.params);
      var dtheta := Flatten(g);
      theta := SgdStep(theta, moment, dtheta, eta, wd);
      var built := ConstructModelFromTheta(theta);
      assert built.Some?;
      unrolled := built.value;
    }

    /**
     * `_hessian_vector_product`: the live parameters are moved by
     * `+eps v`, `-2 eps v` and `+eps v`; they end where they started.
     */
    method HessianVectorProduct(theta2Grad: Params, trainLoss: GradOracle, norm: NormOracle,
                                epsilonUnit: real) returns (h: Params)
      requires Valid() && Conforms(trainLoss) && SameShape(theta2Grad, model.params)
      requires norm(Flatten(theta2Grad)) > 0.0 && epsilonUnit != 0.0
      modifies model`params
      ensures Valid() && model.params == old(model.params)
      ensures h == HessianEstimate(trainLoss, norm, model.params, model.alphas, theta2Grad, epsilonUnit)
    {
      var epsilon := Epsilon(epsilonUnit, norm(Flatten(theta2Grad)));
      ghost var p0 := model.params;
      PerturbationRestores(p0, theta2Grad, epsilon);
      model.AddToParams(epsilon, theta2Grad);
      var gradsP := trainLoss(model.params, model.alphas).dAlphas;
      model.AddToParams(-2.0 * epsilon, theta2Grad);
      var gradsN := trainLoss(model.params, model.alphas).dAlphas;
      model.AddToParams(epsilon, theta2Grad);
      h := FiniteDifference(gradsP, gradsN, epsilon);
    }

    /** `_backward_step`: `loss.backward()` on the live model adds into both gradient slots. */
    method BackwardStep(validLoss: GradOracle)
      requires Valid() && Conforms(validLoss)
      modifies model`paramGrads, model`alphaGrads
      ensures Valid()
      ensures model.alphaGrads == Accumulate(old(model.alphaGrads),
                                             validLoss(model.params, model.alphas).dAlphas)
      ensures model.paramGrads == Accumulate(old(model.paramGrads),
                                             validLoss(model.params, model.alphas).dWeights)
    {
      var g := validLoss(model.params, model.alphas);
      model.alphaGrads := Accumulate(model.alphaGrads, g.dAlphas);
      model.paramGrads := Accumulate(model.paramGrads, g.dWeights);
    }

    /**
     * `_backward_step_bilevel`: backpropagate the validation loss through a
     * fresh unrolled model, subtract `eta * h` from its alpha gradients in
     * place, and copy them into the live alpha gradients, creating a missing
     * slot and overwriting an existing one.
     */
    method BackwardStepBilevel(trainLoss: GradOracle, validLoss: GradOracle, norm: NormOracle,
                               eta: real, bufs: MomentumState)
      requires Valid() && Conforms(trainLoss) && Conforms(validLoss)
      requires BuffersConform(bufs, model.params)
      requires norm(Flatten(validLoss(UnrolledTheta(trainLoss, model.params, model.alphas, bufs,
                                                    momentum, eta, wd),
                                      model.alphas).dWeights)) > 0.0
      modifies model`params, model`alphaGrads
      ensures Valid()
      ensures model.params == old(model.params) && model.paramGrads == old(model.paramGrads)
      ensures model.alphaGrads == Assigned(Hypergradient(trainLoss, validLoss, norm, model.params, model.alphas,
                                                         UnrolledTheta(trainLoss, model.params, model.alphas,
                                                                       bufs, momentum, eta, wd),
                                                         eta, EpsilonUnit))
    {
      ghost var p0, a0 := model.params, model.alphas;
      var unrolled := CompUnrolledModel(trainLoss, eta, bufs);
      ghost var wNext := unrolled.params;
      var vg := validLoss(unrolled.params, unrolled.alphas);
      BackwardAfterZeroGrad(unrolled.alphaGrads, vg.dAlphas);
      BackwardAfterZeroGrad(unrolled.paramGrads, vg.dWeights);
      unrolled.alphaGrads := Accumulate(unrolled.alphaGrads, vg.dAlphas);
      unrolled.paramGrads := Accumulate(unrolled.paramGrads, vg.dWeights);
      assert unrolled.alphaGrads == Assigned(vg.dAlphas);
      assert unrolled.paramGrads == Assigned(vg.dWeights);
      var pg := unrolled.paramGrads;
      var theta2Grad := seq(|pg|, i requires 0 <= i < |pg| => pg[i].value);
      assert theta2Grad == vg.dWeights;
      var hessian := HessianVectorProduct(theta2Grad, trainLoss, norm, EpsilonUnit);
      assert model.params == p0 && model.alphas == a0;
      ghost var target := AddScaled(vg.dAlphas, -eta, hessian);
      assert target == Hypergradient(trainLoss, validLoss, norm, p0, a0, wNext, eta, EpsilonUnit);
      unrolled.SubFromAlphaGrads(eta, hessian);
      assert unrolled.alphaGrads == Assigned(target);
      var ag := unrolled.alphaGrads;
      var dalpha := seq(|ag|, k requires 0 <= k < |ag| => ag[k].value);
      assert dalpha == target;
      model.SetAlphaGrads(dalpha);
      assert model.alphaGrads == Assigned(target);
    }

    /**
     * `step`: clear the gradients of the arch optimizer's group, fill the
     * alpha gradients by the bilevel or the classic rule, then take one step
     * of the arch optimizer on its group.
     */
    method Step(trainLoss: GradOracle, validLoss: GradOracle, norm: NormOracle,
                eta: real, bufs: MomentumState)
      requires Valid() && Conforms(trainLoss) && Conforms(validLoss)
      requires BuffersConform(bufs, model.params)
      requires bilevel ==>
        norm(Flatten(validLoss(UnrolledTheta(trainLoss, model.params, model.alphas, bufs,
                                             momentum, eta, wd),
                               model.alphas).dWeights)) > 0.0
      modifies model`params, model`alphas, model`paramGrads, model`alphaGrads
      ensures Valid()
      ensures archGroup == ArchParameters ==>
        && model.params == old(model.params)
        && model.alphas == archOptim(old(model.alphas), model.alphaGrads)
      ensures archGroup == ModelParameters ==>
        && model.alphas == old(model.alphas)
        && model.params == archOptim(old(model.params), model.paramGrads)
      ensures bilevel ==>
        model.alphaGrads == Assigned(Hypergradient(trainLoss, validLoss, norm, old(model.params),
                                                   old(model.alphas),
                                                   UnrolledTheta(trainLoss, old(model.params), old(model.alphas),
                                                                 bufs, momentum, eta, wd),
                                                   eta, EpsilonUnit))
      ensures !bilevel && archGroup == ArchParameters ==>
        model.alphaGrads == Assigned(validLoss(old(model.params), old(model.alphas)).dAlphas)
      ensures !bilevel && archGroup == ModelParameters ==>
        model.alphaGrads == Accumulate(old(model.alphaGrads),
                                       validLoss(old(model.params), old(model.alphas)).dAlphas)
      ensures bilevel && archGroup == ModelParameters ==>
        model.paramGrads == ZeroGrad(old(model.paramGrads))
      ensures !bilevel && archGroup == ModelParameters ==>
        model.paramGrads == Assigned(validLoss(old(model.params), old(model.alphas)).dWeights)
      ensures bilevel && archGroup == ArchParameters ==>
        model.paramGrads == old(model.paramGrads)
      ensures !bilevel && archGroup == ArchParameters ==>
        model.paramGrads == Accumulate(old(model.paramGrads),
                                       validLoss(old(model.params), old(model.alphas)).dWeights)
    {
      ghost var p0, a0, ag0, pg0 := model.params, model.alphas, model.alphaGrads, model.paramGrads;
      if archGroup == ModelParameters {
        model.paramGrads := ZeroGrad(model.paramGrads);
      } else {
        model.alphaGrads := ZeroGrad(model.alphaGrads);
      }
      if bilevel {
        BackwardStepBilevel(trainLoss, validLoss, norm, eta, bufs);
      } else {
        BackwardStep(validLoss);
        if archGroup == ArchParameters {
          BackwardAfterZeroGrad(ag0, validLoss(p0, a0).dAlphas);
        } else {
          BackwardAfterZeroGrad(pg0, validLoss(p0, a0).dWeights);
        }
      }
      assert model.params == p0 && model.alphas == a0;
      if archGroup == ModelParameters {
        model.params := archOptim(model.params, model.paramGrads);
      } else {
        model.alphas := archOptim(model.alphas, model.alphaGrads);
      }
    }
  }

  /**
   * The arch optimizer as written never moves an alpha: with plain SGD, a
   * single alpha `1.0` whose gradient is `1.0` is still `1.0` after the step.
   */
  method AsWrittenStepLeavesAlphas() returns (alphas: Params)
    ensures alphas == [[1.0]]
  {
    var rule: StepRule := (p, g) => SgdUpdate(0.1, p, g);
    var halfSquare: GradOracle := (w, a) => LossGrad(a, ZerosLike(w));
    var net := new Network([], [], map[], [[1.0]]);
    var arch := new Arch.AsWritten(net, 0.0, 0.0, false, rule);
    arch.Step(halfSquare, halfSquare, v => 1.0, 0.1, map[]);
    alphas := net.alphas;
  }

  /** The same step with the optimizer over the alphas moves the alpha to `0.9`. */
  method CorrectedStepMovesAlphas() returns (alphas: Params)
    ensures alphas == [[0.9]]
  {
    var rule: StepRule := (p, g) => SgdUpdate(0.1, p, g);
    var halfSquare: GradOracle := (w, a) => LossGrad(a, ZerosLike(w));
    var net := new Network([], [], map[], [[1.0]]);
    var arch := new Arch(net, 0.0, 0.0, false, rule);
    arch.Step(halfSquare, halfSquare, v => 1.0, 0.1, map[]);
    assert net.alphaGrads == Assigned([[1.0]]) == [Some([1.0])];
    alphas := net.alphas;
    assert alphas == SgdUpdate(0.1, [[1.0]], [Some([1.0])]);
    assert alphas[0] == Axpy([1.0], -0.1, [1.0]);
    assert |alphas[0]| == 1 && alphas[0][0] == 0.9;
    assert alphas[0] == [0.9];
  }
}
