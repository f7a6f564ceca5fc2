# FastAutoAugment search core, modelled in Dafny

This project models the sequential core of the DARTS-style architecture
search in FastAutoAugment:

- **The bilevel architecture step, in both versions** (`nas/arch.py` and the
  older `darts/arch.py`).
  - The fused one-step SGD "unrolled" update of the weights, with momentum
    and weight decay.
  - The virtual model and its alpha sync.
  - The in-place perturb / evaluate / restore sequence on the live weights.
  - The finite-difference Hessian-vector estimate with `ε = 0.01 / ‖dw‖`.
  - The final alpha gradient `dα − lr·h`.
  - `step`: zero the gradients, fill them, take one optimizer step.
  - The flatten / cut-at-`numel`-offsets round trip that rebuilds a model
    from `theta`.
- **The searchable cell** (`nas/cell.py`).
  - Building its DAG, optionally borrowing alphas from another cell.
  - The node-by-node, edge-by-edge order of `alphas()` and `weights()`.
  - The shape of the forward pass's state list.
  - `finalize`, which keeps every required edge and the `max_final_edges`
    best-ranked optional edges of each node.
- **The fixed-genotype network** (`darts/model_test.py`).
  - Compiling a cell from a genotype, including the stride rule.
  - The cell's input selection by `indices` and its output selection by
    `concat`, with Python's negative indexing.
  - The channel and reduction schedule of `NetworkCIFAR` and
    `NetworkImageNet`.
- **Training metrics** (`common/metrics.py`).
  - The counter and best-so-far state machine of `Metrics`.
  - The `.yaml` suffix rule of `save`.
  - `Accumulator`, a default-zero dictionary of running totals.

Tensors are modelled as follows:

- A tensor is a flat `seq<real>` (`Tensors.Vec`). A parameter list is a
  `seq<Vec>`.
- Losses and autograd are gradient oracles: a function from
  (weights, alphas) to the gradients with respect to each. The predicate
  `Bilevel.Conforms` says each gradient has the shape of its parameter.
- The L2 norm is an oracle too.
- Objects whose fields the source updates in place are classes:
  - the two `Arch` classes;
  - the model and the virtual model;
  - `Metrics` and `Accumulator`.
- Descriptions, genotypes and schedules are datatypes.

Files (one module each):

- `common.dfy`: `Option`.
- `tensors.dfy`: parameter-list arithmetic, and the flatten/slice round trip.
- `bilevel.dfy`: the design both `Arch` versions share. This covers the momentum policies, the
  unrolled update, the finite difference, the hypergradient and gradient slots.
- `nas_arch.dfy` and `darts_arch.dfy`: the two `Arch` classes.
- `rank_sort.dfy`: the stable descending sort `finalize` uses.
- `nas_cell.dfy`: the searchable cell.
- `model_test.dfy`: the fixed-genotype cell and networks.
- `metrics.dfy`: `Metrics` and `Accumulator`.

## Model

| member | source | states |
|---|---|---|
| Tensors.ZerosLike | FastAutoAugment/darts/arch.py:69 | `zeros_like` has the shape of its argument |
| Tensors.AddScaled | FastAutoAugment/nas/arch.py:157-159 | adding `c·dw` to every weight keeps every tensor's shape |
| Tensors.AddScaledTwice | FastAutoAugment/nas/arch.py:157-180 | two in-place moves along the same direction compose into one move by the summed step |
| Tensors.PerturbationRestores | FastAutoAugment/nas/arch.py:157-180 | `+ε·dw`, then `−2ε·dw` leaves the weights at `w − ε·dw`, and the final `+ε·dw` restores them exactly (over reals) |
| Tensors.SameShapeIffNumels | FastAutoAugment/darts/arch.py:184-185 | two parameter lists have the same shapes iff their `numel` lists agree |
| Tensors.Flatten | FastAutoAugment/darts/arch.py:12-19 | `concat` has the summed `numel` of all parameters as its length |
| Tensors.Slices | FastAutoAugment/darts/arch.py:183-188 | cutting `theta` at the `numel` offsets yields one tensor per parameter |
| Tensors.SlicesAt | FastAutoAugment/darts/arch.py:184-188 | parameter `i` receives exactly `theta[offset_i : offset_i + numel_i]`, and that slice lies inside `theta` |
| Tensors.SlicesOfFlatten | FastAutoAugment/darts/arch.py:183-188 | cutting the `concat` of the parameters gives back every parameter's values |
| Tensors.FlattenOfSlices | FastAutoAugment/darts/arch.py:183-192 | when the final offset equals `len(theta)`, concatenating the slices gives back `theta`, and their `numel`s are the ones cut at |
| Bilevel.PerWeightMomentum | FastAutoAugment/nas/arch.py:71 | the momentum term of each weight is its buffer times the momentum, or zero when that weight has no buffer; the result has the weights' shape |
| Bilevel.AllOrNothingMomentum | FastAutoAugment/darts/arch.py:64-69 | the flat momentum is as long as `theta`: buffers times momentum when every buffer exists, zeros otherwise |
| Bilevel.MomentumPoliciesAgree | FastAutoAugment/darts/arch.py:64-69 | the two momentum policies give the same flat vector when all buffers or none exist |
| Bilevel.MomentumPoliciesDiffer | FastAutoAugment/darts/arch.py:64-69 | whenever some buffer is missing, the all-or-nothing policy gives all zeros while the per-weight policy still uses every buffer that exists |
| Bilevel.MomentumPoliciesDifferOnExample | FastAutoAugment/nas/arch.py:71 | on one buffer out of two, the per-weight policy gives `[0.5, 0.0]` and the all-or-nothing policy `[0.0, 0.0]` |
| Bilevel.UnrolledWeights | FastAutoAugment/nas/arch.py:68-72 | `w − lr·(m + g + wd·w)` for every weight keeps the weights' shape |
| Bilevel.VirtualWeights | FastAutoAugment/nas/arch.py:56-72 | the virtual weights from the training-loss gradient and the stored momentum have the weights' shape |
| Bilevel.FlattenUnrolledWeights | FastAutoAugment/darts/arch.py:72-75 | the flat update on `concat`ed vectors equals the per-tensor update, flattened |
| Bilevel.FlattenScaleAll | FastAutoAugment/darts/arch.py:66-67 | scaling after `concat` equals concatenating the scaled buffers |
| Bilevel.FlattenZerosLike | FastAutoAugment/darts/arch.py:69 | `zeros_like(theta)` is the flattened zero of the parameters |
| Bilevel.Epsilon | FastAutoAugment/nas/arch.py:153-154 | `ε = epsilon_unit / ‖dw‖` is positive for a positive unit and non-zero for a non-zero unit |
| Bilevel.PerturbationHasUnitLength | FastAutoAugment/nas/arch.py:149-154 | for a homogeneous norm, the perturbation `ε·dw` has length exactly `epsilon_unit` |
| Bilevel.FiniteDifference | FastAutoAugment/nas/arch.py:183 | `(g⁺ − g⁻)/(2ε)` has the alphas' shape |
| Bilevel.FiniteDifferenceOfEqual | FastAutoAugment/nas/arch.py:183 | equal gradients on both sides give a zero estimate |
| Bilevel.HessianEstimate | FastAutoAugment/nas/arch.py:138-184 | the Hessian-vector estimate has the alphas' shape |
| Bilevel.HessianVanishesWithoutMixedCurvature | FastAutoAugment/nas/arch.py:138-147 | when the alpha gradient does not depend on the weights, the estimate is zero |
| Bilevel.Hypergradient | FastAutoAugment/nas/arch.py:132-134 | `dα − lr·h` has the alphas' shape |
| Bilevel.SplitGrads | FastAutoAugment/nas/arch.py:118-125 | the first `len(alphas)` gradients are `dalpha`, and `dalpha + dw` is the whole tuple |
| Bilevel.SplitOfCombined | FastAutoAugment/nas/arch.py:118-125 | splitting the gradients of `alphas + weights` at `len(alphas)` gives back each part |
| Bilevel.ZeroGrad | FastAutoAugment/nas/arch.py:79 | `zero_grad` keeps every existing gradient slot and creates none |
| Bilevel.NoGrads | FastAutoAugment/darts/arch.py:160-161 | a fresh model has no gradient slot filled |
| Bilevel.Accumulate | FastAutoAugment/nas/arch.py:104 | `backward` leaves every gradient slot of the parameter's shape |
| Bilevel.BackwardAfterZeroGrad | FastAutoAugment/nas/arch.py:79-104 | `backward` right after `zero_grad` leaves exactly the new gradients in the slots |
| NasArch.Model.constructor | FastAutoAugment/nas/arch.py:26-27 | a model holds its weights and alphas, with no gradients |
| NasArch.Model.Copy | FastAutoAugment/nas/arch.py:47 | `deepcopy` has the same weights and alphas as its source, and no gradients (a deep-copied parameter is rebuilt from its data) |
| NasArch.Model.AddToWeights | FastAutoAugment/nas/arch.py:157-159 | `p += c·v` for every weight changes the weights only |
| NasArch.Arch.constructor | FastAutoAugment/nas/arch.py:26-50 | the config values are stored, and the virtual model is a fresh copy of the model |
| NasArch.Arch.UpdateVModel | FastAutoAugment/nas/arch.py:52-76 | the virtual weights become `w − lr·(μ·m + g + wd·w)` and the virtual alphas the live ones; the live model is unchanged |
| NasArch.Arch.HessianVectorProduct | FastAutoAugment/nas/arch.py:138-184 | the live weights are perturbed and restored, ending equal to their entry values, and the result is the finite-difference estimate at `ε = unit/‖dw‖` |
| NasArch.Arch.BackwardClassic | FastAutoAugment/nas/arch.py:92-104 | the validation-loss gradients at the live weights are accumulated into the live model's slots |
| NasArch.Arch.BackwardBilevel | FastAutoAugment/nas/arch.py:106-134 | the virtual model holds the unrolled weights, every alpha gradient is overwritten with `dα − lr·h`, and the live weights and weight gradients are unchanged |
| NasArch.Arch.Step | FastAutoAugment/nas/arch.py:78-90 | the alpha gradients are cleared first; the flag picks bilevel or classic; the alphas end as one alpha-optimizer step on those gradients; the weights are unchanged; after a bilevel step the virtual model holds the unrolled weights and the live alphas |
| DartsArch.UnrolledTheta | FastAutoAugment/darts/arch.py:61-75 | `theta − eta·(moment + dtheta + wd·theta)`, cut back per parameter, keeps the parameters' shape |
| DartsArch.UnrolledThetaAgreesWithVirtualWeights | FastAutoAugment/darts/arch.py:61-75 | the flat unrolled update equals the per-weight one of `nas/arch.py` when all or no momentum buffers exist |
| DartsArch.Network.StateDict | FastAutoAugment/darts/arch.py:179 | the state dict maps each parameter name to its values and each buffer to its own, and holds nothing else |
| DartsArch.Network.constructor | FastAutoAugment/darts/arch.py:178 | a new network holds the given names, parameters, buffers and alphas, with no gradients |
| DartsArch.Network.Loaded | FastAutoAugment/darts/arch.py:193-194 | `load_state_dict` takes every parameter and buffer from the dict and keeps the template's alphas |
| DartsArch.LoadUpdated | FastAutoAugment/darts/arch.py:178-195 | the new model takes every parameter from the updated entries; its buffers come from the live state dict and its alphas from `new()`, both equal to the live model's |
| DartsArch.Network.SubFromAlphaGrads | FastAutoAugment/darts/arch.py:154-155 | every alpha gradient `da` becomes `da − eta·h` |
| DartsArch.Network.SetAlphaGrads | FastAutoAugment/darts/arch.py:159-163 | every alpha gradient slot, absent or present, ends holding the given gradient |
| DartsArch.Network.AddToParams | FastAutoAugment/darts/arch.py:213-214 | `p.add_(c, v)` for every parameter changes the parameters only |
| DartsArch.Arch.AsWritten | FastAutoAugment/darts/arch.py:27-34 | the arch optimizer is built over `model.parameters()` |
| DartsArch.Arch.constructor | FastAutoAugment/darts/arch.py:27-34 | the arch optimizer is built over the architecture parameters |
| DartsArch.Arch.ConstructModelFromTheta | FastAutoAugment/darts/arch.py:167-195 | succeeds iff the final offset equals `len(theta)`; the new model's parameter `i` is slice `i` of `theta`, and every other entry comes from the live model |
| DartsArch.Arch.CompUnrolledModel | FastAutoAugment/darts/arch.py:36-79 | the unrolled model is fresh, holds the unrolled `theta` and the live alphas and buffers, and has no gradients |
| DartsArch.Arch.HessianVectorProduct | FastAutoAugment/darts/arch.py:197-236 | the live parameters end equal to their entry values, and the result is the finite-difference estimate at `ε = unit/‖concat(theta2_grad)‖` |
| DartsArch.Arch.BackwardStep | FastAutoAugment/darts/arch.py:107-119 | the validation-loss gradients at the live parameters are accumulated into the live model's slots |
| DartsArch.Arch.BackwardStepBilevel | FastAutoAugment/darts/arch.py:121-163 | every live alpha gradient is set to `dα − eta·h` of the unrolled model; the live parameters and their gradients are unchanged |
| DartsArch.Arch.Step | FastAutoAugment/darts/arch.py:81-105 | clears the arch optimizer's gradients, fills the alpha gradients as the flag says, then takes one step on exactly the tensors the optimizer was built over. The parameter gradients end cleared (bilevel) or holding exactly the validation gradient (classic) when the optimizer is over the parameters; otherwise they are untouched (bilevel) or accumulate the validation gradient (classic) |
| DartsArch.AsWrittenStepLeavesAlphas | FastAutoAugment/darts/arch.py:34 | with the optimizer as written, a step with a non-zero alpha gradient leaves the alpha at `1.0` |
| DartsArch.CorrectedStepMovesAlphas | FastAutoAugment/darts/arch.py:34 | with the optimizer over the alphas, the same step moves the alpha to `0.9` |
| RankSort.Insert | FastAutoAugment/nas/cell.py:83 | inserting into a descending list keeps it descending and adds exactly the one item |
| RankSort.SortDesc | FastAutoAugment/nas/cell.py:83 | `sort(key=rank, reverse=True)` yields a descending permutation of its input |
| RankSort.SortStable | FastAutoAugment/nas/cell.py:83 | the sort is stable: the items of each rank keep their original order |
| RankSort.TopRanked | FastAutoAugment/nas/cell.py:82-84 | sorting and taking `[:m]` yields `m` items |
| RankSort.TopRankedSorted | FastAutoAugment/nas/cell.py:82-84 | the kept items are descending by rank and drawn from the input |
| RankSort.TopRankedDominates | FastAutoAugment/nas/cell.py:82-84 | no dropped item outranks a kept one |
| RankSort.TopRankedStable | FastAutoAugment/nas/cell.py:82-84 | among equally ranked items, the earliest ones are kept |
| NasCell.NewEdge | FastAutoAugment/nas/cell.py:39-41 | an edge keeps its description, gets fresh weights, and borrows the given edge's alphas or creates its own |
| NasCell.CreateNode | FastAutoAugment/nas/cell.py:35-41 | succeeds iff the borrowed DAG has an edge at every needed position; then one edge per edge description, edge `j` built from description `j` with the borrowed edge `(i, j)` |
| NasCell.CreateDag | FastAutoAugment/nas/cell.py:29-42 | succeeds iff every node has an edge and borrowing can reach every `(i, j)`; then the DAG is built edge by edge from the descriptions |
| NasCell.NewCell | FastAutoAugment/nas/cell.py:15-27 | `shared_alphas` holds iff a cell to borrow from was given, and the DAG is built from the description's nodes |
| NasCell.NodeItemsAppend | FastAutoAugment/nas/cell.py:46-48 | a node's items are those of its edges in edge order |
| NasCell.GatherAppend | FastAutoAugment/nas/cell.py:44-48 | the cell's items are those of its nodes in node order |
| NasCell.GatherOneNode | FastAutoAugment/nas/cell.py:44-48 | a one-node DAG yields its node's items |
| NasCell.NodeItemsOneEdge | FastAutoAugment/nas/cell.py:46-48 | a one-edge node yields that edge's items |
| NasCell.NodeItemsInPlace | FastAutoAugment/nas/cell.py:46-48 | an edge's items appear between those of the edges before and after it |
| NasCell.SharedCellHasSameAlphas | FastAutoAugment/nas/cell.py:39-48 | a cell built borrowing all alphas from a cell of the same layout enumerates the same alphas |
| NasCell.LastN | FastAutoAugment/nas/cell.py:70 | `states[-k:]` is the last `k` states, or all of them when `k` is 0 or at least the length |
| NasCell.Forward | FastAutoAugment/nas/cell.py:56-70 | the state list starts with the two preprocessed inputs and gains one entry per node, the sum of its edges over the earlier states; the output is its last `out_nodes` entries |
| NasCell.KeptOptional | FastAutoAugment/nas/cell.py:82-84 | a node keeps at most `max_final_edges` optional edges |
| NasCell.KeptOptionalSelects | FastAutoAugment/nas/cell.py:82-85 | without truncation the optional edges stay in original order; with truncation exactly `max_final_edges` are kept, descending by rank; no dropped edge outranks a kept one; ties keep the earliest |
| NasCell.RequiredOptionalPartition | FastAutoAugment/nas/cell.py:76-81 | every edge is either required or optional |
| NasCell.RequiredIncludesUnranked | FastAutoAugment/nas/cell.py:76-81 | every edge whose rank is `None` is kept as required |
| NasCell.FinalNodeLayout | FastAutoAugment/nas/cell.py:76-86 | a finalised node lists the required edges first in original order, then at most `max_final_edges` optional ones, all of them in order when there are few enough |
| NasCell.FinalizeNode | FastAutoAugment/nas/cell.py:75-86 | the loop over one node's edges yields that node's finalised description |
| NasCell.Finalize | FastAutoAugment/nas/cell.py:72-95 | one finalised node per DAG node in DAG order; every other description field is copied unchanged |
| ModelTest.Compile | FastAutoAugment/darts/model_test.py:42-63 | succeeds iff `len(op_names) == len(indices)`; `steps = len // 2`, `multiplier = len(concat)`, and an op has stride 2 iff the cell reduces and its input index is below 2 |
| ModelTest.NewCell | FastAutoAugment/darts/model_test.py:10-40 | `preprocess0` is a factorized reduce iff the previous cell reduced; the reduce or normal genes are compiled as `reduction` says; fails iff those genes are empty |
| ModelTest.PyIndex | FastAutoAugment/darts/model_test.py:76-77 | Python indexing succeeds iff `-len <= i < len`, counting from the end for negative `i` |
| ModelTest.NodeStatesDefined | FastAutoAugment/darts/model_test.py:73-95 | every node can read its two inputs iff each index reaches an earlier state; then one state per node is appended after the initial ones |
| ModelTest.NoneStaysNone | FastAutoAugment/darts/model_test.py:73-95 | once a node's index is out of range, the forward pass fails however many nodes follow |
| ModelTest.Pick | FastAutoAugment/darts/model_test.py:99 | `[states[i] for i in concat]` succeeds iff every index is in range, and picks `states[i]` for each |
| ModelTest.CellForward | FastAutoAugment/darts/model_test.py:65-99 | the output is the `concat` selection from the node states, which are grown from the two preprocessed inputs |
| ModelTest.BuildCells | FastAutoAugment/darts/model_test.py:167-181 | one cell per layer; cell `i` reduces and doubles the width iff `i` is in `{layers//3, 2*layers//3}`; `reduction_prev` is the previous cell's `reduction`; the input widths shift by one cell; the classifier reads the final `C_prev` |
| ModelTest.NetworkCIFAR | FastAutoAugment/darts/model_test.py:153-186 | the stem is `3·ch_out_init` wide whatever `stem_multiplier` is; the first cell does not follow a reduction; an auxiliary head reads the output of cell `2*layers//3` and needs at least one cell |
| ModelTest.NetworkImageNet | FastAutoAugment/darts/model_test.py:210-249 | the stems output `ch_out_init` channels, and the first cell treats its input as reduced |
| ModelTest.WidthClosedForm | FastAutoAugment/darts/model_test.py:170-175 | the cell width is `ch` up to the first reduction cell, `2ch` up to the second and `4ch` after it |
| ModelTest.LastCellWidth | FastAutoAugment/darts/model_test.py:170-175 | the last cell of a network with two or more cells is `4ch` wide |
| TrainingMetrics.Metrics.constructor | FastAutoAugment/common/metrics.py:17-29 | a new tracker starts with every counter and the best result at zero |
| TrainingMetrics.Metrics.ResetEpoch | FastAutoAugment/common/metrics.py:42-46 | `_reset_epoch` zeroes `step` and nothing else |
| TrainingMetrics.Metrics.Reset | FastAutoAugment/common/metrics.py:31-40 | `best_top1`, `best_epoch`, `epoch`, `global_step` and `step` become zero; `epochs` changes only when a value is given |
| TrainingMetrics.Metrics.PostStep | FastAutoAugment/common/metrics.py:63-77 | `step` and `global_step` each grow by exactly one |
| TrainingMetrics.Metrics.PreEpoch | FastAutoAugment/common/metrics.py:116-123 | `step` becomes zero; `epoch` and `global_step` are untouched |
| TrainingMetrics.Metrics.IncrementEpoch | FastAutoAugment/common/metrics.py:85-86 | `epoch` grows by one |
| TrainingMetrics.Metrics.PostEpoch | FastAutoAugment/common/metrics.py:125-132 | `epoch` grows by one; the best result and its epoch move only on a strict improvement, so the best never decreases |
| TrainingMetrics.ResetIsBest | FastAutoAugment/common/metrics.py:134-135 | `is_best` holds right after `reset` |
| TrainingMetrics.NoImprovementIsNotBest | FastAutoAugment/common/metrics.py:125-135 | after an epoch without a strict improvement, `is_best` is false |
| TrainingMetrics.SavePath | FastAutoAugment/common/metrics.py:145-151 | no path and the empty path are returned unchanged; any other path ends in `.yaml`, keeps its prefix, and is unchanged if it already had the suffix |
| TrainingMetrics.SavePathIdempotent | FastAutoAugment/common/metrics.py:147-149 | applying the suffix rule twice is the same as once |
| TrainingMetrics.AddedCommutes | FastAutoAugment/common/metrics.py:161-163 | adding two dictionaries gives the same totals in either order |
| TrainingMetrics.DividedBy | FastAutoAugment/common/metrics.py:188-189 | dividing by a number keeps exactly the same keys |
| TrainingMetrics.DividedByOne | FastAutoAugment/common/metrics.py:188-189 | dividing by one changes nothing |
| TrainingMetrics.DividedByKey | FastAutoAugment/common/metrics.py:183-187 | dividing by a key keeps the same keys, leaves that key's total unchanged and divides every other total by it |
| TrainingMetrics.KeyDivisibleCheck | FastAutoAugment/common/metrics.py:183-187 | the run-time test holds iff every division the loop performs (one per other key, by the key's total read as `self[other]`, zero when missing) has a non-zero divisor |
| TrainingMetrics.Accumulator.constructor | FastAutoAugment/common/metrics.py:155-156 | a new accumulator is empty |
| TrainingMetrics.Accumulator.Add | FastAutoAugment/common/metrics.py:158-159 | a missing key counts from zero, and only that key changes |
| TrainingMetrics.Accumulator.AddDict | FastAutoAugment/common/metrics.py:161-163 | the totals become the old totals plus every entry, whatever the iteration order |
| TrainingMetrics.Accumulator.Get | FastAutoAugment/common/metrics.py:165-166 | a missing key reads as zero and is inserted with zero |
| TrainingMetrics.Accumulator.Set | FastAutoAugment/common/metrics.py:168-169 | only the given key changes |
| TrainingMetrics.Accumulator.GetDict | FastAutoAugment/common/metrics.py:171-172 | returns a copy of the totals |
| TrainingMetrics.Accumulator.TrueDiv | FastAutoAugment/common/metrics.py:180-190 | a fresh accumulator with the same keys. A numeric divisor divides every total and fails iff it is zero with a non-empty dict; zero on an empty dict gives an empty accumulator. A key divisor keeps that key's total and divides the others; it fails iff some other key would divide by zero, having first inserted a missing divisor key as zero |

## Left out

- Autograd, the losses and the modules' forward computations are gradient and norm oracles, passed as parameters; convolutions and auxiliary heads are not modelled.
- Float32 arithmetic: the model computes over reals, so the restored weights are exact, which float32 would not guarantee.
- The L2 norm is abstract; its homogeneity is assumed only where `Bilevel.PerturbationHasUnitLength` states it.
- `copy.deepcopy`, `state_dict`/`load_state_dict`, `.cuda()` and device placement are modelled only by their effect on values.
- The body of `concat` in `darts/arch.py` is empty in the source; `Tensors.Flatten` models it as described in its docstring: flatten each tensor, then concatenate.
- The alpha and arch optimizers (`get_optimizer`) are an abstract step rule that preserves shapes; their internal state is not modelled.
- The weight optimizer's state is a map from weight index to momentum buffer.
- `NasArch.Arch.HessianVectorProduct`, `DartsArch.Arch.HessianVectorProduct` and the bilevel steps require a positive norm of the gradient they divide by; the source does not guard this division.
- `NasArch.Arch.HessianVectorProduct` and `DartsArch.Arch.HessianVectorProduct` also require `epsilon_unit != 0`. The callers pass the default `0.01`, and a zero unit would make the final division by `2ε` fail.
- NasArch.Arch.HessianVectorProduct and DartsArch.Arch.HessianVectorProduct: the loss and gradient oracles cannot fail, so the model promises restoration only on the normal path. The source has no `try`/`finally` around the perturbations (`nas/arch.py:156-180`, `darts/arch.py:212-230`). A loss or `autograd.grad` call that raises between them leaves the live weights displaced by `±ε·dw`, and the model does not capture that path.
- DartsArch.Arch.HessianVectorProduct, DartsArch.Arch.BackwardStep, DartsArch.Arch.BackwardStepBilevel, DartsArch.Arch.Step and DartsArch.Arch.CompUnrolledModel: the batch-norm running statistics that each forward pass of the live model updates in train mode are not modelled. The live buffers are framed as unchanged. In the source the two forwards at `θ ± ε·dw` move those statistics, and restoring the parameters does not restore them. The NasArch model has no buffers at all, so the same applies to NasArch.Arch.HessianVectorProduct and NasArch.Arch.Step.
- `nas/dag_edge.py`, `nas/operations.py` (`Op.create`) and `nas/model_desc.py` are not part of this model. An edge's parameters, its output and its `finalize` result enter as function parameters.
- The cell's preprocessing ops enter as functions, and the final `torch.cat` of the cell outputs is not modelled: only the list of concatenated states is.
- Random drop-path in `_Cell.forward` (`darts/model_test.py:87-91`) is not modelled.
- In `darts/model_test.py` the ops are represented by their name, width and stride (`OPS` is not part of this model); the stems, pooling and classifier by their widths.
- The network `forward` passes of `NetworkCIFAR` and `NetworkImageNet` are not modelled.
- `Metrics`: timing, logging, TensorBoard, `report_*`, `pre_run`/`post_run`/`pre_step`, `state_dict`/`load_state_dict` and the YAML write in `save` are not modelled.
- `Metrics`: the running averages (`utils.AverageMeter`, `utils.accuracy`) are not modelled; the epoch's top-1 average is a parameter of `PostEpoch`.
- `TrainingMetrics.SavePath` takes the already-resolved path: `expdir_abspath` is not part of this model.
- `Accumulator.items` and `__str__` are not modelled; neither is dictionary insertion order.

## Findings

| source | as written | input that shows it | evidently intended | confidence | as-written member | corrected member |
|---|---|---|---|---|---|---|
| FastAutoAugment/darts/arch.py:34 | `arch_optimizer` is built over `model.parameters()`. The rest of the file treats those as the weights `theta`, not the alphas. | one alpha `1.0`, classic step, validation gradient `1.0`, plain SGD with learning rate `0.1`: the alpha stays `1.0` | the arch optimizer steps the architecture parameters (`model.arch_parameters()`), so the same step moves the alpha to `0.9` | medium, not executed | DartsArch.AsWrittenStepLeavesAlphas | DartsArch.CorrectedStepMovesAlphas |
