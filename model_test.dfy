/**
 * Networks built from a fixed genotype (FastAutoAugment/darts/model_test.py):
 * how a cell is compiled from its genes, which states a cell's nodes read,
 * and the channel and reduction schedule of the CIFAR and ImageNet networks.
 * Convolutions, pooling and the tensors themselves are left abstract: an op
 * is described by its name, width and stride, and a state is a type
 * parameter.
 */
module ModelTest {
  import opened Common

  /** One edge of a genotype: an op name and the state it reads. */
  datatype Gene = Gene(op: string, index: int)

  datatype Genotype = Genotype(normal: seq<Gene>, normalConcat: seq<int>,
                               reduce: seq<Gene>, reduceConcat: seq<int>)

  /** `OPS[name](ch_out_init, stride, True)`. */
  datatype OpSpec = OpSpec(name: string, ch: int, stride: nat)

  /** What `_compile` sets up. */
  datatype CompiledCell = CompiledCell(steps: nat, concat: seq<int>, multiplier: nat,
                                       ops: seq<OpSpec>, indices: seq<int>)

  /** The op a cell applies to one of its two inputs. */
  datatype Preprocess = FactorizedReduce(chIn: int, chOut: int) | ReLUConvBN(chIn: int, chOut: int)

  datatype CellModule = CellModule(preprocess0: Preprocess, preprocess1: Preprocess,
                                   reduction: bool, chOut: int, body: CompiledCell)

  // ---- compiling a cell (`_Cell.__init__`, `_compile`)

  /** Every node has two ops and two input indices. */
  ghost predicate WellFormed(c: CompiledCell)
  {
    |c.ops| == |c.indices| && 2 * c.steps <= |c.ops|
  }

  ghost predicate CompiledFrom(c: CompiledCell, ch: int, opNames: seq<string>, indices: seq<int>,
                               concat: seq<int>, reduction: bool)
  {
    |opNames| == |indices| && |c.ops| == |opNames| &&
    c.steps == |opNames| / 2 && c.concat == concat && c.multiplier == |concat| &&
    c.indices == indices &&
    forall k :: 0 <= k < |c.ops| ==>
      c.ops[k].name == opNames[k] && c.ops[k].ch == ch &&
      (c.ops[k].stride == 2 <==> reduction && indices[k] < 2) &&
      (c.ops[k].stride == 1 <==> !(reduction && indices[k] < 2))
  }

  /**
   * `_compile`: `None` when the op names and indices differ in number (the
   * assertion fails). An op reduces (stride 2) exactly when the cell is a
   * reduction cell and the op reads one of the two cell inputs.
   */
  method Compile(ch: int, opNames: seq<string>, indices: seq<int>, concat: seq<int>, reduction: bool)
    returns (r: Option<CompiledCell>)
    ensures r.Some? <==> |opNames| == |indices|
    ensures r.Some? ==> CompiledFrom(r.value, ch, opNames, indices, concat, reduction) && WellFormed(r.value)
  {
    if |opNames| != |indices| {
      return None;
    }
    var ops: seq<OpSpec> := [];
    var k := 0;
    while k < |opNames|
      invariant 0 <= k <= |opNames| && |ops| == k
      invariant forall m :: 0 <= m < k ==>
        ops[m].name == opNames[m] && ops[m].ch == ch &&
        (ops[m].stride == 2 <==> reduction && indices[m] < 2) &&
        (ops[m].stride == 1 <==> !(reduction && indices[m] < 2))
    {
      var stride := if reduction && indices[k] < 2 then 2 else 1;
      ops := ops + [OpSpec(opNames[k], ch, stride)];
      k := k + 1;
    }
    return Some(CompiledCell(|opNames| / 2, concat, |concat|, ops, indices));
  }

  /** The genes and output list a cell of the given kind is built from. */
  function Genes(g: Genotype, reduction: bool): seq<Gene>
  {
    if reduction then g.reduce else g.normal
  }

  function Concat(g: Genotype, reduction: bool): seq<int>
  {
    if reduction then g.reduceConcat else g.normalConcat
  }

  /** `zip(*genes)`, first and second half. */
  function OpNames(genes: seq<Gene>): (r: seq<string>)
    ensures |r| == |genes|
  {
    seq(|genes|, k requires 0 <= k < |genes| => genes[k].op)
  }

  function Indices(genes: seq<Gene>): (r: seq<int>)
    ensures |r| == |genes|
  {
    seq(|genes|, k requires 0 <= k < |genes| => genes[k].index)
  }

  /**
   * `_Cell.__init__`: `None` when the genes the cell needs are empty
   * (`zip(*[])` has nothing to unpack). The first input is reduced when the
   * previous cell was a reduction cell; both inputs are brought to `ch`.
   */
  method NewCell(g: Genotype, chPrevPrev: int, chPrev: int, ch: int, reduction: bool, reductionPrev: bool)
    returns (r: Option<CellModule>)
    ensures r.Some? <==> |Genes(g, reduction)| > 0
    ensures r.Some? ==>
      r.value.preprocess0 == (if reductionPrev then FactorizedReduce(chPrevPrev, ch) else ReLUConvBN(chPrevPrev, ch)) &&
      r.value.preprocess1 == ReLUConvBN(chPrev, ch) &&
      r.value.reduction == reduction && r.value.chOut == ch &&
      r.value.body.multiplier == |Concat(g, reduction)| &&
      CompiledFrom(r.value.body, ch, OpNames(Genes(g, reduction)), Indices(Genes(g, reduction)),
                   Concat(g, reduction), reduction) &&
      WellFormed(r.value.body)
  {
    var pre0 := if reductionPrev then FactorizedReduce(chPrevPrev, ch) else ReLUConvBN(chPrevPrev, ch);
    var pre1 := ReLUConvBN(chPrev, ch);
    var genes := Genes(g, reduction);
    if |genes| == 0 {
      return None;
    }
    var body := Compile(ch, OpNames(genes), Indices(genes), Concat(g, reduction), reduction);
    return Some(CellModule(pre0, pre1, reduction, ch, body.value));
  }

  // ---- the cell's forward pass (which states each node reads)

  /** Python's `xs[idx]`, which counts from the end for a negative index. */
  function PyIndex<S>(xs: seq<S>, idx: int): (r: Option<S>)
    ensures r.Some? <==> -|xs| <= idx < |xs|
    ensures idx >= 0 && r.Some? ==> r.value == xs[idx]
    ensures idx < 0 && r.Some? ==> r.value == xs[|xs| + idx]
  {
    if 0 <= idx < |xs| then Some(xs[idx])
    else if -|xs| <= idx < 0 then Some(xs[|xs| + idx])
    else None
  }

  /**
   * The state list after the first `n` nodes: node `k` adds the outputs of
   * ops `2k` and `2k + 1` applied to the states at indices `2k` and `2k + 1`;
   * `None` once a node reads a state that does not exist yet.
   */
  function NodeStates<S>(c: CompiledCell, init: seq<S>, applyOp: (OpSpec, S) -> S, add: (S, S) -> S,
                         n: nat): Option<seq<S>>
    requires WellFormed(c) && n <= c.steps
  {
    if n == 0 then Some(init)
    else
      var prev := NodeStates(c, init, applyOp, add, n - 1);
      var k := n - 1;
      if prev.None? then None
      else
        var h1 := PyIndex(prev.value, c.indices[2 * k]);
        var h2 := PyIndex(prev.value, c.indices[2 * k + 1]);
        if h1.None? || h2.None? then None
        else Some(prev.value + [add(applyOp(c.ops[2 * k], h1.value), applyOp(c.ops[2 * k + 1], h2.value))])
  }

  /** Node `k` reads only the inputs and the nodes before it. */
  ghost predicate ReadsEarlier(c: CompiledCell, m: nat, k: nat)
    requires 2 * k + 1 < |c.indices|
  {
    -(m + k) <= c.indices[2 * k] < m + k && -(m + k) <= c.indices[2 * k + 1] < m + k
  }

  /**
   * The first `n` nodes run exactly when each reads only states that exist
   * by then, and then the list has grown by one state per node, keeping the
   * earlier ones.
   */
  lemma {:induction false} NodeStatesDefined<S>(c: CompiledCell, init: seq<S>, applyOp: (OpSpec, S) -> S,
                                                add: (S, S) -> S, n: nat)
    requires WellFormed(c) && n <= c.steps
    ensures NodeStates(c, init, applyOp, add, n).Some? <==>
            forall k :: 0 <= k < n ==> ReadsEarlier(c, |init|, k)
    ensures NodeStates(c, init, applyOp, add, n).Some? ==>
            |NodeStates(c, init, applyOp, add, n).value| == |init| + n &&
            NodeStates(c, init, applyOp, add, n).value[..|init|] == init
  {
    if n > 0 {
      NodeStatesDefined(c, init, applyOp, add, n - 1);
      var prev := NodeStates(c, init, applyOp, add, n - 1);
      assert (forall k :: 0 <= k < n ==> ReadsEarlier(c, |init|, k)) <==>
             (forall k :: 0 <= k < n - 1 ==> ReadsEarlier(c, |init|, k)) && ReadsEarlier(c, |init|, n - 1);
      if prev.Some? {
        forall x: S
          ensures (prev.value + [x])[..|init|] == init
        {
          assert |prev.value| >= |init|;
          assert (prev.value + [x])[..|init|] == prev.value[..|init|];
        }
      }
    }
  }

  /** `[states[i] for i in concat]`, `None` if an index is out of range. */
  function Pick<S>(states: seq<S>, concat: seq<int>): (r: Option<seq<S>>)
    ensures r.Some? <==> forall k :: 0 <= k < |concat| ==> -|states| <= concat[k] < |states|
    ensures r.Some? ==> |r.value| == |concat|
    ensures r.Some? ==> forall k :: 0 <= k < |concat| ==> Some(r.value[k]) == PyIndex(states, concat[k])
  {
    if concat == [] then Some([])
    else
      var rest := Pick(states, concat[1..]);
      var x := PyIndex(states, concat[0]);
      if x.None? || rest.None? then
        assert x.None? ==> !(-|states| <= concat[0] < |states|);
        assert rest.None? ==> exists k :: 1 <= k < |concat| && !(-|states| <= concat[k] < |states|) by {
          if rest.None? {
            var k' :| 0 <= k' < |concat[1..]| && !(-|states| <= concat[1..][k'] < |states|);
            assert concat[1..][k'] == concat[k' + 1];
          }
        }
        None
      else
        Some([x.value] + rest.value)
  }

  /**
   * `_Cell.forward` up to the final `torch.cat`, without drop-path: the
   * states the output concatenates, or `None` where Python raises an
   * `IndexError`.
   */
  method CellForward<S>(c: CompiledCell, s0: S, s1: S, pre0: S -> S, pre1: S -> S,
                        applyOp: (OpSpec, S) -> S, add: (S, S) -> S)
    returns (r: Option<seq<S>>)
    requires WellFormed(c)
    ensures var states := NodeStates(c, [pre0(s0), pre1(s1)], applyOp, add, c.steps);
      r == (if states.None? then None else Pick(states.value, c.concat))
  {
    var init := [pre0(s0), pre1(s1)];
    var states := init;
    var i := 0;
    while i < c.steps
      invariant 0 <= i <= c.steps
      invariant NodeStates(c, init, applyOp, add, i) == Some(states)
    {
      var h1 := PyIndex(states, c.indices[2 * i]);
      var h2 := PyIndex(states, c.indices[2 * i + 1]);
      if h1.None? || h2.None? {
        NoneStaysNone(c, init, applyOp, add, i + 1, c.steps);
        return None;
      }
      states := states + [add(applyOp(c.ops[2 * i], h1.value), applyOp(c.ops[2 * i + 1], h2.value))];
      i := i + 1;
    }
    r := Pick(states, c.concat);
  }

  /** Once a node fails, every later state list is missing too. */
  lemma {:induction false} NoneStaysNone<S>(c: CompiledCell, init: seq<S>, applyOp: (OpSpec, S) -> S,
                                            add: (S, S) -> S, n: nat, m: nat)
    requires WellFormed(c) && n <= m <= c.steps
    requires NodeStates(c, init, applyOp, add, n).None?
    ensures NodeStates(c, init, applyOp, add, m).None?
  {
    if m > n {
      NoneStaysNone(c, init, applyOp, add, n, m - 1);
    }
  }

  // ---- the network schedule (`NetworkCIFAR.__init__`, `NetworkImageNet.__init__`)

  /**
   * `i in [layers // 3, 2 * layers // 3]`; the schedule only asks this for
   * `0 <= i < layers`, where Python's `//` and Dafny's `/` agree.
   */
  predicate IsReductionLayer(i: nat, layers: int)
  {
    i == layers / 3 || i == 2 * layers / 3
  }

  /** `C_curr` before cell `n`: it starts at `ch` and doubles at every reduction cell. */
  function WidthBefore(ch: int, layers: int, n: nat): int
  {
    if n == 0 then ch
    else if IsReductionLayer(n - 1, layers) then 2 * WidthBefore(ch, layers, n - 1)
    else WidthBefore(ch, layers, n - 1)
  }

  /** The width of cell `i`. */
  function Width(ch: int, layers: int, i: nat): int
  {
    WidthBefore(ch, layers, i + 1)
  }

  /** The width cell `i` outputs: one block of its width per concatenated state. */
  function OutWidth(g: Genotype, ch: int, layers: int, i: nat): int
  {
    |Concat(g, IsReductionLayer(i, layers))| * Width(ch, layers, i)
  }

  /** `C_prev` for cell `i`: the stem, then the output of the cell before. */
  function PrevWidth(g: Genotype, ch: int, stem: int, layers: int, i: nat): int
  {
    if i == 0 then stem else OutWidth(g, ch, layers, i - 1)
  }

  /** `C_prev_prev` for cell `i`: the stem twice, then the output two cells back. */
  function PrevPrevWidth(g: Genotype, ch: int, stem: int, layers: int, i: nat): int
  {
    if i <= 1 then stem else OutWidth(g, ch, layers, i - 2)
  }

  function ReductionPrev(first: bool, layers: int, i: nat): bool
  {
    if i == 0 then first else IsReductionLayer(i - 1, layers)
  }

  /** Cell `i` as the schedule builds it. */
  ghost predicate Planned(cell: CellModule, g: Genotype, ch: int, stem: int, layers: int, first: bool, i: nat)
  {
    var w := Width(ch, layers, i);
    var cpp := PrevPrevWidth(g, ch, stem, layers, i);
    cell.reduction == IsReductionLayer(i, layers) &&
    cell.chOut == w &&
    cell.preprocess0 == (if ReductionPrev(first, layers, i) then FactorizedReduce(cpp, w) else ReLUConvBN(cpp, w)) &&
    cell.preprocess1 == ReLUConvBN(PrevWidth(g, ch, stem, layers, i), w) &&
    cell.body.multiplier == |Concat(g, IsReductionLayer(i, layers))|
  }

  /** The cells, the width the classifier reads and the width the auxiliary head reads. */
  datatype Schedule = Schedule(cells: seq<CellModule>, classifierIn: int, auxiliaryIn: Option<int>)

  /** `range(layers)` is empty for a non-positive count. */
  function CellCount(layers: int): nat
  {
    if layers > 0 then layers else 0
  }

  /**
   * The loop shared by both networks: cell by cell, widen at the reduction
   * cells, build the cell from the last two output widths, then shift them.
   * `None` when some cell cannot be built.
   */
  method BuildCells(g: Genotype, ch: int, stem: int, layers: int, first: bool) returns (r: Option<Schedule>)
    ensures r.Some? <==> forall i :: 0 <= i < CellCount(layers) ==> |Genes(g, IsReductionLayer(i, layers))| > 0
    ensures r.Some? ==> |r.value.cells| == CellCount(layers)
    ensures r.Some? ==> forall i :: 0 <= i < |r.value.cells| ==>
      Planned(r.value.cells[i], g, ch, stem, layers, first, i)
    ensures r.Some? ==> r.value.classifierIn == PrevWidth(g, ch, stem, layers, CellCount(layers))
    ensures r.Some? ==>
      r.value.auxiliaryIn == (if layers > 0 then Some(OutWidth(g, ch, layers, 2 * layers / 3)) else None)
  {
    var n := CellCount(layers);
    var cPrevPrev, cPrev, cCurr := stem, stem, ch;
    var cells: seq<CellModule> := [];
    var reductionPrev := first;
    var toAuxiliary: Option<int> := None;
    var i := 0;
    while i < n
      invariant 0 <= i <= n && |cells| == i
      invariant forall k :: 0 <= k < i ==> |Genes(g, IsReductionLayer(k, layers))| > 0
      invariant forall k :: 0 <= k < i ==> Planned(cells[k], g, ch, stem, layers, first, k)
      invariant cPrevPrev == PrevPrevWidth(g, ch, stem, layers, i)
      invariant cPrev == PrevWidth(g, ch, stem, layers, i)
      invariant cCurr == WidthBefore(ch, layers, i)
      invariant reductionPrev == ReductionPrev(first, layers, i)
      invariant toAuxiliary == (if layers > 0 && i > 2 * layers / 3 then Some(OutWidth(g, ch, layers, 2 * layers / 3)) else None)
    {
      var reduction := false;
      if i == layers / 3 || i == 2 * layers / 3 {
        cCurr := cCurr * 2;
        reduction := true;
      }
      assert reduction == IsReductionLayer(i, layers) && cCurr == Width(ch, layers, i);
      var cell := NewCell(g, cPrevPrev, cPrev, cCurr, reduction, reductionPrev);
      if cell.None? {
        return None;
      }
      assert Planned(cell.value, g, ch, stem, layers, first, i);
      reductionPrev := reduction;
      cells := cells + [cell.value];
      cPrevPrev, cPrev := cPrev, cell.value.body.multiplier * cCurr;
      assert cPrev == OutWidth(g, ch, layers, i);
      if i == 2 * layers / 3 {
        toAuxiliary := Some(cPrev);
      }
      i := i + 1;
    }
    return Some(Schedule(cells, cPrev, toAuxiliary));
  }

  /** The widths of a built network and its cells. */
  datatype Network = Network(stemWidth: int, schedule: Schedule, classes: int, auxiliaryIn: Option<int>)

  /**
   * `NetworkCIFAR.__init__`: the stem is always three times `ch_out_init`
   * wide, whatever `stem_multiplier` is passed; the first cell does not
   * follow a reduction. `None` when a cell cannot be built or an auxiliary
   * head is asked for with no cells (`C_to_auxiliary` is never bound).
   */
  method NetworkCIFAR(chIn: int, chOutInit: int, nClasses: int, layers: int, auxiliary: bool,
                      g: Genotype, stemMultiplier: int)
    returns (r: Option<Network>)
    ensures r.Some? ==> r.value.stemWidth == 3 * chOutInit && r.value.classes == nClasses
    ensures r.Some? ==> (r.value.auxiliaryIn.Some? <==> auxiliary)
    ensures r.Some? ==> layers > 0 || !auxiliary
    ensures r.Some? <==> ((layers > 0 || !auxiliary) &&
      forall i :: 0 <= i < CellCount(layers) ==> |Genes(g, IsReductionLayer(i, layers))| > 0)
    ensures r.Some? ==> var sch := r.value.schedule;
      |sch.cells| == CellCount(layers) &&
      (forall i :: 0 <= i < |sch.cells| ==> Planned(sch.cells[i], g, chOutInit, 3 * chOutInit, layers, false, i)) &&
      sch.classifierIn == PrevWidth(g, chOutInit, 3 * chOutInit, layers, CellCount(layers)) &&
      (auxiliary ==> r.value.auxiliaryIn == Some(OutWidth(g, chOutInit, layers, 2 * layers / 3)))
  {
    var stemWidth := 3 * chOutInit;
    var sch := BuildCells(g, chOutInit, stemWidth, layers, false);
    if sch.None? || (auxiliary && sch.value.auxiliaryIn.None?) {
      return None;
    }
    var aux := if auxiliary then sch.value.auxiliaryIn else None;
    return Some(Network(stemWidth, sch.value, nClasses, aux));
  }

  /**
   * `NetworkImageNet.__init__`: the stems bring the input to `ch_out_init`
   * channels and the first cell treats its inputs as reduced.
   */
  method NetworkImageNet(chOutInit: int, nClasses: int, layers: int, auxiliary: bool, g: Genotype)
    returns (r: Option<Network>)
    ensures r.Some? ==> r.value.stemWidth == chOutInit && r.value.classes == nClasses
    ensures r.Some? ==> (r.value.auxiliaryIn.Some? <==> auxiliary)
    ensures r.Some? <==> ((layers > 0 || !auxiliary) &&
      forall i :: 0 <= i < CellCount(layers) ==> |Genes(g, IsReductionLayer(i, layers))| > 0)
    ensures r.Some? ==> var sch := r.value.schedule;
      |sch.cells| == CellCount(layers) &&
      (forall i :: 0 <= i < |sch.cells| ==> Planned(sch.cells[i], g, chOutInit, chOutInit, layers, true, i)) &&
      sch.classifierIn == PrevWidth(g, chOutInit, chOutInit, layers, CellCount(layers)) &&
      (auxiliary ==> r.value.auxiliaryIn == Some(OutWidth(g, chOutInit, layers, 2 * layers / 3)))
  {
    var sch := BuildCells(g, chOutInit, chOutInit, layers, true);
    if sch.None? || (auxiliary && sch.value.auxiliaryIn.None?) {
      return None;
    }
    var aux := if auxiliary then sch.value.auxiliaryIn else None;
    return Some(Network(chOutInit, sch.value, nClasses, aux));
  }

  /**
   * The width doubles at the two reduction cells and nowhere else: before
   * cell `n` it is `ch` up to the first reduction cell, `2 ch` up to the
   * second, and `4 ch` after it (`2 ch` when both are the same cell).
   */
  lemma {:induction false} WidthClosedForm(ch: int, layers: int, n: nat)
    requires layers > 0
    ensures WidthBefore(ch, layers, n) ==
      if n <= layers / 3 then ch
      else if n <= 2 * layers / 3 || layers / 3 == 2 * layers / 3 then 2 * ch
      else 4 * ch
  {
    if n > 0 {
      WidthClosedForm(ch, layers, n - 1);
    }
  }

  /** The last cell of a network of two or more cells is four times as wide as the first normal cell. */
  lemma LastCellWidth(ch: int, layers: int)
    requires layers > 0
    ensures Width(ch, layers, layers - 1) == if layers >= 2 then 4 * ch else 2 * ch
  {
    WidthClosedForm(ch, layers, layers);
  }
}
