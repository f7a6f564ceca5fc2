/**
 * A searchable cell (FastAutoAugment/nas/cell.py): a DAG of nodes, each node
 * a list of edges, each edge an op holding architecture parameters (alphas)
 * and weights. Edge descriptions, ops and states are type parameters; what
 * an edge's op is made of, what it computes and how it ranks itself when
 * finalised come from nas/dag_edge.py, which is not part of this model, and
 * enter as function parameters.
 */
module NasCell {
  import opened Common
  import opened RankSort

  datatype NodeDesc<E> = NodeDesc(edges: seq<E>)

  datatype CellType = Regular | Reduction

  /** The description a cell is built from and the one `finalize` returns. */
  datatype CellDesc<E, O> = CellDesc(
    cellType: CellType,
    index: int,
    nodes: seq<NodeDesc<E>>,
    s0Op: O,
    s1Op: O,
    outNodes: nat,
    nodeChOut: int,
    alphasFrom: int,
    maxFinalEdges: nat)

  /** A built edge: its description and the parameters its op holds. */
  datatype DagEdge<E, P> = DagEdge(desc: E, alphas: seq<P>, weights: seq<P>)

  /** Node `i` of the DAG is the list of its incoming edges. */
  type Dag<E, P> = seq<seq<DagEdge<E, P>>>

  /**
   * The parameters a new op creates for edge `j` of node `i` with the given
   * description.
   */
  type Factory<-E, P> = (nat, nat, E) -> seq<P>

  datatype Cell<E, O, P> = Cell(desc: CellDesc<E, O>, dag: Dag<E, P>, sharedAlphas: bool)

  // ---- building the DAG (`_create_dag`)

  /**
   * Every node has an edge, and when alphas are borrowed from another cell,
   * that cell has an edge at every position this one needs.
   */
  ghost predicate Buildable<E, P>(nodes: seq<NodeDesc<E>>, alphasDag: Option<Dag<E, P>>)
  {
    forall i :: 0 <= i < |nodes| ==>
      |nodes[i].edges| > 0 &&
      (alphasDag.Some? ==> i < |alphasDag.value| && |nodes[i].edges| <= |alphasDag.value[i]|)
  }

  /**
   * `DagEdge(edge_desc, alphas_edge=...)`: the new edge borrows the alphas of
   * the given edge, or creates its own when there is none.
   */
  function NewEdge<E, P>(i: nat, j: nat, d: E, alphasEdge: Option<DagEdge<E, P>>,
                         freshAlphas: Factory<E, P>, freshWeights: Factory<E, P>): (r: DagEdge<E, P>)
    ensures r.desc == d && r.weights == freshWeights(i, j, d)
    ensures alphasEdge.Some? ==> r.alphas == alphasEdge.value.alphas
    ensures alphasEdge.None? ==> r.alphas == freshAlphas(i, j, d)
  {
    DagEdge(d, if alphasEdge.Some? then alphasEdge.value.alphas else freshAlphas(i, j, d),
            freshWeights(i, j, d))
  }

  /** Edge `j` of node `i` as `_create_dag` builds it. */
  ghost predicate BuiltAt<E, P>(e: DagEdge<E, P>, i: nat, j: nat, d: E,
                                alphasDag: Option<Dag<E, P>>,
                                freshAlphas: Factory<E, P>, freshWeights: Factory<E, P>)
  {
    e.desc == d && e.weights == freshWeights(i, j, d) &&
    (alphasDag.None? ==> e.alphas == freshAlphas(i, j, d)) &&
    (alphasDag.Some? ==> i < |alphasDag.value| && j < |alphasDag.value[i]| &&
                         e.alphas == alphasDag.value[i][j].alphas)
  }

  /** One edge per edge description, node by node. */
  ghost predicate BuiltFrom<E, P>(dag: Dag<E, P>, nodes: seq<NodeDesc<E>>,
                                  alphasDag: Option<Dag<E, P>>,
                                  freshAlphas: Factory<E, P>, freshWeights: Factory<E, P>)
  {
    |dag| == |nodes| &&
    forall i :: 0 <= i < |nodes| ==>
      |dag[i]| == |nodes[i].edges| &&
      forall j :: 0 <= j < |dag[i]| ==>
        BuiltAt(dag[i][j], i, j, nodes[i].edges[j], alphasDag, freshAlphas, freshWeights)
  }

  /**
   * Build the edges of one node; `None` when a borrowed-alphas cell has no
   * edge at some position (`alphas_cell._dag[i][j]` raises).
   */
  method CreateNode<E, P>(i: nat, node: NodeDesc<E>, alphasDag: Option<Dag<E, P>>,
                          freshAlphas: Factory<E, P>, freshWeights: Factory<E, P>)
    returns (r: Option<seq<DagEdge<E, P>>>)
    requires |node.edges| > 0
    ensures r.Some? <==> (alphasDag.Some? ==> i < |alphasDag.value| && |node.edges| <= |alphasDag.value[i]|)
    ensures r.Some? ==> |r.value| == |node.edges|
    ensures r.Some? ==> forall j :: 0 <= j < |node.edges| ==>
      BuiltAt(r.value[j], i, j, node.edges[j], alphasDag, freshAlphas, freshWeights)
  {
    var edges: seq<DagEdge<E, P>> := [];
    var j := 0;
    while j < |node.edges|
      invariant 0 <= j <= |node.edges| && |edges| == j
      invariant alphasDag.Some? && j > 0 ==> i < |alphasDag.value| && j <= |alphasDag.value[i]|
      invariant forall k :: 0 <= k < j ==>
        BuiltAt(edges[k], i, k, node.edges[k], alphasDag, freshAlphas, freshWeights)
    {
      var alphasEdge: Option<DagEdge<E, P>> := None;
      if alphasDag.Some? {
        if i >= |alphasDag.value| || j >= |alphasDag.value[i]| {
          return None;
        }
        alphasEdge := Some(alphasDag.value[i][j]);
      }
      edges := edges + [NewEdge(i, j, node.edges[j], alphasEdge, freshAlphas, freshWeights)];
      j := j + 1;
    }
    return Some(edges);
  }

  /**
   * `_create_dag`: `None` when a node has no edge (the assertion fails) or
   * a borrowed-alphas cell lacks an edge the new cell needs.
   */
  method CreateDag<E, P>(nodes: seq<NodeDesc<E>>, alphasDag: Option<Dag<E, P>>,
                         freshAlphas: Factory<E, P>, freshWeights: Factory<E, P>)
    returns (r: Option<Dag<E, P>>)
    ensures r.Some? <==> Buildable(nodes, alphasDag)
    ensures r.Some? ==> BuiltFrom(r.value, nodes, alphasDag, freshAlphas, freshWeights)
  {
    var dag: Dag<E, P> := [];
    var i := 0;
    while i < |nodes|
      invariant 0 <= i <= |nodes| && |dag| == i
      invariant Buildable(nodes[..i], alphasDag)
      invariant forall k :: 0 <= k < i ==>
        |dag[k]| == |nodes[k].edges| &&
        forall j :: 0 <= j < |dag[k]| ==>
          BuiltAt(dag[k][j], k, j, nodes[k].edges[j], alphasDag, freshAlphas, freshWeights)
    {
      if |nodes[i].edges| == 0 {
        return None;
      }
      var edges := CreateNode(i, nodes[i], alphasDag, freshAlphas, freshWeights);
      if edges.None? {
        return None;
      }
      dag := dag + [edges.value];
      i := i + 1;
    }
    assert nodes[..i] == nodes;
    return Some(dag);
  }

  /**
   * `Cell.__init__` (the DAG part): the cell shares alphas exactly when it is
   * given a cell to borrow them from. The preprocessing ops are left out.
   */
  method NewCell<E, O, P>(desc: CellDesc<E, O>, alphasCell: Option<Cell<E, O, P>>,
                          freshAlphas: Factory<E, P>, freshWeights: Factory<E, P>)
    returns (r: Option<Cell<E, O, P>>)
    ensures var alphasDag := if alphasCell.Some? then Some(alphasCell.value.dag) else None;
      (r.Some? <==> Buildable(desc.nodes, alphasDag)) &&
      (r.Some? ==> r.value.desc == desc && r.value.sharedAlphas == alphasCell.Some? &&
                   BuiltFrom(r.value.dag, desc.nodes, alphasDag, freshAlphas, freshWeights))
  {
    var alphasDag := if alphasCell.Some? then Some(alphasCell.value.dag) else None;
    var dag := CreateDag(desc.nodes, alphasDag, freshAlphas, freshWeights);
    if dag.None? {
      return None;
    }
    return Some(Cell(desc, dag.value, alphasCell.Some?));
  }

  // ---- enumerating parameters (`alphas`, `weights`)

  /** The items `f` picks from each edge of one node, edge by edge. */
  function NodeItems<E, P>(node: seq<DagEdge<E, P>>, f: DagEdge<E, P> -> seq<P>): seq<P>
  {
    if node == [] then [] else NodeItems(node[..|node| - 1], f) + f(node[|node| - 1])
  }

  /** The items `f` picks from every edge, node by node. */
  function Gather<E, P>(dag: Dag<E, P>, f: DagEdge<E, P> -> seq<P>): seq<P>
  {
    if dag == [] then [] else Gather(dag[..|dag| - 1], f) + NodeItems(dag[|dag| - 1], f)
  }

  function Alphas<E, O, P>(cell: Cell<E, O, P>): seq<P>
  {
    Gather(cell.dag, (e: DagEdge<E, P>) => e.alphas)
  }

  function Weights<E, O, P>(cell: Cell<E, O, P>): seq<P>
  {
    Gather(cell.dag, (e: DagEdge<E, P>) => e.weights)
  }

  /** Enumeration goes edge after edge: a node's items split where its edges do. */
  lemma {:induction false} NodeItemsAppend<E, P>(a: seq<DagEdge<E, P>>, b: seq<DagEdge<E, P>>,
                                                 f: DagEdge<E, P> -> seq<P>)
    ensures NodeItems(a + b, f) == NodeItems(a, f) + NodeItems(b, f)
  {
    if b == [] {
      assert a + b == a;
    } else {
      assert (a + b)[..|a + b| - 1] == a + b[..|b| - 1];
      NodeItemsAppend(a, b[..|b| - 1], f);
    }
  }

  /** Enumeration goes node after node: the DAG's items split where its nodes do. */
  lemma {:induction false} GatherAppend<E, P>(a: Dag<E, P>, b: Dag<E, P>, f: DagEdge<E, P> -> seq<P>)
    ensures Gather(a + b, f) == Gather(a, f) + Gather(b, f)
  {
    if b == [] {
      assert a + b == a;
    } else {
      assert (a + b)[..|a + b| - 1] == a + b[..|b| - 1];
      GatherAppend(a, b[..|b| - 1], f);
    }
  }

  /** A DAG of one node enumerates that node's items. */
  lemma GatherOneNode<E, P>(node: seq<DagEdge<E, P>>, f: DagEdge<E, P> -> seq<P>)
    ensures Gather([node], f) == NodeItems(node, f)
  {
    assert [node][..0] == [];
  }

  /** A node of one edge enumerates that edge's items. */
  lemma NodeItemsOneEdge<E, P>(e: DagEdge<E, P>, f: DagEdge<E, P> -> seq<P>)
    ensures NodeItems([e], f) == f(e)
  {
    assert [e][..0] == [];
  }

  /** A node's items: those of the edges before `e`, then `e`'s, then the rest. */
  lemma NodeItemsInPlace<E, P>(left: seq<DagEdge<E, P>>, e: DagEdge<E, P>, right: seq<DagEdge<E, P>>,
                               f: DagEdge<E, P> -> seq<P>)
    ensures NodeItems(left + [e] + right, f) == NodeItems(left, f) + f(e) + NodeItems(right, f)
  {
    NodeItemsAppend(left + [e], right, f);
    NodeItemsAppend(left, [e], f);
    NodeItemsOneEdge(e, f);
  }

  /** Two DAGs of the same layout, position by position. */
  ghost predicate SameLayout<E, P>(a: Dag<E, P>, b: Dag<E, P>)
  {
    |a| == |b| && forall i :: 0 <= i < |a| ==> |a[i]| == |b[i]|
  }

  lemma {:induction false} NodeItemsAgree<E, P>(a: seq<DagEdge<E, P>>, b: seq<DagEdge<E, P>>,
                                                f: DagEdge<E, P> -> seq<P>)
    requires |a| == |b| && forall j :: 0 <= j < |a| ==> f(a[j]) == f(b[j])
    ensures NodeItems(a, f) == NodeItems(b, f)
  {
    if a != [] {
      NodeItemsAgree(a[..|a| - 1], b[..|b| - 1], f);
    }
  }

  /** The enumeration depends only on what `f` picks at each position. */
  lemma {:induction false} GatherAgree<E, P>(a: Dag<E, P>, b: Dag<E, P>, f: DagEdge<E, P> -> seq<P>)
    requires SameLayout(a, b)
    requires forall i, j :: 0 <= i < |a| && 0 <= j < |a[i]| ==> f(a[i][j]) == f(b[i][j])
    ensures Gather(a, f) == Gather(b, f)
  {
    if a != [] {
      var n := |a| - 1;
      NodeItemsAgree(a[n], b[n], f);
      GatherAgree(a[..n], b[..n], f);
    }
  }

  /**
   * A cell built with another cell's alphas enumerates exactly that cell's
   * alphas, in the same order, when the two cells have the same layout.
   */
  lemma SharedCellHasSameAlphas<E, O, P>(cell: Cell<E, O, P>, source: Cell<E, O, P>,
                                         freshAlphas: Factory<E, P>, freshWeights: Factory<E, P>)
    requires BuiltFrom(cell.dag, cell.desc.nodes, Some(source.dag), freshAlphas, freshWeights)
    requires SameLayout(cell.dag, source.dag)
    ensures Alphas(cell) == Alphas(source)
  {
    var f := (e: DagEdge<E, P>) => e.alphas;
    forall i, j | 0 <= i < |cell.dag| && 0 <= j < |cell.dag[i]|
      ensures f(cell.dag[i][j]) == f(source.dag[i][j])
    {
      assert BuiltAt(cell.dag[i][j], i, j, cell.desc.nodes[i].edges[j], Some(source.dag),
                     freshAlphas, freshWeights);
    }
    GatherAgree(cell.dag, source.dag, f);
  }

  // ---- the forward pass (state-list shape)

  /**
   * Python's `xs[-k:]`: the last `k` entries, or all of them when `k` is 0
   * (`xs[-0:]` is `xs[0:]`) or at least `|xs|`.
   */
  function LastN<S>(xs: seq<S>, k: nat): (r: seq<S>)
    ensures |r| <= |xs| && r == xs[|xs| - |r|..]
    ensures 0 < k <= |xs| ==> |r| == k
    ensures k == 0 || k >= |xs| ==> r == xs
  {
    if k == 0 || k >= |xs| then xs else xs[|xs| - k..]
  }

  /**
   * `sum(edge(states) for edge in node)`: Python's `sum` starts from `0` and
   * adds the edge outputs in edge order.
   */
  function NodeSum<E, P, S>(node: seq<DagEdge<E, P>>, states: seq<S>,
                            edgeOut: (DagEdge<E, P>, seq<S>) -> S, add: (S, S) -> S, zero: S): S
  {
    if node == [] then zero
    else add(NodeSum(node[..|node| - 1], states, edgeOut, add, zero), edgeOut(node[|node| - 1], states))
  }

  /**
   * `Cell.forward` up to the final `torch.cat`: the state list starts with the
   * two preprocessed inputs, gains one entry per node, computed from the
   * states before it, and the output is its last `out_nodes` entries.
   */
  method Forward<E, O, P, S>(cell: Cell<E, O, P>, s0: S, s1: S, pre0: S -> S, pre1: S -> S,
                             edgeOut: (DagEdge<E, P>, seq<S>) -> S, add: (S, S) -> S, zero: S)
    returns (states: seq<S>, out: seq<S>)
    ensures |states| == |cell.dag| + 2
    ensures states[0] == pre0(s0) && states[1] == pre1(s1)
    ensures forall i :: 0 <= i < |cell.dag| ==>
      states[i + 2] == NodeSum(cell.dag[i], states[..i + 2], edgeOut, add, zero)
    ensures out == LastN(states, cell.desc.outNodes)
  {
    states := [pre0(s0), pre1(s1)];
    var i := 0;
    while i < |cell.dag|
      invariant 0 <= i <= |cell.dag| && |states| == i + 2
      invariant states[0] == pre0(s0) && states[1] == pre1(s1)
      invariant forall k :: 0 <= k < i ==>
        states[k + 2] == NodeSum(cell.dag[k], states[..k + 2], edgeOut, add, zero)
    {
      var o := NodeSum(cell.dag[i], states, edgeOut, add, zero);
      ghost var prev := states;
      states := states + [o];
      forall k | 0 <= k <= i
        ensures states[k + 2] == NodeSum(cell.dag[k], states[..k + 2], edgeOut, add, zero)
      {
        assert states[..k + 2] == prev[..k + 2];
      }
      i := i + 1;
    }
    out := LastN(states, cell.desc.outNodes);
  }

  // ---- finalising (`finalize`)

  /** What `edge.finalize()` returns: a description, ranked unless required. */
  datatype FinalEdge<E> = FinalEdge(desc: E, rank: Option<real>)

  /** The required edges (rank `None`), in order. */
  function Required<E>(fs: seq<FinalEdge<E>>): seq<E>
  {
    if fs == [] then []
    else
      var last := fs[|fs| - 1];
      Required(fs[..|fs| - 1]) + (if last.rank.None? then [last.desc] else [])
  }

  /** The optional edges with their ranks, in order. */
  function Optional<E>(fs: seq<FinalEdge<E>>): seq<Ranked<E>>
  {
    if fs == [] then []
    else
      var last := fs[|fs| - 1];
      Optional(fs[..|fs| - 1]) + (if last.rank.Some? then [Ranked(last.desc, last.rank.value)] else [])
  }

  function Items<E>(rs: seq<Ranked<E>>): (r: seq<E>)
    ensures |r| == |rs|
  {
    seq(|rs|, k requires 0 <= k < |rs| => rs[k].item)
  }

  /**
   * The optional edges a node keeps: all of them when there are at most
   * `maxEdges`, otherwise the `maxEdges` best.
   */
  function KeptOptional<E>(opt: seq<Ranked<E>>, maxEdges: nat): (r: seq<Ranked<E>>)
    ensures |r| <= maxEdges
  {
    if |opt| > maxEdges then TopRanked(opt, maxEdges) else opt
  }

  /**
   * A node keeps its optional edges in their original order when there are
   * at most `maxEdges`; otherwise exactly `maxEdges` of them, by descending
   * rank, no one ranked below an edge dropped, and on ties the earliest.
   */
  lemma KeptOptionalSelects<E>(opt: seq<Ranked<E>>, maxEdges: nat, v: real)
    ensures var r := KeptOptional(opt, maxEdges);
      multiset(r) <= multiset(opt) &&
      (|opt| <= maxEdges ==> r == opt) &&
      (|opt| > maxEdges ==> |r| == maxEdges && SortedDesc(r)) &&
      (forall a, b :: a in r && b in multiset(opt) - multiset(r) ==> a.rank >= b.rank) &&
      WithRank(r, v) <= WithRank(opt, v)
  {
    if |opt| > maxEdges {
      TopRankedSorted(opt, maxEdges);
      TopRankedDominates(opt, maxEdges);
      TopRankedStable(opt, maxEdges, v);
    }
  }

  /** The finalised description of one node. */
  function FinalNode<E>(fs: seq<FinalEdge<E>>, maxEdges: nat): NodeDesc<E>
  {
    NodeDesc(Required(fs) + Items(KeptOptional(Optional(fs), maxEdges)))
  }

  /** Every edge is either required or optional. */
  lemma {:induction false} RequiredOptionalPartition<E>(fs: seq<FinalEdge<E>>)
    ensures |Required(fs)| + |Optional(fs)| == |fs|
  {
    if fs != [] {
      RequiredOptionalPartition(fs[..|fs| - 1]);
    }
  }

  /** Every required edge is among the required descriptions. */
  lemma {:induction false} RequiredIncludesUnranked<E>(fs: seq<FinalEdge<E>>)
    ensures forall k :: 0 <= k < |fs| && fs[k].rank.None? ==> fs[k].desc in Required(fs)
  {
    if fs != [] {
      var init := fs[..|fs| - 1];
      RequiredIncludesUnranked(init);
      assert forall k :: 0 <= k < |init| ==> fs[k] == init[k];
    }
  }

  /**
   * A finalised node lists the required edges first and in order, then at
   * most `maxEdges` optional ones; with no more than `maxEdges` optional
   * edges it keeps them all in their original order.
   */
  lemma FinalNodeLayout<E>(fs: seq<FinalEdge<E>>, maxEdges: nat)
    ensures var edges := FinalNode(fs, maxEdges).edges;
      |Required(fs)| <= |edges| <= |Required(fs)| + maxEdges &&
      edges[..|Required(fs)|] == Required(fs) &&
      (forall k :: 0 <= k < |fs| && fs[k].rank.None? ==> fs[k].desc in edges[..|Required(fs)|]) &&
      (|Optional(fs)| <= maxEdges ==> edges[|Required(fs)|..] == Items(Optional(fs)))
  {
    RequiredIncludesUnranked(fs);
  }

  /** What each edge of a node reports when finalised. */
  function FinalEdges<E, P>(node: seq<DagEdge<E, P>>, finalizeEdge: DagEdge<E, P> -> FinalEdge<E>)
    : (r: seq<FinalEdge<E>>)
    ensures |r| == |node|
  {
    seq(|node|, j requires 0 <= j < |node| => finalizeEdge(node[j]))
  }

  /** The loop body of `finalize` for one node. */
  method FinalizeNode<E, P>(node: seq<DagEdge<E, P>>, finalizeEdge: DagEdge<E, P> -> FinalEdge<E>,
                            maxEdges: nat)
    returns (nd: NodeDesc<E>)
    ensures nd == FinalNode(FinalEdges(node, finalizeEdge), maxEdges)
  {
    ghost var fs := FinalEdges(node, finalizeEdge);
    var edgeDescs: seq<E> := [];
    var edgeDescRanks: seq<Ranked<E>> := [];
    var j := 0;
    while j < |node|
      invariant 0 <= j <= |node|
      invariant edgeDescs == Required(fs[..j]) && edgeDescRanks == Optional(fs[..j])
    {
      var f := finalizeEdge(node[j]);
      assert fs[..j + 1][..j] == fs[..j] && fs[..j + 1][j] == f;
      if f.rank.None? {
        edgeDescs := edgeDescs + [f.desc];
      } else {
        edgeDescRanks := edgeDescRanks + [Ranked(f.desc, f.rank.value)];
      }
      j := j + 1;
    }
    assert fs[..j] == fs;
    if |edgeDescRanks| > maxEdges {
      edgeDescRanks := SortDesc(edgeDescRanks);
      edgeDescRanks := edgeDescRanks[..maxEdges];
    }
    edgeDescs := edgeDescs + Items(edgeDescRanks);
    nd := NodeDesc(edgeDescs);
  }

  /** One finalised node per DAG node, in DAG order. */
  function FinalNodes<E, P>(dag: Dag<E, P>, finalizeEdge: DagEdge<E, P> -> FinalEdge<E>, maxEdges: nat)
    : seq<NodeDesc<E>>
  {
    seq(|dag|, i requires 0 <= i < |dag| => FinalNode(FinalEdges(dag[i], finalizeEdge), maxEdges))
  }

  /**
   * `finalize`: the description the cell was built from, with its nodes
   * replaced by the finalised ones and every other field copied unchanged.
   */
  method Finalize<E, O, P>(cell: Cell<E, O, P>, finalizeEdge: DagEdge<E, P> -> FinalEdge<E>)
    returns (r: CellDesc<E, O>)
    ensures r == cell.desc.(nodes := FinalNodes(cell.dag, finalizeEdge, cell.desc.maxFinalEdges))
  {
    ghost var expected := FinalNodes(cell.dag, finalizeEdge, cell.desc.maxFinalEdges);
    var nodesDesc: seq<NodeDesc<E>> := [];
    var i := 0;
    while i < |cell.dag|
      invariant 0 <= i <= |cell.dag| && nodesDesc == expected[..i]
    {
      var nd := FinalizeNode(cell.dag[i], finalizeEdge, cell.desc.maxFinalEdges);
      assert expected[..i + 1] == expected[..i] + [nd];
      nodesDesc := nodesDesc + [nd];
      i := i + 1;
    }
    assert nodesDesc == expected;
    r := CellDesc(cellType := cell.desc.cellType,
                  index := cell.desc.index,
                  nodes := nodesDesc,
                  s0Op := cell.desc.s0Op, s1Op := cell.desc.s1Op,
                  outNodes := cell.desc.outNodes,
                  nodeChOut := cell.desc.nodeChOut,
                  alphasFrom := cell.desc.alphasFrom,
                  maxFinalEdges := cell.desc.maxFinalEdges);
  }
}
