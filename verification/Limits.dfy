/** Document limits: the three metrics, the limit code, the recovery order, and the depth-bounded
    walk that measures a Plate value. */
module Limits {
  import opened Documents

  const MAX_CONTENT_BYTES := 2 * 1024 * 1024
  const MAX_DEPTH := 16
  const MAX_NODES := 10_000
  const DEPTH_CEILING := 256

  datatype Metrics = Metrics(contentBytes: nat, maxDepth: nat, nodeCount: nat)

  datatype LimitCode = DepthExceeded | NodesExceeded | SizeExceeded

  function MaterialLimitCode(metrics: Metrics): Option<LimitCode> {
    if metrics.contentBytes > MAX_CONTENT_BYTES then Some(SizeExceeded)
    else if metrics.nodeCount > MAX_NODES then Some(NodesExceeded)
    else if metrics.maxDepth > MAX_DEPTH then Some(DepthExceeded)
    else None
  }

  ghost predicate WithinLimits(metrics: Metrics) {
    MaterialLimitCode(metrics) == None
  }

  predicate Recovers(next: Metrics, previous: Option<Metrics>) {
    && previous.Some?
    && next.contentBytes <= previous.value.contentBytes
    && next.nodeCount <= previous.value.nodeCount
    && next.maxDepth <= previous.value.maxDepth
  }

  /** The guard every write path shares: acceptable under the limits, or a step of recovery. */
  predicate Acceptable(next: Metrics, previous: Option<Metrics>) {
    MaterialLimitCode(next) == None || Recovers(next, previous)
  }

  ghost predicate EachUnderCap(m: Metrics) {
    m.contentBytes <= 2_097_152 && m.nodeCount <= 10_000 && m.maxDepth <= 16
  }

  ghost predicate EachAtMost(m: Metrics, bound: Metrics) {
    m.contentBytes <= bound.contentBytes && m.nodeCount <= bound.nodeCount && m.maxDepth <= bound.maxDepth
  }

  /** The code names the first cap that is exceeded, in the order size, nodes, depth. */
  lemma CodeNamesFirstCap(m: Metrics)
    ensures MaterialLimitCode(m) == None <==> EachUnderCap(m)
    ensures MaterialLimitCode(m) == Some(SizeExceeded) <==> m.contentBytes > 2_097_152
    ensures MaterialLimitCode(m) == Some(NodesExceeded) <==> m.contentBytes <= 2_097_152 && m.nodeCount > 10_000
    ensures MaterialLimitCode(m) == Some(DepthExceeded) <==>
              m.contentBytes <= 2_097_152 && m.nodeCount <= 10_000 && m.maxDepth > 16
    ensures forall other :: Recovers(other, Some(m)) <==> EachAtMost(other, m)
  {
  }

  // ---------- The walk ----------

  /** A JSON value as the walk sees it: `Block` is an object whose `children` is an array, `Other`
      any other value. */
  datatype Node = Other | Block(children: seq<Node>)

  function NodeCount(node: Node): nat
  {
    match node
    case Other => 1
    case Block(children) => 1 + ForestCount(children)
  }

  function ForestCount(nodes: seq<Node>): nat
  {
    if nodes == [] then 0 else NodeCount(nodes[0]) + ForestCount(nodes[1..])
  }

  function Max(a: nat, b: nat): nat {
    if a < b then b else a
  }

  /** Edges on the longest path below a node. */
  function Height(node: Node): nat
  {
    match node
    case Other => 0
    case Block(children) => if children == [] then 0 else 1 + ForestHeight(children)
  }

  function ForestHeight(nodes: seq<Node>): nat
  {
    if nodes == [] then 0 else Max(Height(nodes[0]), ForestHeight(nodes[1..]))
  }

  /** What a walk starting at `depth` counts and reaches when it stops at the ceiling. */
  function CutCount(node: Node, depth: nat): nat
    decreases node
  {
    if depth >= DEPTH_CEILING then 1
    else
      match node
      case Other => 1
      case Block(children) => 1 + CutForestCount(children, depth + 1)
  }

  function CutForestCount(nodes: seq<Node>, depth: nat): nat
    decreases nodes
  {
    if nodes == [] then 0 else CutCount(nodes[0], depth) + CutForestCount(nodes[1..], depth)
  }

  function CutDepth(node: Node, depth: nat): nat
    decreases node
  {
    if depth >= DEPTH_CEILING then depth
    else
      match node
      case Other => depth
      case Block(children) => Max(depth, CutForestDepth(children, depth + 1))
  }

  function CutForestDepth(nodes: seq<Node>, depth: nat): nat
    decreases nodes
  {
    if nodes == [] then 0 else Max(CutDepth(nodes[0], depth), CutForestDepth(nodes[1..], depth))
  }

  lemma CutForestCountAppend(nodes: seq<Node>, depth: nat, node: Node)
    ensures CutForestCount(nodes + [node], depth) == CutForestCount(nodes, depth) + CutCount(node, depth)
    ensures CutForestDepth(nodes + [node], depth) == Max(CutForestDepth(nodes, depth), CutDepth(node, depth))
  {
    if nodes == [] {
      assert [node][1..] == [];
      assert [] + [node] == [node];
    } else {
      assert (nodes + [node])[1..] == nodes[1..] + [node];
      CutForestCountAppend(nodes[1..], depth, node);
    }
  }

  /** The metrics object the walk updates in place. */
  class Measurement {
    var maxDepth: nat
    var nodeCount: nat

    constructor ()
      ensures maxDepth == 0 && nodeCount == 0
    {
      maxDepth, nodeCount := 0, 0;
    }

    method Visit(node: Node, depth: nat)
      modifies this
      ensures nodeCount == old(nodeCount) + CutCount(node, depth)
      ensures maxDepth == Max(old(maxDepth), CutDepth(node, depth))
      decreases node
    {
      nodeCount := nodeCount + 1;
      if depth > maxDepth {
        maxDepth := depth;
      }
      if depth >= DEPTH_CEILING {
        return;
      }
      match node {
        case Other =>
        case Block(children) => VisitAll(children, depth + 1);
      }
    }

    method VisitAll(nodes: seq<Node>, depth: nat)
      modifies this
      ensures nodeCount == old(nodeCount) + CutForestCount(nodes, depth)
      ensures maxDepth == Max(old(maxDepth), CutForestDepth(nodes, depth))
      decreases nodes
    {
      for i := 0 to |nodes|
        invariant nodeCount == old(nodeCount) + CutForestCount(nodes[..i], depth)
        invariant maxDepth == Max(old(maxDepth), CutForestDepth(nodes[..i], depth))
      {
        assert nodes[..i + 1] == nodes[..i] + [nodes[i]];
        CutForestCountAppend(nodes[..i], depth, nodes[i]);
        Visit(nodes[i], depth);
      }
      assert nodes[..|nodes|] == nodes;
    }
  }

  /** The byte length of the serialized envelope is an input; the walk supplies the rest. */
  method MeasureMaterialValue(value: seq<Node>, contentBytes: nat) returns (metrics: Metrics)
    ensures metrics == CutMetrics(value, contentBytes)
  {
    var m := new Measurement();
    m.VisitAll(value, 0);
    metrics := Metrics(contentBytes, m.maxDepth, m.nodeCount);
  }

  ghost function CutMetrics(value: seq<Node>, contentBytes: nat): Metrics {
    Metrics(contentBytes, CutForestDepth(value, 0), CutForestCount(value, 0))
  }

  /** The metrics of the whole tree, with no ceiling. */
  ghost function TrueMetrics(value: seq<Node>, contentBytes: nat): Metrics {
    Metrics(contentBytes, ForestHeight(value), ForestCount(value))
  }

  lemma {:induction false} CutNode(node: Node, depth: nat)
    requires depth <= DEPTH_CEILING
    ensures CutDepth(node, depth) == Min(depth + Height(node), DEPTH_CEILING)
    ensures depth + Height(node) <= DEPTH_CEILING ==> CutCount(node, depth) == NodeCount(node)
    decreases node
  {
    match node
    case Other =>
    case Block(children) =>
      if depth < DEPTH_CEILING && children != [] {
        CutForest(children, depth + 1);
      } else if children != [] {
      } else {
        assert CutForestDepth(children, depth + 1) == 0;
      }
  }

  lemma {:induction false} CutForest(nodes: seq<Node>, depth: nat)
    requires depth <= DEPTH_CEILING
    ensures nodes != [] ==> CutForestDepth(nodes, depth) == Min(depth + ForestHeight(nodes), DEPTH_CEILING)
    ensures depth + ForestHeight(nodes) <= DEPTH_CEILING ==> CutForestCount(nodes, depth) == ForestCount(nodes)
    decreases nodes
  {
    if nodes != [] {
      CutNode(nodes[0], depth);
      CutForest(nodes[1..], depth);
    }
  }

  /** Cutting the walk off never changes the verdict, and the reported depth is the true one up to
      the ceiling. */
  lemma TruncatedWalkIsExact(value: seq<Node>, contentBytes: nat)
    ensures WithinLimits(CutMetrics(value, contentBytes)) <==> WithinLimits(TrueMetrics(value, contentBytes))
    ensures CutMetrics(value, contentBytes).maxDepth
         == Min(TrueMetrics(value, contentBytes).maxDepth, DEPTH_CEILING)
    ensures TrueMetrics(value, contentBytes).maxDepth <= DEPTH_CEILING
        ==> CutMetrics(value, contentBytes) == TrueMetrics(value, contentBytes)
  {
    CutForest(value, 0);
  }

  // ---------- The shape of metrics ----------

  /** The length of the envelope of an empty value. */
  const EMPTY_BYTES := 30

  /** A document has more nodes than levels below its roots, and the empty one has neither. */
  predicate Shaped(metrics: Metrics) {
    if metrics.nodeCount == 0 then metrics == Metrics(EMPTY_BYTES, 0, 0) else metrics.maxDepth < metrics.nodeCount
  }

  lemma {:induction false} CutNodeShape(node: Node, depth: nat)
    requires depth <= DEPTH_CEILING
    ensures CutDepth(node, depth) < depth + CutCount(node, depth)
    decreases node
  {
    match node
    case Other =>
    case Block(children) =>
      if depth < DEPTH_CEILING {
        CutForestShape(children, depth + 1);
      }
  }

  lemma {:induction false} CutForestShape(nodes: seq<Node>, depth: nat)
    requires depth <= DEPTH_CEILING
    ensures if nodes == [] then CutForestDepth(nodes, depth) == 0 == CutForestCount(nodes, depth)
            else CutForestDepth(nodes, depth) < depth + CutForestCount(nodes, depth)
    decreases nodes
  {
    if nodes != [] {
      CutNodeShape(nodes[0], depth);
      CutForestShape(nodes[1..], depth);
    }
  }

  /** What the walk reports always has that shape. */
  lemma MeasuredIsShaped(value: seq<Node>, contentBytes: nat)
    requires value == [] ==> contentBytes == EMPTY_BYTES
    ensures Shaped(CutMetrics(value, contentBytes))
  {
    CutForestShape(value, 0);
  }
}
