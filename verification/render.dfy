/**
  The combined Graphviz drawing, abstracted as an append-only log of
  operations: a node or edge put directly into the top-level graph, or a
  whole subgraph (cluster) whose body is attached in one step, as the
  graphviz `with graph.subgraph(...)` block does when it closes.
 */
module Render {
  import opened Cfg

  datatype Style = Solid | Dashed

  datatype Item =
    | Node(id: BlockId, text: string)
    | Edge(src: BlockId, dst: BlockId, text: string, style: Style)

  datatype Op =
    | Put(item: Item)
    | Subgraph(name: string, text: string, body: seq<Item>)

  type EdgeKey = (BlockId, BlockId)

  function NodeHits(it: Item, id: BlockId): nat {
    if it.Node? && it.id == id then 1 else 0
  }

  function EdgeHits(it: Item, k: EdgeKey): nat {
    if it.Edge? && (it.src, it.dst) == k then 1 else 0
  }

  /** Number of node items for `id` in a subgraph body. */
  function ItemNodes(items: seq<Item>, id: BlockId): nat {
    if items == [] then 0
    else ItemNodes(items[..|items| - 1], id) + NodeHits(items[|items| - 1], id)
  }

  /** Number of edge items from `k.0` to `k.1` in a subgraph body. */
  function ItemEdges(items: seq<Item>, k: EdgeKey): nat {
    if items == [] then 0
    else ItemEdges(items[..|items| - 1], k) + EdgeHits(items[|items| - 1], k)
  }

  function OpNodes(op: Op, id: BlockId): nat {
    match op
    case Put(it) => NodeHits(it, id)
    case Subgraph(_, _, body) => ItemNodes(body, id)
  }

  function OpDashed(op: Op, k: EdgeKey): nat {
    if op.Put? && op.item.Edge? && op.item.style == Dashed then EdgeHits(op.item, k) else 0
  }

  function OpClusterEdges(op: Op, k: EdgeKey): nat {
    if op.Subgraph? then ItemEdges(op.body, k) else 0
  }

  /** Number of times `id` has been inserted as a node anywhere in the graph,
      top level or inside a cluster. */
  function NodeCount(log: seq<Op>, id: BlockId): nat {
    if log == [] then 0
    else NodeCount(log[..|log| - 1], id) + OpNodes(log[|log| - 1], id)
  }

  /** Number of dashed top-level edges from `k.0` to `k.1`. */
  function DashedCount(log: seq<Op>, k: EdgeKey): nat {
    if log == [] then 0
    else DashedCount(log[..|log| - 1], k) + OpDashed(log[|log| - 1], k)
  }

  /** Number of edges from `k.0` to `k.1` inserted inside clusters. */
  function ClusterEdgeCount(log: seq<Op>, k: EdgeKey): nat {
    if log == [] then 0
    else ClusterEdgeCount(log[..|log| - 1], k) + OpClusterEdges(log[|log| - 1], k)
  }

  /** Number of subgraphs named `name`. */
  function SubgraphCount(log: seq<Op>, name: string): nat {
    if log == [] then 0
    else SubgraphCount(log[..|log| - 1], name) + (if log[|log| - 1].Subgraph? && log[|log| - 1].name == name then 1 else 0)
  }

  predicate HasNode(log: seq<Op>, id: BlockId) {
    NodeCount(log, id) > 0
  }

  /** No block id is a node of the graph twice. */
  ghost predicate NodesUnique(log: seq<Op>) {
    forall id :: NodeCount(log, id) <= 1
  }

  lemma ItemsSnoc(items: seq<Item>, it: Item)
    ensures forall id :: ItemNodes(items + [it], id) == ItemNodes(items, id) + NodeHits(it, id)
    ensures forall k :: ItemEdges(items + [it], k) == ItemEdges(items, k) + EdgeHits(it, k)
  {
    assert (items + [it])[..|items|] == items;
  }

  lemma LogSnoc(log: seq<Op>, op: Op)
    ensures forall id :: NodeCount(log + [op], id) == NodeCount(log, id) + OpNodes(op, id)
    ensures forall k :: DashedCount(log + [op], k) == DashedCount(log, k) + OpDashed(op, k)
    ensures forall k :: ClusterEdgeCount(log + [op], k) == ClusterEdgeCount(log, k) + OpClusterEdges(op, k)
    ensures forall name :: SubgraphCount(log + [op], name) ==
                           SubgraphCount(log, name) + (if op.Subgraph? && op.name == name then 1 else 0)
  {
    assert (log + [op])[..|log|] == log;
  }
}
