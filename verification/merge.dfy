/**
  The interprocedural merge of one target function (iCFG/gene_cfg.py lines
  60-106): every call site of every target block is resolved by bare name
  through the registry; the first resolution of a (caller block, callee
  entry) pair draws one dashed cross edge and records it; a link from the
  caller block to the callee's entry block is added unless already present;
  and every resolution draws the callee's cluster, skipping blocks already
  drawn and edges already drawn while handling the same caller block.
 */
module Merge {
  import opened Wrappers
  import opened Cfg
  import opened Render
  import opened Registry

  /** A recorded cross edge: caller block, callee entry block, callee name and
      the callee's call count at the moment the edge was first recorded. */
  datatype CrossEdge = CrossEdge(caller: BlockId, entry: BlockId, callee: string, count: nat)

  /** The state one merge pass threads through: the block arena (whose links
      the merge extends), per-callee call counts, the recorded cross edges by
      key, and the drawing so far. */
  datatype Session = Session(
    arena: Arena,
    callCounts: map<string, nat>,
    edges: map<EdgeKey, CrossEdge>,
    graph: seq<Op>)

  /** Every registered CFG lives in the arena. */
  predicate Covers(a: Arena, reg: Registry) {
    forall n | n in reg :: Within(a, reg[n])
  }

  function CountOf(counts: map<string, nat>, n: string): nat {
    if n in counts then counts[n] else 0
  }

  /** The text drawn on an intraprocedural edge. */
  function ExitText(l: Link): string {
    if l.exitCase.Some? then l.exitCase.value else ""
  }

  /** Keys (x, target) of the links in `ls`, all leaving block `x`. */
  function LinkKeys(x: BlockId, ls: seq<Link>): set<EdgeKey> {
    if ls == [] then {}
    else LinkKeys(x, ls[..|ls| - 1]) + {(x, ls[|ls| - 1].target)}
  }

  /** Keys of all exits of the blocks `bs`. */
  function ExitKeys(a: Arena, bs: seq<BlockId>): set<EdgeKey>
  {
    if bs == [] then {}
    else ExitKeys(a, bs[..|bs| - 1]) + LinkKeys(bs[|bs| - 1], ExitsOf(a, bs[|bs| - 1]))
  }

  /** The exits of every block in `a'` extend its exits in `a`. */
  ghost predicate ExitsExtend(a: Arena, a': Arena) {
    forall x :: ExitsOf(a, x) <= ExitsOf(a', x)
  }

  lemma {:induction false} LinkKeysGrow(x: BlockId, ls: seq<Link>, ls': seq<Link>)
    requires ls <= ls'
    ensures LinkKeys(x, ls) <= LinkKeys(x, ls')
    decreases |ls'|
  {
    if |ls| < |ls'| {
      assert ls <= ls'[..|ls'| - 1];
      LinkKeysGrow(x, ls, ls'[..|ls'| - 1]);
    } else {
      assert ls == ls';
    }
  }

  lemma {:induction false} ExitKeysGrow(a: Arena, a': Arena, bs: seq<BlockId>)
    requires ExitsExtend(a, a')
    ensures ExitKeys(a, bs) <= ExitKeys(a', bs)
    decreases |bs|
  {
    if bs != [] {
      var x := bs[|bs| - 1];
      ExitKeysGrow(a, a', bs[..|bs| - 1]);
      LinkKeysGrow(x, ExitsOf(a, x), ExitsOf(a', x));
    }
  }

  /** Reference: `id` is a block of some registered callee among the call
      names `cs`, that is, a block whose cluster resolving `cs` draws. */
  predicate InCallee(reg: Registry, cs: seq<string>, id: BlockId) {
    if cs == [] then false
    else
      var n := cs[|cs| - 1];
      InCallee(reg, cs[..|cs| - 1], id) || (n in reg && id in reg[n].blocks)
  }

  /** Reference set: the exit keys, read in arena `a`, of the blocks of the
      registered callees among the call names `cs`. */
  function CalleeExitKeys(a: Arena, reg: Registry, cs: seq<string>): set<EdgeKey> {
    if cs == [] then {}
    else
      var n := cs[|cs| - 1];
      CalleeExitKeys(a, reg, cs[..|cs| - 1]) + (if n in reg then ExitKeys(a, reg[n].blocks) else {})
  }

  lemma {:induction false} CalleeExitKeysGrow(a: Arena, a': Arena, reg: Registry, cs: seq<string>)
    requires ExitsExtend(a, a')
    ensures CalleeExitKeys(a, reg, cs) <= CalleeExitKeys(a', reg, cs)
    decreases |cs|
  {
    if cs != [] {
      CalleeExitKeysGrow(a, a', reg, cs[..|cs| - 1]);
      var n := cs[|cs| - 1];
      if n in reg {
        ExitKeysGrow(a, a', reg[n].blocks);
      }
    }
  }

  /** Draws the exit edges of block `x` whose keys are not yet in
      `existing`, adding each drawn key to it: no key is drawn twice. */
  method DrawExits(x: BlockId, exits: seq<Link>, items: seq<Item>, existing: set<EdgeKey>)
    returns (items': seq<Item>, existing': set<EdgeKey>)
    ensures existing' == existing + LinkKeys(x, exits)
    ensures forall id :: ItemNodes(items', id) == ItemNodes(items, id)
    ensures forall k :: ItemEdges(items', k) == ItemEdges(items, k) + (if k in existing' && k !in existing then 1 else 0)
    ensures items <= items'
    ensures forall i | |items| <= i < |items'| :: items'[i].Edge? && items'[i].style == Solid && items'[i].src == x
  {
    items' := items;
    existing' := existing;
    for j := 0 to |exits|
      invariant existing' == existing + LinkKeys(x, exits[..j])
      invariant forall id :: ItemNodes(items', id) == ItemNodes(items, id)
      invariant forall k :: ItemEdges(items', k) == ItemEdges(items, k) + (if k in existing' && k !in existing then 1 else 0)
      invariant items <= items'
      invariant forall i | |items| <= i < |items'| :: items'[i].Edge? && items'[i].style == Solid && items'[i].src == x
    {
      assert exits[..j + 1][..j] == exits[..j];
      var key := (x, exits[j].target);
      if key !in existing' {
        var e := Edge(x, exits[j].target, ExitText(exits[j]), Solid);
        ItemsSnoc(items', e);
        items' := items' + [e];
        existing' := existing' + {key};
      }
    }
    assert exits[..|exits|] == exits;
  }

  /** What drawing block `x` of a cluster does: its node is added iff the
      graph drawn so far has none with its id, then each exit whose key is
      not yet in `existing` is drawn once and its key added. */
  ghost predicate BlockDrawn(a: Arena, x: BlockId, graph: seq<Op>, body: seq<Item>, existing: set<EdgeKey>,
                             body': seq<Item>, existing': set<EdgeKey>)
  {
    && x in a
    && (forall id :: ItemNodes(body', id) == ItemNodes(body, id) + (if id == x && !HasNode(graph, x) then 1 else 0))
    && existing' == existing + LinkKeys(x, a[x].exits)
    && (forall k :: ItemEdges(body', k) == ItemEdges(body, k) + (if k in existing' && k !in existing then 1 else 0))
    && body <= body'
    && (forall i | |body| <= i < |body'| && body'[i].Node? :: body'[i].id == x && body'[i].text == a[x].source)
    && (forall i | |body| <= i < |body'| && body'[i].Edge? :: body'[i].style == Solid && body'[i].src == x)
  }

  /** Draws block `x` of a cluster (lines 97-106). */
  method DrawBlock(a: Arena, x: BlockId, graph: seq<Op>, items: seq<Item>, existing: set<EdgeKey>)
    returns (items': seq<Item>, existing': set<EdgeKey>)
    requires x in a
    ensures BlockDrawn(a, x, graph, items, existing, items', existing')
  {
    items' := items;
    if !HasNode(graph, x) {
      ItemsSnoc(items, Node(x, a[x].source));
      items' := items + [Node(x, a[x].source)];
    }
    ghost var withNode := items';
    items', existing' := DrawExits(x, a[x].exits, items', existing);
    assert forall i | |items| <= i < |withNode| :: items'[i] == withNode[i];
  }

  /** Node items carry their block's source text; edge items are solid and
      leave a block of `g`. */
  ghost predicate ItemsOf(a: Arena, g: FunctionCfg, body: seq<Item>) {
    && (forall m | 0 <= m < |body| && body[m].Node? :: body[m].id in a && body[m].text == a[body[m].id].source)
    && (forall m | 0 <= m < |body| && body[m].Edge? :: body[m].style == Solid && body[m].src in g.blocks)
  }

  /** The state of EmitCluster after drawing the first `i` blocks of `g`. */
  ghost predicate ClusterProgress(a: Arena, g: FunctionCfg, graph: seq<Op>, existing0: set<EdgeKey>,
                                  i: nat, body: seq<Item>, existing: set<EdgeKey>)
  {
    && i <= |g.blocks|
    && (forall id :: ItemNodes(body, id) == (if HasNode(graph, id) then 0 else Occurrences(g.blocks[..i], id)))
    && existing == existing0 + ExitKeys(a, g.blocks[..i])
    && (forall k :: ItemEdges(body, k) == (if k in existing && k !in existing0 then 1 else 0))
    && ItemsOf(a, g, body)
  }

  lemma ClusterStep(a: Arena, g: FunctionCfg, graph: seq<Op>, existing0: set<EdgeKey>, i: nat,
                    body: seq<Item>, existing: set<EdgeKey>, body': seq<Item>, existing': set<EdgeKey>)
    requires ClusterProgress(a, g, graph, existing0, i, body, existing) && i < |g.blocks|
    requires BlockDrawn(a, g.blocks[i], graph, body, existing, body', existing')
    ensures ClusterProgress(a, g, graph, existing0, i + 1, body', existing')
  {
    var x := g.blocks[i];
    assert g.blocks[..i + 1][..i] == g.blocks[..i];
    assert ExitKeys(a, g.blocks[..i + 1]) == ExitKeys(a, g.blocks[..i]) + LinkKeys(x, a[x].exits);
    forall id
      ensures ItemNodes(body', id) == (if HasNode(graph, id) then 0 else Occurrences(g.blocks[..i + 1], id))
    {
      OccurrencesSnoc(g.blocks, i, id);
    }
    ItemsStep(a, g, i, graph, body, existing, body', existing');
  }

  lemma ItemsStep(a: Arena, g: FunctionCfg, i: nat, graph: seq<Op>,
                  body: seq<Item>, existing: set<EdgeKey>, body': seq<Item>, existing': set<EdgeKey>)
    requires ItemsOf(a, g, body) && i < |g.blocks|
    requires BlockDrawn(a, g.blocks[i], graph, body, existing, body', existing')
    ensures ItemsOf(a, g, body')
  {
    forall m | 0 <= m < |body'|
      ensures body'[m].Node? ==> body'[m].id in a && body'[m].text == a[body'[m].id].source
      ensures body'[m].Edge? ==> body'[m].style == Solid && body'[m].src in g.blocks
    {
      if m < |body| {
        assert body'[m] == body[m];
      }
    }
  }

  /** Draws one callee's cluster. A block becomes a node only if the graph
      drawn so far has no node with its id; an exit edge is drawn only if its
      (source, target) key is not yet in `existing`, which collects every key
      drawn. */
  method EmitCluster(a: Arena, g: FunctionCfg, name: string, graph: seq<Op>, existing: set<EdgeKey>)
    returns (cluster: Op, existing': set<EdgeKey>)
    requires Within(a, g)
    ensures cluster.Subgraph?
    ensures cluster.name == "cluster_" + name && cluster.text == name + " function"
    ensures forall id :: ItemNodes(cluster.body, id) == (if HasNode(graph, id) then 0 else Occurrences(g.blocks, id))
    ensures existing' == existing + ExitKeys(a, g.blocks)
    ensures forall k :: ItemEdges(cluster.body, k) == (if k in existing' && k !in existing then 1 else 0)
    ensures forall i | 0 <= i < |cluster.body| && cluster.body[i].Node? ::
      cluster.body[i].id in a && cluster.body[i].text == a[cluster.body[i].id].source
    ensures forall i | 0 <= i < |cluster.body| && cluster.body[i].Edge? ::
      cluster.body[i].style == Solid && cluster.body[i].src in g.blocks
  {
    var body: seq<Item> := [];
    existing' := existing;
    assert g.blocks[..0] == [];
    for i := 0 to |g.blocks|
      invariant ClusterProgress(a, g, graph, existing, i, body, existing')
    {
      var body', existing'' := DrawBlock(a, g.blocks[i], graph, body, existing');
      ClusterStep(a, g, graph, existing, i, body, existing', body', existing'');
      body, existing' := body', existing'';
    }
    assert g.blocks[..|g.blocks|] == g.blocks;
    cluster := Subgraph("cluster_" + name, name + " function", body);
  }

  /** The link the merge adds from a caller block to a callee's entry block. */
  function CallLink(b: BlockId, e: BlockId): Link {
    Link(b, e, None)
  }

  /** Adds the link b -> e to the exits of `b` and to the predecessors of `e`
      together, unless `b` already has it among its exits. */
  function AddCallLink(a: Arena, b: BlockId, e: BlockId): (a': Arena)
    requires b in a && e in a
    ensures ShapeKept(a, a')
    ensures CallLink(b, e) in a'[b].exits
    ensures AppendedFresh(a[b].exits, a'[b].exits)
    ensures forall x | x in a ::
      a'[x].exits == a[x].exits + (if x == b && CallLink(b, e) !in a[b].exits then [CallLink(b, e)] else [])
    ensures forall x | x in a ::
      a'[x].predecessors == a[x].predecessors + (if x == e && CallLink(b, e) !in a[b].exits then [CallLink(b, e)] else [])
  {
    var l := CallLink(b, e);
    if l in a[b].exits then a
    else
      var a1 := a[b := a[b].(exits := a[b].exits + [l])];
      a1[e := a1[e].(predecessors := a1[e].predecessors + [l])]
  }

  /** Adding the same call link twice is the same as adding it once. */
  lemma AddCallLinkIdempotent(a: Arena, b: BlockId, e: BlockId)
    requires b in a && e in a
    ensures AddCallLink(AddCallLink(a, b, e), b, e) == AddCallLink(a, b, e)
  {
  }

  /** Adding a call link only ever extends exits. */
  lemma AddCallLinkExtends(a: Arena, b: BlockId, e: BlockId)
    requires b in a && e in a
    ensures ExitsExtend(a, AddCallLink(a, b, e))
  {
    var a' := AddCallLink(a, b, e);
    forall x
      ensures ExitsOf(a, x) <= ExitsOf(a', x)
    {
      if x in a {
        assert a'[x].exits == a[x].exits + (if x == b && CallLink(b, e) !in a[b].exits then [CallLink(b, e)] else []);
      }
    }
  }

  /** However many call sites of one block resolve to the same callee, the
      guarded appends add at most one link from that block to the callee's
      entry. */
  lemma AtMostOneCallLink(orig: seq<Link>, grown: seq<Link>, b: BlockId, e: BlockId)
    requires AppendedFresh(orig, grown)
    ensures Occurrences(grown[|orig|..], CallLink(b, e)) <= 1
    ensures CallLink(b, e) in orig ==> CallLink(b, e) !in grown[|orig|..]
  {
    AppendedFreshDistinct(orig, grown);
    DistinctOccursOnce(grown[|orig|..], CallLink(b, e));
  }

  /** Records and draws the dashed cross edge b -> e the first time its key
      is seen; an existing record is never overwritten. */
  method RecordCrossEdge(edges: map<EdgeKey, CrossEdge>, graph: seq<Op>, b: BlockId, e: BlockId, name: string, count: nat)
    returns (edges': map<EdgeKey, CrossEdge>, graph': seq<Op>)
    ensures edges' == if (b, e) in edges then edges else edges[(b, e) := CrossEdge(b, e, name, count)]
    ensures graph <= graph' && |graph'| == |graph| + (if (b, e) in edges then 0 else 1)
    ensures graph' == graph + if (b, e) in edges then [] else [Put(Edge(b, e, "calls " + name, Dashed))]
    ensures forall k :: DashedCount(graph', k) == DashedCount(graph, k) + (if k == (b, e) && k !in edges then 1 else 0)
    ensures forall id :: NodeCount(graph', id) == NodeCount(graph, id)
    ensures forall k :: ClusterEdgeCount(graph', k) == ClusterEdgeCount(graph, k)
    ensures forall nm :: SubgraphCount(graph', nm) == SubgraphCount(graph, nm)
  {
    edges', graph' := edges, graph;
    if (b, e) !in edges {
      var dashed := Put(Edge(b, e, "calls " + name, Dashed));
      LogSnoc(graph, dashed);
      graph' := graph + [dashed];
      edges' := edges[(b, e) := CrossEdge(b, e, name, count)];
    }
  }

  /** Number of clusters drawn for the callee named `n`. */
  function Clusters(log: seq<Op>, n: string): nat {
    SubgraphCount(log, "cluster_" + n)
  }

  /** An operation the merge itself appends to the drawing: a dashed cross
      edge, or the cluster of a registered callee. */
  predicate MergeOp(reg: Registry, op: Op) {
    || (op.Put? && op.item.Edge? && op.item.style == Dashed)
    || (op.Subgraph? && exists n | n in reg :: op.name == "cluster_" + n && op.text == n + " function")
  }

  /** `log'` extends `log` by operations of the merge only. */
  ghost predicate AppendsOnly(reg: Registry, log: seq<Op>, log': seq<Op>) {
    && log <= log'
    && forall i | |log| <= i < |log'| :: MergeOp(reg, log'[i])
  }

  lemma AppendsOnlyTrans(reg: Registry, log: seq<Op>, log': seq<Op>, log'': seq<Op>)
    requires AppendsOnly(reg, log, log') && AppendsOnly(reg, log', log'')
    ensures AppendsOnly(reg, log, log'')
  {
    forall i | |log| <= i < |log''|
      ensures MergeOp(reg, log''[i])
    {
      if i < |log'| {
        assert log''[i] == log'[i];
      }
    }
  }

  /** A cluster name determines its callee. */
  lemma ClusterName(n: string)
    ensures ("cluster_" + n)[..8] == "cluster_" && ("cluster_" + n)[8..] == n
  {
  }

  /** Handles one call site, named `name`, of caller block `b`. An unresolved
      name changes nothing. A resolved one bumps the callee's call count,
      records and draws the cross edge if its key is new, adds the call link,
      and draws the callee's cluster. */
  method ResolveCall(s: Session, reg: Registry, b: BlockId, name: string, existing: set<EdgeKey>)
    returns (s': Session, existing': set<EdgeKey>)
    requires b in s.arena && Covers(s.arena, reg)
    ensures name !in reg ==> s' == s && existing' == existing
    ensures name in reg ==> s'.callCounts == s.callCounts[name := CountOf(s.callCounts, name) + 1]
    ensures name in reg ==>
      var key := (b, reg[name].entry);
      s'.edges == if key in s.edges then s.edges
                  else s.edges[key := CrossEdge(b, reg[name].entry, name, CountOf(s.callCounts, name) + 1)]
    ensures name in reg ==> s'.arena == AddCallLink(s.arena, b, reg[name].entry)
    ensures name in reg ==> Resolved(reg, s, s', b, name)
    ensures ShapeKept(s.arena, s'.arena)
    ensures s.graph <= s'.graph
    ensures name in reg ==> |s'.graph| == |s.graph| + (if (b, reg[name].entry) in s.edges then 1 else 2)
    ensures forall k :: DashedCount(s'.graph, k) == DashedCount(s.graph, k) +
                          (if name in reg && k == (b, reg[name].entry) && k !in s.edges then 1 else 0)
    ensures forall id :: NodeCount(s'.graph, id) == NodeCount(s.graph, id) +
                          (if name !in reg || HasNode(s.graph, id) then 0 else Occurrences(reg[name].blocks, id))
    ensures name in reg ==> existing' == existing + ExitKeys(s'.arena, reg[name].blocks)
    ensures forall k :: ClusterEdgeCount(s'.graph, k) == ClusterEdgeCount(s.graph, k) +
                          (if k in existing' && k !in existing then 1 else 0)
    ensures name in reg ==>
      var cluster := s'.graph[|s'.graph| - 1];
      && s'.graph == s.graph + (if (b, reg[name].entry) in s.edges then []
                                else [Put(Edge(b, reg[name].entry, "calls " + name, Dashed))]) + [cluster]
      && cluster.Subgraph? && cluster.name == "cluster_" + name && cluster.text == name + " function"
      && ItemsOf(s'.arena, reg[name], cluster.body)
    ensures forall n :: Clusters(s'.graph, n) == Clusters(s.graph, n) + (if name in reg && n == name then 1 else 0)
    ensures AppendsOnly(reg, s.graph, s'.graph)
  {
    if name !in reg {
      return s, existing;
    }
    var s1 := RecordCall(s, reg, b, name);
    var graph';
    graph', existing' := AppendCluster(s1.arena, reg, name, s1.graph, existing);
    s' := s1.(graph := graph');
  }

  /** The bookkeeping of a resolved call site before its cluster is drawn
      (lines 73-91): bumps the callee's counter, records and draws the cross
      edge if its key is new, and adds the call link. */
  method RecordCall(s: Session, reg: Registry, b: BlockId, name: string) returns (s': Session)
    requires b in s.arena && Covers(s.arena, reg) && name in reg
    ensures CountedAndRecorded(reg, s, s', b, name)
    ensures s'.arena == AddCallLink(s.arena, b, reg[name].entry)
    ensures s'.graph == s.graph + if (b, reg[name].entry) in s.edges then []
                                  else [Put(Edge(b, reg[name].entry, "calls " + name, Dashed))]
    ensures forall k :: DashedCount(s'.graph, k) == DashedCount(s.graph, k) +
                        (if k == (b, reg[name].entry) && k !in s.edges then 1 else 0)
    ensures forall id :: NodeCount(s'.graph, id) == NodeCount(s.graph, id)
    ensures forall k :: ClusterEdgeCount(s'.graph, k) == ClusterEdgeCount(s.graph, k)
    ensures forall n :: Clusters(s'.graph, n) == Clusters(s.graph, n)
    ensures AppendsOnly(reg, s.graph, s'.graph)
  {
    var e := reg[name].entry;
    var counts := s.callCounts[name := CountOf(s.callCounts, name) + 1];
    var edges, graph := RecordCrossEdge(s.edges, s.graph, b, e, name, counts[name]);
    s' := Session(AddCallLink(s.arena, b, e), counts, edges, graph);
  }

  /** `graph'` is `graph` followed by one subgraph: the cluster of the
      registered callee `name`, labelled "`name` function", whose body
      draws that callee's blocks and their solid edges. */
  ghost predicate ClusterAppended(a: Arena, reg: Registry, name: string, graph: seq<Op>, graph': seq<Op>)
    requires name in reg
  {
    && |graph'| == |graph| + 1
    && var cluster := graph'[|graph|];
    && graph' == graph + [cluster]
    && cluster.Subgraph? && cluster.name == "cluster_" + name && cluster.text == name + " function"
    && ItemsOf(a, reg[name], cluster.body)
  }

  /** Draws the cluster of the registered callee `name` after `graph`
      (lines 94-106). */
  method AppendCluster(a: Arena, reg: Registry, name: string, graph: seq<Op>, existing: set<EdgeKey>)
    returns (graph': seq<Op>, existing': set<EdgeKey>)
    requires name in reg && Within(a, reg[name])
    ensures ClusterAppended(a, reg, name, graph, graph')
    ensures forall id :: NodeCount(graph', id) == NodeCount(graph, id) +
                         (if HasNode(graph, id) then 0 else Occurrences(reg[name].blocks, id))
    ensures forall k :: DashedCount(graph', k) == DashedCount(graph, k)
    ensures existing' == existing + ExitKeys(a, reg[name].blocks)
    ensures forall k :: ClusterEdgeCount(graph', k) == ClusterEdgeCount(graph, k) +
                        (if k in existing' && k !in existing then 1 else 0)
    ensures forall n :: Clusters(graph', n) == Clusters(graph, n) + (if n == name then 1 else 0)
    ensures AppendsOnly(reg, graph, graph')
  {
    var cluster;
    cluster, existing' := EmitCluster(a, reg[name], name, graph, existing);
    LogSnoc(graph, cluster);
    graph' := graph + [cluster];
    ClusterName(name);
    forall n
      ensures Clusters(graph', n) == Clusters(graph, n) + (if n == name then 1 else 0)
    {
      ClusterName(n);
    }
  }

  /** Keys of the cross edges that the call names `cs` of block `b` resolve to. */
  function CallKeys(reg: Registry, b: BlockId, cs: seq<string>): set<EdgeKey> {
    if cs == [] then {}
    else
      var n := cs[|cs| - 1];
      CallKeys(reg, b, cs[..|cs| - 1]) + (if n in reg then {(b, reg[n].entry)} else {})
  }

  ghost predicate DistinctBlocks(reg: Registry) {
    forall n | n in reg :: Distinct(reg[n].blocks)
  }

  /** Every recorded cross edge agrees with its key, names a registered callee
      whose entry is the key's target, and holds a count between 1 and the
      callee's current call count. */
  ghost predicate EdgesSound(reg: Registry, s: Session) {
    forall k | k in s.edges ::
      && s.edges[k].caller == k.0
      && s.edges[k].entry == k.1
      && s.edges[k].callee in reg
      && reg[s.edges[k].callee].entry == k.1
      && 1 <= s.edges[k].count <= CountOf(s.callCounts, s.edges[k].callee)
  }

  /** Every recorded cross edge has its call link among the caller's exits. */
  ghost predicate LinksRecorded(s: Session) {
    forall k | k in s.edges :: k.0 in s.arena && CallLink(k.0, k.1) in s.arena[k.0].exits
  }

  /** Since arena `a0`, the exits of each block grew only by fresh call links
      leaving that block, each with a recorded cross edge. */
  ghost predicate ExitsGrown(a0: Arena, s: Session) {
    forall x | x in a0 ::
      && x in s.arena
      && AppendedFresh(a0[x].exits, s.arena[x].exits)
      && forall i | |a0[x].exits| <= i < |s.arena[x].exits| ::
           && s.arena[x].exits[i] == CallLink(x, s.arena[x].exits[i].target)
           && (x, s.arena[x].exits[i].target) in s.edges
  }

  /** Since arena `a0`, the predecessors of each block grew only by call links
      into that block that are also among their caller's exits. */
  ghost predicate PredsGrown(a0: Arena, s: Session) {
    forall y | y in a0 ::
      && y in s.arena
      && a0[y].predecessors <= s.arena[y].predecessors
      && forall i | |a0[y].predecessors| <= i < |s.arena[y].predecessors| ::
           var l := s.arena[y].predecessors[i];
           && l == CallLink(l.source, y)
           && (l.source, y) in s.edges
           && l.source in s.arena
           && l in s.arena[l.source].exits
  }

  ghost predicate CountsPositive(s: Session) {
    forall n | n in s.callCounts :: s.callCounts[n] > 0
  }

  /** The invariant of a merge session that started from arena `a0`. */
  ghost predicate Sound(a0: Arena, reg: Registry, s: Session) {
    && ShapeKept(a0, s.arena)
    && CountsPositive(s)
    && EdgesSound(reg, s)
    && LinksRecorded(s)
    && ExitsGrown(a0, s)
    && PredsGrown(a0, s)
  }

  /** The effect of one resolved call site of block `b` on the arena, the
      call counts and the recorded cross edges. */
  ghost predicate Resolved(reg: Registry, s: Session, s': Session, b: BlockId, name: string) {
    && b in s.arena && Covers(s.arena, reg) && name in reg
    && CountedAndRecorded(reg, s, s', b, name)
    && s'.arena == AddCallLink(s.arena, b, reg[name].entry)
  }

  /** The counter and cross-edge part of a resolved call site. */
  ghost predicate CountedAndRecorded(reg: Registry, s: Session, s': Session, b: BlockId, name: string) {
    && name in reg
    && s'.callCounts == s.callCounts[name := CountOf(s.callCounts, name) + 1]
    && (var key := (b, reg[name].entry);
        s'.edges == if key in s.edges then s.edges
                    else s.edges[key := CrossEdge(b, reg[name].entry, name, CountOf(s.callCounts, name) + 1)])
  }

  lemma ResolvedKeepsLinks(reg: Registry, s: Session, s': Session, b: BlockId, name: string)
    requires Resolved(reg, s, s', b, name) && LinksRecorded(s)
    ensures LinksRecorded(s')
  {
    var e := reg[name].entry;
    forall k | k in s'.edges
      ensures k.0 in s'.arena && CallLink(k.0, k.1) in s'.arena[k.0].exits
    {
      if k != (b, e) {
        assert CallLink(k.0, k.1) in s.arena[k.0].exits;
      }
    }
  }

  lemma ResolvedKeepsExits(a0: Arena, s: Session, s': Session, b: BlockId, e: BlockId)
    requires ExitsGrown(a0, s)
    requires (b, e) in s'.edges && s.edges.Keys <= s'.edges.Keys
    requires forall x | x in s.arena ::
      && x in s'.arena
      && s'.arena[x].exits == s.arena[x].exits + (if x == b && CallLink(b, e) !in s.arena[b].exits then [CallLink(b, e)] else [])
    ensures ExitsGrown(a0, s')
  {
    var l := CallLink(b, e);
    forall x | x in a0
      ensures x in s'.arena && AppendedFresh(a0[x].exits, s'.arena[x].exits)
      ensures forall i | |a0[x].exits| <= i < |s'.arena[x].exits| ::
           && s'.arena[x].exits[i] == CallLink(x, s'.arena[x].exits[i].target)
           && (x, s'.arena[x].exits[i].target) in s'.edges
    {
      var old_ := s.arena[x].exits;
      var new_ := s'.arena[x].exits;
      if x == b && l !in old_ {
        assert new_ == old_ + [l];
        AppendedFreshTrans(a0[x].exits, old_, new_);
        forall i | |a0[x].exits| <= i < |new_|
          ensures new_[i] == CallLink(x, new_[i].target) && (x, new_[i].target) in s'.edges
        {
          if i < |old_| {
            assert new_[i] == old_[i];
          } else {
            assert new_[i] == l;
          }
        }
      } else {
        assert new_ == old_;
      }
    }
  }

  lemma ResolvedKeepsPreds(a0: Arena, reg: Registry, s: Session, s': Session, b: BlockId, name: string)
    requires Resolved(reg, s, s', b, name) && PredsGrown(a0, s)
    ensures PredsGrown(a0, s')
  {
    forall y | y in a0
      ensures y in s'.arena && a0[y].predecessors <= s'.arena[y].predecessors
      ensures forall i | |a0[y].predecessors| <= i < |s'.arena[y].predecessors| ::
         var l := s'.arena[y].predecessors[i];
         && l == CallLink(l.source, y)
         && (l.source, y) in s'.edges
         && l.source in s'.arena
         && l in s'.arena[l.source].exits
    {
      forall i | |a0[y].predecessors| <= i < |s'.arena[y].predecessors|
        ensures var l := s'.arena[y].predecessors[i];
         && l == CallLink(l.source, y)
         && (l.source, y) in s'.edges
         && l.source in s'.arena
         && l in s'.arena[l.source].exits
      {
        var m := s'.arena[y].predecessors[i];
        if i < |s.arena[y].predecessors| {
          assert m == s.arena[y].predecessors[i];
          assert m in s.arena[m.source].exits;
        }
      }
    }
  }

  lemma ResolvedKeepsEdges(reg: Registry, s: Session, s': Session, b: BlockId, name: string)
    requires CountedAndRecorded(reg, s, s', b, name) && EdgesSound(reg, s) && CountsPositive(s)
    ensures EdgesSound(reg, s') && CountsPositive(s')
  {
    forall k | k in s'.edges
      ensures CountOf(s.callCounts, s'.edges[k].callee) <= CountOf(s'.callCounts, s'.edges[k].callee)
    {
    }
  }

  /** One resolved call site keeps the session invariant. */
  lemma ResolvedKeepsSound(a0: Arena, reg: Registry, s: Session, s': Session, b: BlockId, name: string)
    requires Sound(a0, reg, s) && Resolved(reg, s, s', b, name)
    ensures Sound(a0, reg, s')
  {
    ResolvedKeepsEdges(reg, s, s', b, name);
    ResolvedKeepsLinks(reg, s, s', b, name);
    ResolvedKeepsExits(a0, s, s', b, reg[name].entry);
    ResolvedKeepsPreds(a0, reg, s, s', b, name);
  }

  /** What one call to ResolveCall guarantees, as one fact. */
  ghost predicate CallEffect(reg: Registry, s: Session, s': Session, b: BlockId, name: string,
                             existing: set<EdgeKey>, existing': set<EdgeKey>)
  {
    && (name !in reg ==> s' == s && existing' == existing)
    && (name in reg ==> Resolved(reg, s, s', b, name))
    && DrawEffect(reg, s, s', b, name, existing, existing')
    && existing' == existing + (if name in reg then ExitKeys(s'.arena, reg[name].blocks) else {})
  }

  /** The drawing part of what one call to ResolveCall guarantees. */
  ghost predicate DrawEffect(reg: Registry, s: Session, s': Session, b: BlockId, name: string,
                             existing: set<EdgeKey>, existing': set<EdgeKey>)
  {
    && existing <= existing'
    && AppendsOnly(reg, s.graph, s'.graph)
    && (forall n :: Clusters(s'.graph, n) == Clusters(s.graph, n) + (if name in reg && n == name then 1 else 0))
    && s'.edges.Keys == s.edges.Keys + (if name in reg then {(b, reg[name].entry)} else {})
    && (forall k :: DashedCount(s'.graph, k) == DashedCount(s.graph, k) +
                    (if name in reg && k == (b, reg[name].entry) && k !in s.edges then 1 else 0))
    && (forall id :: NodeCount(s'.graph, id) == NodeCount(s.graph, id) +
                     (if name !in reg || HasNode(s.graph, id) then 0 else Occurrences(reg[name].blocks, id)))
    && (forall k :: ClusterEdgeCount(s'.graph, k) == ClusterEdgeCount(s.graph, k) +
                    (if k in existing' && k !in existing then 1 else 0))
  }

  /** Counts and cross edges after handling the call names `done` of block
      `b`, starting from session `s`. */
  ghost predicate CountsProgress(reg: Registry, s: Session, b: BlockId, done: seq<string>, cur: Session) {
    && (forall n :: CountOf(cur.callCounts, n) ==
                    CountOf(s.callCounts, n) + (if n in reg then Occurrences(done, n) else 0))
    && (forall k | k in s.edges :: k in cur.edges && cur.edges[k] == s.edges[k])
    && cur.edges.Keys == s.edges.Keys + CallKeys(reg, b, done)
  }

  /** Links after handling the call names `done` of block `b`. */
  ghost predicate LinksProgress(reg: Registry, s: Session, b: BlockId, done: seq<string>, cur: Session) {
    && b in s.arena
    && ShapeKept(s.arena, cur.arena)
    && (forall x | x in s.arena && x != b :: cur.arena[x].exits == s.arena[x].exits)
    && AppendedFresh(s.arena[b].exits, cur.arena[b].exits)
    && ExitsExtend(s.arena, cur.arena)
    && (forall k | k in CallKeys(reg, b, done) :: CallLink(b, k.1) in cur.arena[b].exits)
  }

  /** The clusters drawn after handling the call names `done` of a block:
      exactly the blocks of the resolved callees gained nodes, and the drawn
      cluster edge keys `existing` lie between the resolved callees' exit keys
      read before the block and read now. */
  ghost predicate ClustersProgress(reg: Registry, s: Session, done: seq<string>, cur: Session, existing: set<EdgeKey>) {
    && (forall id :: HasNode(cur.graph, id) <==> HasNode(s.graph, id) || InCallee(reg, done, id))
    && CalleeExitKeys(s.arena, reg, done) <= existing <= CalleeExitKeys(cur.arena, reg, done)
    && (forall n :: Clusters(cur.graph, n) == Clusters(s.graph, n) + (if n in reg then Occurrences(done, n) else 0))
  }

  /** The drawing after handling some call names of a block, `existing`
      holding the cluster edge keys drawn meanwhile. */
  ghost predicate GraphProgress(reg: Registry, s: Session, cur: Session, existing: set<EdgeKey>) {
    && AppendsOnly(reg, s.graph, cur.graph)
    && (forall k :: DashedCount(cur.graph, k) == DashedCount(s.graph, k) + (if k in cur.edges && k !in s.edges then 1 else 0))
    && (forall k :: ClusterEdgeCount(cur.graph, k) == ClusterEdgeCount(s.graph, k) + (if k in existing then 1 else 0))
    && (forall id | HasNode(s.graph, id) :: NodeCount(cur.graph, id) == NodeCount(s.graph, id))
    && (NodesUnique(s.graph) && DistinctBlocks(reg) ==> NodesUnique(cur.graph))
  }

  /** The state of MergeBlock after handling the call names `done` of block
      `b`, starting from session `s`. */
  ghost predicate BlockProgress(reg: Registry, s: Session, b: BlockId, done: seq<string>,
                                cur: Session, existing: set<EdgeKey>)
  {
    && b in s.arena && Covers(s.arena, reg)
    && CountsProgress(reg, s, b, done, cur)
    && LinksProgress(reg, s, b, done, cur)
    && GraphProgress(reg, s, cur, existing)
    && ClustersProgress(reg, s, done, cur, existing)
  }

  lemma BlockProgressStart(reg: Registry, s: Session, b: BlockId)
    requires b in s.arena && Covers(s.arena, reg)
    ensures BlockProgress(reg, s, b, [], s, {})
  {
  }

  lemma CountsStep(reg: Registry, s: Session, b: BlockId, done: seq<string>, name: string, cur: Session, next: Session)
    requires CountsProgress(reg, s, b, done, cur)
    requires name !in reg ==> next.callCounts == cur.callCounts && next.edges == cur.edges
    requires name in reg ==> CountedAndRecorded(reg, cur, next, b, name)
    ensures CountsProgress(reg, s, b, done + [name], next)
  {
    var done' := done + [name];
    assert done'[..|done|] == done;
    TallyStep(reg, s.callCounts, done, name, cur.callCounts, next.callCounts);
    CrossStep(reg, b, s.edges, done, name, cur.edges, next.edges);
  }

  lemma CrossStep(reg: Registry, b: BlockId, edges0: map<EdgeKey, CrossEdge>, done: seq<string>, name: string,
                  edges: map<EdgeKey, CrossEdge>, edges': map<EdgeKey, CrossEdge>)
    requires forall k | k in edges0 :: k in edges && edges[k] == edges0[k]
    requires edges.Keys == edges0.Keys + CallKeys(reg, b, done)
    requires name !in reg ==> edges' == edges
    requires name in reg ==> edges'.Keys == edges.Keys + {(b, reg[name].entry)}
    requires forall k | k in edges :: k in edges' && edges'[k] == edges[k]
    ensures forall k | k in edges0 :: k in edges' && edges'[k] == edges0[k]
    ensures edges'.Keys == edges0.Keys + CallKeys(reg, b, done + [name])
  {
    assert (done + [name])[..|done|] == done;
  }

  lemma TallyStep(reg: Registry, counts0: map<string, nat>, done: seq<string>, name: string,
                  counts: map<string, nat>, counts': map<string, nat>)
    requires forall n :: CountOf(counts, n) == CountOf(counts0, n) + (if n in reg then Occurrences(done, n) else 0)
    requires counts' == if name in reg then counts[name := CountOf(counts, name) + 1] else counts
    ensures forall n :: CountOf(counts', n) == CountOf(counts0, n) + (if n in reg then Occurrences(done + [name], n) else 0)
  {
    forall n
      ensures CountOf(counts', n) == CountOf(counts0, n) + (if n in reg then Occurrences(done + [name], n) else 0)
    {
      assert (done + [name])[..|done|] == done;
      assert Occurrences(done + [name], n) == Occurrences(done, n) + (if name == n then 1 else 0);
    }
  }

  lemma LinksStep(reg: Registry, s: Session, b: BlockId, done: seq<string>, name: string,
                  cur: Session, next: Session, existing: set<EdgeKey>, existing': set<EdgeKey>)
    requires LinksProgress(reg, s, b, done, cur)
    requires CallEffect(reg, cur, next, b, name, existing, existing')
    ensures LinksProgress(reg, s, b, done + [name], next)
  {
    var done' := done + [name];
    assert done'[..|done|] == done;
    if name in reg {
      AddCallLinkExtends(cur.arena, b, reg[name].entry);
      ExitsExtendTrans(s.arena, cur.arena, next.arena);
      AppendedFreshTrans(s.arena[b].exits, cur.arena[b].exits, next.arena[b].exits);
      forall k | k in CallKeys(reg, b, done')
        ensures CallLink(b, k.1) in next.arena[b].exits
      {
        if k in CallKeys(reg, b, done) {
          assert CallLink(b, k.1) in cur.arena[b].exits;
        }
      }
    }
  }

  lemma GraphStep(reg: Registry, s: Session, b: BlockId, name: string,
                  cur: Session, next: Session, existing: set<EdgeKey>, existing': set<EdgeKey>)
    requires GraphProgress(reg, s, cur, existing)
    requires s.edges.Keys <= cur.edges.Keys
    requires DrawEffect(reg, cur, next, b, name, existing, existing')
    ensures GraphProgress(reg, s, next, existing')
  {
    AppendsOnlyTrans(reg, s.graph, cur.graph, next.graph);
    if NodesUnique(s.graph) && DistinctBlocks(reg) {
      UniqueStep(reg, name, cur.graph, next.graph);
    }
  }

  lemma UniqueStep(reg: Registry, name: string, graph: seq<Op>, graph': seq<Op>)
    requires NodesUnique(graph) && DistinctBlocks(reg)
    requires forall id :: NodeCount(graph', id) == NodeCount(graph, id) +
                          (if name !in reg || HasNode(graph, id) then 0 else Occurrences(reg[name].blocks, id))
    ensures NodesUnique(graph')
  {
    if name in reg {
      forall id
        ensures NodeCount(graph', id) <= 1
      {
        DistinctOccursOnce(reg[name].blocks, id);
      }
    }
  }

  lemma ExitsExtendTrans(a: Arena, a': Arena, a'': Arena)
    requires ExitsExtend(a, a') && ExitsExtend(a', a'')
    ensures ExitsExtend(a, a'')
  {
    forall x
      ensures ExitsOf(a, x) <= ExitsOf(a'', x)
    {
      assert ExitsOf(a, x) <= ExitsOf(a', x);
    }
  }

  lemma ClustersStep(reg: Registry, s: Session, done: seq<string>, name: string,
                     cur: Session, next: Session, existing: set<EdgeKey>, existing': set<EdgeKey>)
    requires ClustersProgress(reg, s, done, cur, existing)
    requires ExitsExtend(s.arena, next.arena) && ExitsExtend(cur.arena, next.arena)
    requires forall id :: NodeCount(next.graph, id) == NodeCount(cur.graph, id) +
                          (if name !in reg || HasNode(cur.graph, id) then 0 else Occurrences(reg[name].blocks, id))
    requires existing' == existing + (if name in reg then ExitKeys(next.arena, reg[name].blocks) else {})
    requires forall n :: Clusters(next.graph, n) == Clusters(cur.graph, n) + (if name in reg && n == name then 1 else 0)
    ensures ClustersProgress(reg, s, done + [name], next, existing')
  {
    ClusterTallyStep(reg, s.graph, done, name, cur.graph, next.graph);
    var done' := done + [name];
    assert done'[..|done|] == done;
    CalleeExitKeysGrow(cur.arena, next.arena, reg, done);
    if name in reg {
      ExitKeysGrow(s.arena, next.arena, reg[name].blocks);
    }
    forall id
      ensures HasNode(next.graph, id) <==> HasNode(s.graph, id) || InCallee(reg, done', id)
    {
      if name in reg && !HasNode(cur.graph, id) {
        assert NodeCount(next.graph, id) == Occurrences(reg[name].blocks, id);
      }
    }
  }

  lemma ClusterTallyStep(reg: Registry, log0: seq<Op>, done: seq<string>, name: string, log: seq<Op>, log': seq<Op>)
    requires forall n :: Clusters(log, n) == Clusters(log0, n) + (if n in reg then Occurrences(done, n) else 0)
    requires forall n :: Clusters(log', n) == Clusters(log, n) + (if name in reg && n == name then 1 else 0)
    ensures forall n :: Clusters(log', n) == Clusters(log0, n) + (if n in reg then Occurrences(done + [name], n) else 0)
  {
    forall n
      ensures Clusters(log', n) == Clusters(log0, n) + (if n in reg then Occurrences(done + [name], n) else 0)
    {
      assert (done + [name])[..|done|] == done;
      assert Occurrences(done + [name], n) == Occurrences(done, n) + (if name == n then 1 else 0);
    }
  }

  lemma BlockProgressStep(reg: Registry, s: Session, b: BlockId, done: seq<string>, name: string,
                          cur: Session, next: Session, existing: set<EdgeKey>, existing': set<EdgeKey>)
    requires BlockProgress(reg, s, b, done, cur, existing)
    requires CallEffect(reg, cur, next, b, name, existing, existing')
    ensures BlockProgress(reg, s, b, done + [name], next, existing')
  {
    CountsStep(reg, s, b, done, name, cur, next);
    LinksStep(reg, s, b, done, name, cur, next, existing, existing');
    GraphStep(reg, s, b, name, cur, next, existing, existing');
    if name in reg {
      AddCallLinkExtends(cur.arena, b, reg[name].entry);
    }
    ClustersStep(reg, s, done, name, cur, next, existing, existing');
  }

  /** ResolveCall, with its guarantee packed as one fact. */
  method ResolveStep(s: Session, reg: Registry, b: BlockId, name: string, existing: set<EdgeKey>)
    returns (s': Session, existing': set<EdgeKey>)
    requires b in s.arena && Covers(s.arena, reg)
    ensures CallEffect(reg, s, s', b, name, existing, existing')
  {
    s', existing' := ResolveCall(s, reg, b, name, existing);
  }

  /** Handles every call site of caller block `b`, in order, with a fresh set
      of drawn cluster edges; returns that set. `a0` is the arena the whole
      merge started from. */
  method MergeBlock(s: Session, reg: Registry, b: BlockId, ghost a0: Arena)
    returns (s': Session, existing: set<EdgeKey>)
    requires b in s.arena && Covers(s.arena, reg)
    ensures BlockProgress(reg, s, b, s.arena[b].calls, s', existing)
    ensures Sound(a0, reg, s) ==> Sound(a0, reg, s')
  {
    var calls := s.arena[b].calls;
    s' := s;
    existing := {};
    BlockProgressStart(reg, s, b);
    for j := 0 to |calls|
      invariant BlockProgress(reg, s, b, calls[..j], s', existing)
      invariant Sound(a0, reg, s) ==> Sound(a0, reg, s')
    {
      ghost var prev := s';
      ghost var prevExisting := existing;
      s', existing := ResolveStep(s', reg, b, calls[j], existing);
      assert calls[..j + 1] == calls[..j] + [calls[j]];
      BlockProgressStep(reg, s, b, calls[..j], calls[j], prev, s', prevExisting, existing);
      if calls[j] in reg && Sound(a0, reg, s) {
        ResolvedKeepsSound(a0, reg, prev, s', b, calls[j]);
      }
    }
    assert calls[..|calls|] == calls;
  }

  /** Reference count: the call sites naming `n` across the blocks `bs`. */
  function CallsTo(a: Arena, bs: seq<BlockId>, n: string): nat
  {
    if bs == [] then 0
    else CallsTo(a, bs[..|bs| - 1], n) + Occurrences(CallsOf(a, bs[|bs| - 1]), n)
  }

  /** Reference key set: the cross edges the call sites of the blocks `bs`
      resolve to. */
  function CrossKeys(a: Arena, reg: Registry, bs: seq<BlockId>): set<EdgeKey>
  {
    if bs == [] then {}
    else CrossKeys(a, reg, bs[..|bs| - 1]) + CallKeys(reg, bs[|bs| - 1], CallsOf(a, bs[|bs| - 1]))
  }

  /** Reference: `id` is a block of some registered callee called from the
      blocks `bs`, that is, a block whose cluster the walk draws. */
  predicate InCalled(a: Arena, reg: Registry, bs: seq<BlockId>, id: BlockId)
  {
    if bs == [] then false
    else InCalled(a, reg, bs[..|bs| - 1], id) || InCallee(reg, CallsOf(a, bs[|bs| - 1]), id)
  }

  /** Reference count: how many of the caller blocks `bs` (calls read in
      `a0`) resolve some callee that has an exit keyed `k` in arena `a`. The
      walk draws a cluster edge once per such caller block, as the drawn-edge
      set is reset for every caller block. */
  function ClusterHits(a0: Arena, a: Arena, reg: Registry, bs: seq<BlockId>, k: EdgeKey): nat
  {
    if bs == [] then 0
    else ClusterHits(a0, a, reg, bs[..|bs| - 1], k) +
         (if k in CalleeExitKeys(a, reg, CallsOf(a0, bs[|bs| - 1])) then 1 else 0)
  }

  lemma {:induction false} ClusterHitsGrow(a0: Arena, a: Arena, a': Arena, reg: Registry, bs: seq<BlockId>, k: EdgeKey)
    requires ExitsExtend(a, a')
    ensures ClusterHits(a0, a, reg, bs, k) <= ClusterHits(a0, a', reg, bs, k)
    decreases |bs|
  {
    if bs != [] {
      ClusterHitsGrow(a0, a, a', reg, bs[..|bs| - 1], k);
      CalleeExitKeysGrow(a, a', reg, CallsOf(a0, bs[|bs| - 1]));
    }
  }

  /** The clusters drawn after walking the caller blocks `bs` from the
      drawing `base`: exactly the called blocks gained nodes, and each key's
      cluster edges number between its hits with the callees' exits as they
      were at the start and as they are now. */
  ghost predicate ClustersDrawn(a0: Arena, base: seq<Op>, reg: Registry, bs: seq<BlockId>, s: Session) {
    && ExitsExtend(a0, s.arena)
    && NodesDrawn(a0, base, reg, bs, s.graph)
    && EdgesDrawn(a0, base, reg, bs, s.arena, s.graph)
    && ClustersTallied(a0, base, reg, bs, s.graph)
  }

  /** One cluster per call site of the blocks `bs` that names a registered callee. */
  ghost predicate ClustersTallied(a0: Arena, base: seq<Op>, reg: Registry, bs: seq<BlockId>, graph: seq<Op>) {
    forall n :: Clusters(graph, n) == Clusters(base, n) + (if n in reg then CallsTo(a0, bs, n) else 0)
  }

  lemma TalliedStep(a0: Arena, base: seq<Op>, reg: Registry, bs: seq<BlockId>, b: BlockId,
                    graph: seq<Op>, graph': seq<Op>)
    requires ClustersTallied(a0, base, reg, bs, graph)
    requires forall n :: Clusters(graph', n) == Clusters(graph, n) + (if n in reg then Occurrences(CallsOf(a0, b), n) else 0)
    ensures ClustersTallied(a0, base, reg, bs + [b], graph')
  {
    assert (bs + [b])[..|bs|] == bs;
  }

  ghost predicate NodesDrawn(a0: Arena, base: seq<Op>, reg: Registry, bs: seq<BlockId>, graph: seq<Op>) {
    forall id :: HasNode(graph, id) <==> HasNode(base, id) || InCalled(a0, reg, bs, id)
  }

  ghost predicate EdgesDrawn(a0: Arena, base: seq<Op>, reg: Registry, bs: seq<BlockId>, a: Arena, graph: seq<Op>) {
    && (forall k :: ClusterEdgeCount(base, k) + ClusterHits(a0, a0, reg, bs, k) <= ClusterEdgeCount(graph, k))
    && (forall k :: ClusterEdgeCount(graph, k) <= ClusterEdgeCount(base, k) + ClusterHits(a0, a, reg, bs, k))
  }

  lemma NodesDrawnStep(a0: Arena, base: seq<Op>, reg: Registry, bs: seq<BlockId>, b: BlockId,
                       graph: seq<Op>, graph': seq<Op>)
    requires NodesDrawn(a0, base, reg, bs, graph)
    requires forall id :: HasNode(graph', id) <==> HasNode(graph, id) || InCallee(reg, CallsOf(a0, b), id)
    ensures NodesDrawn(a0, base, reg, bs + [b], graph')
  {
    assert (bs + [b])[..|bs|] == bs;
  }

  lemma EdgesDrawnStep(a0: Arena, base: seq<Op>, reg: Registry, bs: seq<BlockId>, b: BlockId,
                       a: Arena, a': Arena, graph: seq<Op>, graph': seq<Op>, existing: set<EdgeKey>)
    requires ExitsExtend(a0, a) && ExitsExtend(a, a')
    requires EdgesDrawn(a0, base, reg, bs, a, graph)
    requires forall k :: ClusterEdgeCount(graph', k) == ClusterEdgeCount(graph, k) + (if k in existing then 1 else 0)
    requires CalleeExitKeys(a, reg, CallsOf(a0, b)) <= existing <= CalleeExitKeys(a', reg, CallsOf(a0, b))
    ensures EdgesDrawn(a0, base, reg, bs + [b], a', graph')
  {
    assert (bs + [b])[..|bs|] == bs;
    CalleeExitKeysGrow(a0, a, reg, CallsOf(a0, b));
    forall k
      ensures ClusterEdgeCount(graph', k) <= ClusterEdgeCount(base, k) + ClusterHits(a0, a', reg, bs + [b], k)
    {
      ClusterHitsGrow(a0, a, a', reg, bs, k);
    }
  }

  lemma ClustersDrawnStep(a0: Arena, base: seq<Op>, reg: Registry, g: FunctionCfg, i: nat,
                          s: Session, s': Session, existing: set<EdgeKey>)
    requires i < |g.blocks| && g.blocks[i] in a0 && ShapeKept(a0, s.arena)
    requires ClustersDrawn(a0, base, reg, g.blocks[..i], s)
    requires LinksProgress(reg, s, g.blocks[i], s.arena[g.blocks[i]].calls, s')
    requires GraphProgress(reg, s, s', existing)
    requires ClustersProgress(reg, s, s.arena[g.blocks[i]].calls, s', existing)
    ensures ClustersDrawn(a0, base, reg, g.blocks[..i + 1], s')
  {
    var b := g.blocks[i];
    assert g.blocks[..i + 1] == g.blocks[..i] + [b];
    assert CallsOf(a0, b) == s.arena[b].calls;
    ExitsExtendTrans(a0, s.arena, s'.arena);
    NodesDrawnStep(a0, base, reg, g.blocks[..i], b, s.graph, s'.graph);
    EdgesDrawnStep(a0, base, reg, g.blocks[..i], b, s.arena, s'.arena, s.graph, s'.graph, existing);
    TalliedStep(a0, base, reg, g.blocks[..i], b, s.graph, s'.graph);
  }

  /** The outcome of merging one target function: the registry used, the
      target's CFG and the final session. */
  datatype Merged = Merged(registry: Registry, target: FunctionCfg, session: Session)

  /** The merge loop's state after the first `done` blocks of the target. */
  ghost predicate MergeProgress(a0: Arena, base: seq<Op>, reg: Registry, g: FunctionCfg, done: nat, s: Session) {
    && Within(a0, g) && Covers(a0, reg) && done <= |g.blocks|
    && WalkCounts(a0, reg, g.blocks[..done], s)
    && WalkGraph(base, reg, s)
  }

  /** Counts and recorded keys after walking the caller blocks `bs`. */
  ghost predicate WalkCounts(a0: Arena, reg: Registry, bs: seq<BlockId>, s: Session) {
    && (forall n :: CountOf(s.callCounts, n) == (if n in reg then CallsTo(a0, bs, n) else 0))
    && s.edges.Keys == CrossKeys(a0, reg, bs)
  }

  /** The drawing after some blocks of the walk from `base`: one dashed edge
      per recorded key, and nodes drawn before are not drawn again. */
  ghost predicate WalkGraph(base: seq<Op>, reg: Registry, s: Session) {
    && AppendsOnly(reg, base, s.graph)
    && (forall k :: DashedCount(s.graph, k) == DashedCount(base, k) + (if k in s.edges then 1 else 0))
    && (forall id | HasNode(base, id) :: NodeCount(s.graph, id) == NodeCount(base, id))
    && (NodesUnique(base) && DistinctBlocks(reg) ==> NodesUnique(s.graph))
  }

  lemma MergeCountsStep(a0: Arena, reg: Registry, g: FunctionCfg, i: nat, s: Session, s': Session,
                        existing: set<EdgeKey>)
    requires i < |g.blocks| && g.blocks[i] in a0 && ShapeKept(a0, s.arena)
    requires WalkCounts(a0, reg, g.blocks[..i], s)
    requires CountsProgress(reg, s, g.blocks[i], s.arena[g.blocks[i]].calls, s')
    ensures WalkCounts(a0, reg, g.blocks[..i + 1], s')
  {
    assert g.blocks[..i + 1][..i] == g.blocks[..i];
    assert CallsOf(a0, g.blocks[i]) == s.arena[g.blocks[i]].calls;
  }

  lemma MergeGraphStep(base: seq<Op>, reg: Registry, s: Session, b: BlockId, calls: seq<string>,
                       s': Session, existing: set<EdgeKey>)
    requires WalkGraph(base, reg, s)
    requires BlockProgress(reg, s, b, calls, s', existing)
    ensures WalkGraph(base, reg, s')
  {
    AppendsOnlyTrans(reg, base, s.graph, s'.graph);
    forall id | HasNode(base, id)
      ensures NodeCount(s'.graph, id) == NodeCount(base, id)
    {
      assert HasNode(s.graph, id);
    }
  }

  lemma WalkCountsDone(a0: Arena, reg: Registry, bs: seq<BlockId>, s: Session)
    requires WalkCounts(a0, reg, bs, s) && CountsPositive(s)
    ensures forall n :: n in s.callCounts <==> n in reg && CallsTo(a0, bs, n) > 0
    ensures forall n | n in s.callCounts :: s.callCounts[n] == CallsTo(a0, bs, n)
    ensures s.edges.Keys == CrossKeys(a0, reg, bs)
  {
    forall n
      ensures n in s.callCounts <==> n in reg && CallsTo(a0, bs, n) > 0
    {
      assert CountOf(s.callCounts, n) == (if n in reg then CallsTo(a0, bs, n) else 0);
    }
  }

  /** Handles the call sites of the target's `i`-th block. */
  method WalkBlock(reg: Registry, g: FunctionCfg, a0: Arena, base: seq<Op>, i: nat, s: Session)
    returns (s': Session)
    requires MergeProgress(a0, base, reg, g, i, s) && i < |g.blocks|
    requires Sound(a0, reg, s) && ClustersDrawn(a0, base, reg, g.blocks[..i], s)
    ensures MergeProgress(a0, base, reg, g, i + 1, s')
    ensures Sound(a0, reg, s') && ClustersDrawn(a0, base, reg, g.blocks[..i + 1], s')
  {
    var existing;
    s', existing := MergeBlock(s, reg, g.blocks[i], a0);
    MergeCountsStep(a0, reg, g, i, s, s', existing);
    MergeGraphStep(base, reg, s, g.blocks[i], s.arena[g.blocks[i]].calls, s', existing);
    ClustersDrawnStep(a0, base, reg, g, i, s, s', existing);
  }

  /** Walks the target's blocks in order, handling each block's call sites
      (lines 63-106); `base` is the target's own drawing. */
  method WalkTarget(reg: Registry, g: FunctionCfg, arena: Arena, base: seq<Op>) returns (s: Session)
    requires Within(arena, g) && Covers(arena, reg)
    ensures Sound(arena, reg, s)
    ensures forall n :: n in s.callCounts <==> n in reg && CallsTo(arena, g.blocks, n) > 0
    ensures forall n | n in s.callCounts :: s.callCounts[n] == CallsTo(arena, g.blocks, n)
    ensures s.edges.Keys == CrossKeys(arena, reg, g.blocks)
    ensures base <= s.graph
    ensures forall k :: DashedCount(s.graph, k) == DashedCount(base, k) + (if k in s.edges then 1 else 0)
    ensures forall id | HasNode(base, id) :: NodeCount(s.graph, id) == NodeCount(base, id)
    ensures NodesUnique(base) && DistinctBlocks(reg) ==> NodesUnique(s.graph)
    ensures forall id :: HasNode(s.graph, id) <==> HasNode(base, id) || InCalled(arena, reg, g.blocks, id)
    ensures forall k :: ClusterEdgeCount(base, k) + ClusterHits(arena, arena, reg, g.blocks, k) <= ClusterEdgeCount(s.graph, k)
    ensures forall k :: ClusterEdgeCount(s.graph, k) <= ClusterEdgeCount(base, k) + ClusterHits(arena, s.arena, reg, g.blocks, k)
    ensures forall n :: Clusters(s.graph, n) == Clusters(base, n) + (if n in reg then CallsTo(arena, g.blocks, n) else 0)
    ensures AppendsOnly(reg, base, s.graph)
  {
    s := Session(arena, map[], map[], base);
    WalkStart(reg, g, arena, base);
    for i := 0 to |g.blocks|
      invariant MergeProgress(arena, base, reg, g, i, s)
      invariant Sound(arena, reg, s)
      invariant ClustersDrawn(arena, base, reg, g.blocks[..i], s)
    {
      s := WalkBlock(reg, g, arena, base, i, s);
    }
    assert g.blocks[..|g.blocks|] == g.blocks;
    WalkCountsDone(arena, reg, g.blocks, s);
  }

  lemma WalkStart(reg: Registry, g: FunctionCfg, arena: Arena, base: seq<Op>)
    requires Within(arena, g) && Covers(arena, reg)
    ensures MergeProgress(arena, base, reg, g, 0, Session(arena, map[], map[], base))
    ensures Sound(arena, reg, Session(arena, map[], map[], base))
    ensures ClustersDrawn(arena, base, reg, g.blocks[..0], Session(arena, map[], map[], base))
  {
    assert g.blocks[..0] == [];
  }

  /** Merges the target function named `targetName` (lines 43-106): builds
      the registry from the builder's items and, when the target is
      registered, walks its blocks. Nothing is merged or drawn otherwise. */
  method GenerateCfg(entries: seq<Registered>, targetName: string, arena: Arena, base: seq<Op>)
    returns (r: Option<Merged>)
    requires forall i | 0 <= i < |entries| :: Within(arena, entries[i].cfg)
    ensures r.None? <==> forall i | 0 <= i < |entries| :: entries[i].name != targetName
    ensures r.Some? ==> Some(r.value.target) == LastNamed(entries, targetName)
    ensures r.Some? ==> forall n :: n in r.value.registry <==> exists i | 0 <= i < |entries| :: entries[i].name == n
    ensures r.Some? ==> forall n | n in r.value.registry :: Some(r.value.registry[n]) == LastNamed(entries, n)
    ensures r.Some? ==> Within(arena, r.value.target) && Covers(arena, r.value.registry)
    ensures r.Some? ==> Sound(arena, r.value.registry, r.value.session)
    ensures r.Some? ==> forall n ::
      n in r.value.session.callCounts <==>
      n in r.value.registry && CallsTo(arena, r.value.target.blocks, n) > 0
    ensures r.Some? ==> forall n | n in r.value.session.callCounts ::
      r.value.session.callCounts[n] == CallsTo(arena, r.value.target.blocks, n)
    ensures r.Some? ==> r.value.session.edges.Keys == CrossKeys(arena, r.value.registry, r.value.target.blocks)
    ensures r.Some? ==> base <= r.value.session.graph
    ensures r.Some? ==> forall k ::
      DashedCount(r.value.session.graph, k) == DashedCount(base, k) + (if k in r.value.session.edges then 1 else 0)
    ensures r.Some? ==> forall id | HasNode(base, id) :: NodeCount(r.value.session.graph, id) == NodeCount(base, id)
    ensures r.Some? ==> NodesUnique(base) && DistinctBlocks(r.value.registry) ==> NodesUnique(r.value.session.graph)
    ensures r.Some? ==> forall id ::
      HasNode(r.value.session.graph, id) <==>
      HasNode(base, id) || InCalled(arena, r.value.registry, r.value.target.blocks, id)
    ensures r.Some? ==> forall k ::
      ClusterEdgeCount(base, k) + ClusterHits(arena, arena, r.value.registry, r.value.target.blocks, k)
      <= ClusterEdgeCount(r.value.session.graph, k)
    ensures r.Some? ==> forall k ::
      ClusterEdgeCount(r.value.session.graph, k)
      <= ClusterEdgeCount(base, k) + ClusterHits(arena, r.value.session.arena, r.value.registry, r.value.target.blocks, k)
    ensures r.Some? ==> forall n ::
      Clusters(r.value.session.graph, n) ==
      Clusters(base, n) + (if n in r.value.registry then CallsTo(arena, r.value.target.blocks, n) else 0)
    ensures r.Some? ==> AppendsOnly(r.value.registry, base, r.value.session.graph)
  {
    var reg, target := Build(entries, targetName);
    if target.None? {
      return None;
    }
    var g := target.value;
    LastNamedIsEntry(entries, targetName);
    forall n | n in reg
      ensures Within(arena, reg[n])
    {
      LastNamedIsEntry(entries, n);
    }
    var s := WalkTarget(reg, g, arena, base);
    r := Some(Merged(reg, g, s));
  }
}
