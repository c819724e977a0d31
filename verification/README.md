# Interprocedural CFG merge — a Dafny model

This project models the core of `generate_cfg` in `iCFG/gene_cfg.py`. For one
target function it stitches the separately built control-flow graphs (CFGs)
of the functions it calls into a single Graphviz drawing:

1. It builds a registry from bare function name to CFG. A later definition of
   a name replaces an earlier one. It also picks out the target's CFG. If
   there is none, nothing is merged or drawn.
2. It walks the target's blocks and resolves each recorded call site by bare
   name. A name that is not registered (a built-in, a library call) is skipped.
3. Each resolved call bumps a per-callee call counter. The first time a
   `(caller block, callee entry block)` key is seen, it draws one dashed
   "calls f" edge and records the edge, together with the counter's value at
   that moment.
4. It adds a link from the caller block to the callee's entry block. The link
   goes into the caller's exits and the entry's predecessors together, and is
   skipped if the caller already has it.
5. It draws the callee's cluster. A block becomes a node only if the drawing
   has no node with its id yet. An exit edge is drawn only if its
   `(source, target)` key has not been drawn while handling the same caller
   block.

Also modelled is the path filter `invalid_files_check`. It keeps a path
unless the path contains `__init__` or `exception`.

Modules, one per file:

- `wrappers.dfy` has `Option`.
- `cfg.dfy` is the data model. Blocks live in an arena keyed by block id. A
  `Link` is a `(source, target, exit case)` value. `AppendedFresh` describes
  a sequence that grew only by guarded appends.
- `render.dfy` models the drawing as an append-only log of operations. An
  operation is a top-level node or edge, or a whole subgraph. The module also
  has counting functions: nodes per id, dashed edges per key, and cluster
  edges per key.
- `registry.dfy` is the registry (lines 54-57), with the reference
  definition `LastNamed`.
- `merge.dfy` is the merge (lines 60-106). It has one method per level: an
  exit, a block of a cluster, a cluster, a call site, a caller block, the
  whole walk, and the whole merge of one target. The merge-session invariant
  is `Sound`. The reference definitions of what the clusters hold are
  `InCallee` and `CalleeExitKeys` (per caller block) and `InCalled` and
  `ClusterHits` (per walk). `Clusters` counts the clusters drawn for one
  callee, and `MergeOp` says which operations the merge may append: a dashed
  cross edge, or the `cluster_<name>` subgraph of a registered callee.
- `file_filter.dfy` is the path filter (lines 151-156).
- `example.dfy` is a worked example proved on concrete data. Block 1 of function A calls
  B twice and the unregistered `print` once. The result is one cross edge,
  a counter of 2 for B, and no counter for `print`.

In these places the model follows the code as written:

- The callee's cluster is drawn once per resolved call site, not once per
  callee (line 94 is inside the call loop). Duplicate nodes are still avoided
  by the node guard.
- The set of drawn cluster edges is reset for every caller block (line 64).
  So the same intraprocedural edge of a callee is drawn again when a second
  caller block calls that callee. Its key is unique only within one caller
  block's iteration.
- A repeated call with an already recorded key leaves the recorded edge
  untouched. Only the per-name counter grows. The stored count is the
  counter's value when the edge was first recorded. The comment at line 80
  speaks of updating the edge's label when the key exists, but lines 81-85
  only act when the key is new.
- The code is not recursive. Only the target's own blocks are walked.

## Model

| member | source | states |
|---|---|---|
| Registry.Build | iCFG/gene_cfg.py:54-57 | A name is registered iff some builder item carries it. It maps to the CFG of the last item with that name (the reference `LastNamed`). The target CFG is found iff some item is named like the target, and it is the last such item's CFG. |
| Registry.LastNamedFound | iCFG/gene_cfg.py:54-57 | The last-wins lookup succeeds exactly when some item has the name. It then returns the CFG of an item with that name after which no item has the name. |
| Merge.GenerateCfg | iCFG/gene_cfg.py:45-106 | No result iff no item is named like the target. Otherwise: the final call counts equal the reference count of call sites per registered name over the target's blocks, with no entry for unregistered or never-called names. The recorded edge keys are exactly the reference set of (caller, callee entry) pairs. Each recorded key is drawn as exactly one dashed edge. An id has a node at the end iff it had one in the target's own drawing or it is a block of a registered callee of some target block (reference `InCalled`). A node already drawn is never drawn again. If the target's own drawing has unique nodes and no registered function's block list repeats a block (`DistinctBlocks`), the nodes stay unique. Each key's cluster edges number at least its `ClusterHits` with the callees' exits at the start and at most its `ClusterHits` with the exits at the end: one per target block that calls a callee with that exit. Each callee gets exactly one `cluster_<name>` subgraph per call site naming it, and every operation appended after the target's own drawing is a dashed cross edge or such a cluster (`MergeOp`). The session invariant `Sound` holds. |
| Merge.WalkTarget | iCFG/gene_cfg.py:63-106 | The same guarantees for the walk over the target's blocks, starting from empty counters, no recorded edges and the target's own drawing: counts and recorded keys against `CallsTo` and `CrossKeys`, one dashed edge per key, nodes iff drawn before or in a called callee (`InCalled`), and cluster edges per key between `ClusterHits` with the callees' exits at the start and at the end. The two bounds differ only when the walk adds a call link to a block that is also a callee's block. The clusters per callee equal its call sites over the target's blocks (`CallsTo`), and nothing but dashed cross edges and registered callees' clusters is appended. |
| Merge.MergeBlock | iCFG/gene_cfg.py:63-106 | For one caller block: counts grow by the number of the block's call sites per registered name. Recorded edges are never overwritten, and the new keys are exactly those the block's calls resolve to. Only this block's exits change; they grow by fresh links, gain the link for every new key, and never lose one. One dashed edge is drawn per new key. An id has a node afterwards iff it had one before or it is a block of a registered callee among the block's calls (reference `InCallee`). Each cluster edge key is drawn once if it is in the returned set and never otherwise. That set contains every exit key of those callees' blocks as they were before the block, and lies within their exit keys afterwards (reference `CalleeExitKeys`). Existing nodes are not redrawn. If the nodes were unique and no registered function's block list repeats a block (`DistinctBlocks`), they stay unique. Each registered callee gets one cluster per call site in the block naming it, and only dashed edges and clusters of registered callees are appended. The session invariant is preserved. |
| Merge.ResolveCall | iCFG/gene_cfg.py:66-106 | An unregistered name changes nothing: counters, records, links, drawing and drawn-edge set are all unchanged. A registered name raises its counter by exactly 1, starting from 0. It records the edge with that new counter value only if the key is absent, else keeps the old record. It adds the call link. The drawing grows by exactly the dashed `calls <name>` edge (only for a new key) followed by one subgraph named `cluster_<name>` with label `<name> function`, whose nodes carry their block's source text and whose edges are solid and leave the callee's blocks. That cluster's new nodes are the callee blocks with no node yet, and its edges are exactly the newly seen exit keys. |
| Merge.RecordCall | iCFG/gene_cfg.py:73-91 | For a registered callee: the counter and record change as above, the arena gains the call link, and the drawing grows by exactly the dashed edge when the key is new; no node, cluster edge or cluster is drawn. |
| Merge.AppendCluster | iCFG/gene_cfg.py:94-106 | Appends exactly one subgraph, `cluster_<name>` labelled `<name> function`, with source-labelled nodes for the callee blocks not drawn yet and one solid edge per newly seen exit key. The cluster count of that callee grows by one and of no other name, and no dashed edge is drawn. |
| Merge.RecordCrossEdge | iCFG/gene_cfg.py:77-85 | A key already recorded keeps its record and draws nothing. A new key is recorded with the given count, and exactly one dashed edge with that key is drawn. Nodes and cluster edges are unaffected. |
| Merge.AddCallLink | iCFG/gene_cfg.py:87-91 | Afterwards the caller's exits contain the call link. The link is appended to the caller's exits and to the entry's predecessors together, only if the caller lacked it. No other block's links and no block's source or calls change. |
| Merge.AddCallLinkIdempotent | iCFG/gene_cfg.py:87-91 | Adding the same call link twice gives the same arena as adding it once. |
| Merge.AtMostOneCallLink | iCFG/gene_cfg.py:87-91 | Links added by guarded appends are pairwise distinct and new. So a block gains at most one link to a given callee entry, however many of its calls resolve there. |
| Merge.ResolvedKeepsSound | iCFG/gene_cfg.py:66-91 | One resolved call site preserves the session invariant. Records agree with their keys and hold counts between 1 and the callee's counter. Every record's link is among its caller's exits. Exits grew only by fresh call links with recorded keys. Predecessors grew only by call links that are also among their caller's exits. |
| Merge.EmitCluster | iCFG/gene_cfg.py:94-106 | The cluster is named `cluster_<callee>`. Its node count per id is 0 for ids already drawn, and otherwise the id's number of occurrences among the callee's blocks. The drawn-edge set grows by exactly the callee's exit keys. Each edge key occurs once in the cluster if newly seen, and never otherwise. Nodes carry their block's source and edges are solid. |
| Merge.DrawBlock | iCFG/gene_cfg.py:97-106 | For one callee block: the block's node, with the block's source text, is added iff the drawing has none with its id. Then the drawn-edge set grows by exactly the block's exit keys, with one solid edge from the block for each key not already in the set. |
| Merge.DrawExits | iCFG/gene_cfg.py:102-106 | The drawn-edge set grows by exactly the block's exit keys. An edge is added once for each key not already in the set, and for no other key. |
| FileFilter.Contains | iCFG/gene_cfg.py:154 | The substring search returns true iff the fragment occurs at some position of the string. |
| FileFilter.InvalidFilesCheck | iCFG/gene_cfg.py:151-156 | Returns false iff the input contains `__init__` or `exception` as a substring, otherwise true. |

## Left out

- Building each function's CFG (`CFGBuilder().build_from_src`, line 43)
  belongs to an external library. Its output is given as input: the list of
  registry items and the block arena.
- The target's own drawing (`_build_visual`, line 61) is given as the
  initial log `base`. Cluster colour attributes and rendering to a PNG file
  (line 108) are output formatting and file I/O.
- The outer loop over target names (line 42) is not modelled as a loop.
  `GenerateCfg` models one of its iterations. Each iteration rebuilds all of
  its state.
- The external library decides the order in which `for block in opcode_cfg`
  visits the target's blocks, and which blocks `get_all_blocks()` returns.
  Both are the `blocks` sequence of a `FunctionCfg`, fixed during the merge.
  Whether the library's lazy traversal follows links appended during the
  walk is not modelled.
- Merge.AddCallLink: models the guard `new_link not in block.exits`
  (line 89) as the authors evidently meant it: structural equality of
  source, target and exit case. The library's `Link` class is not part of
  this model. If that class compares by object identity, the link built
  fresh at line 88 is never found. The guard then never fires, and every
  resolved call appends one more link to the caller's exits and the entry's
  predecessors. `Merge.AddCallLinkIdempotent` and `Merge.AtMostOneCallLink`
  describe the intended guard only.
- Merge.DrawBlock: models the test `node_id not in combined_graph`
  (line 99) as the authors evidently meant it: "the drawing so far has a node
  with this id". The subgraph under construction is not visible until it
  closes, as with Graphviz's `with` block. The Graphviz `Digraph` class is
  not part of this model. If its `in` is the plain sequence test over the
  DOT source lines, a bare id never equals a whole line. The guard then never
  fires, and every callee block is drawn again on every resolved call. The
  facts that existing nodes are not redrawn and that unique nodes stay
  unique, in `Merge.MergeBlock`, `Merge.WalkTarget` and `Merge.GenerateCfg`,
  describe the intended test only. The uniqueness fact also requires that no
  registered function's block list repeats a block (`DistinctBlocks`).
- `get_all_blocks()` is not part of this model. Node uniqueness is promised
  only when it lists each block once. If it lists a block twice, the guard at
  line 99 tests the committed drawing, not the subgraph still open at that
  point. The block is then drawn twice in one cluster, in the model as in the
  code. For example, a callee with blocks `[2, 2]` gives two nodes with id 2.
- The arena keys every block of every CFG by its id. This assumes that
  block ids are unique across all functions of one build, not only within a
  function. Two blocks of different functions with the same id would share
  one arena entry and one drawn node here.
- Labels are opaque. A node shows its block's `source` text. An exit edge
  shows its exit case verbatim (no `strip`). The dashed edge shows
  `calls <name>`. Call-site metadata other than the name is dropped. Block ids
  are integers, and `str` on ids is injective, so keys compare the same.
- `remove_comments`, `read_pyfile_skip_class`, `get_funName`, `get_src` and
  the batch loop (lines 8-38, 111-149, 158-180) are tokenizing, AST parsing,
  directory listing and file reads.
- Merge.WalkTarget: states predecessor growth as membership, not one-to-one
  pairing with the added exits. Every added predecessor is a call link with
  a recorded key that is among its caller's exits. The exact lockstep is
  stated per call site by `AddCallLink`.
