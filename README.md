# HNSW graph builder

A Dafny model of the builder of Lance's HNSW (hierarchical navigable small
world) vector index, `HNSWBuilder` in
`rust/lance-index/src/vector/hnsw/builder.rs`, with proofs of what it
guarantees.

The builder owns a stack of graph layers. `levels[0]` is the base layer, and a
node's global id is its index in the base layer. Inserting a node has four
steps:

1. Draw the node's level.
2. Descend greedily through the layers above that level, keeping a single
   nearest entry.
3. In every layer at or below the level, from the top down:
   - mark the node present;
   - beam-search from the entry set;
   - select neighbours;
   - connect the node to each neighbour in both directions;
   - prune each neighbour back to `m_max` edges, then prune the node;
   - carry all search candidates down as the next entry set.
4. Apply the entry-point rule.

A build appends `max_level` layers, each seeded with node 0. It then inserts
ids `1 .. len-1` in order, stops at the first error, and finalises every
layer against a storage.

Files:

- `wrappers.dfy`, module `Wrappers`: `Option` and `Result` (with `:-`
  propagation, the model of Rust's `?`), and `Min`.
- `layer_graph.dfy`, module `LayerGraph`: one layer of the graph under
  construction.
  - A layer maps each present node to its neighbour list. The list is kept
    in ascending distance from its owner.
  - `MarkPresent`, `Connect`, `Prune` and their repeated forms
    `ConnectAll`/`PruneAll` stand in for the layer builder's `insert`,
    `connect` and `prune`.
  - `Connect` fails with `NodeNotFound` when either end is absent. It adds
    the edge both ways in distance order and does nothing for an existing
    edge.
  - `Prune` keeps the `bound` closest neighbours.
  - `Valid` means every list is ordered, free of repeats and names present
    nodes only. `Bounded` means every degree is within a bound.
- `hnsw.dfy`, module `Hnsw`: the builder.
  - The record `Builder` carries the configuration. `New` and the setters
    are pure functions on it, as in the source, where each setter consumes
    and returns `self`.
  - Insertion and the build are pure specification functions
    (`InsertOutcome`, `BuildState`, `BuildWithOutcome`).
  - The class `HnswBuilder` holds the same fields, with `levels` and
    `entryPoint` mutable. Its methods `Insert`, `BuildWith` and `Build` run
    the source's loops in place. Their postconditions tie the new state and
    the result to those functions.
  - `Insert` runs the descent (`DescendEntry`), then the insertion layers
    and the entry-point rule (`InsertBelow`, over `InsertLayersFrom` and
    `InsertIntoLayer`). `BuildWith` seeds the layers and then inserts the
    ids (`InsertIds`).
- `hnsw_proofs.dfy`, module `HnswProofs`: lemmas about the functions. They
  cover the effect of one insertion layer, which layers an insertion
  touches, preservation of well-formedness and of the degree bound, the exact
  layer layout of a build from a fresh builder, and the finished index.
  - The layout of the ids below `k` (predicate `Layout`, per id `Member`)
    is `max_level` layers in which layer `l` holds node 0 and exactly those
    ids `1 .. k-1` whose drawn level reaches `l`.

The collaborators whose code is not part of this model come in as parameters
(record `Primitives`):

- `beam_search`, as a function from layer, entry ids, query id and width to
  candidate ids or an error;
- `select_neighbors_heuristic`;
- whether `HnswLevel::from_builder` fails for a layer.

The vector store is a record with the vector count, the metric and a distance
oracle. Vectors are named by their ids throughout. `select_neighbors` is
modelled as the first `k` candidates in the order beam search returns them.
The builder reads that order as nearest first; when the candidates are so
ordered, the selection is the closest `k` (`Hnsw.SelectNeighborsKeepsClosest`). The random
level is an input, `raw`, capped by `max_level` exactly as
`min(..., self.max_level)` does. A build takes one draw per node id.

Behaviour kept as written:

- The neighbour heuristic receives the entry point's id as its query
  (line 151, used at line 171). Beam search receives the inserted node's id.
- The entry-point rule compares the level with the layer count cast to `u16`
  (line 187), modelled as the count modulo 65536 in `NextEntryPoint`.
  - Inside a build from a fresh builder, the layer count equals `max_level`.
    No level exceeds it, so the entry point never moves
    (`HnswProofs.EntryPointStays`, `HnswProofs.BuildLayout`).
  - Only a layer count whose truncation falls below the level lets the rule
    fire (`HnswProofs.EntryPointMovesAfterTruncation`).
- The selection target `m` is the base-layer size, read once before any
  insertion layer changes. In a fresh build it equals the id being inserted
  (`HnswProofs.SelectionTargetIsInsertedCount`).
- `insert` indexes `levels[0]`, so it needs at least one layer
  (`requires |levels| > 0`). `build_with` therefore needs existing layers,
  `max_level > 0`, or at most one vector.

## Model

| member | source | states |
|---|---|---|
| Hnsw.New | rust/lance-index/src/vector/hnsw/builder.rs:63-75 | the defaults: max level 8, 64 edges, ef 100, no layers, entry point 0, no candidate extension, log base 10, heuristic on, the given vectors |
| Hnsw.SetMaxLevel | rust/lance-index/src/vector/hnsw/builder.rs:79-82 | sets the maximum level; every other field is unchanged |
| Hnsw.SetMaxNumEdges | rust/lance-index/src/vector/hnsw/builder.rs:86-89 | sets `m_max`; every other field is unchanged |
| Hnsw.SetEfConstruction | rust/lance-index/src/vector/hnsw/builder.rs:95-98 | sets `ef_construction`; every other field is unchanged |
| Hnsw.SetExtendCandidates | rust/lance-index/src/vector/hnsw/builder.rs:105-108 | sets the extend-candidates flag; every other field is unchanged |
| Hnsw.SetUseSelectHeuristic | rust/lance-index/src/vector/hnsw/builder.rs:113-116 | sets the heuristic flag; every other field is unchanged |
| Hnsw.Len | rust/lance-index/src/vector/hnsw/builder.rs:119-121 | the number of nodes in the base layer, defined only when a layer exists |
| Hnsw.RandomLevel | rust/lance-index/src/vector/hnsw/builder.rs:126-137 | the level never exceeds `max_level` or the draw, and is one of the two |
| Hnsw.LevelsToSearch | rust/lance-index/src/vector/hnsw/builder.rs:145-149 | the search-only layers leave exactly `min(level + 1, count)` insertion layers, the bottom ones; with any layer present the base layer is always an insertion layer |
| Hnsw.SelectNeighbors | rust/lance-index/src/vector/hnsw/builder.rs:163 | the selection is the first `min(k, n)` candidates, a prefix of the list beam search returned |
| Hnsw.SelectNeighborsKeepsClosest | rust/lance-index/src/vector/hnsw/builder.rs:163 | on candidates ordered by distance from the query, no candidate left out is nearer than one selected |
| Hnsw.Selection | rust/lance-index/src/vector/hnsw/builder.rs:170-175 | with the heuristic flag set, the heuristic's answer for the entry-point query, target `m` and extend flag; otherwise the first `min(m, n)` candidates |
| Hnsw.SearchCount | rust/lance-index/src/vector/hnsw/builder.rs:143-149 | fewer than the layer count when a layer exists, leaving exactly `min(level + 1, count)` insertion layers for the capped level |
| Hnsw.Descend | rust/lance-index/src/vector/hnsw/builder.rs:161-164 | no layer leaves the entry set as it was; after at least one layer the entry set has at most one id |
| Hnsw.HnswBuilder.DescendEntry | rust/lance-index/src/vector/hnsw/builder.rs:150-164 | the descent loop over the topmost `levels_to_search` layers, top down, from the entry point, returns what `Descend` defines |
| Hnsw.LayerStep | rust/lance-index/src/vector/hnsw/builder.rs:167-185 | a successful insertion layer holds exactly the nodes it held plus the inserted node |
| Hnsw.InsertLayers | rust/lance-index/src/vector/hnsw/builder.rs:167-185 | the insertion layers processed from the top down keep the number of layers |
| Hnsw.InsertOutcome | rust/lance-index/src/vector/hnsw/builder.rs:141-192 | a successful insertion keeps the number of layers and changes only the layers and the entry point of the builder |
| Hnsw.Conclude | rust/lance-index/src/vector/hnsw/builder.rs:187-191 | succeeds exactly when all insertion layers succeeded, with their error otherwise; changes only the layers and the entry point |
| Hnsw.NextEntryPoint | rust/lance-index/src/vector/hnsw/builder.rs:187-189 | the entry point becomes the node exactly when its level exceeds the layer count truncated to 16 bits, and stays otherwise |
| Hnsw.SeedLayers | rust/lance-index/src/vector/hnsw/builder.rs:208-212 | `k` layers, each holding only node 0 |
| Hnsw.Seeded | rust/lance-index/src/vector/hnsw/builder.rs:208-212 | appends `max_level` seeded layers above the existing ones, which are kept; nothing else changes |
| Hnsw.InsertAll | rust/lance-index/src/vector/hnsw/builder.rs:214-216 | inserting ids in order keeps the configuration and the number of layers |
| Hnsw.BuildState | rust/lance-index/src/vector/hnsw/builder.rs:208-216 | the build ends with as many layers as existed plus the `max_level` seeded ones |
| Hnsw.FinishAll | rust/lance-index/src/vector/hnsw/builder.rs:224-228 | succeeds exactly when no layer fails to finalise, giving one finished level per layer bound to the storage; a failure is the error of the first layer that fails |
| Hnsw.Finish | rust/lance-index/src/vector/hnsw/builder.rs:224-234 | the index has one level per layer, the builder's entry point, metric and heuristic flag |
| Hnsw.BuildWithOutcome | rust/lance-index/src/vector/hnsw/builder.rs:200-235 | a failed insertion phase is returned as is, without finalising; a finished index has one level per layer of the build and its entry point |
| Hnsw.HnswBuilder.ConnectNeighbours | rust/lance-index/src/vector/hnsw/builder.rs:177-179 | connects the node to each neighbour in order in layer `j` only, stopping at the first error, as `ConnectAll` defines |
| Hnsw.HnswBuilder.PruneNeighbours | rust/lance-index/src/vector/hnsw/builder.rs:180-182 | prunes each neighbour in order in layer `j` only, as `PruneAll` defines |
| Hnsw.HnswBuilder.InsertIntoLayer | rust/lance-index/src/vector/hnsw/builder.rs:167-185 | one insertion layer changed in place: only layer `j` changes, the result is the candidates, and the new layer and the error agree with `LayerStep` |
| Hnsw.HnswBuilder.InsertLayersFrom | rust/lance-index/src/vector/hnsw/builder.rs:166-185 | the insertion loop, each layer seeded with the candidates of the layer above, stops at the first error and agrees with `InsertLayers` |
| Hnsw.HnswBuilder.Insert | rust/lance-index/src/vector/hnsw/builder.rs:141-192 | the new layers and entry point, or the error, are those of `InsertOutcome`; the layer count is kept; on failure the entry point is kept |
| Hnsw.HnswBuilder.InsertBelow | rust/lance-index/src/vector/hnsw/builder.rs:166-191 | after a successful descent, the insertion layers and the entry-point rule give the layers and entry point, or the error, of `InsertOutcome`; on failure the entry point is kept |
| Hnsw.HnswBuilder.InsertIds | rust/lance-index/src/vector/hnsw/builder.rs:214-216 | inserting ids `lo .. hi-1` in order, stopping at the first error, reaches the state or the error of `InsertAll`, keeping the layer count |
| Hnsw.HnswBuilder.BuildWith | rust/lance-index/src/vector/hnsw/builder.rs:200-235 | the result is `BuildWithOutcome`; after a successful build the builder holds `BuildState` |
| Hnsw.HnswBuilder.Build | rust/lance-index/src/vector/hnsw/builder.rs:195-197 | a build with the builder's own vectors as the storage |
| LayerGraph.MarkPresent | rust/lance-index/src/vector/hnsw/builder.rs:168 | adds the node; existing nodes keep their lists; a new node has none |
| LayerGraph.InsertByDistance | rust/lance-index/src/vector/hnsw/builder.rs:178 | the list grows by one element, the new one, and keeps the others |
| LayerGraph.InsertByDistanceOrdered | rust/lance-index/src/vector/hnsw/builder.rs:178 | inserting into a distance-ordered list keeps it ordered |
| LayerGraph.InsertByDistanceDistinct | rust/lance-index/src/vector/hnsw/builder.rs:178 | inserting an absent id into a repeat-free list keeps it repeat-free |
| LayerGraph.Connect | rust/lance-index/src/vector/hnsw/builder.rs:178 | succeeds exactly when both ends are present, otherwise fails naming the missing end; the node set is unchanged |
| LayerGraph.AddNeighborEffect | rust/lance-index/src/vector/hnsw/builder.rs:178 | the owner's list gains exactly the new id, at most one entry; other lists are untouched |
| LayerGraph.ConnectEffect | rust/lance-index/src/vector/hnsw/builder.rs:178 | the edge exists both ways afterwards, no edge is lost, the only new edges are that one, and each end gains at most one neighbour |
| LayerGraph.ConnectAll | rust/lance-index/src/vector/hnsw/builder.rs:177-179 | succeeds exactly when the node (if any neighbour is given) and every neighbour are present; the node set is unchanged |
| LayerGraph.ConnectAllFailure | rust/lance-index/src/vector/hnsw/builder.rs:177-179 | a failure names the first missing end: the node, or else the first absent neighbour in order |
| LayerGraph.ConnectAllEffect | rust/lance-index/src/vector/hnsw/builder.rs:177-179 | the node and every neighbour are joined both ways, no edge is lost, and other lists are untouched |
| LayerGraph.ConnectAllNewEdge | rust/lance-index/src/vector/hnsw/builder.rs:177-179 | every edge after connecting was there before or joins the node and one of the neighbours |
| LayerGraph.Keep | rust/lance-index/src/vector/hnsw/builder.rs:181 | a prefix of length `min(bound, n)` |
| LayerGraph.KeepFacts | rust/lance-index/src/vector/hnsw/builder.rs:181 | a cut list holds only entries of the original, and cutting twice is cutting once |
| LayerGraph.KeepKeepsClosest | rust/lance-index/src/vector/hnsw/builder.rs:181 | on a distance-ordered list no dropped entry is nearer than a kept one |
| LayerGraph.Prune | rust/lance-index/src/vector/hnsw/builder.rs:181 | succeeds exactly when the node is present, otherwise fails with `NodeNotFound`; the node set is unchanged |
| LayerGraph.PruneEffect | rust/lance-index/src/vector/hnsw/builder.rs:181 | the node keeps a prefix of `min(bound, degree)` neighbours; other lists are untouched |
| LayerGraph.PruneKeepsClosest | rust/lance-index/src/vector/hnsw/builder.rs:181 | no dropped neighbour is nearer than a kept one |
| LayerGraph.PruneIdempotent | rust/lance-index/src/vector/hnsw/builder.rs:183 | a node within the bound is left alone, and pruning twice equals pruning once |
| LayerGraph.PruneAll | rust/lance-index/src/vector/hnsw/builder.rs:180-182 | succeeds exactly when every neighbour is present; the node set is unchanged |
| LayerGraph.PruneAllEffect | rust/lance-index/src/vector/hnsw/builder.rs:180-182 | each pruned neighbour holds the first `m_max` entries of its old list, so it is within the bound and keeps only entries it had; other lists are untouched |
| LayerGraph.MarkPresentValid | rust/lance-index/src/vector/hnsw/builder.rs:168 | marking a node present keeps a layer well-formed |
| LayerGraph.ConnectValid | rust/lance-index/src/vector/hnsw/builder.rs:178 | connecting keeps a layer well-formed |
| LayerGraph.PruneValid | rust/lance-index/src/vector/hnsw/builder.rs:181 | pruning keeps a layer well-formed |
| LayerGraph.ConnectAllValid | rust/lance-index/src/vector/hnsw/builder.rs:177-179 | connecting all neighbours keeps a layer well-formed |
| LayerGraph.PruneAllValid | rust/lance-index/src/vector/hnsw/builder.rs:180-182 | pruning all neighbours keeps a layer well-formed |
| HnswProofs.LayerStepEffect | rust/lance-index/src/vector/hnsw/builder.rs:167-184 | the next entry set is all the beam-search candidates; the node and every selected neighbour end within `m_max`; every other node keeps its list |
| HnswProofs.ConnectPruneEdges | rust/lance-index/src/vector/hnsw/builder.rs:177-183 | connecting the node to its neighbours and pruning them and then the node adds only node–neighbour edges, and leaves the node a neighbour when there is one and `m_max > 0` |
| HnswProofs.LayerStepEdges | rust/lance-index/src/vector/hnsw/builder.rs:167-183 | the only edges an insertion layer adds join the node and a selected neighbour; a node new to the layer ends with a non-empty sub-list of its selection when the selection is non-empty and `m_max > 0` |
| HnswProofs.LayerStepBounded | rust/lance-index/src/vector/hnsw/builder.rs:177-183 | an insertion layer keeps every degree within `m_max` |
| HnswProofs.LayerStepValid | rust/lance-index/src/vector/hnsw/builder.rs:167-183 | an insertion layer keeps the layer well-formed |
| HnswProofs.InsertLayersEffect | rust/lance-index/src/vector/hnsw/builder.rs:167-168 | the insertion layers gain the node; the layers above them are unchanged |
| HnswProofs.InsertLayersBounded | rust/lance-index/src/vector/hnsw/builder.rs:167-185 | the insertion layers keep every degree within `m_max` |
| HnswProofs.InsertLayersValid | rust/lance-index/src/vector/hnsw/builder.rs:167-185 | the insertion layers stay well-formed |
| HnswProofs.InsertOutcomeEffect | rust/lance-index/src/vector/hnsw/builder.rs:141-189 | a node of level `level` joins exactly the existing layers `0 .. level`; the descent layers above are unchanged; the entry point follows the entry-point rule |
| HnswProofs.InsertOutcomeBounded | rust/lance-index/src/vector/hnsw/builder.rs:141-192 | an insertion keeps every degree in every layer within `m_max` |
| HnswProofs.InsertOutcomeValid | rust/lance-index/src/vector/hnsw/builder.rs:141-192 | an insertion keeps every layer well-formed |
| HnswProofs.EntryPointStays | rust/lance-index/src/vector/hnsw/builder.rs:187-189 | with at least `max_level` layers and fewer than 65536, the entry point never moves |
| HnswProofs.EntryPointMovesAfterTruncation | rust/lance-index/src/vector/hnsw/builder.rs:187-189 | with 65536 layers the count truncates to 0, and any node of positive level becomes the entry point |
| HnswProofs.InsertAllBounded | rust/lance-index/src/vector/hnsw/builder.rs:214-216 | inserting ids in order keeps every degree within `m_max` |
| HnswProofs.InsertAllValid | rust/lance-index/src/vector/hnsw/builder.rs:214-216 | inserting ids in order keeps every layer well-formed |
| HnswProofs.SeededWellFormed | rust/lance-index/src/vector/hnsw/builder.rs:208-212 | the seeded layers are well-formed and within the bound |
| HnswProofs.BuildWellFormed | rust/lance-index/src/vector/hnsw/builder.rs:208-216 | a build keeps every layer well-formed and within `m_max` |
| HnswProofs.LayoutStep | rust/lance-index/src/vector/hnsw/builder.rs:141-192 | inserting the next id `k` of a fresh build turns the layout of ids below `k` into the layout of ids below `k + 1` and keeps the entry point |
| HnswProofs.LayoutExtend | rust/lance-index/src/vector/hnsw/builder.rs:161-185 | adding id `k` to exactly the layers up to its level, and leaving the layers above untouched, extends the layout by `k` |
| HnswProofs.InsertAllLayout | rust/lance-index/src/vector/hnsw/builder.rs:214-216 | inserting ids `lo .. hi-1` in order turns the layout of ids below `lo` into the layout of ids below `hi` and keeps the entry point |
| HnswProofs.BuildLayout | rust/lance-index/src/vector/hnsw/builder.rs:208-216 | a fresh build has `max_level` layers; layer `l` holds node 0 and exactly the ids whose drawn level reaches `l`; the entry point never moves |
| HnswProofs.BuildLayersNested | rust/lance-index/src/vector/hnsw/builder.rs:208-216 | every node of a layer is also present in all the layers below it |
| HnswProofs.BuildBaseLayer | rust/lance-index/src/vector/hnsw/builder.rs:208-216 | the base layer holds every vector id |
| HnswProofs.Ids | rust/lance-index/src/vector/hnsw/builder.rs:214 | the ids `0 .. k-1`, `k` of them |
| HnswProofs.LayoutBase | rust/lance-index/src/vector/hnsw/builder.rs:208-216 | in the layout of ids below `k` the base layer holds exactly the ids `0 .. k-1` |
| HnswProofs.SelectionTargetIsInsertedCount | rust/lance-index/src/vector/hnsw/builder.rs:166 | while a fresh build inserts id `k`, the selection target `m` is `k` |
| HnswProofs.BaseLayerGrowsByOne | rust/lance-index/src/vector/hnsw/builder.rs:166-168 | each insertion of a fresh build grows the base layer by one node |
| HnswProofs.BuildWithIndex | rust/lance-index/src/vector/hnsw/builder.rs:208-234 | the finished index of a fresh build has `max_level` levels, level `l` holding the built layer `l` bound to the storage, and the entry point, metric and heuristic flag of the builder |
| HnswProofs.BuildWithFailure | rust/lance-index/src/vector/hnsw/builder.rs:214-228 | a failed build failed while inserting, with that error, or while finalising, with the error of the first layer that fails |
| HnswProofs.BuildFromDefaults | rust/lance-index/src/vector/hnsw/builder.rs:63-75 | a build with the default configuration has eight levels and entry point 0 |

## Left out

- The floating-point level draw inside `random_level` (logarithm, ceiling, the `f32` to `u16` cast) and `thread_rng`. The draw is the input `raw`; only the cap by `max_level` is modelled.
- The internals of `beam_search` and `select_neighbors_heuristic`: oracles with no contract beyond their types.
- The order of the beam-search candidates. The builder treats them as nearest first, but the oracle carries no such contract, so "the closest" is proved only under an `Ordered` premise (`Hnsw.SelectNeighborsKeepsClosest`).
- The layer builder `GraphBuilder` (`crate::vector::graph::builder` is not part of this model). `MarkPresent`, `Connect` and `Prune` are this model's own assumptions about it:
  - prune keeps the closest neighbours, the first `bound` entries of a distance-ordered list;
  - connect keeps lists distance-ordered and does nothing for an edge that already exists;
  - marking an already-present node keeps its edges;
  - the layer builder fails only on a missing node, with `NodeNotFound`.
- `InMemoryVectorStorage`, `VectorStorage` and the `Arc` sharing. The store is a record with a count, a metric and a distance oracle. Vector lookups are modelled by passing node ids.
- `HnswLevel::from_builder` and `HNSW::from_builder`, beyond whether a layer fails to finalise.
- The logging at lines 201-207 and 218-222, which has no effect on the state.
- The `i as u32` cast at line 215. Node ids are unbounded, so a store of more than 2^32 vectors is not modelled.
- `cpp/src/lance/io/exec/scan.h`: an I/O and threading declaration unrelated to the builder.
- Hnsw.HnswBuilder.Insert: after a failure the layers are left partly updated, and the model states only that the layer count and the entry point are kept. The source makes no promise about that partial state.
- Hnsw.HnswBuilder.BuildWith: after a failure the builder keeps whatever state the failing step left. The postcondition describes the builder only after a successful build.
- Hnsw.LayerStep: because the model's layer builder fails only on a missing node, the prune errors returned at lines 181 and 183 cannot occur once connecting succeeded, and `LayerStep` uses the prune results directly. A layer builder whose prune can fail for other reasons is not modelled.
- Hnsw.InsertLayers: its own contract states only that the layer count is kept. What each layer gains is stated in `HnswProofs.InsertLayersEffect`.
