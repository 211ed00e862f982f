/**
 * The HNSW graph builder: its configuration, the insertion of one node across
 * the layers, and the build that seeds the layers, inserts every vector in id
 * order and finalises the result.
 *
 * Vectors are named by their node ids: where the builder passes a vector to a
 * collaborator, the model passes the id whose vector it is.
 */
module Hnsw {
  import opened Wrappers
  import opened LayerGraph

  type U16 = x: int | 0 <= x < 0x1_0000

  const U16_MODULUS: int := 0x1_0000

  datatype MetricType = L2 | Cosine | Dot

  /** The shared, read-only vector source: how many vectors, their metric, their distances. */
  datatype VectorStore = VectorStore(count: nat, metric: MetricType, distance: Distance)

  /** One finished layer, bound to the storage the finished index reads. */
  datatype HnswLevel = HnswLevel(graph: Layer, storage: VectorStore)

  /** The finished index. */
  datatype HnswIndex = HnswIndex(
    levels: seq<HnswLevel>,
    entryPoint: NodeId,
    metric: MetricType,
    useSelectHeuristic: bool)

  /**
   * The collaborators whose internals are not modelled: beam search over one
   * layer (start ids, query id, width; the builder reads its candidates as
   * nearest first, an order nothing here imposes), the
   * diversity-aware neighbour selection (layer, query id, candidates, target
   * count, extend flag), and whether finalising a layer against a storage
   * fails.
   */
  datatype Primitives = Primitives(
    beamSearch: (Layer, seq<NodeId>, NodeId, nat) -> Result<seq<NodeId>, Error>,
    selectHeuristic: (Layer, NodeId, seq<NodeId>, nat, bool) -> seq<NodeId>,
    levelFailure: (Layer, VectorStore) -> Option<Error>)

  /** The builder record; `levels[0]` is the base layer. */
  datatype Builder = Builder(
    maxLevel: U16,
    mMax: nat,
    efConstruction: nat,
    vectors: VectorStore,
    levels: seq<Layer>,
    entryPoint: NodeId,
    extendCandidates: bool,
    logBase: real,
    useSelectHeuristic: bool)

  // ---------------------------------------------------------------------
  // Configuration

  function New(vectors: VectorStore): (r: Builder)
    ensures r.maxLevel == 8 && r.mMax == 64 && r.efConstruction == 100
    ensures r.vectors == vectors && r.levels == [] && r.entryPoint == 0
    ensures !r.extendCandidates && r.logBase == 10.0 && r.useSelectHeuristic
  {
    Builder(8, 64, 100, vectors, [], 0, false, 10.0, true)
  }

  function SetMaxLevel(b: Builder, maxLevel: U16): (r: Builder)
    ensures r.maxLevel == maxLevel
    ensures r.mMax == b.mMax && r.efConstruction == b.efConstruction && r.vectors == b.vectors
    ensures r.levels == b.levels && r.entryPoint == b.entryPoint
    ensures r.extendCandidates == b.extendCandidates && r.logBase == b.logBase
    ensures r.useSelectHeuristic == b.useSelectHeuristic
  {
    b.(maxLevel := maxLevel)
  }

  function SetMaxNumEdges(b: Builder, mMax: nat): (r: Builder)
    ensures r.mMax == mMax
    ensures r.maxLevel == b.maxLevel && r.efConstruction == b.efConstruction && r.vectors == b.vectors
    ensures r.levels == b.levels && r.entryPoint == b.entryPoint
    ensures r.extendCandidates == b.extendCandidates && r.logBase == b.logBase
    ensures r.useSelectHeuristic == b.useSelectHeuristic
  {
    b.(mMax := mMax)
  }

  function SetEfConstruction(b: Builder, efConstruction: nat): (r: Builder)
    ensures r.efConstruction == efConstruction
    ensures r.maxLevel == b.maxLevel && r.mMax == b.mMax && r.vectors == b.vectors
    ensures r.levels == b.levels && r.entryPoint == b.entryPoint
    ensures r.extendCandidates == b.extendCandidates && r.logBase == b.logBase
    ensures r.useSelectHeuristic == b.useSelectHeuristic
  {
    b.(efConstruction := efConstruction)
  }

  function SetExtendCandidates(b: Builder, flag: bool): (r: Builder)
    ensures r.extendCandidates == flag
    ensures r.maxLevel == b.maxLevel && r.mMax == b.mMax && r.efConstruction == b.efConstruction
    ensures r.vectors == b.vectors && r.levels == b.levels && r.entryPoint == b.entryPoint
    ensures r.logBase == b.logBase && r.useSelectHeuristic == b.useSelectHeuristic
  {
    b.(extendCandidates := flag)
  }

  function SetUseSelectHeuristic(b: Builder, flag: bool): (r: Builder)
    ensures r.useSelectHeuristic == flag
    ensures r.maxLevel == b.maxLevel && r.mMax == b.mMax && r.efConstruction == b.efConstruction
    ensures r.vectors == b.vectors && r.levels == b.levels && r.entryPoint == b.entryPoint
    ensures r.extendCandidates == b.extendCandidates && r.logBase == b.logBase
  {
    b.(useSelectHeuristic := flag)
  }

  // ---------------------------------------------------------------------
  // Single-node insertion, as a function of the builder value

  /** The builder's `len`: the `Size` of its base layer. */
  function Len(b: Builder): (r: nat)
    requires |b.levels| > 0
    ensures r == |b.levels[0].adj.Keys|
  {
    Size(b.levels[0])
  }

  /**
   * The level of a new node: `raw` stands for the value drawn from the
   * logarithmic distribution, which is then capped by `maxLevel`.
   */
  function RandomLevel(maxLevel: U16, raw: U16): (r: U16)
    ensures r <= maxLevel && r <= raw
    ensures r == raw || r == maxLevel
  {
    if raw <= maxLevel then raw else maxLevel
  }

  /**
   * How many of the topmost layers are only searched through.  The remaining
   * `numLevels - r` layers, indices `0 .. numLevels - r - 1`, are those whose
   * index is at most `level`: the node is inserted there.
   */
  function LevelsToSearch(numLevels: nat, level: U16): (r: nat)
    ensures numLevels > 0 ==> r < numLevels
    ensures r <= numLevels && numLevels - r == Min(level + 1, numLevels)
  {
    if numLevels > level then numLevels - level - 1 else 0
  }

  /**
   * The first `k` candidates: the same cut that a prune makes to a
   * neighbour list, so it is defined by `Keep`.
   */
  function SelectNeighbors(candidates: seq<NodeId>, k: nat): (r: seq<NodeId>)
    ensures r <= candidates && |r| == Min(k, |candidates|)
  {
    Keep(candidates, k)
  }

  /** On candidates ordered by distance from `query`, the selection is the closest `k` of them. */
  lemma SelectNeighborsKeepsClosest(candidates: seq<NodeId>, k: nat, query: NodeId, dist: Distance,
                                    kept: NodeId, dropped: NodeId)
    requires Ordered(candidates, query, dist)
    requires kept in SelectNeighbors(candidates, k)
    requires dropped in candidates && dropped !in SelectNeighbors(candidates, k)
    ensures dist(query, kept) <= dist(query, dropped)
  {
    KeepKeepsClosest(candidates, k, query, dist, kept, dropped);
  }

  /** The neighbours selected in one insertion layer. */
  function Selection(b: Builder, g: Layer, query: NodeId, candidates: seq<NodeId>, m: nat, prims: Primitives)
    : (r: seq<NodeId>)
    ensures b.useSelectHeuristic ==> r == prims.selectHeuristic(g, query, candidates, m, b.extendCandidates)
    ensures !b.useSelectHeuristic ==> r <= candidates && |r| == Min(m, |candidates|)
  {
    if b.useSelectHeuristic then prims.selectHeuristic(g, query, candidates, m, b.extendCandidates)
    else SelectNeighbors(candidates, m)
  }

  /**
   * The search-only descent through layers `hi - 1` down to `lo`, each step a
   * width-1 beam search that keeps only the single best candidate.
   */
  function Descend(ls: seq<Layer>, lo: nat, hi: nat, ep: seq<NodeId>, node: NodeId, prims: Primitives)
    : (r: Result<seq<NodeId>, Error>)
    requires lo <= hi <= |ls|
    ensures lo == hi ==> r == Success(ep)
    ensures r.Success? && (lo < hi || |ep| <= 1) ==> |r.value| <= 1
    decreases hi - lo
  {
    if lo == hi then Success(ep)
    else
      var candidates :- prims.beamSearch(ls[hi - 1], ep, node, 1);
      Descend(ls, lo, hi - 1, SelectNeighbors(candidates, 1), node, prims)
  }

  /**
   * One insertion layer: mark the node present, beam-search with width
   * `efConstruction`, select neighbours, connect them all, prune each
   * neighbour and then the node to `mMax`.  Also returns all candidates, the
   * start set for the next layer down.
   */
  function LayerStep(b: Builder, g: Layer, node: NodeId, ep: seq<NodeId>, query: NodeId, m: nat, prims: Primitives)
    : (r: Result<(Layer, seq<NodeId>), Error>)
    ensures r.Success? ==> r.value.0.adj.Keys == g.adj.Keys + {node}
  {
    var g1 := MarkPresent(g, node);
    var candidates :- prims.beamSearch(g1, ep, node, b.efConstruction);
    var neighbours := Selection(b, g1, query, candidates, m, prims);
    var g2 :- ConnectAll(g1, node, neighbours, b.vectors.distance);
    // Every neighbour and the node are present once connecting succeeded,
    // so neither kind of prune can fail here.
    var g3 := PruneAll(g2, neighbours, b.mMax).value;
    var g4 := Prune(g3, node, b.mMax).value;
    Success((g4, candidates))
  }

  /** The insertion layers `n - 1` down to `0`, stopping at the first failure. */
  function InsertLayers(b: Builder, ls: seq<Layer>, n: nat, ep: seq<NodeId>, node: NodeId, query: NodeId, m: nat, prims: Primitives)
    : (r: Result<seq<Layer>, Error>)
    requires n <= |ls|
    ensures r.Success? ==> |r.value| == |ls|
    decreases n, 1
  {
    if n == 0 then Success(ls)
    else InsertLayersFromTop(b, ls, n, ep, node, query, m, prims)
  }

  /** Layer `n - 1` by `LayerStep`, then the layers below it, seeded with its candidates. */
  function InsertLayersFromTop(b: Builder, ls: seq<Layer>, n: nat, ep: seq<NodeId>, node: NodeId, query: NodeId, m: nat,
                               prims: Primitives)
    : (r: Result<seq<Layer>, Error>)
    requires 0 < n <= |ls|
    ensures r.Success? ==> |r.value| == |ls|
    decreases n, 0
  {
    var step :- LayerStep(b, ls[n - 1], node, ep, query, m, prims);
    InsertLayers(b, ls[n - 1 := step.0], n - 1, step.1, node, query, m, prims)
  }

  // `InsertLayers` by cases on its first step.

  lemma InsertLayersStepFails(b: Builder, ls: seq<Layer>, n: nat, ep: seq<NodeId>, node: NodeId, query: NodeId, m: nat,
                              prims: Primitives, e: Error)
    requires 0 < n <= |ls|
    requires LayerStep(b, ls[n - 1], node, ep, query, m, prims) == Failure(e)
    ensures InsertLayers(b, ls, n, ep, node, query, m, prims) == Failure(e)
  {
  }

  lemma InsertLayersStepSucceeds(b: Builder, ls: seq<Layer>, n: nat, ep: seq<NodeId>, node: NodeId, query: NodeId, m: nat,
                                 prims: Primitives, g: Layer, candidates: seq<NodeId>)
    requires 0 < n <= |ls|
    requires LayerStep(b, ls[n - 1], node, ep, query, m, prims) == Success((g, candidates))
    ensures InsertLayers(b, ls, n, ep, node, query, m, prims)
         == InsertLayers(b, ls[n - 1 := g], n - 1, candidates, node, query, m, prims)
  {
  }

  /** A successful `InsertLayers` starts with a successful step on layer `n - 1`, which produced `g` and `candidates`. */
  lemma InsertLayersFirst(b: Builder, ls: seq<Layer>, n: nat, ep: seq<NodeId>, node: NodeId, query: NodeId, m: nat,
                          prims: Primitives)
    returns (g: Layer, candidates: seq<NodeId>)
    requires 0 < n <= |ls| && InsertLayers(b, ls, n, ep, node, query, m, prims).Success?
    ensures LayerStep(b, ls[n - 1], node, ep, query, m, prims) == Success((g, candidates))
    ensures InsertLayers(b, ls, n, ep, node, query, m, prims)
         == InsertLayers(b, ls[n - 1 := g], n - 1, candidates, node, query, m, prims)
  {
    assert InsertLayers(b, ls, n, ep, node, query, m, prims) == InsertLayersFromTop(b, ls, n, ep, node, query, m, prims);
    var step := LayerStep(b, ls[n - 1], node, ep, query, m, prims).value;
    g, candidates := step.0, step.1;
  }

  /**
   * Inserting `node`, whose raw level draw is `raw`: descend, insert into the
   * layers at or below its level, then apply the entry-point rule, which
   * compares the level with the layer count truncated to 16 bits.
   */
  function InsertOutcome(b: Builder, node: NodeId, raw: U16, prims: Primitives): (r: Result<Builder, Error>)
    requires |b.levels| > 0
    ensures r.Success? ==> |r.value.levels| == |b.levels|
    ensures r.Success? ==> r.value == b.(levels := r.value.levels, entryPoint := r.value.entryPoint)
  {
    var n := |b.levels|;
    match Descend(b.levels, n - SearchCount(b, raw), n, [b.entryPoint], node, prims)
    case Failure(e) => Failure(e)
    case Success(ep) =>
      Conclude(b, node, raw, InsertLayers(b, b.levels, n - SearchCount(b, raw), ep, node, b.entryPoint, Len(b), prims))
  }

  /** The builder after the insertion layers produced `layers`, with the entry-point rule applied. */
  function Conclude(b: Builder, node: NodeId, raw: U16, layers: Result<seq<Layer>, Error>): (r: Result<Builder, Error>)
    ensures r.Success? <==> layers.Success?
    ensures r.Failure? ==> r.error == layers.error
    ensures r.Success? ==> r.value == b.(levels := layers.value, entryPoint := r.value.entryPoint)
  {
    match layers
    case Failure(e) => Failure(e)
    case Success(ls) => Success(b.(levels := ls, entryPoint := NextEntryPoint(b, node, raw)))
  }

  /**
   * The entry-point rule: the inserted node becomes the entry point when its
   * level exceeds the layer count truncated to 16 bits.
   */
  function NextEntryPoint(b: Builder, node: NodeId, raw: U16): (r: NodeId)
    ensures r == node || r == b.entryPoint
    ensures RandomLevel(b.maxLevel, raw) > |b.levels| % U16_MODULUS ==> r == node
    ensures RandomLevel(b.maxLevel, raw) <= |b.levels| % U16_MODULUS ==> r == b.entryPoint
  {
    if RandomLevel(b.maxLevel, raw) > |b.levels| % U16_MODULUS then node else b.entryPoint
  }

  /** The number of layers `InsertOutcome` searches through before inserting. */
  function SearchCount(b: Builder, raw: U16): (r: nat)
    ensures |b.levels| > 0 ==> r < |b.levels|
    ensures r <= |b.levels| && |b.levels| - r == Min(RandomLevel(b.maxLevel, raw) + 1, |b.levels|)
  {
    LevelsToSearch(|b.levels|, RandomLevel(b.maxLevel, raw))
  }

  // `InsertOutcome` by cases: the descent fails, an insertion layer fails, or both succeed.

  lemma InsertOutcomeDescentFails(b: Builder, node: NodeId, raw: U16, prims: Primitives, e: Error)
    requires |b.levels| > 0
    requires Descend(b.levels, |b.levels| - SearchCount(b, raw), |b.levels|, [b.entryPoint], node, prims) == Failure(e)
    ensures InsertOutcome(b, node, raw, prims) == Failure(e)
  {
  }

  lemma InsertOutcomeDescentSucceeds(b: Builder, node: NodeId, raw: U16, prims: Primitives, ep: seq<NodeId>)
    requires |b.levels| > 0
    requires Descend(b.levels, |b.levels| - SearchCount(b, raw), |b.levels|, [b.entryPoint], node, prims) == Success(ep)
    ensures InsertOutcome(b, node, raw, prims)
         == Conclude(b, node, raw, InsertLayers(b, b.levels, |b.levels| - SearchCount(b, raw), ep, node, b.entryPoint, Len(b), prims))
  {
  }

  // ---------------------------------------------------------------------
  // Build, as a function of the builder value

  /** A fresh layer holding only node 0. */
  const SeedLayer: Layer := MarkPresent(Empty, 0)

  function SeedLayers(k: nat): (r: seq<Layer>)
    ensures |r| == k && forall l :: 0 <= l < k ==> r[l] == SeedLayer
  {
    if k == 0 then [] else SeedLayers(k - 1) + [SeedLayer]
  }

  /** `maxLevel` seeded layers appended above whatever layers exist. */
  function Seeded(b: Builder): (r: Builder)
    ensures r == b.(levels := r.levels)
    ensures |r.levels| == |b.levels| + b.maxLevel && r.levels[..|b.levels|] == b.levels
    ensures forall l :: |b.levels| <= l < |r.levels| ==> r.levels[l] == SeedLayer
  {
    b.(levels := b.levels + SeedLayers(b.maxLevel))
  }

  /** Inserts ids `lo .. hi - 1` in increasing order, stopping at the first failure. */
  function InsertAll(b: Builder, lo: nat, hi: nat, draw: NodeId -> U16, prims: Primitives): (r: Result<Builder, Error>)
    requires lo >= hi || |b.levels| > 0
    ensures r.Success? ==> r.value == b.(levels := r.value.levels, entryPoint := r.value.entryPoint)
    ensures r.Success? ==> |r.value.levels| == |b.levels|
    decreases hi - lo, 1
  {
    if lo >= hi then Success(b) else InsertAllFrom(b, lo, hi, draw, prims)
  }

  /** Inserts id `lo`, then the ids after it. */
  function InsertAllFrom(b: Builder, lo: nat, hi: nat, draw: NodeId -> U16, prims: Primitives): (r: Result<Builder, Error>)
    requires lo < hi && |b.levels| > 0
    ensures r.Success? ==> r.value == b.(levels := r.value.levels, entryPoint := r.value.entryPoint)
    ensures r.Success? ==> |r.value.levels| == |b.levels|
    decreases hi - lo, 0
  {
    var b1 :- InsertOutcome(b, lo, draw(lo), prims);
    InsertAll(b1, lo + 1, hi, draw, prims)
  }

  // `InsertAll` by cases on its first insertion.

  lemma InsertAllFails(b: Builder, lo: nat, hi: nat, draw: NodeId -> U16, prims: Primitives, e: Error)
    requires lo < hi && |b.levels| > 0 && InsertOutcome(b, lo, draw(lo), prims) == Failure(e)
    ensures InsertAll(b, lo, hi, draw, prims) == Failure(e)
  {
  }

  lemma InsertAllStep(b: Builder, lo: nat, hi: nat, draw: NodeId -> U16, prims: Primitives, b1: Builder)
    requires lo < hi && |b.levels| > 0 && InsertOutcome(b, lo, draw(lo), prims) == Success(b1)
    ensures InsertAll(b, lo, hi, draw, prims) == InsertAll(b1, lo + 1, hi, draw, prims)
  {
  }

  /** A successful `InsertAll` starts with a successful insertion of `lo`, which produced `b1`. */
  lemma InsertAllFirst(b: Builder, lo: nat, hi: nat, draw: NodeId -> U16, prims: Primitives) returns (b1: Builder)
    requires lo < hi && |b.levels| > 0 && InsertAll(b, lo, hi, draw, prims).Success?
    ensures InsertOutcome(b, lo, draw(lo), prims) == Success(b1)
    ensures InsertAll(b, lo, hi, draw, prims) == InsertAll(b1, lo + 1, hi, draw, prims)
  {
    assert InsertAll(b, lo, hi, draw, prims) == InsertAllFrom(b, lo, hi, draw, prims);
    b1 := InsertOutcome(b, lo, draw(lo), prims).value;
  }

  /** The builder after seeding and inserting ids `1 .. count - 1`. */
  function BuildState(b: Builder, draw: NodeId -> U16, prims: Primitives): (r: Result<Builder, Error>)
    requires |b.levels| > 0 || b.maxLevel > 0 || b.vectors.count <= 1
    ensures r.Success? ==> |r.value.levels| == |b.levels| + b.maxLevel
  {
    InsertAll(Seeded(b), 1, b.vectors.count, draw, prims)
  }

  /** Finalises each layer against `storage`, stopping at the first failure. */
  function FinishAll(ls: seq<Layer>, storage: VectorStore, prims: Primitives): (r: Result<seq<HnswLevel>, Error>)
    ensures r.Success? <==> forall l :: 0 <= l < |ls| ==> prims.levelFailure(ls[l], storage).None?
    ensures r.Success? ==> |r.value| == |ls| && forall l :: 0 <= l < |ls| ==> r.value[l] == HnswLevel(ls[l], storage)
    ensures r.Failure? ==> exists l :: 0 <= l < |ls| && prims.levelFailure(ls[l], storage) == Some(r.error)
                                      && forall k :: 0 <= k < l ==> prims.levelFailure(ls[k], storage).None?
  {
    if ls == [] then Success([])
    else match prims.levelFailure(ls[0], storage)
      case Some(e) => Failure(e)
      case None =>
        var rest :- FinishAll(ls[1..], storage, prims);
        Success([HnswLevel(ls[0], storage)] + rest)
  }

  function Finish(b: Builder, storage: VectorStore, prims: Primitives): (r: Result<HnswIndex, Error>)
    ensures r.Success? ==> |r.value.levels| == |b.levels|
    ensures r.Success? ==> r.value.entryPoint == b.entryPoint && r.value.metric == b.vectors.metric
    ensures r.Success? ==> r.value.useSelectHeuristic == b.useSelectHeuristic
  {
    var graphs :- FinishAll(b.levels, storage, prims);
    Success(HnswIndex(graphs, b.entryPoint, b.vectors.metric, b.useSelectHeuristic))
  }

  /** Build, then finalise; a failed build is returned without finalising. */
  function BuildWithOutcome(b: Builder, storage: VectorStore, draw: NodeId -> U16, prims: Primitives)
    : (r: Result<HnswIndex, Error>)
    requires |b.levels| > 0 || b.maxLevel > 0 || b.vectors.count <= 1
    ensures BuildState(b, draw, prims).Failure? ==> r == Failure(BuildState(b, draw, prims).error)
    ensures r.Success? ==> BuildState(b, draw, prims).Success?
    ensures r.Success? ==> |r.value.levels| == |b.levels| + b.maxLevel
    ensures r.Success? ==> r.value.entryPoint == BuildState(b, draw, prims).value.entryPoint
  {
    var s :- BuildState(b, draw, prims);
    Finish(s, storage, prims)
  }

  // ---------------------------------------------------------------------
  // The builder object

  class HnswBuilder {
    const maxLevel: U16
    const mMax: nat
    const efConstruction: nat
    const vectors: VectorStore
    var levels: seq<Layer>
    var entryPoint: NodeId
    const extendCandidates: bool
    const logBase: real
    const useSelectHeuristic: bool

    function Value(): Builder
      reads this
    {
      Builder(maxLevel, mMax, efConstruction, vectors, levels, entryPoint,
              extendCandidates, logBase, useSelectHeuristic)
    }

    /** `b` carries this builder's configuration and vector source. */
    ghost predicate SameSettings(b: Builder)
      reads this
    {
      && b.maxLevel == maxLevel && b.mMax == mMax && b.efConstruction == efConstruction
      && b.vectors == vectors && b.extendCandidates == extendCandidates
      && b.logBase == logBase && b.useSelectHeuristic == useSelectHeuristic
    }

    /**
     * The builder object for a configured record, such as `New(vectors)`
     * after any setters; the object form is what `Insert` and `BuildWith`
     * update in place.
     */
    constructor (b: Builder)
      ensures Value() == b
    {
      maxLevel, mMax, efConstruction, vectors := b.maxLevel, b.mMax, b.efConstruction, b.vectors;
      levels, entryPoint := b.levels, b.entryPoint;
      extendCandidates, logBase, useSelectHeuristic := b.extendCandidates, b.logBase, b.useSelectHeuristic;
    }

    /** The search-only descent through the topmost `levelsToSearch` layers. */
    method DescendEntry(levelsToSearch: nat, node: NodeId, prims: Primitives) returns (res: Result<seq<NodeId>, Error>)
      requires levelsToSearch <= |levels|
      ensures res == Descend(levels, |levels| - levelsToSearch, |levels|, [entryPoint], node, prims)
    {
      var n := |levels|;
      var ep := [entryPoint];
      for i := 0 to levelsToSearch
        invariant Descend(levels, n - levelsToSearch, n, [entryPoint], node, prims)
               == Descend(levels, n - levelsToSearch, n - i, ep, node, prims)
      {
        var candidates :- prims.beamSearch(levels[n - 1 - i], ep, node, 1);
        ep := SelectNeighbors(candidates, 1);
      }
      res := Success(ep);
    }

    /** Connects `node` to each of `neighbours` in layer `j`, stopping at the first failure. */
    method ConnectNeighbours(j: nat, node: NodeId, neighbours: seq<NodeId>) returns (res: Result<(), Error>)
      requires j < |levels|
      modifies this
      ensures entryPoint == old(entryPoint)
      ensures |levels| == old(|levels|) && levels == old(levels)[j := levels[j]]
      ensures var c := ConnectAll(old(levels[j]), node, neighbours, vectors.distance);
        && (res.Success? ==> c == Success(levels[j]))
        && (res.Failure? ==> c == Failure(res.error))
    {
      for k := 0 to |neighbours|
        invariant entryPoint == old(entryPoint)
        invariant |levels| == old(|levels|) && levels == old(levels)[j := levels[j]]
        invariant ConnectAll(old(levels[j]), node, neighbours, vectors.distance)
               == ConnectAll(levels[j], node, neighbours[k..], vectors.distance)
      {
        assert neighbours[k..][1..] == neighbours[k + 1..];
        var g :- Connect(levels[j], node, neighbours[k], vectors.distance);
        levels := levels[j := g];
      }
      res := Success(());
    }

    /** Prunes each of `neighbours` in layer `j` to `mMax`. */
    method PruneNeighbours(j: nat, neighbours: seq<NodeId>)
      requires j < |levels| && forall nb :: nb in neighbours ==> nb in levels[j].adj
      modifies this
      ensures entryPoint == old(entryPoint)
      ensures levels == old(levels)[j := PruneAll(old(levels[j]), neighbours, mMax).value]
    {
      for k := 0 to |neighbours|
        invariant entryPoint == old(entryPoint)
        invariant |levels| == old(|levels|) && levels == old(levels)[j := levels[j]]
        invariant levels[j].adj.Keys == old(levels[j]).adj.Keys
        invariant PruneAll(old(levels[j]), neighbours, mMax) == PruneAll(levels[j], neighbours[k..], mMax)
      {
        assert neighbours[k..][1..] == neighbours[k + 1..];
        levels := levels[j := Prune(levels[j], neighbours[k], mMax).value];
      }
    }

    /**
     * One insertion layer, layer `j`, changed in place; returns all candidates
     * the beam search found.
     */
    method InsertIntoLayer(ghost b: Builder, j: nat, node: NodeId, ep: seq<NodeId>, query: NodeId, m: nat, prims: Primitives)
      returns (res: Result<seq<NodeId>, Error>)
      requires SameSettings(b) && j < |levels|
      modifies this
      ensures entryPoint == old(entryPoint)
      ensures |levels| == old(|levels|) && levels == old(levels)[j := levels[j]]
      ensures var step := LayerStep(b, old(levels[j]), node, ep, query, m, prims);
        && (res.Success? ==> step == Success((levels[j], res.value)))
        && (res.Failure? ==> step == Failure(res.error))
    {
      levels := levels[j := MarkPresent(levels[j], node)];
      var candidates :- prims.beamSearch(levels[j], ep, node, efConstruction);
      var neighbours := if useSelectHeuristic
        then prims.selectHeuristic(levels[j], query, candidates, m, extendCandidates)
        else SelectNeighbors(candidates, m);
      assert neighbours == Selection(b, levels[j], query, candidates, m, prims);
      var connected :- ConnectNeighbours(j, node, neighbours);
      PruneNeighbours(j, neighbours);
      levels := levels[j := Prune(levels[j], node, mMax).value];
      res := Success(candidates);
    }

    /**
     * The insertion layers `hi - 1` down to 0, each seeded with the previous
     * layer's candidates; stops at the first failure.
     */
    method InsertLayersFrom(ghost b: Builder, hi: nat, ep0: seq<NodeId>, node: NodeId, query: NodeId, m: nat, prims: Primitives)
      returns (res: Result<(), Error>)
      requires SameSettings(b) && hi <= |levels|
      modifies this
      ensures |levels| == old(|levels|) && entryPoint == old(entryPoint)
      ensures var r := InsertLayers(b, old(levels), hi, ep0, node, query, m, prims);
        && (res.Success? ==> r == Success(levels))
        && (res.Failure? ==> r == Failure(res.error))
    {
      var ep := ep0;
      for j := hi downto 0
        invariant |levels| == old(|levels|) && entryPoint == old(entryPoint)
        invariant InsertLayers(b, old(levels), hi, ep0, node, query, m, prims)
               == InsertLayers(b, levels, j, ep, node, query, m, prims)
      {
        ghost var ls0 := levels;
        var candidates := InsertIntoLayer(b, j, node, ep, query, m, prims);
        if candidates.Failure? {
          InsertLayersStepFails(b, ls0, j + 1, ep, node, query, m, prims, candidates.error);
          return Failure(candidates.error);
        }
        InsertLayersStepSucceeds(b, ls0, j + 1, ep, node, query, m, prims, levels[j], candidates.value);
        ep := candidates.value;
      }
      res := Success(());
    }

    /** Inserts one node; `raw` is the level drawn for it. */
    method Insert(node: NodeId, raw: U16, prims: Primitives) returns (res: Result<(), Error>)
      requires |levels| > 0
      modifies this
      ensures |levels| == old(|levels|)
      ensures res.Failure? ==> entryPoint == old(entryPoint)
      ensures var r := InsertOutcome(old(Value()), node, raw, prims);
        && (res.Success? ==> r == Success(Value()))
        && (res.Failure? ==> r == Failure(res.error))
    {
      ghost var b0 := Value();
      var levelsToSearch := LevelsToSearch(|levels|, RandomLevel(maxLevel, raw));
      var descent := DescendEntry(levelsToSearch, node, prims);
      if descent.Failure? {
        InsertOutcomeDescentFails(b0, node, raw, prims, descent.error);
        return Failure(descent.error);
      }
      res := InsertBelow(b0, node, raw, descent.value, prims);
    }

    /**
     * The part of `Insert` after the descent: the insertion layers, starting
     * from the descent's result `ep`, then the entry-point rule.
     */
    method InsertBelow(ghost b0: Builder, node: NodeId, raw: U16, ep: seq<NodeId>, prims: Primitives)
      returns (res: Result<(), Error>)
      requires Value() == b0 && |levels| > 0
      requires Descend(levels, |levels| - SearchCount(b0, raw), |levels|, [entryPoint], node, prims) == Success(ep)
      modifies this
      ensures |levels| == old(|levels|)
      ensures res.Failure? ==> entryPoint == old(entryPoint)
      ensures var r := InsertOutcome(b0, node, raw, prims);
        && (res.Success? ==> r == Success(Value()))
        && (res.Failure? ==> r == Failure(res.error))
    {
      InsertOutcomeDescentSucceeds(b0, node, raw, prims, ep);
      var n := |levels|;
      var level := RandomLevel(maxLevel, raw);
      var query := entryPoint;
      var m := Len(Value());
      var inserted := InsertLayersFrom(b0, n - LevelsToSearch(n, level), ep, node, query, m, prims);
      ghost var layers := InsertLayers(b0, b0.levels, n - SearchCount(b0, raw), ep, node, b0.entryPoint, Len(b0), prims);
      assert InsertOutcome(b0, node, raw, prims) == Conclude(b0, node, raw, layers);
      if inserted.Failure? {
        return Failure(inserted.error);
      }
      if level > n % U16_MODULUS {
        entryPoint := node;
      }
      assert entryPoint == NextEntryPoint(b0, node, raw);
      res := Success(());
    }

    /**
     * Seeds `maxLevel` layers holding node 0, inserts ids `1 .. count - 1` in
     * order with levels drawn by `draw`, stopping at the first failure, and
     * finalises every layer against `storage`.
     */
    method BuildWith(storage: VectorStore, draw: NodeId -> U16, prims: Primitives) returns (res: Result<HnswIndex, Error>)
      requires |levels| > 0 || maxLevel > 0 || vectors.count <= 1
      modifies this
      ensures res == BuildWithOutcome(old(Value()), storage, draw, prims)
      ensures var s := BuildState(old(Value()), draw, prims);
        s.Success? ==> Value() == s.value
    {
      ghost var b0 := Value();
      for i := 0 to maxLevel
        invariant levels == b0.levels + SeedLayers(i) && entryPoint == b0.entryPoint
      {
        levels := levels + [SeedLayer];
      }
      assert Value() == Seeded(b0);

      var inserted := InsertIds(1, vectors.count, draw, prims);
      if inserted.Failure? {
        return Failure(inserted.error);
      }
      var graphs :- FinishAll(levels, storage, prims);
      res := Success(HnswIndex(graphs, entryPoint, vectors.metric, useSelectHeuristic));
    }

    /** Inserts ids `lo .. hi - 1` in increasing order, stopping at the first failure. */
    method InsertIds(lo: nat, hi: nat, draw: NodeId -> U16, prims: Primitives) returns (res: Result<(), Error>)
      requires lo >= hi || |levels| > 0
      modifies this
      ensures |levels| == old(|levels|)
      ensures var r := InsertAll(old(Value()), lo, hi, draw, prims);
        && (res.Success? ==> r == Success(Value()))
        && (res.Failure? ==> r == Failure(res.error))
    {
      var node := lo;
      while node < hi
        invariant |levels| == old(|levels|)
        invariant InsertAll(old(Value()), lo, hi, draw, prims) == InsertAll(Value(), node, hi, draw, prims)
        decreases hi - node
      {
        ghost var before := Value();
        var inserted := Insert(node, draw(node), prims);
        if inserted.Failure? {
          InsertAllFails(before, node, hi, draw, prims, inserted.error);
          return Failure(inserted.error);
        }
        InsertAllStep(before, node, hi, draw, prims, Value());
        node := node + 1;
      }
      res := Success(());
    }

    /** Builds with the builder's own vector source as the index storage. */
    method Build(draw: NodeId -> U16, prims: Primitives) returns (res: Result<HnswIndex, Error>)
      requires |levels| > 0 || maxLevel > 0 || vectors.count <= 1
      modifies this
      ensures res == BuildWithOutcome(old(Value()), vectors, draw, prims)
      ensures var s := BuildState(old(Value()), draw, prims);
        s.Success? ==> Value() == s.value
    {
      res := BuildWith(vectors, draw, prims);
    }
  }
}
