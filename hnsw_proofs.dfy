/**
 * Properties of the HNSW builder model: what one insertion layer does to its
 * graph, which layers an insertion touches, that every layer stays
 * well-formed and within the degree bound, and the exact layout a build
 * produces from a fresh builder.
 */
module HnswProofs {
  import opened Wrappers
  import opened LayerGraph
  import opened Hnsw

  /** Every layer is within the degree bound. */
  ghost predicate AllBounded(ls: seq<Layer>, bound: nat) {
    forall l :: 0 <= l < |ls| ==> Bounded(ls[l], bound)
  }

  /** Every layer is well-formed under `dist`. */
  ghost predicate AllValid(ls: seq<Layer>, dist: Distance) {
    forall l :: 0 <= l < |ls| ==> Valid(ls[l], dist)
  }

  // ---------------------------------------------------------------------
  // One insertion layer

  /**
   * One insertion layer returns the beam-search candidates, leaves the node
   * and every selected neighbour within `mMax`, and leaves every other list
   * as it was.
   */
  lemma LayerStepEffect(b: Builder, g: Layer, node: NodeId, ep: seq<NodeId>, query: NodeId, m: nat, prims: Primitives)
    requires LayerStep(b, g, node, ep, query, m, prims).Success?
    ensures var g1 := MarkPresent(g, node);
      var candidates := prims.beamSearch(g1, ep, node, b.efConstruction);
      var r := LayerStep(b, g, node, ep, query, m, prims).value;
      && candidates.Success? && r.1 == candidates.value
      && |r.0.adj[node]| <= b.mMax
      && (forall nb :: nb in Selection(b, g1, query, candidates.value, m, prims) ==> |r.0.adj[nb]| <= b.mMax)
      && (forall x :: x in g.adj && x != node && x !in Selection(b, g1, query, candidates.value, m, prims)
            ==> r.0.adj[x] == g.adj[x])
  {
    var dist := b.vectors.distance;
    var g1 := MarkPresent(g, node);
    var candidates := prims.beamSearch(g1, ep, node, b.efConstruction).value;
    var nbs := Selection(b, g1, query, candidates, m, prims);
    var g2 := ConnectAll(g1, node, nbs, dist).value;
    ConnectAllEffect(g1, node, nbs, dist);
    var g3 := PruneAll(g2, nbs, b.mMax).value;
    PruneAllEffect(g2, nbs, b.mMax);
    PruneEffect(g3, node, b.mMax);
  }

  /**
   * Connecting `node` to `nbs`, pruning each of `nbs` and then `node`, adds
   * only edges between `node` and one of `nbs`, and leaves `node` with a
   * neighbour when `nbs` is not empty and `bound > 0`.
   */
  lemma ConnectPruneEdges(g: Layer, node: NodeId, nbs: seq<NodeId>, dist: Distance, bound: nat) returns (r: Layer)
    requires ConnectAll(g, node, nbs, dist).Success? && node in g.adj
    ensures PruneAll(ConnectAll(g, node, nbs, dist).value, nbs, bound).Success?
    ensures Prune(PruneAll(ConnectAll(g, node, nbs, dist).value, nbs, bound).value, node, bound) == Success(r)
    ensures forall x, y {:trigger y in r.adj[x]} :: x in r.adj && y in r.adj[x] ==>
              y in g.adj[x] || (x == node && y in nbs) || (x in nbs && y == node)
    ensures nbs != [] && bound > 0 ==> r.adj[node] != []
  {
    var g2 := ConnectAll(g, node, nbs, dist).value;
    ConnectAllEffect(g, node, nbs, dist);
    var g3 := PruneAll(g2, nbs, bound).value;
    PruneAllEffect(g2, nbs, bound);
    r := Prune(g3, node, bound).value;
    PruneEffect(g3, node, bound);
    KeepFacts(g3.adj[node], bound);
    forall x: NodeId, y: NodeId {:trigger y in r.adj[x]} | x in r.adj && y in r.adj[x]
      ensures y in g.adj[x] || (x == node && y in nbs) || (x in nbs && y == node)
    {
      assert y in g3.adj[x];
      assert y in g2.adj[x];
      ConnectAllNewEdge(g, node, nbs, dist, x, y);
    }
    if nbs != [] && bound > 0 {
      assert nbs[0] in g2.adj[node];
      assert |g3.adj[node]| > 0;
    }
  }

  /**
   * The only edges an insertion layer adds join the node and one of its
   * selected neighbours.  A node new to the layer therefore ends with a list
   * drawn from its selection, and that list is not empty when the selection
   * is not and `mMax > 0`.
   */
  lemma LayerStepEdges(b: Builder, g: Layer, node: NodeId, ep: seq<NodeId>, query: NodeId, m: nat, prims: Primitives)
    returns (r: Layer, sel: seq<NodeId>)
    requires LayerStep(b, g, node, ep, query, m, prims).Success?
    ensures r == LayerStep(b, g, node, ep, query, m, prims).value.0
    ensures var g1 := MarkPresent(g, node);
      sel == Selection(b, g1, query, prims.beamSearch(g1, ep, node, b.efConstruction).value, m, prims)
    ensures forall x, y {:trigger y in r.adj[x]} :: x in r.adj && y in r.adj[x] ==>
              (x in g.adj && y in g.adj[x]) || (x == node && y in sel) || (x in sel && y == node)
    ensures node !in g.adj ==> forall y :: y in r.adj[node] ==> y in sel
    ensures sel != [] && b.mMax > 0 ==> r.adj[node] != []
  {
    var g1 := MarkPresent(g, node);
    var candidates := prims.beamSearch(g1, ep, node, b.efConstruction).value;
    sel := Selection(b, g1, query, candidates, m, prims);
    r := ConnectPruneEdges(g1, node, sel, b.vectors.distance, b.mMax);
    forall x: NodeId, y: NodeId {:trigger y in r.adj[x]} | x in r.adj && y in r.adj[x]
      ensures (x in g.adj && y in g.adj[x]) || (x == node && y in sel) || (x in sel && y == node)
    {
      assert y in g1.adj[x] || (x == node && y in sel) || (x in sel && y == node);
    }
  }

  lemma LayerStepBounded(b: Builder, g: Layer, node: NodeId, ep: seq<NodeId>, query: NodeId, m: nat, prims: Primitives)
    requires Bounded(g, b.mMax) && LayerStep(b, g, node, ep, query, m, prims).Success?
    ensures Bounded(LayerStep(b, g, node, ep, query, m, prims).value.0, b.mMax)
  {
    LayerStepEffect(b, g, node, ep, query, m, prims);
  }

  lemma LayerStepValid(b: Builder, g: Layer, node: NodeId, ep: seq<NodeId>, query: NodeId, m: nat, prims: Primitives)
    requires Valid(g, b.vectors.distance) && LayerStep(b, g, node, ep, query, m, prims).Success?
    ensures Valid(LayerStep(b, g, node, ep, query, m, prims).value.0, b.vectors.distance)
  {
    var dist := b.vectors.distance;
    var g1 := MarkPresent(g, node);
    MarkPresentValid(g, node, dist);
    var candidates := prims.beamSearch(g1, ep, node, b.efConstruction).value;
    var nbs := Selection(b, g1, query, candidates, m, prims);
    ConnectAllValid(g1, node, nbs, dist);
    var g2 := ConnectAll(g1, node, nbs, dist).value;
    PruneAllValid(g2, nbs, b.mMax, dist);
    var g3 := PruneAll(g2, nbs, b.mMax).value;
    PruneValid(g3, node, b.mMax, dist);
  }

  // ---------------------------------------------------------------------
  // The insertion layers

  // The top layer of a successful `InsertLayers`, and what its step did.

  lemma InsertLayersTop(b: Builder, ls: seq<Layer>, n: nat, ep: seq<NodeId>, node: NodeId, query: NodeId, m: nat,
                        prims: Primitives)
    returns (g: Layer, candidates: seq<NodeId>)
    requires 0 < n <= |ls| && InsertLayers(b, ls, n, ep, node, query, m, prims).Success?
    ensures g.adj.Keys == ls[n - 1].adj.Keys + {node}
    ensures InsertLayers(b, ls, n, ep, node, query, m, prims)
         == InsertLayers(b, ls[n - 1 := g], n - 1, candidates, node, query, m, prims)
  {
    g, candidates := InsertLayersFirst(b, ls, n, ep, node, query, m, prims);
  }

  lemma InsertLayersTopBounded(b: Builder, ls: seq<Layer>, n: nat, ep: seq<NodeId>, node: NodeId, query: NodeId, m: nat,
                               prims: Primitives)
    returns (g: Layer, candidates: seq<NodeId>)
    requires 0 < n <= |ls| && Bounded(ls[n - 1], b.mMax) && InsertLayers(b, ls, n, ep, node, query, m, prims).Success?
    ensures Bounded(g, b.mMax)
    ensures InsertLayers(b, ls, n, ep, node, query, m, prims)
         == InsertLayers(b, ls[n - 1 := g], n - 1, candidates, node, query, m, prims)
  {
    g, candidates := InsertLayersFirst(b, ls, n, ep, node, query, m, prims);
    LayerStepBounded(b, ls[n - 1], node, ep, query, m, prims);
  }

  lemma InsertLayersTopValid(b: Builder, ls: seq<Layer>, n: nat, ep: seq<NodeId>, node: NodeId, query: NodeId, m: nat,
                             prims: Primitives, r: seq<Layer>)
    returns (g: Layer, candidates: seq<NodeId>)
    requires 0 < n <= |ls| && Valid(ls[n - 1], b.vectors.distance) && InsertLayers(b, ls, n, ep, node, query, m, prims) == Success(r)
    ensures Valid(g, b.vectors.distance)
    ensures InsertLayers(b, ls[n - 1 := g], n - 1, candidates, node, query, m, prims) == Success(r)
  {
    g, candidates := InsertLayersFirst(b, ls, n, ep, node, query, m, prims);
    LayerStepValid(b, ls[n - 1], node, ep, query, m, prims);
  }

  /** The insertion layers `0 .. n - 1` gain the node; the layers above are untouched. */
  lemma {:induction false} InsertLayersEffect(b: Builder, ls: seq<Layer>, n: nat, ep: seq<NodeId>, node: NodeId,
                                              query: NodeId, m: nat, prims: Primitives, r: seq<Layer>)
    requires n <= |ls| && InsertLayers(b, ls, n, ep, node, query, m, prims) == Success(r)
    ensures |r| == |ls|
    ensures forall l :: 0 <= l < n ==> r[l].adj.Keys == ls[l].adj.Keys + {node}
    ensures forall l :: n <= l < |ls| ==> r[l] == ls[l]
    decreases n
  {
    if n > 0 {
      var g, candidates := InsertLayersTop(b, ls, n, ep, node, query, m, prims);
      ghost var ls1 := ls[n - 1 := g];
      InsertLayersEffect(b, ls1, n - 1, candidates, node, query, m, prims, r);
      forall l | 0 <= l < n - 1 ensures r[l].adj.Keys == ls[l].adj.Keys + {node} {
        assert ls1[l] == ls[l];
      }
      assert r[n - 1] == g;
      forall l | n <= l < |ls| ensures r[l] == ls[l] {
        assert ls1[l] == ls[l];
      }
    }
  }

  lemma {:induction false} InsertLayersBounded(b: Builder, ls: seq<Layer>, n: nat, ep: seq<NodeId>, node: NodeId,
                                               query: NodeId, m: nat, prims: Primitives, r: seq<Layer>)
    requires n <= |ls| && AllBounded(ls, b.mMax) && InsertLayers(b, ls, n, ep, node, query, m, prims) == Success(r)
    ensures AllBounded(r, b.mMax)
    decreases n
  {
    if n > 0 {
      var g, candidates := InsertLayersTopBounded(b, ls, n, ep, node, query, m, prims);
      ghost var ls1 := ls[n - 1 := g];
      forall l | 0 <= l < |ls1| ensures Bounded(ls1[l], b.mMax) {
        if l != n - 1 {
          assert ls1[l] == ls[l];
        }
      }
      InsertLayersBounded(b, ls1, n - 1, candidates, node, query, m, prims, r);
    }
  }

  lemma {:induction false} InsertLayersValid(b: Builder, ls: seq<Layer>, n: nat, ep: seq<NodeId>, node: NodeId,
                                             query: NodeId, m: nat, prims: Primitives, r: seq<Layer>)
    requires n <= |ls| && AllValid(ls, b.vectors.distance)
    requires InsertLayers(b, ls, n, ep, node, query, m, prims) == Success(r)
    ensures AllValid(r, b.vectors.distance)
    decreases n
  {
    if n > 0 {
      var g, candidates := InsertLayersTopValid(b, ls, n, ep, node, query, m, prims, r);
      ghost var ls1 := ls[n - 1 := g];
      forall l | 0 <= l < |ls1| ensures Valid(ls1[l], b.vectors.distance) {
        if l != n - 1 {
          assert ls1[l] == ls[l];
        }
      }
      InsertLayersValid(b, ls1, n - 1, candidates, node, query, m, prims, r);
    }
  }

  // ---------------------------------------------------------------------
  // One insertion

  /**
   * A node of level `level` is added to exactly the layers `0 .. level` that
   * exist, the layers above are untouched, and the entry point follows the
   * entry-point rule.
   */
  lemma InsertOutcomeEffect(b: Builder, node: NodeId, raw: U16, prims: Primitives)
    requires |b.levels| > 0 && InsertOutcome(b, node, raw, prims).Success?
    ensures var r := InsertOutcome(b, node, raw, prims).value;
      var level := RandomLevel(b.maxLevel, raw);
      && |r.levels| == |b.levels|
      && (forall l :: 0 <= l < |b.levels| && l <= level ==> r.levels[l].adj.Keys == b.levels[l].adj.Keys + {node})
      && (forall l :: level < l < |b.levels| ==> r.levels[l] == b.levels[l])
      && r.entryPoint == NextEntryPoint(b, node, raw)
  {
    var n := |b.levels|;
    var k := SearchCount(b, raw);
    var ep := Descend(b.levels, n - k, n, [b.entryPoint], node, prims).value;
    InsertOutcomeDescentSucceeds(b, node, raw, prims, ep);
    InsertLayersEffect(b, b.levels, n - k, ep, node, b.entryPoint, Len(b), prims,
                     InsertLayers(b, b.levels, n - k, ep, node, b.entryPoint, Len(b), prims).value);
  }

  lemma InsertOutcomeBounded(b: Builder, node: NodeId, raw: U16, prims: Primitives)
    requires |b.levels| > 0 && AllBounded(b.levels, b.mMax) && InsertOutcome(b, node, raw, prims).Success?
    ensures AllBounded(InsertOutcome(b, node, raw, prims).value.levels, b.mMax)
  {
    var n := |b.levels|;
    var k := SearchCount(b, raw);
    var ep := Descend(b.levels, n - k, n, [b.entryPoint], node, prims).value;
    InsertOutcomeDescentSucceeds(b, node, raw, prims, ep);
    InsertLayersBounded(b, b.levels, n - k, ep, node, b.entryPoint, Len(b), prims,
                     InsertLayers(b, b.levels, n - k, ep, node, b.entryPoint, Len(b), prims).value);
  }

  lemma InsertOutcomeValid(b: Builder, node: NodeId, raw: U16, prims: Primitives)
    requires |b.levels| > 0 && AllValid(b.levels, b.vectors.distance) && InsertOutcome(b, node, raw, prims).Success?
    ensures AllValid(InsertOutcome(b, node, raw, prims).value.levels, b.vectors.distance)
  {
    var n := |b.levels|;
    var k := SearchCount(b, raw);
    var ep := Descend(b.levels, n - k, n, [b.entryPoint], node, prims).value;
    InsertOutcomeDescentSucceeds(b, node, raw, prims, ep);
    InsertLayersValid(b, b.levels, n - k, ep, node, b.entryPoint, Len(b), prims,
                     InsertLayers(b, b.levels, n - k, ep, node, b.entryPoint, Len(b), prims).value);
  }

  /**
   * The entry-point rule compares the level with the layer count truncated
   * to 16 bits; while that count is at least `maxLevel` and fits in 16 bits,
   * no level exceeds it, so the entry point never moves.
   */
  lemma EntryPointStays(b: Builder, node: NodeId, raw: U16)
    requires b.maxLevel <= |b.levels| < U16_MODULUS
    ensures NextEntryPoint(b, node, raw) == b.entryPoint
  {
  }

  /** With 65536 layers the count truncates to 0, and any node of positive level becomes the entry point. */
  lemma EntryPointMovesAfterTruncation(b: Builder, node: NodeId, raw: U16)
    requires |b.levels| == U16_MODULUS && 0 < raw <= b.maxLevel
    ensures NextEntryPoint(b, node, raw) == node
  {
  }

  // ---------------------------------------------------------------------
  // The build

  lemma {:induction false} InsertAllBounded(b: Builder, lo: nat, hi: nat, draw: NodeId -> U16, prims: Primitives)
    requires lo >= hi || |b.levels| > 0
    requires AllBounded(b.levels, b.mMax) && InsertAll(b, lo, hi, draw, prims).Success?
    ensures AllBounded(InsertAll(b, lo, hi, draw, prims).value.levels, b.mMax)
    decreases hi - lo
  {
    if lo < hi {
      var b1 := InsertAllFirst(b, lo, hi, draw, prims);
      InsertOutcomeBounded(b, lo, draw(lo), prims);
      InsertAllBounded(b1, lo + 1, hi, draw, prims);
    }
  }

  lemma {:induction false} InsertAllValid(b: Builder, lo: nat, hi: nat, draw: NodeId -> U16, prims: Primitives)
    requires lo >= hi || |b.levels| > 0
    requires AllValid(b.levels, b.vectors.distance) && InsertAll(b, lo, hi, draw, prims).Success?
    ensures AllValid(InsertAll(b, lo, hi, draw, prims).value.levels, b.vectors.distance)
    decreases hi - lo
  {
    if lo < hi {
      var b1 := InsertAllFirst(b, lo, hi, draw, prims);
      InsertOutcomeValid(b, lo, draw(lo), prims);
      InsertAllValid(b1, lo + 1, hi, draw, prims);
    }
  }

  /** The seeded layers are well-formed and within any bound. */
  lemma SeededWellFormed(b: Builder)
    requires AllBounded(b.levels, b.mMax) && AllValid(b.levels, b.vectors.distance)
    ensures AllBounded(Seeded(b).levels, b.mMax) && AllValid(Seeded(b).levels, b.vectors.distance)
  {
    var ls := Seeded(b).levels;
    var seeds := SeedLayers(b.maxLevel);
    forall l | 0 <= l < |ls| ensures Bounded(ls[l], b.mMax) && Valid(ls[l], b.vectors.distance) {
      if l >= |b.levels| {
        assert ls[l] == seeds[l - |b.levels|] == SeedLayer;
      } else {
        assert ls[l] == b.levels[l];
      }
    }
  }

  /**
   * Building keeps every layer well-formed (distance-ordered, repeat-free,
   * closed neighbour lists) and every node within `mMax` neighbours.
   */
  lemma BuildWellFormed(b: Builder, draw: NodeId -> U16, prims: Primitives)
    requires |b.levels| > 0 || b.maxLevel > 0 || b.vectors.count <= 1
    requires AllBounded(b.levels, b.mMax) && AllValid(b.levels, b.vectors.distance)
    requires BuildState(b, draw, prims).Success?
    ensures AllBounded(BuildState(b, draw, prims).value.levels, b.mMax)
    ensures AllValid(BuildState(b, draw, prims).value.levels, b.vectors.distance)
  {
    SeededWellFormed(b);
    InsertAllBounded(Seeded(b), 1, b.vectors.count, draw, prims);
    InsertAllValid(Seeded(b), 1, b.vectors.count, draw, prims);
  }

  // ---------------------------------------------------------------------
  // The layout of a build from a fresh builder

  /**
   * Whether id `i` is in layer `l` once ids `1 .. k - 1` are inserted into a
   * fresh build: node 0 always is, every other id below `k` exactly when its
   * drawn level reaches `l`.
   */
  predicate Member(maxLevel: U16, draw: NodeId -> U16, l: nat, k: nat, i: NodeId) {
    i == 0 || (i < k && l <= RandomLevel(maxLevel, draw(i)))
  }

  /** `maxLevel` layers, each holding exactly its members for ids below `k`. */
  ghost predicate Layout(b: Builder, draw: NodeId -> U16, k: nat) {
    && |b.levels| == b.maxLevel
    && forall l, i: NodeId :: 0 <= l < |b.levels| ==> (i in b.levels[l].adj.Keys <==> Member(b.maxLevel, draw, l, k, i))
  }

  lemma LayoutStep(b: Builder, k: nat, draw: NodeId -> U16, prims: Primitives, r: Builder)
    requires 1 <= k && |b.levels| > 0 && Layout(b, draw, k)
    requires InsertOutcome(b, k, draw(k), prims) == Success(r)
    ensures Layout(r, draw, k + 1) && r.entryPoint == b.entryPoint
  {
    InsertOutcomeEffect(b, k, draw(k), prims);
    EntryPointStays(b, k, draw(k));
    LayoutExtend(b, r, draw, k);
  }

  /**
   * Adding id `k` to the layers up to its level, and leaving the layers
   * above alone, extends a layout for ids below `k` to one for ids below `k + 1`.
   */
  lemma LayoutExtend(b: Builder, r: Builder, draw: NodeId -> U16, k: nat)
    requires 1 <= k && Layout(b, draw, k) && |r.levels| == |b.levels| && r.maxLevel == b.maxLevel
    requires forall l :: 0 <= l < |b.levels| && l <= RandomLevel(b.maxLevel, draw(k)) ==> r.levels[l].adj.Keys == b.levels[l].adj.Keys + {k}
    requires forall l :: RandomLevel(b.maxLevel, draw(k)) < l < |b.levels| ==> r.levels[l] == b.levels[l]
    ensures Layout(r, draw, k + 1)
  {
    forall l, i: NodeId | 0 <= l < |r.levels| ensures i in r.levels[l].adj.Keys <==> Member(r.maxLevel, draw, l, k + 1, i) {
      if l <= RandomLevel(b.maxLevel, draw(k)) {
        assert r.levels[l].adj.Keys == b.levels[l].adj.Keys + {k};
      } else {
        assert r.levels[l] == b.levels[l];
      }
    }
  }

  /** The first insertion of a successful `InsertAll` extends the layout by one id. */
  lemma LayoutFirst(b: Builder, lo: nat, hi: nat, draw: NodeId -> U16, prims: Primitives) returns (b1: Builder)
    requires 1 <= lo < hi && |b.levels| > 0 && Layout(b, draw, lo) && InsertAll(b, lo, hi, draw, prims).Success?
    ensures Layout(b1, draw, lo + 1) && b1.entryPoint == b.entryPoint && |b1.levels| == |b.levels|
    ensures InsertAll(b, lo, hi, draw, prims) == InsertAll(b1, lo + 1, hi, draw, prims)
  {
    b1 := InsertAllFirst(b, lo, hi, draw, prims);
    LayoutStep(b, lo, draw, prims, b1);
  }

  lemma {:induction false} InsertAllLayout(b: Builder, lo: nat, hi: nat, draw: NodeId -> U16, prims: Primitives, r: Builder)
    requires 1 <= lo <= hi && Layout(b, draw, lo) && (lo == hi || |b.levels| > 0)
    requires InsertAll(b, lo, hi, draw, prims) == Success(r)
    ensures Layout(r, draw, hi) && r.entryPoint == b.entryPoint
    decreases hi - lo
  {
    if lo < hi {
      var b1 := LayoutFirst(b, lo, hi, draw, prims);
      InsertAllLayout(b1, lo + 1, hi, draw, prims, r);
    }
  }

  /**
   * Building a fresh builder gives `maxLevel` layers; layer `l` holds node 0
   * and exactly the ids whose drawn level reaches `l`; the entry point stays
   * where it was.
   */
  lemma BuildLayout(b: Builder, draw: NodeId -> U16, prims: Primitives)
    requires b.levels == [] && (b.maxLevel > 0 || b.vectors.count <= 1)
    requires BuildState(b, draw, prims).Success?
    ensures Layout(BuildState(b, draw, prims).value, draw, b.vectors.count)
    ensures BuildState(b, draw, prims).value.entryPoint == b.entryPoint
  {
    var s := Seeded(b);
    forall l, i: NodeId | 0 <= l < |s.levels| ensures i in s.levels[l].adj.Keys <==> Member(b.maxLevel, draw, l, 1, i) {
      assert s.levels[l] == SeedLayer;
    }
    if b.vectors.count <= 1 {
      forall l, i: NodeId | 0 <= l < |s.levels|
        ensures Member(b.maxLevel, draw, l, 1, i) == Member(b.maxLevel, draw, l, b.vectors.count, i)
      {
      }
    } else {
      InsertAllLayout(s, 1, b.vectors.count, draw, prims, BuildState(b, draw, prims).value);
    }
  }

  /** The layers are nested: a node present in a layer is present in every layer below it. */
  lemma BuildLayersNested(b: Builder, draw: NodeId -> U16, prims: Primitives, lower: nat, upper: nat)
    requires b.levels == [] && (b.maxLevel > 0 || b.vectors.count <= 1)
    requires BuildState(b, draw, prims).Success? && lower <= upper < b.maxLevel
    ensures var r := BuildState(b, draw, prims).value;
      r.levels[upper].adj.Keys <= r.levels[lower].adj.Keys
  {
    BuildLayout(b, draw, prims);
  }

  /** The ids `0 .. k - 1`. */
  function Ids(k: nat): (r: set<NodeId>)
    ensures forall i: NodeId :: i in r <==> i < k
    ensures |r| == k
  {
    if k == 0 then {} else Ids(k - 1) + {k - 1}
  }

  /** In a layout the base layer holds every id below `k`. */
  lemma LayoutBase(b: Builder, draw: NodeId -> U16, k: nat)
    requires 1 <= k && b.maxLevel > 0 && Layout(b, draw, k)
    ensures b.levels[0].adj.Keys == Ids(k)
  {
    forall i: NodeId ensures i in b.levels[0].adj.Keys <==> i in Ids(k) {
      assert Member(b.maxLevel, draw, 0, k, i) <==> i < k;
    }
  }

  /** The base layer of a fresh build holds every vector id. */
  lemma BuildBaseLayer(b: Builder, draw: NodeId -> U16, prims: Primitives)
    requires b.levels == [] && b.maxLevel > 0 && b.vectors.count >= 1
    requires BuildState(b, draw, prims).Success?
    ensures BuildState(b, draw, prims).value.levels[0].adj.Keys == Ids(b.vectors.count)
  {
    BuildLayout(b, draw, prims);
    LayoutBase(BuildState(b, draw, prims).value, draw, b.vectors.count);
  }

  /**
   * During a fresh build, the selection target `m` used while inserting id
   * `k` (the base-layer size) is `k`: every earlier id is in the base layer.
   */
  lemma SelectionTargetIsInsertedCount(b: Builder, k: nat, draw: NodeId -> U16)
    requires 1 <= k && b.maxLevel > 0 && Layout(b, draw, k)
    ensures Len(b) == k
  {
    LayoutBase(b, draw, k);
  }

  /** During a fresh build each insertion grows the base layer by exactly one node. */
  lemma BaseLayerGrowsByOne(b: Builder, k: nat, draw: NodeId -> U16, prims: Primitives)
    requires 1 <= k && b.maxLevel > 0 && Layout(b, draw, k)
    requires InsertOutcome(b, k, draw(k), prims).Success?
    ensures Len(InsertOutcome(b, k, draw(k), prims).value) == Len(b) + 1
  {
    var r := InsertOutcome(b, k, draw(k), prims).value;
    LayoutStep(b, k, draw, prims, r);
    SelectionTargetIsInsertedCount(b, k, draw);
    SelectionTargetIsInsertedCount(r, k + 1, draw);
  }

  // ---------------------------------------------------------------------
  // The finished index

  /**
   * A successful build of a fresh builder finalises one level per layer
   * against `storage`, with the layout of `BuildLayout`, the builder's entry
   * point, metric and heuristic flag.
   */
  lemma BuildWithIndex(b: Builder, storage: VectorStore, draw: NodeId -> U16, prims: Primitives)
    requires b.levels == [] && (b.maxLevel > 0 || b.vectors.count <= 1)
    requires BuildWithOutcome(b, storage, draw, prims).Success?
    ensures var index := BuildWithOutcome(b, storage, draw, prims).value;
      && |index.levels| == b.maxLevel
      && (forall l :: 0 <= l < b.maxLevel ==>
            index.levels[l].storage == storage
            && index.levels[l].graph == BuildState(b, draw, prims).value.levels[l])
      && index.entryPoint == b.entryPoint
      && index.metric == b.vectors.metric && index.useSelectHeuristic == b.useSelectHeuristic
  {
    BuildLayout(b, draw, prims);
  }

  /** A failed build failed while inserting, or while finalising a layer, the first one that fails. */
  lemma BuildWithFailure(b: Builder, storage: VectorStore, draw: NodeId -> U16, prims: Primitives)
    requires |b.levels| > 0 || b.maxLevel > 0 || b.vectors.count <= 1
    requires BuildWithOutcome(b, storage, draw, prims).Failure?
    ensures var e := BuildWithOutcome(b, storage, draw, prims).error;
      || BuildState(b, draw, prims) == Failure(e)
      || (BuildState(b, draw, prims).Success?
          && exists l :: 0 <= l < |BuildState(b, draw, prims).value.levels|
               && prims.levelFailure(BuildState(b, draw, prims).value.levels[l], storage) == Some(e)
               && forall k :: 0 <= k < l ==> prims.levelFailure(BuildState(b, draw, prims).value.levels[k], storage).None?)
  {
  }

  /**
   * Building straight from the default configuration yields eight levels
   * whose entry point is node 0.
   */
  lemma BuildFromDefaults(vectors: VectorStore, storage: VectorStore, draw: NodeId -> U16, prims: Primitives)
    requires BuildWithOutcome(New(vectors), storage, draw, prims).Success?
    ensures var index := BuildWithOutcome(New(vectors), storage, draw, prims).value;
      |index.levels| == 8 && index.entryPoint == 0
  {
    BuildWithIndex(New(vectors), storage, draw, prims);
  }
}
