/**
 * The in-progress graph of one HNSW layer, as the builder uses it: which node
 * ids are present and, for each present node, its neighbour list.  A list is
 * kept in ascending order of distance from its owner, so pruning a node to a
 * degree bound keeps its closest neighbours.  Distances come from the vector
 * source and are a parameter here.
 */
module LayerGraph {
  import opened Wrappers

  type NodeId = nat

  /** Distance between the vectors of two node ids. */
  type Distance = (NodeId, NodeId) -> real

  datatype Error =
    | NodeNotFound(node: NodeId)
    | DistanceFailure
    | StorageFailure

  /** Present nodes are the keys; each maps to its neighbour list. */
  datatype Layer = Layer(adj: map<NodeId, seq<NodeId>>)

  const Empty: Layer := Layer(map[])

  /** Number of nodes present in the layer. */
  function Size(g: Layer): nat {
    |g.adj|
  }

  predicate Ordered(s: seq<NodeId>, owner: NodeId, dist: Distance) {
    forall i, j :: 0 <= i < j < |s| ==> dist(owner, s[i]) <= dist(owner, s[j])
  }

  predicate Distinct(s: seq<NodeId>) {
    forall i, j :: 0 <= i < j < |s| ==> s[i] != s[j]
  }

  /** Every list is distance-ordered and repeat-free and names present nodes only. */
  ghost predicate Valid(g: Layer, dist: Distance) {
    forall x :: x in g.adj ==>
      && Ordered(g.adj[x], x, dist)
      && Distinct(g.adj[x])
      && forall y :: y in g.adj[x] ==> y in g.adj
  }

  /** Every present node has at most `bound` neighbours. */
  ghost predicate Bounded(g: Layer, bound: nat) {
    forall x :: x in g.adj ==> |g.adj[x]| <= bound
  }

  /** Marks `node` present; a node already present keeps its neighbours. */
  function MarkPresent(g: Layer, node: NodeId): (r: Layer)
    ensures r.adj.Keys == g.adj.Keys + {node}
    ensures forall x :: x in g.adj ==> r.adj[x] == g.adj[x]
    ensures node !in g.adj ==> r.adj[node] == []
  {
    if node in g.adj then g else Layer(g.adj[node := []])
  }

  /** Places `x` in `s` after every entry at most as far from `owner`. */
  function InsertByDistance(s: seq<NodeId>, x: NodeId, owner: NodeId, dist: Distance): (r: seq<NodeId>)
    ensures |r| == |s| + 1
    ensures multiset(r) == multiset(s) + multiset{x}
    ensures forall y :: y in r <==> y in s || y == x
  {
    if s == [] || dist(owner, x) < dist(owner, s[0]) then
      [x] + s
    else
      assert s == [s[0]] + s[1..];
      [s[0]] + InsertByDistance(s[1..], x, owner, dist)
  }

  lemma {:induction false} InsertByDistanceOrdered(s: seq<NodeId>, x: NodeId, owner: NodeId, dist: Distance)
    requires Ordered(s, owner, dist)
    ensures Ordered(InsertByDistance(s, x, owner, dist), owner, dist)
  {
    if s == [] || dist(owner, x) < dist(owner, s[0]) {
    } else {
      var rest := InsertByDistance(s[1..], x, owner, dist);
      InsertByDistanceOrdered(s[1..], x, owner, dist);
      forall k | 0 <= k < |rest| ensures dist(owner, s[0]) <= dist(owner, rest[k]) {
        if rest[k] != x {
          assert rest[k] in s[1..];
          var j :| 0 <= j < |s[1..]| && s[1..][j] == rest[k];
          assert s[j + 1] == rest[k];
        }
      }
    }
  }

  lemma {:induction false} InsertByDistanceDistinct(s: seq<NodeId>, x: NodeId, owner: NodeId, dist: Distance)
    requires Distinct(s) && x !in s
    ensures Distinct(InsertByDistance(s, x, owner, dist))
  {
    if s == [] || dist(owner, x) < dist(owner, s[0]) {
    } else {
      assert s == [s[0]] + s[1..];
      InsertByDistanceDistinct(s[1..], x, owner, dist);
      var rest := InsertByDistance(s[1..], x, owner, dist);
      assert s[0] !in s[1..] by {
        forall k | 0 <= k < |s[1..]| ensures s[1..][k] != s[0] {
          assert s[1..][k] == s[k + 1];
        }
      }
      assert s[0] !in rest;
    }
  }

  /** Adds `b` to the list of `a` unless it is already there. */
  function AddNeighbor(g: Layer, a: NodeId, b: NodeId, dist: Distance): (r: Layer)
    requires a in g.adj
  {
    if b in g.adj[a] then g else Layer(g.adj[a := InsertByDistance(g.adj[a], b, a, dist)])
  }

  /**
   * Adds the undirected edge a--b.  Fails, changing nothing, when either end
   * is not present in the layer.
   */
  function Connect(g: Layer, a: NodeId, b: NodeId, dist: Distance): (r: Result<Layer, Error>)
    ensures r.Success? <==> a in g.adj && b in g.adj
    ensures r.Failure? ==> r.error == NodeNotFound(if a in g.adj then b else a)
    ensures r.Success? ==> r.value.adj.Keys == g.adj.Keys
  {
    if a !in g.adj then Failure(NodeNotFound(a))
    else if b !in g.adj then Failure(NodeNotFound(b))
    else
      var g1 := AddNeighbor(g, a, b, dist);
      Success(AddNeighbor(g1, b, a, dist))
  }

  /** The first `bound` entries of a list, or all of it when it is short enough. */
  function Keep(s: seq<NodeId>, bound: nat): (r: seq<NodeId>)
    ensures r <= s && |r| == Min(bound, |s|)
  {
    if |s| <= bound then s else s[..bound]
  }

  /** A cut list holds only entries of the original, and cutting twice is cutting once. */
  lemma KeepFacts(s: seq<NodeId>, bound: nat)
    ensures forall y :: y in Keep(s, bound) ==> y in s
    ensures Keep(Keep(s, bound), bound) == Keep(s, bound)
  {
    var r := Keep(s, bound);
    forall y | y in r ensures y in s {
      var i :| 0 <= i < |r| && r[i] == y;
      assert s[i] == y;
    }
  }

  /**
   * On a list ordered by distance from `owner`, the cut keeps the closest
   * entries: no dropped entry is nearer than a kept one.
   */
  lemma KeepKeepsClosest(s: seq<NodeId>, bound: nat, owner: NodeId, dist: Distance, kept: NodeId, dropped: NodeId)
    requires Ordered(s, owner, dist)
    requires kept in Keep(s, bound) && dropped in s && dropped !in Keep(s, bound)
    ensures dist(owner, kept) <= dist(owner, dropped)
  {
    var r := Keep(s, bound);
    var i :| 0 <= i < |r| && r[i] == kept;
    var j :| 0 <= j < |s| && s[j] == dropped;
    assert forall k :: 0 <= k < |r| ==> r[k] == s[k];
    assert i < j;
  }

  /**
   * Cuts the list of `node` down to its `bound` closest neighbours.  Fails,
   * changing nothing, when `node` is not present.
   */
  function Prune(g: Layer, node: NodeId, bound: nat): (r: Result<Layer, Error>)
    ensures r.Success? <==> node in g.adj
    ensures r.Failure? ==> r.error == NodeNotFound(node)
    ensures r.Success? ==> r.value.adj.Keys == g.adj.Keys
  {
    if node !in g.adj then Failure(NodeNotFound(node))
    else Success(Layer(g.adj[node := Keep(g.adj[node], bound)]))
  }

  /** Connects `node` to each of `nbs` in turn, stopping at the first failure. */
  function ConnectAll(g: Layer, node: NodeId, nbs: seq<NodeId>, dist: Distance): (r: Result<Layer, Error>)
    ensures r.Success? <==> (nbs == [] || node in g.adj) && forall nb :: nb in nbs ==> nb in g.adj
    ensures r.Success? ==> r.value.adj.Keys == g.adj.Keys
    decreases |nbs|, 1
  {
    if nbs == [] then Success(g) else ConnectFirst(g, node, nbs, dist)
  }

  /** Connects `node` to the first of `nbs`, then to the rest. */
  function ConnectFirst(g: Layer, node: NodeId, nbs: seq<NodeId>, dist: Distance): (r: Result<Layer, Error>)
    requires nbs != []
    ensures r.Success? <==> node in g.adj && forall nb :: nb in nbs ==> nb in g.adj
    ensures r.Success? ==> r.value.adj.Keys == g.adj.Keys
    decreases |nbs|, 0
  {
    var g1 :- Connect(g, node, nbs[0], dist);
    ConnectAll(g1, node, nbs[1..], dist)
  }

  /** Prunes each of `nbs` in turn to `bound`, stopping at the first failure. */
  function PruneAll(g: Layer, nbs: seq<NodeId>, bound: nat): (r: Result<Layer, Error>)
    ensures r.Success? <==> forall nb :: nb in nbs ==> nb in g.adj
    ensures r.Success? ==> r.value.adj.Keys == g.adj.Keys
    decreases |nbs|, 1
  {
    if nbs == [] then Success(g) else PruneFirst(g, nbs, bound)
  }

  /** Prunes the first of `nbs`, then the rest. */
  function PruneFirst(g: Layer, nbs: seq<NodeId>, bound: nat): (r: Result<Layer, Error>)
    requires nbs != []
    ensures r.Success? <==> forall nb :: nb in nbs ==> nb in g.adj
    ensures r.Success? ==> r.value.adj.Keys == g.adj.Keys
    decreases |nbs|, 0
  {
    var g1 :- Prune(g, nbs[0], bound);
    PruneAll(g1, nbs[1..], bound)
  }

  /**
   * A failed `ConnectAll` names the first missing end: `node` itself, or
   * else the first of `nbs` that is absent.
   */
  lemma {:induction false} ConnectAllFailure(g: Layer, node: NodeId, nbs: seq<NodeId>, dist: Distance)
    requires ConnectAll(g, node, nbs, dist).Failure?
    ensures var e := ConnectAll(g, node, nbs, dist).error;
      || (node !in g.adj && e == NodeNotFound(node))
      || (node in g.adj && exists i :: 0 <= i < |nbs| && nbs[i] !in g.adj && e == NodeNotFound(nbs[i])
                                         && forall j :: 0 <= j < i ==> nbs[j] in g.adj)
    decreases |nbs|
  {
    if node in g.adj && nbs[0] in g.adj {
      var g1 := Connect(g, node, nbs[0], dist).value;
      ConnectAllFailure(g1, node, nbs[1..], dist);
      var i :| 0 <= i < |nbs[1..]| && nbs[1..][i] !in g1.adj && ConnectAll(g1, node, nbs[1..], dist).error == NodeNotFound(nbs[1..][i])
                                      && forall j :: 0 <= j < i ==> nbs[1..][j] in g1.adj;
      assert nbs[i + 1] !in g.adj;
      forall j | 0 <= j < i + 1 ensures nbs[j] in g.adj {
        if j > 0 {
          assert nbs[j] == nbs[1..][j - 1];
        }
      }
    }
  }

  lemma AddNeighborEffect(g: Layer, a: NodeId, b: NodeId, dist: Distance)
    requires a in g.adj
    ensures var r := AddNeighbor(g, a, b, dist);
      && r.adj.Keys == g.adj.Keys
      && b in r.adj[a] && |r.adj[a]| <= |g.adj[a]| + 1
      && (forall y :: y in r.adj[a] <==> y in g.adj[a] || y == b)
      && (forall x :: x in g.adj && x != a ==> r.adj[x] == g.adj[x])
  {
  }

  /** Connecting adds the edge a--b in both directions and touches no other list. */
  lemma ConnectEffect(g: Layer, a: NodeId, b: NodeId, dist: Distance)
    requires a in g.adj && b in g.adj
    ensures var r := Connect(g, a, b, dist).value;
      && b in r.adj[a] && a in r.adj[b]
      && |r.adj[a]| <= |g.adj[a]| + 1 && |r.adj[b]| <= |g.adj[b]| + 1
      && (forall x, y :: x in g.adj && y in g.adj[x] ==> y in r.adj[x])
      && (forall x, y :: x in g.adj && y in r.adj[x] ==>
            y in g.adj[x] || (x == a && y == b) || (x == b && y == a))
      && (forall x :: x in g.adj && x != a && x != b ==> r.adj[x] == g.adj[x])
  {
    var g1 := AddNeighbor(g, a, b, dist);
    AddNeighborEffect(g, a, b, dist);
    AddNeighborEffect(g1, b, a, dist);
  }

  /** Pruning keeps a prefix of the list, of length `min(bound, degree)`, and touches no other list. */
  lemma PruneEffect(g: Layer, node: NodeId, bound: nat)
    requires node in g.adj
    ensures var r := Prune(g, node, bound).value;
      && r.adj[node] <= g.adj[node]
      && |r.adj[node]| == Min(bound, |g.adj[node]|)
      && (forall x :: x in g.adj && x != node ==> r.adj[x] == g.adj[x])
  {
  }

  /**
   * After connecting, `node` and each of `nbs` are joined both ways, no edge
   * was lost, and lists outside `nbs` and `node` are as before.
   */
  lemma {:induction false} ConnectAllEffect(g: Layer, node: NodeId, nbs: seq<NodeId>, dist: Distance)
    requires ConnectAll(g, node, nbs, dist).Success?
    ensures var r := ConnectAll(g, node, nbs, dist).value;
      && (forall nb :: nb in nbs ==> nb in r.adj[node] && node in r.adj[nb])
      && (forall x, y :: x in g.adj && y in g.adj[x] ==> y in r.adj[x])
      && (forall x :: x in g.adj && x != node && x !in nbs ==> r.adj[x] == g.adj[x])
    decreases |nbs|
  {
    if nbs != [] {
      var g1 := Connect(g, node, nbs[0], dist).value;
      ConnectEffect(g, node, nbs[0], dist);
      ConnectAllEffect(g1, node, nbs[1..], dist);
      assert forall nb :: nb in nbs ==> nb == nbs[0] || nb in nbs[1..];
    }
  }

  /** The only edges `ConnectAll` adds join `node` and one of `nbs`. */
  lemma {:induction false} ConnectAllNewEdge(g: Layer, node: NodeId, nbs: seq<NodeId>, dist: Distance, x: NodeId, y: NodeId)
    requires ConnectAll(g, node, nbs, dist).Success?
    requires x in g.adj && y in ConnectAll(g, node, nbs, dist).value.adj[x]
    ensures y in g.adj[x] || (x == node && y in nbs) || (x in nbs && y == node)
    decreases |nbs|
  {
    if nbs != [] {
      var g1 := Connect(g, node, nbs[0], dist).value;
      ConnectEffect(g, node, nbs[0], dist);
      assert ConnectAll(g, node, nbs, dist) == ConnectAll(g1, node, nbs[1..], dist);
      ConnectAllNewEdge(g1, node, nbs[1..], dist, x, y);
      assert nbs[0] in nbs;
      assert forall nb :: nb in nbs[1..] ==> nb in nbs;
    }
  }

  /**
   * After pruning each of `nbs`, every one of them holds the first `bound`
   * entries of its old list, so it is within `bound` and keeps only entries
   * it had; other lists are as before.
   */
  lemma {:induction false} PruneAllEffect(g: Layer, nbs: seq<NodeId>, bound: nat)
    requires PruneAll(g, nbs, bound).Success?
    ensures var r := PruneAll(g, nbs, bound).value;
      && (forall nb :: nb in nbs ==> r.adj[nb] == Keep(g.adj[nb], bound) && |r.adj[nb]| <= bound)
      && (forall x, y :: x in g.adj && y in r.adj[x] ==> y in g.adj[x])
      && (forall x :: x in g.adj && x !in nbs ==> r.adj[x] == g.adj[x])
    decreases |nbs|
  {
    if nbs != [] {
      var g1 := Prune(g, nbs[0], bound).value;
      PruneEffect(g, nbs[0], bound);
      PruneAllEffect(g1, nbs[1..], bound);
      var r := PruneAll(g, nbs, bound).value;
      KeepFacts(g.adj[nbs[0]], bound);
      forall nb | nb in nbs ensures r.adj[nb] == Keep(g.adj[nb], bound) {
        if nb != nbs[0] {
          assert nb in nbs[1..];
        }
      }
      forall x, y | x in g.adj && y in r.adj[x] ensures y in g.adj[x] {
        if x == nbs[0] {
          assert y in g1.adj[x];
        }
      }
    }
  }

  /** Pruning keeps exactly the closest neighbours: no dropped neighbour is nearer than a kept one. */
  lemma PruneKeepsClosest(g: Layer, node: NodeId, bound: nat, dist: Distance, kept: NodeId, dropped: NodeId)
    requires node in g.adj && Ordered(g.adj[node], node, dist)
    requires kept in Prune(g, node, bound).value.adj[node]
    requires dropped in g.adj[node] && dropped !in Prune(g, node, bound).value.adj[node]
    ensures dist(node, kept) <= dist(node, dropped)
  {
    KeepKeepsClosest(g.adj[node], bound, node, dist, kept, dropped);
  }

  /** A node within the bound is left as it was, so pruning twice is pruning once. */
  lemma PruneIdempotent(g: Layer, node: NodeId, bound: nat)
    requires node in g.adj
    ensures |g.adj[node]| <= bound ==> Prune(g, node, bound) == Success(g)
    ensures Prune(Prune(g, node, bound).value, node, bound) == Prune(g, node, bound)
  {
    if |g.adj[node]| <= bound {
      assert g.adj[node := g.adj[node]] == g.adj;
    }
    var g1 := Prune(g, node, bound).value;
    assert g1.adj[node := g1.adj[node]] == g1.adj;
  }

  lemma MarkPresentValid(g: Layer, node: NodeId, dist: Distance)
    requires Valid(g, dist)
    ensures Valid(MarkPresent(g, node), dist)
  {
  }

  lemma ConnectValid(g: Layer, a: NodeId, b: NodeId, dist: Distance)
    requires Valid(g, dist) && Connect(g, a, b, dist).Success?
    ensures Valid(Connect(g, a, b, dist).value, dist)
  {
    var g1 := AddNeighbor(g, a, b, dist);
    if b !in g.adj[a] {
      InsertByDistanceOrdered(g.adj[a], b, a, dist);
      InsertByDistanceDistinct(g.adj[a], b, a, dist);
    }
    assert Valid(g1, dist);
    if a !in g1.adj[b] {
      InsertByDistanceOrdered(g1.adj[b], a, b, dist);
      InsertByDistanceDistinct(g1.adj[b], a, b, dist);
    }
  }

  lemma PruneValid(g: Layer, node: NodeId, bound: nat, dist: Distance)
    requires Valid(g, dist) && node in g.adj
    ensures Valid(Prune(g, node, bound).value, dist)
  {
    PruneEffect(g, node, bound);
    var r := Prune(g, node, bound).value;
    forall y | y in r.adj[node] ensures y in g.adj[node] {
      var i :| 0 <= i < |r.adj[node]| && r.adj[node][i] == y;
      assert g.adj[node][i] == y;
    }
  }

  lemma {:induction false} ConnectAllValid(g: Layer, node: NodeId, nbs: seq<NodeId>, dist: Distance)
    requires Valid(g, dist) && ConnectAll(g, node, nbs, dist).Success?
    ensures Valid(ConnectAll(g, node, nbs, dist).value, dist)
    decreases |nbs|
  {
    if nbs != [] {
      ConnectValid(g, node, nbs[0], dist);
      ConnectAllValid(Connect(g, node, nbs[0], dist).value, node, nbs[1..], dist);
    }
  }

  lemma {:induction false} PruneAllValid(g: Layer, nbs: seq<NodeId>, bound: nat, dist: Distance)
    requires Valid(g, dist) && PruneAll(g, nbs, bound).Success?
    ensures Valid(PruneAll(g, nbs, bound).value, dist)
    decreases |nbs|
  {
    if nbs != [] {
      PruneValid(g, nbs[0], bound, dist);
      PruneAllValid(Prune(g, nbs[0], bound).value, nbs[1..], bound, dist);
    }
  }
}
