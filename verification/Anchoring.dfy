/**
 The anchoring search (src/compute/scalar-gaussian.ts): one visit per component of the factor graph, and why
 it decides whether some displacement goes unmeasured.
 */
module Anchoring {
  import opened Basics
  import opened LeastSquares

  predicate Linked(neighbors: seq<seq<int>>, u: int, v: int) {
    0 <= u < |neighbors| && v in neighbors[u]
  }

  /** Links join nodes of the graph and run both ways. */
  ghost predicate Mutual(neighbors: seq<seq<int>>) {
    forall u, v :: Linked(neighbors, u, v) ==> 0 <= v < |neighbors| && Linked(neighbors, v, u)
  }

  ghost predicate Ties(ids: seq<string>, f: Factor, u: int, v: int) {
    f.Relative? && ((IndexOf(ids, f.fromStateId) == u && IndexOf(ids, f.toStateId) == v)
                 || (IndexOf(ids, f.fromStateId) == v && IndexOf(ids, f.toStateId) == u))
  }

  ghost predicate Pins(ids: seq<string>, f: Factor, u: int) {
    f.Absolute? && IndexOf(ids, f.stateId) == u
  }

  ghost predicate Tied(ids: seq<string>, fs: seq<Factor>, u: int, v: int) { exists f | f in fs :: Ties(ids, f, u, v) }

  ghost predicate Pinned(ids: seq<string>, fs: seq<Factor>, u: int) { exists f | f in fs :: Pins(ids, f, u) }

  /** The neighbor lists and anchor marks say exactly which states the factors tie and pin. */
  ghost predicate Graph(ids: seq<string>, fs: seq<Factor>, neighbors: seq<seq<int>>, anchored: seq<bool>) {
    && |neighbors| == |anchored| == |ids| && Mutual(neighbors)
    && (forall u, v :: Linked(neighbors, u, v) <==> Tied(ids, fs, u, v))
    && forall u | 0 <= u < |ids| :: anchored[u] <==> Pinned(ids, fs, u)
  }

  function AddNeighbor(neighbors: seq<seq<int>>, u: int, v: int): (r: seq<seq<int>>)
    requires 0 <= u < |neighbors|
    ensures |r| == |neighbors|
    ensures forall a, b :: Linked(r, a, b) <==> Linked(neighbors, a, b) || (a == u && b == v)
  {
    if v in neighbors[u] then neighbors else neighbors[u := neighbors[u] + [v]]
  }

  function AddFactor(ids: seq<string>, f: Factor, neighbors: seq<seq<int>>, anchored: seq<bool>)
    : (seq<seq<int>>, seq<bool>)
    requires |neighbors| == |anchored| == |ids| && Known(ids, f)
  {
    match f
    case Absolute(_, at, _, _) => (neighbors, anchored[IndexOf(ids, at) := true])
    case Relative(_, from, to, _, _) =>
      var u, v := IndexOf(ids, from), IndexOf(ids, to);
      (AddNeighbor(AddNeighbor(neighbors, u, v), v, u), anchored)
  }

  lemma OneMoreFactor(ids: seq<string>, fs: seq<Factor>, f: Factor, u: int, v: int)
    ensures Tied(ids, fs + [f], u, v) <==> Tied(ids, fs, u, v) || Ties(ids, f, u, v)
    ensures Pinned(ids, fs + [f], u) <==> Pinned(ids, fs, u) || Pins(ids, f, u)
  {
    assert forall g :: g in fs + [f] <==> g in fs || g == f;
  }

  lemma AddFactorKeepsGraph(ids: seq<string>, fs: seq<Factor>, f: Factor, neighbors: seq<seq<int>>, anchored: seq<bool>)
    requires Graph(ids, fs, neighbors, anchored) && Known(ids, f)
    ensures Graph(ids, fs + [f], AddFactor(ids, f, neighbors, anchored).0, AddFactor(ids, f, neighbors, anchored).1)
  {
    hide AddNeighbor, Linked, Tied, Pinned;
    var (neighbors', anchored') := AddFactor(ids, f, neighbors, anchored);
    forall u, v ensures Linked(neighbors', u, v) <==> Linked(neighbors, u, v) || Ties(ids, f, u, v) {}
    forall u, v ensures Linked(neighbors', u, v) <==> Tied(ids, fs + [f], u, v) { OneMoreFactor(ids, fs, f, u, v); }
    forall u | 0 <= u < |ids| ensures anchored'[u] <==> Pinned(ids, fs + [f], u) { OneMoreFactor(ids, fs, f, u, u); }
  }

  method BuildGraph(ids: seq<string>, fs: seq<Factor>) returns (neighbors: seq<seq<int>>, anchored: seq<bool>)
    requires forall f | f in fs :: Known(ids, f)
    ensures Graph(ids, fs, neighbors, anchored)
  {
    hide AddFactor;
    neighbors, anchored := seq(|ids|, _ => []), seq(|ids|, _ => false);
    for i := 0 to |fs|
      invariant Graph(ids, fs[..i], neighbors, anchored)
    {
      assert fs[..i + 1] == fs[..i] + [fs[i]];
      AddFactorKeepsGraph(ids, fs[..i], fs[i], neighbors, anchored);
      var added := AddFactor(ids, fs[i], neighbors, anchored);
      neighbors, anchored := added.0, added.1;
    }
    assert fs[..|fs|] == fs;
  }

  /** Equal across every tie, and zero at every anchor. */
  ghost predicate Flat(neighbors: seq<seq<int>>, anchored: seq<bool>, x: Vector) {
    && |x| == |neighbors| == |anchored|
    && (forall u, v :: Linked(neighbors, u, v) ==> V(x, u) == V(x, v))
    && forall u | 0 <= u < |x| && anchored[u] :: x[u] == 0.0
  }

  lemma FlatIsUnmeasured(ids: seq<string>, fs: seq<Factor>, neighbors: seq<seq<int>>, anchored: seq<bool>, x: Vector)
    requires Sound(ids, fs) && Graph(ids, fs, neighbors, anchored) && |x| == |ids|
    ensures Flat(neighbors, anchored, x) <==> Form(ids, fs, x, x) == 0.0
  {
    FormZero(ids, fs, x);
    if Flat(neighbors, anchored, x) {
      forall f | f in fs ensures Apply(ids, f, x) == 0.0 {
        if f.Relative? {
          var u, v := IndexOf(ids, f.fromStateId), IndexOf(ids, f.toStateId);
          assert Ties(ids, f, u, v);
          assert Linked(neighbors, u, v);
        } else {
          assert Pins(ids, f, IndexOf(ids, f.stateId));
        }
      }
    }
    if forall f | f in fs :: Apply(ids, f, x) == 0.0 {
      forall u, v | Linked(neighbors, u, v) ensures V(x, u) == V(x, v) {
        var f :| f in fs && Ties(ids, f, u, v);
      }
      forall u | 0 <= u < |x| && anchored[u] ensures x[u] == 0.0 {
        var f :| f in fs && Pins(ids, f, u);
      }
    }
  }

  /** Nothing outside a closed set is tied to anything inside it. */
  ghost predicate Closed(neighbors: seq<seq<int>>, nodes: set<int>) {
    forall u, v :: Linked(neighbors, u, v) && u in nodes ==> v in nodes
  }

  ghost predicate Grounded(neighbors: seq<seq<int>>, anchored: seq<bool>, nodes: set<int>) {
    forall x: Vector, u | Flat(neighbors, anchored, x) && u in nodes :: V(x, u) == 0.0
  }

  /** A flat displacement has one value over everything the search has met from its start. */
  ghost predicate OneLevel(neighbors: seq<seq<int>>, anchored: seq<bool>, start: int, nodes: set<int>) {
    forall x: Vector, u | Flat(neighbors, anchored, x) && u in nodes :: V(x, u) == V(x, start)
  }

  ghost function Indicator(n: nat, nodes: set<int>): Vector {
    seq(n, i => if i in nodes then 1.0 else 0.0)
  }

  /** A closed component without an anchor can be displaced as a whole, and nothing measures it. */
  lemma UnanchoredMoves(neighbors: seq<seq<int>>, anchored: seq<bool>, earlier: set<int>, visited: set<int>)
    requires |neighbors| == |anchored| && Mutual(neighbors)
    requires Closed(neighbors, earlier) && Closed(neighbors, visited)
    requires forall u | 0 <= u < |neighbors| && u in visited - earlier :: !anchored[u]
    ensures Flat(neighbors, anchored, Indicator(|neighbors|, visited - earlier))
  {
  }

  lemma AllOneLevel(neighbors: seq<seq<int>>, anchored: seq<bool>, start: int, nodes: set<int>, current: int)
    requires |neighbors| == |anchored| && OneLevel(neighbors, anchored, start, nodes) && current in nodes
      && 0 <= current < |neighbors|
    ensures OneLevel(neighbors, anchored, start, nodes + Elements(neighbors[current]))
  {
    forall x: Vector, u | Flat(neighbors, anchored, x) && u in nodes + Elements(neighbors[current])
      ensures V(x, u) == V(x, start) {
      if u !in nodes { assert Linked(neighbors, current, u); }
    }
  }

  function Fresh(nodes: seq<int>, visited: set<int>): (r: seq<int>)
    ensures forall v :: v in r <==> v in nodes && v !in visited
  {
    if nodes == [] then []
    else (if nodes[0] in visited then [] else [nodes[0]]) + Fresh(nodes[1..], visited)
  }

  ghost function Below(n: nat): (nodes: set<int>)
    ensures forall i :: i in nodes <==> 0 <= i < n
  {
    if n == 0 then {} else Below(n - 1) + {n - 1}
  }

  /** Visit one component. */
  method VisitComponent(neighbors: seq<seq<int>>, anchored: seq<bool>, start: int, earlier: set<int>)
    returns (visited: set<int>, hasAnchor: bool)
    requires |neighbors| == |anchored| && 0 <= start < |neighbors| && start !in earlier && Mutual(neighbors)
    requires earlier <= Below(|neighbors|)
    requires Closed(neighbors, earlier)
    ensures earlier + {start} <= visited <= Below(|neighbors|)
    ensures Closed(neighbors, visited)
    ensures OneLevel(neighbors, anchored, start, visited - earlier)
    ensures hasAnchor <==> exists u :: u in visited - earlier && anchored[u]
  {
    ghost var all := Below(|neighbors|);
    var pending := [start];
    visited, hasAnchor := earlier, false;
    while pending != []
      invariant earlier <= visited <= all
      invariant forall p | p in pending :: p in all
      invariant start in visited || start in pending
      invariant forall u, v :: Linked(neighbors, u, v) && u in visited ==> v in visited || v in pending
      invariant OneLevel(neighbors, anchored, start, (visited - earlier) + Elements(pending))
      invariant hasAnchor <==> exists u :: u in visited - earlier && anchored[u]
      decreases all - visited, |pending|
    {
      var current := pending[|pending| - 1];
      var rest := pending[..|pending| - 1];
      assert pending == rest + [current];
      ghost var met := (visited - earlier) + Elements(pending);
      if current in visited {
        pending := rest;
        assert (visited - earlier) + Elements(pending) <= met;
      } else {
        AllOneLevel(neighbors, anchored, start, met, current);
        assert all - (visited + {current}) < all - visited;
        assert forall v | v in neighbors[current] :: Linked(neighbors, current, v);
        visited := visited + {current};
        hasAnchor := hasAnchor || anchored[current];
        pending := rest + Fresh(neighbors[current], visited);
        assert (visited - earlier) + Elements(pending) <= met + Elements(neighbors[current]);
      }
    }
  }

  /** Every component holds an anchor exactly when no nonzero displacement goes unmeasured. */
  method AnchoringSearch(ids: seq<string>, fs: seq<Factor>) returns (ok: bool)
    requires Sound(ids, fs)
    ensures ok <==> PositiveDefinite(ids, fs)
  {
    var neighbors, anchored := BuildGraph(ids, fs);
    var n := |ids|;
    ghost var all := Below(n);
    var visited: set<int> := {};
    for start := 0 to n
      invariant visited <= all && forall i | 0 <= i < start :: i in visited
      invariant Closed(neighbors, visited) && Grounded(neighbors, anchored, visited)
    {
      if start !in visited {
        ghost var earlier := visited;
        var hasAnchor;
        visited, hasAnchor := VisitComponent(neighbors, anchored, start, visited);
        if !hasAnchor {
          ghost var x := Indicator(n, visited - earlier);
          UnanchoredMoves(neighbors, anchored, earlier, visited);
          FlatIsUnmeasured(ids, fs, neighbors, anchored, x);
          assert x[start] == 1.0;
          return false;
        }
        ghost var pin :| pin in visited - earlier && anchored[pin];
        forall x: Vector, u | Flat(neighbors, anchored, x) && u in visited ensures V(x, u) == 0.0 {
          if u !in earlier { assert V(x, u) == V(x, start) && V(x, pin) == V(x, start) && x[pin] == 0.0; }
        }
      }
    }
    forall y: Vector | |y| == |ids| && Form(ids, fs, y, y) == 0.0 ensures Zero(y) {
      FlatIsUnmeasured(ids, fs, neighbors, anchored, y);
      forall i | 0 <= i < |y| ensures y[i] == 0.0 { assert i in visited && V(y, i) == 0.0; }
    }
    return true;
  }
}
