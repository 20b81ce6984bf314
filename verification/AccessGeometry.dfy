/**
 Least permitted routes over a declared network (src/compute/access-geometry.ts).

 A route is judged by total length, then by its edge identifiers, then by its node identifiers.
 The search is Dijkstra's; the theorems are about every walk of the network, however long.
 */
module AccessGeometry {
  import opened Basics
  import opened Ordering
  import opened AccessNetwork

  /** The search state: the best path found to each node, and a walk that has it. */
  ghost predicate Tracked(arcs: set<Arc>, start: string, paths: map<string, Path>, trails: map<string, seq<Arc>>) {
    && paths.Keys == trails.Keys
    && start in paths && ComparePaths(paths[start], PathOf(start, [])) <= 0
    && forall n | n in paths :: Leads(arcs, start, n, trails[n]) && paths[n] == PathOf(start, trails[n])
  }

  /** Every arc out of a settled node has been offered to the node it reaches. */
  ghost predicate Relaxed(arcs: set<Arc>, settled: set<string>, paths: map<string, Path>) {
    forall a | a in arcs && a.from in settled && a.from in paths ::
      a.to in paths && ComparePaths(paths[a.to], Extend(paths[a.from], a)) <= 0
  }

  /** A walk has either been matched at its end, or it left the settled nodes through a path at least as good. */
  ghost predicate Covered(settled: set<string>, paths: map<string, Path>, start: string, walk: seq<Arc>) {
    || (End(start, walk) in settled && End(start, walk) in paths
        && ComparePaths(paths[End(start, walk)], PathOf(start, walk)) <= 0)
    || (exists n :: n in paths && n !in settled && ComparePaths(paths[n], PathOf(start, walk)) <= 0)
  }

  lemma {:induction false} EveryWalkIsCovered(arcs: set<Arc>, start: string, settled: set<string>,
                                              paths: map<string, Path>, trails: map<string, seq<Arc>>, walk: seq<Arc>)
    requires WellNamed(arcs) && Tracked(arcs, start, paths, trails) && Relaxed(arcs, settled, paths)
    requires settled <= paths.Keys
    requires IsWalk(arcs, start, walk)
    ensures Covered(settled, paths, start, walk)
  {
    if walk != [] {
      var last := |walk| - 1;
      var before, a := walk[..last], walk[last];
      EveryWalkIsCovered(arcs, start, settled, paths, trails, before);
      LongerIsLonger(arcs, start, walk, last);
      var p, q := PathOf(start, before), PathOf(start, walk);
      assert ComparePaths(p, q) < 0;
      if n :| n in paths && n !in settled && ComparePaths(paths[n], p) <= 0 {
        PathOrderIsTotal(paths[n], p, q);
      } else {
        ExtendKeepsOrder(arcs, start, trails[a.from], before, a);
        PathOrderIsTotal(paths[a.to], Extend(paths[a.from], a), q);
      }
    }
  }

  /** The unsettled node with the least path is final. */
  lemma LeastUnsettledIsFinal(arcs: set<Arc>, start: string, settled: set<string>, paths: map<string, Path>,
                              trails: map<string, seq<Arc>>, at: string)
    requires WellNamed(arcs) && Tracked(arcs, start, paths, trails) && Relaxed(arcs, settled, paths)
    requires settled <= paths.Keys && at in paths && at !in settled
    requires forall n | n in paths && n !in settled :: ComparePaths(paths[at], paths[n]) <= 0
    ensures Least(arcs, start, at, paths[at])
  {
    assert Leads(arcs, start, at, trails[at]);
    forall walk | Leads(arcs, start, at, walk) ensures ComparePaths(paths[at], PathOf(start, walk)) <= 0 {
      EveryWalkIsCovered(arcs, start, settled, paths, trails, walk);
      var n :| n in paths && n !in settled && ComparePaths(paths[n], PathOf(start, walk)) <= 0;
      PathOrderIsTotal(paths[at], paths[n], PathOf(start, walk));
    }
  }

  ghost predicate Adjacency(arcs: set<Arc>, ids: set<string>, adjacency: map<string, seq<Arc>>) {
    && adjacency.Keys == ids
    && forall n | n in ids :: forall a :: a in adjacency[n] <==> a in arcs && a.from == n
  }

  function Push(adjacency: map<string, seq<Arc>>, a: Arc): map<string, seq<Arc>>
    requires a.from in adjacency
  {
    adjacency[a.from := adjacency[a.from] + [a]]
  }

  lemma PushAdds(arcs: set<Arc>, ids: set<string>, adjacency: map<string, seq<Arc>>, a: Arc)
    requires Adjacency(arcs, ids, adjacency) && a.from in ids
    ensures Adjacency(arcs + {a}, ids, Push(adjacency, a))
  {
  }

  lemma ArcsAppend(edges: seq<Edge>, e: Edge, closed: set<string>)
    ensures Arcs(edges + [e], closed) == Arcs(edges, closed) + ArcsOf(e, closed)
  {
    assert forall f :: f in edges + [e] <==> f in edges || f == e;
  }

  lemma NoEdgesNoArcs(closed: set<string>)
    ensures Arcs([], closed) == {}
  {
  }

  lemma SameEdgesSameArcs(edges: seq<Edge>, others: seq<Edge>, closed: set<string>)
    requires forall e :: e in edges <==> e in others
    ensures Arcs(edges, closed) == Arcs(others, closed)
  {
  }

  /** One edge's turn in the adjacency loop. */
  function PushEdge(adjacency: map<string, seq<Arc>>, e: Edge, closed: set<string>): map<string, seq<Arc>>
    requires e.fromNodeId in adjacency && e.toNodeId in adjacency
  {
    if e.access != Permitted || e.id in closed then adjacency
    else
      var forward := Push(adjacency, Arc(e.id, e.fromNodeId, e.toNodeId, e.lengthM));
      if e.direction == Bidirectional then Push(forward, Arc(e.id, e.toNodeId, e.fromNodeId, e.lengthM)) else forward
  }

  lemma PushEdgeAdds(arcs: set<Arc>, ids: set<string>, adjacency: map<string, seq<Arc>>, e: Edge, closed: set<string>)
    requires Adjacency(arcs, ids, adjacency) && e.fromNodeId in ids && e.toNodeId in ids
    ensures Adjacency(arcs + ArcsOf(e, closed), ids, PushEdge(adjacency, e, closed))
  {
    if e.access != Permitted || e.id in closed {
      assert arcs + ArcsOf(e, closed) == arcs;
    } else {
      var forward := Arc(e.id, e.fromNodeId, e.toNodeId, e.lengthM);
      PushAdds(arcs, ids, adjacency, forward);
      if e.direction == Bidirectional {
        var backward := Arc(e.id, e.toNodeId, e.fromNodeId, e.lengthM);
        PushAdds(arcs + {forward}, ids, Push(adjacency, forward), backward);
        assert arcs + {forward} + {backward} == arcs + ArcsOf(e, closed);
      } else {
        assert arcs + {forward} == arcs + ArcsOf(e, closed);
      }
    }
  }

  lemma AdjacencyAt(arcs: set<Arc>, ids: set<string>, adjacency: map<string, seq<Arc>>, n: string)
    requires Adjacency(arcs, ids, adjacency) && n in ids
    ensures n in adjacency && forall a :: a in adjacency[n] <==> a in arcs && a.from == n
  {
  }

  method BuildAdjacency(input: Input, closed: set<string>) returns (adjacency: map<string, seq<Arc>>)
    requires Sound(input)
    ensures Adjacency(Arcs(input.edges, closed), Elements(NodeIds(input.nodes)), adjacency)
  {
    hide Arcs, ArcsOf, PushEdge;
    ghost var ids := Elements(NodeIds(input.nodes));
    adjacency := map n | n in NodeIds(input.nodes) :: [];
    var sorted := SortedCopy((e: Edge) => e.id, input.edges);
    NoEdgesNoArcs(closed);
    for i := 0 to |sorted|
      invariant Adjacency(Arcs(sorted[..i], closed), ids, adjacency)
    {
      var e := sorted[i];
      assert e in input.edges;
      assert sorted[..i + 1] == sorted[..i] + [e];
      ArcsAppend(sorted[..i], e, closed);
      PushEdgeAdds(Arcs(sorted[..i], closed), ids, adjacency, e, closed);
      adjacency := PushEdge(adjacency, e, closed);
    }
    assert sorted[..|sorted|] == sorted;
    SameEdgesSameArcs(sorted, input.edges, closed);
  }

  /** The scan for the least path among unsettled nodes, in node order. */
  method LeastUnsettled(nodeIds: seq<string>, settled: set<string>, paths: map<string, Path>) returns (at: seq<string>)
    requires forall n | n in paths :: n in nodeIds
    ensures at == [] ==> forall n | n in paths :: n in settled
    ensures at != [] ==> |at| == 1 && at[0] in paths && at[0] !in settled
    ensures at != [] ==> forall n | n in paths && n !in settled :: ComparePaths(paths[at[0]], paths[n]) <= 0
  {
    at := [];
    for i := 0 to |nodeIds|
      invariant at == [] ==> forall n | n in nodeIds[..i] && n in paths :: n in settled
      invariant at != [] ==> |at| == 1 && at[0] in paths && at[0] !in settled
      invariant at != [] ==> forall n | n in nodeIds[..i] && n in paths && n !in settled ::
        ComparePaths(paths[at[0]], paths[n]) <= 0
    {
      var n := nodeIds[i];
      assert forall m :: m in nodeIds[..i + 1] <==> m in nodeIds[..i] || m == n;
      if n !in settled && n in paths {
        if at == [] {
          at := [n];
          PathOrderIsTotal(paths[n], paths[n], paths[n]);
        } else {
          forall m | m in paths { PathOrderIsTotal(paths[n], paths[at[0]], paths[m]); }
          PathOrderIsTotal(paths[n], paths[n], paths[n]);
          if ComparePaths(paths[n], paths[at[0]]) < 0 { at := [n]; }
        }
      }
    }
    assert nodeIds[..|nodeIds|] == nodeIds;
  }

  ghost predicate Offered(paths: map<string, Path>, current: Path, a: Arc) {
    a.to in paths && ComparePaths(paths[a.to], Extend(current, a)) <= 0
  }

  /** No path gets worse, and settled paths do not change. */
  ghost predicate Improves(settled: set<string>, paths: map<string, Path>, paths': map<string, Path>) {
    && settled <= paths.Keys <= paths'.Keys
    && (forall n | n in paths :: ComparePaths(paths'[n], paths[n]) <= 0)
    && forall n | n in settled :: paths'[n] == paths[n]
  }

  lemma ImprovesTransitive(settled: set<string>, p: map<string, Path>, q: map<string, Path>, r: map<string, Path>)
    requires Improves(settled, p, q) && Improves(settled, q, r)
    ensures Improves(settled, p, r)
  {
    forall n | n in p ensures ComparePaths(r[n], p[n]) <= 0 { PathOrderIsTotal(r[n], q[n], p[n]); }
  }

  lemma ImprovesReflexive(settled: set<string>, p: map<string, Path>)
    requires settled <= p.Keys
    ensures Improves(settled, p, p)
  {
    forall n | n in p ensures ComparePaths(p[n], p[n]) <= 0 { PathOrderIsTotal(p[n], p[n], p[n]); }
  }

  lemma StillOffered(settled: set<string>, paths: map<string, Path>, paths': map<string, Path>, current: Path, a: Arc)
    requires Improves(settled, paths, paths') && Offered(paths, current, a)
    ensures Offered(paths', current, a)
  {
    PathOrderIsTotal(paths'[a.to], paths[a.to], Extend(current, a));
  }

  /** The settled node an arc leaves, and what is known when the arc is offered. */
  ghost predicate Leaving(arcs: set<Arc>, start: string, at: string, current: Path, settled: set<string>,
      paths: map<string, Path>) {
    && at in settled && settled <= paths.Keys && current == paths[at]
    && forall n | n in settled :: Least(arcs, start, n, paths[n])
  }

  lemma StillLeaving(arcs: set<Arc>, start: string, at: string, current: Path, settled: set<string>,
                     paths: map<string, Path>, paths': map<string, Path>)
    requires Leaving(arcs, start, at, current, settled, paths) && Improves(settled, paths, paths')
    ensures Leaving(arcs, start, at, current, settled, paths')
  {
  }

  lemma TrailExtends(arcs: set<Arc>, start: string, trail: seq<Arc>, a: Arc)
    requires Leads(arcs, start, a.from, trail) && a in arcs
    ensures Leads(arcs, start, a.to, trail + [a])
    ensures PathOf(start, trail + [a]) == Extend(PathOf(start, trail), a)
  {
    var longer := trail + [a];
    assert longer[..|longer| - 1] == trail;
  }

  /** Offering one arc keeps the search state and leaves the arc offered. */
  lemma OfferKeeps(arcs: set<Arc>, start: string, at: string, current: Path, settled: set<string>,
                   paths: map<string, Path>, trails: map<string, seq<Arc>>, a: Arc, replace: bool)
    requires Tracked(arcs, start, paths, trails) && Leaving(arcs, start, at, current, settled, paths)
    requires a in arcs && a.from == at
    requires replace <==> a.to !in settled && (a.to !in paths || ComparePaths(Extend(current, a), paths[a.to]) < 0)
    ensures
      var paths' := if replace then paths[a.to := Extend(current, a)] else paths;
      var trails' := if replace then trails[a.to := trails[at] + [a]] else trails;
      Tracked(arcs, start, paths', trails') && Improves(settled, paths, paths') && Offered(paths', current, a)
  {
    hide ComparePaths, PathOf, IsWalk;
    var candidate := Extend(current, a);
    TrailExtends(arcs, start, trails[at], a);
    PathOrderIsTotal(candidate, candidate, candidate);
    ImprovesReflexive(settled, paths);
    if replace {
      if a.to == start { PathOrderIsTotal(candidate, paths[a.to], PathOf(start, [])); }
    } else if a.to in settled {
      assert Least(arcs, start, a.to, paths[a.to]);
    } else {
      PathOrderIsTotal(candidate, paths[a.to], candidate);
    }
  }

  lemma RelaxedAfter(arcs: set<Arc>, at: string, current: Path, outgoing: seq<Arc>, settled: set<string>,
                     paths: map<string, Path>, paths': map<string, Path>)
    requires at in settled && settled <= paths.Keys && current == paths[at]
    requires forall a :: a in outgoing <==> a in arcs && a.from == at
    requires Relaxed(arcs, settled - {at}, paths) && Improves(settled, paths, paths')
    requires forall j | 0 <= j < |outgoing| :: Offered(paths', current, outgoing[j])
    ensures Relaxed(arcs, settled, paths')
  {
    forall a | a in arcs && a.from in settled && a.from in paths' ensures Offered(paths', paths'[a.from], a) {
      if a.from == at {
        var j :| 0 <= j < |outgoing| && outgoing[j] == a;
      } else {
        assert a.from in settled - {at};
        StillOffered(settled, paths, paths', paths[a.from], a);
      }
    }
  }

  /** Offer every arc out of a newly settled node to the node it reaches. */
  method Relax(ghost arcs: set<Arc>, ghost start: string, at: string, current: Path, outgoing: seq<Arc>,
               settled: set<string>, paths: map<string, Path>, ghost trails: map<string, seq<Arc>>,
               ghost ids: set<string>)
    returns (paths': map<string, Path>, ghost trails': map<string, seq<Arc>>)
    requires Tracked(arcs, start, paths, trails) && Leaving(arcs, start, at, current, settled, paths)
    requires forall a :: a in outgoing <==> a in arcs && a.from == at
    requires Relaxed(arcs, settled - {at}, paths)
    requires paths.Keys == trails.Keys && paths.Keys <= ids && forall a | a in arcs :: a.to in ids
    ensures paths'.Keys == trails'.Keys
    ensures Tracked(arcs, start, paths', trails') && Relaxed(arcs, settled, paths')
    ensures Improves(settled, paths, paths') && paths'.Keys <= ids
  {
    hide Tracked, Relaxed, ComparePaths, Least;
    paths', trails' := paths, trails;
    ImprovesReflexive(settled, paths);
    for i := 0 to |outgoing|
      invariant Tracked(arcs, start, paths', trails') && Improves(settled, paths, paths') && paths'.Keys <= ids
      invariant paths'.Keys == trails'.Keys && settled <= paths'.Keys
      invariant forall j | 0 <= j < i :: Offered(paths', current, outgoing[j])
    {
      var a := outgoing[i];
      assert a in arcs && a.from == at;
      ghost var earlier := paths';
      var replace := a.to !in settled && (a.to !in paths' || ComparePaths(Extend(current, a), paths'[a.to]) < 0);
      StillLeaving(arcs, start, at, current, settled, paths, paths');
      OfferKeeps(arcs, start, at, current, settled, paths', trails', a, replace);
      if replace {
        paths' := paths'[a.to := Extend(current, a)];
        trails' := trails'[a.to := trails'[at] + [a]];
      }
      forall j | 0 <= j < i { StillOffered(settled, earlier, paths', current, outgoing[j]); }
      ImprovesTransitive(settled, paths, earlier, paths');
    }
    RelaxedAfter(arcs, at, current, outgoing, settled, paths, paths');
  }

  lemma {:induction false} IdCount(ids: seq<string>)
    ensures |Elements(ids)| <= |ids|
  {
    if ids == [] {
      assert Elements(ids) == {};
    } else {
      IdCount(ids[1..]);
      assert Elements(ids) == Elements(ids[1..]) + {ids[0]};
    }
  }

  lemma ArcsReachNodes(input: Input, closed: set<string>, a: Arc)
    requires Sound(input) && a in Arcs(input.edges, closed)
    ensures a.to in NodeIds(input.nodes)
  {
    var e := ArcSource(input.edges, closed, a);
  }

  lemma SearchBegins(arcs: set<Arc>, start: string)
    ensures SettledLeast(arcs, start, {}, map[start := Path(0.0, [start], [])])
    ensures Tracked(arcs, start, map[start := Path(0.0, [start], [])], map[start := []])
    ensures Relaxed(arcs, {}, map[start := Path(0.0, [start], [])])
  {
    var p := Path(0.0, [start], []);
    PathOrderIsTotal(p, p, p);
    assert Leads(arcs, start, start, []);
  }

  lemma NothingLeftMeansNoWalk(arcs: set<Arc>, start: string, end: string, settled: set<string>,
                               paths: map<string, Path>, trails: map<string, seq<Arc>>)
    requires WellNamed(arcs) && Tracked(arcs, start, paths, trails) && Relaxed(arcs, settled, paths)
    requires settled <= paths.Keys && end !in settled
    requires forall n | n in paths :: n in settled
    ensures Answers(arcs, start, end, Unreachable)
  {
    forall walk ensures !Leads(arcs, start, end, walk) {
      if Leads(arcs, start, end, walk) {
        EveryWalkIsCovered(arcs, start, settled, paths, trails, walk);
      }
    }
  }

  ghost predicate SettledLeast(arcs: set<Arc>, start: string, settled: set<string>, paths: map<string, Path>) {
    settled <= paths.Keys && forall n | n in settled :: Least(arcs, start, n, paths[n])
  }

  lemma SettlingKeepsLeast(arcs: set<Arc>, start: string, settled: set<string>, paths: map<string, Path>, at: string)
    requires SettledLeast(arcs, start, settled, paths) && at in paths && Least(arcs, start, at, paths[at])
    ensures SettledLeast(arcs, start, settled + {at}, paths)
    ensures Leaving(arcs, start, at, paths[at], settled + {at}, paths)
  {
  }

  lemma ImprovingKeepsLeast(arcs: set<Arc>, start: string, settled: set<string>, paths: map<string, Path>,
      paths': map<string, Path>)
    requires SettledLeast(arcs, start, settled, paths) && Improves(settled, paths, paths')
    ensures SettledLeast(arcs, start, settled, paths')
  {
  }

  /** Dijkstra over the permitted, unclosed edges: settle the least unsettled path until it is the destination's. */
  method Search(input: Input, closed: set<string>) returns (status: Status)
    requires Sound(input)
    ensures Answers(Arcs(input.edges, closed), input.startNodeId, input.endNodeId, status)
  {
    hide Tracked, Relaxed, ComparePaths, Least, Arcs, Leaving, SettledLeast, WellNamed, SortedBy, Leads, Improves,
      Adjacency;
    ghost var arcs := Arcs(input.edges, closed);
    ghost var ids := Elements(NodeIds(input.nodes));
    var start, end := input.startNodeId, input.endNodeId;
    ArcsWellNamed(input, closed);
    forall a | a in arcs ensures a.to in ids { ArcsReachNodes(input, closed, a); }
    var adjacency := BuildAdjacency(input, closed);
    var nodeIds := SortedCopy((s: string) => s, NodeIds(input.nodes));
    var settled: set<string> := {};
    var paths := map[start := Path(0.0, [start], [])];
    ghost var trails: map<string, seq<Arc>> := map[start := []];
    SearchBegins(arcs, start);
    while |settled| < |input.nodes|
      invariant settled <= paths.Keys && paths.Keys == trails.Keys && paths.Keys <= ids && end !in settled
      invariant Tracked(arcs, start, paths, trails) && Relaxed(arcs, settled, paths)
      invariant SettledLeast(arcs, start, settled, paths)
      decreases |input.nodes| - |settled|
    {
      var found := LeastUnsettled(nodeIds, settled, paths);
      if found == [] {
        NothingLeftMeansNoWalk(arcs, start, end, settled, paths, trails);
        return Unreachable;
      }
      var at := found[0];
      LeastUnsettledIsFinal(arcs, start, settled, paths, trails, at);
      if at == end { return Reachable(paths[at]); }
      SettlingKeepsLeast(arcs, start, settled, paths, at);
      assert settled + {at} - {at} == settled;
      settled := settled + {at};
      ghost var earlier := paths;
      AdjacencyAt(arcs, ids, adjacency, at);
      paths, trails := Relax(arcs, start, at, paths[at], adjacency[at], settled, paths, trails, ids);
      ImprovingKeepsLeast(arcs, start, settled, earlier, paths);
    }
    IdCount(NodeIds(input.nodes));
    SubsetCount(settled, ids - {end});
    assert false;
  }

  /** A route lists, sorted, what was left out of its network and why. */
  ghost predicate LeavesOut(input: Input, closedEdgeIds: seq<string>, route: Route) {
    && (forall id :: id in route.excludedUnknownEdgeIds <==>
          exists e | e in input.edges :: e.access == Unknown && e.id == id)
    && (forall id :: id in route.excludedProhibitedEdgeIds <==>
          exists e | e in input.edges :: e.access == Prohibited && e.id == id)
    && Distinct(route.excludedUnknownEdgeIds) && Distinct(route.excludedProhibitedEdgeIds)
    && multiset(route.closedEdgeIds) == multiset(closedEdgeIds)
    && (forall ids | ids in [route.excludedUnknownEdgeIds, route.excludedProhibitedEdgeIds, route.closedEdgeIds] ::
          SortedBy((s: string) => s, ids))
  }

  lemma {:induction false} IdsWithDistinct(edges: seq<Edge>, access: Access)
    requires forall i, j :: 0 <= i < j < |edges| ==> edges[i].id != edges[j].id
    ensures Distinct(IdsWith(edges, access))
  {
    if edges != [] {
      var rest := edges[1..];
      forall i, j | 0 <= i < j < |rest| ensures rest[i].id != rest[j].id {
        assert rest[i] == edges[i + 1] && rest[j] == edges[j + 1];
      }
      IdsWithDistinct(rest, access);
      forall e | e in rest ensures e.id != edges[0].id {
        var k :| 0 <= k < |rest| && rest[k] == e;
        assert edges[k + 1] == e;
      }
      DistinctCons(edges[0].id, IdsWith(rest, access));
    }
  }

  /** The route over one closure list, with the identifiers it left out. */
  method ShortestPath(input: Input, closedEdgeIds: seq<string>) returns (route: Route)
    requires Sound(input)
    ensures Answers(Arcs(input.edges, Elements(closedEdgeIds)), input.startNodeId, input.endNodeId, route.status)
    ensures LeavesOut(input, closedEdgeIds, route)
  {
    var status := Search(input, Elements(closedEdgeIds));
    var unknown := SortedCopy((s: string) => s, IdsWith(input.edges, Unknown));
    var prohibited := SortedCopy((s: string) => s, IdsWith(input.edges, Prohibited));
    var closed := SortedCopy((s: string) => s, closedEdgeIds);
    IdsWithDistinct(input.edges, Unknown);
    IdsWithDistinct(input.edges, Prohibited);
    DistinctThrough(IdsWith(input.edges, Unknown), unknown);
    DistinctThrough(IdsWith(input.edges, Prohibited), prohibited);
    route := Route(unknown, prohibited, closed, status);
  }

  lemma {:induction false} SubsetCount<T>(a: set<T>, b: set<T>)
    requires a <= b
    ensures |a| <= |b|
  {
    if a != {} {
      var x :| x in a;
      SubsetCount(a - {x}, b - {x});
    }
  }

  function IdsWith(edges: seq<Edge>, access: Access): (ids: seq<string>)
    ensures forall id :: id in ids <==> exists e | e in edges :: e.access == access && e.id == id
  {
    if edges == [] then []
    else (if edges[0].access == access then [edges[0].id] else []) + IdsWith(edges[1..], access)
  }

  ghost predicate ScenarioAnswered(input: Input, s: Scenario, result: (string, Route)) {
    && result.0 == s.id
    && Answers(Arcs(input.edges, Elements(s.closedEdgeIds)), input.startNodeId, input.endNodeId, result.1.status)
    && LeavesOut(input, s.closedEdgeIds, result.1)
  }

  method EvaluateScenarios(input: Input) returns (ordered: seq<Scenario>, results: seq<(string, Route)>)
    requires Sound(input)
    ensures multiset(ordered) == multiset(input.scenarios) && SortedBy((s: Scenario) => s.id, ordered)
    ensures |results| == |ordered| && forall i | 0 <= i < |results| :: ScenarioAnswered(input, ordered[i], results[i])
  {
    ordered := SortedCopy((s: Scenario) => s.id, input.scenarios);
    results := [];
    for i := 0 to |ordered|
      invariant |results| == i
      invariant forall k | 0 <= k < i :: ScenarioAnswered(input, ordered[k], results[k])
    {
      var route := ShortestPath(input, ordered[i].closedEdgeIds);
      results := results + [(ordered[i].id, route)];
    }
  }

  lemma {:induction false} PositionOfNode(nodes: seq<Node>, u: Node)
    requires Distinct(NodeIds(nodes)) && u in nodes
    ensures u.id in NodeIds(nodes) && Position(nodes, u.id) == u.positionM
  {
    assert NodeIds(nodes)[1..] == NodeIds(nodes[1..]);
    if nodes[0] != u {
      forall i, j | 0 <= i < j < |nodes[1..]| ensures NodeIds(nodes[1..])[i] != NodeIds(nodes[1..])[j] {
        assert NodeIds(nodes)[i + 1] != NodeIds(nodes)[j + 1];
      }
      PositionOfNode(nodes[1..], u);
      var k :| 0 <= k < |nodes[1..]| && nodes[1..][k] == u;
      assert NodeIds(nodes)[0] != NodeIds(nodes)[k + 1];
    } else {
      assert NodeIds(nodes)[0] == u.id;
    }
  }

  /** A refused input is not evaluated; otherwise the base and every scenario get their own least route. */
  method EvaluateAccessGeometry(input: Input, chord: (Vec3, Vec3) -> real)
      returns (r: Evaluation, ghost ordered: seq<Scenario>)
    ensures r.Refused? <==> !Declared(input, chord)
    ensures r.Refused? ==>
      r.verdict == if FirstDefectTooShort(input, chord) then LengthShorterThanChord else InvalidInput
    ensures r.Evaluated? ==>
      && Answers(Arcs(input.edges, {}), input.startNodeId, input.endNodeId, r.base.status)
      && LeavesOut(input, [], r.base)
      && (forall u, v | u in input.nodes && v in input.nodes && u.id == input.startNodeId && v.id == input.endNodeId ::
            r.straightLineM == chord(u.positionM, v.positionM))
      && multiset(ordered) == multiset(input.scenarios) && SortedBy((s: Scenario) => s.id, ordered)
      && |r.scenarios| == |ordered|
      && forall i | 0 <= i < |ordered| :: ScenarioAnswered(input, ordered[i], r.scenarios[i])
  {
    ordered := [];
    hide Declared, FirstDefectTooShort;
    var verdict := Validate(input, chord);
    if verdict != Valid { return Refused(verdict), ordered; }
    ValidateSound(input, chord);
    var noneClosed: seq<string> := [];
    var base := ShortestPath(input, noneClosed);
    assert Elements(noneClosed) == {};
    var inOrder, results := EvaluateScenarios(input);
    ordered := inOrder;
    var straight := chord(Position(input.nodes, input.startNodeId), Position(input.nodes, input.endNodeId));
    forall u | u in input.nodes ensures u.id in NodeIds(input.nodes) && Position(input.nodes, u.id) == u.positionM {
      PositionOfNode(input.nodes, u);
    }
    hide Position;
    return Evaluated(straight, base, results), ordered;
  }
}
