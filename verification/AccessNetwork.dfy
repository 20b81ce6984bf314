/**
 A declared access network (src/compute/access-geometry.ts): its validation, its walks, and what the least
 permitted route between two nodes is.
 */
module AccessNetwork {
  import opened Basics
  import opened Ordering
  import opened RealSums

  datatype Vec3 = Vec3(x: real, y: real, z: real)
  datatype Direction = Directed | Bidirectional
  datatype Access = Permitted | Prohibited | Unknown
  datatype Node = Node(id: string, positionM: Vec3)
  datatype Edge = Edge(id: string, fromNodeId: string, toNodeId: string, direction: Direction, lengthM: real,
      access: Access)
  datatype Scenario = Scenario(id: string, closedEdgeIds: seq<string>)
  datatype Input = Input(frameId: string, nodes: seq<Node>, edges: seq<Edge>, startNodeId: string, endNodeId: string,
                         scenarios: seq<Scenario>)

  datatype Path = Path(distanceM: real, nodeIds: seq<string>, edgeIds: seq<string>)
  datatype Status = Reachable(path: Path) | Unreachable
  datatype Route = Route(excludedUnknownEdgeIds: seq<string>, excludedProhibitedEdgeIds: seq<string>,
                         closedEdgeIds: seq<string>, status: Status)
  datatype Verdict = Valid | InvalidInput | LengthShorterThanChord
  datatype Evaluation = Refused(verdict: Verdict) | Evaluated(straightLineM: real, base: Route,
      scenarios: seq<(string, Route)>)

  /* ---- Validation ---- */

  function NodeIds(nodes: seq<Node>): (ids: seq<string>)
    ensures |ids| == |nodes| && forall i | 0 <= i < |nodes| :: ids[i] == nodes[i].id
  {
    seq(|nodes|, i requires 0 <= i < |nodes| => nodes[i].id)
  }

  function Position(nodes: seq<Node>, id: string): Vec3
    requires id in NodeIds(nodes)
  {
    if nodes[0].id == id then nodes[0].positionM else
    assert NodeIds(nodes)[1..] == NodeIds(nodes[1..]);
    Position(nodes[1..], id)
  }

  /* What a declared network is, in its own terms. */

  ghost predicate NodeDeclared(nodes: seq<Node>, i: int)
    requires 0 <= i < |nodes|
  {
    && Identifier(nodes[i].id)
    && -1000000.0 <= nodes[i].positionM.x <= 1000000.0
    && -1000000.0 <= nodes[i].positionM.y <= 1000000.0
    && -1000000.0 <= nodes[i].positionM.z <= 1000000.0
    && forall j | 0 <= j < i :: nodes[j].id != nodes[i].id
  }

  ghost predicate FrameDeclared(input: Input) {
    && Identifier(input.frameId)
    && 2 <= |input.nodes| <= 128 && 1 <= |input.edges| <= 256 && |input.scenarios| <= 8
    && (forall i | 0 <= i < |input.nodes| :: NodeDeclared(input.nodes, i))
    && (exists u | u in input.nodes :: u.id == input.startNodeId)
    && (exists u | u in input.nodes :: u.id == input.endNodeId)
  }

  ghost predicate EdgeDeclared(nodes: seq<Node>, edges: seq<Edge>, i: int)
    requires 0 <= i < |edges|
  {
    && Identifier(edges[i].id) && (forall j | 0 <= j < i :: edges[j].id != edges[i].id)
    && (exists u | u in nodes :: u.id == edges[i].fromNodeId)
    && (exists u | u in nodes :: u.id == edges[i].toNodeId)
    && edges[i].fromNodeId != edges[i].toNodeId
    && 0.000001 <= edges[i].lengthM <= 10000000.0
  }

  /** An edge is no shorter than the straight line between its ends, up to the rounding allowed for. */
  ghost predicate ReachesChord(nodes: seq<Node>, chord: (Vec3, Vec3) -> real, e: Edge) {
    forall u, v | u in nodes && v in nodes && u.id == e.fromNodeId && v.id == e.toNodeId ::
      var straight := chord(u.positionM, v.positionM);
      straight <= e.lengthM + 0.000000001 + 0.000000000001 * straight
  }

  ghost predicate ClosureDeclared(edges: seq<Edge>, closed: seq<string>, i: int)
    requires 0 <= i < |closed|
  {
    (exists e | e in edges :: e.id == closed[i]) && forall j | 0 <= j < i :: closed[j] != closed[i]
  }

  ghost predicate ScenarioDeclared(edges: seq<Edge>, scenarios: seq<Scenario>, i: int)
    requires 0 <= i < |scenarios|
  {
    && Identifier(scenarios[i].id) && (forall j | 0 <= j < i :: scenarios[j].id != scenarios[i].id)
    && |scenarios[i].closedEdgeIds| <= 256
    && forall k | 0 <= k < |scenarios[i].closedEdgeIds| :: ClosureDeclared(edges, scenarios[i].closedEdgeIds, k)
  }

  ghost predicate EdgesGoodUpTo(nodes: seq<Node>, edges: seq<Edge>, chord: (Vec3, Vec3) -> real, n: int)
    requires 0 <= n <= |edges|
  {
    forall i | 0 <= i < n :: EdgeDeclared(nodes, edges, i) && ReachesChord(nodes, chord, edges[i])
  }

  ghost predicate Declared(input: Input, chord: (Vec3, Vec3) -> real) {
    && FrameDeclared(input)
    && EdgesGoodUpTo(input.nodes, input.edges, chord, |input.edges|)
    && forall i | 0 <= i < |input.scenarios| :: ScenarioDeclared(input.edges, input.scenarios, i)
  }

  /** The first defect among the edges is one that is as declared but too short. */
  ghost predicate FirstDefectTooShort(input: Input, chord: (Vec3, Vec3) -> real) {
    && FrameDeclared(input)
    && exists i | 0 <= i < |input.edges| ::
         && EdgesGoodUpTo(input.nodes, input.edges, chord, i)
         && EdgeDeclared(input.nodes, input.edges, i) && !ReachesChord(input.nodes, chord, input.edges[i])
  }

  /* The checks, in the order they are made. */

  /** The map from identifiers to nodes, once the nodes are checked. */
  ghost predicate Indexes(index: map<string, Node>, nodes: seq<Node>) {
    && (forall id :: id in index ==> index[id] in nodes && index[id].id == id)
    && forall u | u in nodes :: u.id in index && index[u.id] == u
  }

  predicate Bounded(v: Vec3) {
    && -1000000.0 <= v.x <= 1000000.0
    && -1000000.0 <= v.y <= 1000000.0
    && -1000000.0 <= v.z <= 1000000.0
  }

  method ValidateNodes(nodes: seq<Node>) returns (ok: bool, index: map<string, Node>)
    ensures ok <==> forall i | 0 <= i < |nodes| :: NodeDeclared(nodes, i)
    ensures ok ==> Indexes(index, nodes)
  {
    index := map[];
    for i := 0 to |nodes|
      invariant Indexes(index, nodes[..i])
      invariant forall k | 0 <= k < i :: NodeDeclared(nodes, k)
    {
      var node := nodes[i];
      assert node.id in index <==> exists j | 0 <= j < i :: nodes[j].id == node.id by {
        forall j | 0 <= j < i ensures nodes[j].id in index { assert nodes[j] in nodes[..i]; }
      }
      if !Identifier(node.id) || node.id in index || !Bounded(node.positionM) {
        assert !NodeDeclared(nodes, i);
        return false, index;
      }
      assert nodes[..i + 1] == nodes[..i] + [node];
      index := index[node.id := node];
    }
    assert nodes[..|nodes|] == nodes;
    return true, index;
  }

  method ValidateEdges(nodes: seq<Node>, index: map<string, Node>, edges: seq<Edge>, chord: (Vec3, Vec3) -> real)
    returns (verdict: Verdict, edgeIds: set<string>)
    requires Indexes(index, nodes)
    ensures verdict == Valid <==> EdgesGoodUpTo(nodes, edges, chord, |edges|)
    ensures verdict == LengthShorterThanChord <==>
      exists i | 0 <= i < |edges| ::
        EdgesGoodUpTo(nodes, edges, chord, i) && EdgeDeclared(nodes, edges, i) && !ReachesChord(nodes, chord, edges[i])
    ensures verdict == Valid ==> forall id :: id in edgeIds <==> exists e | e in edges :: e.id == id
  {
    edgeIds := {};
    for i := 0 to |edges|
      invariant EdgesGoodUpTo(nodes, edges, chord, i)
      invariant forall id :: id in edgeIds <==> exists j | 0 <= j < i :: edges[j].id == id
    {
      var e := edges[i];
      if !Identifier(e.id) || e.id in edgeIds || e.fromNodeId !in index || e.toNodeId !in index
         || e.fromNodeId == e.toNodeId || !(0.000001 <= e.lengthM <= 10000000.0) {
        NotDeclared(nodes, index, edges, i);
        return InvalidInput, edgeIds;
      }
      assert EdgeDeclared(nodes, edges, i);
      var separation := chord(index[e.fromNodeId].positionM, index[e.toNodeId].positionM);
      if separation - e.lengthM > 0.000000001 + 0.000000000001 * separation {
        assert index[e.fromNodeId] in nodes && index[e.toNodeId] in nodes && !ReachesChord(nodes, chord, e);
        return LengthShorterThanChord, edgeIds;
      }
      edgeIds := edgeIds + {e.id};
    }
    return Valid, edgeIds;
  }

  lemma NotDeclared(nodes: seq<Node>, index: map<string, Node>, edges: seq<Edge>, i: int)
    requires Indexes(index, nodes) && 0 <= i < |edges|
    requires
      || !Identifier(edges[i].id) || (exists j | 0 <= j < i :: edges[j].id == edges[i].id)
      || edges[i].fromNodeId !in index || edges[i].toNodeId !in index || edges[i].fromNodeId == edges[i].toNodeId
      || !(0.000001 <= edges[i].lengthM <= 10000000.0)
    ensures !EdgeDeclared(nodes, edges, i)
  {
  }

  method ValidateClosed(edges: seq<Edge>, edgeIds: set<string>, closed: seq<string>) returns (ok: bool)
    requires forall id :: id in edgeIds <==> exists e | e in edges :: e.id == id
    requires forall id | id in edgeIds :: Identifier(id)
    ensures ok <==> forall k | 0 <= k < |closed| :: ClosureDeclared(edges, closed, k)
  {
    var closedIds: set<string> := {};
    for i := 0 to |closed|
      invariant forall k | 0 <= k < i :: ClosureDeclared(edges, closed, k)
      invariant forall id :: id in closedIds <==> exists j | 0 <= j < i :: closed[j] == id
    {
      if !Identifier(closed[i]) || closed[i] !in edgeIds || closed[i] in closedIds {
        assert !ClosureDeclared(edges, closed, i);
        return false;
      }
      closedIds := closedIds + {closed[i]};
    }
    return true;
  }

  method ValidateScenarios(edges: seq<Edge>, edgeIds: set<string>, scenarios: seq<Scenario>) returns (ok: bool)
    requires forall id :: id in edgeIds <==> exists e | e in edges :: e.id == id
    requires forall id | id in edgeIds :: Identifier(id)
    ensures ok <==> forall i | 0 <= i < |scenarios| :: ScenarioDeclared(edges, scenarios, i)
  {
    hide ClosureDeclared;
    var scenarioIds: set<string> := {};
    for i := 0 to |scenarios|
      invariant forall k | 0 <= k < i :: ScenarioDeclared(edges, scenarios, k)
      invariant forall id :: id in scenarioIds <==> exists j | 0 <= j < i :: scenarios[j].id == id
    {
      var s := scenarios[i];
      var closed := ValidateClosed(edges, edgeIds, s.closedEdgeIds);
      if !Identifier(s.id) || s.id in scenarioIds || |s.closedEdgeIds| > 256 || !closed {
        assert !ScenarioDeclared(edges, scenarios, i);
        return false;
      }
      scenarioIds := scenarioIds + {s.id};
    }
    return true;
  }

  /** An input is refused, with the first defect found, unless it is as declared. */
  method Validate(input: Input, chord: (Vec3, Vec3) -> real) returns (verdict: Verdict)
    ensures verdict == Valid <==> Declared(input, chord)
    ensures verdict == LengthShorterThanChord <==> FirstDefectTooShort(input, chord)
  {
    hide NodeDeclared, EdgeDeclared, ReachesChord, ScenarioDeclared, Identifier;
    if !(Identifier(input.frameId) && 2 <= |input.nodes| <= 128 && 1 <= |input.edges| <= 256
         && |input.scenarios| <= 8) {
      return InvalidInput;
    }
    var nodesOk, index := ValidateNodes(input.nodes);
    if !nodesOk { return InvalidInput; }
    if input.startNodeId !in index || input.endNodeId !in index { return InvalidInput; }
    assert FrameDeclared(input);
    var edges, edgeIds := ValidateEdges(input.nodes, index, input.edges, chord);
    if edges != Valid { return edges; }
    EdgeIdsAreIdentifiers(input, chord);
    var scenariosOk := ValidateScenarios(input.edges, edgeIds, input.scenarios);
    return if scenariosOk then Valid else InvalidInput;
  }

  lemma EdgeIdsAreIdentifiers(input: Input, chord: (Vec3, Vec3) -> real)
    requires EdgesGoodUpTo(input.nodes, input.edges, chord, |input.edges|)
    ensures forall e | e in input.edges :: Identifier(e.id)
  {
    hide Identifier, ReachesChord;
  }

  /** What the search relies on; `Validate` establishes it. */
  ghost predicate Sound(input: Input) {
    && Distinct(NodeIds(input.nodes))
    && input.startNodeId in NodeIds(input.nodes) && input.endNodeId in NodeIds(input.nodes)
    && (forall i, j :: 0 <= i < j < |input.edges| ==> input.edges[i].id != input.edges[j].id)
    && forall e | e in input.edges ::
         && e.fromNodeId in NodeIds(input.nodes) && e.toNodeId in NodeIds(input.nodes)
         && e.fromNodeId != e.toNodeId && e.lengthM > 0.0
  }

  lemma IdOf(nodes: seq<Node>, u: Node)
    requires u in nodes
    ensures u.id in NodeIds(nodes)
  {
    var k :| 0 <= k < |nodes| && nodes[k] == u;
    assert NodeIds(nodes)[k] == u.id;
  }

  lemma ValidateSound(input: Input, chord: (Vec3, Vec3) -> real)
    requires Declared(input, chord)
    ensures Sound(input)
  {
    hide Identifier, ReachesChord, ScenarioDeclared;
    forall u | u in input.nodes ensures u.id in NodeIds(input.nodes) { IdOf(input.nodes, u); }
    forall i, j | 0 <= i < j < |input.nodes| ensures NodeIds(input.nodes)[i] != NodeIds(input.nodes)[j] {
      assert NodeDeclared(input.nodes, j);
    }
    forall i, j | 0 <= i < j < |input.edges| ensures input.edges[i].id != input.edges[j].id {
      assert EdgeDeclared(input.nodes, input.edges, j);
    }
    forall e | e in input.edges
      ensures e.fromNodeId in NodeIds(input.nodes) && e.toNodeId in NodeIds(input.nodes)
      ensures e.fromNodeId != e.toNodeId && e.lengthM > 0.0
    {
      var i :| 0 <= i < |input.edges| && input.edges[i] == e;
      assert EdgeDeclared(input.nodes, input.edges, i);
    }
  }

  /* ---- Walks ---- */

  /** One permitted crossing of an edge, in one direction. */
  datatype Arc = Arc(edgeId: string, from: string, to: string, lengthM: real)

  function ArcsOf(e: Edge, closed: set<string>): set<Arc> {
    if e.access != Permitted || e.id in closed then {}
    else
      {Arc(e.id, e.fromNodeId, e.toNodeId, e.lengthM)}
      + if e.direction == Bidirectional then {Arc(e.id, e.toNodeId, e.fromNodeId, e.lengthM)} else {}
  }

  ghost function Arcs(edges: seq<Edge>, closed: set<string>): set<Arc> {
    set e, a | e in edges && a in ArcsOf(e, closed) :: a
  }

  function End(start: string, walk: seq<Arc>): string {
    if walk == [] then start else walk[|walk| - 1].to
  }

  ghost predicate IsWalk(arcs: set<Arc>, start: string, walk: seq<Arc>) {
    walk == [] || (
      var last := |walk| - 1;
      IsWalk(arcs, start, walk[..last]) && walk[last] in arcs && walk[last].from == End(start, walk[..last]))
  }

  function Extend(p: Path, a: Arc): Path {
    Path(p.distanceM + a.lengthM, p.nodeIds + [a.to], p.edgeIds + [a.edgeId])
  }

  /** What a walk measures, visits and crosses. */
  ghost function PathOf(start: string, walk: seq<Arc>): Path {
    if walk == [] then Path(0.0, [start], [])
    else Extend(PathOf(start, walk[..|walk| - 1]), walk[|walk| - 1])
  }

  function ComparePaths(left: Path, right: Path): int {
    if left.distanceM < right.distanceM then -1
    else if left.distanceM > right.distanceM then 1
    else if CompareIds(left.edgeIds, right.edgeIds) != 0 then CompareIds(left.edgeIds, right.edgeIds)
    else CompareIds(left.nodeIds, right.nodeIds)
  }

  lemma PathOrderIsTotal(p: Path, q: Path, r: Path)
    ensures ComparePaths(p, q) == 0 <==> p == q
    ensures ComparePaths(p, q) < 0 <==> ComparePaths(q, p) > 0
    ensures ComparePaths(p, q) <= 0 && ComparePaths(q, r) <= 0 ==> ComparePaths(p, r) <= 0
    ensures ComparePaths(p, q) < 0 && ComparePaths(q, r) <= 0 ==> ComparePaths(p, r) < 0
    ensures ComparePaths(p, q) <= 0 && ComparePaths(q, r) < 0 ==> ComparePaths(p, r) < 0
  {
    IdListOrderIsTotal();
    assert CompareIds(p.edgeIds, q.edgeIds) == 0 <==> p.edgeIds == q.edgeIds;
    assert CompareIds(q.edgeIds, r.edgeIds) == 0 <==> q.edgeIds == r.edgeIds;
    assert CompareIds(p.nodeIds, q.nodeIds) == 0 <==> p.nodeIds == q.nodeIds;
    assert CompareIds(q.nodeIds, r.nodeIds) == 0 <==> q.nodeIds == r.nodeIds;
  }

  ghost predicate PathBefore(p: Path, q: Path) {
    || p.distanceM < q.distanceM
    || (p.distanceM == q.distanceM && IdsBefore(p.edgeIds, q.edgeIds))
    || (p.distanceM == q.distanceM && p.edgeIds == q.edgeIds && IdsBefore(p.nodeIds, q.nodeIds))
  }

  /** The shorter path first; at equal length the lesser edge identifiers, then the lesser node identifiers. */
  lemma PathOrderIsAscending(p: Path, q: Path)
    ensures ComparePaths(p, q) < 0 <==> PathBefore(p, q)
  {
    IdListOrderIsTotal();
    IdListOrderIsAscending(p.edgeIds, q.edgeIds);
    IdListOrderIsAscending(p.nodeIds, q.nodeIds);
  }

  /** Edge identifiers fix lengths, and with a departure node they fix the arrival node. */
  ghost predicate WellNamed(arcs: set<Arc>) {
    forall a, b | a in arcs && b in arcs ::
      && a.lengthM > 0.0
      && (a.edgeId == b.edgeId ==> a.lengthM == b.lengthM && (a.from == b.from ==> a == b))
  }

  lemma ArcSource(edges: seq<Edge>, closed: set<string>, a: Arc) returns (e: Edge)
    requires a in Arcs(edges, closed)
    ensures e in edges && a in ArcsOf(e, closed)
    ensures a.edgeId == e.id && a.lengthM == e.lengthM
    ensures (a.from == e.fromNodeId && a.to == e.toNodeId) || (a.from == e.toNodeId && a.to == e.fromNodeId)
  {
    e :| e in edges && a in ArcsOf(e, closed);
  }

  lemma ArcsWellNamed(input: Input, closed: set<string>)
    requires Sound(input)
    ensures WellNamed(Arcs(input.edges, closed))
  {
    hide Arcs, ArcsOf;
    forall a, b | a in Arcs(input.edges, closed) && b in Arcs(input.edges, closed)
      ensures a.lengthM > 0.0
      ensures a.edgeId == b.edgeId ==> a.lengthM == b.lengthM && (a.from == b.from ==> a == b)
    {
      var e := ArcSource(input.edges, closed, a);
      var f := ArcSource(input.edges, closed, b);
      if a.edgeId == b.edgeId { assert e == f; }
    }
  }

  lemma {:induction false} WalkPrefix(arcs: set<Arc>, start: string, walk: seq<Arc>, n: nat)
    requires IsWalk(arcs, start, walk) && n <= |walk|
    ensures IsWalk(arcs, start, walk[..n])
  {
    if n == |walk| {
      assert walk[..n] == walk;
    } else {
      var shorter := walk[..|walk| - 1];
      WalkPrefix(arcs, start, shorter, n);
      assert shorter[..n] == walk[..n];
    }
  }

  lemma {:induction false} PathShape(start: string, walk: seq<Arc>)
    ensures |PathOf(start, walk).edgeIds| == |walk|
    ensures forall i | 0 <= i < |walk| :: PathOf(start, walk).edgeIds[i] == walk[i].edgeId
  {
    if walk != [] { PathShape(start, walk[..|walk| - 1]); }
  }

  function LengthAt(walk: seq<Arc>): int -> real { i => if 0 <= i < |walk| then walk[i].lengthM else 0.0 }

  /** A path measures the lengths crossed, and lists the start and then every node arrived at. */
  lemma {:induction false} PathMeasures(start: string, walk: seq<Arc>)
    ensures PathOf(start, walk).distanceM == Sum(|walk|, LengthAt(walk))
    ensures |PathOf(start, walk).nodeIds| == |walk| + 1 && PathOf(start, walk).nodeIds[0] == start
    ensures forall i | 0 <= i < |walk| :: PathOf(start, walk).nodeIds[i + 1] == walk[i].to
  {
    if walk != [] {
      var shorter := walk[..|walk| - 1];
      PathMeasures(start, shorter);
      SumCongruent(|walk| - 1, LengthAt(shorter), LengthAt(walk));
    }
  }

  ghost predicate Departs(arcs: set<Arc>, start: string, walk: seq<Arc>, i: int)
    requires 0 <= i < |walk|
  {
    walk[i] in arcs && walk[i].from == if i == 0 then start else walk[i - 1].to
  }

  /** A walk crosses network arcs, each from where the last one arrived. */
  lemma {:induction false} WalksAreConnected(arcs: set<Arc>, start: string, walk: seq<Arc>)
    ensures IsWalk(arcs, start, walk) <==> forall i | 0 <= i < |walk| :: Departs(arcs, start, walk, i)
  {
    if walk != [] {
      var last, shorter := |walk| - 1, walk[..|walk| - 1];
      WalksAreConnected(arcs, start, shorter);
      assert forall i | 0 <= i < last :: Departs(arcs, start, shorter, i) <==> Departs(arcs, start, walk, i);
      assert IsWalk(arcs, start, walk) <==> IsWalk(arcs, start, shorter) && Departs(arcs, start, walk, last);
    }
  }

  /** What may be crossed: a permitted edge not closed, forward, and backward if it is bidirectional. */
  lemma ArcsArePermitted(edges: seq<Edge>, closed: set<string>, id: string, from: string, to: string, lengthM: real)
    ensures Arc(id, from, to, lengthM) in Arcs(edges, closed) <==>
      id !in closed && exists e | e in edges ::
        && e.id == id && e.lengthM == lengthM && e.access == Permitted
        && ((e.fromNodeId == from && e.toNodeId == to)
            || (e.direction == Bidirectional && e.fromNodeId == to && e.toNodeId == from))
  {
    if id !in closed && exists e | e in edges ::
      && e.id == id && e.lengthM == lengthM && e.access == Permitted
      && ((e.fromNodeId == from && e.toNodeId == to)
          || (e.direction == Bidirectional && e.fromNodeId == to && e.toNodeId == from)) {
      var e :| e in edges && e.id == id && e.lengthM == lengthM && e.access == Permitted
        && ((e.fromNodeId == from && e.toNodeId == to)
            || (e.direction == Bidirectional && e.fromNodeId == to && e.toNodeId == from));
      assert Arc(id, from, to, lengthM) in ArcsOf(e, closed);
    }
  }

  /** Edge identifiers determine a walk from a given start. */
  lemma IdsDetermineWalk(arcs: set<Arc>, start: string, v: seq<Arc>, w: seq<Arc>)
    requires WellNamed(arcs) && IsWalk(arcs, start, v) && IsWalk(arcs, start, w)
    requires PathOf(start, v).edgeIds == PathOf(start, w).edgeIds
    ensures v == w
  {
    hide PathOf, WellNamed, IsWalk;
    PathShape(start, v);
    PathShape(start, w);
    forall i | 0 <= i < |v| ensures v[i].edgeId == w[i].edgeId {
      assert PathOf(start, v).edgeIds[i] == PathOf(start, w).edgeIds[i];
    }
    SameIdsSameWalk(arcs, start, v, w);
  }

  lemma {:induction false} SameIdsSameWalk(arcs: set<Arc>, start: string, v: seq<Arc>, w: seq<Arc>)
    requires WellNamed(arcs) && IsWalk(arcs, start, v) && IsWalk(arcs, start, w)
    requires |v| == |w| && forall i | 0 <= i < |v| :: v[i].edgeId == w[i].edgeId
    ensures v == w
  {
    if v != [] {
      var v', w', a, b := v[..|v| - 1], w[..|v| - 1], v[|v| - 1], w[|v| - 1];
      SameIdsSameWalk(arcs, start, v', w');
      assert a in arcs && b in arcs && a.from == b.from && a.edgeId == b.edgeId;
      assert v == v' + [a] && w == w' + [b];
    }
  }

  lemma {:induction false} LongerIsLonger(arcs: set<Arc>, start: string, walk: seq<Arc>, n: nat)
    requires WellNamed(arcs) && IsWalk(arcs, start, walk) && n <= |walk|
    ensures PathOf(start, walk[..n]).distanceM <= PathOf(start, walk).distanceM
    ensures n < |walk| ==> PathOf(start, walk[..n]).distanceM < PathOf(start, walk).distanceM
  {
    if n == |walk| {
      assert walk[..n] == walk;
    } else {
      var shorter := walk[..|walk| - 1];
      LongerIsLonger(arcs, start, shorter, n);
      assert shorter[..n] == walk[..n];
    }
  }

  /** Crossing the same arc last keeps the order of two walks to one node: a tie-break never flips. */
  lemma ExtendKeepsOrder(arcs: set<Arc>, start: string, v: seq<Arc>, w: seq<Arc>, a: Arc)
    requires WellNamed(arcs) && IsWalk(arcs, start, v) && IsWalk(arcs, start, w)
    requires ComparePaths(PathOf(start, v), PathOf(start, w)) <= 0
    ensures ComparePaths(Extend(PathOf(start, v), a), Extend(PathOf(start, w), a)) <= 0
  {
    var p, q := PathOf(start, v), PathOf(start, w);
    PathOrderIsTotal(p, q, q);
    PathOrderIsTotal(Extend(p, a), Extend(q, a), q);
    if p != q && p.distanceM == q.distanceM {
      if p.edgeIds == q.edgeIds {
        IdsDetermineWalk(arcs, start, v, w);
      } else {
        if p.edgeIds <= q.edgeIds {
          PathShape(start, v);
          PathShape(start, w);
          PathShape(start, w[..|v|]);
          WalkPrefix(arcs, start, w, |v|);
          assert PathOf(start, w[..|v|]).edgeIds == p.edgeIds;
          IdsDetermineWalk(arcs, start, v, w[..|v|]);
          LongerIsLonger(arcs, start, w, |v|);
          assert false;
        }
        IdListOrderIsTotal();
        IdOrderIsTotal();
        LexAppend(CompareId, p.edgeIds, q.edgeIds, [a.edgeId], [a.edgeId]);
      }
    }
  }

  /* ---- What an answer is ---- */

  ghost predicate Leads(arcs: set<Arc>, start: string, end: string, walk: seq<Arc>) {
    IsWalk(arcs, start, walk) && End(start, walk) == end
  }

  ghost predicate Least(arcs: set<Arc>, start: string, end: string, p: Path) {
    && (exists walk :: Leads(arcs, start, end, walk) && p == PathOf(start, walk))
    && forall walk :: Leads(arcs, start, end, walk) ==> ComparePaths(p, PathOf(start, walk)) <= 0
  }

  /** The least walk from start to end, or that there is none. */
  ghost predicate Answers(arcs: set<Arc>, start: string, end: string, s: Status) {
    match s
    case Reachable(p) => Least(arcs, start, end, p)
    case Unreachable => forall walk :: !Leads(arcs, start, end, walk)
  }

  /** There is at most one right answer, so no ordering of the caller's arrays can show in it. */
  lemma AnswerIsUnique(arcs: set<Arc>, start: string, end: string, s: Status, t: Status)
    requires Answers(arcs, start, end, s) && Answers(arcs, start, end, t)
    ensures s == t
  {
    if s.Reachable? && t.Reachable? {
      var v :| Leads(arcs, start, end, v) && s.path == PathOf(start, v);
      var w :| Leads(arcs, start, end, w) && t.path == PathOf(start, w);
      assert ComparePaths(s.path, t.path) <= 0 && ComparePaths(t.path, s.path) <= 0;
      PathOrderIsTotal(s.path, t.path, s.path);
    }
  }

  /** Reordering nodes and edges, and reordering or repeating closures, changes no answer. */
  lemma InputOrderDoesNotShow(input: Input, other: Input, closed: seq<string>, otherClosed: seq<string>, s: Status,
      t: Status)
    requires multiset(input.edges) == multiset(other.edges)
    requires forall id :: id in closed <==> id in otherClosed
    requires input.startNodeId == other.startNodeId && input.endNodeId == other.endNodeId
    requires Answers(Arcs(input.edges, Elements(closed)), input.startNodeId, input.endNodeId, s)
    requires Answers(Arcs(other.edges, Elements(otherClosed)), other.startNodeId, other.endNodeId, t)
    ensures s == t
  {
    assert Elements(closed) == Elements(otherClosed);
    SameElements(input.edges, other.edges);
    assert Arcs(input.edges, Elements(closed)) == Arcs(other.edges, Elements(otherClosed));
    AnswerIsUnique(Arcs(input.edges, Elements(closed)), input.startNodeId, input.endNodeId, s, t);
  }

  lemma {:induction false} WalkInMoreArcs(fewer: set<Arc>, more: set<Arc>, start: string, walk: seq<Arc>)
    requires fewer <= more && IsWalk(fewer, start, walk)
    ensures IsWalk(more, start, walk)
  {
    if walk != [] { WalkInMoreArcs(fewer, more, start, walk[..|walk| - 1]); }
  }

  /** Closing more edges never makes a destination newly reachable and never yields a better route. */
  lemma ClosingNeverHelps(edges: seq<Edge>, closed: set<string>, moreClosed: set<string>,
                          start: string, end: string, s: Status, t: Status)
    requires closed <= moreClosed
    requires Answers(Arcs(edges, closed), start, end, s)
    requires Answers(Arcs(edges, moreClosed), start, end, t)
    ensures t.Reachable? ==> s.Reachable? && ComparePaths(s.path, t.path) <= 0 && s.path.distanceM <= t.path.distanceM
  {
    if t.Reachable? {
      var walk :| Leads(Arcs(edges, moreClosed), start, end, walk) && t.path == PathOf(start, walk);
      assert Arcs(edges, moreClosed) <= Arcs(edges, closed) by {
        forall a | a in Arcs(edges, moreClosed) ensures a in Arcs(edges, closed) {
          var e :| e in edges && a in ArcsOf(e, moreClosed);
          assert a in ArcsOf(e, closed);
        }
      }
      WalkInMoreArcs(Arcs(edges, moreClosed), Arcs(edges, closed), start, walk);
      assert Leads(Arcs(edges, closed), start, end, walk);
    }
  }
}
