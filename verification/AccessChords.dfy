/**
 Why a declared length is held to its chord (src/compute/access-geometry.ts): no route is shorter than the
 straight line between its ends, by more than the rounding that validation allows each edge.
 */
module AccessChords {
  import opened Ordering
  import opened AccessNetwork

  /** What the straight-line distance is relied on for. */
  ghost predicate Straight(chord: (Vec3, Vec3) -> real) {
    && (forall p :: chord(p, p) == 0.0)
    && (forall p, q :: chord(p, q) == chord(q, p))
    && (forall p, q, r :: chord(p, r) <= chord(p, q) + chord(q, r))
  }

  /** A chord, less the relative rounding allowed for. */
  function Trimmed(straight: real): real { straight - 0.000000000001 * straight }

  lemma ArcReachesChord(input: Input, chord: (Vec3, Vec3) -> real, closed: set<string>, a: Arc, u: Node, v: Node)
    requires Declared(input, chord) && Straight(chord) && a in Arcs(input.edges, closed)
    requires u in input.nodes && v in input.nodes && u.id == a.from && v.id == a.to
    ensures Trimmed(chord(u.positionM, v.positionM)) <= a.lengthM + 0.000000001
  {
    hide FrameDeclared, EdgeDeclared, ScenarioDeclared, Arcs, ArcsOf;
    var e := ArcSource(input.edges, closed, a);
    var i :| 0 <= i < |input.edges| && input.edges[i] == e;
    assert ReachesChord(input.nodes, chord, e);
    assert chord(u.positionM, v.positionM) == chord(v.positionM, u.positionM);
  }

  lemma NodeAt(input: Input, chord: (Vec3, Vec3) -> real, closed: set<string>, a: Arc) returns (u: Node)
    requires Declared(input, chord) && a in Arcs(input.edges, closed)
    ensures u in input.nodes && u.id == a.from
  {
    hide FrameDeclared, ReachesChord, ScenarioDeclared, Arcs, ArcsOf;
    var e := ArcSource(input.edges, closed, a);
    var i :| 0 <= i < |input.edges| && input.edges[i] == e;
    assert EdgeDeclared(input.nodes, input.edges, i);
    u :| u in input.nodes && u.id == a.from;
  }

  lemma SameNode(input: Input, u: Node, v: Node)
    requires FrameDeclared(input) && u in input.nodes && v in input.nodes && u.id == v.id
    ensures u == v
  {
    var i :| 0 <= i < |input.nodes| && input.nodes[i] == u;
    var j :| 0 <= j < |input.nodes| && input.nodes[j] == v;
    assert NodeDeclared(input.nodes, i) && NodeDeclared(input.nodes, j);
  }

  lemma {:induction false} WalkReachesChord(input: Input, chord: (Vec3, Vec3) -> real, closed: set<string>,
                                            walk: seq<Arc>, u: Node, v: Node)
    requires Declared(input, chord) && Straight(chord)
    requires u in input.nodes && v in input.nodes && v.id == End(u.id, walk)
    requires IsWalk(Arcs(input.edges, closed), u.id, walk)
    ensures Trimmed(chord(u.positionM, v.positionM)) <= PathOf(u.id, walk).distanceM + 0.000000001 * |walk| as real
  {
    hide EdgesGoodUpTo, FrameDeclared, ScenarioDeclared, Arcs;
    if walk == [] {
      SameNode(input, u, v);
    } else {
      var last, shorter := walk[|walk| - 1], walk[..|walk| - 1];
      var w := NodeAt(input, chord, closed, last);
      WalkReachesChord(input, chord, closed, shorter, u, w);
      ArcReachesChord(input, chord, closed, last, w, v);
      assert chord(u.positionM, v.positionM) <= chord(u.positionM, w.positionM) + chord(w.positionM, v.positionM);
    }
  }

  /** No reachable route of an accepted network undercuts the straight line, beyond an edge's rounding per crossing. */
  lemma RoutesReachTheChord(input: Input, chord: (Vec3, Vec3) -> real, closed: set<string>, s: Status,
                            u: Node, v: Node)
    requires Declared(input, chord) && Straight(chord)
    requires u in input.nodes && v in input.nodes && u.id == input.startNodeId && v.id == input.endNodeId
    requires Answers(Arcs(input.edges, closed), input.startNodeId, input.endNodeId, s) && s.Reachable?
    ensures Trimmed(chord(u.positionM, v.positionM)) <= s.path.distanceM + 0.000000001 * |s.path.edgeIds| as real
  {
    hide Declared, Arcs, IsWalk;
    var walk :| Leads(Arcs(input.edges, closed), input.startNodeId, input.endNodeId, walk)
      && s.path == PathOf(input.startNodeId, walk);
    WalkReachesChord(input, chord, closed, walk, u, v);
    PathShape(input.startNodeId, walk);
  }
}
