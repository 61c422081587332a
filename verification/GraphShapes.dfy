/** The shapes an assembled graph shows: each way's own points, in both directions. */
module GraphShapes {
  import opened Words
  import opened Seqs
  import opened Varints
  import opened Reversing
  import opened StreetMap
  import opened SourceData
  import opened GraphModel
  import opened Geometry
  import opened Csr
  import opened Chains
  import opened GraphBuild
  import opened GraphFacts

  function Base(g: Graph, e: nat, u: nat): Coord
    requires Parallel(g) && e < |g.edgeTarget| && u < |g.nodeAt| && g.edgeTarget[e] < |g.nodeAt|
  {
    g.nodeAt[if g.edgeFlags[e].geomRev then g.edgeTarget[e] else u]
  }

  /** The edge's stored shape, if it has one, can be read. */
  ghost predicate ShapeReadable(g: Graph, e: nat, u: nat) {
    && Parallel(g) && e < |g.edgeTarget| && u < |g.nodeAt| && g.edgeTarget[e] < |g.nodeAt|
    && (g.edgeGeom[e] != NO_GEOM ==>
      g.edgeGeom[e] <= |g.geom| && GetShape(g.geom[g.edgeGeom[e]..], Base(g, e, u)).Some?)
  }

  ghost function Inner(g: Graph, e: nat, u: nat): seq<Coord>
    requires ShapeReadable(g, e, u)
  {
    if g.edgeGeom[e] == NO_GEOM then []
    else
      var cs := GetShape(g.geom[g.edgeGeom[e]..], Base(g, e, u)).value;
      if g.edgeFlags[e].geomRev then Reversed(cs) else cs
  }

  /** Appends the points of edge e, from u to its target. */
  method AppendGeometry(g: Graph, e: nat, u: nat, skipFirst: bool, pts: seq<Coord>) returns (r: seq<Coord>)
    requires ShapeReadable(g, e, u)
    ensures r == pts + ((if skipFirst then [] else [g.nodeAt[u]]) + (Inner(g, e, u) + [g.nodeAt[g.edgeTarget[e]]]))
  {
    var v := g.edgeTarget[e];
    r := if skipFirst then pts else pts + [g.nodeAt[u]];
    AddNothing(pts);
    ghost var head := if skipFirst then [] else [g.nodeAt[u]];
    assert r == pts + head;
    if g.edgeGeom[e] != NO_GEOM {
      r := DecodeGeom(g.geom, g.edgeGeom[e], g.nodeAt[u], g.nodeAt[v], g.edgeFlags[e].geomRev, r);
    } else {
      AddNothing(r);
    }
    assert r == (pts + head) + Inner(g, e, u);
    r := r + [g.nodeAt[v]];
    Assoc(pts + head, Inner(g, e, u), [g.nodeAt[v]]);
    Assoc(pts, head, Inner(g, e, u) + [g.nodeAt[v]]);
  }

  /** All points of an edge, both ends included. */
  ghost function EdgePoints(g: Graph, e: nat, u: nat): seq<Coord>
    requires ShapeReadable(g, e, u)
  {
    [g.nodeAt[u]] + (Inner(g, e, u) + [g.nodeAt[g.edgeTarget[e]]])
  }

  /** A shape lying in the blob reads back as the inner points of its chain. */
  lemma ShapeReads(geom: Bytes, off: nat, pts: seq<Coord>)
    requires 2 <= |pts| < TWO_64 && AllFit(pts) && ShapeAt(geom, off, pts)
    ensures GetShape(geom[off..], pts[0]) == Some(pts[1..|pts| - 1])
  {
    var end := off + |Shape(pts)|;
    assert geom[off..] == geom[off..end] + geom[end..];
    ShapeBack(pts, geom[end..]);
  }

  /** A chain is its first point, its inner points and its last point. */
  lemma Unfold(pts: seq<Coord>)
    requires |pts| >= 2
    ensures [pts[0]] + (pts[1..|pts| - 1] + [pts[|pts| - 1]]) == pts
  {
    assert pts[1..] == pts[1..|pts| - 1] + [pts[|pts| - 1]];
    assert pts == [pts[0]] + pts[1..];
  }

  lemma UnfoldReversed(pts: seq<Coord>)
    requires |pts| >= 2
    ensures [pts[|pts| - 1]] + (Reversed(pts[1..|pts| - 1]) + [pts[0]]) == Reversed(pts)
  {
    var last, rest := pts[|pts| - 1], pts[..|pts| - 1];
    assert pts == rest + [last];
    ReversedSnoc(rest, last);
    assert rest[1..] == pts[1..|pts| - 1];
    assert Reversed(rest) == Reversed(rest[1..]) + [rest[0]];
  }

  lemma NoInner(pts: seq<Coord>)
    requires |pts| == 2
    ensures pts[1..|pts| - 1] == [] && Reversed(pts[1..|pts| - 1]) == []
  {
  }

  /** The inner points of an edge stored with this orientation, given what lies at its offset. */
  lemma InnerIs(g: Graph, at: nat, from: nat, pts: seq<Coord>)
    requires Parallel(g) && at < |g.edgeTarget| && from < |g.nodeAt| && g.edgeTarget[at] < |g.nodeAt| &&
      2 <= |pts| < TWO_64
    requires |pts| == 2 <==> g.edgeGeom[at] == NO_GEOM
    requires |pts| > 2 ==> ShapeAt(g.geom, g.edgeGeom[at], pts)
    requires AllFit(pts) && (|pts| > 2 ==> Base(g, at, from) == pts[0])
    ensures ShapeReadable(g, at, from)
    ensures Inner(g, at, from) ==
      if |pts| > 2 && g.edgeFlags[at].geomRev then Reversed(pts[1..|pts| - 1]) else pts[1..|pts| - 1]
  {
    if |pts| > 2 {
      ShapeReads(g.geom, g.edgeGeom[at], pts);
    } else {
      NoInner(pts);
    }
  }

  /** The chain of a staged edge. */
  ghost function Chain(b: Build, sp: Span): seq<Coord>
    requires sp.way < |b.tracks| && SpanOk(b.t, b.tracks[sp.way], sp.a, sp.b)
  {
    Points(b.t, b.tracks[sp.way], sp.a, sp.b)
  }

  lemma ChainFits(b: Build, sp: Span)
    requires sp.way < |b.tracks| && SpanOk(b.t, b.tracks[sp.way], sp.a, sp.b)
    ensures AllFit(Chain(b, sp))
  {
    var r := b.tracks[sp.way];
    forall k | 0 <= k < |Chain(b, sp)| ensures Fits(Chain(b, sp)[k]) {
      assert r.Here(sp.a + k);
      assert Fits(b.t.coord[r.at[sp.a + k]]);
    }
  }

  /** One direction of an edge, laid out at a CSR position, shows the chain in that direction. */
  lemma ShownAt(g: Graph, b: Build, e: Staged, sp: Span, arc: Arc, at: nat)
    requires EdgeMatches(b.t, b.tracks, b.origin, g.geom, e, sp) && NodesFrom(g, b)
    requires |g.geom| < NO_GEOM && sp.b - sp.a < TWO_32 && !e.fwd.geomRev && !e.bwd.geomRev && e.u != e.v
    requires Parallel(g) && at < |g.edgeTarget| && ArcAt(g, arc.from, at) == arc && arc in {Forward(e), Backward(e)}
    ensures ShapeReadable(g, at, arc.from)
    ensures EdgePoints(g, at, arc.from) == if arc.from == e.u then Chain(b, sp) else Reversed(Chain(b, sp))
  {
    var pts := Chain(b, sp);
    assert g.nodeAt[e.u] == pts[0] && g.nodeAt[e.v] == pts[|pts| - 1];
    ChainFits(b, sp);
    InnerIs(g, at, arc.from, pts);
    Unfold(pts);
    UnfoldReversed(pts);
    if |pts| == 2 { NoInner(pts); }
  }

  /** Both CSR edges of a staged edge show its chain: the forward one as it is, the backward one reversed. */
  lemma ArcShape(s: Source, g: Graph, b: Build, i: nat, k: nat)
    requires Built(s, g, b) && Classified(s.ways) && |g.geom| < NO_GEOM
    requires i < |b.edges| == |b.spans| && b.spans[i].b - b.spans[i].a < TWO_32 && k < |Arcs(b.edges)|
    requires Arcs(b.edges)[k] in {Forward(b.edges[i]), Backward(b.edges[i])} && b.edges[i].u != b.edges[i].v
    ensures b.spans[i].way < |b.tracks| && SpanOk(b.t, b.tracks[b.spans[i].way], b.spans[i].a, b.spans[i].b)
    ensures var arc, at := Arcs(b.edges)[k], Slot(Arcs(b.edges), k);
      && ShapeReadable(g, at, arc.from)
      && EdgePoints(g, at, arc.from) ==
        if arc.from == b.edges[i].u then Chain(b, b.spans[i]) else Reversed(Chain(b, b.spans[i]))
  {
    var e, sp := b.edges[i], b.spans[i];
    assert HoldsArc(g, Arcs(b.edges), k);
    EdgeOf(s, g, b, i);
    assert ClassifiedWay(s.ways[sp.way]);
    ShownAt(g, b, e, sp, Arcs(b.edges)[k], Slot(Arcs(b.edges), k));
  }
}
