/** What an assembled graph promises: nothing lost, nothing invented, searches may rely on it. */
module GraphFacts {
  import opened Words
  import opened Seqs
  import opened StreetMap
  import opened SourceData
  import opened GraphModel
  import opened Geometry
  import opened Csr
  import opened Chains
  import opened GraphBuild

  /** Every two neighbouring present positions of a way lie in exactly one staged edge. */
  lemma PairInOneEdge(s: Source, g: Graph, b: Build, w: nat, k: nat) returns (i: nat)
    requires Built(s, g, b) && Pair(b.tracks, w, k)
    ensures i < |b.edges| == |b.spans| && Over(b.spans[i], w, k)
    ensures EdgeMatches(b.t, b.tracks, b.origin, g.geom, b.edges[i], b.spans[i])
    ensures forall j :: 0 <= j < |b.spans| && Over(b.spans[j], w, k) ==> j == i
  {
    assert Covered(b.spans, w, k);
    i :| 0 <= i < |b.spans| && Over(b.spans[i], w, k);
    EdgeOf(s, g, b, i);
  }

  /** The CSR position of each direction of each staged edge lies in its source's bucket, and is its alone. */
  lemma ArcOnce(s: Source, g: Graph, b: Build, k: nat)
    requires Built(s, g, b) && k < |Arcs(b.edges)|
    ensures var arcs := Arcs(b.edges);
      && g.OutEdge(arcs[k].from, Slot(arcs, k)) && HoldsArc(g, arcs, k) && arcs[k].flags.Any()
      && forall j :: 0 <= j < |arcs| && Slot(arcs, j) == Slot(arcs, k) ==> j == k
  {
    FromInGraph(s, g, b, k);
    var i := ArcOrigin(b.edges, k);
    SlotOut(g, Arcs(b.edges), k);
    SlotAlone(Arcs(b.edges), k);
  }

  lemma SlotOut(g: Graph, arcs: seq<Arc>, k: nat)
    requires Holds(g, arcs) && k < |arcs| && arcs[k].from < |g.nodeAt|
    ensures g.OutEdge(arcs[k].from, Slot(arcs, k)) && HoldsArc(g, arcs, k)
  {
    SlotInBucket(arcs, k);
  }

  lemma SlotAlone(arcs: seq<Arc>, k: nat)
    requires k < |arcs|
    ensures forall j :: 0 <= j < |arcs| && Slot(arcs, j) == Slot(arcs, k) ==> j == k
  {
    forall j | 0 <= j < |arcs| && Slot(arcs, j) == Slot(arcs, k) ensures j == k {
      if j < k { SlotsDiffer(arcs, j, k); }
      if k < j { SlotsDiffer(arcs, k, j); }
    }
  }

  lemma FromInGraph(s: Source, g: Graph, b: Build, k: nat)
    requires Built(s, g, b) && k < |Arcs(b.edges)|
    ensures Arcs(b.edges)[k].from < |g.nodeAt| && Arcs(b.edges)[k].to < |g.nodeAt|
  {
    EndsFromMatches(b.t, b.tracks, b.origin, g.geom, b.edges, b.spans);
    ArcsEndIn(b.edges, |b.origin|);
  }

  /** Every out-edge of the graph is one of those directions. */
  lemma EdgeIsArc(s: Source, g: Graph, b: Build, n: nat, e: nat) returns (k: nat)
    requires Built(s, g, b) && g.OutEdge(n, e)
    ensures var arcs := Arcs(b.edges); k < |arcs| && arcs[k].from == n && Slot(arcs, k) == e
  {
    var arcs := Arcs(b.edges);
    BelowNext(arcs, n);
    assert arcs[..|arcs|] == arcs;
    k := SlotTaken(arcs, n, e, |arcs|);
  }

  // ---- searches may rely on it ----------------------------------------------------------------------------

  /** The hop, should it become an edge of its own, is stored with a metre or more. */
  ghost predicate HopStored(b: Build, w: nat, k: nat)
    requires Pair(b.tracks, w, k)
  {
    var r := b.tracks[w];
    r.Within(b.t) && r.at[k] != r.at[k + 1] && (r.p.fwd.Any() || r.p.bwd.Any()) ==>
      Hop(b.t, r, k) >= 0.0 && Meters(b.t, Hop(b.t, r, k)) >= 1
  }

  /** So is every hop of every way that is open to some mode and leads to another node. */
  ghost predicate HopsStored(b: Build) {
    forall w: nat, k: nat :: Pair(b.tracks, w, k) ==> HopStored(b, w, k)
  }

  /** A hop that rounds to less than 65536 m always is. */
  lemma ShortHopStored(b: Build, w: nat, k: nat)
    requires b.t.Valid() && Pair(b.tracks, w, k) && b.tracks[w].Within(b.t) && Hop(b.t, b.tracks[w], k) < 65535.5
    ensures HopStored(b, w, k)
  {
  }

  /** A span of more than one hop is stored with its rounded length. */
  lemma ChainStored(t: Terrain, r: Track, a: nat, z: nat)
    requires SpanOk(t, r, a, z) && z > a + 1
    ensures var d := Length(t, r, a, z); d >= 0.0 && Meters(t, d) == (if d < 0.5 then 1 else (d + 0.5).Floor) <= 65000
  {
    LengthNonNegative(t, r, a, z);
  }

  /** No edge crosses a hole, has a routing node inside, or is longer than 65000 m unless it is a single hop; one of
      several hops is stored with its rounded length. */
  lemma EdgeInsideRun(s: Source, g: Graph, b: Build, i: nat)
    requires Built(s, g, b) && i < |b.edges|
    ensures b.spans[i].way < |b.tracks|
    ensures var r, a, z := b.tracks[b.spans[i].way], b.spans[i].a, b.spans[i].b;
      && SpanOk(b.t, r, a, z) && EndOk(b.t, r, a, z)
      && (z > a + 1 ==> var d := Length(b.t, r, a, z); b.edges[i].meters == (if d < 0.5 then 1 else (d + 0.5).Floor))
  {
    EdgeOf(s, g, b, i);
    if b.spans[i].b > b.spans[i].a + 1 {
      ChainStored(b.t, b.tracks[b.spans[i].way], b.spans[i].a, b.spans[i].b);
    }
  }

  lemma OneHop(t: Terrain, r: Track, a: nat)
    requires r.Within(t) && r.Here(a) && r.Here(a + 1)
    ensures Length(t, r, a, a + 1) == Hop(t, r, a)
  {
    assert Length(t, r, a, a + 1) == Length(t, r, a, a) + Hop(t, r, a);
  }

  /** A hop too long for sixteen bits is an edge of its own. */
  lemma LongHopAlone(t: Terrain, r: Track, a: nat, z: nat, k: nat)
    requires SpanOk(t, r, a, z) && a <= k < z && Hop(t, r, k) > MAX_METERS
    ensures a == k && z == k + 1
  {
    HopInLength(t, r, a, z, k);
  }

  lemma {:induction false} HopInLength(t: Terrain, r: Track, a: nat, z: nat, k: nat)
    requires t.Valid() && r.Within(t) && AllHere(r, a, z) && a <= k < z
    ensures Length(t, r, a, z) >= Hop(t, r, k)
    decreases z
  {
    LengthNonNegative(t, r, a, z - 1);
    if k < z - 1 { HopInLength(t, r, a, z - 1, k); }
  }

  /** One staged edge of a built graph: its span, and the way record behind it. */
  lemma EdgeOf(s: Source, g: Graph, b: Build, i: nat)
    requires Built(s, g, b) && i < |b.edges|
    ensures |b.edges| == |b.spans| && EdgeMatches(b.t, b.tracks, b.origin, g.geom, b.edges[i], b.spans[i])
    ensures TrackIs(s, b.t, b.tracks[b.spans[i].way], b.spans[i].way)
  {
    assert EdgeMatches(b.t, b.tracks, b.origin, g.geom, b.edges[i], b.spans[i]);
    assert TrackIs(s, b.t, b.tracks[b.spans[i].way], b.spans[i].way);
  }

  lemma EdgeFits(s: Source, b: Build, geom: Bytes, e: Staged, sp: Span)
    requires EdgeMatches(b.t, b.tracks, b.origin, geom, e, sp) && TrackIs(s, b.t, b.tracks[sp.way], sp.way)
    requires HopsStored(b) && Classified(s.ways) && e.u != e.v && (e.fwd.Any() || e.bwd.Any()) && OneToOne(b.origin)
    ensures 1 <= e.meters < TWO_16 && e.speed < 256
  {
    assert ClassifiedWay(s.ways[sp.way]);
    var r := b.tracks[sp.way];
    if sp.b > sp.a + 1 {
      ChainStored(b.t, r, sp.a, sp.b);
    } else {
      OneHop(b.t, r, sp.a);
      assert Pair(b.tracks, sp.way, sp.a);
      assert HopStored(b, sp.way, sp.a);
    }
  }

  /** No source node is two graph nodes. */
  ghost predicate OneToOne(origin: seq<nat>) { forall n, m :: 0 <= n < m < |origin| ==> origin[n] != origin[m] }

  /** The target, length and speed at one CSR position are in range. */
  lemma EdgeInRange(s: Source, g: Graph, b: Build, e: nat)
    requires Built(s, g, b) && HopsStored(b) && Classified(s.ways) && e < |g.edgeTarget|
    ensures g.edgeTarget[e] < |g.nodeAt| && 1 <= g.edgeMeters[e] < TWO_16 && g.edgeSpeed[e] < 256
  {
    var arcs := Arcs(b.edges);
    AllBelow(s, g, b);
    var from := Bucket(arcs, |g.nodeAt|, e);
    var k := EdgeIsArc(s, g, b, from, e);
    assert HoldsArc(g, arcs, k);
    FromInGraph(s, g, b, k);
    var i := ArcOrigin(b.edges, k);
    EdgeOf(s, g, b, i);
    EdgeFits(s, b, g.geom, b.edges[i], b.spans[i]);
  }

  /** A hop between two nodes that is stored with no metre at all leaves such an edge in the graph. */
  lemma LostHop(s: Source, g: Graph, b: Build, w: nat, k: nat) returns (e: nat)
    requires Built(s, g, b) && Pair(b.tracks, w, k) && !HopStored(b, w, k)
    ensures e < |g.edgeTarget| == |g.edgeMeters| == |g.edgeSpeed| && g.edgeMeters[e] == 0
  {
    var r := b.tracks[w];
    var i := PairInOneEdge(s, g, b, w, k);
    LongHopAlone(b.t, r, b.spans[i].a, b.spans[i].b, k);
    OneHop(b.t, r, k);
    var edge := b.edges[i];
    ArcPresent(b.edges, i);
    var arc := if edge.fwd.Any() then Forward(edge) else Backward(edge);
    var j :| 0 <= j < |Arcs(b.edges)| && Arcs(b.edges)[j] == arc;
    assert HoldsArc(g, Arcs(b.edges), j);
    e := Slot(Arcs(b.edges), j);
  }

  lemma AllBelow(s: Source, g: Graph, b: Build)
    requires Built(s, g, b)
    ensures Below(Arcs(b.edges), 0) == 0 && Below(Arcs(b.edges), |g.nodeAt|) == |Arcs(b.edges)|
  {
    EndsFromMatches(b.t, b.tracks, b.origin, g.geom, b.edges, b.spans);
    ArcsEndIn(b.edges, |b.origin|);
    BelowAll(Arcs(b.edges), |g.nodeAt|);
  }

  lemma OffsetsOrdered(g: Graph, arcs: seq<Arc>)
    requires Holds(g, arcs)
    ensures forall i: nat, j: nat :: g.Ordered(i, j)
  {
    forall i: nat, j: nat ensures g.Ordered(i, j) {
      if i <= j < |g.firstEdge| { BelowMono(arcs, i, j); }
    }
  }

  lemma AllEdgesOk(s: Source, g: Graph, b: Build)
    requires Built(s, g, b) && Classified(s.ways) && HopsStored(b)
    ensures forall e: nat :: g.EdgeOk(e)
  {
    forall e: nat ensures g.EdgeOk(e) {
      if e < |g.edgeTarget| { EdgeInRange(s, g, b, e); }
    }
  }

  lemma SomeEdgeLost(s: Source, g: Graph, b: Build)
    requires Built(s, g, b) && !HopsStored(b)
    ensures exists e: nat :: !g.EdgeOk(e)
  {
    var w: nat, k: nat :| Pair(b.tracks, w, k) && !HopStored(b, w, k);
    var e := LostHop(s, g, b, w, k);
    assert !g.EdgeOk(e);
  }

  /** The graph meets what the searches and the component labelling require exactly when every hop is stored with a
      metre or more. */
  lemma GraphValid(s: Source, g: Graph, b: Build)
    requires Built(s, g, b) && Classified(s.ways)
    requires |g.nodeAt| < TWO_31 && |g.edgeTarget| < TWO_31
    ensures g.Valid() <==> HopsStored(b)
  {
    AllBelow(s, g, b);
    OffsetsOrdered(g, Arcs(b.edges));
    if HopsStored(b) { AllEdgesOk(s, g, b); } else { SomeEdgeLost(s, g, b); }
  }

  /** Every position lies in some bucket. */
  lemma {:induction false} Bucket(arcs: seq<Arc>, n: nat, e: nat) returns (i: nat)
    requires Below(arcs, n) > e
    ensures i < n && Below(arcs, i) <= e < Below(arcs, i + 1)
    decreases n
  {
    BelowAll(arcs, 0);
    if Below(arcs, n - 1) > e {
      i := Bucket(arcs, n - 1, e);
    } else {
      i := n - 1;
    }
  }
}
