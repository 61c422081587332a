/** Assembling the graph: every way cut, every edge laid out, every shape stored. */
module GraphBuild {
  import opened Words
  import opened Seqs
  import opened Sorting
  import opened Reversing
  import opened StreetMap
  import opened SourceData
  import opened GraphModel
  import opened Geometry
  import opened Csr
  import opened Chains
  import opened Assembly

  /** The flag byte, bit by bit. */
  function FlagsOf(v: nat): (f: Flags)
    ensures v < 256 ==> (f.Any() <==> v != 0)
  {
    Flags(v % 2 == 1, v / 2 % 2 == 1, v / 4 % 2 == 1, v / 8 % 2 == 1, v / 16 % 2 == 1, v / 32 % 2 == 1, v / 64 % 2 == 1,
      v / 128 % 2 == 1)
  }

  function ProfileOf(w: WayRec): Profile { Profile(FlagsOf(w.fwd), FlagsOf(w.bwd), w.speed, w.nameIdx) }

  /** Way records as the classifier fills them: bytes, and never the reversed-shape bit. */
  predicate Classified(ways: seq<WayRec>) { forall i :: 0 <= i < |ways| ==> ClassifiedWay(ways[i]) }

  predicate ClassifiedWay(w: WayRec) {
    w.fwd < 256 && w.bwd < 256 && !FlagsOf(w.fwd).geomRev && !FlagsOf(w.bwd).geomRev && w.speed < 256
  }

  ghost function NodeAt(t: Terrain, ids: seq<int>, x: int): int
    requires |ids| == |t.coord|
  {
    if j :| 0 <= j < |ids| && ids[j] == x && t.coord[j].lat != MISSING then j else -1
  }

  ghost function TrackOf(t: Terrain, ids: seq<int>, refs: seq<int>, p: Profile): Track
    requires |ids| == |t.coord|
  {
    Track(seq(|refs|, k requires 0 <= k < |refs| => NodeAt(t, ids, refs[k])), p)
  }

  lemma TrackFollows(t: Terrain, ids: seq<int>, refs: seq<int>, p: Profile)
    requires |ids| == |t.coord|
    ensures Follows(t, ids, refs, TrackOf(t, ids, refs, p))
  {
  }

  function RefsAt(s: Source, w: nat): seq<int>
    requires w < |s.ways| && s.ways[w].refOff + s.ways[w].refCnt <= |s.refs|
  {
    s.refs[s.ways[w].refOff..s.ways[w].refOff + s.ways[w].refCnt]
  }

  /** The tracks of a source's ways. */
  ghost predicate TracksOf(s: Source, t: Terrain, tracks: seq<Track>) {
    && |tracks| == |s.ways|
    && forall w :: 0 <= w < |tracks| ==> TrackIs(s, t, tracks[w], w)
  }

  ghost predicate TrackIs(s: Source, t: Terrain, r: Track, w: nat) {
    && w < |s.ways| && s.ways[w].refOff + s.ways[w].refCnt <= |s.refs|
    && r.p == ProfileOf(s.ways[w]) && Follows(t, s.ids, RefsAt(s, w), r)
  }

  /** The record at one CSR position. */
  function ArcAt(g: Graph, from: nat, k: nat): Arc
    requires k < |g.edgeTarget| == |g.edgeMeters| == |g.edgeFlags| == |g.edgeSpeed| == |g.edgeName| == |g.edgeGeom|
  {
    Arc(from, g.edgeTarget[k], g.edgeMeters[k], g.edgeFlags[k], g.edgeSpeed[k], g.edgeName[k], g.edgeGeom[k])
  }

  ghost predicate Parallel(g: Graph) {
    |g.edgeTarget| == |g.edgeMeters| == |g.edgeFlags| == |g.edgeSpeed| == |g.edgeName| == |g.edgeGeom|
  }

  /** The CSR arrays hold exactly these arcs, each in its slot. */
  ghost predicate Holds(g: Graph, arcs: seq<Arc>) {
    && Parallel(g) && |g.edgeTarget| == |arcs| && |g.firstEdge| == |g.nodeAt| + 1
    && (forall i :: 0 <= i <= |g.nodeAt| ==> g.firstEdge[i] == Below(arcs, i))
    && forall k :: 0 <= k < |arcs| ==> HoldsArc(g, arcs, k)
  }

  ghost predicate HoldsArc(g: Graph, arcs: seq<Arc>, k: nat)
    requires Parallel(g)
  {
    k < |arcs| && Slot(arcs, k) < |g.edgeTarget| && ArcAt(g, arcs[k].from, Slot(arcs, k)) == arcs[k]
  }

  /** How a graph was built: node origins, staged edges and the spans they stand for. */
  datatype Build = Build(t: Terrain, tracks: seq<Track>, origin: seq<nat>, edges: seq<Staged>, spans: seq<Span>)

  ghost predicate NodesFrom(g: Graph, b: Build) {
    && |g.nodeAt| == |b.origin|
    && (forall n :: 0 <= n < |b.origin| ==> b.origin[n] < |b.t.coord| && g.nodeAt[n] == b.t.coord[b.origin[n]])
    && forall n, m :: 0 <= n < m < |b.origin| ==> b.origin[n] != b.origin[m]
  }

  /** Every routing node with a coordinate is in the graph. */
  ghost predicate HotNodesIn(b: Build) {
    |b.t.hot| == |b.t.coord|
      && forall i :: 0 <= i < |b.t.coord| && b.t.hot[i] && b.t.coord[i].lat != MISSING ==> i in b.origin
  }

  ghost predicate Built(s: Source, g: Graph, b: Build) {
    && |s.lats| == |s.lons| && b.t.Valid() && b.t.coord == PairUp(s.lats, s.lons) && b.t.hot == s.route
    && TracksOf(s, b.t, b.tracks)
    && NodesFrom(g, b) && HotNodesIn(b)
    && AllMatch(b.t, b.tracks, b.origin, g.geom, b.edges, b.spans)
    && InOrder(b.spans) && CoveredTo(b.tracks, b.spans, |b.tracks|, 0)
    && Holds(g, Arcs(b.edges))
  }

  /** The graph is what assembling that source gives, for some numbering of nodes and order of edges. */
  ghost predicate Assembled(s: Source, g: Graph) { exists b :: Built(s, g, b) }

  // ---- assembling ---------------------------------------------------------------------------------------

  method PromoteHot(a: Assembler, ghost tracks: seq<Track>)
    requires a.Valid(tracks) && a.edges == [] && a.spans == []
    modifies a
    ensures a.Valid(tracks) && a.edges == [] && a.spans == []
    ensures forall i :: 0 <= i < |a.t.coord| && a.t.hot[i] && a.t.coord[i].lat != MISSING ==> i in a.origin
  {
    for i := 0 to |a.t.coord|
      invariant a.Valid(tracks) && a.edges == [] && a.spans == []
      invariant forall j :: 0 <= j < i && a.t.hot[j] && a.t.coord[j].lat != MISSING ==> j in a.origin
    {
      if a.t.hot[i] && a.t.coord[i].lat != MISSING {
        ghost var before := a.origin;
        var n := a.Promote(i);
        StillIn(before, a.origin);
      }
    }
  }

  lemma StillIn(s: seq<nat>, t: seq<nat>)
    requires s <= t
    ensures forall x :: x in s ==> x in t
  {
    forall x | x in s ensures x in t {
      var i :| 0 <= i < |s| && s[i] == x;
      assert t[i] == x;
    }
  }

  /** Cuts all ways in turn. */
  method CutWays(a: Assembler, s: Source, ghost tracks: seq<Track>)
    requires a.Valid(tracks) && a.spans == [] && s.Valid() && |s.ids| == |a.t.coord| && TracksOf(s, a.t, tracks)
    modifies a
    ensures a.Valid(tracks) && old(a.origin) <= a.origin && CoveredTo(tracks, a.spans, |tracks|, 0)
  {
    for wi := 0 to |s.ways|
      invariant a.Valid(tracks) && old(a.origin) <= a.origin
      invariant Upto(a.spans, wi, 0) && CoveredTo(tracks, a.spans, wi, 0)
    {
      assert TrackIs(s, a.t, tracks[wi], wi);
      var w := s.ways[wi];
      a.CutWay(s.ids, s.refs[w.refOff..w.refOff + w.refCnt], ProfileOf(w), tracks, wi);
    }
  }

  lemma EndsFromMatches(t: Terrain, tracks: seq<Track>, origin: seq<nat>, geom: Bytes, edges: seq<Staged>,
      spans: seq<Span>)
    requires AllMatch(t, tracks, origin, geom, edges, spans)
    ensures EndsIn(edges, |origin|)
  {
    forall i | 0 <= i < |edges| ensures edges[i].u < |origin| && edges[i].v < |origin| {
      assert EdgeMatches(t, tracks, origin, geom, edges[i], spans[i]);
    }
  }

  /** The finished arrays, from offsets and slots. */
  function GraphOf(nodeAt: seq<Coord>, first: seq<nat>, slots: seq<Arc>, geom: Bytes): Graph {
    var m := |slots|;
    Graph(nodeAt, first,
      seq(m, k requires 0 <= k < m => slots[k].to),
      seq(m, k requires 0 <= k < m => slots[k].meters),
      seq(m, k requires 0 <= k < m => slots[k].flags),
      seq(m, k requires 0 <= k < m => slots[k].speed),
      seq(m, k requires 0 <= k < m => slots[k].name),
      seq(m, k requires 0 <= k < m => slots[k].geomOff),
      geom)
  }

  lemma GraphHolds(nodeAt: seq<Coord>, first: seq<nat>, slots: seq<Arc>, geom: Bytes, arcs: seq<Arc>)
    requires LaidOut(arcs, |nodeAt|, first, slots)
    ensures Holds(GraphOf(nodeAt, first, slots, geom), arcs)
  {
    var g := GraphOf(nodeAt, first, slots, geom);
    forall k | 0 <= k < |arcs| ensures HoldsArc(g, arcs, k) {
      assert Placed(arcs, slots, k);
    }
  }

  ghost function AllTracks(s: Source, t: Terrain): (r: seq<Track>)
    requires s.Valid() && |s.ids| == |t.coord|
    ensures TracksOf(s, t, r)
  {
    forall w: nat | w < |s.ways| ensures s.ways[w].refOff + s.ways[w].refCnt <= |s.refs| {
      WayAt(s.ways, s.wayIDs, s.refs, s.names, w);
    }
    var r := seq(|s.ways|, w requires 0 <= w < |s.ways| => TrackOf(t, s.ids, RefsAt(s, w), ProfileOf(s.ways[w])));
    forall w | 0 <= w < |r| ensures TrackIs(s, t, r[w], w) {
      TrackFollows(t, s.ids, RefsAt(s, w), ProfileOf(s.ways[w]));
    }
    r
  }

  /** The steps of the assembly: routing nodes first, then the ways, then the layout. */
  method BuildGraph(s: Source, dist: (Coord, Coord) -> real, narrow: nat -> nat) returns (g: Graph, ghost b: Build)
    requires s.Valid() && AllFit(PairUp(s.lats, s.lons)) && (forall p, q :: dist(p, q) >= 0.0) && forall m ::
      narrow(m) < TWO_16
    ensures Built(s, g, b) && b.t.dist == dist && b.t.narrow == narrow
  {
    var t := Terrain(PairUp(s.lats, s.lons), s.route, dist, narrow);
    ghost var tracks := AllTracks(s, t);
    var a := new Assembler(t, tracks);
    PromoteHot(a, tracks);
    ghost var hot := a.origin;
    CutWays(a, s, tracks);
    StillIn(hot, a.origin);
    EndsFromMatches(t, tracks, a.origin, a.geom, a.edges, a.spans);
    var first, slots := Layout(a.edges, |a.nodeAt|);
    g := GraphOf(a.nodeAt, first, slots, a.geom);
    GraphHolds(a.nodeAt, first, slots, a.geom, Arcs(a.edges));
    b := Build(t, tracks, a.origin, a.edges, a.spans);
  }

  /** Builds the final graph of a source, by these distances. */
  method Assemble(s: Source, dist: (Coord, Coord) -> real, narrow: nat -> nat) returns (g: Graph, ghost b: Build)
    requires s.Valid() && AllFit(PairUp(s.lats, s.lons)) && (forall p, q :: dist(p, q) >= 0.0) && forall m ::
      narrow(m) < TWO_16
    ensures Built(s, g, b) && Assembled(s, g) && b.t.dist == dist && b.t.narrow == narrow
  {
    g, b := BuildGraph(s, dist, narrow);
  }
}
