/** The assembler: promotes nodes, stages edges with their shapes, and cuts every way into spans. */
module Assembly {
  import opened Words
  import opened Seqs
  import opened Sorting
  import opened StreetMap
  import opened GraphModel
  import opened Geometry
  import opened Csr
  import opened Chains

  class Assembler {
    const t: Terrain
    /** The routing node of each source node, or -1. */
    var nodeID: seq<int>
    var nodeAt: seq<Coord>
    var edges: seq<Staged>
    var geom: Bytes
    /** Which source node a routing node is, and which span of which way an edge is. */
    ghost var origin: seq<nat>
    ghost var spans: seq<Span>

    ghost predicate Valid(tracks: seq<Track>)
      reads this
    {
      && t.Valid() && NodesOk(t, nodeID, nodeAt, origin)
      && AllMatch(t, tracks, origin, geom, edges, spans) && InOrder(spans)
    }

    constructor (t: Terrain, ghost tracks: seq<Track>)
      requires t.Valid()
      ensures Valid(tracks) && this.t == t && nodeAt == [] && edges == [] && geom == [] && spans == [] && origin == []
    {
      this.t := t;
      nodeID := seq(|t.coord|, _ => -1);
      nodeAt, edges, geom, origin, spans := [], [], [], [], [];
    }

    /** Turns a source node into a routing node, once. */
    method Promote(i: nat) returns (n: nat)
      requires NodesOk(t, nodeID, nodeAt, origin) && i < |t.coord|
      modifies this`nodeID, this`nodeAt, this`origin
      ensures NodesOk(t, nodeID, nodeAt, origin) && old(origin) <= origin
      ensures n < |origin| && origin[n] == i
      ensures forall j :: 0 <= j < |nodeID| && j != i ==> nodeID[j] == old(nodeID)[j]
    {
      if nodeID[i] == -1 {
        nodeID := nodeID[i := |nodeAt|];
        nodeAt := nodeAt + [t.coord[i]];
        origin := origin + [i];
      }
      n := nodeID[i];
    }

    /** The shape of a chain of three or more points, appended to the blob. */
    method StoreShape(chain: seq<Coord>) returns (geomOff: nat)
      requires |chain| >= 2
      modifies this`geom
      ensures old(geom) <= geom
      ensures |chain| == 2 ==> geomOff == NO_GEOM
      ensures |chain| > 2 && |geom| < NO_GEOM ==> geomOff != NO_GEOM && ShapeAt(geom, geomOff, chain)
    {
      geomOff := NO_GEOM;
      if |chain| > 2 {
        geomOff := ToU32(|geom|);
        ghost var before := geom;
        geom := AppendShape(geom, chain);
        assert geom[|before|..|before| + |Shape(chain)|] == Shape(chain);
      }
    }

    /** Stages the edge of one span. */
    method EmitEdge(chain: seq<nat>, meters: real, p: Profile,
        ghost tracks: seq<Track>, ghost s: Span)
      requires Valid(tracks) && s.way < |tracks| && SpanOk(t, tracks[s.way], s.a, s.b) &&
        EndOk(t, tracks[s.way], s.a, s.b)
      requires |chain| == s.b - s.a + 1 && Run(tracks[s.way], chain, s.a)
      requires meters >= 0.0 && meters == Length(t, tracks[s.way], s.a, s.b)
      requires p == tracks[s.way].p && Upto(spans, s.way, s.a)
      modifies this`nodeID, this`nodeAt, this`origin, this`geom, this`edges, this`spans
      ensures Valid(tracks) && spans == old(spans) + [s] && old(origin) <= origin
    {
      var u := Promote(chain[0]);
      var v := Promote(chain[|chain| - 1]);
      var shape := seq(|chain|, k requires 0 <= k < |chain| => t.coord[chain[k]]);
      assert shape == Points(t, tracks[s.way], s.a, s.b);
      var geomOff := StoreShape(shape);
      var e := Staged(u, v, Meters(t, meters), p.fwd, p.bwd, p.speed, p.name, geomOff);
      ghost var was := old(edges);
      forall i | 0 <= i < |was| ensures EdgeMatches(t, tracks, origin, geom, was[i], old(spans)[i]) {
        assert old(EdgeMatches(t, tracks, origin, geom, edges[i], spans[i]));
        MatchesStill(t, tracks, old(origin), old(geom), was[i], old(spans)[i], origin, geom);
      }
      assert EdgeMatches(t, tracks, origin, geom, e, s);
      edges, spans := edges + [e], spans + [s];
    }

    /** Stages the part of a chain from its point a up to point b - 1. */
    method EmitPiece(chain: seq<nat>, a: nat, b: nat, meters: real, p: Profile, ghost tracks: seq<Track>, ghost w: nat,
        ghost start: nat)
      requires Valid(tracks) && w < |tracks| && tracks[w].p == p && Run(tracks[w], chain, start) && a < b <= |chain|
      requires SpanOk(t, tracks[w], start + a, start + b - 1) && EndOk(t, tracks[w], start + a, start + b - 1)
      requires meters >= 0.0 && meters == Length(t, tracks[w], start + a, start + b - 1)
      requires Upto(spans, w, start + a) && CoveredTo(tracks, spans, w, start + a)
      modifies this`nodeID, this`nodeAt, this`origin, this`geom, this`edges, this`spans
      ensures Valid(tracks) && Upto(spans, w, start + b - 1) && CoveredTo(tracks, spans, w, start + b - 1) &&
        old(origin) <= origin
    {
      ghost var s := Span(w, start + a, start + b - 1);
      CoverMore(tracks, spans, s);
      SubRun(tracks[w], chain, start, a, b);
      EmitEdge(chain[a..b], meters, p, tracks, s);
    }

    /** Splits a chain so that no edge is too long unless it is a single hop, and stages the pieces. */
    method EmitChain(chain: seq<nat>, p: Profile, ghost tracks: seq<Track>, ghost w: nat, ghost start: nat)
      requires Valid(tracks) && w < |tracks| && tracks[w].p == p && tracks[w].Within(t) && Run(tracks[w], chain, start)
      requires forall k :: start < k < start + |chain| - 1 ==> !HotAt(t, tracks[w], k)
      requires |chain| > 0 ==> !tracks[w].Here(start + |chain|) || HotAt(t, tracks[w], start + |chain| - 1)
      requires Upto(spans, w, start) && CoveredTo(tracks, spans, w, start)
      modifies this`nodeID, this`nodeAt, this`origin, this`geom, this`edges, this`spans
      ensures Valid(tracks) && old(origin) <= origin
      ensures |chain| > 0 ==> Upto(spans, w, start + |chain| - 1) && CoveredTo(tracks, spans, w, start + |chain| - 1)
      ensures |chain| == 0 ==> Upto(spans, w, start) && CoveredTo(tracks, spans, w, start)
    {
      if |chain| < 2 { return; }
      ghost var r := tracks[w];
      RunHere(r, chain, start);
      var segStart, meters := 0, 0.0;
      for k := 1 to |chain|
        invariant Valid(tracks) && old(origin) <= origin && 0 <= segStart < k && (segStart < k - 1 || k == 1)
        invariant AllHere(r, start + segStart, start + k - 1)
        invariant meters == Length(t, r, start + segStart, start + k - 1) >= 0.0
        invariant meters <= MAX_METERS || k - 1 == segStart + 1
        invariant Upto(spans, w, start + segStart) && CoveredTo(tracks, spans, w, start + segStart)
      {
        var d := t.dist(t.coord[chain[k - 1]], t.coord[chain[k]]);
        assert d == Hop(t, r, start + k - 1);
        if meters + d > MAX_METERS && k - 1 > segStart {
          EmitPiece(chain, segStart, k, meters, p, tracks, w, start);
          segStart, meters := k - 1, 0.0;
        }
        meters := meters + d;
      }
      EmitPiece(chain, segStart, |chain|, meters, p, tracks, w, start);
    }

    /** Cuts one way into edges: at holes, at routing nodes, and where a chain grows too long. */
    method CutWay(ids: seq<int>, refs: seq<int>, p: Profile, ghost tracks: seq<Track>, ghost w: nat)
      requires Valid(tracks) && Increasing(ids) && |ids| == |t.coord|
      requires w < |tracks| && tracks[w].p == p && Follows(t, ids, refs, tracks[w])
      requires Upto(spans, w, 0) && CoveredTo(tracks, spans, w, 0)
      modifies this`nodeID, this`nodeAt, this`origin, this`geom, this`edges, this`spans
      ensures Valid(tracks) && old(origin) <= origin
      ensures Upto(spans, w + 1, 0) && CoveredTo(tracks, spans, w + 1, 0)
    {
      ghost var r := tracks[w];
      FollowsWithin(t, ids, refs, r);
      var chain: seq<nat> := [];
      ghost var start: nat := 0;
      for i := 0 to |refs|
        invariant Valid(tracks) && old(origin) <= origin
        invariant start + |chain| == i && Run(r, chain, start)
        invariant |chain| == 0 ==> !r.Here(i - 1)
        invariant forall k :: start < k < i ==> !HotAt(t, r, k)
        invariant Upto(spans, w, start) && CoveredTo(tracks, spans, w, start)
      {
        assert FollowsAt(t, ids, refs, r, i);
        var j, ok := BinarySearch(ids, refs[i]);
        if !ok || t.coord[j].lat == MISSING {
          EmitChain(chain, p, tracks, w, start);
          CoverGap(tracks, spans, w, if |chain| > 0 then i - 1 else i, i + 1);
          chain, start := [], i + 1;
        } else {
          SamePlace(t, ids, refs, r, i, j);
          if t.hot[j] && |chain| > 0 {
            chain := chain + [j];
            EmitChain(chain, p, tracks, w, start);
            chain, start := [], i;
          }
          chain := chain + [j];
        }
      }
      EmitChain(chain, p, tracks, w, start);
      CoverGap(tracks, spans, w, if |chain| > 0 then |refs| - 1 else |refs|, |refs|);
    }
  }

  /** Position k of a way is the node its reference names, or a hole if that has no coordinate. */
  ghost predicate FollowsAt(t: Terrain, ids: seq<int>, refs: seq<int>, r: Track, k: nat)
    requires |r.at| == |refs| && |ids| == |t.coord| && k < |refs|
  {
    if r.at[k] >= 0 then r.at[k] < |ids| && ids[r.at[k]] == refs[k] && t.coord[r.at[k]].lat != MISSING
    else forall j :: 0 <= j < |ids| && ids[j] == refs[k] ==> t.coord[j].lat == MISSING
  }

  ghost predicate Follows(t: Terrain, ids: seq<int>, refs: seq<int>, r: Track) {
    |r.at| == |refs| && |ids| == |t.coord| && forall k: nat :: k < |refs| ==> FollowsAt(t, ids, refs, r, k)
  }

  lemma FollowsWithin(t: Terrain, ids: seq<int>, refs: seq<int>, r: Track)
    requires Follows(t, ids, refs, r)
    ensures r.Within(t)
  {
    forall k | 0 <= k < |r.at| ensures r.at[k] < |t.coord| { assert FollowsAt(t, ids, refs, r, k); }
  }

  lemma SamePlace(t: Terrain, ids: seq<int>, refs: seq<int>, r: Track, k: nat, j: nat)
    requires |r.at| == |refs| && |ids| == |t.coord| && k < |refs| && FollowsAt(t, ids, refs, r, k) && Increasing(ids)
    requires j < |ids| && ids[j] == refs[k] && t.coord[j].lat != MISSING
    ensures r.at[k] == j
  {
  }

  lemma RunHere(r: Track, chain: seq<nat>, start: nat)
    requires Run(r, chain, start)
    ensures forall m :: start <= m < start + |chain| ==> r.Here(m) && r.at[m] == chain[m - start]
  {
    forall m | start <= m < start + |chain| ensures r.Here(m) && r.at[m] == chain[m - start] {
      assert r.at[start + (m - start)] == chain[m - start];
    }
  }

  lemma SubRun(r: Track, chain: seq<nat>, start: nat, a: nat, b: nat)
    requires Run(r, chain, start) && a <= b <= |chain|
    ensures Run(r, chain[a..b], start + a)
  {
  }
}
