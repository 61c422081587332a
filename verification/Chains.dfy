/** How ways are cut into edges: spans of way positions, and what staging an edge for a span means. */
module Chains {
  import opened Words
  import opened Seqs
  import opened StreetMap
  import opened GraphModel
  import opened Geometry
  import opened Csr

  const MAX_METERS: real := 65000.0

  /** The nodes of a source: coordinates and routing flags; an uninterpreted distance, and what a conversion to sixteen
      bits makes of a number that does not fit, which the language leaves open. */
  datatype Terrain = Terrain(coord: seq<Coord>, hot: seq<bool>, dist: (Coord, Coord) -> real, narrow: nat -> nat)
  {
    ghost predicate Valid() {
      |hot| == |coord| && AllFit(coord) && (forall a, b :: dist(a, b) >= 0.0) && forall m :: narrow(m) < TWO_16
    }
  }

  /** What every edge of a way inherits. */
  datatype Profile = Profile(fwd: Flags, bwd: Flags, speed: nat, name: nat)

  /** A way: per position the index of its node, or a hole (negative) where the node has no coordinate. */
  datatype Track = Track(at: seq<int>, p: Profile)
  {
    predicate Here(k: int) { 0 <= k < |at| && at[k] >= 0 }

    predicate Within(t: Terrain) { forall k :: 0 <= k < |at| ==> at[k] < |t.coord| }
  }

  /** Positions a to b of one way. */
  datatype Span = Span(way: nat, a: nat, b: nat)

  function Place(t: Terrain, r: Track, k: nat): Coord
    requires r.Within(t) && r.Here(k)
  {
    t.coord[r.at[k]]
  }

  predicate AllHere(r: Track, a: nat, b: nat) { forall k :: a <= k <= b ==> r.Here(k) }

  predicate HotAt(t: Terrain, r: Track, k: int) { r.Here(k) && r.at[k] < |t.hot| && t.hot[r.at[k]] }

  /** The metres from position b to the next. */
  function Hop(t: Terrain, r: Track, b: nat): real
    requires r.Within(t) && r.Here(b) && r.Here(b + 1)
  {
    t.dist(Place(t, r, b), Place(t, r, b + 1))
  }

  /** The metres of a span. */
  function Length(t: Terrain, r: Track, a: nat, b: nat): real
    requires r.Within(t) && AllHere(r, a, b)
    decreases b
  {
    if b <= a then 0.0 else Length(t, r, a, b - 1) + Hop(t, r, b - 1)
  }

  function Points(t: Terrain, r: Track, a: nat, b: nat): (cs: seq<Coord>)
    requires r.Within(t) && AllHere(r, a, b) && a <= b
    ensures |cs| == b - a + 1
    ensures forall k :: 0 <= k < |cs| ==> cs[k] == Place(t, r, a + k)
  {
    seq(b - a + 1, k requires 0 <= k <= b - a => Place(t, r, a + k))
  }

  /** No holes, no routing node inside, not too long unless a single hop. */
  ghost predicate SpanOk(t: Terrain, r: Track, a: nat, b: nat) {
    && t.Valid() && r.Within(t) && a < b < |r.at| && AllHere(r, a, b)
    && (forall k :: a < k < b ==> !HotAt(t, r, k))
    && (Length(t, r, a, b) <= MAX_METERS || b == a + 1)
  }

  /** The span ends where it must: at the way's end, a hole, a routing node, or where one more hop were too long. */
  ghost predicate EndOk(t: Terrain, r: Track, a: nat, b: nat)
    requires SpanOk(t, r, a, b)
  {
    !r.Here(b + 1) || HotAt(t, r, b) || Length(t, r, a, b) + Hop(t, r, b) > MAX_METERS
  }

  /** math.Round of a length, at least one metre, converted to sixteen bits. */
  function Meters(t: Terrain, d: real): nat
    requires d >= 0.0
  {
    var m: nat := (d + 0.5).Floor;
    if m < 1 then 1 else if m < TWO_16 then m else t.narrow(m)
  }

  lemma {:induction false} LengthNonNegative(t: Terrain, r: Track, a: nat, b: nat)
    requires t.Valid() && r.Within(t) && AllHere(r, a, b)
    ensures Length(t, r, a, b) >= 0.0
    decreases b
  {
    if b > a { LengthNonNegative(t, r, a, b - 1); }
  }

  /** origin[n] is the source index of routing node n. */
  ghost predicate NodesOk(t: Terrain, ids: seq<int>, nodeAt: seq<Coord>, origin: seq<nat>) {
    && |ids| == |t.coord| && |origin| == |nodeAt|
    && (forall n :: 0 <= n < |origin| ==> origin[n] < |ids| && ids[origin[n]] == n && nodeAt[n] == t.coord[origin[n]])
    && forall i :: 0 <= i < |ids| ==> ids[i] == -1 || (0 <= ids[i] < |origin| && origin[ids[i]] == i)
  }

  /** A shape lies in the blob at this offset. */
  predicate ShapeAt(geom: Bytes, off: nat, chain: seq<Coord>)
    requires |chain| >= 2
  {
    off + |Shape(chain)| <= |geom| && geom[off..off + |Shape(chain)|] == Shape(chain)
  }

  /** The staged edge is this span of this way. */
  ghost predicate Matches(t: Terrain, r: Track, origin: seq<nat>, geom: Bytes, e: Staged, a: nat, b: nat) {
    && SpanOk(t, r, a, b) && EndOk(t, r, a, b)
    && e.u < |origin| && origin[e.u] == r.at[a] && e.v < |origin| && origin[e.v] == r.at[b]
    && Profile(e.fwd, e.bwd, e.speed, e.name) == r.p
    && Length(t, r, a, b) >= 0.0 && e.meters == Meters(t, Length(t, r, a, b))
    && (b == a + 1 ==> e.geomOff == NO_GEOM)
    && (b > a + 1 && |geom| < NO_GEOM ==> e.geomOff != NO_GEOM && ShapeAt(geom, e.geomOff, Points(t, r, a, b)))
  }

  ghost predicate EdgeMatches(t: Terrain, tracks: seq<Track>, origin: seq<nat>, geom: Bytes, e: Staged, s: Span) {
    s.way < |tracks| && Matches(t, tracks[s.way], origin, geom, e, s.a, s.b)
  }

  ghost predicate AllMatch(t: Terrain, tracks: seq<Track>, origin: seq<nat>, geom: Bytes, edges: seq<Staged>,
      spans: seq<Span>) {
    |edges| == |spans| && forall i :: 0 <= i < |edges| ==> EdgeMatches(t, tracks, origin, geom, edges[i], spans[i])
  }

  /** More nodes and more geometry leave an edge as it is. */
  lemma MatchesStill(t: Terrain, tracks: seq<Track>, origin: seq<nat>, geom: Bytes, e: Staged, s: Span,
      origin': seq<nat>, geom': Bytes)
    requires EdgeMatches(t, tracks, origin, geom, e, s) && origin <= origin' && geom <= geom'
    ensures EdgeMatches(t, tracks, origin', geom', e, s)
  {
    if s.b > s.a + 1 && |geom'| < NO_GEOM {
      var p := Points(t, tracks[s.way], s.a, s.b);
      assert geom'[e.geomOff..e.geomOff + |Shape(p)|] == geom[e.geomOff..e.geomOff + |Shape(p)|];
    }
  }

  /** s lies before u: in an earlier way, or earlier in the same one. */
  predicate Before(s: Span, u: Span) { s.way < u.way || (s.way == u.way && s.b <= u.a) }

  ghost predicate InOrder(spans: seq<Span>) { forall i, j :: 0 <= i < j < |spans| ==> Before(spans[i], spans[j]) }

  /** All spans lie before position k of way w. */
  ghost predicate Upto(spans: seq<Span>, w: nat, k: nat) {
    forall i :: 0 <= i < |spans| ==> spans[i].way < w || (spans[i].way == w && spans[i].b <= k)
  }

  predicate Over(s: Span, w: nat, k: nat) { s.way == w && s.a <= k < s.b }

  ghost predicate Covered(spans: seq<Span>, w: nat, k: nat) { exists i :: 0 <= i < |spans| && Over(spans[i], w, k) }

  /** Two neighbouring positions, both present. */
  predicate Pair(tracks: seq<Track>, w: nat, k: nat) { w < |tracks| && tracks[w].Here(k) && tracks[w].Here(k + 1) }

  /** Every pair before position k of way w is covered. */
  ghost predicate CoveredTo(tracks: seq<Track>, spans: seq<Span>, w: nat, k: nat) {
    forall v: nat, m: nat :: Pair(tracks, v, m) && (v < w || (v == w && m < k)) ==> Covered(spans, v, m)
  }

  lemma CoveredStill(spans: seq<Span>, more: seq<Span>, w: nat, k: nat)
    requires Covered(spans, w, k)
    ensures Covered(spans + more, w, k)
  {
    var i :| 0 <= i < |spans| && Over(spans[i], w, k);
    assert Over((spans + more)[i], w, k);
  }

  /** One more span reaching from a covers the pairs up to its end. */
  lemma CoverMore(tracks: seq<Track>, spans: seq<Span>, s: Span)
    requires CoveredTo(tracks, spans, s.way, s.a) && s.a < s.b
    ensures CoveredTo(tracks, spans + [s], s.way, s.b)
  {
    forall v: nat, m: nat | Pair(tracks, v, m) && (v < s.way || (v == s.way && m < s.b))
      ensures Covered(spans + [s], v, m)
    {
      if v == s.way && s.a <= m {
        assert Over((spans + [s])[|spans|], v, m);
      } else {
        CoveredStill(spans, [s], v, m);
      }
    }
  }

  /** No pair lies between two positions: the covering reaches further. */
  lemma CoverGap(tracks: seq<Track>, spans: seq<Span>, w: nat, a: nat, b: nat)
    requires CoveredTo(tracks, spans, w, a) && a <= b
    requires forall m: nat :: a <= m < b ==> !Pair(tracks, w, m)
    ensures CoveredTo(tracks, spans, w, b)
  {
  }

  /** chain holds the nodes of consecutive positions from start. */
  ghost predicate Run(r: Track, chain: seq<nat>, start: nat) {
    start + |chain| <= |r.at| && forall k :: 0 <= k < |chain| ==> r.at[start + k] == chain[k]
  }
}
