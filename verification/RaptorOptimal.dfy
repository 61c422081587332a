/** Feasible chains of rides, stated without the search, and why no chain beats the labels. */
module RaptorOptimal {
  import opened Words
  import opened Transit
  import opened RaptorLabels

  /** One ride and, possibly, the footpath taken after it. */
  datatype Hop = Hop(pattern: nat, trip: nat, board: nat, alight: nat, day: int, walk: Option<nat>)

  ghost predicate HopOk(tt: Timetable, q: Query, h: Hop)
  {
    && RideAt(tt, q, h.pattern, h.trip, h.board, h.alight, h.day)
    && (h.walk.Some? ==> exists to :: XferAt(tt, tt.Stop(h.pattern, h.alight), h.walk.value, to))
  }

  ghost function HopStop(tt: Timetable, q: Query, h: Hop): nat
    requires HopOk(tt, q, h)
  {
    if h.walk.Some? then tt.xferTo[h.walk.value] else tt.Stop(h.pattern, h.alight)
  }

  ghost function HopTime(tt: Timetable, q: Query, h: Hop): int
    requires HopOk(tt, q, h)
  {
    Arr(tt, h.pattern, h.trip, h.alight, h.day) + if h.walk.Some? then XferSec(tt.xferDs[h.walk.value]) else 0
  }

  /** A walk out of s at time a: either s is reached before all its seeds, or the walk's end is seeded no later than the
      walk gets there (footpaths of seeds are the street search's job), or it gets there too late to matter. */
  ghost predicate WalkCounts(tt: Timetable, q: Query, s: nat, a: int, x: nat)
    requires x < |tt.xferTo| == |tt.xferDs|
  {
    forall i :: 0 <= i < |q.sources| && q.sources[i].stop == s ==>
      || a < q.sources[i].sec
      || SeededBy(q, tt.xferTo[x], a + XferSec(tt.xferDs[x]))
      || INF <= a + XferSec(tt.xferDs[x])
  }

  ghost predicate SeededBy(q: Query, s: nat, t: int) {
    exists i :: 0 <= i < |q.sources| && q.sources[i].stop == s && q.sources[i].sec <= t
  }

  /** Every footpath out of a seed ends at a stop seeded no later than a walk along it takes: what a caller that seeds
      all stops within reach of the street search provides. */
  ghost predicate FootpathsSeeded(tt: Timetable, q: Query) {
    forall i: nat, x: nat, to: nat :: i < |q.sources| && XferAt(tt, q.sources[i].stop, x, to) ==>
      FootpathSeeded(tt, q, i, x, to)
  }

  ghost predicate FootpathSeeded(tt: Timetable, q: Query, i: nat, x: nat, to: nat)
    requires i < |q.sources| && x < |tt.xferDs|
  {
    q.sources[i].sec + XferSec(tt.xferDs[x]) < INF ==> SeededBy(q, to, q.sources[i].sec + XferSec(tt.xferDs[x]))
  }

  /** A chain of rides, each boarded in time where the one before it led, whatever its walks. */
  ghost predicate Chain(tt: Timetable, q: Query, src: nat, hops: seq<Hop>)
    decreases |hops|
  {
    && src < |q.sources|
    && (hops != [] ==>
          var h, before := hops[|hops| - 1], hops[..|hops| - 1];
          && Chain(tt, q, src, before)
          && HopOk(tt, q, h)
          && tt.Stop(h.pattern, h.board) == EndStop(tt, q, src, before)
          && EndTime(tt, q, src, before) <= Dep(tt, h.pattern, h.trip, h.board, h.day))
  }

  /** With seeded footpaths every chain counts. */
  lemma {:induction false} ChainCounts(tt: Timetable, q: Query, src: nat, hops: seq<Hop>)
    requires Chain(tt, q, src, hops) && FootpathsSeeded(tt, q)
    ensures Feasible(tt, q, src, hops)
    decreases |hops|
  {
    if hops != [] {
      var h := hops[|hops| - 1];
      ChainCounts(tt, q, src, hops[..|hops| - 1]);
      if h.walk.Some? {
        var s, to := tt.Stop(h.pattern, h.alight), tt.xferTo[h.walk.value];
        forall i: nat | i < |q.sources| && q.sources[i].stop == s ensures FootpathSeeded(tt, q, i, h.walk.value, to) {
          assert XferAt(tt, q.sources[i].stop, h.walk.value, to);
        }
      }
    }
  }

  ghost predicate Feasible(tt: Timetable, q: Query, src: nat, hops: seq<Hop>)
    decreases |hops|
  {
    && src < |q.sources|
    && (hops != [] ==>
          var h, before := hops[|hops| - 1], hops[..|hops| - 1];
          && Feasible(tt, q, src, before)
          && HopOk(tt, q, h)
          && tt.Stop(h.pattern, h.board) == EndStop(tt, q, src, before)
          && EndTime(tt, q, src, before) <= Dep(tt, h.pattern, h.trip, h.board, h.day)
          && (h.walk.Some? ==>
                WalkCounts(tt, q, tt.Stop(h.pattern, h.alight), Arr(tt, h.pattern, h.trip, h.alight, h.day),
                  h.walk.value)))
  }

  ghost predicate Ends(tt: Timetable, q: Query, src: nat, hops: seq<Hop>)
  {
    src < |q.sources| && (hops != [] ==> HopOk(tt, q, hops[|hops| - 1]))
  }

  ghost function EndStop(tt: Timetable, q: Query, src: nat, hops: seq<Hop>): nat
    requires Ends(tt, q, src, hops)
  {
    if hops == [] then q.sources[src].stop else HopStop(tt, q, hops[|hops| - 1])
  }

  ghost function EndTime(tt: Timetable, q: Query, src: nat, hops: seq<Hop>): int
    requires Ends(tt, q, src, hops)
  {
    if hops == [] then q.sources[src].sec else HopTime(tt, q, hops[|hops| - 1])
  }

  // ---- what the search relies on ---------------------------------------------------

  /** The search's own assumptions: no overtaking, times that never decrease along a trip, no stop skipped by a
      trip that a later one serves, no buffers, no incoming rail ride, egress costs that fit 31 bits, footpaths
      closed under composition. */
  ghost predicate Ideal(tt: Timetable, q: Query)
  {
    && NoOvertaking(tt, q)
    && NonDecreasing(tt, q)
    && SkipsFirst(tt, q)
    && q.slackSec == q.railEntrySec == q.railTransferSec == 0
    && (forall i :: 0 <= i < |q.sources| ==> !q.sources[i].priorRail)
    && (forall i :: 0 <= i < |q.targets| ==> q.targets[i].sec < TWO_31)
    && Triangle(tt)
  }

  ghost predicate NoOvertaking(tt: Timetable, q: Query)
  {
    forall p, t, t', pos, day | t <= t' && At(tt, p, t, pos) && At(tt, p, t', pos) ::
      Usable(tt, q, day, t) && Usable(tt, q, day, t') ==>
        tt.TripDep(t, pos) <= tt.TripDep(t', pos) && tt.TripArr(t, pos) <= tt.TripArr(t', pos)
  }

  ghost predicate NonDecreasing(tt: Timetable, q: Query)
  {
    forall p, t, i, j, day :: RideAt(tt, q, p, t, i, j, day) ==> tt.TripDep(t, i) <= tt.TripArr(t, j)
  }

  /** A stop that a trip of a pattern serves is not skipped by the earlier ones; without skipped stops, a
      matter of course. */
  ghost predicate SkipsFirst(tt: Timetable, q: Query)
  {
    forall p, t, t', pos, day | t <= t' && At(tt, p, t, pos) && At(tt, p, t', pos) ::
      Usable(tt, q, day, t) && Usable(tt, q, day, t') && tt.StopSkipped(t, pos) ==> tt.StopSkipped(t', pos)
  }

  ghost predicate Triangle(tt: Timetable)
  {
    forall a, x: nat, b, y: nat, c :: XferAt(tt, a, x, b) && XferAt(tt, b, y, c) && a != c ==>
      Shortcut(tt, a, c, XferSec(tt.xferDs[x]) + XferSec(tt.xferDs[y]))
  }

  /** Some footpath leads from a to c within `sec` seconds. */
  ghost predicate Shortcut(tt: Timetable, a: nat, c: nat, sec: nat)
    requires a < tt.numStops
  {
    exists z: nat :: tt.XferIn(a, z) && tt.xferTo[z] == c && XferSec(tt.xferDs[z]) <= sec
  }

  // ---- closure of one round ---------------------------------------------------------

  /** At s by time t, or a complete journey no later than t is already known. */
  ghost predicate Covered(row: Row, s: nat, t: int, ub: nat)
    requires s < |row|
  {
    row[s].tau <= t || ub <= t
  }

  ghost predicate Catches(tt: Timetable, row: Row, p: nat, t: nat, i: nat, day: int)
    requires At(tt, p, t, i) && |row| == tt.numStops
  {
    row[tt.Stop(p, i)].tau < INF && row[tt.Stop(p, i)].tau <= Dep(tt, p, t, i, day)
  }

  /** Every ride of the pattern boarded at or after `start` is covered. */
  ghost predicate PatternClosed(tt: Timetable, q: Query, p: nat, day: int, start: nat, prev: Row, row: Row, ub: nat)
    requires |row| == |prev| == tt.numStops
  {
    forall t, i, j :: start <= i && RideAt(tt, q, p, t, i, j, day) && Catches(tt, prev, p, t, i, day) ==>
      Covered(row, tt.Stop(p, j), Arr(tt, p, t, j, day), ub)
  }

  ghost predicate RidesClosed(tt: Timetable, q: Query, prev: Row, row: Row, ub: nat)
    requires |row| == |prev| == tt.numStops
  {
    forall p, t, i, j, day :: RideAt(tt, q, p, t, i, j, day) && Catches(tt, prev, p, t, i, day) ==>
      Covered(row, tt.Stop(p, j), Arr(tt, p, t, j, day), ub)
  }

  /** Rides boarded at an unmarked stop have been covered by earlier rounds. */
  ghost predicate UnmarkedClosed(tt: Timetable, q: Query, row: Row, marked: seq<bool>, ub: nat)
    requires |row| == |marked| == tt.numStops
  {
    forall p, t, i, j, day ::
      RideAt(tt, q, p, t, i, j, day) && !marked[tt.Stop(p, i)] && Catches(tt, row, p, t, i, day) ==>
        Covered(row, tt.Stop(p, j), Arr(tt, p, t, j, day), ub)
  }

  ghost predicate FootClosedAt(tt: Timetable, row: Row, s: nat, ub: nat)
    requires |row| == tt.numStops && s < |row|
  {
    forall x: nat, to: nat :: XferAt(tt, s, x, to) ==> Covered(row, to, row[s].tau + XferSec(tt.xferDs[x]), ub)
  }

  /** Footpaths out of every stop reached by a ride are covered. */
  ghost predicate FootClosed(tt: Timetable, row: Row, ub: nat)
    requires |row| == tt.numStops
  {
    forall s :: 0 <= s < tt.numStops && row[s].kind in {Ride, Xfer} ==> FootClosedAt(tt, row, s, ub)
  }

  ghost predicate CoversAll(tt: Timetable, q: Query, row: Row, k: nat, ub: nat)
    requires q.Valid(tt) && |row| == tt.numStops
  {
    forall src, hops :: Feasible(tt, q, src, hops) && |hops| <= k ==>
      CoversChain(tt, q, row, src, hops, ub)
  }

  ghost predicate CoversChain(tt: Timetable, q: Query, row: Row, src: nat, hops: seq<Hop>, ub: nat)
    requires q.Valid(tt) && |row| == tt.numStops && Feasible(tt, q, src, hops)
  {
    Covered(row, EndStop(tt, q, src, hops), EndTime(tt, q, src, hops), ub)
  }

  /** A ride boarded in time at a covered stop is covered. */
  lemma RideIsCovered(tt: Timetable, q: Query, prev: Row, row: Row, ub: nat, p: nat, t: nat, i: nat, j: nat, day: int,
      t0: int)
    requires NonDecreasing(tt, q) && |prev| == |row| == tt.numStops && ub <= INF
    requires RidesClosed(tt, q, prev, row, ub)
    requires RideAt(tt, q, p, t, i, j, day)
    requires Covered(prev, tt.Stop(p, i), t0, ub) && t0 <= Dep(tt, p, t, i, day)
    ensures Covered(row, tt.Stop(p, j), Arr(tt, p, t, j, day), ub)
  {
    assert tt.TripDep(t, i) <= tt.TripArr(t, j);
    if ub > Arr(tt, p, t, j, day) {
      assert Catches(tt, prev, p, t, i, day);
    }
  }

  /** One more ride: if the chain without its last hop is covered in the previous round, so is the chain. */
  lemma OneMoreHop(tt: Timetable, q: Query, row0: Row, prev: Row, row: Row, src: nat, hops: seq<Hop>, ub: nat)
    requires q.Valid(tt) && NonDecreasing(tt, q)
    requires |prev| == tt.numStops && RowOk(tt, q, row0, prev, row) && SeedsCover(q, row) && ub <= INF
    requires RidesClosed(tt, q, prev, row, ub) && FootClosed(tt, row, ub)
    requires Feasible(tt, q, src, hops) && hops != []
    requires CoversChain(tt, q, prev, src, hops[..|hops| - 1], ub)
    ensures CoversChain(tt, q, row, src, hops, ub)
  {
    var h, before := hops[|hops| - 1], hops[..|hops| - 1];
    RideIsCovered(tt, q, prev, row, ub, h.pattern, h.trip, h.board, h.alight, h.day, EndTime(tt, q, src, before));
    if h.walk.Some? && ub > Arr(tt, h.pattern, h.trip, h.alight, h.day) {
      AfterTheWalk(tt, q, row0, prev, row, tt.Stop(h.pattern, h.alight), Arr(tt, h.pattern, h.trip, h.alight, h.day),
        h.walk.value, ub);
    }
  }

  lemma AfterTheWalk(tt: Timetable, q: Query, row0: Row, prev: Row, row: Row, s: nat, a: int, x: nat, ub: nat)
    requires q.Valid(tt)
    requires RowOk(tt, q, row0, prev, row) && SeedsCover(q, row) && ub <= INF
    requires FootClosed(tt, row, ub)
    requires tt.XferIn(s, x) && XferAt(tt, s, x, tt.xferTo[x])
    requires row[s].tau <= a < ub && WalkCounts(tt, q, s, a, x)
    ensures Covered(row, tt.xferTo[x], a + XferSec(tt.xferDs[x]), ub)
  {
    assert LabelOk(tt, q, row0, prev, row, s);
    if row[s].kind == Access {
      var i :| 0 <= i < |q.sources| && q.sources[i].stop == s && q.sources[i].sec == row[s].tau;
    } else {
      assert FootClosedAt(tt, row, s, ub);
    }
  }

  /** A round extends the covered chains by one ride. */
  lemma RoundCovers(tt: Timetable, q: Query, row0: Row, prev: Row, row: Row, k: nat, ub: nat)
    requires q.Valid(tt) && NonDecreasing(tt, q)
    requires |prev| == tt.numStops && RowOk(tt, q, row0, prev, row) && SeedsCover(q, row) && ub <= INF
    requires Improves(prev, row)
    requires RidesClosed(tt, q, prev, row, ub) && FootClosed(tt, row, ub)
    requires CoversAll(tt, q, prev, k, ub)
    ensures CoversAll(tt, q, row, k + 1, ub)
  {
    forall src, hops | Feasible(tt, q, src, hops) && |hops| <= k + 1
      ensures CoversChain(tt, q, row, src, hops, ub)
    {
      if |hops| <= k {
        assert CoversChain(tt, q, prev, src, hops, ub);
      } else {
        assert CoversChain(tt, q, prev, src, hops[..|hops| - 1], ub);
        OneMoreHop(tt, q, row0, prev, row, src, hops, ub);
      }
    }
  }

  /** A round that changes nothing covers chains of every length. */
  lemma {:induction false} FixpointCovers(tt: Timetable, q: Query, row0: Row, row: Row, ub: nat, src: nat,
      hops: seq<Hop>)
    requires q.Valid(tt) && NonDecreasing(tt, q)
    requires RowOk(tt, q, row0, row, row) && SeedsCover(q, row) && ub <= INF
    requires RidesClosed(tt, q, row, row, ub) && FootClosed(tt, row, ub)
    requires Feasible(tt, q, src, hops)
    ensures CoversChain(tt, q, row, src, hops, ub)
    decreases |hops|
  {
    if hops != [] {
      FixpointCovers(tt, q, row0, row, ub, src, hops[..|hops| - 1]);
      OneMoreHop(tt, q, row0, row, row, src, hops, ub);
    }
  }

  /** Chains without a ride are covered by the seeds. */
  lemma SeedsCoverAll(tt: Timetable, q: Query, row: Row, ub: nat)
    requires q.Valid(tt) && |row| == tt.numStops && SeedsCover(q, row) && ub <= INF
    ensures CoversAll(tt, q, row, 0, ub)
  {
    forall src, hops | Feasible(tt, q, src, hops) && |hops| <= 0
      ensures CoversChain(tt, q, row, src, hops, ub)
    {
      assert hops == [];
    }
  }
}
