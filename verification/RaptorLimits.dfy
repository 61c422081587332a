/** Where the search's promises end: what is lost when their conditions do not hold, shown on runs of the search. */
module RaptorLimits {
  import opened Words
  import opened Transit
  import opened RaptorLabels
  import opened RaptorOptimal
  import opened RaptorRounds
  import opened RaptorJourneys
  import opened RaptorSearch

  // ---- footpaths out of a seeded stop -----------------------------------------------------------------------

  /** One trip from stop 0 (10 s) to stop 1 (20 s), and a ten-second footpath from stop 1 to stop 2. */
  const WALK: Timetable := Timetable(3, [0, 2], [0, 1], [0, 1], [-1], [0], [0], [10, 20], [10, 20],
    [0, 1, 2, 2], [0, 0], [0, 1], [0, 0, 1, 1], [2], [100], [], None)

  /** From stop 0 now, or from stop 1 in five seconds, to stop 2. */
  const WALK_QUERY: Query := Query([Seed(0, 0, false, 0), Seed(1, 5, false, 0)], [Seed(2, 0, false, 0)], {}, {0}, 3, 0,
    0, 0)

  lemma WalkPlaces(p: nat, t: nat, pos: nat)
    requires At(WALK, p, t, pos)
    ensures p == 0 && t == 0 && pos < 2 && WALK.TripDep(t, pos) == WALK.TripArr(t, pos) == 10 * (pos + 1)
    ensures WALK.Stop(p, pos) == pos
  {
    assert WALK.PatLen(0) == 2;
  }

  lemma WalkPaths(a: nat, x: nat, b: nat)
    requires XferAt(WALK, a, x, b)
    ensures a == 1 && x == 0 && b == 2 && XferSec(WALK.xferDs[x]) == 10
  {
  }

  lemma WalkIsValid()
    ensures WALK.Valid() && WALK_QUERY.Valid(WALK) && FirstVisitServed(WALK)
  {
    assert WALK.PatLen(0) == 2;
    assert WALK.Entry(0, 0, 0, 0) && WALK.Entry(1, 1, 0, 1);
    forall p: nat, pos: nat ensures WALK.PositionOk(p, pos) {
      if pos < WALK.PatLen(p) { assert WALK.Entry(WALK.Stop(p, pos), pos, p, pos); }
    }
    forall p, t, b: nat, i: nat, j | b < i < j && At(WALK, p, t, b) && At(WALK, p, t, i) && At(WALK, p, t, j)
      ensures false
    {
      WalkPlaces(p, t, j);
    }
  }

  lemma WalkIsIdeal()
    ensures Ideal(WALK, WALK_QUERY)
  {
    forall p: nat, t: nat, i: nat, j: nat, day: int | RideAt(WALK, WALK_QUERY, p, t, i, j, day)
      ensures WALK.TripDep(t, i) <= WALK.TripArr(t, j)
    {
      WalkPlaces(p, t, i);
      WalkPlaces(p, t, j);
    }
    forall p: nat, t: nat, t': nat, pos: nat, day: int | t <= t' && At(WALK, p, t, pos) && At(WALK, p, t', pos)
      && Usable(WALK, WALK_QUERY, day, t) && Usable(WALK, WALK_QUERY, day, t')
      ensures WALK.TripDep(t, pos) <= WALK.TripDep(t', pos) && WALK.TripArr(t, pos) <= WALK.TripArr(t', pos)
    {
      WalkPlaces(p, t, pos);
      WalkPlaces(p, t', pos);
    }
    forall a: nat, x: nat, b: nat, y: nat, c: nat | XferAt(WALK, a, x, b) && XferAt(WALK, b, y, c) ensures false {
      WalkPaths(a, x, b);
      WalkPaths(b, y, c);
    }
  }

  /** From stop 1 or 2 no ride departs. */
  lemma {:induction false} NoRideFrom(legs: seq<RLeg>, s: nat, t: int, target: nat, end: int)
    requires s in {1, 2} && Travels(WALK, WALK_QUERY, legs, s, t, target, end)
    ensures RideCount(legs) == 0
    decreases |legs|
  {
    if legs != [] {
      match legs[0]
      case RideLeg(trip, p, board, alight, day) =>
        WalkPlaces(p, trip, board);
        WalkPlaces(p, trip, alight);
        assert false;
      case FootLeg(from, to, sec) =>
        var x: nat :| XferAt(WALK, from, x, to);
        WalkPaths(from, x, to);
        NoRideFrom(legs[1..], to, t + sec, target, end);
    }
  }

  /** Stop 1 is seeded before the ride could bring anyone there. */
  lemma SeedFirst()
    ensures !NoLaterThanSeeds(WALK_QUERY, 1, 20)
  {
    assert WALK_QUERY.sources[1] == Seed(1, 5, false, 0);
  }

  lemma NoRideReported(legs: seq<RLeg>, s: nat, t: int, target: nat, end: int)
    requires s in {0, 1} && Travels(WALK, WALK_QUERY, legs, s, t, target, end)
    ensures RideCount(legs) == 0
  {
    SeedFirst();
    if s == 1 {
      NoRideFrom(legs, s, t, target, end);
    } else if legs != [] {
      match legs[0]
      case RideLeg(trip, p, board, alight, day) =>
        WalkPlaces(p, trip, board);
        WalkPlaces(p, trip, alight);
        assert false;
      case FootLeg(from, to, sec) =>
        var x: nat :| XferAt(WALK, from, x, to);
        WalkPaths(from, x, to);
        assert false;
    }
  }

  /** The ride to stop 1 and the footpath after it arrive at 30 s, yet no journey of the search's kind exists: stop 1 is
      seeded earlier than the ride reaches it, and footpaths of seeded stops are left to the street search. */
  lemma SeededStopHidesFootpath()
    ensures WALK.Valid() && WALK_QUERY.Valid(WALK) && FirstVisitServed(WALK) && Ideal(WALK, WALK_QUERY)
    ensures RideAt(WALK, WALK_QUERY, 0, 0, 0, 1, 0) && Dep(WALK, 0, 0, 0, 0) == 10 && Arr(WALK, 0, 0, 1, 0) == 20
    ensures XferAt(WALK, 1, 0, 2) && XferSec(WALK.xferDs[0]) == 10
    ensures !WalkCounts(WALK, WALK_QUERY, 1, 20, 0)
    ensures forall j :: !RealJourney(WALK, WALK_QUERY, j)
  {
    WalkIsValid();
    WalkIsIdeal();
    assert WALK.PatLen(0) == 2;
    assert WALK_QUERY.sources[1].stop == 1 && !SeededBy(WALK_QUERY, 2, 30);
    forall j ensures !RealJourney(WALK, WALK_QUERY, j) { NoJourney(j); }
  }

  lemma NoJourney(j: Journey)
    ensures !RealJourney(WALK, WALK_QUERY, j)
  {
    if RealJourney(WALK, WALK_QUERY, j) {
      var i: nat, end: nat, extra: nat :| RunsFrom(WALK, WALK_QUERY, j, i, end, extra);
      NoRideReported(j.legs, WALK_QUERY.sources[i].stop, WALK_QUERY.sources[i].sec, j.target, end);
    }
  }

  // ---- any footpath that is not seeded ------------------------------------------------------------------------

  /** The stops and footpaths of tt, one stop more, and one trip that goes from stop s to the new stop and back to s,
      with all times at second t. */
  function Shuttle(tt: Timetable, s: nat, t: nat): Timetable {
    Timetable(tt.numStops + 1, [0, 3], [s, tt.numStops, s], [0, 1], [-1], [0], [0], [t, t, t], [t, t, t],
      seq(tt.numStops + 2, k => if k <= s then 0 else if k <= tt.numStops then 2 else 3), [0, 0, 0], [0, 2, 1],
      tt.xferFirst + [if tt.xferFirst == [] then 0 else tt.xferFirst[|tt.xferFirst| - 1]], tt.xferTo, tt.xferDs,
      [], None)
  }

  /** The same seeds, to stop `to`, without buffers. */
  function To(q: Query, to: nat): Query {
    q.(targets := [Seed(to, 0, false, 0)], prevActive := {}, active := {0}, slackSec := 0, railEntrySec := 0,
      railTransferSec := 0)
  }

  /** Some footpath out of seed i is not seeded; without incoming rail rides and with at least one ride allowed. */
  ghost predicate Gap(tt: Timetable, q: Query, i: nat, x: nat, to: nat) {
    && tt.Valid() && Triangle(tt) && q.Valid(tt) && q.maxTransfers >= 0
    && (forall k :: 0 <= k < |q.sources| ==> !q.sources[k].priorRail)
    && i < |q.sources| && XferAt(tt, q.sources[i].stop, x, to) && !FootpathSeeded(tt, q, i, x, to)
  }

  lemma ShuttleOffsets(tt: Timetable, s: nat, t: nat, u: nat, i: nat)
    requires tt.Valid() && s < tt.numStops && u <= tt.numStops
    ensures Shuttle(tt, s, t).PatIn(u, i) <==> (u == s && i < 2) || (u == tt.numStops && i == 2)
  {
  }

  lemma ShuttlePlaces(tt: Timetable, s: nat, t: nat, p: nat, trip: nat, pos: nat)
    requires At(Shuttle(tt, s, t), p, trip, pos)
    ensures var sh := Shuttle(tt, s, t);
      && p == 0 && trip == 0 && pos < 3 && sh.TripDep(trip, pos) == sh.TripArr(trip, pos) == t
      && sh.Stop(p, pos) == if pos == 1 then tt.numStops else s
  {
    assert Shuttle(tt, s, t).PatLen(0) == 3;
  }

  /** The footpaths are those of tt, and none leaves the new stop. */
  lemma ShuttlePaths(tt: Timetable, s: nat, t: nat, a: nat, x: nat, b: nat)
    requires tt.Valid()
    ensures XferAt(Shuttle(tt, s, t), a, x, b) <==> XferAt(tt, a, x, b)
  {
    assert tt.XferOk(a, x);
  }

  lemma ShuttleIsValid(tt: Timetable, s: nat, t: nat)
    requires tt.Valid() && s < tt.numStops
    ensures Shuttle(tt, s, t).Valid() && FirstVisitServed(Shuttle(tt, s, t))
  {
    var sh := Shuttle(tt, s, t);
    assert sh.PatLen(0) == 3 && sh.Stop(0, 0) == sh.Stop(0, 2) == s && sh.Stop(0, 1) == tt.numStops;
    forall p: nat, pos: nat ensures sh.PositionOk(p, pos) {
      if pos < sh.PatLen(p) {
        var i: nat := if pos == 0 then 0 else if pos == 2 then 1 else 2;
        ShuttleOffsets(tt, s, t, sh.Stop(p, pos), i);
        assert sh.Entry(sh.Stop(p, pos), i, p, pos);
      }
    }
    assert tt.StopOk(tt.numStops - 1);
    forall u: nat ensures sh.StopOk(u) { assert tt.StopOk(u); }
    forall u: nat, x: nat ensures sh.XferOk(u, x) { assert tt.XferOk(u, x); }
    forall u: nat, i: nat ensures sh.EntryOk(u, i) {
      if sh.PatIn(u, i) { ShuttleOffsets(tt, s, t, u, i); }
    }
    forall p, k, b: nat, i: nat, j | b < i < j && At(sh, p, k, b) && At(sh, p, k, i) && At(sh, p, k, j)
      ensures sh.Stop(p, i) != sh.Stop(p, j)
    {
      ShuttlePlaces(tt, s, t, p, k, i);
      ShuttlePlaces(tt, s, t, p, k, j);
    }
  }

  lemma ShuttleIsIdeal(tt: Timetable, q: Query, i: nat, x: nat, to: nat)
    requires Gap(tt, q, i, x, to)
    ensures Ideal(Shuttle(tt, q.sources[i].stop, q.sources[i].sec), To(q, to))
    ensures To(q, to).Valid(Shuttle(tt, q.sources[i].stop, q.sources[i].sec))
  {
    var s, t := q.sources[i].stop, q.sources[i].sec;
    var sh, q' := Shuttle(tt, s, t), To(q, to);
    forall p: nat, k: nat, b: nat, j: nat, day: int | RideAt(sh, q', p, k, b, j, day)
      ensures sh.TripDep(k, b) <= sh.TripArr(k, j) {
      ShuttlePlaces(tt, s, t, p, k, b);
      ShuttlePlaces(tt, s, t, p, k, j);
    }
    forall p: nat, k: nat, k': nat, pos: nat | k <= k' && At(sh, p, k, pos) && At(sh, p, k', pos)
      ensures sh.TripDep(k, pos) <= sh.TripDep(k', pos) && sh.TripArr(k, pos) <= sh.TripArr(k', pos) && k == k'
    {
      ShuttlePlaces(tt, s, t, p, k, pos);
      ShuttlePlaces(tt, s, t, p, k', pos);
    }
    forall a: nat, x: nat, b: nat, y: nat, c: nat | XferAt(sh, a, x, b) && XferAt(sh, b, y, c) && a != c
      ensures Shortcut(sh, a, c, XferSec(sh.xferDs[x]) + XferSec(sh.xferDs[y]))
    {
      ShuttlePaths(tt, s, t, a, x, b);
      ShuttlePaths(tt, s, t, b, y, c);
      assert Shortcut(tt, a, c, XferSec(tt.xferDs[x]) + XferSec(tt.xferDs[y]));
      var z: nat :| tt.XferIn(a, z) && tt.xferTo[z] == c &&
        XferSec(tt.xferDs[z]) <= XferSec(tt.xferDs[x]) + XferSec(tt.xferDs[y]);
      ShuttlePaths(tt, s, t, a, z, c);
      assert sh.XferIn(a, z);
    }
  }

  /** From the new stop nobody gets anywhere: the ride back is no earlier than the seed it leads to. */
  lemma NoWayBack(tt: Timetable, q: Query, i: nat, to: nat, legs: seq<RLeg>, t: int, target: nat, end: int)
    requires tt.Valid() && i < |q.sources| && q.sources[i].sec < INF
    requires Travels(Shuttle(tt, q.sources[i].stop, q.sources[i].sec), To(q, to), legs, tt.numStops, t, target, end)
    ensures target == tt.numStops
  {
    if legs != [] {
      match legs[0]
      case RideLeg(trip, p, board, alight, day) =>
        ShuttlePlaces(tt, q.sources[i].stop, q.sources[i].sec, p, trip, board);
        ShuttlePlaces(tt, q.sources[i].stop, q.sources[i].sec, p, trip, alight);
        assert false;
      case FootLeg(_, _, _) => assert false;
    }
  }

  /** A ride that gets nobody anywhere earlier than its seed is never labelled. */
  lemma {:induction false} NoShuttleRide(tt: Timetable, q: Query, i: nat, to: nat, legs: seq<RLeg>, s: nat, t: int,
      target: nat, end: int)
    requires tt.Valid() && i < |q.sources| && q.sources[i].sec < INF && target != tt.numStops
    requires Travels(Shuttle(tt, q.sources[i].stop, q.sources[i].sec), To(q, to), legs, s, t, target, end)
    ensures RideCount(legs) == 0
    decreases |legs|
  {
    if legs != [] {
      match legs[0]
      case RideLeg(trip, p, board, alight, day) =>
        ShuttlePlaces(tt, q.sources[i].stop, q.sources[i].sec, p, trip, alight);
        if alight == 1 {
          var at := Arr(Shuttle(tt, q.sources[i].stop, q.sources[i].sec), p, trip, alight, day);
          NoWayBack(tt, q, i, to, legs[1..], at, target, end);
        }
        assert false;
      case FootLeg(from, next, sec) =>
        NoShuttleRide(tt, q, i, to, legs[1..], next, t + sec, target, end);
    }
  }

  lemma NoShuttleJourney(tt: Timetable, q: Query, i: nat, to: nat, j: Journey)
    requires tt.Valid() && i < |q.sources| && q.sources[i].sec < INF && to < tt.numStops
    ensures !RealJourney(Shuttle(tt, q.sources[i].stop, q.sources[i].sec), To(q, to), j)
  {
    var sh, q' := Shuttle(tt, q.sources[i].stop, q.sources[i].sec), To(q, to);
    if RealJourney(sh, q', j) {
      var k: nat, end: nat, extra: nat :| RunsFrom(sh, q', j, k, end, extra);
      NoShuttleRide(tt, q, i, to, j.legs, q'.sources[k].stop, q'.sources[k].sec, j.target, end);
    }
  }

  /** The ride and the footpath behind it. */
  lemma ShuttleWalk(tt: Timetable, q: Query, i: nat, x: nat, to: nat)
    requires Gap(tt, q, i, x, to)
    ensures var sh, q' := Shuttle(tt, q.sources[i].stop, q.sources[i].sec), To(q, to);
      var hops := [Hop(0, 0, 0, 2, 0, Some(x))];
      && Chain(sh, q', i, hops) && EndStop(sh, q', i, hops) == to
      && EndTime(sh, q', i, hops) == q.sources[i].sec + XferSec(tt.xferDs[x]) < INF
  {
    var sh, q' := Shuttle(tt, q.sources[i].stop, q.sources[i].sec), To(q, to);
    var hops := [Hop(0, 0, 0, 2, 0, Some(x))];
    assert sh.PatLen(0) == 3 && sh.Stop(0, 0) == sh.Stop(0, 2) == q.sources[i].stop;
    assert RideAt(sh, q', 0, 0, 0, 2, 0) && Dep(sh, 0, 0, 0, 0) == Arr(sh, 0, 0, 2, 0) == q.sources[i].sec;
    ShuttlePaths(tt, q.sources[i].stop, q.sources[i].sec, q.sources[i].stop, x, to);
    assert XferAt(sh, q.sources[i].stop, x, to);
    assert hops[..0] == [] && Chain(sh, q', i, []) && EndTime(sh, q', i, []) == q.sources[i].sec;
    assert HopOk(sh, q', hops[0]);
  }

  /** Whatever the seeds and footpaths, if one footpath out of a seed is not seeded then there is an ideal timetable
      with those footpaths on which some chain from those seeds beats everything the search may return. */
  lemma GapLoses(tt: Timetable, q: Query, i: nat, x: nat, to: nat, out: seq<Journey>)
    requires Gap(tt, q, i, x, to)
    requires forall k :: 0 <= k < |out| ==> RealJourney(Shuttle(tt, q.sources[i].stop, q.sources[i].sec), To(q, to),
      out[k])
    ensures out == [] && !NothingAtAllBeats(Shuttle(tt, q.sources[i].stop, q.sources[i].sec), To(q, to), out)
  {
    var sh, q' := Shuttle(tt, q.sources[i].stop, q.sources[i].sec), To(q, to);
    if out != [] {
      NoShuttleJourney(tt, q, i, to, out[0]);
    }
    ShuttleWalk(tt, q, i, x, to);
    var hops := [Hop(0, 0, 0, 2, 0, Some(x))];
    var t := EndTime(sh, q', i, hops);
    assert q'.targets[0] == Seed(to, 0, false, 0);
    assert EgressOf(q', to, 0);
    if NoRideNeeded(q', t) { NoRideMeansSeeded(q, to, t); }
    assert !HasJourney(out, 1, t);
    assert EgressOf(q', EndStop(sh, q', i, hops), 0);
  }

  lemma NoRideMeansSeeded(q: Query, to: nat, t: int)
    requires NoRideNeeded(To(q, to), t)
    ensures SeededBy(q, to, t)
  {
    var q' := To(q, to);
    var k, extra :| 0 <= k < |q'.sources| && EgressOf(q', q'.sources[k].stop, extra) && q'.sources[k].sec + extra <= t;
    assert q.sources[k].stop == to && q.sources[k].sec <= t;
  }

  /** So it goes when the search is run. */
  method RunIntoGap(tt: Timetable, q: Query, ghost i: nat, seed: Seed, ghost x: nat, to: nat)
      returns (out: seq<Journey>)
    requires Gap(tt, q, i, x, to) && seed == q.sources[i]
    ensures var sh, q' := Shuttle(tt, seed.stop, seed.sec), To(q, to);
      Ideal(sh, q') && out == [] && !NothingAtAllBeats(sh, q', out)
  {
    ShuttleIsValid(tt, seed.stop, seed.sec);
    ShuttleIsIdeal(tt, q, i, x, to);
    var r := new Raptor(Shuttle(tt, seed.stop, seed.sec));
    out := r.Plan(To(q, to));
    GapLoses(tt, q, i, x, to, out);
  }

  // ---- looping patterns -------------------------------------------------------------------------------------------

  /** One trip visiting stops 0, 1, 2, 1, skipping its first call at stop 1. */
  const LOOP: Timetable := Timetable(3, [0, 4], [0, 1, 2, 1], [0, 1], [-1], [0], [0], [0, 10, 20, 30], [0, 10, 20, 30],
    [0, 1, 3, 4], [0, 0, 0, 0], [0, 1, 3, 2], [0, 0, 0, 0], [], [], [],
    Some(Overlay([0], [false], [0, 0, 0, 0], [0, 0, 0, 0], [false, true, false, false])))

  /** A reported ride is its true ride exactly when, alighting at the first later visit of its stop, it is a ride that
      arrives in time. */
  lemma RideIsReal(tt: Timetable, q: Query, leg: RLeg, trip: nat, p: nat, board: nat, j: nat, day: int)
    requires Reported(tt, leg, RideLeg(trip, p, board, j, day)) && RideAt(tt, q, p, trip, board, j, day)
    ensures leg == RideLeg(trip, p, board, j, day) <==>
      RideAt(tt, q, p, trip, board, leg.alight, day) &&
        0 <= Arr(tt, p, trip, leg.alight, day) <= Arr(tt, p, trip, j, day)
  {
  }

  /** Every ride alights where the first later visit of its stop is served in time. */
  ghost predicate FirstVisits(tt: Timetable, legs: seq<RLeg>, truth: seq<RLeg>)
    requires AllReported(tt, legs, truth)
  {
    forall k :: 0 <= k < |legs| && truth[k].RideLeg? ==>
      ServedBy(tt, truth[k].pattern, truth[k].trip, legs[k].alight, truth[k].day,
        Arr(tt, truth[k].pattern, truth[k].trip, truth[k].alight, truth[k].day))
  }

  /** A journey is reported with its true legs, and so is real, exactly when they all do. */
  lemma JourneyIsTrue(tt: Timetable, q: Query, j: Journey, truth: seq<RLeg>)
    requires RealJourney(tt, q, j.(legs := truth)) && AllReported(tt, j.legs, truth)
    ensures j.legs == truth <==> FirstVisits(tt, j.legs, truth)
    ensures FirstVisits(tt, j.legs, truth) ==> RealJourney(tt, q, j)
  {
    forall k | 0 <= k < |truth| ensures Reported(tt, j.legs[k], truth[k]) {}
    if FirstVisits(tt, j.legs, truth) {
      forall k | 0 <= k < |truth| ensures j.legs[k] == truth[k] {}
      assert j.(legs := truth) == j;
    }
  }

  /** From stop 0 to stop 1. */
  const LOOP_QUERY: Query := Query([Seed(0, 0, false, 0)], [Seed(1, 0, false, 0)], {}, {0}, 3, 0, 0, 0)

  lemma LoopPlaces(p: nat, t: nat, pos: nat)
    requires At(LOOP, p, t, pos)
    ensures p == 0 && t == 0 && pos < 4 && LOOP.TripDep(t, pos) == LOOP.TripArr(t, pos) == 10 * pos
    ensures LOOP.Stop(p, pos) == [0, 1, 2, 1][pos] && (LOOP.StopSkipped(t, pos) <==> pos == 1)
  {
    assert LOOP.PatLen(0) == 4;
  }

  lemma LoopIsValid()
    ensures LOOP.Valid() && LOOP_QUERY.Valid(LOOP)
  {
    assert LOOP.PatLen(0) == 4;
    forall p: nat, pos: nat ensures LOOP.PositionOk(p, pos) {
      if pos < LOOP.PatLen(p) {
        var i := if pos == 2 then 3 else if pos == 3 then 2 else pos;
        assert LOOP.Entry(LOOP.Stop(p, pos), i, p, pos);
      }
    }
  }

  lemma LoopIsIdeal()
    ensures LOOP.Valid() && LOOP_QUERY.Valid(LOOP) && Ideal(LOOP, LOOP_QUERY) && !FirstVisitServed(LOOP)
  {
    LoopIsValid();
    assert LOOP.PatLen(0) == 4;
    forall p: nat, t: nat, i: nat, j: nat, day: int | RideAt(LOOP, LOOP_QUERY, p, t, i, j, day)
      ensures LOOP.TripDep(t, i) <= LOOP.TripArr(t, j)
    {
      LoopPlaces(p, t, i);
      LoopPlaces(p, t, j);
    }
    forall p: nat, t: nat, t': nat, pos: nat | At(LOOP, p, t, pos) && At(LOOP, p, t', pos) ensures t == t' {
      LoopPlaces(p, t, pos);
      LoopPlaces(p, t', pos);
    }
    assert At(LOOP, 0, 0, 0) && At(LOOP, 0, 0, 1) && At(LOOP, 0, 0, 3);
    assert LOOP.Stop(0, 1) == LOOP.Stop(0, 3) && LOOP.StopSkipped(0, 1);
  }

  /** A true ride on the loop. */
  lemma LoopRide(p: nat, t: nat, b: nat, j: nat, day: int)
    requires RideAt(LOOP, LOOP_QUERY, p, t, b, j, day)
    ensures p == 0 && t == 0 && day == 0 && (b, j) in {(0, 2), (0, 3), (2, 3)}
    ensures Dep(LOOP, p, t, b, day) == 10 * b && Arr(LOOP, p, t, j, day) == 10 * j
  {
    LoopPlaces(p, t, b);
    LoopPlaces(p, t, j);
  }

  lemma NoLoopPath(from: nat, to: nat)
    ensures forall x: nat :: !XferAt(LOOP, from, x, to)
  {
  }

  /** Nobody gets to stop 1 but at 30 s: on one ride, or changing at stop 2. */
  lemma {:induction false} LoopArrivals(legs: seq<RLeg>, s: nat, t: int, end: int)
    requires Travels(LOOP, LOOP_QUERY, legs, s, t, 1, end) && (s == 1 ==> t == 30)
    ensures end == 30 && (s == 1 ==> legs == []) && (s != 1 ==> RideCount(legs) >= 1)
    ensures s == 0 && RideCount(legs) == 1 ==> legs == [RideLeg(0, 0, 0, 3, 0)]
    decreases |legs|
  {
    if legs != [] {
      match legs[0]
      case RideLeg(trip, p, b, j, day) =>
        LoopRide(p, trip, b, j, day);
        LoopPlaces(p, trip, b);
        LoopPlaces(p, trip, j);
        LoopArrivals(legs[1..], LOOP.Stop(p, j), Arr(LOOP, p, trip, j, day), end);
        assert legs == [legs[0]] + legs[1..];
      case FootLeg(from, to, sec) =>
        NoLoopPath(from, to);
        assert false;
    }
  }

  /** What a journey reported on the loop is: it arrives at 30 s, and with one ride it alights where it cannot. */
  lemma LoopJourney(j: Journey)
    requires ReportedJourney(LOOP, LOOP_QUERY, j)
    ensures j.arrSec == 30 && (j.rides == 1 ==> j == Journey(1, 30, [RideLeg(0, 0, 0, 1, 0)], 1))
  {
    var truth :| RealJourney(LOOP, LOOP_QUERY, j.(legs := truth)) && AllReported(LOOP, j.legs, truth);
    var i: nat, end: nat, extra: nat :| RunsFrom(LOOP, LOOP_QUERY, j.(legs := truth), i, end, extra);
    assert LOOP_QUERY.targets[0].stop == 1;
    LoopArrivals(truth, 0, 0, end);
    if j.rides == 1 { LoopLegs(j.legs, truth); }
  }

  lemma LoopLegs(legs: seq<RLeg>, truth: seq<RLeg>)
    requires AllReported(LOOP, legs, truth) && truth == [RideLeg(0, 0, 0, 3, 0)]
    ensures legs == [RideLeg(0, 0, 0, 1, 0)]
  {
    assert Reported(LOOP, legs[0], truth[0]);
    assert LOOP.PatLen(0) == 4 && LOOP.Stop(0, 1) == 1 && LOOP.Stop(0, 3) == 1;
  }

  /** The ride to the second visit of stop 1 is feasible. */
  lemma LoopFeasible()
    ensures LOOP.Valid() && Feasible(LOOP, LOOP_QUERY, 0, [Hop(0, 0, 0, 3, 0, Option.None)])
    ensures EndStop(LOOP, LOOP_QUERY, 0, [Hop(0, 0, 0, 3, 0, Option.None)]) == 1
    ensures EndTime(LOOP, LOOP_QUERY, 0, [Hop(0, 0, 0, 3, 0, Option.None)]) == 30
  {
    LoopIsIdeal();
    var hops := [Hop(0, 0, 0, 3, 0, Option.None)];
    assert LOOP.PatLen(0) == 4 && At(LOOP, 0, 0, 0) && At(LOOP, 0, 0, 3);
    LoopPlaces(0, 0, 0);
    LoopPlaces(0, 0, 3);
    assert HopOk(LOOP, LOOP_QUERY, hops[0]);
    assert hops[..0] == [] && Feasible(LOOP, LOOP_QUERY, 0, []);
  }

  /** Run on the loop, the search finds the ride to the served second visit and reports it as one to
      the skipped first. */
  method RunOnLoop() returns (out: seq<Journey>)
    ensures out == [Journey(1, 30, [RideLeg(0, 0, 0, 1, 0)], 1)]
    ensures RideAt(LOOP, LOOP_QUERY, 0, 0, 0, 3, 0) && !RideAt(LOOP, LOOP_QUERY, 0, 0, 0, 1, 0)
  {
    LoopIsIdeal();
    var r := new Raptor(LOOP);
    out := r.Plan(LOOP_QUERY);
    LoopFinds(out);
    LoopReports(out);
    LoopRides();
  }

  lemma LoopRides()
    ensures RideAt(LOOP, LOOP_QUERY, 0, 0, 0, 3, 0) && !RideAt(LOOP, LOOP_QUERY, 0, 0, 0, 1, 0)
  {
    assert LOOP.PatLen(0) == 4 && At(LOOP, 0, 0, 0) && At(LOOP, 0, 0, 1) && At(LOOP, 0, 0, 3);
    LoopPlaces(0, 0, 0);
    LoopPlaces(0, 0, 1);
    LoopPlaces(0, 0, 3);
  }

  /** Nothing beats what is found, so it is found. */
  lemma LoopFinds(out: seq<Journey>)
    requires NothingBeats(LOOP, LOOP_QUERY, out)
    ensures HasJourney(out, 1, 30)
  {
    LoopFeasible();
    LoopTarget();
    var hops := [Hop(0, 0, 0, 3, 0, Option.None)];
    assert EgressOf(LOOP_QUERY, EndStop(LOOP, LOOP_QUERY, 0, hops), 0);
  }

  lemma LoopTarget()
    ensures EgressOf(LOOP_QUERY, 1, 0) && !NoRideNeeded(LOOP_QUERY, 30)
  {
    assert LOOP_QUERY.targets[0] == Seed(1, 0, false, 0);
  }

  lemma LoopReports(out: seq<Journey>)
    requires JourneysReported(LOOP, LOOP_QUERY, out) && HasJourney(out, 1, 30)
    requires forall i, j :: 0 <= i < j < |out| ==> out[i].arrSec > out[j].arrSec
    ensures out == [Journey(1, 30, [RideLeg(0, 0, 0, 1, 0)], 1)]
  {
    if |out| >= 2 {
      assert out[0].arrSec > out[1].arrSec && ReportedJourney(LOOP, LOOP_QUERY, out[1]);
      LoopJourney(out[0]);
      LoopJourney(out[1]);
      assert false;
    }
    forall i | 0 <= i < |out|
      ensures out[i].arrSec == 30 && (out[i].rides == 1 ==> out[i] == Journey(1, 30, [RideLeg(0, 0, 0, 1, 0)], 1))
      ensures out[i].rides >= 1
    {
      assert ReportedJourney(LOOP, LOOP_QUERY, out[i]);
      LoopJourney(out[i]);
    }
  }
}
