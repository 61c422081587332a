/** Queries, per-round parent labels and journeys of the RAPTOR search, and what a true label says. */
module RaptorLabels {
  import opened Words
  import opened Transit

  const INF: nat := TWO_31 - 1
  const YESTERDAY: int := -86400

  datatype Seed = Seed(stop: nat, sec: nat, priorRail: bool, priorRailArr: nat)

  /** One earliest-arrival query; the two service-day calendars are already resolved to service sets. */
  datatype Query = Query(
    sources: seq<Seed>,
    targets: seq<Seed>,
    prevActive: set<nat>,
    active: set<nat>,
    maxTransfers: int,
    slackSec: nat,
    railEntrySec: nat,
    railTransferSec: nat)
  {
    ghost predicate Valid(tt: Timetable) {
      && maxTransfers >= -1
      && slackSec < TWO_32 && railEntrySec < TWO_32 && railTransferSec < TWO_32
      && (forall i :: 0 <= i < |sources| ==>
            sources[i].stop < tt.numStops && sources[i].sec < TWO_32 && sources[i].priorRailArr < TWO_32)
      && (forall i :: 0 <= i < |targets| ==> targets[i].stop < tt.numStops && targets[i].sec < TWO_32)
    }

    predicate ActiveOn(day: int, service: nat) {
      (day == 0 && service in active) || (day == YESTERDAY && service in prevActive)
    }
  }

  datatype Kind = Unset | Access | Ride | Xfer

  /** The six parallel per-round arrays (tau, kind, ptrip, pboard, pfrom, pday) at one stop. */
  datatype Label = Label(tau: nat, kind: Kind, trip: nat, board: nat, from: nat, day: int)

  type Row = seq<Label>

  datatype RLeg =
    | RideLeg(trip: nat, pattern: nat, board: nat, alight: nat, day: int)
    | FootLeg(from: nat, to: nat, sec: nat)

  datatype Journey = Journey(rides: nat, arrSec: nat, legs: seq<RLeg>, target: nat)

  // ---- rides of the timetable -------------------------------------------------

  ghost predicate At(tt: Timetable, p: nat, t: nat, pos: nat) {
    tt.TripIn(p, t) && pos < tt.PatLen(p) && tt.Stop(p, pos) < tt.numStops && tt.HasTime(t, pos)
  }

  /** Departure and arrival in seconds from the query date's midnight. */
  ghost function Dep(tt: Timetable, p: nat, t: nat, pos: nat, day: int): int
    requires At(tt, p, t, pos)
  {
    tt.TripDep(t, pos) + day
  }

  ghost function Arr(tt: Timetable, p: nat, t: nat, pos: nat, day: int): int
    requires At(tt, p, t, pos)
  {
    tt.TripArr(t, pos) + day
  }

  predicate Usable(tt: Timetable, q: Query, day: int, t: nat)
    requires t < tt.NumTrips()
  {
    q.ActiveOn(day, tt.tripService[t]) && !tt.TripSkipped(t)
  }

  /** Trip t of pattern p runs on that service day and can be ridden from position i to position j. */
  ghost predicate RideAt(tt: Timetable, q: Query, p: nat, t: nat, i: nat, j: nat, day: int)
  {
    && i < j && At(tt, p, t, i) && At(tt, p, t, j)
    && Usable(tt, q, day, t)
    && !tt.StopSkipped(t, i) && !tt.StopSkipped(t, j)
  }

  ghost predicate XferAt(tt: Timetable, from: nat, x: nat, to: nat) {
    tt.XferIn(from, x) && tt.xferTo[x] == to && from < tt.numStops && to < tt.numStops
  }

  /** When a trip visits a stop twice, the first visit is served and times do not run backwards up to it. */
  ghost predicate FirstVisitServed(tt: Timetable)
  {
    forall p, t, b: nat, i: nat, j | b < i < j && At(tt, p, t, b) && At(tt, p, t, i) && At(tt, p, t, j) ::
      tt.Stop(p, i) == tt.Stop(p, j) ==>
        !tt.StopSkipped(t, i) && tt.TripDep(t, b) <= tt.TripArr(t, i) <= tt.TripArr(t, j)
  }

  /** Trip t calls at position i by `end`, today, and serves it. */
  ghost predicate ServedBy(tt: Timetable, p: nat, t: nat, i: nat, day: int, end: int) {
    At(tt, p, t, i) && !tt.StopSkipped(t, i) && 0 <= Arr(tt, p, t, i, day) <= end
  }

  /** Where a label's alighting stop is looked up: its first visit after boarding. */
  ghost predicate LookedUp(tt: Timetable, p: nat, s: nat, board: nat, pos: nat) {
    board < pos < tt.PatLen(p) && tt.Stop(p, pos) == s && forall j :: board < j < pos ==> tt.Stop(p, j) != s
  }

  // ---- true labels --------------------------------------------------------------

  /** l says: at s, off position j of pattern p, on a trip caught at a stop reached in the previous round; no earlier
      visit of s on that ride is served by then. */
  ghost predicate RideLabel(tt: Timetable, q: Query, prev: Row, l: Label, s: nat, p: nat, j: nat)
  {
    && RideAt(tt, q, p, l.trip, l.board, j, l.day)
    && tt.Stop(p, j) == s && tt.Stop(p, l.board) == l.from
    && l.tau == Arr(tt, p, l.trip, j, l.day)
    && |prev| == tt.numStops && l.from < |prev|
    && prev[l.from].tau < INF
    && prev[l.from].tau <= Dep(tt, p, l.trip, l.board, l.day)
    && forall i :: l.board < i < j && i < tt.PatLen(p) && tt.Stop(p, i) == s ==>
      !ServedBy(tt, p, l.trip, i, l.day, l.tau)
  }

  ghost predicate XferLabel(tt: Timetable, row0: Row, row: Row, s: nat, x: nat)
    requires |row| == |row0| == tt.numStops && s < |row|
  {
    var f := row[s].from;
    && XferAt(tt, f, x, s)
    && row[f].kind != Unset
    && row[f].tau + XferSec(tt.xferDs[x]) <= row[s].tau
    && (row[f].kind == Xfer ==> row[f].tau < row[s].tau)
    && (row[s].tau < row0[s].tau ==> row[f].tau < row0[f].tau)
  }

  ghost predicate LabelOk(tt: Timetable, q: Query, row0: Row, prev: Row, row: Row, s: nat)
    requires |row| == |row0| == tt.numStops && s < |row|
  {
    match row[s].kind
    case Unset => row[s].tau == INF
    case Access =>
      && row[s].tau < INF && row[s].tau == row0[s].tau
      && exists i :: 0 <= i < |q.sources| && q.sources[i].stop == s && q.sources[i].sec == row[s].tau
    case Ride => row[s].tau < INF && row[s].tau < row0[s].tau && exists p, j :: RideLabel(tt, q, prev, row[s], s, p, j)
    case Xfer => row[s].tau < INF && exists x :: XferLabel(tt, row0, row, s, x)
  }

  /** Every label of `row` is true, given the labels of the round before and of round zero. */
  ghost predicate RowOk(tt: Timetable, q: Query, row0: Row, prev: Row, row: Row)
  {
    && |row| == |row0| == tt.numStops
    && forall s :: 0 <= s < tt.numStops ==> LabelOk(tt, q, row0, prev, row, s)
  }

  /** Labels are only ever replaced by strictly earlier ones. */
  ghost predicate Improves(before: Row, after: Row) {
    && |before| == |after|
    && forall s :: 0 <= s < |after| ==> after[s] == before[s] || after[s].tau < before[s].tau
  }

  /** No label is later than a seed of its own stop. */
  ghost predicate SeedsCover(q: Query, row: Row) {
    forall i :: 0 <= i < |q.sources| && q.sources[i].stop < |row| ==>
      row[q.sources[i].stop].tau <= q.sources[i].sec || INF <= q.sources[i].sec
  }

  lemma CopyRow(tt: Timetable, q: Query, row0: Row, prev: Row, row: Row)
    requires RowOk(tt, q, row0, prev, row)
    requires |prev| == tt.numStops ==> Improves(prev, row)
    ensures RowOk(tt, q, row0, row, row)
  {
    forall s | 0 <= s < tt.numStops
      ensures LabelOk(tt, q, row0, row, row, s)
    {
      assert LabelOk(tt, q, row0, prev, row, s);
      if row[s].kind == Ride {
        var p, j :| RideLabel(tt, q, prev, row[s], s, p, j);
        assert RideLabel(tt, q, row, row[s], s, p, j);
      }
    }
  }

  /** Writing a strictly earlier label at s keeps every other label true. */
  lemma OthersStayTrue(tt: Timetable, q: Query, row0: Row, prev: Row, row: Row, s: nat, l: Label, s': nat)
    requires RowOk(tt, q, row0, prev, row)
    requires s < tt.numStops && s' < tt.numStops && s' != s
    requires l.tau < row[s].tau && l.kind != Unset
    ensures LabelOk(tt, q, row0, prev, row[s := l], s')
  {
    var row' := row[s := l];
    assert LabelOk(tt, q, row0, prev, row, s');
    if row[s'].kind == Xfer {
      var x :| XferLabel(tt, row0, row, s', x);
      assert XferLabel(tt, row0, row', s', x);
    }
  }

  lemma WriteRide(tt: Timetable, q: Query, row0: Row, prev: Row, row: Row, s: nat, l: Label, p: nat, j: nat)
    requires RowOk(tt, q, row0, prev, row) && Improves(row0, row)
    requires s < tt.numStops && l.kind == Ride && l.tau < row[s].tau && l.tau < INF
    requires RideLabel(tt, q, prev, l, s, p, j)
    ensures RowOk(tt, q, row0, prev, row[s := l])
  {
    var row' := row[s := l];
    forall s' | 0 <= s' < tt.numStops
      ensures LabelOk(tt, q, row0, prev, row', s')
    {
      if s' != s {
        OthersStayTrue(tt, q, row0, prev, row, s, l, s');
      } else {
        assert RideLabel(tt, q, prev, row'[s], s, p, j);
      }
    }
  }

  /** A footpath label written from a stop that is itself a ride, or a seed in round zero. */
  lemma WriteXfer(tt: Timetable, q: Query, row0: Row, prev: Row, row: Row, s: nat, l: Label, x: nat)
    requires RowOk(tt, q, row0, prev, row) && Improves(row0, row)
    requires s < tt.numStops && l.kind == Xfer && l.tau < row[s].tau && l.tau < INF
    requires XferAt(tt, l.from, x, s) && row[l.from].kind == Ride
    requires row[l.from].tau + XferSec(tt.xferDs[x]) == l.tau
    ensures RowOk(tt, q, row0, prev, row[s := l])
  {
    var row' := row[s := l];
    assert LabelOk(tt, q, row0, prev, row, l.from);
    forall s' | 0 <= s' < tt.numStops
      ensures LabelOk(tt, q, row0, prev, row', s')
    {
      if s' != s {
        OthersStayTrue(tt, q, row0, prev, row, s, l, s');
      } else {
        assert XferLabel(tt, row0, row', s, x);
      }
    }
  }

  // ---- journeys -------------------------------------------------------------------

  function RideCount(legs: seq<RLeg>): nat {
    if legs == [] then 0 else (if legs[0].RideLeg? then 1 else 0) + RideCount(legs[1..])
  }

  /** Being at s at time t is no later than any seed of s. */
  ghost predicate NoLaterThanSeeds(q: Query, s: nat, t: int) {
    forall i :: 0 <= i < |q.sources| && q.sources[i].stop == s ==> t <= q.sources[i].sec || INF <= q.sources[i].sec
  }

  /** Getting to s at t beats every seed of s; only then is a ride's arrival labelled. */
  ghost predicate EarlierThanSeeds(q: Query, s: nat, t: int) {
    forall i :: 0 <= i < |q.sources| && q.sources[i].stop == s ==> t < q.sources[i].sec || INF <= q.sources[i].sec
  }

  /** A rider at s at time t who follows the legs is at `target` at time `end`. */
  ghost predicate Travels(tt: Timetable, q: Query, legs: seq<RLeg>, s: nat, t: int, target: nat, end: int)
    decreases |legs|
  {
    && NoLaterThanSeeds(q, s, t)
    && if legs == [] then
         s == target && t == end
       else
         match legs[0]
         case RideLeg(trip, p, board, alight, day) =>
           && RideAt(tt, q, p, trip, board, alight, day)
           && tt.Stop(p, board) == s
           && t <= Dep(tt, p, trip, board, day)
           && EarlierThanSeeds(q, tt.Stop(p, alight), Arr(tt, p, trip, alight, day))
           && Travels(tt, q, legs[1..], tt.Stop(p, alight), Arr(tt, p, trip, alight, day), target, end)
         case FootLeg(from, to, sec) =>
           && from == s
           && (exists x: nat :: XferAt(tt, from, x, to) && XferSec(tt.xferDs[x]) <= sec)
           && Travels(tt, q, legs[1..], to, t + sec, target, end)
  }

  /** The egress cost charged at a target stop: the cheapest of its seeds. */
  ghost predicate EgressOf(q: Query, stop: nat, extra: nat) {
    && (exists i :: 0 <= i < |q.targets| && q.targets[i].stop == stop && q.targets[i].sec == extra)
    && forall i :: 0 <= i < |q.targets| && q.targets[i].stop == stop ==> extra <= q.targets[i].sec
  }

  /** The legs lead from a seed to the journey's target; `arrSec` adds the egress. */
  ghost predicate RealJourney(tt: Timetable, q: Query, j: Journey)
  {
    && (exists i, end, extra ::
          RunsFrom(tt, q, j, i, end, extra))
    && j.rides == RideCount(j.legs)
    && 1 <= j.rides <= q.maxTransfers + 1
  }

  /** How a true leg is reported: a footpath as it is, a ride with its alighting stop looked up again. The position
      found is the true one exactly when that visit is served in time. */
  ghost predicate Reported(tt: Timetable, leg: RLeg, truth: RLeg) {
    match truth
    case FootLeg(_, _, _) => leg == truth
    case RideLeg(trip, p, board, j, day) =>
      && leg.RideLeg? && leg == truth.(alight := leg.alight)
      && At(tt, p, trip, board) && At(tt, p, trip, j) && 0 <= Dep(tt, p, trip, board, day)
      && leg.alight <= j && LookedUp(tt, p, tt.Stop(p, j), board, leg.alight)
      && (leg.alight == j <==> ServedBy(tt, p, trip, leg.alight, day, Arr(tt, p, trip, j, day)))
  }

  ghost predicate AllReported(tt: Timetable, legs: seq<RLeg>, truth: seq<RLeg>) {
    |legs| == |truth| && forall k :: 0 <= k < |legs| ==> Reported(tt, legs[k], truth[k])
  }

  /** A real journey, with its alighting stops looked up again. */
  ghost predicate ReportedJourney(tt: Timetable, q: Query, j: Journey) {
    exists truth :: RealJourney(tt, q, j.(legs := truth)) && AllReported(tt, j.legs, truth)
  }

  /** Where every first visit is served in time, lookups find what they look for. */
  lemma LegsAreTrue(tt: Timetable, legs: seq<RLeg>, truth: seq<RLeg>)
    requires tt.Valid() && FirstVisitServed(tt) && AllReported(tt, legs, truth)
    ensures legs == truth
  {
    forall k | 0 <= k < |legs| ensures legs[k] == truth[k] {
      assert Reported(tt, legs[k], truth[k]);
      match truth[k]
      case FootLeg(_, _, _) =>
      case RideLeg(trip, p, board, j, day) =>
        if legs[k].alight < j { assert tt.TimesOk(p, trip, legs[k].alight) && At(tt, p, trip, legs[k].alight); }
    }
  }

  lemma ReportedIsReal(tt: Timetable, q: Query, j: Journey)
    requires tt.Valid() && FirstVisitServed(tt) && ReportedJourney(tt, q, j)
    ensures RealJourney(tt, q, j)
  {
    var truth :| RealJourney(tt, q, j.(legs := truth)) && AllReported(tt, j.legs, truth);
    LegsAreTrue(tt, j.legs, truth);
  }

  ghost predicate RunsFrom(tt: Timetable, q: Query, j: Journey, i: nat, end: nat, extra: nat)
  {
    && i < |q.sources|
    && Travels(tt, q, j.legs, q.sources[i].stop, q.sources[i].sec, j.target, end)
    && end < INF && EgressOf(q, j.target, extra)
    && j.arrSec == Add32(end, extra)
  }
}
