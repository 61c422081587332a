/** A tracking session's records: plans, what one evaluation sees, and the logs its promises are about. */
module SessionModel {
  import opened Words

  const COOLDOWN: int := 180
  const RETRY: int := 10
  const LAG: int := 90
  /** The zero time, in seconds of the Unix clock. */
  const ZERO_TIME: int := -62135596800

  /** A leg of an itinerary; trips and stops are named by numbers. */
  datatype Leg = Leg(transit: bool, trip: int, from: int, depart: int, arrive: int, duration: nat, boarded: bool,
    boardReadyAt: Option<int>)

  /** What the timetable, the overlay and the rider's position say during one evaluation, by leg of the current plan. */
  datatype World = World(
    located: bool,                  // a position fix not older than 45 s
    nearBoarding: bool,             // within 30 m of the next boarding stop
    railLike: nat -> bool,          // a rail-like ride
    resolves: nat -> bool,          // the ride is in the timetable
    noVehicle: nat -> bool,         // no fresh vehicle position
    dep: nat -> int,                // realtime departure and arrival
    arr: nat -> int,
    skipped: nat -> bool,           // the trip, or one of its two stops, is skipped
    passedBoard: nat -> bool,       // the feed says the boarding stop is passed
    passedAlight: nat -> bool,
    passedUnknown: nat -> bool,
    atEnd: nat -> bool,             // within 30 m of the leg's end
    shapeBoarded: nat -> bool,      // the shape detector reports boarded
    withVehicle: nat -> bool,       // moving along with a vehicle beyond the boarding stop
    alightSeen: nat -> bool,        // held at the alighting stop while the vehicle is there or beyond
    farFromAlight: nat -> bool,
    alongRide: nat -> bool,         // still inside the ride's corridor
    ridesVehicle: nat -> bool,      // measurably on the vehicle right now
    entryBuffer: int, transferBuffer: int)

  datatype Deviation = OnPlan | OffRoute | StayedOn | StayedOnPastAlight

  /** What the checks of one evaluation decide; any of them may be right or wrong. */
  datatype Checks = Checks(
    unavailable: bool,              // a shared vehicle is gone
    deviation: Deviation,
    tooSlow: bool, leftStop: bool,
    feasible: bool, missedConnection: bool, boardingInProgress: bool,
    probability: nat -> real,       // of catching the connection at a leg
    unconfirmed: bool,              // no realtime signal for the next boarding
    rerouteAllowed: bool, imminent: bool, worthIt: bool,
    replan: Option<seq<Leg>>, replanLive: bool, sameRides: bool, tooCostly: bool)

  datatype Reason = Shared | Deviated | Guarded | Infeasible | ConnectionRisk | UnconfirmedTrip | BetterArrival

  predicate Soft(r: Reason) { r.ConnectionRisk? || r.UnconfirmedTrip? || r.BetterArrival? }

  /** A plan switch as the client sees it, and the first evaluation of the new plan. */
  datatype Event = Event(at: int, reason: Reason, wasBoarded: bool, oldTrip: int, nowBoarded: bool, newTrip: int,
    first: nat)

  /** The first write of a readiness anchor: in which plan, for which leg, which time. */
  datatype Anchor = Anchor(plan: nat, leg: nat, at: int)

  /** A schedule-assumed boarding: in which evaluation, of which leg, when, the departure it was assumed on, and the
      leg's anchor if it had one. */
  datatype Boarding = Boarding(step: nat, leg: nat, now: int, dep: int, ready: Option<int>)

  /** An attempt to replace the plan: when, why, in which evaluation, and for which connection if for one. */
  datatype Attempt = Attempt(at: int, reason: Reason, step: nat, leg: Option<nat>)

  /** How far ahead of the current leg connections are judged: the first ride beyond is the last one. */
  const HORIZON: nat := 4

  /** Where the rider is: the current leg, on board of it or not, at its boarding stop or not. */
  datatype Place = Place(legs: seq<Leg>, at: nat, boarded: bool, reached: bool) {
    /** A ride the rider is not on yet is a connection, up to and including the first one past the horizon. */
    ghost predicate Ahead(j: nat) {
      at <= j < |legs| && legs[j].transit && !(j == at && boarded) && InReach(j)
    }

    /** No ride past the horizon comes before. */
    ghost predicate InReach(j: nat) {
      forall k :: at + HORIZON < k < j && k < |legs| ==> !legs[k].transit
    }
  }

  /** What one evaluation did: where it found the rider, where the rider was when the rest of the plan was checked, and
      before which leg connections were judged. */
  datatype Round = Round(found: Place, place: Place, to: nat) {
    ghost predicate Judges(leg: nat) { place.Ahead(leg) && leg < to }
  }

  /** One evaluation's inputs. */
  datatype Step = Step(w: World, c: Checks, now: Time)

  /** What happened so far. */
  datatype Log = Log(events: seq<Event>, tries: seq<Attempt>, anchors: seq<Anchor>, boardings: seq<Boarding>) {
    predicate Grows(to: Log) {
      events <= to.events && tries <= to.tries && anchors <= to.anchors && boardings <= to.boardings
    }
  }

  /** Everything fixed so far is still there, unchanged. */
  ghost predicate Kept(before: map<nat, int>, after: map<nat, int>) {
    forall k :: k in before ==> k in after && after[k] == before[k]
  }

  /** The same legs, walks at most at other times. */
  ghost predicate Retimed(before: seq<Leg>, after: seq<Leg>) {
    |before| == |after| && forall i :: 0 <= i < |after| ==>
      after[i] == if before[i].transit then before[i]
                  else before[i].(depart := after[i].depart, arrive := after[i].arrive)
  }

  lemma KeptTwice(a: map<nat, int>, b: map<nat, int>, c: map<nat, int>)
    requires Kept(a, b) && Kept(b, c)
    ensures Kept(a, c)
  {
  }

  lemma RetimedTwice(a: seq<Leg>, b: seq<Leg>, c: seq<Leg>)
    requires Retimed(a, b) && Retimed(b, c)
    ensures Retimed(a, c)
  {
  }

  /** A walk at i starts at that time and takes as long as planned; a ride is left alone. */
  function WalkFrom(legs: seq<Leg>, i: nat, at: int): (r: seq<Leg>)
    ensures Retimed(legs, r)
    ensures i < |legs| && !legs[i].transit ==> r[i].depart == at && r[i].arrive - r[i].depart == legs[i].duration
  {
    if i < |legs| && !legs[i].transit then legs[i := legs[i].(depart := at, arrive := at + legs[i].duration)] else legs
  }

  /** The anchors a plan brings along, up to leg n. */
  ghost predicate Brought(legs: seq<Leg>, n: nat, ready: map<nat, int>) {
    && (forall k :: k in ready ==> k < n && k < |legs| && legs[k].boardReadyAt == Some(ready[k]))
    && forall k :: 0 <= k < n && k < |legs| && legs[k].boardReadyAt.Some? ==> k in ready
  }

  lemma BroughtNext(legs: seq<Leg>, n: nat, ready: map<nat, int>)
    requires Brought(legs, n, ready) && n < |legs| && n !in ready
    ensures var at := legs[n].boardReadyAt; Brought(legs, n + 1, if at.Some? then ready[n := at.value] else ready)
  {
  }

  // ---- what the logs promise ------------------------------------------------------------------------------------

  /** Events in time order; a soft one at least three minutes after the one before it, whatever that was. */
  ghost predicate Paced(events: seq<Event>) {
    forall i, j :: 0 <= i < j < |events| ==>
      events[i].at <= events[j].at && (Soft(events[j].reason) ==> events[j].at - events[i].at >= COOLDOWN)
  }

  /** A rider on board stays on the same trip through every switch. */
  ghost predicate KeepsVehicle(events: seq<Event>) {
    forall i :: 0 <= i < |events| && events[i].wasBoarded ==>
      events[i].nowBoarded && events[i].newTrip == events[i].oldTrip
  }

  /** Replan attempts at least ten seconds apart. */
  ghost predicate Spaced(tries: seq<Attempt>) {
    forall i, j :: 0 <= i < j < |tries| ==> tries[j].at - tries[i].at >= RETRY
  }

  /** A switch that is not for an earlier arrival comes from an attempt at that moment, for that reason. */
  ghost predicate Attempted(e: Event, tries: seq<Attempt>) {
    e.reason.BetterArrival? || exists i :: 0 <= i < |tries| && tries[i].at == e.at && tries[i].reason == e.reason
  }

  ghost predicate AllAttempted(events: seq<Event>, tries: seq<Attempt>) {
    forall i :: 0 <= i < |events| ==> Attempted(events[i], tries)
  }

  /** No anchor is written twice in one plan, and the current plan's anchors are the first writes. */
  ghost predicate Fixed(anchors: seq<Anchor>, plan: nat, ready: map<nat, int>) {
    && (forall i, j :: 0 <= i < j < |anchors| ==>
      anchors[i].plan != anchors[j].plan || anchors[i].leg != anchors[j].leg)
    && (forall i :: 0 <= i < |anchors| ==> anchors[i].plan <= plan)
    && (forall i :: 0 <= i < |anchors| && anchors[i].plan == plan ==>
          anchors[i].leg in ready && ready[anchors[i].leg] == anchors[i].at)
    && forall k :: k in ready ==> Anchor(plan, k, ready[k]) in anchors
  }

  /** Boarded on the clock: not before the departure, and that not before the leg was ready. */
  ghost predicate OnTime(bs: seq<Boarding>) {
    forall i :: 0 <= i < |bs| ==> bs[i].now >= bs[i].dep && (bs[i].ready.Some? ==> bs[i].dep >= bs[i].ready.value)
  }

  /** The events are paced, keep the vehicle, and are all over by `last`. */
  ghost predicate EventsOk(events: seq<Event>, last: int) {
    Paced(events) && KeepsVehicle(events) && forall i :: 0 <= i < |events| ==> events[i].at <= last
  }

  lemma EventAdded(events: seq<Event>, e: Event)
    requires EventsOk(events, e.at) && (e.wasBoarded ==> e.nowBoarded && e.newTrip == e.oldTrip)
    requires Soft(e.reason) ==> forall i :: 0 <= i < |events| ==> e.at - events[i].at >= COOLDOWN
    ensures EventsOk(events + [e], e.at)
  {
  }

  /** The attempts are spaced and all over by `last`. */
  ghost predicate TriesOk(tries: seq<Attempt>, last: int) {
    Spaced(tries) && forall i :: 0 <= i < |tries| ==> tries[i].at <= last
  }

  lemma AttemptAdded(events: seq<Event>, tries: seq<Attempt>, a: Attempt)
    requires AllAttempted(events, tries)
    ensures AllAttempted(events, tries + [a])
  {
    forall i | 0 <= i < |events| ensures Attempted(events[i], tries + [a]) {
      assert Attempted(events[i], tries);
      if !events[i].reason.BetterArrival? {
        var k :| 0 <= k < |tries| && tries[k].at == events[i].at && tries[k].reason == events[i].reason;
        assert (tries + [a])[k] == tries[k];
      }
    }
  }

  lemma SwitchAttempted(events: seq<Event>, tries: seq<Attempt>, e: Event)
    requires AllAttempted(events, tries)
    requires e.reason.BetterArrival? || (|tries| > 0 && tries[|tries| - 1].at == e.at &&
      tries[|tries| - 1].reason == e.reason)
    ensures AllAttempted(events + [e], tries)
  {
    assert Attempted(e, tries);
  }

  lemma OneAnchor(anchors: seq<Anchor>, plan: nat, ready: map<nat, int>, k: nat, at: int)
    requires Fixed(anchors, plan, ready) && k !in ready
    ensures Fixed(anchors + [Anchor(plan, k, at)], plan, ready[k := at])
  {
    var all, now := anchors + [Anchor(plan, k, at)], ready[k := at];
    forall x | x in now ensures Anchor(plan, x, now[x]) in all {
      if x == k { assert all[|anchors|] == Anchor(plan, x, now[x]); }
    }
  }

  lemma NewPlan(anchors: seq<Anchor>, plan: nat, ready: map<nat, int>)
    requires Fixed(anchors, plan, ready)
    ensures Fixed(anchors, plan + 1, map[])
  {
  }

  /** The next transit leg from here on. */
  function NextTransit(legs: seq<Leg>, from: nat): (r: Option<nat>)
    ensures r.Some? ==> from <= r.value < |legs| && legs[r.value].transit
    ensures r.Some? ==> forall j :: from <= j < r.value ==> !legs[j].transit
    decreases |legs| - from
  {
    if from >= |legs| then None else if legs[from].transit then Some(from) else NextTransit(legs, from + 1)
  }

  /** The last transit leg before this one. */
  function PrevTransit(legs: seq<Leg>, before: nat): (r: Option<nat>)
    ensures r.Some? ==> r.value < before && r.value < |legs| && legs[r.value].transit
  {
    if before == 0 then None
    else if before - 1 < |legs| && legs[before - 1].transit then Some(before - 1)
    else PrevTransit(legs, before - 1)
  }

  // ---- rides on the clock ---------------------------------------------------------------------------------------

  predicate RailIn(legs: seq<Leg>, w: World, i: nat) { i < |legs| && legs[i].transit && w.railLike(i) }

  /** A rail ride without a usable vehicle position runs on the clock. */
  predicate AssumedIn(legs: seq<Leg>, w: World, i: nat) {
    RailIn(legs, w, i) && (!w.resolves(i) || w.noVehicle(i))
  }

  /** Positions are ignored on such a ride, and on a walk between two rail rides one of which is such. */
  predicate HiddenIn(legs: seq<Leg>, w: World, i: nat) {
    if i >= |legs| then false
    else if legs[i].transit then AssumedIn(legs, w, i)
    else
      var p, n := PrevTransit(legs, i), NextTransit(legs, i + 1);
      && p.Some? && n.Some? && RailIn(legs, w, p.value) && RailIn(legs, w, n.value)
      && (AssumedIn(legs, w, p.value) || AssumedIn(legs, w, n.value))
  }

  /** The departure a ride is followed by: the realtime one if the trip is known. */
  function DepartureIn(legs: seq<Leg>, w: World, i: nat): int
    requires i < |legs|
  {
    if w.resolves(i) then w.dep(i) else legs[i].depart
  }
}
