/** The tracking session: the rider moves along the plan, the plan follows the rider. */
module TrackingSession {
  import opened Words
  import opened Hysteresis
  import opened SessionModel
  import opened RiskWatching
  import opened RideRecords

  class Session {
    const lim: Limits
    const ranking: bool
    var legs: seq<Leg>
    var legIdx: nat
    var boarded: bool
    var boardedByShape: bool
    var atStop: Option<int>
    var opaqueNow: bool
    var live: bool
    var lastRR: int
    var lastTry: int
    var railReadyAt: map<nat, int>
    var risk: map<nat, RiskState>
    /** The evaluations so far and what they did, the clock, where the evaluation under way found the rider, and what
        happened so far. */
    ghost var past: seq<Step>
    ghost var rounds: seq<Round>
    ghost var clock: int
    ghost var found: Place
    ghost var events: seq<Event>
    ghost var tries: seq<Attempt>
    ghost var anchors: seq<Anchor>
    ghost var boardings: seq<Boarding>

    /** The rider's place and anchors, and the boardings on record. */
    ghost predicate Moving()
      reads this`legs, this`legIdx, this`railReadyAt, this`events, this`anchors, this`boardings
    {
      legIdx <= |legs| && Fixed(anchors, |events|, railReadyAt) && OnTime(boardings)
    }

    /** Every evaluation looked ahead as it should, attempts are justified, switches come from attempts, and the
        counters are those of what was heard since the plan began. */
    ghost predicate Watching()
      reads this`past, this`rounds, this`events, this`tries, this`risk
    {
      && |rounds| <= |past| <= |rounds| + 1 && Began(events) <= |past|
      && AllRounds(lim, ranking, past, rounds, events) && AllJustified(lim, past, rounds, events, tries)
      && AllAttempted(events, tries) && AllTrack(lim, past, rounds, Began(events), risk)
    }

    /** Exactly the rides boarded on the clock are on record. */
    ghost predicate Riding()
      reads this`past, this`rounds, this`boardings
    {
      |rounds| <= |past| && AllRides(past, rounds, boardings)
    }

    /** Switches and attempts keep their distance and are over by now. */
    ghost predicate Ordered()
      reads this`lastRR, this`lastTry, this`clock, this`events, this`tries
    {
      lastRR <= clock && lastTry <= clock && EventsOk(events, lastRR) && TriesOk(tries, lastTry)
    }

    /** No evaluation is under way. */
    ghost predicate Resting()
      reads this`past, this`rounds, this`boardings
    {
      |rounds| == |past| && Before(boardings, |past|)
    }

    ghost predicate Valid()
      reads this
    {
      Moving() && Ordered() && Watching() && Riding()
    }

    ghost function Past(): Log
      reads this`events, this`tries, this`anchors, this`boardings
    {
      Log(events, tries, anchors, boardings)
    }

    predicate Rail(w: World, i: nat)
      reads this`legs
    {
      RailIn(legs, w, i)
    }

    predicate Assumed(w: World, i: nat)
      reads this`legs
    {
      AssumedIn(legs, w, i)
    }

    predicate Opaque(w: World, i: nat)
      reads this`legs
    {
      HiddenIn(legs, w, i)
    }

    constructor (lim: Limits, ranking: bool, legs: seq<Leg>, live: bool, now: Time)
      ensures Valid() && Resting() && clock == now && past == [] && events == [] && tries == [] && boardings == []
      ensures this.lim == lim && this.ranking == ranking
      ensures this.legs == legs && legIdx == 0 && boarded == (|legs| > 0 && legs[0].boarded)
      ensures Brought(legs, |legs|, railReadyAt)
    {
      this.lim, this.ranking, this.legs, this.live, legIdx := lim, ranking, legs, live, 0;
      boarded := |legs| > 0 && legs[0].boarded;
      boardedByShape, atStop, opaqueNow, lastRR, lastTry, railReadyAt := false, None, false, ZERO_TIME, ZERO_TIME,
        map[];
      risk, past, rounds, found := map[], [], [], Place(legs, 0, false, false);
      clock, events, tries, anchors, boardings := now, [], [], [], [];
      new;
      NothingHeard(lim, past, rounds, 0);
      LoadAnchors();
    }

    // ---- readiness anchors ------------------------------------------------------------------------------------

    /** The anchors a plan brings along. */
    method LoadAnchors()
      requires Fixed(anchors, |events|, railReadyAt) && railReadyAt == map[]
      modifies this`railReadyAt, this`anchors
      ensures Fixed(anchors, |events|, railReadyAt) && old(anchors) <= anchors
      ensures Brought(legs, |legs|, railReadyAt)
    {
      for i := 0 to |legs|
        invariant Fixed(anchors, |events|, railReadyAt) && old(anchors) <= anchors && Brought(legs, i, railReadyAt)
      {
        BroughtNext(legs, i, railReadyAt);
        if legs[i].boardReadyAt.Some? { SetReady(i, legs[i].boardReadyAt.value); }
      }
    }

    /** Writes an anchor unless it is already fixed. */
    method SetReady(i: nat, at: int)
      requires Fixed(anchors, |events|, railReadyAt)
      modifies this`railReadyAt, this`anchors
      ensures Fixed(anchors, |events|, railReadyAt)
      ensures railReadyAt == if i in old(railReadyAt) then old(railReadyAt) else old(railReadyAt)[i := at]
      ensures anchors == if i in old(railReadyAt) then old(anchors) else old(anchors) + [Anchor(|events|, i, at)]
    {
      if i !in railReadyAt {
        OneAnchor(anchors, |events|, railReadyAt, i, at);
        anchors := anchors + [Anchor(|events|, i, at)];
        railReadyAt := railReadyAt[i := at];
      }
    }

    predicate TooEarly(i: nat, depart: int)
      reads this`railReadyAt
    {
      i in railReadyAt && depart < railReadyAt[i]
    }

    /** When a rider may board the train after a street leg: a change counts from the earlier train's arrival. */
    function ReadyAfterStreet(w: World, street: nat, arrived: int): int
      reads this`legs
    {
      var p := PrevTransit(legs, street);
      if p.Some? && Rail(w, p.value) then legs[p.value].arrive + w.transferBuffer else arrived + w.entryBuffer
    }

    /** Station entry after a street leg, or the change margin after an earlier rail ride. */
    method AnchorAfterStreet(w: World, street: nat, arrived: int)
      requires Fixed(anchors, |events|, railReadyAt)
      modifies this`railReadyAt, this`anchors
      ensures Fixed(anchors, |events|, railReadyAt) && old(anchors) <= anchors
      ensures railReadyAt ==
        if !Rail(w, street + 1) || street + 1 in old(railReadyAt) then old(railReadyAt)
        else old(railReadyAt)[street + 1 := ReadyAfterStreet(w, street, arrived)]
    {
      var next := street + 1;
      if !Rail(w, next) || next in railReadyAt { return; }
      var p := PrevTransit(legs, street);
      var change := p.Some? && Rail(w, p.value);
      SetReady(next, if change then legs[p.value].arrive + w.transferBuffer else arrived + w.entryBuffer);
    }

    /** The change margin starts when the incoming train arrives; station entry when a bus stops at the station. */
    method AnchorAfterAlight(w: World, completed: nat, arrived: int)
      requires Fixed(anchors, |events|, railReadyAt)
      modifies this`railReadyAt, this`anchors
      ensures Fixed(anchors, |events|, railReadyAt) && old(anchors) <= anchors
      ensures var next := NextTransit(legs, completed + 1);
        railReadyAt ==
          if next.None? || !Rail(w, next.value) || next.value in old(railReadyAt) then old(railReadyAt)
          else if Rail(w, completed) then old(railReadyAt)[next.value := arrived + w.transferBuffer]
          else if next.value == completed + 1 then old(railReadyAt)[next.value := arrived + w.entryBuffer]
          else old(railReadyAt)
    {
      var next := NextTransit(legs, completed + 1);
      if next.None? || !Rail(w, next.value) { return; }
      if Rail(w, completed) {
        SetReady(next.value, arrived + w.transferBuffer);
      } else if next.value == completed + 1 {
        SetReady(next.value, arrived + w.entryBuffer);
      }
    }

    /** A rider found waiting for a train without an anchor gets one, once. */
    method EnsureReady(w: World, now: int)
      requires Fixed(anchors, |events|, railReadyAt)
      modifies this`railReadyAt, this`anchors
      ensures Fixed(anchors, |events|, railReadyAt) && old(anchors) <= anchors
      ensures railReadyAt ==
        if boarded || !Rail(w, legIdx) || legIdx in old(railReadyAt) then old(railReadyAt)
        else old(railReadyAt)[legIdx := now + w.entryBuffer]
    {
      if boarded || !Rail(w, legIdx) { return; }
      SetReady(legIdx, now + w.entryBuffer);
    }

    // ---- moving along the plan ----------------------------------------------------------------------------------

    /** Reaching the next boarding stop completes the access legs before it. */
    method ArriveAtBoardingStop(w: World, now: int)
      requires Moving()
      modifies this`atStop, this`legIdx, this`railReadyAt, this`anchors
      ensures Moving() && old(anchors) <= anchors && Kept(old(railReadyAt), railReadyAt)
      ensures var reached := !boarded && w.located && w.nearBoarding && !old(Opaque(w, legIdx)) &&
        NextTransit(legs, old(legIdx)).Some?;
        legIdx == if reached then NextTransit(legs, old(legIdx)).value else old(legIdx)
    {
      if boarded || !w.located || legIdx >= |legs| || Opaque(w, legIdx) { return; }
      var idx := NextTransit(legs, legIdx);
      if idx.None? || !w.nearBoarding { return; }
      atStop := Some(legs[idx.value].from);
      if idx.value > legIdx {
        AnchorAfterStreet(w, idx.value - 1, now);
        legIdx := idx.value;
      }
    }

    /** Leaves a ride; a walk that follows starts at the arrival, or now if that is later. */
    method CompleteAlight(w: World, now: int, arrived: int)
      requires Moving() && legIdx < |legs|
      modifies this`legs, this`legIdx, this`boarded, this`boardedByShape, this`atStop, this`railReadyAt, this`anchors
      ensures Moving() && legIdx == old(legIdx) + 1 && !boarded && !boardedByShape && atStop == None
      ensures old(anchors) <= anchors && Kept(old(railReadyAt), railReadyAt)
      ensures legs == WalkFrom(old(legs), legIdx, if now > arrived then now else arrived) && Retimed(old(legs), legs)
    {
      AnchorAfterAlight(w, legIdx, arrived);
      legIdx, boarded, boardedByShape, atStop := legIdx + 1, false, false, None;
      legs := WalkFrom(legs, legIdx, if now > arrived then now else arrived);
    }

    /** How a boarding of the current leg on the clock goes on record. */
    ghost function OnRecord(now: int, dep: int): Boarding
      reads this`legIdx, this`railReadyAt, this`past
    {
      Boarding(|past|, legIdx, now, dep, if legIdx in railReadyAt then Some(railReadyAt[legIdx]) else None)
    }

    /** A schedule-assumed boarding: on the clock, and only once the rider can be on the platform. */
    method BoardOnClock(now: int, dep: int)
      requires Moving() && now >= dep && !TooEarly(legIdx, dep)
      modifies this`boarded, this`boardedByShape, this`boardings
      ensures Moving() && boarded && !boardedByShape
      ensures boardings == old(boardings) + [OnRecord(now, dep)]
    {
      boarded, boardedByShape := true, false;
      boardings := boardings + [OnRecord(now, dep)];
    }

    /** The rider is seen riding a leg that can be followed by position. */
    predicate MayBePickedUp(w: World, next: nat)
      reads this`legs
    {
      next < |legs| && legs[next].transit && w.located && !Assumed(w, next) && w.resolves(next) && w.shapeBoarded(next)
    }

    /** A vehicle may pick the rider up while the access walk is still current. */
    method BoardFromAccess(w: World) returns (ok: bool)
      requires Moving() && legIdx < |legs|
      modifies this`legIdx, this`boarded, this`boardedByShape, this`atStop
      ensures Moving()
      ensures legIdx == if ok then old(legIdx) + 1 else old(legIdx)
      ensures boarded == (ok || old(boarded)) && (ok ==> boardedByShape && legIdx < |legs| && legs[legIdx].transit)
      ensures ok <==> MayBePickedUp(w, old(legIdx) + 1)
    {
      var next := legIdx + 1;
      ok := MayBePickedUp(w, next);
      if ok { legIdx, boarded, boardedByShape, atStop := next, true, true, None; }
    }

    /** Completes a street leg. */
    method FinishWalk(w: World, arrived: int)
      requires Moving() && legIdx < |legs|
      modifies this`legIdx, this`boarded, this`boardedByShape, this`railReadyAt, this`anchors
      ensures Moving() && old(anchors) <= anchors && Kept(old(railReadyAt), railReadyAt)
      ensures legIdx == old(legIdx) + 1 && !boarded && !boardedByShape
      ensures railReadyAt ==
        if !Rail(w, legIdx) || legIdx in old(railReadyAt) then old(railReadyAt)
        else old(railReadyAt)[legIdx := ReadyAfterStreet(w, old(legIdx), arrived)]
    {
      AnchorAfterStreet(w, legIdx, arrived);
      legIdx, boarded, boardedByShape := legIdx + 1, false, false;
    }

    /** The rider is measurably at the end of a street leg. */
    predicate AtEnd(w: World, i: nat)
      reads this`legs
    {
      !Opaque(w, i) && w.located && w.atEnd(i)
    }

    /** A street leg: done on the clock, or early when the rider is measurably at its end. */
    method WalkOn(w: World, now: int) returns (more: bool)
      requires Moving() && legIdx < |legs| && !legs[legIdx].transit
      modifies this`legIdx, this`boarded, this`boardedByShape, this`atStop, this`railReadyAt, this`anchors
      ensures Moving() && old(anchors) <= anchors && Kept(old(railReadyAt), railReadyAt)
      ensures more <==> !old(MayBePickedUp(w, legIdx + 1)) && (now > old(legs[legIdx]).arrive || old(AtEnd(w, legIdx)))
      ensures legIdx == old(legIdx) + if more || old(MayBePickedUp(w, legIdx + 1)) then 1 else 0
      ensures boarded == if more then false else old(boarded) || old(MayBePickedUp(w, legIdx + 1))
    {
      var picked := BoardFromAccess(w);
      if picked { return false; }
      var atEnd := AtEnd(w, legIdx);
      if now <= legs[legIdx].arrive && !atEnd { return false; }
      FinishWalk(w, if atEnd then now else legs[legIdx].arrive);
      return true;
    }

    /** A ride that runs on the clock: boards at the departure, alights at the arrival. */
    method RideOnClock(w: World, now: int, dep: int, arr: int) returns (more: bool)
      requires Moving() && legIdx < |legs|
      modifies this`legs, this`legIdx, this`boarded, this`boardedByShape, this`atStop, this`opaqueNow, this`railReadyAt,
        this`anchors, this`boardings
      ensures Moving() && Retimed(old(legs), legs) && old(anchors) <= anchors && Kept(old(railReadyAt), railReadyAt)
      ensures legIdx == old(legIdx) + if more then 1 else 0
      ensures more ==> now >= arr && !boarded && !old(TooEarly(legIdx, dep))
      ensures boardings == old(boardings) + if !old(boarded) && (boarded || more) then [old(OnRecord(now, dep))] else []
      ensures !old(TooEarly(legIdx, dep)) && now >= dep ==> more || boarded
      ensures old(boarded) && !more ==> boarded
    {
      opaqueNow := true;
      if TooEarly(legIdx, dep) { return false; }
      if !boarded {
        if now < dep { return false; }
        BoardOnClock(now, dep);
      }
      if now < arr { return false; }
      CompleteAlight(w, now, arr);
      return true;
    }

    /** The rider is taken to be on board: by the shape, the feed, the overdue clock, or moving along
        with the vehicle. */
    predicate SeenBoarding(w: World, i: nat, now: int, dep: int) {
      w.shapeBoarded(i) || w.passedBoard(i) || (w.passedUnknown(i) && now > dep + LAG) || w.withVehicle(i)
    }

    /** The rider is taken to have got off, and no position says otherwise. */
    predicate SeenAlighting(w: World, i: nat, now: int, arr: int) {
      (w.located && w.alightSeen(i)) ||
      ((w.passedAlight(i) || now > arr + LAG) && !w.ridesVehicle(i) &&
        (w.located && w.farFromAlight(i) ==> w.passedAlight(i) && !w.alongRide(i)))
    }

    /** A ride followed by realtime and position evidence. */
    method RideOnEvidence(w: World, now: int, dep: int, arr: int) returns (more: bool)
      requires Moving() && legIdx < |legs|
      modifies this`legs, this`legIdx, this`boarded, this`boardedByShape, this`atStop, this`railReadyAt, this`anchors
      ensures Moving() && Retimed(old(legs), legs) && old(anchors) <= anchors && Kept(old(railReadyAt), railReadyAt)
      ensures legIdx == old(legIdx) + if more then 1 else 0
      ensures var on := old(boarded) || SeenBoarding(w, old(legIdx), now, dep);
        (more <==> on && SeenAlighting(w, old(legIdx), now, arr)) && boarded == (on && !more)
    {
      var i := legIdx;
      if !boarded {
        if w.shapeBoarded(i) || w.passedBoard(i) || (w.passedUnknown(i) && now > dep + LAG) || w.withVehicle(i) {
          boarded, boardedByShape, atStop := true, w.shapeBoarded(i), None;
        } else {
          return false;
        }
      }
      var alighted := w.located && w.alightSeen(i);
      if !(w.passedAlight(i) || now > arr + LAG || alighted) { return false; }
      if !alighted && w.located && w.farFromAlight(i) && (!w.passedAlight(i) || w.alongRide(i)) { return false; }
      if !alighted && w.ridesVehicle(i) { return false; }
      CompleteAlight(w, now, arr);
      return true;
    }

    /** The times a ride is followed by: realtime ones if the trip is known. */
    function DepartureOf(w: World, i: nat): int
      requires i < |legs|
      reads this`legs
    {
      DepartureIn(legs, w, i)
    }

    /** One transit leg. Getting on board a rail ride that runs on the clock goes on record. */
    method RideOn(w: World, now: int) returns (more: bool)
      requires Moving() && legIdx < |legs| && legs[legIdx].transit
      modifies this`legs, this`legIdx, this`boarded, this`boardedByShape, this`atStop, this`opaqueNow, this`railReadyAt,
        this`anchors, this`boardings
      ensures Moving() && Retimed(old(legs), legs) && old(anchors) <= anchors && Kept(old(railReadyAt), railReadyAt)
      ensures legIdx == old(legIdx) + if more then 1 else 0
      ensures boardings == old(boardings) +
        if old(Assumed(w, legIdx)) && !old(boarded) && (boarded || more)
          then [old(OnRecord(now, DepartureOf(w, legIdx)))] else []
      ensures old(w.resolves(legIdx) && (w.skipped(legIdx) || (Rail(w, legIdx) && TooEarly(legIdx, w.dep(legIdx))))) ==>
        !more && boarded == old(boarded)
      ensures more ==> boarded == old(boarded && !w.resolves(legIdx) && !Rail(w, legIdx))
    {
      var i, leg := legIdx, legs[legIdx];
      if !w.resolves(i) {
        if Rail(w, i) {
          more := RideOnClock(w, now, leg.depart, leg.arrive);
        } else if now > leg.arrive + LAG {
          legIdx := legIdx + 1;
          more := true;
        } else {
          more := false;
        }
        return;
      }
      if w.skipped(i) || (Rail(w, i) && TooEarly(i, w.dep(i))) { return false; }
      if Assumed(w, i) {
        more := RideOnClock(w, now, w.dep(i), w.arr(i));
      } else {
        more := RideOnEvidence(w, now, w.dep(i), w.arr(i));
      }
    }

    /** One leg at most is completed, and a boarding on the clock goes on record. */
    method MoveOn(w: World, now: int, ghost from: seq<Leg>, ghost start: nat, ghost on: bool) returns (more: bool)
      requires Moving() && legIdx < |legs| && Retimed(from, legs) && start <= legIdx
      requires Rides(from, w, now, |past|, start, on, legIdx, boarded, boardings)
      requires boarded <==> AlreadyOn(from, w, start, on, legIdx)
      modifies this`legs, this`legIdx, this`boarded, this`boardedByShape, this`atStop, this`opaqueNow, this`railReadyAt,
        this`anchors, this`boardings
      ensures Moving() && Retimed(from, legs) && Kept(old(railReadyAt), railReadyAt) && old(anchors) <= anchors
      ensures NewOnly(old(boardings), boardings, |past|)
      ensures old(legIdx) <= legIdx <= old(legIdx) + 1
      ensures Rides(from, w, now, |past|, start, on, legIdx, boarded, boardings)
      ensures more ==> legIdx == old(legIdx) + 1 && (boarded <==> AlreadyOn(from, w, start, on, legIdx))
    {
      ghost var at, was, before, legs0 := legIdx, boarded, boardings, legs;
      if legs[legIdx].transit { more := RideOn(w, now); } else { more := WalkOn(w, now); }
      RetimedTwice(from, legs0, legs);
      OneLeg(from, w, now, |past|, start, on, at, was, legIdx, boarded, before, boardings);
    }

    /** Moves the rider along as far as the evidence goes; every round completes a leg. */
    method Advance(w: World, now: int)
      requires Moving() && Before(boardings, |past|)
      modifies this`legs, this`legIdx, this`boarded, this`boardedByShape, this`atStop, this`opaqueNow, this`railReadyAt,
        this`anchors, this`boardings
      ensures Moving() && Retimed(old(legs), legs) && Kept(old(railReadyAt), railReadyAt)
      ensures old(anchors) <= anchors && NewOnly(old(boardings), boardings, |past|) && legIdx >= old(legIdx)
      ensures Rides(legs, w, now, |past|, old(legIdx), old(boarded), legIdx, boarded, boardings)
    {
      var more := true;
      ghost var from, start, on := legs, legIdx, boarded;
      NothingRode(legs, w, now, |past|, start, on, boardings);
      while more && legIdx < |legs|
        invariant Moving() && Retimed(from, legs) && Kept(old(railReadyAt), railReadyAt)
        invariant old(anchors) <= anchors && NewOnly(old(boardings), boardings, |past|) && legIdx >= start
        invariant Rides(from, w, now, |past|, start, on, legIdx, boarded, boardings)
        invariant more ==> (boarded <==> AlreadyOn(from, w, start, on, legIdx))
        decreases |legs| - legIdx, more
      {
        more := MoveOn(w, now, from, start, on);
      }
      RidesRetimed(from, legs, w, now, |past|, start, on, legIdx, boarded, boardings);
    }

    // ---- changing the plan ----------------------------------------------------------------------------------------

    /** The plan is untouched: its legs, the rider's place in it and its anchors. */
    twostate predicate SamePlan()
      reads this
    {
      legs == old(legs) && legIdx == old(legIdx) && boarded == old(boarded) && atStop == old(atStop) &&
      railReadyAt == old(railReadyAt) && events == old(events) && anchors == old(anchors)
    }

    /** A new plan is in place from its first leg, with the anchors it brings, and the client has been told. */
    twostate predicate Switched(newLegs: seq<Leg>, reason: Reason, now: int)
      reads this
    {
      && |newLegs| > 0 && legs == newLegs && legIdx == 0 && boarded == newLegs[0].boarded
      && Brought(newLegs, |newLegs|, railReadyAt) && old(anchors) <= anchors && old(legIdx < |legs|)
      && risk == map[]
      && events == old(events) + [Event(now, reason, old(boarded), old(legs[legIdx].trip), newLegs[0].boarded,
        newLegs[0].trip, |past|)]
    }

    /** Would this plan move a rider off the vehicle they are on? */
    predicate MovesRider(newLegs: seq<Leg>)
      requires |newLegs| > 0 && legIdx < |legs|
      reads this`boarded, this`legs, this`legIdx
    {
      boarded && (!newLegs[0].boarded || newLegs[0].trip != legs[legIdx].trip)
    }

    ghost function Now(): Snapshot
      reads this`events, this`tries, this`anchors, this`boardings, this`legs, this`railReadyAt
    {
      Snapshot(Past(), legs, railReadyAt)
    }

    /** The plan is the same as before, or another one and the client has been told. */
    twostate predicate PlanFollows(now: int)
      reads this
    {
      Follows(old(Now()), Now(), now)
    }

    /** Installs a plan, unless it would move a rider off the vehicle they are on. */
    method SwitchTo(newLegs: seq<Leg>, newLive: bool, reason: Reason, now: int)
      requires Valid() && legIdx < |legs| && lastRR == clock == now
      requires Soft(reason) ==> forall i :: 0 <= i < |events| ==> now - events[i].at >= COOLDOWN
      requires reason.BetterArrival? || (|tries| > 0 && tries[|tries| - 1].at == now &&
        tries[|tries| - 1].reason == reason)
      modifies this`legs, this`legIdx, this`boarded, this`boardedByShape, this`atStop, this`opaqueNow, this`live,
        this`railReadyAt, this`events, this`anchors, this`risk
      ensures Valid() && PlanFollows(now)
      ensures if |newLegs| == 0 || old(MovesRider(newLegs)) then SamePlan()
        else Switched(newLegs, reason, now)
    {
      NothingFollows(Now(), now);
      if |newLegs| == 0 { return; }
      if boarded && (!newLegs[0].boarded || newLegs[0].trip != legs[legIdx].trip) { return; }
      ghost var e := Event(now, reason, boarded, legs[legIdx].trip, newLegs[0].boarded, newLegs[0].trip, |past|);
      Change(newLegs, newLive, e);
      EventFollows(old(Now()), Now(), e);
    }

    /** The client is told, and the plan is replaced. */
    method Change(newLegs: seq<Leg>, newLive: bool, ghost e: Event)
      requires Valid() && |newLegs| > 0 && lastRR == clock == e.at && e.first == |past| &&
        (e.wasBoarded ==> e.nowBoarded && e.newTrip == e.oldTrip)
      requires Soft(e.reason) ==> forall i :: 0 <= i < |events| ==> e.at - events[i].at >= COOLDOWN
      requires e.reason.BetterArrival? ||
        (|tries| > 0 && tries[|tries| - 1].at == e.at && tries[|tries| - 1].reason == e.reason)
      modifies this`legs, this`legIdx, this`boarded, this`boardedByShape, this`atStop, this`opaqueNow, this`live,
        this`railReadyAt, this`events, this`anchors, this`risk
      ensures Valid()
      ensures events == old(events) + [e] && Brought(legs, |legs|, railReadyAt) && old(anchors) <= anchors
      ensures legs == newLegs && legIdx == 0 && boarded == newLegs[0].boarded
      ensures risk == map[]
    {
      Clear(e);
      Install(newLegs, newLive);
    }

    /** A fresh plan: from its first leg, with the anchors it brings along. */
    method Install(newLegs: seq<Leg>, newLive: bool)
      requires Moving() && |newLegs| > 0 && railReadyAt == map[]
      modifies this`legs, this`legIdx, this`boarded, this`boardedByShape, this`atStop, this`opaqueNow, this`live,
        this`railReadyAt, this`anchors
      ensures Moving() && Brought(legs, |legs|, railReadyAt) && old(anchors) <= anchors
      ensures legs == newLegs && legIdx == 0 && boarded == newLegs[0].boarded && !opaqueNow &&
        live == (old(live) || newLive)
    {
      StartOver(newLegs, newLive);
      LoadAnchors();
    }

    /** The rider is at the first leg, on board if it says so; a stop reached is remembered if the plan starts there. */
    method StartOver(newLegs: seq<Leg>, newLive: bool)
      requires |newLegs| > 0
      modifies this`legs, this`legIdx, this`boarded, this`boardedByShape, this`atStop, this`opaqueNow, this`live
      ensures legs == newLegs && legIdx == 0 && boarded == newLegs[0].boarded && !opaqueNow &&
        live == (old(live) || newLive)
      ensures boardedByShape == (boarded && old(boardedByShape))
      ensures atStop == if boarded || !newLegs[0].transit || old(atStop) != Some(newLegs[0].from) then None
        else old(atStop)
    {
      boarded, boardedByShape := newLegs[0].boarded, newLegs[0].boarded && boardedByShape;
      if boarded || !newLegs[0].transit || atStop != Some(newLegs[0].from) { atStop := None; }
      legs, legIdx, opaqueNow, live := newLegs, 0, false, live || newLive;
    }

    /** The switch goes on record; anchors and counters of the old plan are gone. */
    method Clear(ghost e: Event)
      requires Valid() && lastRR == clock == e.at && e.first == |past|
      requires e.wasBoarded ==> e.nowBoarded && e.newTrip == e.oldTrip
      requires Soft(e.reason) ==> forall i :: 0 <= i < |events| ==> e.at - events[i].at >= COOLDOWN
      requires e.reason.BetterArrival? ||
        (|tries| > 0 && tries[|tries| - 1].at == e.at && tries[|tries| - 1].reason == e.reason)
      modifies this`events, this`railReadyAt, this`risk
      ensures Valid() && events == old(events) + [e] && railReadyAt == map[]
      ensures risk == map[]
    {
      EventAdded(events, e);
      SwitchAttempted(events, tries, e);
      SwitchStill(lim, ranking, past, rounds, events, e, tries);
      NothingHeard(lim, past, rounds, |past|);
      NewPlan(anchors, |events|, railReadyAt);
      events, railReadyAt, risk := events + [e], map[], map[];
    }

    /** An attempt goes on record. */
    method Try(ghost a: Attempt, now: int)
      requires Valid() && clock == now == a.at && now - lastTry >= RETRY && Justified(lim, past, rounds, events, a)
      modifies this`lastTry, this`tries
      ensures Valid() && tries == old(tries) + [a]
      ensures Now() == old(Now()).(log := old(Now()).log.(tries := old(tries) + [a]))
    {
      AttemptAdded(events, tries, a);
      OneMoreTry(lim, past, rounds, events, tries, a);
      lastTry, tries := now, tries + [a];
    }

    /** Replaces a plan: at most one attempt every ten seconds; a soft reason also needs a
        different, affordable plan. */
    method Reroute(c: Checks, reason: Reason, now: int, ghost a: Attempt)
      requires Valid() && legIdx < |legs| && clock == now
      requires Soft(reason) ==> now - lastRR >= COOLDOWN
      requires a.at == now && a.reason == reason && Justified(lim, past, rounds, events, a)
      modifies this`legs, this`legIdx, this`boarded, this`boardedByShape, this`atStop, this`opaqueNow, this`live,
        this`railReadyAt, this`events, this`anchors, this`lastTry, this`lastRR, this`tries, this`risk
      ensures Valid() && PlanFollows(now)
      ensures tries == old(tries) + if now - old(lastTry) < RETRY then [] else [a]
      ensures var usable := now - old(lastTry) >= RETRY && c.replan.Some? &&
        !(Soft(reason) && (c.sameRides || c.tooCostly))
          && |c.replan.value| > 0 && !old(MovesRider(c.replan.value));
        if usable then Switched(c.replan.value, reason, now) else SamePlan()
    {
      NothingFollows(Now(), now);
      if now - lastTry < RETRY { return; }
      Try(a, now);
      ghost var mid := Now();
      Replace(c, reason, now);
      AttemptFollows(old(Now()), mid, Now(), a);
    }

    /** Switches to the plan found, if any; for a soft reason only to a different, affordable one. */
    method Replace(c: Checks, reason: Reason, now: int)
      requires Valid() && legIdx < |legs| && clock == now
      requires Soft(reason) ==> now - lastRR >= COOLDOWN
      requires |tries| > 0 && tries[|tries| - 1].at == now && tries[|tries| - 1].reason == reason
      modifies this`legs, this`legIdx, this`boarded, this`boardedByShape, this`atStop, this`opaqueNow, this`live,
        this`railReadyAt, this`events, this`anchors, this`lastRR, this`risk
      ensures Valid() && PlanFollows(now)
      ensures var usable := c.replan.Some? && !(Soft(reason) && (c.sameRides || c.tooCostly)) && |c.replan.value| > 0
          && !old(MovesRider(c.replan.value));
        if usable then Switched(c.replan.value, reason, now) else SamePlan()
    {
      NothingFollows(Now(), now);
      if c.replan.None? || (Soft(reason) && (c.sameRides || c.tooCostly)) { return; }
      lastRR := now;
      SwitchTo(c.replan.value, c.replanLive, reason, now);
    }

    /** Switches for an earlier arrival. */
    method TryBetterArrival(c: Checks, now: int)
      requires Valid() && legIdx < |legs| && clock == now && now - lastRR >= COOLDOWN
      modifies this`legs, this`legIdx, this`boarded, this`boardedByShape, this`atStop, this`opaqueNow, this`live,
        this`railReadyAt, this`events, this`anchors, this`lastRR, this`risk
      ensures Valid() && PlanFollows(now)
      ensures var usable := c.replan.Some? && c.worthIt && |c.replan.value| > 0 && !old(MovesRider(c.replan.value));
        if usable then Switched(c.replan.value, BetterArrival, now) else SamePlan()
    {
      if c.replan.None? || !c.worthIt { return; }
      lastRR := now;
      SwitchTo(c.replan.value, c.replanLive, BetterArrival, now);
    }

    // ---- one evaluation -------------------------------------------------------------------------------------------

    /** The rider is somewhere else, perhaps still on the vehicle they should have left. */
    method FollowRider(c: Checks, now: int)
      requires Valid() && legIdx < |legs| && clock == now && past != []
      modifies this`legs, this`legIdx, this`boarded, this`boardedByShape, this`atStop, this`opaqueNow, this`live,
        this`railReadyAt, this`events, this`anchors, this`lastTry, this`lastRR, this`tries, this`risk
      ensures Valid() && PlanFollows(now)
      ensures var back := c.deviation.StayedOnPastAlight? && PrevTransit(old(legs), old(legIdx)).Some?;
        events == old(events) && back ==> boarded && legIdx == PrevTransit(old(legs), old(legIdx)).value
    {
      var prev := PrevTransit(legs, legIdx);
      if c.deviation.StayedOnPastAlight? && prev.Some? { legIdx, boarded := prev.value, true; }
      Reroute(c, Deviated, now, Attempt(now, Deviated, |past| - 1, None));
    }

    /** Hard reasons to replace the plan, in the order they are checked. */
    method Repair(w: World, c: Checks, now: int) returns (finished: bool)
      requires Valid() && legIdx < |legs| && clock == now && past != []
      modifies this`legs, this`legIdx, this`boarded, this`boardedByShape, this`atStop, this`opaqueNow, this`live,
        this`railReadyAt, this`events, this`anchors, this`lastTry, this`lastRR, this`tries, this`risk
      ensures Valid() && PlanFollows(now)
      ensures finished <==> NeedsRepair(w, c, old(legs), old(legIdx))
      ensures !finished ==> SamePlan() && lastRR == old(lastRR) && tries == old(tries)
    {
      var hidden := Opaque(w, legIdx);
      opaqueNow := hidden;
      if c.unavailable {
        Reroute(c, Shared, now, Attempt(now, Shared, |past| - 1, None));
        return true;
      }
      if !hidden && !c.deviation.OnPlan? {
        FollowRider(c, now);
        return true;
      }
      if !hidden && (c.tooSlow || c.leftStop) {
        if c.leftStop { atStop := None; }
        Reroute(c, Guarded, now, Attempt(now, Guarded, |past| - 1, None));
        return true;
      }
      if !c.feasible {
        if c.boardingInProgress && c.missedConnection { return true; }
        Reroute(c, Infeasible, now, Attempt(now, Infeasible, |past| - 1, None));
        return true;
      }
      return false;
    }

    /** Where the rider is in the plan. */
    function Here(): Place
      reads this`legs, this`legIdx, this`boarded, this`atStop
    {
      Place(legs, legIdx, boarded, atStop.Some?)
    }

    /** The evaluation under way; the rider is settled, and nothing of it is on record yet but their rides. */
    ghost predicate Evaluating(w: World, c: Checks, now: Time)
      reads this`past, this`rounds, this`clock, this`events, this`found, this`legs, this`legIdx, this`boarded,
        this`boardings
    {
      && past != [] && past[|past| - 1] == Step(w, c, now) && clock == now && |rounds| == |past| - 1
      && Began(events) <= |rounds| && Retimed(found.legs, legs)
      && Rides(legs, w, now, |rounds|, found.at, found.boarded, legIdx, boarded, boardings)
    }

    /** May a soft reroute be made at all? */
    predicate MayImprove(c: Checks, now: int)
      reads this`lastRR
    {
      now - lastRR >= COOLDOWN && c.rerouteAllowed && !c.imminent && !c.boardingInProgress
    }

    /** The evaluation under way is on record, from where the rider was. */
    ghost predicate Looked(before: seq<Round>, here: Place)
      reads this`past, this`rounds, this`found
    {
      && |rounds| == |past| == |before| + 1 && rounds[..|before|] == before
      && rounds[|before|].found == found && rounds[|before|].place == here
    }

    /** Judges the connections ahead, up to the first for which the plan is to be replaced, and puts that on record;
        nothing of it if connections are not ranked. */
    method Judge(w: World, c: Checks, now: Time) returns (hit: Option<nat>, ghost r: Round, ghost a: Attempt)
      requires Valid() && legIdx < |legs| && Evaluating(w, c, now) && !NeedsRepair(w, c, legs, legIdx)
      modifies this`risk, this`rounds
      ensures Valid() && rounds == old(rounds) + if ranking then [r] else []
      ensures r.found == found && r.place == Here() && a == Attempt(now, ConnectionRisk, |past| - 1, hit)
      ensures ranking <==> Found(lim, past, old(rounds), Began(events), MayImprove(c, now), r, hit)
      ensures hit.Some? ==> ranking && MayImprove(c, now) && Justified(lim, past, rounds, events, a)
    {
      hit, r, a := None, Round(found, Here(), 0), Attempt(now, ConnectionRisk, |past| - 1, None);
      if !ranking { return; }
      hit, risk, r := JudgeAll(Here(), lim, Step(w, c, now), MayImprove(c, now), risk, found, past, rounds,
        Began(events));
      a := Attempt(now, ConnectionRisk, |past| - 1, hit);
      FoundIsOk(lim, ranking, past, rounds, events, MayImprove(c, now), r, a);
      RoundMore(lim, ranking, past, rounds, events, r, tries);
      RidesMore(past, rounds, r, boardings);
      rounds := rounds + [r];
    }

    /** Replaces the plan for a connection found due. */
    method Protect(c: Checks, now: Time, hit: Option<nat>, ghost a: Attempt)
      requires Valid() && legIdx < |legs| && clock == now && a.at == now && a.reason == ConnectionRisk
      requires hit.Some? ==> now - lastRR >= COOLDOWN && Justified(lim, past, rounds, events, a)
      modifies this`legs, this`legIdx, this`boarded, this`boardedByShape, this`atStop, this`opaqueNow, this`live,
        this`railReadyAt, this`events, this`anchors, this`lastTry, this`lastRR, this`tries, this`risk
      ensures Valid() && PlanFollows(now)
      ensures hit.None? ==> SamePlan() && lastRR == old(lastRR)
      ensures tries == old(tries) + if hit.None? || now - old(lastTry) < RETRY then [] else [a]
    {
      NothingFollows(Now(), now);
      if hit.Some? { Reroute(c, ConnectionRisk, now, a); }
    }

    /** Judges the connections ahead and replaces the plan for the first one that is due. */
    method EvaluateRisk(w: World, c: Checks, now: Time) returns (hit: Option<nat>, ghost r: Round, ghost a: Attempt)
      requires Valid() && legIdx < |legs| && Evaluating(w, c, now) && !NeedsRepair(w, c, legs, legIdx)
      modifies this`legs, this`legIdx, this`boarded, this`boardedByShape, this`atStop, this`opaqueNow, this`live,
        this`railReadyAt, this`events, this`anchors, this`lastTry, this`lastRR, this`tries, this`risk, this`rounds
      ensures Valid() && PlanFollows(now)
      ensures hit.Some? ==> ranking
      ensures rounds == old(rounds) + if ranking then [r] else []
      ensures r.found == found && r.place == old(Here())
      ensures ranking <==> Found(lim, past, old(rounds), old(Began(events)), old(MayImprove(c, now)), r, hit)
      ensures hit.Some? || (SamePlan() && lastRR == old(lastRR))
      ensures a == Attempt(now, ConnectionRisk, |past| - 1, hit)
      ensures tries == old(tries) + if hit.None? || now - old(lastTry) < RETRY then [] else [a]
    {
      hit, r, a := Judge(w, c, now);
      assert Now() == old(Now()) && Here() == old(Here());
      Protect(c, now, hit, a);
    }

    /** Soft reasons, each behind the shared cooldown. */
    method Improve(w: World, c: Checks, now: Time)
      requires Valid() && legIdx < |legs| && Evaluating(w, c, now) && !NeedsRepair(w, c, legs, legIdx)
      modifies this`legs, this`legIdx, this`boarded, this`boardedByShape, this`atStop, this`opaqueNow, this`live,
        this`railReadyAt, this`events, this`anchors, this`lastTry, this`lastRR, this`tries, this`risk, this`rounds
      ensures Valid() && PlanFollows(now)
      ensures (now - old(lastRR) >= COOLDOWN && !c.boardingInProgress) || SamePlan()
      ensures if ranking then Looked(old(rounds), old(Here())) else rounds == old(rounds)
    {
      ghost var r, a;
      var hit;
      hit, r, a := EvaluateRisk(w, c, now);
      if hit.Some? { return; }
      assert Now() == old(Now()) && (ranking ==> Looked(old(rounds), old(Here())));
      Advise(c, now);
    }

    /** Moves the rider off an unconfirmed trip, or onto a plan that arrives earlier. */
    method Advise(c: Checks, now: Time)
      requires Valid() && legIdx < |legs| && clock == now && past != []
      modifies this`legs, this`legIdx, this`boarded, this`boardedByShape, this`atStop, this`opaqueNow, this`live,
        this`railReadyAt, this`events, this`anchors, this`lastTry, this`lastRR, this`tries, this`risk
      ensures Valid() && PlanFollows(now)
      ensures now - old(lastRR) < COOLDOWN || c.boardingInProgress ==> SamePlan()
    {
      NothingFollows(Now(), now);
      if c.unconfirmed && live && now - lastRR >= COOLDOWN && !c.boardingInProgress {
        Reroute(c, UnconfirmedTrip, now, Attempt(now, UnconfirmedTrip, |past| - 1, None));
        return;
      }
      if !boardedByShape && MayImprove(c, now) {
        TryBetterArrival(c, now);
      }
    }

    /** Checks the rest of the plan and acts on what it finds. */
    method Check(w: World, c: Checks, now: Time)
      requires Valid() && legIdx < |legs| && Evaluating(w, c, now)
      modifies this`legs, this`legIdx, this`boarded, this`boardedByShape, this`atStop, this`opaqueNow, this`live,
        this`railReadyAt, this`events, this`anchors, this`lastTry, this`lastRR, this`tries, this`risk, this`rounds
      ensures Valid() && PlanFollows(now)
      ensures if LooksAhead(ranking, Step(w, c, now), old(Here())) then Looked(old(rounds), old(Here()))
        else rounds == old(rounds)
    {
      var finished := Repair(w, c, now);
      if !finished { Improve(w, c, now); }
    }

    /** What happens before the rider is moved along. */
    method Reach(w: World, now: int)
      requires Moving()
      modifies this`atStop, this`legIdx, this`railReadyAt, this`anchors
      ensures Moving() && old(anchors) <= anchors && Kept(old(railReadyAt), railReadyAt) && legIdx >= old(legIdx)
      ensures legIdx > old(legIdx) ==> !boarded
      ensures forall j :: old(legIdx) <= j < legIdx && j < |legs| ==> !legs[j].transit
      ensures !boarded && Rail(w, legIdx) ==> legIdx in railReadyAt
    {
      ArriveAtBoardingStop(w, now);
      EnsureReady(w, now);
    }

    /** Moves the rider along; one who waits for a train in the timetable gets an anchor. */
    method MoveUp(w: World, now: int)
      requires Moving() && Before(boardings, |past|)
      modifies this`legs, this`legIdx, this`boarded, this`boardedByShape, this`atStop, this`opaqueNow, this`railReadyAt,
        this`anchors, this`boardings
      ensures Moving() && Retimed(old(legs), legs) && Kept(old(railReadyAt), railReadyAt)
      ensures old(anchors) <= anchors && NewOnly(old(boardings), boardings, |past|) && legIdx >= old(legIdx)
      ensures Rides(legs, w, now, |past|, old(legIdx), old(boarded), legIdx, boarded, boardings)
      ensures !boarded && Rail(w, legIdx) && w.resolves(legIdx) ==> legIdx in railReadyAt
    {
      Advance(w, now);
      ghost var r1 := railReadyAt;
      if legIdx < |legs| && w.resolves(legIdx) { EnsureReady(w, now); }
      KeptTwice(old(railReadyAt), r1, railReadyAt);
    }

    /** Brings the rider's place in the plan up to date. */
    method Settle(w: World, now: int)
      requires Moving() && Before(boardings, |past|)
      modifies this`legs, this`legIdx, this`boarded, this`boardedByShape, this`atStop, this`opaqueNow, this`railReadyAt,
        this`anchors, this`boardings
      ensures Moving() && Retimed(old(legs), legs) && Kept(old(railReadyAt), railReadyAt)
      ensures old(anchors) <= anchors && NewOnly(old(boardings), boardings, |past|) && legIdx >= old(legIdx)
      ensures Rides(legs, w, now, |past|, old(legIdx), old(boarded), legIdx, boarded, boardings)
    {
      ghost var start := legIdx;
      Reach(w, now);
      ghost var r1, from := railReadyAt, legIdx;
      MoveUp(w, now);
      KeptTwice(old(railReadyAt), r1, railReadyAt);
      if from > start { SkippedWalks(legs, w, now, |past|, start, from, legIdx, boarded, boardings); }
    }

    /** The evaluation is on record; the rider is settled. */
    ghost method Note(s: Step, before: seq<Boarding>)
      requires Moving() && Ordered() && Watching() && |rounds| == |past| && clock == s.now
      requires AllRides(past, rounds, before) && NewOnly(before, boardings, |past|)
      modifies this`past
      ensures Valid() && past == old(past) + [s]
    {
      RidesStill(past, rounds, before, boardings, past + [s]);
      RecordStill(lim, ranking, past, rounds, past + [s], rounds, events, tries);
      TrackStill(lim, past, past + [s], rounds, Began(events), risk);
      past := past + [s];
    }

    /** An evaluation that did not look ahead is on record. */
    ghost method Close(r: Round)
      requires Valid() && |rounds| == |past| - 1 && r.to == 0
      requires !LooksAhead(ranking, past[|rounds|], r.place) && RoundRides(past[|rounds|], r, |rounds|, boardings)
      modifies this`rounds
      ensures Valid() && rounds == old(rounds) + [r]
    {
      NothingJudged(lim, past, rounds, Began(events), r, risk);
      RoundMore(lim, ranking, past, rounds, events, r, tries);
      RidesMore(past, rounds, r, boardings);
      rounds := rounds + [r];
    }

    /** The rider is settled, and their rides are on record. */
    method Begin(w: World, c: Checks, now: Time)
      requires Valid() && Resting() && now >= clock
      modifies this`clock, this`found, this`past, this`legs, this`legIdx, this`boarded, this`boardedByShape,
        this`atStop, this`opaqueNow, this`railReadyAt, this`anchors, this`boardings
      ensures Valid() && Evaluating(w, c, now) && found == old(Here()) && past == old(past) + [Step(w, c, now)]
      ensures Retimed(old(legs), legs) && Kept(old(railReadyAt), railReadyAt)
      ensures old(anchors) <= anchors && old(boardings) <= boardings && Before(boardings, |past|)
    {
      clock, found := now, Here();
      Settle(w, now);
      Note(Step(w, c, now), old(boardings));
    }

    /** Unless the journey is over the rest of the plan is checked; either way the evaluation is on record. */
    method Conclude(w: World, c: Checks, now: Time) returns (done: bool)
      requires Valid() && Evaluating(w, c, now)
      modifies this`legs, this`legIdx, this`boarded, this`boardedByShape, this`atStop, this`opaqueNow, this`live,
        this`railReadyAt, this`events, this`anchors, this`lastTry, this`lastRR, this`tries, this`risk, this`rounds
      ensures Valid() && PlanFollows(now) && Looked(old(rounds), old(Here()))
      ensures done ==> legIdx == |legs|
    {
      ghost var here := Here();
      NothingFollows(Now(), now);
      done := legIdx >= |legs|;
      if !done { Check(w, c, now); }
      if |rounds| < |past| { Close(Round(found, here, 0)); }
    }

    /** One evaluation, at any cadence; true when the journey is over. */
    method Evaluate(w: World, c: Checks, now: Time) returns (done: bool)
      requires Valid() && Resting() && now >= clock
      modifies this
      ensures Valid() && Resting() && clock == now && PlanFollows(now)
      ensures past == old(past) + [Step(w, c, now)] && rounds[..|old(rounds)|] == old(rounds)
      ensures rounds[|past| - 1].found == old(Here())
      ensures done ==> legIdx == |legs|
    {
      Begin(w, c, now);
      ghost var mid := Now();
      MovedFollows(old(Now()), mid, now);
      done := Conclude(w, c, now);
      FollowsTwice(old(Now()), mid, Now(), now);
    }
  }

  /** Any run: whatever the evaluations see and however often they come, the promises hold for everything on record,
      and nothing leaves the record. */
  method Run(s: Session, steps: seq<Step>)
    requires s.Valid() && s.Resting() && forall i, j :: 0 <= i < j < |steps| ==> steps[i].now <= steps[j].now
    requires forall i :: 0 <= i < |steps| ==> s.clock <= steps[i].now
    modifies s
    ensures s.Valid() && s.Resting() && old(s.Past()).Grows(s.Past())
    ensures Paced(s.events) && KeepsVehicle(s.events) && Spaced(s.tries) && OnTime(s.boardings)
    ensures Fixed(s.anchors, |s.events|, s.railReadyAt)
    ensures old(s.past) <= s.past <= old(s.past) + steps && |s.rounds| == |s.past| && old(s.rounds) <= s.rounds
    ensures AllAttempted(s.events, s.tries) && AllJustified(s.lim, s.past, s.rounds, s.events, s.tries)
    ensures AllRounds(s.lim, s.ranking, s.past, s.rounds, s.events) && AllRides(s.past, s.rounds, s.boardings)
  {
    var done := false;
    for k := 0 to |steps|
      invariant s.Valid() && s.Resting() && forall i :: k <= i < |steps| ==> s.clock <= steps[i].now
      invariant old(s.Past()).Grows(s.Past()) && old(s.past) <= s.past <= old(s.past) + steps[..k]
      invariant old(s.rounds) <= s.rounds
      invariant !done ==> s.past == old(s.past) + steps[..k]
    {
      if !done {
        done := s.Evaluate(steps[k].w, steps[k].c, steps[k].now);
        assert old(s.past) + steps[..k] + [steps[k]] == old(s.past) + steps[..k + 1];
      }
    }
  }
}
