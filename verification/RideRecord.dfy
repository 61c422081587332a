/** Rides on the clock: which ones an evaluation boards, and that exactly these go on record. */
module RideRecords {
  import opened Words
  import opened SessionModel

  /** Is a rider found at leg `start`, on board or not, taken to be on board when leg j becomes current? Only if the leg
      before is a road ride that has vanished from the timetable, which is given up without getting off. */
  predicate AlreadyOn(legs: seq<Leg>, w: World, start: nat, on: bool, j: nat)
    decreases j
  {
    if j <= start then on
    else
      && j <= |legs| && legs[j - 1].transit && !w.resolves(j - 1) && !w.railLike(j - 1)
      && AlreadyOn(legs, w, start, on, j - 1)
  }

  /** Moving from leg `start`, the rider gets on board leg j on the clock: by now they are on it or beyond. */
  predicate Rode(legs: seq<Leg>, w: World, start: nat, on: bool, at: nat, boarded: bool, j: nat) {
    && start <= j < |legs| && (j < at || (j == at && boarded))
    && AssumedIn(legs, w, j) && !AlreadyOn(legs, w, start, on, j)
  }

  /** A boarding of leg j on the clock, by evaluation n at this moment. */
  predicate IsRide(legs: seq<Leg>, w: World, now: int, n: nat, b: Boarding, j: nat)
    requires j < |legs|
  {
    b.step == n && b.leg == j && b.now == now && b.dep == DepartureIn(legs, w, j)
  }

  ghost predicate Noted(legs: seq<Leg>, w: World, now: int, n: nat, bs: seq<Boarding>, j: nat)
    requires j < |legs|
  {
    exists k :: 0 <= k < |bs| && IsRide(legs, w, now, n, bs[k], j)
  }

  /** What evaluation n has on record are exactly the rides boarded on the clock, each with its departure. */
  ghost predicate Rides(legs: seq<Leg>, w: World, now: int, n: nat, start: nat, on: bool, at: nat, boarded: bool,
    bs: seq<Boarding>)
  {
    && (forall j: nat :: Rode(legs, w, start, on, at, boarded, j) ==> Noted(legs, w, now, n, bs, j))
    && forall k :: 0 <= k < |bs| && bs[k].step == n ==> RideOf(legs, w, now, n, start, on, at, boarded, bs[k])
  }

  ghost predicate RideOf(legs: seq<Leg>, w: World, now: int, n: nat, start: nat, on: bool, at: nat, boarded: bool,
    b: Boarding)
  {
    Rode(legs, w, start, on, at, boarded, b.leg) && IsRide(legs, w, now, n, b, b.leg)
  }

  /** All on record comes from evaluations before n. */
  ghost predicate Before(bs: seq<Boarding>, n: nat) { forall k :: 0 <= k < |bs| ==> bs[k].step < n }

  /** Nothing has moved, nothing is on record. */
  lemma NothingRode(legs: seq<Leg>, w: World, now: int, n: nat, start: nat, on: bool, bs: seq<Boarding>)
    requires Before(bs, n)
    ensures Rides(legs, w, now, n, start, on, start, on, bs)
  {
  }

  /** The same rides at other times of walks. */
  lemma RidesRetimed(a: seq<Leg>, b: seq<Leg>, w: World, now: int, n: nat, start: nat, on: bool, at: nat, boarded: bool,
      bs: seq<Boarding>)
    requires Retimed(a, b) && Rides(a, w, now, n, start, on, at, boarded, bs)
    ensures Rides(b, w, now, n, start, on, at, boarded, bs)
  {
    forall j: nat ensures Rode(b, w, start, on, at, boarded, j) == Rode(a, w, start, on, at, boarded, j) {
      OnRetimed(a, b, w, start, on, j);
    }
    forall j: nat | Rode(b, w, start, on, at, boarded, j) ensures Noted(b, w, now, n, bs, j) {
      assert Noted(a, w, now, n, bs, j);
      var k :| 0 <= k < |bs| && IsRide(a, w, now, n, bs[k], j);
      assert IsRide(b, w, now, n, bs[k], j);
    }
    forall k | 0 <= k < |bs| && bs[k].step == n ensures RideOf(b, w, now, n, start, on, at, boarded, bs[k]) {
      assert RideOf(a, w, now, n, start, on, at, boarded, bs[k]);
    }
  }

  lemma {:induction false} OnRetimed(a: seq<Leg>, b: seq<Leg>, w: World, start: nat, on: bool, j: nat)
    requires Retimed(a, b)
    ensures AlreadyOn(a, w, start, on, j) == AlreadyOn(b, w, start, on, j)
    decreases j
  {
    if j > start { OnRetimed(a, b, w, start, on, j - 1); }
  }

  lemma {:induction false} NeverOn(legs: seq<Leg>, w: World, start: nat, j: nat)
    ensures !AlreadyOn(legs, w, start, false, j)
    decreases j
  {
    if j > start { NeverOn(legs, w, start, j - 1); }
  }

  /** Walks that are skipped board nothing. */
  lemma SkippedWalks(legs: seq<Leg>, w: World, now: int, n: nat, start: nat, from: nat, at: nat, boarded: bool,
      bs: seq<Boarding>)
    requires start <= from && (forall j :: start <= j < from && j < |legs| ==> !legs[j].transit)
    requires Rides(legs, w, now, n, from, false, at, boarded, bs)
    ensures Rides(legs, w, now, n, start, false, at, boarded, bs)
  {
    forall j: nat ensures Rode(legs, w, start, false, at, boarded, j) == Rode(legs, w, from, false, at, boarded, j) {
      NeverOn(legs, w, start, j);
      NeverOn(legs, w, from, j);
    }
    forall k | 0 <= k < |bs| && bs[k].step == n ensures RideOf(legs, w, now, n, start, false, at, boarded, bs[k]) {
      assert RideOf(legs, w, now, n, from, false, at, boarded, bs[k]);
    }
  }

  /** The leg at `at` is boarded on the clock now. */
  predicate BoardsNow(legs: seq<Leg>, w: World, at: nat, was: bool, next: nat, boarded: bool) {
    AssumedIn(legs, w, at) && !was && (boarded || next > at)
  }

  /** One leg further: if it is boarded on the clock, that has gone on record. */
  lemma OneLeg(legs: seq<Leg>, w: World, now: int, n: nat, start: nat, on: bool, at: nat, was: bool, next: nat,
      boarded: bool, bs: seq<Boarding>, more: seq<Boarding>)
    requires start <= at < |legs| && Rides(legs, w, now, n, start, on, at, was, bs)
    requires was <==> AlreadyOn(legs, w, start, on, at)
    requires next == at || next == at + 1
    requires next > at && boarded && AssumedIn(legs, w, next) ==> AlreadyOn(legs, w, start, on, next)
    requires bs <= more && |more| == |bs| + if BoardsNow(legs, w, at, was, next, boarded) then 1 else 0
    requires BoardsNow(legs, w, at, was, next, boarded) ==> IsRide(legs, w, now, n, more[|bs|], at)
    ensures Rides(legs, w, now, n, start, on, next, boarded, more)
  {
    forall j: nat | Rode(legs, w, start, on, next, boarded, j) ensures Noted(legs, w, now, n, more, j) {
      if j == at {
        assert IsRide(legs, w, now, n, more[|bs|], j);
      } else {
        assert Rode(legs, w, start, on, at, was, j) && Noted(legs, w, now, n, bs, j);
        var k :| 0 <= k < |bs| && IsRide(legs, w, now, n, bs[k], j);
        assert IsRide(legs, w, now, n, more[k], j);
      }
    }
    forall k | 0 <= k < |more| && more[k].step == n
      ensures RideOf(legs, w, now, n, start, on, next, boarded, more[k])
    {
      if k < |bs| { assert RideOf(legs, w, now, n, start, on, at, was, bs[k]); }
    }
  }

  /** What was on record stays, and what is new is evaluation n's. */
  ghost predicate NewOnly(before: seq<Boarding>, after: seq<Boarding>, n: nat) {
    before <= after && forall k :: |before| <= k < |after| ==> after[k].step == n
  }

  // ---- the rides of all evaluations -----------------------------------------------------------------------------

  /** Evaluation i, which found the rider at one place and left them at another of the same plan, has exactly the rides
      boarded on the clock in between on record. */
  ghost predicate RoundRides(s: Step, r: Round, i: nat, bs: seq<Boarding>) {
    && Retimed(r.found.legs, r.place.legs)
    && Rides(r.place.legs, s.w, s.now, i, r.found.at, r.found.boarded, r.place.at, r.place.boarded, bs)
  }

  ghost predicate AllRides(past: seq<Step>, rounds: seq<Round>, bs: seq<Boarding>)
    requires |rounds| <= |past|
  {
    forall i: nat :: i < |rounds| ==> RidesAt(past, rounds, bs, i)
  }

  ghost predicate RidesAt(past: seq<Step>, rounds: seq<Round>, bs: seq<Boarding>, i: nat)
    requires i < |rounds| <= |past|
  {
    RoundRides(past[i], rounds[i], i, bs)
  }

  lemma RidesMore(past: seq<Step>, rounds: seq<Round>, r: Round, bs: seq<Boarding>)
    requires |rounds| < |past| && AllRides(past, rounds, bs) && RoundRides(past[|rounds|], r, |rounds|, bs)
    ensures AllRides(past, rounds + [r], bs)
  {
    var rounds' := rounds + [r];
    forall i: nat | i < |rounds'| ensures RidesAt(past, rounds', bs, i) {
      if i < |rounds| { assert RidesAt(past, rounds, bs, i); }
    }
  }

  /** What evaluation n boards does not touch the rides of the others. */
  lemma RidesStill(past: seq<Step>, rounds: seq<Round>, before: seq<Boarding>, after: seq<Boarding>, past': seq<Step>)
    requires |rounds| <= |past| && past <= past' && AllRides(past, rounds, before) && NewOnly(before, after, |rounds|)
    ensures AllRides(past', rounds, after)
  {
    forall i: nat | i < |rounds| ensures RidesAt(past', rounds, after, i) {
      assert RidesAt(past, rounds, before, i);
      OneStill(past[i], rounds[i], i, before, after, |rounds|);
    }
  }

  lemma OneStill(s: Step, r: Round, i: nat, before: seq<Boarding>, after: seq<Boarding>, n: nat)
    requires RoundRides(s, r, i, before) && NewOnly(before, after, n) && i != n
    ensures RoundRides(s, r, i, after)
  {
    var legs := r.place.legs;
    forall j: nat | Rode(legs, s.w, r.found.at, r.found.boarded, r.place.at, r.place.boarded, j)
      ensures Noted(legs, s.w, s.now, i, after, j)
    {
      assert Noted(legs, s.w, s.now, i, before, j);
      var k :| 0 <= k < |before| && IsRide(legs, s.w, s.now, i, before[k], j);
      assert IsRide(legs, s.w, s.now, i, after[k], j);
    }
    forall k | 0 <= k < |after| && after[k].step == i
      ensures RideOf(legs, s.w, s.now, i, r.found.at, r.found.boarded, r.place.at, r.place.boarded, after[k])
    {
      assert before[k].step == i;
    }
  }
}
