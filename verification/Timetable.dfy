/** The compiled timetable: flat CSR arrays read through an optional realtime overlay. */
module Transit {
  import opened Words

  /** Realtime state projected on the timetable; `tripOff[t] < 0` means no data for trip t. */
  datatype Overlay = Overlay(
    tripOff: seq<int>,
    skip: seq<bool>,
    arrDelta: seq<int>,
    depDelta: seq<int>,
    stopSkip: seq<bool>)
  {
    /** The flattened index of (trip, pos), or -1. */
    function RtIdx(trip: nat, pos: nat): int {
      if trip >= |tripOff| || tripOff[trip] < 0 then -1 else tripOff[trip] + pos
    }
  }

  datatype Timetable = Timetable(
    numStops: nat,
    patFirstStop: seq<nat>,
    patStops: seq<nat>,
    patFirstTrip: seq<nat>,
    patRoute: seq<int>,
    tripService: seq<nat>,
    tripTimeOff: seq<nat>,
    arr: seq<nat>,
    dep: seq<nat>,
    stopFirstPat: seq<nat>,
    stopPat: seq<nat>,
    stopPatPos: seq<nat>,
    xferFirst: seq<nat>,
    xferTo: seq<nat>,
    xferDs: seq<nat>,
    routeRail: seq<bool>,     // does routes[i] run in a rail environment
    rt: Option<Overlay>)
  {
    function NumPatterns(): nat { |patRoute| }

    function NumTrips(): nat { |tripService| }

    /** The number of stops of pattern p. */
    function PatLen(p: nat): nat {
      if p < NumPatterns() && p + 1 < |patFirstStop| && patFirstStop[p] <= patFirstStop[p + 1] <= |patStops|
      then patFirstStop[p + 1] - patFirstStop[p] else 0
    }

    function Stop(p: nat, pos: nat): nat
      requires pos < PatLen(p)
    {
      patStops[patFirstStop[p] + pos]
    }

    /** Trips are grouped by pattern. */
    predicate TripIn(p: nat, t: nat) {
      p < NumPatterns() && p + 1 < |patFirstTrip| && patFirstTrip[p] <= t < patFirstTrip[p + 1] && t < NumTrips()
    }

    /** The stop times of (t, pos), scheduled and live, can be read. */
    predicate HasTime(t: nat, pos: nat) {
      && t < |tripTimeOff| && tripTimeOff[t] + pos < |arr| && |arr| == |dep|
      && (rt.Some? ==>
            && |rt.value.depDelta| == |rt.value.arrDelta| == |rt.value.stopSkip|
            && rt.value.RtIdx(t, pos) < |rt.value.arrDelta|)
    }

    predicate XferIn(s: nat, x: nat) {
      s + 1 < |xferFirst| && xferFirst[s] <= x < xferFirst[s + 1] && x < |xferTo| == |xferDs|
    }

    predicate PatIn(s: nat, i: nat) {
      s + 1 < |stopFirstPat| && stopFirstPat[s] <= i < stopFirstPat[s + 1] && i < |stopPat| == |stopPatPos|
    }

    /** Entry i of stop s in the adjacency is position pos of pattern p. */
    predicate Entry(s: nat, i: nat, p: nat, pos: nat) {
      PatIn(s, i) && stopPat[i] == p && stopPatPos[i] == pos && pos < PatLen(p) && Stop(p, pos) == s
    }

    /** Arrival of trip t at pos, through the overlay. */
    function TripArr(t: nat, pos: nat): nat
      requires HasTime(t, pos)
    {
      var v := arr[tripTimeOff[t] + pos];
      if rt.Some? && rt.value.RtIdx(t, pos) >= 0 then AddDelta(v, rt.value.arrDelta[rt.value.RtIdx(t, pos)]) else v
    }

    function TripDep(t: nat, pos: nat): nat
      requires HasTime(t, pos)
    {
      var v := dep[tripTimeOff[t] + pos];
      if rt.Some? && rt.value.RtIdx(t, pos) >= 0 then AddDelta(v, rt.value.depDelta[rt.value.RtIdx(t, pos)]) else v
    }

    predicate TripSkipped(t: nat) {
      rt.Some? && t < |rt.value.skip| && rt.value.skip[t]
    }

    predicate StopSkipped(t: nat, pos: nat)
      requires HasTime(t, pos)
    {
      rt.Some? && rt.value.RtIdx(t, pos) >= 0 && rt.value.stopSkip[rt.value.RtIdx(t, pos)]
    }

    predicate PatternRailLike(p: nat)
      requires p < NumPatterns()
    {
      0 <= patRoute[p] < |routeRail| && routeRail[patRoute[p]]
    }

    /** The trips of pattern i come before those of pattern j. */
    ghost predicate TripGroups(i: nat, j: nat) {
      i <= j < |patFirstTrip| ==> patFirstTrip[i] <= patFirstTrip[j]
    }

    /** Pattern p stops at a known stop, whose adjacency lists that position. */
    ghost predicate PositionOk(p: nat, pos: nat) {
      pos < PatLen(p) ==> PatLen(p) < TWO_16 && Stop(p, pos) < numStops && exists i: nat ::
        Entry(Stop(p, pos), i, p, pos)
    }

    /** Trips are as long as their pattern, in the schedule and in the overlay. */
    ghost predicate TimesOk(p: nat, t: nat, pos: nat) {
      TripIn(p, t) && pos < PatLen(p) ==> HasTime(t, pos)
    }

    ghost predicate StopOk(s: nat) {
      s + 1 < |stopFirstPat| == |xferFirst| ==>
        stopFirstPat[s] <= stopFirstPat[s + 1] <= |stopPat| && xferFirst[s] <= xferFirst[s + 1] <= |xferTo|
    }

    ghost predicate XferOk(s: nat, x: nat) {
      XferIn(s, x) ==> xferTo[x] < numStops && xferDs[x] < TWO_16
    }

    /** The adjacency lists nothing but pattern positions. */
    ghost predicate EntryOk(s: nat, i: nat) {
      PatIn(s, i) ==> Entry(s, i, stopPat[i], stopPatPos[i])
    }

    /** Offsets slice their arrays, trips are as long as their pattern, and the stop adjacency lists
        exactly the pattern positions. */
    ghost predicate Valid() {
      && |patFirstStop| == |patFirstTrip| == NumPatterns() + 1
      && patFirstTrip[0] == 0 && patFirstTrip[NumPatterns()] == NumTrips()
      && |stopFirstPat| == |xferFirst| == numStops + 1
      && |stopPatPos| == |stopPat| && |xferDs| == |xferTo|
      && (forall i: nat, j: nat :: TripGroups(i, j))
      && (forall p: nat, pos: nat :: PositionOk(p, pos))
      && (forall p: nat, t: nat, pos: nat :: TimesOk(p, t, pos))
      && (forall s: nat :: StopOk(s))
      && (forall s: nat, x: nat :: XferOk(s, x))
      && (forall s: nat, i: nat :: EntryOk(s, i))
    }

    /** A trip belongs to one pattern only. */
    lemma OnePattern(p: nat, p': nat, t: nat)
      requires Valid() && TripIn(p, t) && TripIn(p', t)
      ensures p == p'
    {
      assert TripGroups(p + 1, p') && TripGroups(p' + 1, p);
    }

    /** Binary search for the pattern owning a trip. */
    method PatternOfTrip(t: nat) returns (p: nat)
      requires Valid() && t < NumTrips()
      ensures p < NumPatterns() && TripIn(p, t)
    {
      var lo, hi := 0, |patFirstTrip| - 1;
      while lo < hi - 1
        invariant 0 <= lo < hi <= NumPatterns()
        invariant patFirstTrip[lo] <= t < patFirstTrip[hi]
      {
        var mid := (lo + hi) / 2;
        if patFirstTrip[mid] <= t {
          lo := mid;
        } else {
          hi := mid;
        }
      }
      p := lo;
    }
  }

  /** A realtime delta applied to a scheduled time: clamped at 0, truncated to 32 bits. */
  function AddDelta(v: nat, d: int): nat {
    if v + d < 0 then 0 else ToU32(v + d)
  }

  /** Deciseconds to seconds, rounded to nearest. */
  function XferSec(ds: nat): nat {
    ds / 10 + (ds % 10) / 5
  }
}
