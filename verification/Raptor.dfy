/** Round-based earliest-arrival search over the timetable, with state reused between queries. */
module RaptorSearch {
  import opened Words
  import opened Transit
  import opened RaptorLabels
  import opened RaptorOptimal
  import opened Reversing
  import opened RaptorRounds
  import opened RaptorJourneys

  class Raptor {
    const tt: Timetable

    var tauBest: seq<nat>
    var rows: seq<Row>
    var marked: seq<bool>
    var markList: seq<nat>
    var patMin: seq<int>
    var patList: seq<nat>
    var sourceRail: seq<bool>
    var sourceRailArr: seq<nat>

    /** Allocates the per-query state for one timetable. */
    constructor (tt: Timetable)
      requires tt.Valid()
      ensures Valid() && this.tt == tt
    {
      this.tt := tt;
      tauBest := seq(tt.numStops, _ => 0);
      rows := [];
      marked := seq(tt.numStops, _ => false);
      markList := [];
      patMin := seq(tt.NumPatterns(), _ => -1);
      patList := [];
      sourceRail := seq(tt.numStops, _ => false);
      sourceRailArr := seq(tt.numStops, _ => 0);
    }

    ghost predicate Shaped()
      reads this
    {
      && tt.Valid()
      && |tauBest| == |marked| == |sourceRail| == |sourceRailArr| == tt.numStops
      && |patMin| == tt.NumPatterns()
      && forall k :: 0 <= k < |rows| ==> |rows[k]| == tt.numStops
    }

    /** Between queries nothing is marked or queued; the labels of old queries may still be there. */
    ghost predicate Valid()
      reads this
    {
      && Shaped()
      && markList == []
      && (forall s :: 0 <= s < tt.numStops ==> !marked[s])
      && forall p :: 0 <= p < tt.NumPatterns() ==> patMin[p] == -1
    }

    /** The labels of round k so far are true, no later than round k - 1, and what changed is marked. */
    ghost predicate InRound(q: Query, k: nat)
      reads this
    {
      && Shaped() && q.Valid(tt)
      && 1 <= k < |rows|
      && RowOk(tt, q, rows[0], rows[k - 1], rows[k])
      && Improves(rows[0], rows[k - 1]) && Improves(rows[k - 1], rows[k])
      && SeedsCover(q, rows[0])
      && (forall s :: 0 <= s < tt.numStops ==> tauBest[s] == rows[k][s].tau)
      && MarksOk(marked, markList)
      && (forall s :: 0 <= s < tt.numStops && rows[k][s] != rows[k - 1][s] ==> marked[s])
      && (forall s :: 0 <= s < tt.numStops && sourceRail[s] ==>
        exists i :: 0 <= i < |q.sources| && q.sources[i].priorRail)
      && (forall s :: 0 <= s < tt.numStops ==> sourceRailArr[s] < TWO_32)
    }

    /** While patterns are scanned, every marked stop was improved by a ride of this round. */
    ghost predicate Scanning(q: Query, k: nat)
      reads this
    {
      && InRound(q, k)
      && RowOk(tt, q, rows[0], if k >= 2 then rows[k - 2] else [], rows[k - 1])
      && forall s :: 0 <= s < tt.numStops && marked[s] ==> rows[k][s].kind == Ride
    }

    /** Every ride label that round k has written was boarded with its allowances. */
    ghost predicate InTime(q: Query, k: nat)
      requires Shaped() && 1 <= k < |rows|
      reads this
    {
      NewRidesInTime(tt, q, rows[k - 1], rows[k], sourceRail, sourceRailArr)
    }

    /** So was the trip held by a pattern scan. */
    ghost predicate HeldInTime(q: Query, k: nat, p: nat, day: int, trip: int, boardPos: nat, boardStop: nat)
      requires Shaped() && 1 <= k < |rows|
      reads this
    {
      trip >= 0 ==> BoardedInTime(tt, q, rows[k - 1], sourceRail, sourceRailArr, p, trip, boardPos, boardStop, day)
    }

    method Mark(s: nat)
      requires Shaped() && s < tt.numStops && MarksOk(marked, markList)
      modifies this`marked, this`markList
      ensures MarksOk(marked, markList)
      ensures marked == old(marked)[s := true]
      ensures old(markList) <= markList
      ensures markList == if old(marked)[s] then old(markList) else old(markList) + [s]
    {
      if !marked[s] {
        marked := marked[s := true];
        markList := markList + [s];
        assert forall s' :: 0 <= s' < |marked| && marked[s'] ==> s' == s || old(marked)[s'];
      }
    }

    /** Replaces the label of s in round k by a strictly earlier true one. */
    method WriteLabel(q: Query, k: nat, s: nat, l: Label)
      requires InRound(q, k) && s < tt.numStops
      requires l.tau < rows[k][s].tau
      requires RowOk(tt, q, rows[0], rows[k - 1], rows[k][s := l])
      modifies this`rows, this`tauBest, this`marked, this`markList
      ensures InRound(q, k)
      ensures rows == old(rows)[k := old(rows)[k][s := l]]
      ensures marked == old(marked)[s := true]
      ensures markList == if old(marked)[s] then old(markList) else old(markList) + [s]
    {
      rows := rows[k := rows[k][s := l]];
      tauBest := tauBest[s := l.tau];
      Mark(s);
    }

    /** Relaxes the held trip's arrival at position pos. */
    method Alight(q: Query, k: nat, p: nat, pos: nat, day: int, btUB: nat, trip: int, boardPos: nat, boardStop: nat)
      requires Scanning(q, k) && InTime(q, k)
      requires pos < tt.PatLen(p) && HeldInTime(q, k, p, day, trip, boardPos, boardStop)
      requires Held(tt, q, p, day, rows[k - 1], trip, boardPos, boardStop, pos)
      requires RideCovered(tt, p, day, rows[k], trip, boardPos, pos, btUB)
      modifies this`rows, this`tauBest, this`marked, this`markList
      ensures Scanning(q, k) && InTime(q, k)
      ensures |rows| == |old(rows)| && rows == old(rows)[k := rows[k]]
      ensures Improves(old(rows)[k], rows[k])
      ensures forall s :: 0 <= s < tt.numStops && old(marked)[s] ==> marked[s]
      ensures RideCovered(tt, p, day, rows[k], trip, boardPos, pos + 1, btUB)
    {
      var s := tt.Stop(p, pos);
      assert tt.PositionOk(p, pos);
      assert LabelOk(tt, q, rows[0], rows[k - 1], rows[k], s);
      if trip >= 0 {
        assert tt.TimesOk(p, trip, pos);
        if !tt.StopSkipped(trip, pos) {
          var arr := AddDay(tt.TripArr(trip, pos), day);
          if arr < tauBest[s] && arr < btUB {
            var l := Label(arr, Ride, trip, boardPos, boardStop, day);
            FirstVisit(q, k, p, pos, day, btUB, trip, boardPos, boardStop, l);
            WriteRide(tt, q, rows[0], rows[k - 1], rows[k], s, l, p, pos);
            WriteInTime(tt, q, rows[k - 1], rows[k], sourceRail, sourceRailArr, s, l, p);
            WriteLabel(q, k, s, l);
          }
        }
      }
      StillCovered(p, pos, day, btUB, trip, boardPos, old(rows)[k], rows[k]);
    }

    lemma StillCovered(p: nat, pos: nat, day: int, ub: nat, trip: int, boardPos: nat, before: Row, row: Row)
      requires pos < tt.PatLen(p) && |row| == tt.numStops
      requires Improves(before, row)
      requires RideCovered(tt, p, day, before, trip, boardPos, pos, ub)
      requires trip >= 0 && At(tt, p, trip, pos) && !tt.StopSkipped(trip, pos) && 0 <= Arr(tt, p, trip, pos, day) ==>
        Covered(row, tt.Stop(p, pos), Arr(tt, p, trip, pos, day), ub)
      ensures RideCovered(tt, p, day, row, trip, boardPos, pos + 1, ub)
    {
    }

    /** A label written at pos names a true ride; its stop was not passed earlier on the same ride. */
    lemma FirstVisit(q: Query, k: nat, p: nat, pos: nat, day: int, btUB: nat, trip: int, boardPos: nat, boardStop: nat,
        l: Label)
      requires Scanning(q, k)
      requires pos < tt.PatLen(p) && trip >= 0
      requires Held(tt, q, p, day, rows[k - 1], trip, boardPos, boardStop, pos)
      requires RideCovered(tt, p, day, rows[k], trip, boardPos, pos, btUB)
      requires At(tt, p, trip, pos) && !tt.StopSkipped(trip, pos)
      requires l == Label(AddDay(tt.TripArr(trip, pos), day), Ride, trip, boardPos, boardStop, day)
      requires l.tau < rows[k][tt.Stop(p, pos)].tau <= INF && l.tau < btUB
      ensures RideLabel(tt, q, rows[k - 1], l, tt.Stop(p, pos), p, pos)
    {
      var s := tt.Stop(p, pos);
      assert RideAt(tt, q, p, trip, boardPos, pos, day);
    }

    /** Waits on at s until a train may be boarded. */
    method RailWait(q: Query, row: Row, s: nat, prior: Option<(nat, nat)>, wait0: nat) returns (wait: nat)
      requires Shaped() && s < |row| == tt.numStops && prior == PriorRide(row, s) &&
        (prior.Some? ==> prior.value.0 < tt.NumTrips())
      ensures var ready := RailReady(tt, q, row, sourceRail, sourceRailArr, s);
        row[s].tau + wait == if ready <= row[s].tau + wait0 then row[s].tau + wait0 else ready
    {
      wait := wait0;
      var tau := row[s].tau;
      var src := PriorRailSource(row, sourceRail, sourceRailArr, s);
      if src.Some? {
        var ready := ChangeReady(src.value, q.railTransferSec);
        if ready > tau && ready - tau > wait { wait := ready - tau; }
      } else {
        var priorRail := false;
        if prior.Some? {
          var p := tt.PatternOfTrip(prior.value.0);
          priorRail := tt.PatternRailLike(p);
          forall p' | tt.TripIn(p', prior.value.0) ensures p' == p { tt.OnePattern(p, p', prior.value.0); }
        }
        if priorRail {
          var ready := ChangeReady(prior.value.1, q.railTransferSec);
          if ready > tau && ready - tau > wait { wait := ready - tau; }
        } else if q.railEntrySec > wait {
          wait := q.railEntrySec;
        }
      }
    }

    /** The trips that labels name are real, and a label is no earlier than the ride it follows. */
    lemma PriorIsTrip(q: Query, row0: Row, before: Row, row: Row, s: nat)
      requires RowOk(tt, q, row0, before, row) && s < tt.numStops
      ensures PriorRide(row, s).Some? ==>
        PriorRide(row, s).value.0 < tt.NumTrips() && PriorRide(row, s).value.1 <= row[s].tau < INF
    {
      assert LabelOk(tt, q, row0, before, row, s);
      if row[s].kind == Xfer { assert LabelOk(tt, q, row0, before, row, row[s].from); }
    }

    /** When the rider is ready to board at s, buffers included. */
    method ReadyAt(q: Query, k: nat, s: nat, railPattern: bool) returns (rt: nat)
      requires Shaped() && q.Valid(tt) && 1 <= k < |rows| && s < tt.numStops
      requires RowOk(tt, q, rows[0], if k >= 2 then rows[k - 2] else [], rows[k - 1])
      requires rows[k - 1][s].tau < INF
      ensures rows[k - 1][s].tau <= rt
      ensures FirstAllowed(tt, q, rows[k - 1], sourceRail, sourceRailArr, s, railPattern, rt)
      ensures var noBuffers := q.slackSec == q.railEntrySec == q.railTransferSec == 0;
        noBuffers && (forall s :: 0 <= s < tt.numStops ==> !sourceRail[s]) ==> rt == rows[k - 1][s].tau
    {
      var row := rows[k - 1];
      PriorIsTrip(q, rows[0], if k >= 2 then rows[k - 2] else [], row, s);
      var tau := row[s].tau;
      var wait := 0;
      var prior := PriorRide(row, s);
      if prior.Some? && (!railPattern || row[s].kind == Ride) {
        wait := q.slackSec;
      }
      if railPattern { wait := RailWait(q, row, s, prior, wait); }
      rt := if wait >= INF - tau then INF else tau + wait;
    }

    /** The earliest boardable trip leaving pos at or after rt, or an earlier one than the trip held. */
    method CatchTrip(q: Query, p: nat, pos: nat, day: int, rt: nat, trip: int) returns (trip': int, caught: bool)
      requires tt.Valid() && pos < tt.PatLen(p)
      requires trip >= 0 ==> tt.TripIn(p, trip) && Usable(tt, q, day, trip)
      ensures caught ==> trip' >= 0 && Boards(tt, q, p, trip', pos, day, rt)
      ensures !caught ==> trip' == trip
      ensures trip >= 0 ==> 0 <= trip' <= trip
      ensures NoOvertaking(tt, q) ==> forall t: nat :: Boards(tt, q, p, t, pos, day, rt) ==> 0 <= trip' <= t
    {
      trip', caught := trip, false;
      assert tt.PositionOk(p, pos) && tt.TripGroups(p, p + 1);
      var tLo, tHi := tt.patFirstTrip[p], tt.patFirstTrip[p + 1];
      if trip < 0 {
        var t := tLo;
        while t < tHi
          invariant tLo <= t <= tHi && trip' == trip && !caught
          invariant forall t': nat :: tLo <= t' < t ==> !Boards(tt, q, p, t', pos, day, rt)
        {
          assert tt.TripGroups(p + 1, tt.NumPatterns()) && tt.TimesOk(p, t, pos);
          if Usable(tt, q, day, t) && !tt.StopSkipped(t, pos) && tt.TripDep(t, pos) + day >= rt {
            trip', caught := t, true;
            break;
          }
          t := t + 1;
        }
      } else {
        var t: int := trip - 1;
        while t >= tLo
          invariant tLo - 1 <= t < trip' <= trip
          invariant !caught ==> trip' == trip
          invariant caught ==> Boards(tt, q, p, trip', pos, day, rt)
          invariant forall t': nat | t < t' < trip' && At(tt, p, t', pos) ::
            !(Usable(tt, q, day, t') && !tt.StopSkipped(t', pos))
        {
          assert tt.TimesOk(p, t, pos);
          if Usable(tt, q, day, t) && !tt.StopSkipped(t, pos) {
            if tt.TripDep(t, pos) + day >= rt {
              trip', caught := t, true;
            } else {
              break;
            }
          }
          t := t - 1;
        }
        if NoOvertaking(tt, q) && t >= tLo {
          forall t'': nat | t'' <= t ensures !Boards(tt, q, p, t'', pos, day, rt) {
            NothingEarlier(q, p, pos, day, rt, t'', t);
          }
        }
      }
    }

    /** Without overtaking, once a usable trip has left, so have all the trips before it. */
    lemma NothingEarlier(q: Query, p: nat, pos: nat, day: int, rt: nat, t: nat, t': nat)
      requires NoOvertaking(tt, q)
      requires t <= t' && At(tt, p, t', pos) && Usable(tt, q, day, t') && Dep(tt, p, t', pos, day) < rt
      ensures !Boards(tt, q, p, t, pos, day, rt)
    {
    }

    /** One position of a pattern scan: alight from the held trip, then board or catch an earlier one. */
    method ScanPosition(q: Query, k: nat, p: nat, startPos: nat, pos: nat, day: int, btUB: nat, railPattern: bool,
                        trip: int, boardPos: nat, boardStop: nat)
      returns (trip': int, boardPos': nat, boardStop': nat)
      requires Scanning(q, k) && InTime(q, k)
      requires p < tt.NumPatterns() && startPos <= pos < tt.PatLen(p)
      requires Held(tt, q, p, day, rows[k - 1], trip, boardPos, boardStop, pos)
      requires RideCovered(tt, p, day, rows[k], trip, boardPos, pos, btUB)
      requires HeldInTime(q, k, p, day, trip, boardPos, boardStop) && railPattern == tt.PatternRailLike(p)
      requires Ideal(tt, q) ==> EarliestHeld(tt, q, p, day, rows[k - 1], trip, startPos, pos)
      requires Ideal(tt, q) ==> ScannedTo(tt, q, p, day, startPos, pos, rows[k - 1], rows[k], btUB)
      modifies this`rows, this`tauBest, this`marked, this`markList
      ensures Scanning(q, k) && InTime(q, k)
      ensures |rows| == |old(rows)| && rows == old(rows)[k := rows[k]]
      ensures Improves(old(rows)[k], rows[k])
      ensures forall s :: 0 <= s < tt.numStops && old(marked)[s] ==> marked[s]
      ensures Held(tt, q, p, day, rows[k - 1], trip', boardPos', boardStop', pos + 1)
      ensures RideCovered(tt, p, day, rows[k], trip', boardPos', pos + 1, btUB)
      ensures HeldInTime(q, k, p, day, trip', boardPos', boardStop')
      ensures Ideal(tt, q) ==> EarliestHeld(tt, q, p, day, rows[k - 1], trip', startPos, pos + 1)
      ensures Ideal(tt, q) ==> ScannedTo(tt, q, p, day, startPos, pos + 1, rows[k - 1], rows[k], btUB)
    {
      trip', boardPos', boardStop' := trip, boardPos, boardStop;
      var s := tt.Stop(p, pos);
      assert tt.PositionOk(p, pos);
      Alight(q, k, p, pos, day, btUB, trip, boardPos, boardStop);
      if Ideal(tt, q) {
        ScannedMono(q, p, day, startPos, pos, rows[k - 1], old(rows)[k], rows[k], btUB);
        assert trip >= 0 ==> tt.TimesOk(p, trip, pos) && At(tt, p, trip, pos);
        ScanStep(tt, q, p, day, startPos, pos, rows[k - 1], rows[k], btUB, trip, boardPos, boardStop);
      }
      if rows[k - 1][s].tau < INF {
        var rt := ReadyAt(q, k, s, railPattern);
        var caught;
        trip', caught := CatchTrip(q, p, pos, day, rt, trip);
        if Ideal(tt, q) {
          KeepEarliest(q, p, day, rows[k - 1], trip, trip', startPos, pos, rt);
        }
        if caught {
          CaughtInTime(tt, q, rows[k - 1], sourceRail, sourceRailArr, p, trip', pos, day, rt);
          boardPos', boardStop' := pos, s;
        }
      } else if Ideal(tt, q) {
        assert EarliestHeld(tt, q, p, day, rows[k - 1], trip, startPos, pos + 1);
      }
    }

    /** Relaxes one pattern for one service-day layer, from its earliest marked position. */
    method ScanPattern(q: Query, k: nat, p: nat, startPos: nat, day: int, btUB: nat)
      requires Scanning(q, k) && InTime(q, k)
      requires p < tt.NumPatterns()
      modifies this`rows, this`tauBest, this`marked, this`markList
      ensures Scanning(q, k) && InTime(q, k)
      ensures |rows| == |old(rows)| && rows == old(rows)[k := rows[k]]
      ensures Improves(old(rows)[k], rows[k])
      ensures forall s :: 0 <= s < tt.numStops && old(marked)[s] ==> marked[s]
      ensures Ideal(tt, q) ==> PatternClosed(tt, q, p, day, startPos, rows[k - 1], rows[k], btUB)
    {
      var railPattern := tt.PatternRailLike(p);
      var trip: int := -1;
      var boardPos: nat, boardStop: nat := 0, 0;
      var pos := startPos;
      while pos < tt.PatLen(p)
        invariant Scanning(q, k) && InTime(q, k) && HeldInTime(q, k, p, day, trip, boardPos, boardStop)
        invariant startPos <= pos
        invariant |rows| == |old(rows)| && rows == old(rows)[k := rows[k]]
        invariant Improves(old(rows)[k], rows[k])
        invariant forall s :: 0 <= s < tt.numStops && old(marked)[s] ==> marked[s]
        invariant Held(tt, q, p, day, rows[k - 1], trip, boardPos, boardStop, pos)
        invariant RideCovered(tt, p, day, rows[k], trip, boardPos, pos, btUB)
        invariant Ideal(tt, q) ==> EarliestHeld(tt, q, p, day, rows[k - 1], trip, startPos, pos)
        invariant Ideal(tt, q) ==> ScannedTo(tt, q, p, day, startPos, pos, rows[k - 1], rows[k], btUB)
      {
        trip, boardPos, boardStop := ScanPosition(q, k, p, startPos, pos, day, btUB, railPattern, trip, boardPos,
          boardStop);
        pos := pos + 1;
      }
    }

    lemma ScannedMono(q: Query, p: nat, day: int, start: nat, pos: nat, prev: Row, before: Row, row: Row, ub: nat)
      requires |prev| == |row| == tt.numStops && Improves(before, row)
      requires ScannedTo(tt, q, p, day, start, pos, prev, before, ub)
      ensures ScannedTo(tt, q, p, day, start, pos, prev, row, ub)
    {
      forall t, i: nat, j: nat | start <= i && j < pos && RideAt(tt, q, p, t, i, j, day) &&
        Catches(tt, prev, p, t, i, day)
        ensures Covered(row, tt.Stop(p, j), Arr(tt, p, t, j, day), ub)
      {
        assert Covered(before, tt.Stop(p, j), Arr(tt, p, t, j, day), ub);
      }
    }

    lemma KeepEarliest(q: Query, p: nat, day: int, prev: Row, trip: int, trip': int, start: nat, pos: nat, rt: nat)
      requires |prev| == tt.numStops && pos < tt.PatLen(p) && tt.Stop(p, pos) < tt.numStops
      requires EarliestHeld(tt, q, p, day, prev, trip, start, pos)
      requires trip >= 0 ==> 0 <= trip' <= trip
      requires rt == prev[tt.Stop(p, pos)].tau
      requires forall t: nat :: Boards(tt, q, p, t, pos, day, rt) ==> 0 <= trip' <= t
      ensures EarliestHeld(tt, q, p, day, prev, trip', start, pos + 1)
    {
      forall t, i | start <= i < pos + 1 && At(tt, p, t, i) && Usable(tt, q, day, t) && !tt.StopSkipped(t, i)
        && Catches(tt, prev, p, t, i, day)
        ensures 0 <= trip' <= t
      {
        if i < pos {
          assert 0 <= trip <= t;
        } else {
          assert Boards(tt, q, p, t, pos, day, rt);
        }
      }
    }

    // ---- one round ------------------------------------------------------------------

    /** Queues the patterns serving stop s. */
    method QueueStop(s: nat)
      requires Shaped() && s < tt.numStops && QueueOk(tt, patMin, patList)
      modifies this`patMin, this`patList
      ensures Shaped() && QueueOk(tt, patMin, patList)
      ensures Earlier(old(patMin), patMin)
      ensures forall i: nat, p: nat, pos: nat :: tt.Entry(s, i, p, pos) ==> 0 <= patMin[p] <= pos
    {
      assert tt.StopOk(s);
      var i := tt.stopFirstPat[s];
      while i < tt.stopFirstPat[s + 1]
        invariant Shaped() && tt.stopFirstPat[s] <= i <= tt.stopFirstPat[s + 1] <= |tt.stopPat|
        invariant QueueOk(tt, patMin, patList)
        invariant Earlier(old(patMin), patMin)
        invariant forall i': nat, p: nat, pos: nat :: i' < i && tt.Entry(s, i', p, pos) ==> 0 <= patMin[p] <= pos
      {
        var p, pos := tt.stopPat[i], tt.stopPatPos[i];
        assert tt.EntryOk(s, i) && tt.Entry(s, i, p, pos);
        if patMin[p] == -1 {
          patMin := patMin[p := pos];
          patList := patList + [p];
        } else if pos < patMin[p] {
          patMin := patMin[p := pos];
        }
        i := i + 1;
      }
    }

    /** Queues the patterns serving the marked stops, each with its earliest such position. */
    method Queue()
      requires Shaped() && MarksOk(marked, markList)
      requires forall p :: 0 <= p < tt.NumPatterns() ==> patMin[p] == -1
      modifies this`marked, this`markList, this`patMin, this`patList
      ensures Shaped() && markList == [] && forall s :: 0 <= s < tt.numStops ==> !marked[s]
      ensures QueueOk(tt, patMin, patList)
      ensures forall p: nat, pos: nat :: Serves(tt, p, pos, old(marked)) ==> 0 <= patMin[p] <= pos
    {
      patList := [];
      var m := 0;
      while m < |markList|
        invariant Shaped() && m <= |markList| && markList == old(markList)
        invariant QueueOk(tt, patMin, patList)
        invariant forall s :: 0 <= s < tt.numStops && marked[s] ==> old(marked)[s] && s in markList[m..]
        invariant QueuedFrom(tt, markList[..m], patMin)
        decreases |old(markList)| - m
      {
        var s := markList[m];
        assert markList[m..] == [s] + markList[m + 1..];
        marked := marked[s := false];
        ghost var before := patMin;
        QueueStop(s);
        QueuedStep(tt, markList[..m], s, before, patMin);
        assert markList[..m + 1] == markList[..m] + [s];
        m := m + 1;
      }
      assert markList[..m] == markList;
      markList := [];
    }

    /** Relaxes one pattern for both service-day layers. */
    method ScanBoth(q: Query, k: nat, p: nat, startPos: nat, btUB: nat)
      requires Scanning(q, k) && InTime(q, k) && p < tt.NumPatterns()
      modifies this`rows, this`tauBest, this`marked, this`markList
      ensures Scanning(q, k) && InTime(q, k)
      ensures |rows| == |old(rows)| && rows == old(rows)[k := rows[k]]
      ensures Improves(old(rows)[k], rows[k])
      ensures Ideal(tt, q) ==> ScannedBoth(tt, q, p, startPos, rows[k - 1], rows[k], btUB)
    {
      ScanPattern(q, k, p, startPos, YESTERDAY, btUB);
      ghost var middle := rows[k];
      ScanPattern(q, k, p, startPos, 0, btUB);
      if Ideal(tt, q) {
        ClosedMono(tt, q, p, YESTERDAY, startPos, rows[k - 1], middle, rows[k], btUB);
      }
    }

    /** Scans every queued pattern on both service days. */
    method ScanQueue(q: Query, k: nat, btUB: nat)
      requires Scanning(q, k) && InTime(q, k)
      requires QueueOk(tt, patMin, patList)
      modifies this`rows, this`tauBest, this`marked, this`markList, this`patMin
      ensures Scanning(q, k) && InTime(q, k)
      ensures |rows| == |old(rows)| && rows == old(rows)[k := rows[k]]
      ensures Improves(old(rows)[k], rows[k])
      ensures forall p :: 0 <= p < tt.NumPatterns() ==> patMin[p] == -1
      ensures Ideal(tt, q) ==> AllScanned(tt, q, patList, old(patMin), rows[k - 1], rows[k], btUB)
    {
      var m := 0;
      while m < |patList|
        invariant Scanning(q, k) && InTime(q, k) && m <= |patList|
        invariant QueueOk(tt, old(patMin), patList)
        invariant |rows| == |old(rows)| && rows == old(rows)[k := rows[k]]
        invariant Improves(old(rows)[k], rows[k])
        invariant forall p :: 0 <= p < tt.NumPatterns() ==>
          patMin[p] == if p in patList[m..] then old(patMin)[p] else -1
        invariant Ideal(tt, q) ==> AllScanned(tt, q, patList[..m], old(patMin), rows[k - 1], rows[k], btUB)
      {
        var p := patList[m];
        var startPos := patMin[p];
        ghost var before := rows[k];
        patMin := patMin[p := -1];
        assert p !in patList[m + 1..];
        ScanBoth(q, k, p, startPos, btUB);
        if Ideal(tt, q) {
          AllScannedMono(tt, q, patList[..m], old(patMin), rows[k - 1], before, rows[k], btUB);
        }
        assert patList[..m + 1] == patList[..m] + [p];
        m := m + 1;
      }
      assert patList[..m] == patList;
    }

    /** Relaxes one footpath. */
    method RelaxFootpath(q: Query, k: nat, s: nat, x: nat, btUB: nat)
      requires InRound(q, k) && s < tt.numStops && rows[k][s].kind == Ride && tt.XferIn(s, x)
      modifies this`rows, this`tauBest, this`marked, this`markList
      ensures InRound(q, k)
      ensures |rows| == |old(rows)| && rows == old(rows)[k := rows[k]]
      ensures rows[k][s] == old(rows)[k][s]
      ensures old(markList) <= markList
      ensures XferAt(tt, s, x, tt.xferTo[x])
      ensures Covered(rows[k], tt.xferTo[x], rows[k][s].tau + XferSec(tt.xferDs[x]), btUB)
      ensures rows[k] == old(rows)[k] || Walked(tt, old(rows)[k], rows[k], s, tt.xferTo[x])
    {
      assert tt.XferOk(s, x);
      var to := tt.xferTo[x];
      var cand := rows[k][s].tau + XferSec(tt.xferDs[x]);
      assert LabelOk(tt, q, rows[0], rows[k - 1], rows[k], to);
      if cand < rows[k][to].tau && cand < tauBest[to] && cand < btUB {
        var l := rows[k][to].(tau := cand, kind := Xfer, from := s);
        assert XferAt(tt, s, x, to);
        WriteXfer(tt, q, rows[0], rows[k - 1], rows[k], to, l, x);
        WriteLabel(q, k, to, l);
      }
    }

    /** Relaxes the footpaths out of one stop reached by a ride of this round. */
    method RelaxFootpaths(q: Query, k: nat, s: nat, btUB: nat)
      requires InRound(q, k) && s < tt.numStops && rows[k][s].kind == Ride
      modifies this`rows, this`tauBest, this`marked, this`markList
      ensures InRound(q, k)
      ensures |rows| == |old(rows)| && rows == old(rows)[k := rows[k]]
      ensures Improves(old(rows)[k], rows[k])
      ensures rows[k][s] == old(rows)[k][s] && FootClosedAt(tt, rows[k], s, btUB)
      ensures old(markList) <= markList
      ensures forall u :: 0 <= u < tt.numStops ==> rows[k][u] == old(rows)[k][u] || WalkedFrom(tt, rows[k], s, u)
    {
      assert tt.StopOk(s);
      var x := tt.xferFirst[s];
      while x < tt.xferFirst[s + 1]
        invariant InRound(q, k) && tt.xferFirst[s] <= x <= tt.xferFirst[s + 1] <= |tt.xferTo|
        invariant |rows| == |old(rows)| && rows == old(rows)[k := rows[k]]
        invariant old(markList) <= markList
        invariant WalkedTo(tt, old(rows)[k], rows[k], s, x, btUB)
      {
        ghost var before := rows[k];
        RelaxFootpath(q, k, s, x, btUB);
        WalkStep(tt, old(rows)[k], before, rows[k], s, x, btUB);
        x := x + 1;
      }
    }

    /** Relaxes the footpaths out of the stops improved by this round's rides. */
    method Transfers(q: Query, k: nat, btUB: nat)
      requires Scanning(q, k) && InTime(q, k)
      requires Ideal(tt, q) ==> FootClosed(tt, rows[k - 1], btUB)
      modifies this`rows, this`tauBest, this`marked, this`markList
      ensures InRound(q, k) && InTime(q, k)
      ensures |rows| == |old(rows)| && rows == old(rows)[k := rows[k]]
      ensures Improves(old(rows)[k], rows[k])
      ensures Ideal(tt, q) ==> FootClosed(tt, rows[k], btUB)
    {
      var newly := markList;
      if Ideal(tt, q) { FootStart(q, k, newly, btUB); }
      var m := 0;
      while m < |newly|
        invariant InRound(q, k) && InTime(q, k) && m <= |newly|
        invariant newly <= markList
        invariant |rows| == |old(rows)| && rows == old(rows)[k := rows[k]]
        invariant Improves(old(rows)[k], rows[k])
        invariant Ideal(tt, q) ==> FootPending(tt, rows[k], newly[m..], btUB)
      {
        var s := newly[m];
        assert s < tt.numStops && newly[m..] == [s] + newly[m + 1..];
        ghost var before := rows[k];
        if rows[k][s].tau < INF && rows[k][s].kind == Ride {
          RelaxFootpaths(q, k, s, btUB);
          InTimeStays(tt, q, rows[k - 1], before, rows[k], sourceRail, sourceRailArr);
          if Ideal(tt, q) { FootAfter(q, k, before, s, newly[m + 1..], btUB); }
        } else if Ideal(tt, q) {
          assert LabelOk(tt, q, rows[0], rows[k - 1], rows[k], s);
          FootSkip(rows[k], s, newly[m + 1..], btUB);
        }
        m := m + 1;
      }
    }

    lemma FootStart(q: Query, k: nat, newly: seq<nat>, ub: nat)
      requires Scanning(q, k) && newly == markList && FootClosed(tt, rows[k - 1], ub)
      ensures FootPending(tt, rows[k], newly, ub)
    {
      forall u | 0 <= u < tt.numStops && rows[k][u].kind in {Ride, Xfer}
        ensures FootClosedAt(tt, rows[k], u, ub) || (rows[k][u].kind == Ride && u in newly)
      {
        if !marked[u] {
          assert FootClosedAt(tt, rows[k - 1], u, ub);
          FootMono(tt, rows[k - 1], rows[k], u, ub);
        }
      }
    }

    lemma FootSkip(row: Row, s: nat, rest: seq<nat>, ub: nat)
      requires s < tt.numStops && |row| == tt.numStops && row[s].kind != Ride && FootPending(tt, row, [s] + rest, ub)
      ensures FootPending(tt, row, rest, ub)
    {
    }

    lemma FootAfter(q: Query, k: nat, before: Row, s: nat, rest: seq<nat>, ub: nat)
      requires InRound(q, k) && Triangle(tt) && |before| == tt.numStops && s < tt.numStops
      requires Improves(before, rows[k])
      requires FootPending(tt, before, [s] + rest, ub)
      requires FootClosedAt(tt, rows[k], s, ub)
      requires forall u :: 0 <= u < tt.numStops ==> rows[k][u] == before[u] || WalkedFrom(tt, rows[k], s, u)
      ensures FootPending(tt, rows[k], rest, ub)
    {
      forall u | 0 <= u < tt.numStops && rows[k][u].kind in {Ride, Xfer}
        ensures FootClosedAt(tt, rows[k], u, ub) || (rows[k][u].kind == Ride && u in rest)
      {
        if u != s {
          if rows[k][u] == before[u] {
            if FootClosedAt(tt, before, u, ub) { FootMono(tt, before, rows[k], u, ub); }
          } else {
            WalkedIsClosed(tt, rows[k], s, u, ub);
          }
        }
      }
    }

    /** What holds before round k is run: round k - 1 is complete. */
    ghost predicate Ready(q: Query, k: nat, btUB: nat)
      reads this
    {
      && Shaped() && q.Valid(tt)
      && 1 <= k <= |rows|
      && RowsOk(tt, q, rows, k)
      && SeedsCover(q, rows[0])
      && (forall s :: 0 <= s < tt.numStops ==> tauBest[s] == rows[k - 1][s].tau)
      && MarksOk(marked, markList)
      && (forall p :: 0 <= p < tt.NumPatterns() ==> patMin[p] == -1)
      && (forall s :: 0 <= s < tt.numStops && sourceRail[s] ==>
        exists i :: 0 <= i < |q.sources| && q.sources[i].priorRail)
      && (forall s :: 0 <= s < tt.numStops ==> sourceRailArr[s] < TWO_32)
      && (Ideal(tt, q) ==> FootClosed(tt, rows[k - 1], btUB) && UnmarkedClosed(tt, q, rows[k - 1], marked, btUB))
    }

    /** Starts round k from the labels of round k - 1 and queues the patterns to scan. */
    method BeginRound(q: Query, k: nat, btUB: nat)
      requires Ready(q, k, btUB) && k < |rows|
      modifies this`rows, this`marked, this`markList, this`patMin, this`patList
      ensures Scanning(q, k) && InTime(q, k)
      ensures rows == old(rows)[k := old(rows)[k - 1]]
      ensures QueueOk(tt, patMin, patList)
      ensures forall p: nat, pos: nat :: Serves(tt, p, pos, old(marked)) ==> 0 <= patMin[p] <= pos
    {
      assert RoundOk(tt, q, rows, k - 1);
      assert RoundOk(tt, q, rows, 0);
      CopyRow(tt, q, rows[0], PrevRow(rows, k - 1), rows[k - 1]);
      rows := rows[k := rows[k - 1]];
      Queue();
    }

    /** One round: copy the labels, scan the queued patterns, relax the footpaths. */
    method RunRound(q: Query, k: nat, btUB: nat)
      requires Ready(q, k, btUB) && k < |rows|
      modifies this`rows, this`tauBest, this`marked, this`markList, this`patMin, this`patList
      ensures |rows| == |old(rows)| && rows == old(rows)[k := rows[k]]
      ensures Ready(q, k + 1, btUB) && InRound(q, k) && InTime(q, k)
      ensures Ideal(tt, q) ==> RidesClosed(tt, q, rows[k - 1], rows[k], btUB)
    {
      BeginRound(q, k, btUB);
      ghost var queued, prev := patMin, rows[k - 1];
      ScanQueue(q, k, btUB);
      ghost var scanned := rows[k];
      Transfers(q, k, btUB);
      if Ideal(tt, q) {
        AllScannedMono(tt, q, patList, queued, prev, scanned, rows[k], btUB);
        RoundClosed(tt, q, prev, rows[k], old(marked), patList, queued, btUB);
        UnmarkedAfter(tt, q, prev, rows[k], marked, btUB);
      }
      RowsExtend(tt, q, old(rows), rows, k);
    }

    // ---- round zero -----------------------------------------------------------------

    /** Round zero holds the seeds, and at most one footpath out of the seeds left by a rail ride. */
    ghost predicate Seeded(q: Query)
      reads this
    {
      && Shaped() && q.Valid(tt) && |rows| >= 1
      && RowOk(tt, q, rows[0], [], rows[0])
      && (forall s :: 0 <= s < tt.numStops ==> tauBest[s] == rows[0][s].tau)
      && SeedsCover(q, rows[0])
      && MarksOk(marked, markList)
      && (forall s :: 0 <= s < tt.numStops && rows[0][s].tau < INF ==> marked[s])
      && (forall p :: 0 <= p < tt.NumPatterns() ==> patMin[p] == -1)
      && (forall s :: 0 <= s < tt.numStops && sourceRail[s] ==>
        exists i :: 0 <= i < |q.sources| && q.sources[i].priorRail)
      && (forall s :: 0 <= s < tt.numStops ==> sourceRailArr[s] < TWO_32)
      && ((forall i :: 0 <= i < |q.sources| ==> !q.sources[i].priorRail) ==>
            forall s :: 0 <= s < tt.numStops ==> rows[0][s].kind in {Unset, Access})
    }

    /** The first i sources have been seeded. */
    ghost predicate SeedingTo(q: Query, i: nat)
      reads this
    {
      && Shaped() && q.Valid(tt) && |rows| >= 1 && i <= |q.sources|
      && MarksOk(marked, markList)
      && (forall s :: 0 <= s < tt.numStops ==> tauBest[s] == rows[0][s].tau)
      && (forall s :: 0 <= s < tt.numStops ==> SeededAt(q, rows[0], s, i, sourceRail[s], sourceRailArr[s]))
      && (forall s :: 0 <= s < tt.numStops ==> (marked[s] <==> rows[0][s].kind == Access))
      && (forall i' :: 0 <= i' < i ==> rows[0][q.sources[i'].stop].tau <= q.sources[i'].sec || INF <= q.sources[i'].sec)
    }

    /** Forgets the labels of earlier queries. */
    method ClearRoundZero(q: Query)
      requires Valid() && q.Valid(tt) && |rows| >= 1
      modifies this`rows, this`tauBest, this`markList, this`sourceRail, this`sourceRailArr
      ensures SeedingTo(q, 0) && |rows| == |old(rows)|
    {
      var n, stale := tt.numStops, rows[0];
      tauBest := seq(n, _ => INF);
      rows := rows[0 := seq(n, s requires 0 <= s < n => stale[s].(tau := INF, kind := Unset))];
      sourceRail := seq(n, _ => false);
      sourceRailArr := seq(n, _ => 0);
      markList := [];
    }

    /** One seed's label and rail context. */
    method PutSeed(sd: Seed)
      requires Shaped() && |rows| >= 1 && sd.stop < tt.numStops && MarksOk(marked, markList)
      requires |sourceRail| == |sourceRailArr| == |tauBest| == |rows[0]| == tt.numStops
      modifies this`rows, this`tauBest, this`marked, this`markList, this`sourceRail, this`sourceRailArr
      ensures rows == old(rows)[0 := old(rows)[0][sd.stop := old(rows)[0][sd.stop].(tau := sd.sec, kind := Access)]]
      ensures tauBest == old(tauBest)[sd.stop := sd.sec] && sourceRail == old(sourceRail)[sd.stop := sd.priorRail]
      ensures sourceRailArr == old(sourceRailArr)[sd.stop := sd.priorRailArr] && marked == old(marked)[sd.stop := true]
      ensures MarksOk(marked, markList)
    {
      var s := sd.stop;
      rows := rows[0 := rows[0][s := rows[0][s].(tau := sd.sec, kind := Access)]];
      tauBest := tauBest[s := sd.sec];
      sourceRail := sourceRail[s := sd.priorRail];
      sourceRailArr := sourceRailArr[s := sd.priorRailArr];
      Mark(s);
    }

    method SeedOne(q: Query, i: nat)
      requires SeedingTo(q, i) && i < |q.sources|
      modifies this`rows, this`tauBest, this`marked, this`markList, this`sourceRail, this`sourceRailArr
      ensures SeedingTo(q, i + 1) && |rows| == |old(rows)|
    {
      var sd := q.sources[i];
      var s := sd.stop;
      assert SeededAt(q, rows[0], s, i, sourceRail[s], sourceRailArr[s]);
      if sd.sec < rows[0][s].tau { PutSeed(sd); }
      SeedStep(q, i, old(rows)[0], old(sourceRail), old(sourceRailArr), rows[0], sourceRail, sourceRailArr);
    }

    /** Writes the seeds: the earliest source of each stop. */
    method SeedSources(q: Query)
      requires Valid() && q.Valid(tt) && |rows| >= 1
      modifies this`rows, this`tauBest, this`marked, this`markList, this`sourceRail, this`sourceRailArr
      ensures Seeded(q) && |rows| == |old(rows)|
    {
      ClearRoundZero(q);
      var i := 0;
      while i < |q.sources|
        invariant SeedingTo(q, i) && |rows| == |old(rows)|
      {
        SeedOne(q, i);
        i := i + 1;
      }
      SeedsAreTrue(tt, q, rows[0], sourceRail, sourceRailArr);
    }

    /** Relaxes one in-station footpath out of a seed left by a rail ride. */
    method RailWalk(q: Query, from: nat, x: nat)
      requires Seeded(q) && from < tt.numStops && rows[0][from].kind == Access && sourceRail[from] && tt.XferIn(from, x)
      modifies this`rows, this`tauBest, this`marked, this`markList
      ensures Seeded(q) && |rows| == |old(rows)| && rows[0][from] == old(rows)[0][from]
      ensures old(markList) <= markList
    {
      assert tt.XferOk(from, x);
      var to := tt.xferTo[x];
      var cand := rows[0][from].tau + XferSec(tt.xferDs[x]);
      assert LabelOk(tt, q, rows[0], [], rows[0], to);
      if cand < rows[0][to].tau && cand < tauBest[to] {
        var l := rows[0][to].(tau := cand, kind := Xfer, from := from);
        assert XferAt(tt, from, x, to);
        WriteRailWalk(tt, q, rows[0], to, l, x);
        rows := rows[0 := rows[0][to := l]];
        tauBest := tauBest[to := cand];
        Mark(to);
      }
    }

    /** The footpaths out of every seed left by a rail ride. */
    method RailWalks(q: Query)
      requires Seeded(q)
      modifies this`rows, this`tauBest, this`marked, this`markList
      ensures Seeded(q) && |rows| == |old(rows)|
    {
      var initial := markList;
      var m := 0;
      while m < |initial|
        invariant Seeded(q) && |rows| == |old(rows)|
        invariant initial <= markList
      {
        var from := initial[m];
        assert markList[m] == from;
        if rows[0][from].kind == Access && sourceRail[from] {
          assert tt.StopOk(from);
          var x := tt.xferFirst[from];
          while x < tt.xferFirst[from + 1]
            invariant Seeded(q) && |rows| == |old(rows)|
            invariant initial <= markList
            invariant tt.xferFirst[from] <= x <= tt.xferFirst[from + 1] <= |tt.xferTo|
            invariant rows[0][from].kind == Access && sourceRail[from]
          {
            RailWalk(q, from, x);
            x := x + 1;
          }
        }
        m := m + 1;
      }
    }

    /** Allocates the label rows up to round k. */
    method EnsureRounds(k: nat)
      requires Valid()
      modifies this`rows
      ensures Valid() && |rows| > k && old(rows) <= rows
    {
      while |rows| <= k
        invariant Valid() && old(rows) <= rows
        decreases k + 1 - |rows|
      {
        rows := rows + [seq(tt.numStops, _ => Label(0, Unset, 0, 0, 0, 0))];
      }
    }

    // ---- reconstruction -------------------------------------------------------------

    /** The first position after `after` where pattern p stops at s. */
    method PosInPattern(p: nat, s: nat, after: nat) returns (pos: nat)
      requires p < tt.NumPatterns()
      ensures (exists j :: after < j < tt.PatLen(p) && tt.Stop(p, j) == s) ==>
        after < pos < tt.PatLen(p) && tt.Stop(p, pos) == s && forall j :: after < j < pos ==> tt.Stop(p, j) != s
      ensures pos == 0 || (pos < tt.PatLen(p) && tt.Stop(p, pos) == s)
    {
      pos := after + 1;
      while pos < tt.PatLen(p)
        invariant after < pos
        invariant forall j :: after < j < pos && j < tt.PatLen(p) ==> tt.Stop(p, j) != s
      {
        if tt.Stop(p, pos) == s { return; }
        pos := pos + 1;
      }
      pos := 0;
      while pos < tt.PatLen(p)
      {
        if tt.Stop(p, pos) == s { return; }
        pos := pos + 1;
      }
      pos := 0;
    }

    /** The leg a ride or footpath label stands for, and the ride it reports. */
    method LegOf(q: Query, kk: nat, s: nat) returns (leg: RLeg, ghost truth: RLeg)
      requires Shaped() && kk < |rows| && s < tt.numStops && RoundOk(tt, q, rows, kk)
      requires rows[kk][s].kind in {Xfer, Ride}
      ensures LegOk(tt, q, rows, kk, s, truth) && Reported(tt, leg, truth)
    {
      var l := rows[kk][s];
      if l.kind == Xfer {
        XferParent(tt, q, rows, kk, s);
        leg := FootLeg(l.from, s, l.tau - rows[kk][l.from].tau);
        truth := leg;
      } else {
        ghost var p0, j0 := RideParent(tt, q, rows, kk, s);
        var p := tt.PatternOfTrip(l.trip);
        tt.OnePattern(p0, p, l.trip);
        var alight := PosInPattern(p, s, l.board);
        leg := RideLeg(l.trip, p, l.board, alight, l.day);
        truth := leg.(alight := j0);
        LookupTells(tt, q, rows[kk - 1], l, s, p, j0, alight);
      }
    }

    /** Rebuilds the journey ending at target after k rounds, walking the labels backwards. */
    method Extract(q: Query, k: nat, target: nat, arrSec: nat) returns (j: Journey, ok: bool, ghost truth: seq<RLeg>)
      requires Shaped() && q.Valid(tt) && k < |rows| && RowsOk(tt, q, rows, k + 1) && SeedsCover(q, rows[0])
      requires target < tt.numStops && rows[k][target].tau < INF && rows[k][target].tau < rows[0][target].tau
      ensures ok
      ensures j.target == target && j.arrSec == arrSec
      ensures j.rides == RideCount(j.legs) && 1 <= j.rides <= k
      ensures AllReported(tt, j.legs, truth) && RideCount(truth) == RideCount(j.legs)
      ensures exists i :: TravelsFromSeed(tt, q, i, truth, target, rows[k][target].tau)
    {
      var rev: seq<RLeg> := [];
      ghost var trueRev: seq<RLeg> := [];
      var s: nat, kk: nat := target, k;
      ghost var end: int := rows[k][target].tau;
      assert RoundOk(tt, q, rows, k);
      NoLater(tt, q, rows, k, s);
      while rows[kk][s].kind != Access
        invariant Rebuilt(tt, q, rows, kk, s, Reversed(trueRev), target, end, k) && AllReported(tt, rev, trueRev)
        decreases kk, if rows[kk][s].kind == Xfer then rows[kk][s].tau + 1 else 0
      {
        assert RoundOk(tt, q, rows, kk);
        NotUnset(tt, q, rows, kk, s);
        ghost var trueLeg;
        var leg;
        leg, trueLeg := LegOf(q, kk, s);
        ReversedSnoc(trueRev, trueLeg);
        BackOneLeg(tt, q, rows, kk, s, trueLeg, Reversed(trueRev), target, end, k);
        rev, trueRev := rev + [leg], trueRev + [trueLeg];
        if rows[kk][s].kind == Xfer {
          s := rows[kk][s].from;
        } else {
          s, kk := rows[kk][s].from, kk - 1;
        }
      }
      var legs := Reverse(rev);
      var rides := CountRides(legs);
      assert RoundOk(tt, q, rows, kk);
      truth := Reversed(trueRev);
      AtSeed(tt, q, rows, kk, s, truth, target, end, k);
      ReportedBack(tt, rev, trueRev);
      SameCount(tt, legs, truth);
      return Journey(rides, arrSec, legs, target), true, truth;
    }

    // ---- the query ------------------------------------------------------------------

    /** Rounds before k have been run and evaluated; btUB is the best complete arrival among them. */
    ghost predicate Searching(q: Query, extra: map<nat, nat>, k: nat, bestArr: seq<nat>, bestTarget: seq<int>,
        btUB: nat)
      reads this
    {
      && Ready(q, k, btUB)
      && Scored(q, extra, k, bestArr, bestTarget, btUB)
    }

    /** The best complete arrivals of the rounds before k. */
    ghost predicate Scored(q: Query, extra: map<nat, nat>, k: nat, bestArr: seq<nat>, bestTarget: seq<int>, btUB: nat)
      requires Shaped() && 1 <= k <= |rows| && q.Valid(tt)
      reads this
    {
      && (forall t :: t in extra ==> t < tt.numStops)
      && |bestArr| == |bestTarget| == k
      && (forall i :: 0 <= i < k ==> Evaluated(extra, rows[i], bestArr[i], bestTarget[i]))
      && BestSoFar(bestArr, btUB)
      && (Ideal(tt, q) ==> CoversAll(tt, q, rows[k - 1], k - 1, btUB) && AllBeaten(tt, q, bestArr, extra, k - 1))
    }

    /** Evaluates round zero. */
    method FirstRound(q: Query, extra: map<nat, nat>) returns (bestArr: seq<nat>, bestTarget: seq<int>, btUB: nat)
      requires Seeded(q) && forall t :: t in extra ==> t < tt.numStops
      ensures Searching(q, extra, 1, bestArr, bestTarget, btUB)
    {
      var best, target := EvalTargets(extra, rows[0]);
      bestArr, bestTarget := [best], [target];
      btUB := if best < INF then best else INF;
      assert RoundOk(tt, q, rows, 0);
      if Ideal(tt, q) {
        SeedsCoverAll(tt, q, rows[0], INF);
        SeedsCoverAll(tt, q, rows[0], btUB);
        BeatenStep(tt, q, rows[0], extra, [], bestArr, target, 0, INF);
      }
    }

    /** Round k, and the best complete arrival with its labels. */
    method RunAndEvaluate(q: Query, extra: map<nat, nat>, k: nat, ghost bestArr: seq<nat>, ghost bestTarget: seq<int>,
        btUB: nat)
      returns (best: nat, target: int)
      requires Ready(q, k, btUB) && k < |rows| && |bestArr| == |bestTarget| == k && forall t :: t in extra ==>
        t < tt.numStops
      requires forall i :: 0 <= i < k ==> Evaluated(extra, rows[i], bestArr[i], bestTarget[i])
      modifies this`rows, this`tauBest, this`marked, this`markList, this`patMin, this`patList
      ensures |rows| == |old(rows)| && rows == old(rows)[k := rows[k]]
      ensures Ready(q, k + 1, btUB) && InRound(q, k)
      ensures forall i :: 0 <= i < k ==> Evaluated(extra, rows[i], bestArr[i], bestTarget[i])
      ensures Evaluated(extra, rows[k], best, target)
      ensures Ideal(tt, q) ==> RidesClosed(tt, q, rows[k - 1], rows[k], btUB)
    {
      RunRound(q, k, btUB);
      forall i | 0 <= i < k ensures Evaluated(extra, rows[i], bestArr[i], bestTarget[i]) {
        assert Evaluated(extra, old(rows)[i], bestArr[i], bestTarget[i]);
      }
      best, target := EvalTargets(extra, rows[k]);
    }

    /** Runs and evaluates round k. */
    method NextRound(q: Query, extra: map<nat, nat>, k: nat, bestArr: seq<nat>, bestTarget: seq<int>, btUB: nat,
        ghost maxRounds: nat)
      returns (bestArr': seq<nat>, bestTarget': seq<int>, btUB': nat)
      requires Searching(q, extra, k, bestArr, bestTarget, btUB) && k < |rows|
      modifies this`rows, this`tauBest, this`marked, this`markList, this`patMin, this`patList
      ensures |rows| == |old(rows)| && rows[0] == old(rows)[0]
      ensures Searching(q, extra, k + 1, bestArr', bestTarget', btUB')
      ensures Ideal(tt, q) && markList == [] ==> AllBeaten(tt, q, bestArr', extra, maxRounds)
    {
      ghost var prev := rows[k - 1];
      var best, target := RunAndEvaluate(q, extra, k, bestArr, bestTarget, btUB);
      JudgeRound(q, extra, k, bestArr, bestTarget, btUB, best, target, prev, maxRounds);
      ReadyLower(q, k + 1, btUB, Sooner(best, btUB));
      bestArr', bestTarget' := bestArr + [best], bestTarget + [target];
      btUB' := Sooner(best, btUB);
    }

    /** Round k is evaluated: the search is where it should be for the next one. */
    lemma JudgeRound(q: Query, extra: map<nat, nat>, k: nat, bestArr: seq<nat>, bestTarget: seq<int>, btUB: nat,
        best: nat, target: int, prev: Row, maxRounds: nat)
      requires Ready(q, k + 1, btUB) && InRound(q, k) && 1 <= k < |rows| && rows[k - 1] == prev
      requires |bestArr| == |bestTarget| == k && forall t :: t in extra ==> t < tt.numStops
      requires forall i :: 0 <= i < k ==> Evaluated(extra, rows[i], bestArr[i], bestTarget[i])
      requires BestSoFar(bestArr, btUB) && Evaluated(extra, rows[k], best, target)
      requires Ideal(tt, q) ==> RidesClosed(tt, q, prev, rows[k], btUB) && CoversAll(tt, q, prev, k - 1, btUB)
      requires Ideal(tt, q) ==> AllBeaten(tt, q, bestArr, extra, k - 1)
      ensures Scored(q, extra, k + 1, bestArr + [best], bestTarget + [target], Sooner(best, btUB))
      ensures Ideal(tt, q) && markList == [] ==> AllBeaten(tt, q, bestArr + [best], extra, maxRounds)
    {
      EvaluatedMore(extra, rows, k, bestArr, bestTarget, best, target);
      BestExtended(bestArr, btUB, best);
      if Ideal(tt, q) { BeatRound(q, extra, k, bestArr, best, target, btUB, Sooner(best, btUB), prev, maxRounds); }
    }

    /** In an ideal search the round's best arrival beats every chain it covers. */
    lemma BeatRound(q: Query, extra: map<nat, nat>, k: nat, bestArr: seq<nat>, best: nat, target: int, ub: nat,
        ub': nat, prev: Row, maxRounds: nat)
      requires Ready(q, k + 1, ub) && InRound(q, k) && rows[k - 1] == prev && Ideal(tt, q) && ub' <= ub
      requires |bestArr| == k && BestSoFar(bestArr, ub) && Evaluated(extra, rows[k], best, target)
      requires RidesClosed(tt, q, prev, rows[k], ub) && CoversAll(tt, q, prev, k - 1, ub)
      requires AllBeaten(tt, q, bestArr, extra, k - 1)
      ensures CoversAll(tt, q, rows[k], k, ub') && AllBeaten(tt, q, bestArr + [best], extra, k)
      ensures markList == [] ==> AllBeaten(tt, q, bestArr + [best], extra, maxRounds)
    {
      assert (bestArr + [best])[..k] == bestArr;
      RoundBeats(tt, q, rows[0], prev, rows[k], extra, bestArr, bestArr + [best], target, k, ub, ub', maxRounds);
      assert markList == [] ==> rows[k] == prev;
    }

    /** Runs the rounds; entry k of the results is the best complete arrival with the labels of round k. */
    method RunRounds(q: Query, extra: map<nat, nat>, maxRounds: nat)
      returns (bestArr: seq<nat>, bestTarget: seq<int>, ghost last: nat)
      requires Seeded(q) && |rows| > maxRounds
      requires forall t :: t in extra ==> t < tt.numStops
      modifies this`rows, this`tauBest, this`marked, this`markList, this`patMin, this`patList
      ensures Valid()
      ensures last <= maxRounds < |rows| && RowsOk(tt, q, rows, last + 1) && SeedsCover(q, rows[0])
      ensures |bestArr| == |bestTarget| == maxRounds + 1
      ensures forall k :: 0 <= k <= last ==> Evaluated(extra, rows[k], bestArr[k], bestTarget[k])
      ensures forall k :: last < k <= maxRounds ==> bestArr[k] == INF && bestTarget[k] == -1
      ensures rows[0] == old(rows)[0]
      ensures Ideal(tt, q) ==> AllBeaten(tt, q, bestArr, extra, maxRounds)
    {
      var btUB;
      bestArr, bestTarget, btUB := FirstRound(q, extra);
      var k := 1;
      var settled := false;
      while k <= maxRounds && !settled
        invariant 1 <= k <= maxRounds + 1 <= |rows|
        invariant Searching(q, extra, k, bestArr, bestTarget, btUB)
        invariant rows[0] == old(rows)[0]
        invariant Ideal(tt, q) && settled ==> AllBeaten(tt, q, bestArr, extra, maxRounds)
        decreases maxRounds + 1 - k
      {
        bestArr, bestTarget, btUB := NextRound(q, extra, k, bestArr, bestTarget, btUB, maxRounds);
        settled := markList == [];
        k := k + 1;
      }
      last := k - 1;
      bestArr, bestTarget := Padded(bestArr, bestTarget, maxRounds, tt, q, extra);
      ClearMarks();
    }

    lemma ReadyLower(q: Query, k: nat, ub: nat, ub': nat)
      requires Ready(q, k, ub) && ub' <= ub
      ensures Ready(q, k, ub')
    {
      if Ideal(tt, q) {
        ClosedLower(tt, q, rows[k - 1], marked, ub, ub');
      }
    }

    method ClearMarks()
      requires Shaped() && MarksOk(marked, markList)
      requires forall p :: 0 <= p < tt.NumPatterns() ==> patMin[p] == -1
      modifies this`marked, this`markList
      ensures Valid()
    {
      var m := 0;
      assert markList[0..] == markList;
      while m < |markList|
        invariant Shaped() && m <= |markList| && markList == old(markList)
        invariant forall i :: 0 <= i < |markList| ==> markList[i] < tt.numStops
        invariant forall p :: 0 <= p < tt.NumPatterns() ==> patMin[p] == -1
        invariant forall s :: 0 <= s < tt.numStops && marked[s] ==> s in markList[m..]
        decreases |old(markList)| - m
      {
        assert markList[m..] == [markList[m]] + markList[m + 1..];
        marked := marked[markList[m] := false];
        m := m + 1;
      }
      assert markList[m..] == [];
      markList := [];
    }

    /** Extracts a journey for every round that arrives strictly earlier than all rounds before it. */
    method Report(q: Query, extra: map<nat, nat>, bestArr: seq<nat>, bestTarget: seq<int>, ghost last: nat)
        returns (out: seq<Journey>)
      requires Shaped() && q.Valid(tt) && ExtraOk(q, extra)
      requires last <= q.maxTransfers + 1 && last < |rows| && RowsOk(tt, q, rows, last + 1) && SeedsCover(q, rows[0])
      requires |bestArr| == |bestTarget| == q.maxTransfers + 2
      requires forall k :: 0 <= k <= last ==> Evaluated(extra, rows[k], bestArr[k], bestTarget[k])
      requires forall k :: last < k < |bestArr| ==> bestArr[k] == INF && bestTarget[k] == -1
      ensures JourneysReported(tt, q, out)
      ensures forall i, j :: 0 <= i < j < |out| ==> out[i].arrSec > out[j].arrSec
      ensures AllRounds(bestArr, out, |bestArr|)
    {
      out := [];
      var best := INF;
      var k := 0;
      while k < |bestArr|
        invariant 0 <= k <= |bestArr|
        invariant JourneysReported(tt, q, out)
        invariant forall i, j :: 0 <= i < j < |out| ==> out[i].arrSec > out[j].arrSec
        invariant forall i :: 0 <= i < |out| ==> out[i].arrSec >= best
        invariant k == 0 ==> out == [] && best == INF
        invariant k >= 1 ==> best <= bestArr[0]
        invariant best == INF || bestArr[0] <= best || HasJourney(out, k - 1, best)
        invariant AllRounds(bestArr, out, k)
      {
        ghost var before := out;
        if bestArr[k] < best {
          if k > 0 {
            var j := ReportRound(q, extra, bestArr, bestTarget, k, last);
            OneMoreJourney(tt, q, out, j);
            StillImproving(out, j, best);
            out := out + [j];
            assert out[|out| - 1] == j;
          }
          best := bestArr[k];
        }
        AllRoundsMono(bestArr, before, out, k, best);
        k := k + 1;
      }
    }

    lemma StillImproving(out: seq<Journey>, j: Journey, best: nat)
      requires forall i, j :: 0 <= i < j < |out| ==> out[i].arrSec > out[j].arrSec
      requires (forall i :: 0 <= i < |out| ==> out[i].arrSec >= best) && j.arrSec < best
      ensures forall i, k :: 0 <= i < k < |out + [j]| ==> (out + [j])[i].arrSec > (out + [j])[k].arrSec
      ensures forall i :: 0 <= i < |out + [j]| ==> (out + [j])[i].arrSec >= j.arrSec
    {
    }

    method ReportRound(q: Query, extra: map<nat, nat>, bestArr: seq<nat>, bestTarget: seq<int>, k: nat, ghost last: nat)
        returns (j: Journey)
      requires Shaped() && q.Valid(tt) && ExtraOk(q, extra)
      requires last <= q.maxTransfers + 1 && last < |rows| && RowsOk(tt, q, rows, last + 1) && SeedsCover(q, rows[0])
      requires |bestArr| == |bestTarget| == q.maxTransfers + 2 && 1 <= k < |bestArr|
      requires forall k :: 0 <= k <= last ==> Evaluated(extra, rows[k], bestArr[k], bestTarget[k])
      requires forall k :: last < k < |bestArr| ==> bestArr[k] == INF && bestTarget[k] == -1
      requires bestArr[k] < INF && bestArr[k] < bestArr[0]
      ensures ReportedJourney(tt, q, j)
      ensures j.arrSec == bestArr[k] && j.rides <= k
    {
      assert k <= last && RoundOk(tt, q, rows, k);
      assert RowsOk(tt, q, rows, k + 1);
      TargetImproved(tt, q, rows, extra, bestArr[0], bestTarget[0], bestArr[k], bestTarget[k], k);
      var ok;
      ghost var truth;
      j, ok, truth := Extract(q, k, bestTarget[k], bestArr[k]);
      Real(tt, q, j, truth, extra, rows[k][j.target].tau);
    }

    /** Runs one query: the pareto set of journeys, by number of rides. */
    method Plan(q: Query) returns (out: seq<Journey>)
      requires Valid() && q.Valid(tt)
      modifies this
      ensures Valid()
      ensures JourneysReported(tt, q, out)
      ensures FirstVisitServed(tt) ==> forall i :: 0 <= i < |out| ==> RealJourney(tt, q, out[i])
      ensures forall i, j :: 0 <= i < j < |out| ==> out[i].arrSec > out[j].arrSec
      ensures Ideal(tt, q) ==> NothingBeats(tt, q, out)
      ensures Ideal(tt, q) && FootpathsSeeded(tt, q) ==> NothingAtAllBeats(tt, q, out)
    {
      var maxRounds := q.maxTransfers + 1;
      EnsureRounds(maxRounds);
      var extra := TargetExtra(q);
      SeedSources(q);
      RailWalks(q);
      ghost var row0 := rows[0];
      assert Ideal(tt, q) ==> forall s :: 0 <= s < tt.numStops ==> row0[s].kind in {Unset, Access};
      var bestArr, bestTarget, last := RunRounds(q, extra, maxRounds);
      assert RoundOk(tt, q, rows, 0);
      out := Report(q, extra, bestArr, bestTarget, last);
      if Ideal(tt, q) {
        NoneBetter(tt, q, row0, extra, bestArr, bestTarget[0], out);
        if FootpathsSeeded(tt, q) { AllChainsCount(tt, q, out); }
      }
      if FirstVisitServed(tt) {
        forall i | 0 <= i < |out| ensures RealJourney(tt, q, out[i]) { ReportedIsReal(tt, q, out[i]); }
      }
    }
  }
}
