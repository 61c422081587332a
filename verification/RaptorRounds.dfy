/** What one round of the search keeps: boarding in time, rides covered, queues and footpaths. */
module RaptorRounds {
  import opened Words
  import opened Transit
  import opened RaptorLabels
  import opened RaptorOptimal

  /** addDay: yesterday's trip before today's midnight is unusable. */
  function AddDay(sec: nat, day: int): nat {
    if sec + day < 0 then INF else sec + day
  }

  /** The ride that produced a label, following one footpath parent: its trip and its arrival. */
  function PriorRide(row: Row, s: nat): Option<(nat, nat)>
    requires s < |row|
  {
    match row[s].kind
    case Ride => Some((row[s].trip, row[s].tau))
    case Xfer =>
      var f := row[s].from;
      if f < |row| && row[f].kind == Ride then Some((row[f].trip, row[f].tau)) else Option.None
    case _ => Option.None
  }

  /** The arrival of the rail vehicle that produced a seeded label, following one footpath parent. */
  function PriorRailSource(row: Row, sourceRail: seq<bool>, sourceRailArr: seq<nat>, s: nat): Option<nat>
    requires s < |row| == |sourceRail| == |sourceRailArr|
  {
    match row[s].kind
    case Access => if sourceRail[s] then Some(sourceRailArr[s]) else Option.None
    case Xfer =>
      var f := row[s].from;
      if f < |row| && row[f].kind == Access && sourceRail[f] then Some(sourceRailArr[f]) else Option.None
    case _ => Option.None
  }

  /** The end of a platform change begun at `arrived`; an overflowing sum is never. */
  function ChangeReady(arrived: nat, margin: nat): (r: nat)
    ensures arrived < TWO_32 && margin < TWO_32 && arrived + margin < TWO_32 ==> r == arrived + margin
    ensures arrived < TWO_32 && margin < TWO_32 && arrived + margin >= TWO_32 ==> r == INF
  {
    var ready := Add32(arrived, margin);
    if ready < arrived then INF else ready
  }

  ghost predicate ByRail(tt: Timetable, trip: nat) { exists p :: tt.TripIn(p, trip) && tt.PatternRailLike(p) }

  /** From when a train may be boarded: the change margin after the arrival of an incoming train, or station entry. */
  ghost function RailReady(tt: Timetable, q: Query, row: Row, sourceRail: seq<bool>, sourceRailArr: seq<nat>,
      s: nat): nat
    requires s < |row| == |sourceRail| == |sourceRailArr|
  {
    var prior, src := PriorRide(row, s), PriorRailSource(row, sourceRail, sourceRailArr, s);
    if src.Some? then ChangeReady(src.value, q.railTransferSec)
    else if prior.Some? && ByRail(tt, prior.value.0) then ChangeReady(prior.value.1, q.railTransferSec)
    else row[s].tau + q.railEntrySec
  }

  /** A rider leaving s at r has taken every allowance: the slack after a ride (for a train, only right where that ride
      ended), and what a train needs. */
  ghost predicate Allowed(tt: Timetable, q: Query, row: Row, sourceRail: seq<bool>, sourceRailArr: seq<nat>, s: nat,
    railPattern: bool, r: int)
    requires s < |row| == |sourceRail| == |sourceRailArr|
  {
    && row[s].tau <= r
    && (PriorRide(row, s).Some? && (!railPattern || row[s].kind == Ride) ==> row[s].tau + q.slackSec <= r)
    && (railPattern ==> RailReady(tt, q, row, sourceRail, sourceRailArr, s) <= r)
  }

  /** rt is the first moment with every allowance taken; INF if there is none before it. */
  ghost predicate FirstAllowed(tt: Timetable, q: Query, row: Row, sourceRail: seq<bool>, sourceRailArr: seq<nat>,
    s: nat, railPattern: bool, rt: nat)
    requires s < |row| == |sourceRail| == |sourceRailArr|
  {
    && rt <= INF
    && (rt < INF ==> Allowed(tt, q, row, sourceRail, sourceRailArr, s, railPattern, rt))
    && forall r | Allowed(tt, q, row, sourceRail, sourceRailArr, s, railPattern, r) :: r < INF ==> rt <= r
  }

  /** A ride boarded with every allowance, judged by the labels of the round before it. */
  ghost predicate BoardedInTime(tt: Timetable, q: Query, prev: Row, sourceRail: seq<bool>, sourceRailArr: seq<nat>,
    p: nat, trip: nat, board: nat, from: nat, day: int)
    requires |prev| == |sourceRail| == |sourceRailArr|
  {
    At(tt, p, trip, board) && from < |prev| && Dep(tt, p, trip, board, day) < INF ==>
      Allowed(tt, q, prev, sourceRail, sourceRailArr, from, tt.PatternRailLike(p), Dep(tt, p, trip, board, day))
  }

  /** Every ride label written since `prev` was boarded with its allowances. */
  ghost predicate NewRidesInTime(tt: Timetable, q: Query, prev: Row, row: Row, sourceRail: seq<bool>,
      sourceRailArr: seq<nat>)
    requires |prev| == |row| == |sourceRail| == |sourceRailArr|
  {
    forall s, p :: 0 <= s < |row| && row[s] != prev[s] && row[s].kind == Ride && tt.TripIn(p, row[s].trip) ==>
      BoardedInTime(tt, q, prev, sourceRail, sourceRailArr, p, row[s].trip, row[s].board, row[s].from, row[s].day)
  }

  lemma InTimeStays(tt: Timetable, q: Query, prev: Row, before: Row, row: Row, sourceRail: seq<bool>,
      sourceRailArr: seq<nat>)
    requires |prev| == |before| == |row| == |sourceRail| == |sourceRailArr|
    requires NewRidesInTime(tt, q, prev, before, sourceRail, sourceRailArr)
    requires forall u :: 0 <= u < |row| ==> row[u] == before[u] || row[u].kind != Ride
    ensures NewRidesInTime(tt, q, prev, row, sourceRail, sourceRailArr)
  {
  }

  lemma WriteInTime(tt: Timetable, q: Query, prev: Row, row: Row, sourceRail: seq<bool>, sourceRailArr: seq<nat>,
      s: nat, l: Label, p: nat)
    requires |prev| == |row| == |sourceRail| == |sourceRailArr| && tt.Valid() && s < |row| && tt.TripIn(p, l.trip)
    requires NewRidesInTime(tt, q, prev, row, sourceRail, sourceRailArr)
    requires BoardedInTime(tt, q, prev, sourceRail, sourceRailArr, p, l.trip, l.board, l.from, l.day)
    ensures NewRidesInTime(tt, q, prev, row[s := l], sourceRail, sourceRailArr)
  {
    forall p' | tt.TripIn(p', l.trip) ensures p' == p { tt.OnePattern(p, p', l.trip); }
  }

  /** A trip caught by a rider who was ready leaves with every allowance taken. */
  lemma CaughtInTime(tt: Timetable, q: Query, prev: Row, sourceRail: seq<bool>, sourceRailArr: seq<nat>, p: nat,
    trip: nat, pos: nat, day: int, rt: nat)
    requires |prev| == |sourceRail| == |sourceRailArr| == tt.numStops && Boards(tt, q, p, trip, pos, day, rt)
    requires FirstAllowed(tt, q, prev, sourceRail, sourceRailArr, tt.Stop(p, pos), tt.PatternRailLike(p), rt)
    ensures BoardedInTime(tt, q, prev, sourceRail, sourceRailArr, p, trip, pos, tt.Stop(p, pos), day)
  {
  }

  /** marked and markList hold the same stops. */
  ghost predicate MarksOk(marked: seq<bool>, markList: seq<nat>) {
    && (forall i :: 0 <= i < |markList| ==> markList[i] < |marked| && marked[markList[i]])
    && forall s :: 0 <= s < |marked| && marked[s] ==> s in markList
  }

  /** The trip held by a pattern scan was caught at an earlier position, in time and on a served stop. */
  ghost predicate Held(tt: Timetable, q: Query, p: nat, day: int, prev: Row, trip: int, boardPos: nat, boardStop: nat,
      pos: nat)
    requires |prev| == tt.numStops && p < tt.NumPatterns()
  {
    trip >= 0 ==>
      && boardPos < pos <= tt.PatLen(p)
      && At(tt, p, trip, boardPos)
      && Usable(tt, q, day, trip)
      && tt.Stop(p, boardPos) == boardStop
      && !tt.StopSkipped(trip, boardPos)
      && Catches(tt, prev, p, trip, boardPos, day)
  }

  /** Every served stop passed on board is covered by the labels. */
  ghost predicate RideCovered(tt: Timetable, p: nat, day: int, row: Row, trip: int, boardPos: nat, pos: nat, ub: nat)
    requires |row| == tt.numStops
  {
    forall j ::
      && boardPos < j < pos && trip >= 0 && At(tt, p, trip, j) && !tt.StopSkipped(trip, j)
      && 0 <= Arr(tt, p, trip, j, day) ==>
      Covered(row, tt.Stop(p, j), Arr(tt, p, trip, j, day), ub)
  }

  /** Trip t can be boarded at pos by a rider ready at rt. */
  ghost predicate Boards(tt: Timetable, q: Query, p: nat, t: nat, pos: nat, day: int, rt: nat)
  {
    At(tt, p, t, pos) && Usable(tt, q, day, t) && !tt.StopSkipped(t, pos) && rt <= Dep(tt, p, t, pos, day)
  }

  /** No trip that could have been boarded in [start, pos) leaves before the held one. */
  ghost predicate EarliestHeld(tt: Timetable, q: Query, p: nat, day: int, prev: Row, trip: int, start: nat, pos: nat)
    requires |prev| == tt.numStops
  {
    forall t, i | start <= i < pos && At(tt, p, t, i) ::
      Usable(tt, q, day, t) && !tt.StopSkipped(t, i) && Catches(tt, prev, p, t, i, day) ==> 0 <= trip <= t
  }

  /** Rides of the pattern boarded from `start` on are covered up to `pos`. */
  ghost predicate ScannedTo(tt: Timetable, q: Query, p: nat, day: int, start: nat, pos: nat, prev: Row, row: Row,
      ub: nat)
    requires |row| == |prev| == tt.numStops
  {
    forall t, i: nat, j: nat ::
      start <= i && j < pos && RideAt(tt, q, p, t, i, j, day) && Catches(tt, prev, p, t, i, day) ==>
      Covered(row, tt.Stop(p, j), Arr(tt, p, t, j, day), ub)
  }

  /** Alighting from the held trip at pos covers every ride that reaches pos. */
  lemma ScanStep(tt: Timetable, q: Query, p: nat, day: int, start: nat, pos: nat, prev: Row, row: Row, ub: nat,
                 trip: int, boardPos: nat, boardStop: nat)
    requires |row| == |prev| == tt.numStops && pos < tt.PatLen(p)
    requires NoOvertaking(tt, q) && NonDecreasing(tt, q)
    requires SkipsFirst(tt, q)
    requires ScannedTo(tt, q, p, day, start, pos, prev, row, ub)
    requires Held(tt, q, p, day, prev, trip, boardPos, boardStop, pos)
    requires EarliestHeld(tt, q, p, day, prev, trip, start, pos)
    requires trip >= 0 ==> At(tt, p, trip, pos)
    requires trip >= 0 && !tt.StopSkipped(trip, pos) && 0 <= Arr(tt, p, trip, pos, day) ==>
      Covered(row, tt.Stop(p, pos), Arr(tt, p, trip, pos, day), ub)
    ensures ScannedTo(tt, q, p, day, start, pos + 1, prev, row, ub)
  {
    forall t, i: nat, j: nat | start <= i && j < pos + 1 && RideAt(tt, q, p, t, i, j, day) &&
      Catches(tt, prev, p, t, i, day)
      ensures Covered(row, tt.Stop(p, j), Arr(tt, p, t, j, day), ub)
    {
      if j == pos {
        assert At(tt, p, t, i) && At(tt, p, t, j);
        assert 0 <= trip <= t;
        assert RideAt(tt, q, p, trip, boardPos, pos, day);
        assert tt.TripArr(trip, pos) <= tt.TripArr(t, pos);
      }
    }
  }

  // ---- rounds and what they cover ----------------------------------------------------------------------------------

  /** The labels of the round before round k; none before round zero. */
  ghost function PrevRow(rows: seq<Row>, k: nat): Row
    requires k <= |rows|
  {
    if k == 0 then [] else rows[k - 1]
  }

  ghost predicate RoundOk(tt: Timetable, q: Query, rows: seq<Row>, i: nat)
    requires i < |rows|
  {
    && RowOk(tt, q, rows[0], PrevRow(rows, i), rows[i])
    && Improves(rows[0], rows[i])
    && (i >= 1 ==> Improves(rows[i - 1], rows[i]))
  }

  /** The first k rounds hold true labels that never increase. */
  ghost predicate RowsOk(tt: Timetable, q: Query, rows: seq<Row>, k: nat)
    requires 1 <= k <= |rows|
  {
    forall i :: 0 <= i < k ==> RoundOk(tt, q, rows, i)
  }

  lemma RowsExtend(tt: Timetable, q: Query, before: seq<Row>, rows: seq<Row>, k: nat)
    requires 1 <= k < |rows| == |before|
    requires RowsOk(tt, q, before, k) && rows == before[k := rows[k]]
    requires RoundOk(tt, q, rows, k)
    ensures RowsOk(tt, q, rows, k + 1)
  {
    forall i | 0 <= i < k
      ensures RoundOk(tt, q, rows, i)
    {
      assert RoundOk(tt, q, before, i);
      assert rows[i] == before[i] && PrevRow(rows, i) == PrevRow(before, i);
    }
  }

  /** Scanning the queued patterns closes the round under all rides. */
  lemma RoundClosed(tt: Timetable, q: Query, prev: Row, row: Row, marked: seq<bool>, pats: seq<nat>, patMin: seq<int>,
      ub: nat)
    requires |prev| == |row| == |marked| == tt.numStops && Improves(prev, row)
    requires QueueOk(tt, patMin, pats) && AllScanned(tt, q, pats, patMin, prev, row, ub)
    requires forall p: nat, pos: nat :: Serves(tt, p, pos, marked) ==> 0 <= patMin[p] <= pos
    requires UnmarkedClosed(tt, q, prev, marked, ub)
    ensures RidesClosed(tt, q, prev, row, ub)
  {
    forall p: nat, t, i: nat, j: nat, day | RideAt(tt, q, p, t, i, j, day) && Catches(tt, prev, p, t, i, day)
      ensures Covered(row, tt.Stop(p, j), Arr(tt, p, t, j, day), ub)
    {
      if marked[tt.Stop(p, i)] {
        assert Serves(tt, p, i, marked);
        assert ScannedBoth(tt, q, p, patMin[p], prev, row, ub);
      } else {
        assert Covered(prev, tt.Stop(p, j), Arr(tt, p, t, j, day), ub);
      }
    }
  }

  lemma UnmarkedAfter(tt: Timetable, q: Query, prev: Row, row: Row, marked: seq<bool>, ub: nat)
    requires |prev| == |row| == |marked| == tt.numStops
    requires RidesClosed(tt, q, prev, row, ub)
    requires forall s :: 0 <= s < tt.numStops && row[s] != prev[s] ==> marked[s]
    ensures UnmarkedClosed(tt, q, row, marked, ub)
  {
    forall p, t, i: nat, j: nat, day |
      RideAt(tt, q, p, t, i, j, day) && !marked[tt.Stop(p, i)] && Catches(tt, row, p, t, i, day)
      ensures Covered(row, tt.Stop(p, j), Arr(tt, p, t, j, day), ub)
    {
      assert Catches(tt, prev, p, t, i, day);
    }
  }

  ghost predicate At2(tt: Timetable, p: nat, pos: nat)
  {
    pos < tt.PatLen(p) && tt.Stop(p, pos) < tt.numStops
  }

  /** Position pos of pattern p is a marked stop. */
  ghost predicate Serves(tt: Timetable, p: nat, pos: nat, marked: seq<bool>)
    requires |marked| == tt.numStops
  {
    At2(tt, p, pos) && marked[tt.Stop(p, pos)]
  }

  /** patMin holds a position exactly for the queued patterns, each queued once. */
  ghost predicate QueueOk(tt: Timetable, patMin: seq<int>, patList: seq<nat>)
  {
    && |patMin| == tt.NumPatterns()
    && (forall i :: 0 <= i < |patList| ==> patList[i] < tt.NumPatterns())
    && (forall i, j :: 0 <= i < j < |patList| ==> patList[i] != patList[j])
    && (forall p :: 0 <= p < tt.NumPatterns() ==> patMin[p] >= -1 && (patMin[p] >= 0 <==> p in patList))
  }

  /** Queued positions only move towards the start. */
  ghost predicate Earlier(before: seq<int>, after: seq<int>) {
    |before| == |after| && forall p :: 0 <= p < |before| && before[p] >= 0 ==> 0 <= after[p] <= before[p]
  }

  /** Every pattern position of the listed stops is queued, at that position or before it. */
  ghost predicate QueuedFrom(tt: Timetable, stops: seq<nat>, patMin: seq<int>)
    requires |patMin| == tt.NumPatterns()
  {
    forall p: nat, pos: nat | At2(tt, p, pos) :: tt.Stop(p, pos) in stops ==> 0 <= patMin[p] <= pos
  }

  lemma QueuedStep(tt: Timetable, stops: seq<nat>, s: nat, before: seq<int>, patMin: seq<int>)
    requires |patMin| == |before| == tt.NumPatterns() && s < tt.numStops
    requires QueuedFrom(tt, stops, before) && Earlier(before, patMin)
    requires tt.Valid()
    requires forall i: nat, p: nat, pos: nat :: tt.Entry(s, i, p, pos) ==> 0 <= patMin[p] <= pos
    ensures QueuedFrom(tt, stops + [s], patMin)
  {
    forall p: nat, pos: nat | At2(tt, p, pos) && tt.Stop(p, pos) in stops + [s]
      ensures 0 <= patMin[p] <= pos
    {
      if tt.Stop(p, pos) == s {
        assert tt.PositionOk(p, pos);
        var i: nat :| tt.Entry(s, i, p, pos);
      } else {
        assert 0 <= before[p] <= pos;
      }
    }
  }

  ghost predicate ScannedBoth(tt: Timetable, q: Query, p: nat, start: nat, prev: Row, row: Row, ub: nat)
    requires |row| == |prev| == tt.numStops
  {
    PatternClosed(tt, q, p, YESTERDAY, start, prev, row, ub) && PatternClosed(tt, q, p, 0, start, prev, row, ub)
  }

  ghost predicate AllScanned(tt: Timetable, q: Query, pats: seq<nat>, patMin: seq<int>, prev: Row, row: Row, ub: nat)
    requires |row| == |prev| == tt.numStops && |patMin| == tt.NumPatterns()
  {
    forall p | p in pats && p < tt.NumPatterns() && patMin[p] >= 0 :: ScannedBoth(tt, q, p, patMin[p], prev, row, ub)
  }

  lemma AllScannedMono(tt: Timetable, q: Query, pats: seq<nat>, patMin: seq<int>, prev: Row, before: Row, row: Row,
      ub: nat)
    requires |row| == |prev| == tt.numStops && Improves(before, row) && |patMin| == tt.NumPatterns()
    requires AllScanned(tt, q, pats, patMin, prev, before, ub)
    ensures AllScanned(tt, q, pats, patMin, prev, row, ub)
  {
    forall p | p in pats && p < tt.NumPatterns() && patMin[p] >= 0
      ensures ScannedBoth(tt, q, p, patMin[p], prev, row, ub)
    {
      assert ScannedBoth(tt, q, p, patMin[p], prev, before, ub);
      ClosedMono(tt, q, p, YESTERDAY, patMin[p], prev, before, row, ub);
      ClosedMono(tt, q, p, 0, patMin[p], prev, before, row, ub);
    }
  }

  lemma ClosedMono(tt: Timetable, q: Query, p: nat, day: int, start: nat, prev: Row, before: Row, row: Row, ub: nat)
    requires |row| == |prev| == tt.numStops && Improves(before, row)
    requires PatternClosed(tt, q, p, day, start, prev, before, ub)
    ensures PatternClosed(tt, q, p, day, start, prev, row, ub)
  {
    forall t, i: nat, j: nat | start <= i && RideAt(tt, q, p, t, i, j, day) && Catches(tt, prev, p, t, i, day)
      ensures Covered(row, tt.Stop(p, j), Arr(tt, p, t, j, day), ub)
    {
      assert Covered(before, tt.Stop(p, j), Arr(tt, p, t, j, day), ub);
    }
  }

  /** The label of u was written by a footpath out of s. */
  ghost predicate WalkedFrom(tt: Timetable, row: Row, s: nat, u: nat)
    requires |row| == tt.numStops && s < tt.numStops && u < tt.numStops
  {
    && row[u].kind == Xfer
    && exists x: nat :: XferAt(tt, s, x, u) && row[u].tau == row[s].tau + XferSec(tt.xferDs[x])
  }

  /** One footpath out of s has improved the label of `to` and nothing else. */
  ghost predicate Walked(tt: Timetable, before: Row, row: Row, s: nat, to: nat)
    requires |row| == |before| == tt.numStops && s < tt.numStops && to < tt.numStops
  {
    && to != s
    && WalkedFrom(tt, row, s, to)
    && row[to].tau < before[to].tau
    && row == before[to := row[to]]
  }

  /** The footpaths of s before index x have been relaxed, starting from the labels `before`. */
  ghost predicate WalkedTo(tt: Timetable, before: Row, row: Row, s: nat, x: nat, ub: nat)
    requires |row| == |before| == tt.numStops && s < tt.numStops
  {
    && Improves(before, row)
    && row[s] == before[s]
    && (forall x': nat, to: nat :: x' < x && XferAt(tt, s, x', to) ==>
      Covered(row, to, row[s].tau + XferSec(tt.xferDs[x']), ub))
    && forall u :: 0 <= u < tt.numStops ==> row[u] == before[u] || WalkedFrom(tt, row, s, u)
  }

  lemma WalkStep(tt: Timetable, before: Row, mid: Row, row: Row, s: nat, x: nat, ub: nat)
    requires |row| == |mid| == |before| == tt.numStops && s < tt.numStops
    requires tt.XferIn(s, x) && XferAt(tt, s, x, tt.xferTo[x])
    requires WalkedTo(tt, before, mid, s, x, ub)
    requires row == mid || Walked(tt, mid, row, s, tt.xferTo[x])
    requires Covered(row, tt.xferTo[x], row[s].tau + XferSec(tt.xferDs[x]), ub)
    ensures WalkedTo(tt, before, row, s, x + 1, ub)
  {
    forall u | 0 <= u < tt.numStops
      ensures row[u] == before[u] || WalkedFrom(tt, row, s, u)
    {
      assert mid[u] == before[u] || WalkedFrom(tt, mid, s, u);
    }
  }

  /** Footpaths are covered, except out of the ride-reached stops still to be processed. */
  ghost predicate FootPending(tt: Timetable, row: Row, rest: seq<nat>, ub: nat)
    requires |row| == tt.numStops
  {
    forall u :: 0 <= u < tt.numStops && row[u].kind in {Ride, Xfer} ==>
      FootClosedAt(tt, row, u, ub) || (row[u].kind == Ride && u in rest)
  }

  lemma FootMono(tt: Timetable, before: Row, row: Row, u: nat, ub: nat)
    requires |row| == tt.numStops && u < tt.numStops && Improves(before, row)
    requires before[u] == row[u] && FootClosedAt(tt, before, u, ub)
    ensures FootClosedAt(tt, row, u, ub)
  {
  }

  /** By the triangle inequality, a stop just walked to from s needs no footpaths of its own. */
  lemma WalkedIsClosed(tt: Timetable, row: Row, s: nat, u: nat, ub: nat)
    requires Triangle(tt) && |row| == tt.numStops && s < tt.numStops && u < tt.numStops
    requires FootClosedAt(tt, row, s, ub) && WalkedFrom(tt, row, s, u)
    ensures FootClosedAt(tt, row, u, ub)
  {
    var x: nat :| XferAt(tt, s, x, u) && row[u].tau == row[s].tau + XferSec(tt.xferDs[x]);
    forall y: nat, c: nat | XferAt(tt, u, y, c)
      ensures Covered(row, c, row[u].tau + XferSec(tt.xferDs[y]), ub)
    {
      if c != s {
        assert Shortcut(tt, s, c, XferSec(tt.xferDs[x]) + XferSec(tt.xferDs[y]));
        var z: nat :| tt.XferIn(s, z) && tt.xferTo[z] == c
          && XferSec(tt.xferDs[z]) <= XferSec(tt.xferDs[x]) + XferSec(tt.xferDs[y]);
        assert XferAt(tt, s, z, c);
      }
    }
  }
}
