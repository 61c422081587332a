/** From rounds to journeys: the best complete arrivals, the legs behind a label, and what no chain beats. */
module RaptorJourneys {
  import opened Words
  import opened Transit
  import opened RaptorLabels
  import opened RaptorOptimal
  import opened Reversing
  import opened RaptorRounds

  // ---- the best complete arrival of each round -----------------------------------------

  /** The cheapest egress per target stop. */
  ghost predicate ExtraOk(q: Query, extra: map<nat, nat>) {
    && (forall t :: t in extra ==> EgressOf(q, t, extra[t]))
    && forall i :: 0 <= i < |q.targets| ==> q.targets[i].stop in extra
  }

  method TargetExtra(q: Query) returns (extra: map<nat, nat>)
    ensures ExtraOk(q, extra)
    ensures forall t :: t in extra ==> exists i :: 0 <= i < |q.targets| && q.targets[i].stop == t
  {
    extra := map[];
    var i := 0;
    while i < |q.targets|
      invariant i <= |q.targets|
      invariant forall t :: t in extra ==>
        (exists i' :: 0 <= i' < i && q.targets[i'].stop == t && q.targets[i'].sec == extra[t])
      invariant forall i' :: 0 <= i' < i ==>
        q.targets[i'].stop in extra && extra[q.targets[i'].stop] <= q.targets[i'].sec
    {
      var t := q.targets[i];
      if t.stop !in extra || t.sec < extra[t.stop] {
        extra := extra[t.stop := t.sec];
      }
      i := i + 1;
    }
  }

  /** best is the earliest of the label-plus-egress sums, reached at target. */
  ghost predicate Evaluated(extra: map<nat, nat>, row: Row, best: nat, target: int) {
    && best <= INF
    && (if target < 0 then target == -1 && best == INF
        else
          && target in extra && target < |row| && row[target].tau < INF
          && best == Add32(row[target].tau, extra[target]) < INF)
    && forall t :: t in extra && t < |row| && row[t].tau < INF ==> best <= Add32(row[t].tau, extra[t])
  }

  function Sooner(a: nat, b: nat): nat { if a < b then a else b }

  lemma BestExtended(bestArr: seq<nat>, ub: nat, best: nat)
    requires BestSoFar(bestArr, ub) && best <= INF
    ensures BestSoFar(bestArr + [best], Sooner(best, ub))
  {
    var all, ub' := bestArr + [best], if best < ub then best else ub;
    if ub' != INF {
      if best < ub {
        assert all[|bestArr|] == ub';
      } else {
        var k :| 0 <= k < |bestArr| && bestArr[k] == ub;
        assert all[k] == ub';
      }
    }
  }

  lemma EvaluatedMore(extra: map<nat, nat>, rows: seq<Row>, k: nat, bestArr: seq<nat>, bestTarget: seq<int>, best: nat,
      target: int)
    requires k < |rows| && |bestArr| == |bestTarget| == k
    requires forall i :: 0 <= i < k ==> Evaluated(extra, rows[i], bestArr[i], bestTarget[i])
    requires Evaluated(extra, rows[k], best, target)
    ensures forall i :: 0 <= i < k + 1 ==> Evaluated(extra, rows[i], (bestArr + [best])[i], (bestTarget + [target])[i])
  {
  }

  /** The best target of one round; targets are visited in no particular order. */
  method EvalTargets(extra: map<nat, nat>, row: Row) returns (best: nat, target: int)
    requires forall t :: t in extra ==> t < |row|
    ensures Evaluated(extra, row, best, target)
  {
    best, target := INF, -1;
    var todo := extra.Keys;
    while todo != {}
      invariant todo <= extra.Keys
      invariant best <= INF
      invariant if target < 0 then target == -1 && best == INF
        else target in extra && row[target].tau < INF && best == Add32(row[target].tau, extra[target]) < INF
      invariant forall t :: t in extra && t !in todo && row[t].tau < INF ==> best <= Add32(row[t].tau, extra[t])
      decreases |todo|
    {
      var t :| t in todo;
      todo := todo - {t};
      if row[t].tau < INF {
        var cand := Add32(row[t].tau, extra[t]);
        if cand < best {
          best, target := cand, t;
        }
      }
    }
  }

  /** ub is the least of the arrivals found, or never. */
  ghost predicate BestSoFar(bestArr: seq<nat>, ub: nat) {
    && ub <= INF
    && (ub == INF || exists k :: 0 <= k < |bestArr| && bestArr[k] == ub)
    && forall k :: 0 <= k < |bestArr| ==> ub <= bestArr[k]
  }

  /** Some round up to k arrives by t. */
  ghost predicate ArrivesBy(bestArr: seq<nat>, k: nat, t: int) {
    exists i :: 0 <= i <= k && i < |bestArr| && bestArr[i] <= t
  }

  /** No chain of at most m rides arrives before the best round with no more rides. */
  ghost predicate AllBeaten(tt: Timetable, q: Query, bestArr: seq<nat>, extra: map<nat, nat>, m: nat) {
    forall src, hops | Feasible(tt, q, src, hops) && |hops| <= m :: ChainBeaten(tt, q, bestArr, extra, src, hops)
  }

  ghost predicate ChainBeaten(tt: Timetable, q: Query, bestArr: seq<nat>, extra: map<nat, nat>, src: nat,
      hops: seq<Hop>)
    requires Feasible(tt, q, src, hops)
  {
    var s, t := EndStop(tt, q, src, hops), EndTime(tt, q, src, hops);
    s in extra && t + extra[s] < INF ==> ArrivesBy(bestArr, |hops|, t + extra[s])
  }

  lemma ChainIsBeaten(tt: Timetable, q: Query, row: Row, extra: map<nat, nat>, before: seq<nat>, bestArr: seq<nat>,
                      target: int, k: nat, ub: nat, src: nat, hops: seq<Hop>)
    requires q.Valid(tt) && |row| == tt.numStops
    requires Feasible(tt, q, src, hops) && k <= |hops| && CoversChain(tt, q, row, src, hops, ub)
    requires |before| == k && |bestArr| > k && bestArr[..k] == before && BestSoFar(before, ub)
    requires Evaluated(extra, row, bestArr[k], target)
    ensures ChainBeaten(tt, q, bestArr, extra, src, hops)
  {
    var s, t := EndStop(tt, q, src, hops), EndTime(tt, q, src, hops);
    if s in extra && t + extra[s] < INF {
      if row[s].tau <= t {
        assert bestArr[k] <= row[s].tau + extra[s];
      } else {
        var i :| 0 <= i < |before| && before[i] == ub;
        assert bestArr[..k][i] == bestArr[i];
      }
    }
  }

  lemma BeatenStep(tt: Timetable, q: Query, row: Row, extra: map<nat, nat>, before: seq<nat>, bestArr: seq<nat>,
                   target: int, k: nat, ub: nat)
    requires q.Valid(tt) && |row| == tt.numStops
    requires CoversAll(tt, q, row, k, ub)
    requires |before| == k && |bestArr| == k + 1 && bestArr[..k] == before && BestSoFar(before, ub)
    requires k >= 1 ==> AllBeaten(tt, q, before, extra, k - 1)
    requires Evaluated(extra, row, bestArr[k], target)
    ensures AllBeaten(tt, q, bestArr, extra, k)
  {
    forall src, hops | Feasible(tt, q, src, hops) && |hops| <= k
      ensures ChainBeaten(tt, q, bestArr, extra, src, hops)
    {
      assert CoversChain(tt, q, row, src, hops, ub);
      if |hops| == k {
        ChainIsBeaten(tt, q, row, extra, before, bestArr, target, k, ub, src, hops);
      } else {
        assert ChainBeaten(tt, q, before, extra, src, hops);
        StillBeaten(tt, q, before, bestArr, extra, src, hops);
      }
    }
  }

  lemma StillBeaten(tt: Timetable, q: Query, before: seq<nat>, bestArr: seq<nat>, extra: map<nat, nat>, src: nat,
      hops: seq<Hop>)
    requires before <= bestArr && Feasible(tt, q, src, hops) && ChainBeaten(tt, q, before, extra, src, hops)
    ensures ChainBeaten(tt, q, bestArr, extra, src, hops)
  {
    var s, t := EndStop(tt, q, src, hops), EndTime(tt, q, src, hops);
    if s in extra && t + extra[s] < INF {
      var i :| 0 <= i <= |hops| && i < |before| && before[i] <= t + extra[s];
      assert bestArr[i] == before[i];
    }
  }

  /** Once a round changes nothing, its labels answer for every longer chain too. */
  lemma Settled(tt: Timetable, q: Query, row0: Row, row: Row, extra: map<nat, nat>, bestArr: seq<nat>,
                target: int, k: nat, maxRounds: nat, ub: nat)
    requires q.Valid(tt) && NonDecreasing(tt, q) && |bestArr| == k + 1 && k >= 1
    requires RowOk(tt, q, row0, row, row) && SeedsCover(q, row)
    requires RidesClosed(tt, q, row, row, ub) && FootClosed(tt, row, ub)
    requires BestSoFar(bestArr[..k], ub) && Evaluated(extra, row, bestArr[k], target)
    requires AllBeaten(tt, q, bestArr, extra, k)
    ensures AllBeaten(tt, q, bestArr, extra, maxRounds)
  {
    forall src, hops | Feasible(tt, q, src, hops) && |hops| <= maxRounds
      ensures ChainBeaten(tt, q, bestArr, extra, src, hops)
    {
      if |hops| > k {
        FixpointCovers(tt, q, row0, row, ub, src, hops);
        ChainIsBeaten(tt, q, row, extra, bestArr[..k], bestArr, target, k, ub, src, hops);
      }
    }
  }

  /** Rounds that were not run arrive never. */
  method Padded(bestArr: seq<nat>, bestTarget: seq<int>, maxRounds: nat, ghost tt: Timetable, ghost q: Query,
      ghost extra: map<nat, nat>)
    returns (arr: seq<nat>, target: seq<int>)
    requires |bestArr| == |bestTarget| <= maxRounds + 1
    ensures |arr| == |target| == maxRounds + 1 && bestArr <= arr && bestTarget <= target
    ensures forall k :: |bestArr| <= k <= maxRounds ==> arr[k] == INF && target[k] == -1
    ensures AllBeaten(tt, q, bestArr, extra, maxRounds) ==> AllBeaten(tt, q, arr, extra, maxRounds)
  {
    arr, target := bestArr, bestTarget;
    while |arr| <= maxRounds
      invariant |arr| == |target| <= maxRounds + 1 && bestArr <= arr && bestTarget <= target
      invariant forall k :: |bestArr| <= k < |arr| ==> arr[k] == INF && target[k] == -1
    {
      arr, target := arr + [INF], target + [-1];
    }
    if AllBeaten(tt, q, bestArr, extra, maxRounds) {
      forall src, hops | Feasible(tt, q, src, hops) && |hops| <= maxRounds
        ensures ChainBeaten(tt, q, arr, extra, src, hops)
      {
        assert ChainBeaten(tt, q, bestArr, extra, src, hops);
        StillBeaten(tt, q, bestArr, arr, extra, src, hops);
      }
    }
  }

  /** What one more round achieves: chains of one more ride are beaten, and all of them if nothing changed. */
  lemma RoundBeats(tt: Timetable, q: Query, row0: Row, prev: Row, row: Row, extra: map<nat, nat>, before: seq<nat>,
                   bestArr: seq<nat>, target: int, k: nat, ub: nat, ub': nat, maxRounds: nat)
    requires q.Valid(tt) && NonDecreasing(tt, q) && k >= 1
    requires |prev| == tt.numStops && RowOk(tt, q, row0, prev, row)
    requires SeedsCover(q, row0) && Improves(row0, prev) && Improves(prev, row)
    requires RidesClosed(tt, q, prev, row, ub) && FootClosed(tt, row, ub)
    requires CoversAll(tt, q, prev, k - 1, ub) && AllBeaten(tt, q, before, extra, k - 1)
    requires |before| == k && |bestArr| == k + 1 && bestArr[..k] == before && BestSoFar(before, ub)
    requires Evaluated(extra, row, bestArr[k], target) && ub' <= ub
    ensures CoversAll(tt, q, row, k, ub') && AllBeaten(tt, q, bestArr, extra, k)
    ensures row == prev ==> AllBeaten(tt, q, bestArr, extra, maxRounds)
  {
    RoundCovers(tt, q, row0, prev, row, k - 1, ub);
    BeatenStep(tt, q, row, extra, before, bestArr, target, k, ub);
    CoversLower(tt, q, row, k, ub, ub');
    if row == prev {
      assert bestArr[..k] == before;
      Settled(tt, q, row0, row, extra, bestArr, target, k, maxRounds, ub);
    }
  }

  lemma CoversLower(tt: Timetable, q: Query, row: Row, k: nat, ub: nat, ub': nat)
    requires q.Valid(tt) && |row| == tt.numStops && ub' <= ub && CoversAll(tt, q, row, k, ub)
    ensures CoversAll(tt, q, row, k, ub')
  {
    forall src, hops | Feasible(tt, q, src, hops) && |hops| <= k
      ensures CoversChain(tt, q, row, src, hops, ub')
    {
      assert CoversChain(tt, q, row, src, hops, ub);
    }
  }

  lemma ClosedLower(tt: Timetable, q: Query, row: Row, marked: seq<bool>, ub: nat, ub': nat)
    requires |row| == |marked| == tt.numStops && ub' <= ub
    requires FootClosed(tt, row, ub) && UnmarkedClosed(tt, q, row, marked, ub)
    ensures FootClosed(tt, row, ub') && UnmarkedClosed(tt, q, row, marked, ub')
  {
    forall s | 0 <= s < tt.numStops && row[s].kind in {Ride, Xfer}
      ensures FootClosedAt(tt, row, s, ub')
    {
      assert FootClosedAt(tt, row, s, ub);
      forall x: nat, to: nat | XferAt(tt, s, x, to)
        ensures Covered(row, to, row[s].tau + XferSec(tt.xferDs[x]), ub')
      {
        assert Covered(row, to, row[s].tau + XferSec(tt.xferDs[x]), ub);
      }
    }
    forall p, t, i: nat, j: nat, day |
      RideAt(tt, q, p, t, i, j, day) && !marked[tt.Stop(p, i)] && Catches(tt, row, p, t, i, day)
      ensures Covered(row, tt.Stop(p, j), Arr(tt, p, t, j, day), ub')
    {
      assert Covered(row, tt.Stop(p, j), Arr(tt, p, t, j, day), ub);
    }
  }

  // ---- the answer -----------------------------------------------------------------------

  /** Every arrival found in the first k rounds is matched by round zero or by a journey with no more rides. */
  ghost predicate AllRounds(bestArr: seq<nat>, out: seq<Journey>, k: nat) {
    forall i :: 1 <= i < k && i < |bestArr| && bestArr[i] < INF ==>
      bestArr[0] <= bestArr[i] || HasJourney(out, i, bestArr[i])
  }

  lemma AllRoundsMono(bestArr: seq<nat>, before: seq<Journey>, out: seq<Journey>, k: nat, best: nat)
    requires k < |bestArr| && before <= out && AllRounds(bestArr, before, k)
    requires best <= bestArr[k] && (k == 0 || best == INF || bestArr[0] <= best || HasJourney(out, k, best))
    ensures AllRounds(bestArr, out, k + 1)
  {
    forall i | 1 <= i < k + 1 && i < |bestArr| && bestArr[i] < INF
      ensures bestArr[0] <= bestArr[i] || HasJourney(out, i, bestArr[i])
    {
      if i < k && bestArr[0] > bestArr[i] {
        var m :| 0 <= m < |before| && before[m].rides <= i && before[m].arrSec <= bestArr[i];
        assert out[m] == before[m];
      }
    }
  }

  /** Every journey is a real one, with its alighting stops looked up again. */
  ghost predicate JourneysReported(tt: Timetable, q: Query, out: seq<Journey>) {
    forall i :: 0 <= i < |out| ==> ReportedJourney(tt, q, out[i])
  }

  lemma OneMoreJourney(tt: Timetable, q: Query, out: seq<Journey>, j: Journey)
    requires JourneysReported(tt, q, out) && ReportedJourney(tt, q, j)
    ensures JourneysReported(tt, q, out + [j])
  {
  }

  ghost predicate HasJourney(out: seq<Journey>, rides: nat, t: int) {
    exists i :: 0 <= i < |out| && out[i].rides <= rides && out[i].arrSec <= t
  }

  /** A seed of the query is itself a target, reached by t without a ride. */
  ghost predicate NoRideNeeded(q: Query, t: int) {
    exists i, extra :: 0 <= i < |q.sources| && EgressOf(q, q.sources[i].stop, extra) && q.sources[i].sec + extra <= t
  }

  /** No feasible chain with at most maxTransfers + 1 rides arrives before every journey with no more rides. */
  ghost predicate NothingBeats(tt: Timetable, q: Query, out: seq<Journey>) {
    forall src, hops, extra |
      && Feasible(tt, q, src, hops) && |hops| <= q.maxTransfers + 1
      && EgressOf(q, EndStop(tt, q, src, hops), extra) ::
      EndTime(tt, q, src, hops) + extra < INF ==>
        || HasJourney(out, |hops|, EndTime(tt, q, src, hops) + extra)
        || NoRideNeeded(q, EndTime(tt, q, src, hops) + extra)
  }

  /** No chain at all with at most maxTransfers + 1 rides does. */
  ghost predicate NothingAtAllBeats(tt: Timetable, q: Query, out: seq<Journey>) {
    forall src, hops, extra |
      && Chain(tt, q, src, hops) && |hops| <= q.maxTransfers + 1
      && EgressOf(q, EndStop(tt, q, src, hops), extra) ::
      EndTime(tt, q, src, hops) + extra < INF ==>
        || HasJourney(out, |hops|, EndTime(tt, q, src, hops) + extra)
        || NoRideNeeded(q, EndTime(tt, q, src, hops) + extra)
  }

  lemma AllChainsCount(tt: Timetable, q: Query, out: seq<Journey>)
    requires NothingBeats(tt, q, out) && FootpathsSeeded(tt, q)
    ensures NothingAtAllBeats(tt, q, out)
  {
    forall src, hops | Chain(tt, q, src, hops) ensures Feasible(tt, q, src, hops) { ChainCounts(tt, q, src, hops); }
  }

  /** A strictly better arrival means a strictly better label at its target than in round zero. */
  lemma TargetImproved(tt: Timetable, q: Query, rows: seq<Row>, extra: map<nat, nat>, best0: nat, target0: int,
                       best: nat, target: int, k: nat)
    requires k < |rows| && RoundOk(tt, q, rows, k)
    requires Evaluated(extra, rows[0], best0, target0) && Evaluated(extra, rows[k], best, target)
    requires best < best0
    ensures 0 <= target < tt.numStops && rows[k][target].tau < rows[0][target].tau && rows[k][target].tau < INF
  {
  }

  lemma Real(tt: Timetable, q: Query, j: Journey, truth: seq<RLeg>, extra: map<nat, nat>, end: nat)
    requires ExtraOk(q, extra) && j.target in extra && end < INF
    requires exists i :: TravelsFromSeed(tt, q, i, truth, j.target, end)
    requires AllReported(tt, j.legs, truth) && RideCount(truth) == RideCount(j.legs)
    requires j.arrSec == Add32(end, extra[j.target]) && j.rides == RideCount(j.legs) &&
      1 <= j.rides <= q.maxTransfers + 1
    ensures ReportedJourney(tt, q, j)
  {
    var i :| TravelsFromSeed(tt, q, i, truth, j.target, end);
    assert RunsFrom(tt, q, j.(legs := truth), i, end, extra[j.target]);
    assert RealJourney(tt, q, j.(legs := truth));
  }

  lemma NoneBetter(tt: Timetable, q: Query, row0: Row, extra: map<nat, nat>, bestArr: seq<nat>, target0: int,
      out: seq<Journey>)
    requires q.Valid(tt) && RowOk(tt, q, row0, [], row0)
    requires forall s :: 0 <= s < tt.numStops ==> row0[s].kind in {Unset, Access}
    requires forall i :: 0 <= i < |q.targets| ==> q.targets[i].sec < TWO_31
    requires ExtraOk(q, extra) && q.maxTransfers >= -1 && |bestArr| == q.maxTransfers + 2
    requires Evaluated(extra, row0, bestArr[0], target0)
    requires AllBeaten(tt, q, bestArr, extra, q.maxTransfers + 1)
    requires AllRounds(bestArr, out, q.maxTransfers + 2)
    ensures NothingBeats(tt, q, out)
  {
    forall src, hops, e: nat |
      Feasible(tt, q, src, hops) && |hops| <= q.maxTransfers + 1 && EgressOf(q, EndStop(tt, q, src, hops), e)
        && EndTime(tt, q, src, hops) + e < INF
      ensures HasJourney(out, |hops|, EndTime(tt, q, src, hops) + e) || NoRideNeeded(q, EndTime(tt, q, src, hops) + e)
    {
      var s, t := EndStop(tt, q, src, hops), EndTime(tt, q, src, hops);
      assert ChainBeaten(tt, q, bestArr, extra, src, hops);
      assert s in extra && extra[s] == e;
      var i :| 0 <= i <= |hops| && i < |bestArr| && bestArr[i] <= t + e;
      if i > 0 && HasJourney(out, i, bestArr[i]) {
      } else {
        SeedIsTarget(tt, q, row0, extra, bestArr[0], target0, t + e);
      }
    }
  }

  lemma SeedIsTarget(tt: Timetable, q: Query, row0: Row, extra: map<nat, nat>, best0: nat, target0: int, t: int)
    requires q.Valid(tt) && RowOk(tt, q, row0, [], row0) && ExtraOk(q, extra)
    requires forall s :: 0 <= s < tt.numStops ==> row0[s].kind in {Unset, Access}
    requires Evaluated(extra, row0, best0, target0) && best0 <= t < INF
    requires forall i :: 0 <= i < |q.targets| ==> q.targets[i].sec < TWO_31
    ensures NoRideNeeded(q, t)
  {
    assert LabelOk(tt, q, row0, [], row0, target0);
    var i :| 0 <= i < |q.sources| && q.sources[i].stop == target0 && q.sources[i].sec == row0[target0].tau;
    assert EgressOf(q, target0, extra[target0]);
  }

  /** Seeding has seen the first i sources: the label of s is the earliest of them, or none. */
  ghost predicate SeededAt(q: Query, row: Row, s: nat, i: nat, rail: bool, railArr: nat)
    requires s < |row| && i <= |q.sources|
  {
    || (row[s].kind == Unset && row[s].tau == INF && !rail && railArr == 0)
    || (row[s].kind == Access && row[s].tau < INF &&
          exists i' :: 0 <= i' < i <= |q.sources| && IsSeed(q.sources[i'], s, row[s].tau, rail, railArr))
  }

  lemma SeedsAreTrue(tt: Timetable, q: Query, row: Row, sourceRail: seq<bool>, sourceRailArr: seq<nat>)
    requires q.Valid(tt) && |row| == |sourceRail| == |sourceRailArr| == tt.numStops
    requires forall s :: 0 <= s < tt.numStops ==> SeededAt(q, row, s, |q.sources|, sourceRail[s], sourceRailArr[s])
    ensures RowOk(tt, q, row, [], row)
    ensures forall s :: 0 <= s < tt.numStops ==> sourceRailArr[s] < TWO_32 && row[s].kind in {Unset, Access}
    ensures forall s :: 0 <= s < tt.numStops && row[s].tau < INF ==> row[s].kind == Access
    ensures forall s :: 0 <= s < tt.numStops && sourceRail[s] ==>
      exists i :: 0 <= i < |q.sources| && q.sources[i].priorRail
  {
    forall s | 0 <= s < tt.numStops
      ensures LabelOk(tt, q, row, [], row, s) && sourceRailArr[s] < TWO_32 && row[s].kind in {Unset, Access}
      ensures row[s].tau < INF ==> row[s].kind == Access
      ensures sourceRail[s] ==> exists i :: 0 <= i < |q.sources| && q.sources[i].priorRail
    {
      assert SeededAt(q, row, s, |q.sources|, sourceRail[s], sourceRailArr[s]);
    }
  }

  /** The legs lead from seed i to target. */
  ghost predicate TravelsFromSeed(tt: Timetable, q: Query, i: nat, legs: seq<RLeg>, target: nat, end: int)
  {
    i < |q.sources| && Travels(tt, q, legs, q.sources[i].stop, q.sources[i].sec, target, end)
  }

  lemma SeedStep(q: Query, i: nat, before: Row, rail: seq<bool>, railArr: seq<nat>, row: Row, rail': seq<bool>,
      railArr': seq<nat>)
    requires |before| == |row| == |rail| == |rail'| == |railArr| == |railArr'| && i < |q.sources|
    requires forall u :: 0 <= u < |row| ==> SeededAt(q, before, u, i, rail[u], railArr[u])
    requires forall u :: 0 <= u < |row| ==>
      (row[u], rail'[u], railArr'[u]) == (before[u], rail[u], railArr[u]) ||
      (row[u].kind == Access && row[u].tau < INF && IsSeed(q.sources[i], u, row[u].tau, rail'[u], railArr'[u]))
    ensures forall u :: 0 <= u < |row| ==> SeededAt(q, row, u, i + 1, rail'[u], railArr'[u])
  {
    forall u | 0 <= u < |row|
      ensures SeededAt(q, row, u, i + 1, rail'[u], railArr'[u])
    {
      assert SeededAt(q, before, u, i, rail[u], railArr[u]);
    }
  }

  predicate IsSeed(sd: Seed, s: nat, tau: nat, rail: bool, railArr: nat) {
    sd == Seed(s, tau, rail, railArr)
  }

  /** A footpath label of round zero, written from a seed. */
  lemma WriteRailWalk(tt: Timetable, q: Query, row: Row, s: nat, l: Label, x: nat)
    requires RowOk(tt, q, row, [], row)
    requires s < tt.numStops && l.kind == Xfer && l.tau < row[s].tau && l.tau < INF
    requires XferAt(tt, l.from, x, s) && row[l.from].kind == Access
    requires row[l.from].tau + XferSec(tt.xferDs[x]) == l.tau
    ensures RowOk(tt, q, row[s := l], [], row[s := l])
  {
    var row' := row[s := l];
    forall s' | 0 <= s' < tt.numStops
      ensures LabelOk(tt, q, row', [], row', s')
    {
      assert LabelOk(tt, q, row, [], row, s');
      if s' == s {
        assert XferLabel(tt, row', row', s, x);
      } else if row[s'].kind == Xfer {
        var x' :| XferLabel(tt, row, row, s', x');
        assert XferLabel(tt, row', row', s', x');
      }
    }
  }

  lemma NoLater(tt: Timetable, q: Query, rows: seq<Row>, k: nat, s: nat)
    requires k < |rows| && RoundOk(tt, q, rows, k) && SeedsCover(q, rows[0]) && s < tt.numStops
    ensures NoLaterThanSeeds(q, s, rows[k][s].tau)
  {
  }

  /** A ride label is earlier than every seed of its stop. */
  lemma BeatsSeeds(tt: Timetable, q: Query, rows: seq<Row>, k: nat, s: nat)
    requires k < |rows| && RoundOk(tt, q, rows, k) && SeedsCover(q, rows[0]) && s < tt.numStops &&
      rows[k][s].kind == Ride
    ensures EarlierThanSeeds(q, s, rows[k][s].tau)
  {
    assert LabelOk(tt, q, rows[0], PrevRow(rows, k), rows[k], s);
  }

  lemma XferParent(tt: Timetable, q: Query, rows: seq<Row>, k: nat, s: nat)
    requires k < |rows| && RoundOk(tt, q, rows, k) && s < tt.numStops && rows[k][s].kind == Xfer
    ensures rows[k][s].from < tt.numStops && rows[k][rows[k][s].from].tau <= rows[k][s].tau
  {
    assert LabelOk(tt, q, rows[0], PrevRow(rows, k), rows[k], s);
    var x: nat :| XferLabel(tt, rows[0], rows[k], s, x);
    assert XferAt(tt, rows[k][s].from, x, s);
  }

  lemma RideParent(tt: Timetable, q: Query, rows: seq<Row>, k: nat, s: nat) returns (p: nat, j: nat)
    requires k < |rows| && RoundOk(tt, q, rows, k) && s < tt.numStops && rows[k][s].kind == Ride
    ensures k >= 1 && RideLabel(tt, q, rows[k - 1], rows[k][s], s, p, j)
    ensures tt.TripIn(p, rows[k][s].trip) && rows[k][s].board < j < tt.PatLen(p) && tt.Stop(p, j) == s
    ensures rows[k][s].from < tt.numStops
  {
    assert LabelOk(tt, q, rows[0], PrevRow(rows, k), rows[k], s);
    p, j :| RideLabel(tt, q, PrevRow(rows, k), rows[k][s], s, p, j);
  }

  /** The legs walked back so far lead from s in round kk to the target of round k. */
  ghost predicate Rebuilt(tt: Timetable, q: Query, rows: seq<Row>, kk: nat, s: nat, legs: seq<RLeg>, target: nat,
      end: int, k: nat) {
    && kk <= k < |rows| && s < |rows[kk]| && s < |rows[0]| && rows[kk][s].tau < INF
    && Travels(tt, q, legs, s, rows[kk][s].tau, target, end)
    && RideCount(legs) <= k - kk
    && (RideCount(legs) == 0 ==> rows[kk][s].tau < rows[0][s].tau)
  }

  /** The leg is the ride that label l stands for. */
  ghost predicate RideLegOk(tt: Timetable, q: Query, prev: Row, l: Label, s: nat, leg: RLeg) {
    && leg.RideLeg? && leg.trip == l.trip && leg.board == l.board && leg.day == l.day
    && RideLabel(tt, q, prev, l, s, leg.pattern, leg.alight)
  }

  /** Looking the alighting stop of a true label up again finds its own position exactly when the first visit is served
      in time. */
  lemma LookupTells(tt: Timetable, q: Query, prev: Row, l: Label, s: nat, p: nat, j: nat, alight: nat)
    requires RideLabel(tt, q, prev, l, s, p, j) && alight <= j && LookedUp(tt, p, s, l.board, alight)
    ensures Reported(tt, RideLeg(l.trip, p, l.board, alight, l.day), RideLeg(l.trip, p, l.board, j, l.day))
  {
    assert alight < j ==> !ServedBy(tt, p, l.trip, alight, l.day, l.tau);
  }

  lemma {:induction false} ReportedBack(tt: Timetable, legs: seq<RLeg>, truth: seq<RLeg>)
    requires AllReported(tt, legs, truth)
    ensures AllReported(tt, Reversed(legs), Reversed(truth))
    decreases |legs|
  {
    if legs != [] {
      ReportedBack(tt, legs[1..], truth[1..]);
    }
  }

  lemma {:induction false} SameCount(tt: Timetable, legs: seq<RLeg>, truth: seq<RLeg>)
    requires AllReported(tt, legs, truth)
    ensures RideCount(legs) == RideCount(truth)
    decreases |legs|
  {
    if legs != [] {
      assert Reported(tt, legs[0], truth[0]);
      SameCount(tt, legs[1..], truth[1..]);
    }
  }

  ghost predicate LegOk(tt: Timetable, q: Query, rows: seq<Row>, kk: nat, s: nat, leg: RLeg)
    requires kk < |rows| && s < |rows[kk]|
  {
    if rows[kk][s].kind == Ride then
      kk >= 1 && RideLegOk(tt, q, PrevRow(rows, kk), rows[kk][s], s, leg)
    else
      var f := rows[kk][s].from;
      && f < |rows[kk]| && leg.FootLeg? && leg.from == f && leg.to == s
      && leg.sec == rows[kk][s].tau - rows[kk][f].tau
  }

  /** Back along a footpath label, to its parent. */
  lemma FootBack(tt: Timetable, q: Query, rows: seq<Row>, kk: nat, s: nat, leg: RLeg, legs: seq<RLeg>, target: nat,
      end: int, k: nat)
    requires kk < |rows| && RoundOk(tt, q, rows, kk) && SeedsCover(q, rows[0]) && s < tt.numStops
    requires rows[kk][s].kind == Xfer && LegOk(tt, q, rows, kk, s, leg)
    requires Rebuilt(tt, q, rows, kk, s, legs, target, end, k)
    ensures Rebuilt(tt, q, rows, kk, leg.from, [leg] + legs, target, end, k)
    ensures rows[kk][leg.from].kind == Xfer ==> rows[kk][leg.from].tau < rows[kk][s].tau
  {
    assert ([leg] + legs)[1..] == legs;
    assert LabelOk(tt, q, rows[0], PrevRow(rows, kk), rows[kk], s);
    var f: nat := leg.from;
    var x: nat :| XferLabel(tt, rows[0], rows[kk], s, x);
    assert XferAt(tt, f, x, s);
    assert rows[kk][f].kind == Xfer ==> rows[kk][f].tau < rows[kk][s].tau by {
      assert LabelOk(tt, q, rows[0], PrevRow(rows, kk), rows[kk], f);
    }
    NoLater(tt, q, rows, kk, f);
  }

  /** Back along a ride label, to the boarding stop one round lower. */
  lemma RideBack(tt: Timetable, q: Query, rows: seq<Row>, kk: nat, s: nat, leg: RLeg, legs: seq<RLeg>, target: nat,
      end: int, k: nat)
    requires 1 <= kk < |rows| && SeedsCover(q, rows[0]) && s < tt.numStops && |rows[kk]| == tt.numStops
    requires RoundOk(tt, q, rows, kk - 1)
    requires RideLegOk(tt, q, rows[kk - 1], rows[kk][s], s, leg) && EarlierThanSeeds(q, s, rows[kk][s].tau)
    requires Rebuilt(tt, q, rows, kk, s, legs, target, end, k)
    ensures Rebuilt(tt, q, rows, kk - 1, rows[kk][s].from, [leg] + legs, target, end, k)
  {
    NoLater(tt, q, rows, kk - 1, rows[kk][s].from);
    assert ([leg] + legs)[1..] == legs;
  }

  /** One step of the walk back; footpath labels lead to strictly earlier ones or to a ride or seed. */
  lemma BackOneLeg(tt: Timetable, q: Query, rows: seq<Row>, kk: nat, s: nat, leg: RLeg, legs: seq<RLeg>, target: nat,
      end: int, k: nat)
    requires kk < |rows| && RowsOk(tt, q, rows, kk + 1) && SeedsCover(q, rows[0]) && s < tt.numStops &&
      |rows[kk]| == tt.numStops
    requires rows[kk][s].kind in {Xfer, Ride} && LegOk(tt, q, rows, kk, s, leg)
    requires Rebuilt(tt, q, rows, kk, s, legs, target, end, k)
    ensures var f := rows[kk][s].from;
      if rows[kk][s].kind == Xfer then
        Rebuilt(tt, q, rows, kk, f, [leg] + legs, target, end, k) &&
        (rows[kk][f].kind == Xfer ==> rows[kk][f].tau < rows[kk][s].tau)
      else
        kk >= 1 && Rebuilt(tt, q, rows, kk - 1, f, [leg] + legs, target, end, k)
  {
    assert RoundOk(tt, q, rows, kk);
    if rows[kk][s].kind == Xfer {
      FootBack(tt, q, rows, kk, s, leg, legs, target, end, k);
    } else {
      assert RoundOk(tt, q, rows, kk - 1);
      BeatsSeeds(tt, q, rows, kk, s);
      RideBack(tt, q, rows, kk, s, leg, legs, target, end, k);
    }
  }

  lemma NotUnset(tt: Timetable, q: Query, rows: seq<Row>, k: nat, s: nat)
    requires k < |rows| && RoundOk(tt, q, rows, k) && s < tt.numStops && rows[k][s].tau < INF
    ensures rows[k][s].kind != Unset
  {
    assert LabelOk(tt, q, rows[0], PrevRow(rows, k), rows[k], s);
  }

  /** Walked back to a seed, the legs make a journey with at least one ride. */
  lemma AtSeed(tt: Timetable, q: Query, rows: seq<Row>, kk: nat, s: nat, legs: seq<RLeg>, target: nat, end: int, k: nat)
    requires kk < |rows| && RoundOk(tt, q, rows, kk) && s < tt.numStops && rows[kk][s].kind == Access
    requires Rebuilt(tt, q, rows, kk, s, legs, target, end, k)
    ensures 1 <= RideCount(legs) <= k
    ensures exists i :: TravelsFromSeed(tt, q, i, legs, target, end)
  {
    assert LabelOk(tt, q, rows[0], PrevRow(rows, kk), rows[kk], s);
    var i :| 0 <= i < |q.sources| && q.sources[i].stop == s && q.sources[i].sec == rows[kk][s].tau;
    assert TravelsFromSeed(tt, q, i, legs, target, end);
  }

  method CountRides(legs: seq<RLeg>) returns (n: nat)
    ensures n == RideCount(legs)
  {
    n := 0;
    var i := 0;
    while i < |legs|
      invariant i <= |legs| && n + RideCount(legs[i..]) == RideCount(legs)
    {
      assert legs[i..][1..] == legs[i + 1..];
      if legs[i].RideLeg? { n := n + 1; }
      i := i + 1;
    }
  }
}
