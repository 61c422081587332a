/** The connections a session keeps an eye on: what every evaluation heard of them, as a function of the record. */
module RiskWatching {
  import opened Words
  import opened Hysteresis
  import opened SessionModel

  /** A connection's levels in order, and those told to the client. */
  datatype Watch = Watch(scores: seq<Score>, emitted: seq<Level>)

  const UNHEARD: Watch := Watch([], [])

  function StateOf(risk: map<nat, RiskState>, leg: nat): RiskState {
    if leg in risk then risk[leg] else UNSCORED
  }

  /** The probability a connection is judged by: a reached stop is certain. */
  function ProbabilityOf(c: Checks, leg: nat, reached: bool): real {
    if reached then 1.0 else c.probability(leg)
  }

  /** What evaluation s, with the rider at this place, takes the probability of catching a connection to be. */
  function ProbabilityAt(s: Step, r: Round, leg: nat): real {
    ProbabilityOf(s.c, leg, r.place.reached && leg == r.place.at)
  }

  /** What is heard after one more judgement. */
  ghost function After(lim: Limits, w: Watch, p: real, now: Time): Watch {
    var level := lim.Judge(p);
    var scores := w.scores + [Score(level, now)];
    Watch(scores, w.emitted + if Announces(lim, w.emitted, scores, level, p) then [level] else [])
  }

  /** What is heard of a connection after one more evaluation. */
  ghost function Next(lim: Limits, w: Watch, s: Step, r: Round, leg: nat): Watch {
    if r.Judges(leg) then After(lim, w, ProbabilityAt(s, r, leg), s.now) else w
  }

  /** What was heard of a connection by the evaluations from `from` on and before `upto`: one level from each that
      judged it, nothing from the others. */
  ghost function WatchOf(lim: Limits, past: seq<Step>, rounds: seq<Round>, from: nat, upto: nat, leg: nat): Watch
    requires upto <= |past| && upto <= |rounds|
    decreases upto
  {
    if upto <= from then UNHEARD
    else Next(lim, WatchOf(lim, past, rounds, from, upto - 1, leg), past[upto - 1], rounds[upto - 1], leg)
  }

  lemma {:induction false} WatchStill(lim: Limits, past: seq<Step>, rounds: seq<Round>, past': seq<Step>,
      rounds': seq<Round>, from: nat, upto: nat, leg: nat)
    requires upto <= |past| && upto <= |rounds| && past <= past' && rounds <= rounds'
    ensures WatchOf(lim, past', rounds', from, upto, leg) == WatchOf(lim, past, rounds, from, upto, leg)
    decreases upto
  {
    if upto > from { WatchStill(lim, past, rounds, past', rounds', from, upto - 1, leg); }
  }

  /** The first evaluation of the plan that evaluation n was made in. */
  ghost function StartOf(events: seq<Event>, n: nat): nat {
    if events == [] then 0
    else if events[|events| - 1].first <= n then events[|events| - 1].first
    else StartOf(events[..|events| - 1], n)
  }

  /** The first evaluation of the current plan. */
  ghost function Began(events: seq<Event>): nat { if events == [] then 0 else events[|events| - 1].first }

  lemma StartStill(events: seq<Event>, e: Event, n: nat)
    requires e.first > n
    ensures StartOf(events + [e], n) == StartOf(events, n)
  {
    assert (events + [e])[..|events|] == events;
  }

  // ---- the counters ---------------------------------------------------------------------------------------------

  ghost predicate TracksWatch(st: RiskState, w: Watch) { Tracks(st, w.scores, w.emitted) }

  /** Every connection's counters are those of what was heard of it since evaluation `from`. */
  ghost predicate AllTrack(lim: Limits, past: seq<Step>, rounds: seq<Round>, from: nat, risk: map<nat, RiskState>)
    requires |rounds| <= |past|
  {
    forall j: nat :: TracksOne(lim, past, rounds, from, risk, j)
  }

  ghost predicate TracksOne(lim: Limits, past: seq<Step>, rounds: seq<Round>, from: nat, risk: map<nat, RiskState>,
    j: nat)
    requires |rounds| <= |past|
  {
    TracksWatch(StateOf(risk, j), WatchOf(lim, past, rounds, from, |rounds|, j))
  }

  /** A new plan starts with no counters. */
  lemma NothingHeard(lim: Limits, past: seq<Step>, rounds: seq<Round>, from: nat)
    requires |rounds| <= from && |rounds| <= |past|
    ensures AllTrack(lim, past, rounds, from, map[])
  {
  }

  lemma TrackStill(lim: Limits, past: seq<Step>, past': seq<Step>, rounds: seq<Round>, from: nat,
      risk: map<nat, RiskState>)
    requires |rounds| <= |past| && past <= past' && AllTrack(lim, past, rounds, from, risk)
    ensures AllTrack(lim, past', rounds, from, risk)
  {
    forall j: nat ensures TracksOne(lim, past', rounds, from, risk, j) {
      assert TracksOne(lim, past, rounds, from, risk, j);
      WatchStill(lim, past, rounds, past', rounds, from, |rounds|, j);
    }
  }

  // ---- the record -----------------------------------------------------------------------------------------------

  /** A hard reason to replace the plan comes first; only without one are connections looked at. */
  predicate NeedsRepair(w: World, c: Checks, legs: seq<Leg>, at: nat) {
    || c.unavailable
    || (!HiddenIn(legs, w, at) && (!c.deviation.OnPlan? || c.tooSlow || c.leftStop))
    || !c.feasible
  }

  predicate LooksAhead(ranking: bool, s: Step, p: Place) {
    ranking && p.at < |p.legs| && !NeedsRepair(s.w, s.c, p.legs, p.at)
  }

  /** A connection is due after evaluation n: its critical streak since the plan began is. */
  ghost predicate DueAfter(lim: Limits, past: seq<Step>, rounds: seq<Round>, from: nat, n: nat, leg: nat)
    requires n < |rounds| && n < |past|
  {
    Due(lim, WatchOf(lim, past, rounds, from, n + 1, leg).scores, past[n].now)
  }

  /** Evaluation i judged all connections ahead if it looked ahead at all, or stopped at one that was due. */
  ghost predicate RoundOk(lim: Limits, ranking: bool, past: seq<Step>, rounds: seq<Round>, events: seq<Event>, i: nat)
    requires i < |rounds| <= |past|
  {
    var r := rounds[i];
    if !LooksAhead(ranking, past[i], r.place) then r.to == 0
    else
      || r.to == |r.place.legs|
      || (r.to > 0 && r.Judges(r.to - 1) && DueAfter(lim, past, rounds, StartOf(events, i), i, r.to - 1))
  }

  ghost predicate AllRounds(lim: Limits, ranking: bool, past: seq<Step>, rounds: seq<Round>, events: seq<Event>)
    requires |rounds| <= |past|
  {
    forall i: nat :: i < |rounds| ==> RoundOk(lim, ranking, past, rounds, events, i)
  }

  /** An attempt for a connection's risk is made by the evaluation that finds it due, and judges no further. */
  ghost predicate Justified(lim: Limits, past: seq<Step>, rounds: seq<Round>, events: seq<Event>, a: Attempt) {
    a.reason.ConnectionRisk? ==>
      && a.leg.Some? && a.step < |rounds| && a.step < |past| && past[a.step].now == a.at
      && rounds[a.step].Judges(a.leg.value) && rounds[a.step].to == a.leg.value + 1
      && DueAfter(lim, past, rounds, StartOf(events, a.step), a.step, a.leg.value)
  }

  ghost predicate AllJustified(lim: Limits, past: seq<Step>, rounds: seq<Round>, events: seq<Event>,
    tries: seq<Attempt>)
  {
    forall i: nat :: i < |tries| ==> JustifiedAt(lim, past, rounds, events, tries, i)
  }

  ghost predicate JustifiedAt(lim: Limits, past: seq<Step>, rounds: seq<Round>, events: seq<Event>, tries: seq<Attempt>,
    i: nat)
    requires i < |tries|
  {
    Justified(lim, past, rounds, events, tries[i])
  }

  lemma OneMoreTry(lim: Limits, past: seq<Step>, rounds: seq<Round>, events: seq<Event>, tries: seq<Attempt>,
      a: Attempt)
    requires AllJustified(lim, past, rounds, events, tries) && Justified(lim, past, rounds, events, a)
    ensures AllJustified(lim, past, rounds, events, tries + [a])
  {
    var all := tries + [a];
    forall i: nat | i < |all| ensures JustifiedAt(lim, past, rounds, events, all, i) {
      if i < |tries| { assert JustifiedAt(lim, past, rounds, events, tries, i); }
    }
  }

  lemma DueStill(lim: Limits, past: seq<Step>, rounds: seq<Round>, past': seq<Step>, rounds': seq<Round>, from: nat,
      n: nat, leg: nat)
    requires n < |rounds| && n < |past| && past <= past' && rounds <= rounds'
    ensures DueAfter(lim, past', rounds', from, n, leg) == DueAfter(lim, past, rounds, from, n, leg)
  {
    WatchStill(lim, past, rounds, past', rounds', from, n + 1, leg);
  }

  lemma RecordStill(lim: Limits, ranking: bool, past: seq<Step>, rounds: seq<Round>, past': seq<Step>,
      rounds': seq<Round>, events: seq<Event>, tries: seq<Attempt>)
    requires |rounds| <= |past| && |rounds'| <= |past'| && past <= past' && rounds <= rounds'
    requires AllRounds(lim, ranking, past, rounds, events) && AllJustified(lim, past, rounds, events, tries)
    ensures forall i: nat :: i < |rounds| ==> RoundOk(lim, ranking, past', rounds', events, i)
    ensures AllJustified(lim, past', rounds', events, tries)
  {
    forall i: nat | i < |rounds| ensures RoundOk(lim, ranking, past', rounds', events, i) {
      assert RoundOk(lim, ranking, past, rounds, events, i);
      if rounds[i].to > 0 { DueStill(lim, past, rounds, past', rounds', StartOf(events, i), i, rounds[i].to - 1); }
    }
    forall i: nat | i < |tries| ensures JustifiedAt(lim, past', rounds', events, tries, i) {
      var a := tries[i];
      assert JustifiedAt(lim, past, rounds, events, tries, i);
      if a.reason.ConnectionRisk? {
        DueStill(lim, past, rounds, past', rounds', StartOf(events, a.step), a.step, a.leg.value);
      }
    }
  }

  /** A switch changes nothing for the evaluations up to now. */
  lemma SwitchStill(lim: Limits, ranking: bool, past: seq<Step>, rounds: seq<Round>, events: seq<Event>, e: Event,
      tries: seq<Attempt>)
    requires |rounds| <= |past| && e.first >= |rounds|
    requires AllRounds(lim, ranking, past, rounds, events) && AllJustified(lim, past, rounds, events, tries)
    ensures AllRounds(lim, ranking, past, rounds, events + [e])
    ensures AllJustified(lim, past, rounds, events + [e], tries)
  {
    forall i: nat | i < |rounds| ensures RoundOk(lim, ranking, past, rounds, events + [e], i) {
      assert RoundOk(lim, ranking, past, rounds, events, i);
      StartStill(events, e, i);
    }
    var events' := events + [e];
    forall i: nat | i < |tries| ensures JustifiedAt(lim, past, rounds, events', tries, i) {
      assert JustifiedAt(lim, past, rounds, events, tries, i);
      if tries[i].reason.ConnectionRisk? { StartStill(events, e, tries[i].step); }
    }
  }

  // ---- what an attempt means ------------------------------------------------------------------------------------

  /** Evaluation i judged the connection, and found it critical. */
  ghost predicate FoundCritical(lim: Limits, past: seq<Step>, rounds: seq<Round>, leg: nat, i: nat) {
    && i < |past| && i < |rounds| && rounds[i].Judges(leg)
    && lim.Judge(ProbabilityAt(past[i], rounds[i], leg)) == Critical
  }

  ghost predicate Rising(s: seq<nat>) { forall k, m :: 0 <= k < m < |s| ==> s[k] < s[m] }

  /** The evaluations from `from` on and before `upto` that judged the connection, in order. */
  ghost function Judging(rounds: seq<Round>, from: nat, upto: nat, leg: nat): (r: seq<nat>)
    requires upto <= |rounds|
    ensures forall k :: 0 <= k < |r| ==> from <= r[k] < upto && rounds[r[k]].Judges(leg)
    ensures Rising(r)
    ensures forall i :: from <= i < upto && rounds[i].Judges(leg) ==> i in r
    decreases upto
  {
    if upto <= from then []
    else Judging(rounds, from, upto - 1, leg) + if rounds[upto - 1].Judges(leg) then [upto - 1] else []
  }

  /** The level was given by that evaluation, at its time. */
  ghost predicate GivenBy(lim: Limits, past: seq<Step>, rounds: seq<Round>, leg: nat, i: nat, x: Score) {
    i < |past| && i < |rounds| && x == Score(lim.Judge(ProbabilityAt(past[i], rounds[i], leg)), past[i].now)
  }

  /** What was heard of a connection is one level of each of them. */
  lemma {:induction false} JudgingScores(lim: Limits, past: seq<Step>, rounds: seq<Round>, from: nat, upto: nat,
      leg: nat)
    requires upto <= |past| && upto <= |rounds|
    ensures var es, scores := Judging(rounds, from, upto, leg), WatchOf(lim, past, rounds, from, upto, leg).scores;
      |es| == |scores| && forall k :: 0 <= k < |es| ==> GivenBy(lim, past, rounds, leg, es[k], scores[k])
    decreases upto
  {
    if upto > from { JudgingScores(lim, past, rounds, from, upto - 1, leg); }
  }

  /** The end of a rising list holds what is not below its first. */
  lemma Tail(all: seq<nat>, first: nat)
    requires Rising(all) && first < |all|
    ensures Rising(all[first..]) && forall i :: i in all[first..] <==> i in all && i >= all[first]
  {
    forall i | i in all && i >= all[first] ensures i in all[first..] {
      var k :| 0 <= k < |all| && all[k] == i;
      assert k >= first;
      assert all[first..][k - first] == i;
    }
    forall i | i in all[first..] ensures i in all && i >= all[first] {
      var k :| 0 <= k < |all[first..]| && all[first..][k] == i;
      assert all[first + k] == i;
    }
  }

  /** The critical streak of what was heard, evaluation by evaluation. */
  lemma StreakMeans(lim: Limits, past: seq<Step>, rounds: seq<Round>, leg: nat, es: seq<nat>, scores: seq<Score>)
    requires |es| == |scores| && forall k :: 0 <= k < |es| ==> GivenBy(lim, past, rounds, leg, es[k], scores[k])
    requires forall k :: 0 <= k < |es| ==> es[k] < |rounds| && rounds[es[k]].Judges(leg)
    ensures forall k :: 0 <= k < |es| && |es| - CriticalRun(scores) <= k ==>
      FoundCritical(lim, past, rounds, leg, es[k])
  {
    RunsAre(scores);
    forall k | |es| - CriticalRun(scores) <= k < |es| ensures FoundCritical(lim, past, rounds, leg, es[k]) {
      assert scores[k].level == Critical && GivenBy(lim, past, rounds, leg, es[k], scores[k]);
    }
  }

  /** Different evaluations up to evaluation n, in order, that judged the connection and found it critical; and no
      evaluation between them judged it otherwise. */
  ghost predicate Streak(lim: Limits, past: seq<Step>, rounds: seq<Round>, leg: nat, n: nat, es: seq<nat>)
    requires n < |rounds|
  {
    && es != [] && Rising(es) && es[|es| - 1] == n
    && (forall i :: i in es ==> FoundCritical(lim, past, rounds, leg, i))
    && forall i :: es[0] <= i <= n && rounds[i].Judges(leg) ==> i in es
  }

  lemma TailIsStreak(lim: Limits, past: seq<Step>, rounds: seq<Round>, from: nat, n: nat, leg: nat, all: seq<nat>,
      first: nat)
    requires n < |rounds| && from <= n && rounds[n].Judges(leg) && all == Judging(rounds, from, n + 1, leg)
    requires first < |all| && forall k :: first <= k < |all| ==> FoundCritical(lim, past, rounds, leg, all[k])
    ensures Streak(lim, past, rounds, leg, n, all[first..])
  {
    assert all == Judging(rounds, from, n, leg) + [n];
    Tail(all, first);
    var es := all[first..];
    forall i | i in es ensures FoundCritical(lim, past, rounds, leg, i) {
      var k :| 0 <= k < |es| && es[k] == i;
      assert es[k] == all[first + k];
    }
  }

  /** The first of a due streak was given long enough ago. */
  lemma LongAgo(lim: Limits, past: seq<Step>, rounds: seq<Round>, leg: nat, es: seq<nat>, scores: seq<Score>, now: int,
      first: int)
    requires |es| == |scores| && forall k :: 0 <= k < |es| ==> GivenBy(lim, past, rounds, leg, es[k], scores[k])
    requires Due(lim, scores, now) && first == |scores| - CriticalRun(scores)
    ensures 0 <= first <= |es| - lim.Confirm() && es[first] < |past| && now - past[es[first]].now >= lim.minBreach
  {
    assert GivenBy(lim, past, rounds, leg, es[first], scores[first]);
  }

  /** A connection is due only after such a streak of the configured length, the first one of it long enough ago. */
  lemma DueMeansStreak(lim: Limits, past: seq<Step>, rounds: seq<Round>, from: nat, n: nat, leg: nat)
    returns (es: seq<nat>)
    requires n < |past| && n < |rounds| && from <= n && rounds[n].Judges(leg)
    requires DueAfter(lim, past, rounds, from, n, leg)
    ensures Streak(lim, past, rounds, leg, n, es) && |es| >= lim.Confirm()
    ensures from <= es[0] < |past| && past[n].now - past[es[0]].now >= lim.minBreach
  {
    var scores := WatchOf(lim, past, rounds, from, n + 1, leg).scores;
    var all := Judging(rounds, from, n + 1, leg);
    var first := |scores| - CriticalRun(scores);
    JudgingScores(lim, past, rounds, from, n + 1, leg);
    StreakMeans(lim, past, rounds, leg, all, scores);
    LongAgo(lim, past, rounds, leg, all, scores, past[n].now, first);
    TailIsStreak(lim, past, rounds, from, n, leg, all, first);
    es := all[first..];
  }

  /** Behind an attempt for a connection's risk there is a streak of critical judgements by at least the
      configured number of different evaluations of the plan, the last one the attempt's own and the first at
      least the minimum breach earlier. */
  lemma AttemptMeans(lim: Limits, past: seq<Step>, rounds: seq<Round>, events: seq<Event>, a: Attempt)
    returns (es: seq<nat>)
    requires Justified(lim, past, rounds, events, a) && a.reason.ConnectionRisk?
    ensures Streak(lim, past, rounds, a.leg.value, a.step, es) && |es| >= lim.Confirm()
    ensures StartOf(events, a.step) <= es[0] < |past| && a.at - past[es[0]].now >= lim.minBreach
  {
    StartBefore(events, a.step);
    es := DueMeansStreak(lim, past, rounds, StartOf(events, a.step), a.step, a.leg.value);
  }

  lemma {:induction false} StartBefore(events: seq<Event>, n: nat)
    ensures StartOf(events, n) <= n
  {
    if events != [] { StartBefore(events[..|events| - 1], n); }
  }

  // ---- judging the connections ahead ----------------------------------------------------------------------------

  /** What is heard of a connection once the evaluation under way, the last one, has done this much. */
  ghost function HeardWith(lim: Limits, past: seq<Step>, rounds: seq<Round>, from: nat, r: Round, leg: nat): Watch
    requires |rounds| < |past|
  {
    Next(lim, WatchOf(lim, past, rounds, from, |rounds|, leg), past[|rounds|], r, leg)
  }

  lemma HeardThen(lim: Limits, past: seq<Step>, rounds: seq<Round>, from: nat, r: Round, leg: nat)
    requires from <= |rounds| < |past|
    ensures WatchOf(lim, past, rounds + [r], from, |rounds| + 1, leg) == HeardWith(lim, past, rounds, from, r, leg)
  {
    WatchStill(lim, past, rounds, past, rounds + [r], from, |rounds|, leg);
  }

  ghost predicate StageOne(lim: Limits, past: seq<Step>, rounds: seq<Round>, from: nat, r: Round,
    risk: map<nat, RiskState>, j: nat)
    requires |rounds| < |past|
  {
    TracksWatch(StateOf(risk, j), HeardWith(lim, past, rounds, from, r, j))
  }

  /** The counters are those of what is heard so far. */
  ghost predicate Stage(lim: Limits, past: seq<Step>, rounds: seq<Round>, from: nat, r: Round,
    risk: map<nat, RiskState>)
    requires |rounds| < |past|
  {
    forall j: nat :: StageOne(lim, past, rounds, from, r, risk, j)
  }

  ghost predicate DueNow(lim: Limits, past: seq<Step>, rounds: seq<Round>, from: nat, r: Round, j: nat)
    requires |rounds| < |past|
  {
    Due(lim, HeardWith(lim, past, rounds, from, r, j).scores, past[|rounds|].now)
  }

  /** No connection judged so far is due. */
  ghost predicate NoneDue(lim: Limits, past: seq<Step>, rounds: seq<Round>, from: nat, r: Round)
    requires |rounds| < |past|
  {
    forall j: nat :: r.Judges(j) ==> !DueNow(lim, past, rounds, from, r, j)
  }

  /** All connections ahead are judged; or, when a reroute may be made, those up to the first that is due for one. */
  ghost predicate Found(lim: Limits, past: seq<Step>, rounds: seq<Round>, from: nat, gate: bool, r: Round,
    hit: Option<nat>)
    requires |rounds| < |past|
  {
    match hit
    case None => r.to == |r.place.legs| && (gate ==> NoneDue(lim, past, rounds, from, r))
    case Some(j) =>
      && gate && r.to == j + 1 && r.Judges(j) && DueNow(lim, past, rounds, from, r, j)
      && NoneDue(lim, past, rounds, from, r.(to := j))
  }

  lemma StageStarts(lim: Limits, past: seq<Step>, rounds: seq<Round>, from: nat, r: Round, risk: map<nat, RiskState>)
    requires |rounds| < |past| && AllTrack(lim, past, rounds, from, risk) && r.to <= r.place.at
    ensures Stage(lim, past, rounds, from, r, risk) && NoneDue(lim, past, rounds, from, r)
  {
    forall j: nat ensures StageOne(lim, past, rounds, from, r, risk, j) {
      assert TracksOne(lim, past, rounds, from, risk, j);
    }
  }

  lemma StageEnds(lim: Limits, past: seq<Step>, rounds: seq<Round>, from: nat, r: Round, risk: map<nat, RiskState>,
      rounds': seq<Round>)
    requires from <= |rounds| < |past| && rounds' == rounds + [r] && Stage(lim, past, rounds, from, r, risk)
    ensures AllTrack(lim, past, rounds', from, risk)
  {
    forall j: nat ensures TracksOne(lim, past, rounds', from, risk, j) {
      assert StageOne(lim, past, rounds, from, r, risk, j);
      HeardThen(lim, past, rounds, from, r, j);
    }
  }

  ghost predicate SameJudged(r: Round, r': Round) {
    r'.place == r.place && forall j: nat :: r'.Judges(j) == r.Judges(j)
  }

  /** What is judged is all that matters. */
  lemma StageSame(lim: Limits, past: seq<Step>, rounds: seq<Round>, from: nat, r: Round, r': Round,
      risk: map<nat, RiskState>)
    requires |rounds| < |past| && SameJudged(r, r') && Stage(lim, past, rounds, from, r, risk)
    ensures Stage(lim, past, rounds, from, r', risk)
    ensures NoneDue(lim, past, rounds, from, r) ==> NoneDue(lim, past, rounds, from, r')
  {
    forall j: nat ensures StageOne(lim, past, rounds, from, r', risk, j) {
      assert StageOne(lim, past, rounds, from, r, risk, j);
    }
    if NoneDue(lim, past, rounds, from, r) {
      forall j: nat | r'.Judges(j) ensures !DueNow(lim, past, rounds, from, r', j) {
        assert r.Judges(j) && !DueNow(lim, past, rounds, from, r, j);
      }
    }
  }

  /** The connections but this one are as they were. */
  ghost predicate ElseSame(i: nat, risk: map<nat, RiskState>, risk': map<nat, RiskState>) {
    forall j: nat :: j != i ==> StateOf(risk', j) == StateOf(risk, j)
  }

  /** One more connection judged. */
  lemma StageNext(lim: Limits, past: seq<Step>, rounds: seq<Round>, from: nat, r: Round, r': Round,
      risk: map<nat, RiskState>, risk': map<nat, RiskState>, i: nat)
    requires |rounds| < |past| && r.to == i && r' == r.(to := i + 1) && r.place.Ahead(i)
    requires Stage(lim, past, rounds, from, r, risk) && ElseSame(i, risk, risk')
    requires TracksWatch(StateOf(risk', i), HeardWith(lim, past, rounds, from, r', i))
    ensures Stage(lim, past, rounds, from, r', risk')
    ensures NoneDue(lim, past, rounds, from, r) && !DueNow(lim, past, rounds, from, r', i) ==>
      NoneDue(lim, past, rounds, from, r')
  {
    forall j: nat ensures StageOne(lim, past, rounds, from, r', risk', j) {
      assert StageOne(lim, past, rounds, from, r, risk, j);
    }
    if NoneDue(lim, past, rounds, from, r) && !DueNow(lim, past, rounds, from, r', i) {
      forall j: nat | r'.Judges(j) ensures !DueNow(lim, past, rounds, from, r', j) {
        if j != i { assert r.Judges(j) && !DueNow(lim, past, rounds, from, r, j); }
      }
    }
  }

  /** Judges one connection once more. */
  method JudgeOne(lim: Limits, p: real, now: Time, risk: map<nat, RiskState>, i: nat, ghost w: Watch)
    returns (risk': map<nat, RiskState>, due: bool)
    requires TracksWatch(StateOf(risk, i), w)
    ensures ElseSame(i, risk, risk')
    ensures TracksWatch(StateOf(risk', i), After(lim, w, p, now)) &&
      (due <==> Due(lim, After(lim, w, p, now).scores, now))
  {
    var st, emit;
    st, emit, due := Hysteresis.Evaluate(lim, StateOf(risk, i), p, now, w.scores, w.emitted);
    risk' := risk[i := st];
  }

  /** Judges the connection at r.to once more; the counters stay those of what is heard. */
  method JudgeLeg(at: Place, lim: Limits, s: Step, risk: map<nat, RiskState>, i: nat,
    ghost past: seq<Step>, ghost rounds: seq<Round>, ghost from: nat, ghost r: Round)
    returns (risk': map<nat, RiskState>, due: bool, ghost r': Round)
    requires |rounds| < |past| && past[|rounds|] == s && r.place == at && r.to == i && at.Ahead(i)
    requires Stage(lim, past, rounds, from, r, risk)
    ensures r' == r.(to := i + 1) && Stage(lim, past, rounds, from, r', risk')
    ensures due <==> DueNow(lim, past, rounds, from, r', i)
    ensures NoneDue(lim, past, rounds, from, r) && !due ==> NoneDue(lim, past, rounds, from, r')
  {
    r' := r.(to := i + 1);
    assert StageOne(lim, past, rounds, from, r, risk, i);
    ghost var w := WatchOf(lim, past, rounds, from, |rounds|, i);
    risk', due := JudgeOne(lim, ProbabilityOf(s.c, i, at.reached && i == at.at), s.now, risk, i, w);
    StageNext(lim, past, rounds, from, r, r', risk, risk', i);
  }

  /** Before leg i: everything is judged and none is due; or the search is over. */
  ghost predicate Underway(lim: Limits, past: seq<Step>, rounds: seq<Round>, from: nat, gate: bool, r: Round,
    done: bool, hit: Option<nat>)
    requires |rounds| < |past|
  {
    if done then Found(lim, past, rounds, from, gate, r, hit)
    else hit.None? && r.place.InReach(r.to) && (gate ==> NoneDue(lim, past, rounds, from, r))
  }

  /** One leg of the loop: it is judged if it is a connection ahead. */
  method JudgeRound(at: Place, lim: Limits, s: Step, gate: bool, risk: map<nat, RiskState>, i: nat,
    ghost past: seq<Step>, ghost rounds: seq<Round>, ghost from: nat, ghost r: Round)
    returns (hit: Option<nat>, done: bool, risk': map<nat, RiskState>, ghost r': Round)
    requires |rounds| < |past| && past[|rounds|] == s && r.place == at && r.to == i && at.at <= i < |at.legs|
    requires Stage(lim, past, rounds, from, r, risk) && Underway(lim, past, rounds, from, gate, r, false, None)
    ensures r'.place == at && r'.found == r.found && (!done ==> r'.to == i + 1)
    ensures Stage(lim, past, rounds, from, r', risk') && Underway(lim, past, rounds, from, gate, r', done, hit)
  {
    hit, done, risk' := None, false, risk;
    if at.legs[i].transit && !(i == at.at && at.boarded) {
      var due;
      risk', due, r' := JudgeLeg(at, lim, s, risk, i, past, rounds, from, r);
      if gate && due { return Some(i), true, risk', r'; }
      if i > at.at + HORIZON {
        ghost var all := r'.(to := |at.legs|);
        NothingBeyond(r', all, i);
        StageSame(lim, past, rounds, from, r', all, risk');
        return None, true, risk', all;
      }
    } else {
      r' := r.(to := i + 1);
      StageSame(lim, past, rounds, from, r, r', risk);
    }
  }

  /** Beyond the first ride past the horizon nothing is judged. */
  lemma NothingBeyond(r: Round, all: Round, i: nat)
    requires all == r.(to := |r.place.legs|) && r.to == i + 1
    requires r.place.at + HORIZON < i < |r.place.legs| && r.place.legs[i].transit
    ensures SameJudged(r, all)
  {
  }

  /** Judges the connections ahead, up to the first that is due for a reroute if one may be made; the counters stay
      those of what is heard. */
  method JudgeAll(at: Place, lim: Limits, s: Step, gate: bool, risk: map<nat, RiskState>, ghost found: Place,
    ghost past: seq<Step>, ghost rounds: seq<Round>, ghost from: nat)
    returns (hit: Option<nat>, risk': map<nat, RiskState>, ghost r: Round)
    requires |rounds| < |past| && past[|rounds|] == s && from <= |rounds| && at.at < |at.legs|
    requires AllTrack(lim, past, rounds, from, risk)
    ensures r.place == at && r.found == found && Found(lim, past, rounds, from, gate, r, hit)
    ensures AllTrack(lim, past, rounds + [r], from, risk')
  {
    var i, done := at.at, false;
    hit, risk', r := None, risk, Round(found, at, at.at);
    StageStarts(lim, past, rounds, from, r, risk);
    while i < |at.legs| && !done
      invariant at.at <= i <= |at.legs| && r.place == at && r.found == found && (!done ==> r.to == i)
      invariant Stage(lim, past, rounds, from, r, risk') && Underway(lim, past, rounds, from, gate, r, done, hit)
    {
      hit, done, risk', r := JudgeRound(at, lim, s, gate, risk', i, past, rounds, from, r);
      i := i + 1;
    }
    StageEnds(lim, past, rounds, from, r, risk', rounds + [r]);
  }

  // ---- one evaluation more on record ----------------------------------------------------------------------------

  /** A round that judges nothing leaves all counters. */
  lemma NothingJudged(lim: Limits, past: seq<Step>, rounds: seq<Round>, from: nat, r: Round, risk: map<nat, RiskState>)
    requires |rounds| < |past| && r.to == 0 && AllTrack(lim, past, rounds, from, risk)
    ensures AllTrack(lim, past, rounds + [r], from, risk)
  {
    var rounds' := rounds + [r];
    forall j: nat ensures TracksOne(lim, past, rounds', from, risk, j) {
      assert TracksOne(lim, past, rounds, from, risk, j);
      WatchStill(lim, past, rounds, past, rounds', from, |rounds|, j);
    }
  }

  /** One more evaluation is on record as it should be. */
  lemma RoundMore(lim: Limits, ranking: bool, past: seq<Step>, rounds: seq<Round>, events: seq<Event>, r: Round,
      tries: seq<Attempt>)
    requires |rounds| < |past| && AllRounds(lim, ranking, past, rounds, events)
    requires AllJustified(lim, past, rounds, events, tries)
    requires RoundOk(lim, ranking, past, rounds + [r], events, |rounds|)
    ensures AllRounds(lim, ranking, past, rounds + [r], events)
    ensures AllJustified(lim, past, rounds + [r], events, tries)
  {
    RecordStill(lim, ranking, past, rounds, past, rounds + [r], events, tries);
  }

  /** Due with what this evaluation adds means due once it is on record. */
  lemma DueThen(lim: Limits, past: seq<Step>, rounds: seq<Round>, from: nat, r: Round, leg: nat)
    requires from <= |rounds| < |past| && DueNow(lim, past, rounds, from, r, leg)
    ensures DueAfter(lim, past, rounds + [r], from, |rounds|, leg)
  {
    HeardThen(lim, past, rounds, from, r, leg);
  }

  /** A round that ends after all connections, or with one that is due, is right to record; that one justifies an
      attempt. */
  lemma RoundEnds(lim: Limits, ranking: bool, past: seq<Step>, rounds: seq<Round>, events: seq<Event>, r: Round,
      a: Attempt)
    requires |rounds| < |past| && Began(events) <= |rounds| && LooksAhead(ranking, past[|rounds|], r.place)
    requires a == Attempt(past[|rounds|].now, ConnectionRisk, |rounds|, a.leg)
    requires a.leg.None? ==> r.to == |r.place.legs|
    requires a.leg.Some? ==> r.to == a.leg.value + 1 && r.Judges(a.leg.value)
    requires a.leg.Some? ==> DueAfter(lim, past, rounds + [r], Began(events), |rounds|, a.leg.value)
    ensures RoundOk(lim, ranking, past, rounds + [r], events, |rounds|)
    ensures a.leg.Some? ==> Justified(lim, past, rounds + [r], events, a)
  {
    assert StartOf(events, |rounds|) == Began(events);
  }

  /** What was found is right to record, and justifies an attempt. */
  lemma FoundIsOk(lim: Limits, ranking: bool, past: seq<Step>, rounds: seq<Round>, events: seq<Event>, gate: bool,
      r: Round, a: Attempt)
    requires |rounds| < |past| && Began(events) <= |rounds| && LooksAhead(ranking, past[|rounds|], r.place)
    requires a == Attempt(past[|rounds|].now, ConnectionRisk, |rounds|, a.leg)
    requires Found(lim, past, rounds, Began(events), gate, r, a.leg)
    ensures RoundOk(lim, ranking, past, rounds + [r], events, |rounds|)
    ensures a.leg.Some? ==> Justified(lim, past, rounds + [r], events, a)
  {
    if a.leg.Some? { DueThen(lim, past, rounds, Began(events), r, a.leg.value); }
    RoundEnds(lim, ranking, past, rounds, events, r, a);
  }

  // ---- what one evaluation finds and the next one finds ---------------------------------------------------------

  datatype Snapshot = Snapshot(log: Log, legs: seq<Leg>, ready: map<nat, int>)

  /** The same plan as before, at other times; or another one, and one event more, at this moment. */
  ghost predicate Follows(a: Snapshot, b: Snapshot, now: int) {
    && a.log.Grows(b.log)
    && |b.log.events| <= |a.log.events| + 1
    && (b.log.events != a.log.events ==> b.log.events[|a.log.events|].at == now)
    && |b.log.tries| <= |a.log.tries| + 1 && (b.log.tries != a.log.tries ==> b.log.tries[|a.log.tries|].at == now)
    && (b.log.events == a.log.events ==> Retimed(a.legs, b.legs) && Kept(a.ready, b.ready))
  }

  lemma NothingFollows(a: Snapshot, now: int)
    ensures Follows(a, a, now)
  {
  }

  lemma MovedFollows(a: Snapshot, b: Snapshot, now: int)
    requires b.log.events == a.log.events && b.log.tries == a.log.tries
    requires a.log.anchors <= b.log.anchors && a.log.boardings <= b.log.boardings
    requires Retimed(a.legs, b.legs) && Kept(a.ready, b.ready)
    ensures Follows(a, b, now)
  {
  }

  lemma EventFollows(a: Snapshot, b: Snapshot, e: Event)
    requires b.log.events == a.log.events + [e] && a.log.anchors <= b.log.anchors
    requires b.log.tries == a.log.tries && b.log.boardings == a.log.boardings
    ensures Follows(a, b, e.at)
  {
  }

  /** Without a switch or an attempt at first, one step after another is a step. */
  lemma FollowsTwice(a: Snapshot, mid: Snapshot, b: Snapshot, now: int)
    requires Follows(a, mid, now) && Follows(mid, b, now)
    requires mid.log.events == a.log.events && mid.log.tries == a.log.tries
    ensures Follows(a, b, now)
  {
    if b.log.events == a.log.events { RetimedTwice(a.legs, mid.legs, b.legs); }
  }

  lemma AttemptFollows(a: Snapshot, mid: Snapshot, b: Snapshot, t: Attempt)
    requires mid == a.(log := a.log.(tries := a.log.tries + [t])) && Follows(mid, b, t.at)
    requires b.log.tries == mid.log.tries
    ensures Follows(a, b, t.at)
  {
  }
}
