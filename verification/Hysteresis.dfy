/** Connection risk: levels that must repeat before they are announced or acted on. */
module Hysteresis {
  import opened Words

  datatype Level = Good | Warn | Critical

  datatype Limits = Limits(reroute: real, warn: real, ok: real, confirm: int, minBreach: int)
  {
    function Confirm(): nat { if confirm < 1 then 1 else confirm }

    function Judge(p: real): Level {
      if p < reroute then Critical else if p < warn then Warn else Good
    }
  }

  /** One evaluation of a connection. */
  datatype Score = Score(level: Level, now: Time)

  /** How many of the last evaluations were critical, or not good. */
  function CriticalRun(seen: seq<Score>): nat {
    if seen == [] || seen[|seen| - 1].level != Critical then 0 else CriticalRun(seen[..|seen| - 1]) + 1
  }

  function WarnRun(seen: seq<Score>): nat {
    if seen == [] || seen[|seen| - 1].level == Good then 0 else WarnRun(seen[..|seen| - 1]) + 1
  }

  lemma {:induction false} RunsAre(seen: seq<Score>)
    ensures CriticalRun(seen) <= WarnRun(seen) <= |seen|
    ensures forall i :: |seen| - CriticalRun(seen) <= i < |seen| ==> seen[i].level == Critical
    ensures CriticalRun(seen) < |seen| ==> seen[|seen| - 1 - CriticalRun(seen)].level != Critical
  {
    if seen != [] {
      var init := seen[..|seen| - 1];
      RunsAre(init);
      assert forall i :: 0 <= i < |init| ==> init[i] == seen[i];
    }
  }

  lemma RunsNext(seen: seq<Score>, s: Score)
    ensures CriticalRun(seen + [s]) == if s.level == Critical then CriticalRun(seen) + 1 else 0
    ensures WarnRun(seen + [s]) == if s.level != Good then WarnRun(seen) + 1 else 0
  {
    assert (seen + [s])[..|seen|] == seen;
  }

  /** The levels a client sees: blocks of a warning, a critical one or both in that order, each closed by a good one. */
  predicate Blocks(es: seq<Level>)
    decreases |es|
  {
    if es == [] then true
    else if es[0] == Good then false
    else
      var open := if es[0] == Warn && |es| > 1 && es[1] == Critical then 2 else 1;
      |es| == open || (es[open] == Good && Blocks(es[open + 1..]))
  }

  /** May `e` follow what was emitted last? */
  predicate MayFollow(last: Level, open: bool, e: Level) {
    match e
    case Good => open && last != Good
    case Warn => !open || last == Good
    case Critical => !open || last != Critical
  }

  /** Is `level` news after what was emitted so far? */
  predicate News(es: seq<Level>, level: Level) {
    MayFollow(if es == [] then Good else es[|es| - 1], es != [], level)
  }

  /** An emitted level that may follow keeps the blocks. */
  lemma {:induction false} BlocksGrow(es: seq<Level>, e: Level)
    requires Blocks(es) && (es == [] || MayFollow(es[|es| - 1], true, e)) && (es == [] ==> e != Good)
    ensures Blocks(es + [e])
    decreases |es|
  {
    if es != [] {
      var open := if es[0] == Warn && |es| > 1 && es[1] == Critical then 2 else 1;
      if |es| > open {
        assert (es + [e])[open + 1..] == es[open + 1..] + [e];
        if |es| > open + 1 { assert es[open + 1..][|es| - open - 2] == es[|es| - 1]; }
        BlocksGrow(es[open + 1..], e);
      } else {
        assert (es + [e])[|es| + 1..] == [];
      }
    }
  }

  /** The counters are the lengths of the current streaks, and the breach time is the critical
      one's first evaluation. */
  ghost predicate Counted(seen: seq<Score>, warn: nat, critical: nat, breachAt: int) {
    && critical == CriticalRun(seen) && warn == WarnRun(seen)
    && (breachAt != 0 <==> critical > 0)
    && (critical > 0 ==> critical <= |seen| && breachAt == seen[|seen| - critical].now)
  }

  lemma CountGrows(seen: seq<Score>, warn: nat, critical: nat, breachAt: int, s: Score)
    requires Counted(seen, warn, critical, breachAt)
    ensures s.level == Critical ==>
      Counted(seen + [s], warn + 1, critical + 1, if critical == 0 then s.now else breachAt)
    ensures s.level == Warn ==> Counted(seen + [s], warn + 1, 0, 0)
    ensures s.level == Good ==> Counted(seen + [s], 0, 0, 0)
  {
    RunsNext(seen, s);
    if critical > 0 { assert (seen + [s])[|seen| - critical] == seen[|seen| - critical]; }
  }

  /** Hysteresis of one connection. `breachAt` is 0 unless the connection is critical; `last` is the
      level emitted last. */
  datatype RiskState = RiskState(belowWarn: nat, belowCritical: nat, breachAt: int, last: Option<Level>)

  const UNSCORED: RiskState := RiskState(0, 0, 0, None)

  /** The state of a connection after these evaluations and these emitted levels. */
  ghost predicate Tracks(st: RiskState, seen: seq<Score>, emitted: seq<Level>) {
    && Counted(seen, st.belowWarn, st.belowCritical, st.breachAt)
    && Blocks(emitted) && st.last == if emitted == [] then None else Some(emitted[|emitted| - 1])
  }

  /** Enough critical evaluations in a row, the first of them long enough ago. */
  ghost predicate Due(lim: Limits, seen: seq<Score>, now: int) {
    && lim.Confirm() <= CriticalRun(seen) <= |seen|
    && now - seen[|seen| - CriticalRun(seen)].now >= lim.minBreach
  }

  /** A level is emitted when it is news and sustained, or a recovery all the way to the planner's own threshold. */
  ghost predicate Announces(lim: Limits, emitted: seq<Level>, seen: seq<Score>, level: Level, p: real) {
    News(emitted, level) && match level
      case Critical => CriticalRun(seen) >= lim.Confirm()
      case Warn => WarnRun(seen) >= lim.Confirm()
      case Good => p >= lim.ok
  }

  /** The counters of one evaluation. */
  method Count(st: RiskState, level: Level, now: Time, ghost seen: seq<Score>, ghost emitted: seq<Level>)
    returns (r: RiskState)
    requires Tracks(st, seen, emitted)
    ensures Tracks(r, seen + [Score(level, now)], emitted)
  {
    CountGrows(seen, st.belowWarn, st.belowCritical, st.breachAt, Score(level, now));
    r := st;
    if level == Critical {
      if r.belowCritical == 0 { r := r.(breachAt := now); }
      r := r.(belowCritical := r.belowCritical + 1);
    } else {
      r := r.(belowCritical := 0, breachAt := 0);
    }
    r := r.(belowWarn := if level != Good then r.belowWarn + 1 else 0);
  }

  /** Emits the level when it is due. */
  method Announce(lim: Limits, st: RiskState, level: Level, p: real, ghost seen: seq<Score>, ghost emitted: seq<Level>)
    returns (r: RiskState, emit: bool)
    requires Tracks(st, seen, emitted)
    ensures Tracks(r, seen, emitted + if emit then [level] else [])
    ensures (r.belowWarn, r.belowCritical, r.breachAt) == (st.belowWarn, st.belowCritical, st.breachAt)
    ensures emit <==> Announces(lim, emitted, seen, level, p)
  {
    match level {
      case Critical => emit := st.belowCritical >= lim.Confirm() && st.last != Some(Critical);
      case Warn => emit := st.belowWarn >= lim.Confirm() && st.last != Some(Warn) && st.last != Some(Critical);
      case Good => emit := st.last.Some? && st.last != Some(Good) && p >= lim.ok;
    }
    r := st;
    if emit {
      BlocksGrow(emitted, level);
      r := r.(last := Some(level));
    } else {
      assert emitted + [] == emitted;
    }
  }

  /** One evaluation of a connection. */
  method Evaluate(lim: Limits, st: RiskState, p: real, now: Time, ghost seen: seq<Score>, ghost emitted: seq<Level>)
    returns (r: RiskState, emit: bool, due: bool)
    requires Tracks(st, seen, emitted)
    ensures var seen' := seen + [Score(lim.Judge(p), now)];
      && Tracks(r, seen', emitted + if emit then [lim.Judge(p)] else [])
      && (due <==> Due(lim, seen', now))
      && (emit <==> Announces(lim, emitted, seen', lim.Judge(p), p))
  {
    var level := lim.Judge(p);
    ghost var seen' := seen + [Score(level, now)];
    r := Count(st, level, now, seen, emitted);
    r, emit := Announce(lim, r, level, p, seen', emitted);
    RunsAre(seen');
    due := r.belowCritical >= lim.Confirm() && r.breachAt != 0 && now - r.breachAt >= lim.minBreach;
  }

  /** When a reroute is due, the configured number of evaluations in a row were critical. */
  lemma DueMeans(lim: Limits, seen: seq<Score>, now: int)
    requires Due(lim, seen, now)
    ensures lim.Confirm() <= |seen| && forall i :: |seen| - lim.Confirm() <= i < |seen| ==> seen[i].level == Critical
  {
    RunsAre(seen);
  }
}
