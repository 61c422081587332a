/** Recognising a boarding from position fixes alone: ordered progress along the ride's shape. */
module ShapeBoarding {
  import opened Words

  const FIX_STALE: int := 45
  const CORRIDOR: real := 55.0
  const ACC_CAP: real := 60.0
  const BACKTRACK: real := 35.0
  const STEP: real := 5.0
  const PROGRESS: real := 30.0
  const AWAY: real := 100.0
  const HOLD: int := 5
  const MOVING_FIXES: nat := 2
  const HIST_LEN: nat := 6

  /** A position sample as the detector sees it: its time, whether and where it projects on the shape, its distance from
      the shape and from the boarding stop, and its accuracy. */
  datatype Fix = Fix(at: int, projected: bool, progress: real, off: real, away: real, accuracy: real)
  {
    predicate Inside() { projected && off <= CORRIDOR + if accuracy < ACC_CAP then accuracy else ACC_CAP }
  }

  // ---- what the evidence is ---------------------------------------------------------------------------------

  /** A consumed fix, and what is proven after it: progress, which moves only by forward gains of five metres or more,
      the number of gains, and the time of the fix before the first one (0 before any gain). */
  datatype Mark = Mark(fix: Fix, evidence: real, gains: nat, since: int)

  predicate First(m: Mark) { m.fix.Inside() && m.evidence == m.fix.progress && m.gains == 0 && m.since == 0 }

  /** The next fix: in the corridor, later by at most 45 s, and at most 35 m behind what is proven. */
  predicate Next(p: Mark, m: Mark) {
    && m.fix.Inside() && p.fix.at < m.fix.at <= p.fix.at + FIX_STALE && m.fix.progress - p.evidence >= -BACKTRACK
    && if m.fix.progress - p.evidence >= STEP
       then m.evidence == m.fix.progress && m.gains == p.gains + 1 && m.since == if p.gains == 0 then p.fix.at
         else p.since
       else m.evidence == p.evidence && m.gains == p.gains && m.since == p.since
  }

  ghost predicate Trail(ms: seq<Mark>) {
    && ms != [] && First(ms[0])
    && forall i, j :: 0 <= i < |ms| && j == i + 1 && j < |ms| ==> Next(ms[i], ms[j])
  }

  /** Boarding evidence: a trail with two gains, 30 m and 5 s of progress, ending 100 m from the stop. */
  ghost predicate Boarding(ms: seq<Mark>) {
    && Trail(ms)
    && var last := ms[|ms| - 1];
       && last.gains >= MOVING_FIXES && last.fix.progress - ms[0].fix.progress >= PROGRESS
       && last.fix.at - last.since >= HOLD && last.fix.away >= AWAY
  }

  function Mark1(f: Fix): Mark { Mark(f, f.progress, 0, 0) }

  function MarkNext(p: Mark, f: Fix): Mark {
    if f.progress - p.evidence >= STEP
    then Mark(f, f.progress, p.gains + 1, if p.gains == 0 then p.fix.at else p.since)
    else Mark(f, p.evidence, p.gains, p.since)
  }

  /** The evidence after one fix: unchanged by a fix seen before, one before the stop was reached or a stale one; gone
      after one outside the corridor; restarted by a gap or a step back; otherwise one mark longer. */
  function Consumed(ms: seq<Mark>, lastAt: int, f: Fix, reachedAt: int, now: int): (seq<Mark>, int) {
    if f.at < reachedAt || f.at <= lastAt || now - f.at > FIX_STALE then (ms, lastAt)
    else if !f.Inside() then ([], f.at)
    else if ms == [] || f.at - lastAt > FIX_STALE || f.progress - ms[|ms| - 1].evidence < -BACKTRACK
      then ([Mark1(f)], f.at)
    else (ms + [MarkNext(ms[|ms| - 1], f)], f.at)
  }

  /** The evidence after a history of fixes. */
  function Replayed(ms: seq<Mark>, lastAt: int, hist: seq<Fix>, reachedAt: int, now: int): (seq<Mark>, int) {
    if hist == [] then (ms, lastAt)
    else
      var r := Replayed(ms, lastAt, hist[..|hist| - 1], reachedAt, now);
      Consumed(r.0, r.1, hist[|hist| - 1], reachedAt, now)
  }

  /** Nothing is left to consume in a history whose fixes are all consumed, too early or stale. */
  ghost predicate UsedUp(hist: seq<Fix>, lastAt: int, reachedAt: int, now: int) {
    forall i :: 0 <= i < |hist| ==> hist[i].at <= lastAt || hist[i].at < reachedAt || now - hist[i].at > FIX_STALE
  }

  lemma {:induction false} NothingLeft(ms: seq<Mark>, lastAt: int, hist: seq<Fix>, reachedAt: int, now: int)
    requires UsedUp(hist, lastAt, reachedAt, now)
    ensures Replayed(ms, lastAt, hist, reachedAt, now) == (ms, lastAt)
  {
    if hist != [] { NothingLeft(ms, lastAt, hist[..|hist| - 1], reachedAt, now); }
  }

  lemma {:induction false} ReplayUses(ms: seq<Mark>, lastAt: int, hist: seq<Fix>, reachedAt: int, now: int)
    ensures var last := Replayed(ms, lastAt, hist, reachedAt, now).1;
      last >= lastAt && UsedUp(hist, last, reachedAt, now)
  {
    if hist != [] { ReplayUses(ms, lastAt, hist[..|hist| - 1], reachedAt, now); }
  }

  /** However often the evaluation runs on the same fixes, each counts once. */
  lemma ReplayTwice(ms: seq<Mark>, lastAt: int, hist: seq<Fix>, reachedAt: int, now: int, later: int)
    requires now <= later
    ensures var once := Replayed(ms, lastAt, hist, reachedAt, now);
      Replayed(once.0, once.1, hist, reachedAt, later) == once
  {
    ReplayUses(ms, lastAt, hist, reachedAt, now);
    var once := Replayed(ms, lastAt, hist, reachedAt, now);
    NothingLeft(once.0, once.1, hist, reachedAt, later);
  }

  /** Every gain is worth five metres, and before the first nothing is proven. */
  lemma {:induction false} GainsAddUp(ms: seq<Mark>, k: nat)
    requires Trail(ms) && k < |ms|
    ensures ms[k].evidence - ms[0].evidence >= 5.0 * ms[k].gains as real
    ensures ms[k].gains == 0 ==> ms[k].evidence == ms[0].evidence
  {
    if k > 0 {
      GainsAddUp(ms, k - 1);
      assert Next(ms[k - 1], ms[k]);
    }
  }

  /** The moving fixes of a trail lie within it in time. */
  lemma {:induction false} TrailTimes(ms: seq<Mark>, i: nat, k: nat)
    requires Trail(ms) && i < k < |ms|
    ensures ms[i].fix.at < ms[k].fix.at && ms[k].fix.at - ms[i].fix.at <= FIX_STALE * (k - i)
  {
    assert Next(ms[k - 1], ms[k]);
    if i < k - 1 { TrailTimes(ms, i, k - 1); }
  }

  /** Where the last gain was made. */
  lemma {:induction false} LastGain(ms: seq<Mark>, k: nat) returns (i: nat)
    requires Trail(ms) && k < |ms| && ms[k].gains > 0
    ensures 0 < i <= k && ms[i].gains == ms[k].gains == ms[i - 1].gains + 1
    ensures ms[i].fix.progress - ms[i - 1].evidence >= STEP
  {
    assert k > 0;
    assert Next(ms[k - 1], ms[k]);
    if ms[k].fix.progress - ms[k - 1].evidence >= STEP { i := k; } else { i := LastGain(ms, k - 1); }
  }

  /** Boarding evidence holds two different fixes that each moved five metres or more beyond all before them. */
  lemma TwoGains(ms: seq<Mark>) returns (i: nat, j: nat)
    requires Boarding(ms)
    ensures 0 < i < j < |ms|
    ensures ms[i].fix.progress - ms[i - 1].evidence >= STEP && ms[j].fix.progress - ms[j - 1].evidence >= STEP
  {
    j := LastGain(ms, |ms| - 1);
    i := LastGain(ms, j - 1);
  }

  /** The newest fix is at most 45 s old. */
  predicate Current(hist: seq<Fix>, now: int) { hist != [] && now - hist[|hist| - 1].at <= FIX_STALE }

  /** When the stop was reached; before that there is no evidence. */
  function Since(reached: Option<int>): int { if reached.Some? then reached.value else 0 }

  // ---- the detector -------------------------------------------------------------------------------------------

  /** Progress of one ride; `movingSince` is 0 until the first gain. */
  class ShapeBoard {
    var lastAt: int
    var lastProgress: real
    var evidenceProgress: real
    var haveLast: bool
    var movingSince: int
    var movingFrom: real
    var movingFixes: nat
    var onShape: bool
    var awayM: real
    /** The fixes consumed since the last restart. */
    ghost var trail: seq<Mark>

    ghost predicate Valid(reachedAt: int)
      reads this
    {
      && (haveLast <==> trail != []) && (onShape <==> trail != [])
      && (trail == [] ==> movingSince == 0 && movingFixes == 0)
      && (trail != [] ==> Stands(reachedAt))
    }

    /** The fields say what the trail's last mark says. */
    ghost predicate Stands(reachedAt: int)
      requires trail != []
      reads this
    {
      && Trail(trail) && (forall i :: 0 <= i < |trail| ==> trail[i].fix.at >= reachedAt && trail[i].fix.at > 0)
      && var m := trail[|trail| - 1];
         && lastAt == m.fix.at && lastProgress == m.fix.progress && awayM == m.fix.away
         && evidenceProgress == m.evidence && movingFixes == m.gains && movingSince == m.since
         && (movingSince == 0 <==> movingFixes == 0) && (movingFixes > 0 ==> movingFrom == trail[0].fix.progress)
    }

    constructor ()
      ensures forall reachedAt :: Valid(reachedAt)
      ensures trail == []
    {
      lastAt, lastProgress, evidenceProgress, haveLast := 0, 0.0, 0.0, false;
      movingSince, movingFrom, movingFixes, onShape, awayM, trail := 0, 0.0, 0, false, 0.0, [];
    }

    /** Forgets the evidence; the next fix starts afresh. */
    method Drop(f: Fix)
      modifies this
      ensures forall reachedAt :: Valid(reachedAt)
      ensures (trail, lastAt) == ([], f.at)
    {
      lastAt, lastProgress, evidenceProgress, haveLast := f.at, 0.0, 0.0, false;
      movingSince, movingFrom, movingFixes, onShape, awayM, trail := 0, 0.0, 0, false, 0.0, [];
    }

    /** Evidence starts at this fix. */
    method Restart(f: Fix, ghost reachedAt: int)
      requires f.Inside() && f.at >= reachedAt && f.at > 0
      modifies this
      ensures Valid(reachedAt) && (trail, lastAt) == ([Mark1(f)], f.at)
    {
      lastAt, lastProgress, evidenceProgress, haveLast := f.at, f.progress, f.progress, true;
      movingSince, movingFrom, movingFixes, onShape, awayM, trail := 0, 0.0, 0, true, f.away, [Mark1(f)];
    }

    /** A fix inside the corridor, soon enough and not too far back. */
    method Follow(f: Fix, ghost reachedAt: int)
      requires Valid(reachedAt) && haveLast && f.Inside() && f.at >= reachedAt && f.at > 0
      requires lastAt < f.at <= lastAt + FIX_STALE && f.progress - evidenceProgress >= -BACKTRACK
      modifies this
      ensures Valid(reachedAt) && (trail, lastAt) == (old(trail) + [MarkNext(old(trail)[|old(trail)| - 1], f)], f.at)
    {
      GainsAddUp(trail, |trail| - 1);
      if f.progress - evidenceProgress >= STEP {
        if movingSince == 0 {
          movingSince, movingFrom := lastAt, evidenceProgress;
        }
        movingFixes := movingFixes + 1;
        evidenceProgress := f.progress;
      }
      lastAt, lastProgress, onShape, awayM := f.at, f.progress, true, f.away;
      trail := trail + [MarkNext(trail[|trail| - 1], f)];
    }

    /** One fix of the history, consumed at most once. */
    method Consume(f: Fix, reachedAt: int, now: int)
      requires Valid(reachedAt) && f.at > 0
      modifies this
      ensures Valid(reachedAt)
      ensures (trail, lastAt) == Consumed(old(trail), old(lastAt), f, reachedAt, now)
    {
      if f.at < reachedAt || f.at <= lastAt || now - f.at > FIX_STALE { return; }
      if !f.Inside() {
        Drop(f);
      } else if !haveLast || f.at - lastAt > FIX_STALE || f.progress - evidenceProgress < -BACKTRACK {
        Restart(f, reachedAt);
      } else {
        Follow(f, reachedAt);
      }
    }

    /** Without a fresh fix, or before the stop was reached, or without a shape, nothing is judged and nothing changes.
        Otherwise the history is replayed, and boarded is reported exactly on boarding evidence, which then ends in a
        fresh fix. */
    method Evaluate(hist: seq<Fix>, reached: Option<int>, shape: bool, now: int)
        returns (following: bool, boarded: bool)
      requires Valid(Since(reached)) && forall i :: 0 <= i < |hist| ==> hist[i].at > 0
      modifies this
      ensures Valid(Since(reached))
      ensures !(Current(hist, now) && reached.Some? && shape) ==> !following && !boarded
      ensures (trail, lastAt) ==
        if Current(hist, now) && reached.Some? && shape
          then Replayed(old(trail), old(lastAt), hist, Since(reached), now)
        else old((trail, lastAt))
      ensures Current(hist, now) && reached.Some? && shape ==> (boarded <==> trail != [] && Boarding(trail))
      ensures Current(hist, now) && reached.Some? && shape ==>
        (following <==> trail != [] && var m := trail[|trail| - 1];
        m.gains > 0 && m.fix.progress - trail[0].fix.progress >= PROGRESS)
      ensures boarded ==> following && forall i :: 0 <= i < |trail| ==> trail[i].fix.at >= reached.value
      ensures boarded ==> now - trail[|trail| - 1].fix.at <= FIX_STALE
    {
      if !Current(hist, now) || reached.None? || !shape { return false, false; }
      ReplayUses(trail, lastAt, hist, reached.value, now);
      Replay(hist, reached.value, now);
      if !onShape || movingSince == 0 || movingFixes == 0 { return false, false; }
      following := lastProgress - movingFrom >= PROGRESS;
      boarded := following && awayM >= AWAY && movingFixes >= MOVING_FIXES && lastAt - movingSince >= HOLD;
    }

    /** Consumes what is new in the history. */
    method Replay(hist: seq<Fix>, reachedAt: int, now: int)
      requires Valid(reachedAt) && forall i :: 0 <= i < |hist| ==> hist[i].at > 0
      modifies this
      ensures Valid(reachedAt)
      ensures (trail, lastAt) == Replayed(old(trail), old(lastAt), hist, reachedAt, now)
    {
      assert hist[..|hist|] == hist;
      for k := 0 to |hist|
        invariant Valid(reachedAt)
        invariant (trail, lastAt) == Replayed(old(trail), old(lastAt), hist[..k], reachedAt, now)
      {
        assert hist[..k + 1][..k] == hist[..k];
        Consume(hist[k], reachedAt, now);
      }
    }
  }

  // ---- the history of fixes ---------------------------------------------------------------------------------

  ghost predicate Fresh(hist: seq<Fix>) {
    && |hist| <= HIST_LEN
    && (forall i :: 0 <= i < |hist| ==> hist[i].at > 0)
    && forall i, j :: 0 <= i <= j < |hist| ==> hist[i].at <= hist[j].at
  }

  /** The last six fixes. */
  function Recent(hist: seq<Fix>): seq<Fix> { if |hist| > HIST_LEN then hist[|hist| - HIST_LEN..] else hist }

  lemma OneMoreFix(hist: seq<Fix>, f: Fix)
    requires Fresh(hist) && f.at > 0 && (hist != [] ==> f.at >= hist[|hist| - 1].at)
    ensures Fresh(Recent(hist + [f]))
  {
  }

  /** When a fix counts as taken: at its own time, unless that is missing or in the future. */
  function Stamp(at: int, now: int): int { if at <= 0 || at > now + 30 then now else at }

  /** Accepted fixes, newest last. */
  class History {
    var hist: seq<Fix>

    ghost predicate Valid()
      reads this
    {
      Fresh(hist)
    }

    constructor ()
      ensures Valid() && hist == []
    {
      hist := [];
    }

    /** Takes a usable fix; an old or late one is dropped. */
    method Update(f: Fix, usable: bool, now: int)
      requires Valid() && now > 0
      modifies this
      ensures Valid()
      ensures var g := f.(at := Stamp(f.at, now)); var late := old(hist) != [] && g.at < old(hist)[|old(hist)| - 1].at;
        hist == if !usable || now - g.at > FIX_STALE || late then old(hist) else Recent(old(hist) + [g])
    {
      if !usable { return; }
      var at := if f.at <= 0 || f.at > now + 30 then now else f.at;
      if now - at > FIX_STALE { return; }
      if hist != [] && at < hist[|hist| - 1].at { return; }
      OneMoreFix(hist, f.(at := at));
      hist := hist + [f.(at := at)];
      if |hist| > HIST_LEN { hist := hist[|hist| - HIST_LEN..]; }
    }
  }
}
