/** Persistence: a condition counts only once it has held for a while. */
module Persistence {
  import opened Words

  /** One evaluation: did the condition hold, and when. */
  datatype Sample = Sample(cond: bool, now: Time)

  ghost predicate Clock(seen: seq<Sample>) { forall i, j :: 0 <= i <= j < |seen| ==> seen[i].now <= seen[j].now }

  /** The condition held at evaluation `from` and at every one since. */
  ghost predicate HeldFrom(seen: seq<Sample>, from: nat) {
    from < |seen| && forall i :: from <= i < |seen| ==> seen[i].cond
  }

  /** The condition has held at every evaluation since one at least d before now. */
  ghost predicate HeldFor(seen: seq<Sample>, now: int, d: int) {
    exists k: nat :: HeldFrom(seen, k) && now - seen[k].now >= d
  }

  /** `since` is when the condition started holding, 0 if it does not hold. */
  ghost predicate Started(seen: seq<Sample>, from: nat, since: int) {
    && Clock(seen) && since >= 0
    && (since == 0 ==> seen == [] || !seen[|seen| - 1].cond)
    && (since > 0 ==> HeldFrom(seen, from) && seen[from].now == since && (from == 0 || !seen[from - 1].cond))
  }

  lemma ClockGrows(seen: seq<Sample>, s: Sample)
    requires Clock(seen) && (seen != [] ==> s.now >= seen[|seen| - 1].now)
    ensures Clock(seen + [s])
  {
  }

  lemma StartedGrows(seen: seq<Sample>, from: nat, since: int, s: Sample)
    requires Started(seen, from, since) && (seen != [] ==> s.now >= seen[|seen| - 1].now)
    ensures Started(seen + [s], if since == 0 then |seen| else from, if !s.cond then 0 else if since == 0 then s.now
      else since)
  {
    ClockGrows(seen, s);
  }

  lemma HeldIff(seen: seq<Sample>, from: nat, since: int, now: int, d: int)
    requires Started(seen, from, since) && since > 0
    ensures HeldFor(seen, now, d) <==> now - since >= d
  {
    assert from > 0 ==> !seen[from - 1].cond;
    if k: nat :| HeldFrom(seen, k) && now - seen[k].now >= d {
      assert k < from ==> k <= from - 1;
      assert seen[from].now <= seen[k].now;
    }
  }

  lemma NotHeld(seen: seq<Sample>, now: int, d: int)
    requires seen != [] && !seen[|seen| - 1].cond
    ensures !HeldFor(seen, now, d)
  {
    assert forall k: nat :: !HeldFrom(seen, k);
  }

  /** A persistence anchor; 0 while the condition does not hold. */
  class Anchor {
    var since: int
    ghost var seen: seq<Sample>
    ghost var from: nat

    ghost predicate Valid()
      reads this
    {
      Started(seen, from, since)
    }

    constructor ()
      ensures Valid() && seen == []
    {
      since, seen, from := 0, [], 0;
    }

    /** Sets or clears the anchor; true exactly when the condition has held since an evaluation at least d ago. */
    method Hold(cond: bool, now: Time, d: int) returns (held: bool)
      requires Valid() && (seen != [] ==> now >= seen[|seen| - 1].now)
      modifies this
      ensures Valid() && seen == old(seen) + [Sample(cond, now)]
      ensures held <==> HeldFor(seen, now, d)
    {
      StartedGrows(seen, from, since, Sample(cond, now));
      from := if since == 0 then |seen| else from;
      seen := seen + [Sample(cond, now)];
      if !cond {
        since := 0;
        NotHeld(seen, now, d);
        return false;
      }
      if since == 0 { since := now; }
      held := now - since >= d;
      HeldIff(seen, from, since, now, d);
    }
  }
}
