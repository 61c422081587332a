/** What one trip update means for the trip's stops: a fold over its matched stop updates. */
module Delays {
  import opened Words
  import opened GtfsRt

  /** One trip's rows of the timetable: stop sequence numbers, stop ids and scheduled seconds, by position. */
  datatype Row = Row(seqs: seq<nat>, stopIDs: seq<Bytes>, arr: seq<nat>, dep: seq<nat>)
  {
    predicate Valid() { |stopIDs| == |arr| == |dep| == |seqs| < TWO_16 }
  }

  /** The first position from p on holding this value. */
  function FirstAt<T(==)>(xs: seq<T>, want: T, p: nat): (r: Option<nat>)
    ensures r.Some? ==> p <= r.value < |xs| && xs[r.value] == want && forall i :: p <= i < r.value ==> xs[i] != want
    ensures r.None? ==> forall i :: p <= i < |xs| ==> xs[i] != want
    decreases |xs| - p
  {
    if p >= |xs| then None else if xs[p] == want then Some(p) else FirstAt(xs, want, p + 1)
  }

  /** Where a stop update applies: by stop sequence anywhere in the trip, else by stop id from the cursor on. */
  function Match(row: Row, u: STU, cursor: nat): (r: Option<nat>)
    requires row.Valid()
    ensures r.Some? ==> r.value < |row.seqs|
  {
    var bySeq := if u.seqNo != ABSENT then FirstAt(row.seqs, u.seqNo % TWO_16, 0) else None;
    if bySeq.Some? then bySeq else if u.stopID != [] then FirstAt(row.stopIDs, u.stopID, cursor) else None
  }

  /** A delay given, or derived from an absolute time against the schedule, in 32 bits. */
  function Delta(delay: int, time: int, scheduled: int): int {
    if delay == ABSENT && time > 0 then ToI32(Low32(time - scheduled)) else delay
  }

  /** Is the event at a stop already past? A departure counts before an arrival, a time before a schedule. */
  predicate Past(u: STU, expected: int, now: int) {
    var evt := if u.depTime == 0 && u.arrTime != 0 then u.arrTime else u.depTime;
    var at := if evt == 0 then expected else evt;
    0 < at <= now
  }

  /** A matched stop update: its position, the delays there, and whether it is past. */
  datatype Hit = Hit(pos: nat, arr: int, dep: int, skipped: bool, past: bool)

  function HitAt(row: Row, u: STU, pos: nat, prop: int, base: int, now: int): Hit
    requires row.Valid() && pos < |row.seqs|
  {
    var a := Delta(u.arrDelay, u.arrTime, base + row.arr[pos]);
    var d := Delta(u.depDelay, u.depTime, base + row.dep[pos]);
    var arrHere := if a != ABSENT then a else prop;
    var depHere := if d != ABSENT then d else arrHere;
    Hit(pos, arrHere, depHere, u.skipped, Past(u, base + row.dep[pos] + depHere, now))
  }

  /** The matched updates in order. The delay carried and the cursor are those the last one left. */
  function Hits(row: Row, us: seq<STU>, prop: int, base: int, now: int): (r: seq<Hit>)
    requires row.Valid()
    ensures forall k :: 0 <= k < |r| ==> r[k].pos < |row.seqs|
  {
    if us == [] then []
    else
      var hs := Hits(row, us[..|us| - 1], prop, base, now);
      var m := Match(row, us[|us| - 1], Cursor(hs));
      if m.None? then hs else hs + [HitAt(row, us[|us| - 1], m.value, Carried(hs, prop), base, now)]
  }

  function Cursor(hs: seq<Hit>): nat { if hs == [] then 0 else hs[|hs| - 1].pos + 1 }

  function Carried(hs: seq<Hit>, prop: int): int { if hs == [] then prop else hs[|hs| - 1].dep }

  // ---- the meaning --------------------------------------------------------------------------------------

  /** The last matched update at or before position i decides: its arrival there, its departure delay after. */
  function ArrAt(hs: seq<Hit>, prop: int, i: nat): int {
    if hs == [] then prop
    else
      var h := hs[|hs| - 1];
      if h.pos == i then h.arr else if h.pos < i then h.dep else ArrAt(hs[..|hs| - 1], prop, i)
  }

  function DepAt(hs: seq<Hit>, prop: int, i: nat): int {
    if hs == [] then prop
    else if hs[|hs| - 1].pos <= i then hs[|hs| - 1].dep
    else DepAt(hs[..|hs| - 1], prop, i)
  }

  predicate SkipAt(hs: seq<Hit>, i: nat) { exists k :: 0 <= k < |hs| && hs[k].pos == i && hs[k].skipped }

  function Max(a: int, b: int): int { if a >= b then a else b }

  /** The highest position whose event is past, or the old value. */
  function PassedAfter(hs: seq<Hit>, old_: int): int {
    if hs == [] then old_
    else
      var p, h := PassedAfter(hs[..|hs| - 1], old_), hs[|hs| - 1];
      if h.past then Max(p, ToI16(h.pos)) else p
  }

  lemma {:induction false} PassedIsMax(hs: seq<Hit>, old_: int)
    ensures PassedAfter(hs, old_) >= old_
    ensures forall k :: 0 <= k < |hs| && hs[k].past ==> PassedAfter(hs, old_) >= ToI16(hs[k].pos)
    ensures PassedAfter(hs, old_) == old_ || exists k ::
      0 <= k < |hs| && hs[k].past && PassedAfter(hs, old_) == ToI16(hs[k].pos)
  {
    if hs != [] {
      var init := hs[..|hs| - 1];
      PassedIsMax(init, old_);
      assert forall k :: 0 <= k < |init| ==> init[k] == hs[k];
      if PassedAfter(init, old_) != old_ {
        var k :| 0 <= k < |init| && init[k].past && PassedAfter(init, old_) == ToI16(init[k].pos);
        assert hs[k].past;
      }
    }
  }

  /** One matched update keeps the positions before it, sets its own, and gives the later ones its departure delay. */
  lemma OneUpdate(hs: seq<Hit>, h: Hit, prop: int, i: nat)
    ensures i < h.pos ==>
      ArrAt(hs + [h], prop, i) == ArrAt(hs, prop, i) && DepAt(hs + [h], prop, i) == DepAt(hs, prop, i)
    ensures i == h.pos ==> ArrAt(hs + [h], prop, i) == h.arr && DepAt(hs + [h], prop, i) == h.dep
    ensures i > h.pos ==> ArrAt(hs + [h], prop, i) == DepAt(hs + [h], prop, i) == h.dep
  {
    assert (hs + [h])[..|hs|] == hs;
  }

  /** From the cursor on, every position has the delay carried. */
  lemma BeyondCursor(hs: seq<Hit>, prop: int, i: nat)
    requires i >= Cursor(hs)
    ensures ArrAt(hs, prop, i) == DepAt(hs, prop, i) == Carried(hs, prop)
  {
  }

  /** With the updates in stop order, a stop's delay is the nearest matched update's at or before it. */
  lemma {:induction false} InStopOrder(hs: seq<Hit>, prop: int, i: nat, k: nat)
    requires forall a, b :: 0 <= a < b < |hs| ==> hs[a].pos < hs[b].pos
    requires k < |hs| && hs[k].pos <= i && (k + 1 < |hs| ==> i < hs[k + 1].pos)
    ensures DepAt(hs, prop, i) == hs[k].dep && ArrAt(hs, prop, i) == if hs[k].pos == i then hs[k].arr else hs[k].dep
  {
    if k < |hs| - 1 {
      assert hs[|hs| - 1].pos > i by { if k + 1 < |hs| - 1 { assert hs[k + 1].pos < hs[|hs| - 1].pos; } }
      InStopOrder(hs[..|hs| - 1], prop, i, k);
    }
  }

  /** The delays and skips of n positions. */
  function ArrRow(hs: seq<Hit>, prop: int, n: nat): (r: seq<int>)
    ensures |r| == n
  {
    seq(n, i requires 0 <= i < n => ArrAt(hs, prop, i))
  }

  function DepRow(hs: seq<Hit>, prop: int, n: nat): (r: seq<int>)
    ensures |r| == n
  {
    seq(n, i requires 0 <= i < n => DepAt(hs, prop, i))
  }

  function SkipRow(hs: seq<Hit>, n: nat): (r: seq<bool>)
    ensures |r| == n
  {
    seq(n, i requires 0 <= i < n => SkipAt(hs, i))
  }

  // ---- the filling loop -----------------------------------------------------------------------------------

  /** The delays of the first n positions are final so far. */
  ghost predicate Filled(hs: seq<Hit>, prop: int, arr: seq<int>, dep: seq<int>, n: nat) {
    n <= |arr| == |dep| && forall i :: 0 <= i < n ==> arr[i] == ArrAt(hs, prop, i) && dep[i] == DepAt(hs, prop, i)
  }

  /** Gives the gap up to position `to` the running delay. */
  method FillGap(arr0: seq<int>, dep0: seq<int>, cursor: nat, to: nat, prop: int, ghost hs: seq<Hit>, ghost start: int)
    returns (arr: seq<int>, dep: seq<int>)
    requires Filled(hs, start, arr0, dep0, cursor) && cursor == Cursor(hs) && prop == Carried(hs, start) && to <= |arr0|
    ensures |arr| == |arr0| && Filled(hs, start, arr, dep, if to > cursor then to else cursor)
  {
    arr, dep := arr0, dep0;
    var c := cursor;
    while c < to
      invariant cursor <= c && (c <= to || c == cursor) && |arr| == |arr0| && Filled(hs, start, arr, dep, c)
    {
      BeyondCursor(hs, start, c);
      arr, dep := arr[c := prop], dep[c := prop];
      c := c + 1;
    }
  }

  ghost predicate SkipsAre(hs: seq<Hit>, skip: seq<bool>) {
    forall i :: 0 <= i < |skip| ==> (skip[i] <==> SkipAt(hs, i))
  }

  lemma SkipMore(hs: seq<Hit>, h: Hit, skip: seq<bool>)
    requires SkipsAre(hs, skip) && h.pos < |skip|
    ensures SkipsAre(hs + [h], if h.skipped then skip[h.pos := true] else skip)
  {
    var hs' := hs + [h];
    forall i: nat ensures SkipAt(hs', i) <==> SkipAt(hs, i) || (h.pos == i && h.skipped) {
      if k :| 0 <= k < |hs| && hs[k].pos == i && hs[k].skipped { assert hs'[k].skipped; }
      if h.pos == i && h.skipped { assert hs'[|hs|].skipped; }
    }
  }

  lemma HitWritten(hs: seq<Hit>, h: Hit, prop: int, arr: seq<int>, dep: seq<int>)
    requires Filled(hs, prop, arr, dep, h.pos) && h.pos < |arr|
    ensures Filled(hs + [h], prop, arr[h.pos := h.arr], dep[h.pos := h.dep], h.pos + 1)
  {
    forall i | 0 <= i <= h.pos
      ensures arr[h.pos := h.arr][i] == ArrAt(hs + [h], prop, i) && dep[h.pos := h.dep][i] == DepAt(hs + [h], prop, i)
    {
      OneUpdate(hs, h, prop, i);
    }
  }

  /** The filling loop between two updates. */
  ghost predicate Between(n: nat, hs: seq<Hit>, start: int, arr: seq<int>, dep: seq<int>, skip: seq<bool>,
      prop: int, cursor: nat)
  {
    && |arr| == |dep| == |skip| == n && cursor == Cursor(hs) && prop == Carried(hs, start)
    && Filled(hs, start, arr, dep, cursor) && SkipsAre(hs, skip)
  }

  /** Writes one matched update: the gap before it, then its own position. */
  method WriteHit(h: Hit, arr0: seq<int>, dep0: seq<int>, skip0: seq<bool>, prop: int, cursor: nat,
      ghost hs: seq<Hit>, ghost start: int) returns (arr: seq<int>, dep: seq<int>, skip: seq<bool>)
    requires h.pos < |arr0| && Between(|arr0|, hs, start, arr0, dep0, skip0, prop, cursor)
    ensures Between(|arr0|, hs + [h], start, arr, dep, skip, h.dep, h.pos + 1)
  {
    arr, dep := FillGap(arr0, dep0, cursor, h.pos, prop, hs, start);
    SkipMore(hs, h, skip0);
    skip := if h.skipped then skip0[h.pos := true] else skip0;
    HitWritten(hs, h, start, arr, dep);
    arr, dep := arr[h.pos := h.arr], dep[h.pos := h.dep];
  }

  /** Fills one trip's deltas, whatever the order of the updates. */
  method FillTrip(row: Row, us: seq<STU>, start: int, base: int, now: int, passed0: int)
    returns (arr: seq<int>, dep: seq<int>, skip: seq<bool>, passed: int)
    requires row.Valid()
    ensures var hs, n := Hits(row, us, start, base, now), |row.seqs|;
      arr == ArrRow(hs, start, n) && dep == DepRow(hs, start, n) && skip == SkipRow(hs, n) &&
        passed == PassedAfter(hs, passed0)
  {
    var n := |row.seqs|;
    arr, dep, skip := seq(n, _ => 0), seq(n, _ => 0), seq(n, _ => false);
    passed := passed0;
    var prop, cursor: nat := start, 0;
    ghost var hs: seq<Hit> := [];
    for k := 0 to |us|
      invariant hs == Hits(row, us[..k], start, base, now)
      invariant Between(n, hs, start, arr, dep, skip, prop, cursor) && passed == PassedAfter(hs, passed0)
    {
      HitsNext(row, us, k, start, base, now);
      var m := Match(row, us[k], cursor);
      if m.Some? {
        var h := HitAt(row, us[k], m.value, prop, base, now);
        arr, dep, skip := WriteHit(h, arr, dep, skip, prop, cursor, hs, start);
        PassedNext(hs, h, passed0);
        if h.past && ToI16(h.pos) > passed { passed := ToI16(h.pos); }
        prop, cursor, hs := h.dep, h.pos + 1, hs + [h];
      }
    }
    assert us[..|us|] == us;
    arr, dep := FillGap(arr, dep, cursor, n, prop, hs, start);
  }

  lemma HitsNext(row: Row, us: seq<STU>, k: nat, prop: int, base: int, now: int)
    requires row.Valid() && k < |us|
    ensures var hs := Hits(row, us[..k], prop, base, now);
      var m := Match(row, us[k], Cursor(hs));
      Hits(row, us[..k + 1], prop, base, now)
        == if m.None? then hs else hs + [HitAt(row, us[k], m.value, Carried(hs, prop), base, now)]
  {
    assert us[..k + 1][..k] == us[..k];
  }

  lemma PassedNext(hs: seq<Hit>, h: Hit, old_: int)
    ensures PassedAfter(hs + [h], old_) == if h.past then Max(PassedAfter(hs, old_), ToI16(h.pos))
      else PassedAfter(hs, old_)
  {
    assert (hs + [h])[..|hs|] == hs;
  }
}
