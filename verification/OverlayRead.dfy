/** What the router reads through a built overlay: each trip's own delays, and nothing else. */
module OverlayRead {
  import opened Words
  import opened Delays
  import opened OverlayBuild
  import opened Transit

  /** The timetable has this overlay installed, and `rows` are its trips' own slices. */
  ghost predicate Installed(tt: Timetable, v: View, rows: seq<Row>) {
    && tt.rt == Some(Overlay(v.tripOff, v.skip, v.arr, v.dep, v.stopSkip))
    && |tt.tripTimeOff| == |rows| && |tt.arr| == |tt.dep|
    && forall t: nat, pos: nat :: RowOf(tt, rows, t, pos)
  }

  ghost predicate RowOf(tt: Timetable, rows: seq<Row>, t: nat, pos: nat) {
    t < |rows| && pos < |rows[t].seqs| && |tt.tripTimeOff| == |rows| && |tt.arr| == |tt.dep| ==>
      && tt.tripTimeOff[t] + pos < |tt.arr| && rows[t].Valid()
      && rows[t].arr[pos] == tt.arr[tt.tripTimeOff[t] + pos] && rows[t].dep[pos] == tt.dep[tt.tripTimeOff[t] + pos]
  }

  /** A trip with an update is read with the delays of its first one. */
  lemma ReadsOwnDelays(tt: Timetable, v: View, rows: seq<Row>, now: int, items: seq<Item>, t: nat, pos: nat, k: nat)
    requires Installed(tt, v, rows) && Shows(v, rows, now, items)
    requires t < |rows| && pos < |rows[t].seqs| && FirstFor(items, t, k)
    ensures tt.HasTime(t, pos)
    ensures var hs, start := HitsOf(rows[t], items[k], now), StartDelay(items[k].tu);
      && tt.TripArr(t, pos) == AddDelta(rows[t].arr[pos], ArrAt(hs, start, pos))
      && tt.TripDep(t, pos) == AddDelta(rows[t].dep[pos], DepAt(hs, start, pos))
      && (tt.StopSkipped(t, pos) <==> SkipAt(hs, pos))
  {
    assert RowOf(tt, rows, t, pos) && TripShows(v, rows, now, items, t);
    var hs, start, n, off := HitsOf(rows[t], items[k], now), StartDelay(items[k].tu), |rows[t].seqs|, v.tripOff[t];
    assert Segment(v, off, n, hs, start);
    assert v.arr[off..off + n][pos] == v.arr[off + pos] && v.dep[off..off + n][pos] == v.dep[off + pos];
    assert v.stopSkip[off..off + n][pos] == v.stopSkip[off + pos];
  }

  /** A trip without one is read on schedule. */
  lemma ReadsSchedule(tt: Timetable, v: View, rows: seq<Row>, now: int, items: seq<Item>, t: nat, pos: nat)
    requires Installed(tt, v, rows) && Shows(v, rows, now, items)
    requires t < |rows| && pos < |rows[t].seqs| && !HasCarrier(items, t)
    ensures tt.HasTime(t, pos)
    ensures tt.TripArr(t, pos) == rows[t].arr[pos] && tt.TripDep(t, pos) == rows[t].dep[pos] && !tt.StopSkipped(t, pos)
  {
    assert RowOf(tt, rows, t, pos) && TripShows(v, rows, now, items, t);
  }

  /** The whole trip is dropped from searches exactly when some update cancelled it. */
  lemma SkippedWhenCancelled(tt: Timetable, v: View, rows: seq<Row>, now: int, items: seq<Item>, t: nat)
    requires Installed(tt, v, rows) && Shows(v, rows, now, items) && t < |rows|
    ensures tt.TripSkipped(t) <==> HasCancel(items, t)
  {
    assert TripShows(v, rows, now, items, t);
  }

  /** Two trips never read the same entry. */
  lemma EntriesDiffer(v: View, rows: seq<Row>, now: int, items: seq<Item>, t: nat, u: nat, p: nat, q: nat)
    requires Shows(v, rows, now, items) && t < |rows| && u < |rows| && t != u
    requires p < |rows[t].seqs| && q < |rows[u].seqs| && HasCarrier(items, t) && HasCarrier(items, u)
    ensures var o := Overlay(v.tripOff, v.skip, v.arr, v.dep, v.stopSkip);
      o.RtIdx(t, p) >= 0 && o.RtIdx(u, q) >= 0 && o.RtIdx(t, p) != o.RtIdx(u, q)
  {
    assert TripShows(v, rows, now, items, t) && TripShows(v, rows, now, items, u) && Apart(v, rows, t, u);
  }
}
