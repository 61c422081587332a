/** The overlay builder: feeds in order, one segment per trip, newest vehicle, highest stop passed. */
module OverlayBuild {
  import opened Words
  import opened GtfsRt
  import opened Delays

  /** One feed entity in reading order, its trip already looked up: a trip update with its service day's first second,
      or a vehicle with its time stamp (the entity's, else the feed's, else the receipt's). */
  datatype Item =
    | Update(trip: nat, tu: TripRT, base: int)
    | Vehicle(trip: nat, stamp: nat, currentSeq: int, status: int)

  /** An update with stop times for trip t. */
  predicate Carries(i: Item, t: nat) { i.Update? && i.trip == t && !i.tu.cancelled }

  predicate Cancels(i: Item, t: nat) { i.Update? && i.trip == t && i.tu.cancelled }

  predicate HasCarrier(items: seq<Item>, t: nat) { exists k :: 0 <= k < |items| && Carries(items[k], t) }

  predicate HasCancel(items: seq<Item>, t: nat) { exists k :: 0 <= k < |items| && Cancels(items[k], t) }

  predicate Mentions(items: seq<Item>, t: nat) { exists k :: 0 <= k < |items| && items[k].trip == t }

  predicate FirstFor(items: seq<Item>, t: nat, k: nat) {
    k < |items| && Carries(items[k], t) && !HasCarrier(items[..k], t)
  }

  /** One more item. */
  lemma OneMore(items: seq<Item>, i: Item, t: nat)
    ensures HasCarrier(items + [i], t) <==> HasCarrier(items, t) || Carries(i, t)
    ensures HasCancel(items + [i], t) <==> HasCancel(items, t) || Cancels(i, t)
    ensures Mentions(items + [i], t) <==> Mentions(items, t) || i.trip == t
    ensures forall k: nat :: FirstFor(items + [i], t, k) <==>
      FirstFor(items, t, k) || (k == |items| && Carries(i, t) && !HasCarrier(items, t))
  {
    var all := items + [i];
    if k :| 0 <= k < |items| && Carries(items[k], t) { assert Carries(all[k], t); }
    if k :| 0 <= k < |items| && Cancels(items[k], t) { assert Cancels(all[k], t); }
    if k :| 0 <= k < |items| && items[k].trip == t { assert all[k].trip == t; }
    assert all[|items|] == i;
    forall k: nat ensures FirstFor(all, t, k) <==>
      FirstFor(items, t, k) || (k == |items| && Carries(i, t) && !HasCarrier(items, t))
    {
      if k < |items| { assert all[..k] == items[..k]; }
      if k == |items| { assert all[..k] == items; }
    }
  }

  function StartDelay(tu: TripRT): int { if tu.hasDelay && tu.delaySec != ABSENT then tu.delaySec else 0 }

  function HitsOf(row: Row, i: Item, now: int): seq<Hit>
    requires row.Valid() && i.Update?
  {
    Hits(row, i.tu.stus, StartDelay(i.tu), i.base, now)
  }

  /** The newest vehicle stamp of trip t. */
  function Newest(items: seq<Item>, t: nat): nat {
    if items == [] then 0
    else
      var s, i := Newest(items[..|items| - 1], t), items[|items| - 1];
      if i.Vehicle? && i.trip == t && i.stamp > s then i.stamp else s
  }

  lemma {:induction false} NewestIsMax(items: seq<Item>, t: nat)
    ensures forall k :: 0 <= k < |items| && items[k].Vehicle? && items[k].trip == t ==>
      Newest(items, t) >= items[k].stamp
    ensures Newest(items, t) == 0
      || exists k :: 0 <= k < |items| && items[k].Vehicle? && items[k].trip == t && Newest(items, t) == items[k].stamp
  {
    if items != [] {
      var init := items[..|items| - 1];
      NewestIsMax(init, t);
      assert forall k :: 0 <= k < |init| ==> init[k] == items[k];
      if Newest(init, t) != 0 {
        var k :| 0 <= k < |init| && init[k].Vehicle? && init[k].trip == t && Newest(init, t) == init[k].stamp;
        assert items[k].Vehicle?;
      }
    }
  }

  /** Is a vehicle used? Not when an earlier one carries a newer stamp. */
  predicate Fresh(items: seq<Item>, i: Item) { i.Vehicle? &&
      !(Newest(items, i.trip) != 0 && i.stamp < Newest(items, i.trip)) }

  /** The position a vehicle is at or heading to. */
  function VehicleAt(row: Row, i: Item): (r: Option<nat>)
    requires i.Vehicle?
    ensures r.Some? ==> r.value < |row.seqs| && row.seqs[r.value] == i.currentSeq % TWO_16
  {
    if i.currentSeq != ABSENT then FirstAt(row.seqs, i.currentSeq % TWO_16, 0) else None
  }

  /** The stops a vehicle has passed: everything strictly before the one it is at or heading to. */
  function VehiclePassed(row: Row, i: Item, p: int): int
    requires i.Vehicle? && row.Valid()
  {
    var at := VehicleAt(row, i);
    if at.Some? && at.value > 0 then Max(p, ToI16(at.value - 1)) else p
  }

  /** The highest passed position of trip t after these items. */
  function PassedBy(rows: seq<Row>, items: seq<Item>, now: int, t: nat): int
    requires t < |rows| && rows[t].Valid()
  {
    if items == [] then -1
    else
      var init, i := items[..|items| - 1], items[|items| - 1];
      var p := PassedBy(rows, init, now, t);
      if Carries(i, t) && !HasCarrier(init, t) then PassedAfter(HitsOf(rows[t], i, now), p)
      else if Fresh(init, i) && i.trip == t then VehiclePassed(rows[t], i, p)
      else p
  }

  /** One more item never takes back a passed stop. */
  lemma PassedStep(rows: seq<Row>, items: seq<Item>, i: Item, now: int, t: nat)
    requires t < |rows| && rows[t].Valid()
    ensures PassedBy(rows, items, now, t) <= PassedBy(rows, items + [i], now, t)
  {
    assert (items + [i])[..|items|] == items;
    if i.Update? { PassedIsMax(HitsOf(rows[t], i, now), PassedBy(rows, items, now, t)); }
  }

  /** What is passed stays passed as more items arrive. */
  lemma {:induction false} PassedGrows(rows: seq<Row>, a: seq<Item>, b: seq<Item>, now: int, t: nat)
    requires t < |rows| && rows[t].Valid()
    ensures PassedBy(rows, a, now, t) <= PassedBy(rows, a + b, now, t)
    decreases |b|
  {
    if b == [] {
      assert a + b == a;
    } else {
      var init := b[..|b| - 1];
      PassedGrows(rows, a, init, now, t);
      PassedStep(rows, a + init, b[|b| - 1], now, t);
      assert a + b == (a + init) + [b[|b| - 1]];
    }
  }

  // ---- what the overlay shows -------------------------------------------------------------------------------

  /** The overlay's fields that delays and freshness are read from. */
  datatype View = View(tripOff: seq<int>, skip: seq<bool>, hasRT: seq<bool>, passed: seq<int>, vehTime: seq<nat>,
    arr: seq<int>, dep: seq<int>, stopSkip: seq<bool>)

  ghost predicate RowsOk(rows: seq<Row>) { forall t :: 0 <= t < |rows| ==> rows[t].Valid() }

  ghost predicate Shaped(v: View, rows: seq<Row>) {
    && |v.tripOff| == |v.skip| == |v.hasRT| == |v.passed| == |v.vehTime| == |rows|
    && |v.arr| == |v.dep| == |v.stopSkip| && RowsOk(rows)
  }

  /** n entries from `off` on are these delays. */
  ghost predicate Segment(v: View, off: int, n: nat, hs: seq<Hit>, start: int) {
    && 0 <= off && off + n <= |v.arr| == |v.dep| == |v.stopSkip|
    && v.arr[off..off + n] == ArrRow(hs, start, n) && v.dep[off..off + n] == DepRow(hs, start, n)
    && v.stopSkip[off..off + n] == SkipRow(hs, n)
  }

  /** Trip t after these items: its flags, its passed stops, and the segment of its first update. */
  ghost predicate TripShows(v: View, rows: seq<Row>, now: int, items: seq<Item>, t: nat)
    requires Shaped(v, rows)
  {
    t < |rows| ==>
      && (v.skip[t] <==> HasCancel(items, t))
      && (v.hasRT[t] <==> Mentions(items, t))
      && v.vehTime[t] == Newest(items, t)
      && v.passed[t] == PassedBy(rows, items, now, t)
      && (v.tripOff[t] >= 0 <==> HasCarrier(items, t))
      && forall k: nat :: FirstFor(items, t, k) ==>
        Segment(v, v.tripOff[t], |rows[t].seqs|, HitsOf(rows[t], items[k], now), StartDelay(items[k].tu))
  }

  /** The segments of two trips share no entry. */
  ghost predicate Apart(v: View, rows: seq<Row>, t: nat, u: nat) {
    t < |v.tripOff| <= |rows| && u < |v.tripOff| && t != u && v.tripOff[t] >= 0 && v.tripOff[u] >= 0 ==>
      v.tripOff[t] + |rows[t].seqs| <= v.tripOff[u] || v.tripOff[u] + |rows[u].seqs| <= v.tripOff[t]
  }

  ghost predicate Inside(v: View, rows: seq<Row>, t: nat) {
    t < |v.tripOff| <= |rows| && v.tripOff[t] >= 0 ==> v.tripOff[t] + |rows[t].seqs| <= |v.arr|
  }

  ghost predicate Shows(v: View, rows: seq<Row>, now: int, items: seq<Item>) {
    && Shaped(v, rows)
    && (forall t: nat :: TripShows(v, rows, now, items, t))
    && (forall t: nat, u: nat :: Apart(v, rows, t, u))
    && forall t: nat :: Inside(v, rows, t)
  }

  /** The shared lists only grew. */
  ghost predicate Grew(v: View, v': View) { v.arr <= v'.arr && v.dep <= v'.dep && v.stopSkip <= v'.stopSkip }

  lemma SegmentStays(v: View, v': View, off: int, n: nat, hs: seq<Hit>, start: int)
    requires Segment(v, off, n, hs, start) && Grew(v, v') && |v'.arr| == |v'.dep| == |v'.stopSkip|
    ensures Segment(v', off, n, hs, start)
  {
    assert v'.arr[off..off + n] == v.arr[off..off + n];
    assert v'.dep[off..off + n] == v.dep[off..off + n];
    assert v'.stopSkip[off..off + n] == v.stopSkip[off..off + n];
  }

  lemma NewestNext(items: seq<Item>, i: Item, t: nat)
    ensures Newest(items + [i], t) ==
      if i.Vehicle? && i.trip == t && i.stamp > Newest(items, t) then i.stamp else Newest(items, t)
  {
    assert (items + [i])[..|items|] == items;
  }

  lemma PassedNextItem(rows: seq<Row>, items: seq<Item>, i: Item, now: int, t: nat)
    requires t < |rows| && rows[t].Valid()
    ensures var p := PassedBy(rows, items, now, t);
      PassedBy(rows, items + [i], now, t) ==
        if Carries(i, t) && !HasCarrier(items, t) then PassedAfter(HitsOf(rows[t], i, now), p)
        else if Fresh(items, i) && i.trip == t then VehiclePassed(rows[t], i, p) else p
  {
    assert (items + [i])[..|items|] == items;
  }

  /** An item leaves every other trip as it was. */
  lemma OtherTrip(v: View, v': View, rows: seq<Row>, now: int, items: seq<Item>, i: Item, t: nat)
    requires Shaped(v, rows) && Shaped(v', rows) && TripShows(v, rows, now, items, t) && Grew(v, v')
    requires t < |rows| && t != i.trip
    requires v'.skip[t] == v.skip[t] && v'.hasRT[t] == v.hasRT[t] && v'.vehTime[t] == v.vehTime[t]
    requires v'.passed[t] == v.passed[t] && v'.tripOff[t] == v.tripOff[t]
    ensures TripShows(v', rows, now, items + [i], t)
  {
    OneMore(items, i, t);
    NewestNext(items, i, t);
    PassedNextItem(rows, items, i, now, t);
    FirstStays(v, v', rows, now, items, i, t);
  }

  /** The segment of a trip that had one stays. */
  lemma FirstStays(v: View, v': View, rows: seq<Row>, now: int, items: seq<Item>, i: Item, t: nat)
    requires Shaped(v, rows) && Shaped(v', rows) && TripShows(v, rows, now, items, t) && Grew(v, v')
    requires t < |rows| && v'.tripOff[t] == v.tripOff[t] && (Carries(i, t) ==> HasCarrier(items, t))
    ensures forall k: nat :: FirstFor(items + [i], t, k) ==>
      Segment(v', v'.tripOff[t], |rows[t].seqs|, HitsOf(rows[t], (items + [i])[k], now),
        StartDelay((items + [i])[k].tu))
  {
    OneMore(items, i, t);
    forall k: nat | FirstFor(items + [i], t, k)
      ensures Segment(v', v'.tripOff[t], |rows[t].seqs|, HitsOf(rows[t], (items + [i])[k], now),
        StartDelay((items + [i])[k].tu))
    {
      assert FirstFor(items, t, k) && (items + [i])[k] == items[k];
      SegmentStays(v, v', v.tripOff[t], |rows[t].seqs|, HitsOf(rows[t], items[k], now), StartDelay(items[k].tu));
    }
  }

  /** A trip that had its segment, or is cancelled, keeps it. */
  lemma OwnTripKept(v: View, v': View, rows: seq<Row>, now: int, items: seq<Item>, i: Item)
    requires i.Update? && i.trip < |rows| && Shaped(v, rows) && TripShows(v, rows, now, items, i.trip)
    requires i.tu.cancelled || HasCarrier(items, i.trip)
    requires v' == v.(hasRT := v.hasRT[i.trip := true], skip := if i.tu.cancelled then v.skip[i.trip := true]
      else v.skip)
    ensures TripShows(v', rows, now, items + [i], i.trip)
  {
    OneMore(items, i, i.trip);
    NewestNext(items, i, i.trip);
    PassedNextItem(rows, items, i, now, i.trip);
    FirstStays(v, v', rows, now, items, i, i.trip);
  }

  lemma NoFirst(items: seq<Item>, t: nat)
    requires !HasCarrier(items, t)
    ensures forall k: nat :: !FirstFor(items, t, k)
  {
  }

  /** A trip's first update gives it its segment. */
  lemma OwnTripFilled(v: View, v': View, rows: seq<Row>, now: int, items: seq<Item>, i: Item)
    requires i.Update? && !i.tu.cancelled && i.trip < |rows| && Shaped(v, rows) && Shaped(v', rows)
    requires TripShows(v, rows, now, items, i.trip) && !HasCarrier(items, i.trip)
    requires v'.skip == v.skip && v'.vehTime == v.vehTime && v'.hasRT[i.trip] && v'.tripOff[i.trip] >= 0
    requires v'.passed[i.trip] == PassedAfter(HitsOf(rows[i.trip], i, now), v.passed[i.trip])
    requires Segment(v', v'.tripOff[i.trip], |rows[i.trip].seqs|, HitsOf(rows[i.trip], i, now), StartDelay(i.tu))
    ensures TripShows(v', rows, now, items + [i], i.trip)
  {
    OneMore(items, i, i.trip);
    NewestNext(items, i, i.trip);
    PassedNextItem(rows, items, i, now, i.trip);
    NoFirst(items, i.trip);
  }

  /** A vehicle moves only its trip's stamp and passed stops. */
  lemma OwnTripVehicle(v: View, v': View, rows: seq<Row>, now: int, items: seq<Item>, i: Item)
    requires i.Vehicle? && i.trip < |rows| && Shaped(v, rows) && TripShows(v, rows, now, items, i.trip)
    requires if Fresh(items, i)
      then v' == v.(hasRT := v.hasRT[i.trip := true], vehTime := v.vehTime[i.trip := i.stamp],
        passed := v.passed[i.trip := VehiclePassed(rows[i.trip], i, v.passed[i.trip])])
      else v' == v
    ensures TripShows(v', rows, now, items + [i], i.trip)
  {
    OneMore(items, i, i.trip);
    NewestNext(items, i, i.trip);
    PassedNextItem(rows, items, i, now, i.trip);
    FirstStays(v, v', rows, now, items, i, i.trip);
    if !Fresh(items, i) {
      NewestIsMax(items, i.trip);
    }
  }

  class Builder {
    const rows: seq<Row>
    const now: int
    var tripOff: seq<int>
    var skip: seq<bool>
    var hasRT: seq<bool>
    var passed: seq<int>
    var vehTime: seq<nat>
    var vehPos: seq<int>
    var vehStatus: seq<int>
    var arrDelta: seq<int>
    var depDelta: seq<int>
    var stopSkip: seq<bool>

    ghost function Seen(): View
      reads this
    {
      View(tripOff, skip, hasRT, passed, vehTime, arrDelta, depDelta, stopSkip)
    }

    ghost predicate Valid(items: seq<Item>)
      reads this
    {
      Shows(Seen(), rows, now, items) && |vehPos| == |vehStatus| == |rows|
    }

    constructor (rows: seq<Row>, now: int)
      requires RowsOk(rows)
      ensures Valid([]) && this.rows == rows && this.now == now
    {
      var n := |rows|;
      this.rows, this.now := rows, now;
      tripOff, passed, vehPos, vehStatus := seq(n, _ => -1), seq(n, _ => -1), seq(n, _ => -1), seq(n, _ => -1);
      skip, hasRT, vehTime := seq(n, _ => false), seq(n, _ => false), seq(n, _ => 0);
      arrDelta, depDelta, stopSkip := [], [], [];
    }

    /** A trip update: cancellation, or the trip's segment if it has none yet. */
    method TakeUpdate(i: Item, ghost items: seq<Item>)
      requires Valid(items) && i.Update? && i.trip < |rows|
      modifies this`tripOff, this`skip, this`hasRT, this`passed, this`arrDelta, this`depDelta, this`stopSkip
      ensures Valid(items + [i])
    {
      ghost var v := Seen();
      assert TripShows(v, rows, now, items, i.trip);
      hasRT := hasRT[i.trip := true];
      if i.tu.cancelled {
        skip := skip[i.trip := true];
        OwnTripKept(v, Seen(), rows, now, items, i);
      } else if tripOff[i.trip] < 0 {
        AddSegment(i);
        OwnTripFilled(v, Seen(), rows, now, items, i);
      } else {
        OwnTripKept(v, Seen(), rows, now, items, i);
      }
      forall t: nat ensures TripShows(Seen(), rows, now, items + [i], t) {
        assert TripShows(v, rows, now, items, t);
        if t < |rows| && t != i.trip { OtherTrip(v, Seen(), rows, now, items, i, t); }
      }
      StillApart(v, Seen(), rows, i.trip);
    }

    /** The trip's deltas at the end of the shared lists. */
    method AddSegment(i: Item)
      requires Shaped(Seen(), rows) && i.Update? && i.trip < |rows|
      modifies this`tripOff, this`arrDelta, this`depDelta, this`stopSkip, this`passed
      ensures Shaped(Seen(), rows) && Grew(old(Seen()), Seen())
      ensures tripOff == old(tripOff)[i.trip := |old(arrDelta)|]
      ensures passed == old(passed)[i.trip := PassedAfter(HitsOf(rows[i.trip], i, now), old(passed)[i.trip])]
      ensures |arrDelta| == |old(arrDelta)| + |rows[i.trip].seqs|
      ensures Segment(Seen(), tripOff[i.trip], |rows[i.trip].seqs|, HitsOf(rows[i.trip], i, now), StartDelay(i.tu))
    {
      var off, n := |arrDelta|, |rows[i.trip].seqs|;
      tripOff := tripOff[i.trip := off];
      var arr, dep, sk, p := FillTrip(rows[i.trip], i.tu.stus, StartDelay(i.tu), i.base, now, passed[i.trip]);
      arrDelta, depDelta, stopSkip := arrDelta + arr, depDelta + dep, stopSkip + sk;
      passed := passed[i.trip := p];
      assert arrDelta[off..off + n] == arr && depDelta[off..off + n] == dep && stopSkip[off..off + n] == sk;
    }

    /** A vehicle: its stop, unless an earlier one carries a newer stamp. */
    method TakeVehicle(i: Item, ghost items: seq<Item>)
      requires Valid(items) && i.Vehicle? && i.trip < |rows|
      modifies this`vehTime, this`hasRT, this`vehStatus, this`vehPos, this`passed
      ensures Valid(items + [i])
    {
      ghost var v := Seen();
      assert TripShows(v, rows, now, items, i.trip);
      var stale := vehTime[i.trip] != 0 && i.stamp < vehTime[i.trip];
      if !stale { UseVehicle(i); }
      OwnTripVehicle(v, Seen(), rows, now, items, i);
      forall t: nat ensures TripShows(Seen(), rows, now, items + [i], t) {
        assert TripShows(v, rows, now, items, t);
        if t < |rows| && t != i.trip { OtherTrip(v, Seen(), rows, now, items, i, t); }
      }
      StillApart(v, Seen(), rows, i.trip);
    }

    /** Takes over a vehicle's stamp, status and stop. */
    method UseVehicle(i: Item)
      requires i.Vehicle? && i.trip < |rows| == |passed| == |vehPos| == |vehStatus| == |vehTime| == |hasRT| &&
        rows[i.trip].Valid()
      modifies this`vehTime, this`hasRT, this`vehStatus, this`vehPos, this`passed
      ensures vehTime == old(vehTime)[i.trip := i.stamp] && hasRT == old(hasRT)[i.trip := true]
      ensures vehStatus == if i.status != ABSENT then old(vehStatus)[i.trip := ToI8(i.status)] else old(vehStatus)
      ensures var at := VehicleAt(rows[i.trip], i);
        vehPos == if at.Some? then old(vehPos)[i.trip := ToI16(at.value)] else old(vehPos)
      ensures passed == old(passed)[i.trip := VehiclePassed(rows[i.trip], i, old(passed)[i.trip])]
    {
      vehTime := vehTime[i.trip := i.stamp];
      hasRT := hasRT[i.trip := true];
      if i.status != ABSENT { vehStatus := vehStatus[i.trip := ToI8(i.status)]; }
      PlaceVehicle(i);
    }

    method PlaceVehicle(i: Item)
      requires i.Vehicle? && i.trip < |rows| == |passed| == |vehPos| && rows[i.trip].Valid()
      modifies this`vehPos, this`passed
      ensures var at := VehicleAt(rows[i.trip], i);
        vehPos == if at.Some? then old(vehPos)[i.trip := ToI16(at.value)] else old(vehPos)
      ensures passed == old(passed)[i.trip := VehiclePassed(rows[i.trip], i, old(passed)[i.trip])]
    {
      if i.currentSeq == ABSENT { return; }
      var pos := FirstAt(rows[i.trip].seqs, i.currentSeq % TWO_16, 0);
      if pos.Some? {
        vehPos := vehPos[i.trip := ToI16(pos.value)];
        if pos.value > 0 && ToI16(pos.value - 1) > passed[i.trip] {
          passed := passed[i.trip := ToI16(pos.value - 1)];
        }
      }
    }
  }

  /** A new segment lies beyond all others. */
  lemma StillApart(v: View, v': View, rows: seq<Row>, t: nat)
    requires t < |rows| == |v.tripOff| == |v'.tripOff| && |v.arr| <= |v'.arr|
    requires (forall a: nat, b: nat :: Apart(v, rows, a, b)) && forall a: nat :: Inside(v, rows, a)
    requires v'.tripOff == v.tripOff
      || (v'.tripOff == v.tripOff[t := |v.arr|] && |v'.arr| == |v.arr| + |rows[t].seqs|)
    ensures (forall a: nat, b: nat :: Apart(v', rows, a, b)) && forall a: nat :: Inside(v', rows, a)
  {
    forall a: nat, b: nat ensures Apart(v', rows, a, b) {
      assert Apart(v, rows, a, b) && Inside(v, rows, a) && Inside(v, rows, b);
    }
    forall a: nat ensures Inside(v', rows, a) { assert Inside(v, rows, a); }
  }

  /** All feed entities in turn. */
  method BuildOverlay(rows: seq<Row>, items: seq<Item>, now: int) returns (o: Builder)
    requires RowsOk(rows) && forall k :: 0 <= k < |items| ==> items[k].trip < |rows|
    ensures o.Valid(items) && o.rows == rows && o.now == now
  {
    o := new Builder(rows, now);
    for k := 0 to |items|
      invariant o.rows == rows && o.now == now && o.Valid(items[..k])
    {
      assert items[..k + 1] == items[..k] + [items[k]];
      if items[k].Update? { o.TakeUpdate(items[k], items[..k]); } else { o.TakeVehicle(items[k], items[..k]); }
    }
    assert items[..|items|] == items;
  }
}
