/** The GTFS-Realtime encoder as it runs: nested buffers, each field appended in turn. */
module GtfsRtEncoding {
  import opened Words
  import opened Varints
  import opened Seqs
  import opened Wire
  import opened GtfsRt

  method PutNumberIf(e: Encoder, c: bool, field: nat, v: nat)
    modifies e
    ensures e.b == old(e.b) + When(c, VarintField(field, v))
  {
    if c { e.PutVarintField(field, v); }
  }

  method PutBytesIf(e: Encoder, c: bool, field: nat, data: Bytes)
    modifies e
    ensures e.b == old(e.b) + When(c, BytesField(field, data))
  {
    if c { e.PutBytesField(field, data); }
  }

  method EncodeDescriptor(tripID: Bytes, routeID: Bytes, startDate: Bytes, cancelled: bool, added: bool)
    returns (r: Bytes)
    ensures r == EncDescriptor(tripID, routeID, startDate, cancelled, added)
  {
    var td := new Encoder();
    td.PutBytesField(1, tripID);
    PutBytesIf(td, routeID != [], 5, routeID);
    PutBytesIf(td, startDate != [], 3, startDate);
    PutNumberIf(td, cancelled || added, 4, if cancelled then 3 else 1);
    Assoc4(BytesField(1, tripID), When(routeID != [], BytesField(5, routeID)),
      When(startDate != [], BytesField(3, startDate)),
      When(cancelled || added, VarintField(4, if cancelled then 3 else 1)));
    return td.b;
  }

  lemma Assoc4(a: Bytes, b: Bytes, c: Bytes, d: Bytes)
    ensures (((([] + a) + b) + c) + d) == a + (b + (c + d))
  {
  }

  lemma Assoc5(a: Bytes, b: Bytes, c: Bytes, d: Bytes, e: Bytes)
    ensures ((((([] + a) + b) + c) + d) + e) == a + (b + (c + (d + e)))
  {
    Assoc4(a, b, c, d);
    Assoc(a, b + (c + d), e);
    Assoc(b, c + d, e);
    Assoc(c, d, e);
  }

  method EncodeSTE(delay: int, t: int) returns (r: Bytes)
    ensures r == EncSTE(delay, t)
  {
    var e := new Encoder();
    PutNumberIf(e, delay != ABSENT, 1, Signed64(delay));
    PutNumberIf(e, t != 0, 2, Signed64(t));
    return e.b;
  }

  method PutEvent(e: Encoder, field: nat, delay: int, t: int)
    modifies e
    ensures e.b == old(e.b) + When(delay != ABSENT || t != 0, BytesField(field, EncSTE(delay, t)))
  {
    if delay != ABSENT || t != 0 {
      var x := EncodeSTE(delay, t);
      e.PutBytesField(field, x);
    }
  }

  method EncodeSTU(s: STU) returns (r: Bytes)
    ensures r == EncSTU(s)
  {
    var e := new Encoder();
    PutNumberIf(e, s.seqNo != ABSENT, 1, Low32(s.seqNo));
    PutEvent(e, 2, s.arrDelay, s.arrTime);
    PutEvent(e, 3, s.depDelay, s.depTime);
    PutBytesIf(e, s.stopID != [], 4, s.stopID);
    PutNumberIf(e, s.skipped || s.noData, 5, if s.skipped then 1 else 2);
    Assoc5(When(s.seqNo != ABSENT, VarintField(1, Low32(s.seqNo))),
      When(s.arrDelay != ABSENT || s.arrTime != 0, BytesField(2, EncSTE(s.arrDelay, s.arrTime))),
      When(s.depDelay != ABSENT || s.depTime != 0, BytesField(3, EncSTE(s.depDelay, s.depTime))),
      When(s.stopID != [], BytesField(4, s.stopID)),
      When(s.skipped || s.noData, VarintField(5, if s.skipped then 1 else 2)));
    return e.b;
  }

  lemma Assoc6(a: Bytes, b: Bytes, c: Bytes, d: Bytes, e: Bytes, f: Bytes)
    ensures (((((([] + a) + b) + c) + d) + e) + f) == a + (b + (c + (d + (e + f))))
  {
    Assoc5(a, b, c, d, e);
    Assoc(a, b + (c + (d + e)), f);
    Assoc(b, c + (d + e), f);
    Assoc(c, d + e, f);
    Assoc(d, e, f);
  }

  lemma STUsEnds(stus: seq<STU>)
    ensures EncSTUs(stus[0..]) == EncSTUs(stus) && EncSTUs(stus[|stus|..]) == []
  {
    assert stus[0..] == stus && |stus[|stus|..]| == 0;
  }

  lemma STUsAt(stus: seq<STU>, i: nat)
    requires i < |stus|
    ensures EncSTUs(stus[i..]) == BytesField(2, EncSTU(stus[i])) + EncSTUs(stus[i + 1..])
  {
    assert stus[i..][0] == stus[i] && stus[i..][1..] == stus[i + 1..];
  }

  method PutSTU(e: Encoder, s: STU)
    modifies e
    ensures e.b == old(e.b) + BytesField(2, EncSTU(s))
  {
    var x := EncodeSTU(s);
    e.PutBytesField(2, x);
  }

  method PutNextSTU(e: Encoder, stus: seq<STU>, i: nat)
    requires i < |stus|
    modifies e
    ensures e.b + EncSTUs(stus[i + 1..]) == old(e.b) + EncSTUs(stus[i..])
  {
    STUsAt(stus, i);
    PutSTU(e, stus[i]);
    Assoc(old(e.b), BytesField(2, EncSTU(stus[i])), EncSTUs(stus[i + 1..]));
  }

  /** The loop over the updates of one trip. */
  method PutSTUs(e: Encoder, stus: seq<STU>)
    modifies e
    ensures e.b == old(e.b) + EncSTUs(stus)
  {
    STUsEnds(stus);
    for i := 0 to |stus|
      invariant e.b + EncSTUs(stus[i..]) == old(e.b) + EncSTUs(stus)
    {
      PutNextSTU(e, stus, i);
    }
    AddNothing(e.b);
  }

  method EncodeTrip(tu: TripRT) returns (r: Bytes)
    ensures r == EncTrip(tu)
  {
    var e := new Encoder();
    var x := EncodeDescriptor(tu.tripID, tu.routeID, tu.startDate, tu.cancelled, tu.added);
    e.PutBytesField(1, x);
    PutSTUs(e, tu.stus);
    PutNumberIf(e, tu.timestamp != 0, 4, tu.timestamp);
    PutNumberIf(e, tu.hasDelay && tu.delaySec != ABSENT, 5, Low32(tu.delaySec));
    Assoc4(BytesField(1, x), EncSTUs(tu.stus), When(tu.timestamp != 0, VarintField(4, tu.timestamp)),
      When(tu.hasDelay && tu.delaySec != ABSENT, VarintField(5, Low32(tu.delaySec))));
    return e.b;
  }

  method EncodePosition(lat: nat, lon: nat) returns (r: Bytes)
    ensures r == EncPosition(lat, lon)
  {
    var pos := new Encoder();
    pos.PutFixed32Field(1, lat);
    pos.PutFixed32Field(2, lon);
    return pos.b;
  }

  method PutPosition(e: Encoder, lat: nat, lon: nat)
    modifies e
    ensures e.b == old(e.b) + When(!IsZero(lat) || !IsZero(lon), BytesField(2, EncPosition(lat, lon)))
  {
    if !IsZero(lat) || !IsZero(lon) {
      var pos := EncodePosition(lat, lon);
      e.PutBytesField(2, pos);
    }
  }

  method EncodeVehicle(v: VehicleRT) returns (r: Bytes)
    ensures r == EncVehicle(v)
  {
    var e := new Encoder();
    var x := EncodeDescriptor(v.tripID, v.routeID, [], false, false);
    e.PutBytesField(1, x);
    PutPosition(e, v.lat, v.lon);
    PutNumberIf(e, v.currentSeq != ABSENT, 3, Low32(v.currentSeq));
    PutNumberIf(e, v.status != ABSENT, 4, Low32(v.status));
    PutNumberIf(e, v.timestamp != 0, 5, v.timestamp);
    PutBytesIf(e, v.stopID != [], 7, v.stopID);
    Assoc6(BytesField(1, x), When(!IsZero(v.lat) || !IsZero(v.lon), BytesField(2, EncPosition(v.lat, v.lon))),
      When(v.currentSeq != ABSENT, VarintField(3, Low32(v.currentSeq))),
      When(v.status != ABSENT, VarintField(4, Low32(v.status))),
      When(v.timestamp != 0, VarintField(5, v.timestamp)), When(v.stopID != [], BytesField(7, v.stopID)));
    return e.b;
  }

  lemma TripsEnds(trips: seq<TripRT>)
    ensures EncTrips(trips[0..]) == EncTrips(trips) && EncTrips(trips[|trips|..]) == []
  {
    assert trips[0..] == trips && |trips[|trips|..]| == 0;
  }

  lemma TripsAt(trips: seq<TripRT>, i: nat)
    requires i < |trips|
    ensures EncTrips(trips[i..]) == BytesField(2, EncTripEntity(trips[i])) + EncTrips(trips[i + 1..])
  {
    assert trips[i..][0] == trips[i] && trips[i..][1..] == trips[i + 1..];
  }

  lemma VehiclesEnds(vehicles: seq<VehicleRT>)
    ensures EncVehicles(vehicles[0..]) == EncVehicles(vehicles) && EncVehicles(vehicles[|vehicles|..]) == []
  {
    assert vehicles[0..] == vehicles && |vehicles[|vehicles|..]| == 0;
  }

  lemma VehiclesAt(vehicles: seq<VehicleRT>, i: nat)
    requires i < |vehicles|
    ensures EncVehicles(vehicles[i..]) == BytesField(2, EncVehicleEntity(vehicles[i])) + EncVehicles(vehicles[i + 1..])
  {
    assert vehicles[i..][0] == vehicles[i] && vehicles[i..][1..] == vehicles[i + 1..];
  }

  method EncodeEntity(name: Bytes, field: nat, x: Bytes) returns (r: Bytes)
    ensures r == BytesField(1, name) + BytesField(field, x)
  {
    var e := new Encoder();
    e.PutBytesField(1, name);
    AddNothing(e.b);
    e.PutBytesField(field, x);
    return e.b;
  }

  method PutTripEntity(msg: Encoder, tu: TripRT)
    modifies msg
    ensures msg.b == old(msg.b) + BytesField(2, EncTripEntity(tu))
  {
    var x := EncodeTrip(tu);
    x := EncodeEntity(TRIP_ENTITY, 3, x);
    msg.PutBytesField(2, x);
  }

  method PutVehicleEntity(msg: Encoder, v: VehicleRT)
    modifies msg
    ensures msg.b == old(msg.b) + BytesField(2, EncVehicleEntity(v))
  {
    var x := EncodeVehicle(v);
    x := EncodeEntity(VEHICLE_ENTITY, 4, x);
    msg.PutBytesField(2, x);
  }

  method Encode(f: Feed) returns (r: Bytes)
    ensures r == EncFeed(f)
  {
    var msg := new Encoder();
    var hdr := new Encoder();
    hdr.PutBytesField(1, VERSION);
    hdr.PutVarintField(3, f.timestamp);
    msg.PutBytesField(1, hdr.b);
    Assoc(msg.b, EncTrips(f.trips), EncVehicles(f.vehicles));
    assert hdr.b == EncHeader(f.timestamp) && msg.b == BytesField(1, hdr.b);
    PutTrips(msg, f.trips);
    PutVehicles(msg, f.vehicles);
    return msg.b;
  }

  method PutNextTrip(msg: Encoder, trips: seq<TripRT>, i: nat)
    requires i < |trips|
    modifies msg
    ensures msg.b + EncTrips(trips[i + 1..]) == old(msg.b) + EncTrips(trips[i..])
  {
    TripsAt(trips, i);
    PutTripEntity(msg, trips[i]);
    Assoc(old(msg.b), BytesField(2, EncTripEntity(trips[i])), EncTrips(trips[i + 1..]));
  }

  method PutTrips(msg: Encoder, trips: seq<TripRT>)
    modifies msg
    ensures msg.b == old(msg.b) + EncTrips(trips)
  {
    TripsEnds(trips);
    for i := 0 to |trips|
      invariant msg.b + EncTrips(trips[i..]) == old(msg.b) + EncTrips(trips)
    {
      PutNextTrip(msg, trips, i);
    }
    AddNothing(msg.b);
  }

  method PutNextVehicle(msg: Encoder, vehicles: seq<VehicleRT>, i: nat)
    requires i < |vehicles|
    modifies msg
    ensures msg.b + EncVehicles(vehicles[i + 1..]) == old(msg.b) + EncVehicles(vehicles[i..])
  {
    VehiclesAt(vehicles, i);
    PutVehicleEntity(msg, vehicles[i]);
    Assoc(old(msg.b), BytesField(2, EncVehicleEntity(vehicles[i])), EncVehicles(vehicles[i + 1..]));
  }

  method PutVehicles(msg: Encoder, vehicles: seq<VehicleRT>)
    modifies msg
    ensures msg.b == old(msg.b) + EncVehicles(vehicles)
  {
    VehiclesEnds(vehicles);
    for i := 0 to |vehicles|
      invariant msg.b + EncVehicles(vehicles[i..]) == old(msg.b) + EncVehicles(vehicles)
    {
      PutNextVehicle(msg, vehicles, i);
    }
    AddNothing(msg.b);
  }
}
