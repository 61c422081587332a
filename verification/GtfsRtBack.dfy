/** Decoding undoes encoding, message by message, up to the normal form. */
module GtfsRtBack {
  import opened Words
  import opened Varints
  import opened Seqs
  import opened Wire
  import opened GtfsRt

  lemma WhenVarint(c: bool, field: nat, v: nat, rest: Bytes)
    requires field < 0x1000_0000 && v < TWO_64
    ensures c ==> When(c, VarintField(field, v)) + rest != []
    ensures c ==> GetField(When(c, VarintField(field, v)) + rest) == Some((field, 0, Uvarint(v) + rest))
    ensures GetVarint(Uvarint(v) + rest) == Some((v, rest))
    ensures !c ==> When(c, VarintField(field, v)) + rest == rest
  {
    VarintFieldBack(field, v, rest);
  }

  lemma WhenBytes(c: bool, field: nat, data: Bytes, rest: Bytes)
    requires field < 0x1000_0000 && |data| < TWO_63
    ensures c ==> When(c, BytesField(field, data)) + rest != []
    ensures c ==> GetField(When(c, BytesField(field, data)) + rest) == Some((field, 2, (Uvarint(|data|) + data) + rest))
    ensures GetBytes((Uvarint(|data|) + data) + rest) == Some((data, rest))
    ensures !c ==> When(c, BytesField(field, data)) + rest == rest
  {
    BytesFieldBack(field, data, rest);
  }

  // ---- trip descriptors -------------------------------------------------------------------------

  lemma TextBack(c: bool, field: nat, s: Bytes, rest: Bytes, d: Descriptor)
    requires field in {1, 3, 5} && |s| < TWO_63
    ensures DecDescriptor(When(c, BytesField(field, s)) + rest, d)
      == DecDescriptor(rest, if c then SetText(d, field, s) else d)
  {
    WhenBytes(c, field, s, rest);
  }

  lemma RelBack(rel: int, b: Bytes, d: Descriptor)
    requires d.rel == -1 && rel in {3, 1, -1}
    requires b == if rel >= 0 then VarintField(4, rel) else []
    ensures DecDescriptor(b, d) == Some(d.(rel := rel))
  {
    if rel >= 0 {
      WhenVarint(true, 4, rel, []);
      assert VarintField(4, rel) + [] == b;
      assert DecDescriptor([], d.(rel := rel)) == Some(d.(rel := rel));
    }
  }

  lemma DescriptorBack(tripID: Bytes, routeID: Bytes, startDate: Bytes, cancelled: bool, added: bool)
    requires |tripID| < TWO_63 && |routeID| < TWO_63 && |startDate| < TWO_63
    ensures DecDescriptor(EncDescriptor(tripID, routeID, startDate, cancelled, added), NO_DESCRIPTOR)
      == Some(Descriptor(tripID, routeID, startDate, if cancelled then 3 else if added then 1 else -1))
  {
    var rel := if cancelled then 3 else if added then 1 else -1;
    var r4 := if cancelled then VarintField(4, 3) else if added then VarintField(4, 1) else [];
    var r3 := When(startDate != [], BytesField(3, startDate)) + r4;
    var r2 := When(routeID != [], BytesField(5, routeID)) + r3;
    TextBack(true, 1, tripID, r2, NO_DESCRIPTOR);
    var d := NO_DESCRIPTOR.(tripID := tripID);
    TextBack(routeID != [], 5, routeID, r3, d);
    d := d.(routeID := routeID);
    TextBack(startDate != [], 3, startDate, r4, d);
    RelBack(rel, r4, d.(startDate := startDate));
  }

  // ---- stop time updates --------------------------------------------------------------------------

  lemma DelayBack(c: bool, delay: int, rest: Bytes, e: Event)
    requires Int32(delay)
    ensures DecEvent(When(c, VarintField(1, Signed64(delay))) + rest, e)
      == DecEvent(rest, if c then e.(delay := delay) else e)
  {
    WhenVarint(c, 1, Signed64(delay), rest);
  }

  lemma TimeBack(c: bool, t: int, rest: Bytes, e: Event)
    requires Int64(t)
    ensures DecEvent(When(c, VarintField(2, Signed64(t))) + rest, e) == DecEvent(rest, if c then e.(time := t) else e)
  {
    WhenVarint(c, 2, Signed64(t), rest);
  }

  lemma EventBack(delay: int, t: int)
    requires Int32(delay) && Int64(t)
    ensures DecEvent(EncSTE(delay, t), Event(ABSENT, 0)) == Some(Event(delay, t))
  {
    var r2 := When(t != 0, VarintField(2, Signed64(t)));
    DelayBack(delay != ABSENT, delay, r2, Event(ABSENT, 0));
    TimeBack(t != 0, t, [], Event(delay, 0));
    assert r2 + [] == r2;
    assert DecEvent([], Event(delay, t)) == Some(Event(delay, t));
  }

  lemma NumberBack(c: bool, field: nat, v: nat, rest: Bytes, s: STU)
    requires field in {1, 5} && v < TWO_64
    ensures DecSTU(When(c, VarintField(field, v)) + rest, s) == DecSTU(rest, if c then SetNumber(s, field, v) else s)
  {
    WhenVarint(c, field, v, rest);
  }

  lemma EventFieldBack(c: bool, field: nat, delay: int, t: int, rest: Bytes, s: STU)
    requires field in {2, 3} && Int32(delay) && Int64(t) && |EncSTE(delay, t)| < TWO_63
    ensures DecSTU(When(c, BytesField(field, EncSTE(delay, t))) + rest, s)
      == DecSTU(rest, if c then SetEvent(s, field, Event(delay, t)) else s)
  {
    EventBack(delay, t);
    EventBytesBack(c, field, EncSTE(delay, t), Event(delay, t), rest, s);
  }

  lemma EventBytesBack(c: bool, field: nat, x: Bytes, e: Event, rest: Bytes, s: STU)
    requires field in {2, 3} && |x| < TWO_63 && DecEvent(x, Event(ABSENT, 0)) == Some(e)
    ensures DecSTU(When(c, BytesField(field, x)) + rest, s) == DecSTU(rest, if c then SetEvent(s, field, e) else s)
  {
    WhenBytes(c, field, x, rest);
  }

  lemma StopBack(c: bool, id: Bytes, rest: Bytes, s: STU)
    requires |id| < TWO_63
    ensures DecSTU(When(c, BytesField(4, id)) + rest, s) == DecSTU(rest, if c then s.(stopID := id) else s)
  {
    WhenBytes(c, 4, id, rest);
  }

  lemma STUBack(s: STU)
    requires s.Valid() && |EncSTU(s)| < TWO_63
    ensures DecSTU(EncSTU(s), NO_STU) == Some(NormSTU(s))
  {
    var state: nat := if s.skipped then 1 else 2;
    var r5 := When(s.skipped || s.noData, VarintField(5, state));
    var r4 := When(s.stopID != [], BytesField(4, s.stopID)) + r5;
    var r3 := When(s.depDelay != ABSENT || s.depTime != 0, BytesField(3, EncSTE(s.depDelay, s.depTime))) + r4;
    var r2 := When(s.arrDelay != ABSENT || s.arrTime != 0, BytesField(2, EncSTE(s.arrDelay, s.arrTime))) + r3;
    EventLength(s.arrDelay, s.arrTime);
    EventLength(s.depDelay, s.depTime);
    NumberBack(s.seqNo != ABSENT, 1, Low32(s.seqNo), r2, NO_STU);
    var u := NO_STU.(seqNo := s.seqNo);
    EventFieldBack(s.arrDelay != ABSENT || s.arrTime != 0, 2, s.arrDelay, s.arrTime, r3, u);
    u := u.(arrDelay := s.arrDelay, arrTime := s.arrTime);
    EventFieldBack(s.depDelay != ABSENT || s.depTime != 0, 3, s.depDelay, s.depTime, r4, u);
    u := u.(depDelay := s.depDelay, depTime := s.depTime);
    StopBack(s.stopID != [], s.stopID, r5, u);
    u := u.(stopID := s.stopID);
    NumberBack(s.skipped || s.noData, 5, state, [], u);
    assert r5 + [] == r5;
    StateBack(s, u, state);
  }

  lemma StateBack(s: STU, u: STU, state: nat)
    requires u == s.(skipped := false, noData := false) && state == if s.skipped then 1 else 2
    ensures DecSTU([], if s.skipped || s.noData then SetNumber(u, 5, state) else u) == Some(NormSTU(s))
  {
  }

  lemma EventLength(delay: int, t: int)
    requires Int32(delay) && Int64(t)
    ensures |EncSTE(delay, t)| < TWO_63
  {
    Word64Length(Signed64(delay));
    Word64Length(Signed64(t));
    Word64Length(8);
    Word64Length(16);
  }

  // ---- trip updates -------------------------------------------------------------------------------

  ghost predicate AllValid(stus: seq<STU>) { forall i :: 0 <= i < |stus| ==> stus[i].Valid() }

  lemma {:induction false} STUsBack(stus: seq<STU>, rest: Bytes, tu: TripRT)
    requires AllValid(stus) && |EncSTUs(stus)| < TWO_63
    ensures DecTrip(EncSTUs(stus) + rest, tu) == DecTrip(rest, tu.(stus := tu.stus + NormSTUs(stus)))
    decreases |stus|
  {
    if stus == [] {
      assert tu.stus + NormSTUs(stus) == tu.stus;
      assert EncSTUs(stus) + rest == rest;
    } else {
      var tail := EncSTUs(stus[1..]) + rest;
      var e := EncSTU(stus[0]);
      Assoc(BytesField(2, e), EncSTUs(stus[1..]), rest);
      OneSTUBack(stus[0], tail, tu);
      var tu' := tu.(stus := tu.stus + [NormSTU(stus[0])]);
      STUsBack(stus[1..], rest, tu');
      Assoc(tu.stus, [NormSTU(stus[0])], NormSTUs(stus[1..]));
    }
  }

  lemma OneSTUBack(s: STU, rest: Bytes, tu: TripRT)
    requires s.Valid() && |EncSTU(s)| < TWO_63
    ensures DecTrip(BytesField(2, EncSTU(s)) + rest, tu) == DecTrip(rest, tu.(stus := tu.stus + [NormSTU(s)]))
  {
    BytesFieldBack(2, EncSTU(s), rest);
    STUBack(s);
  }

  lemma TripDescriptorBack(tu: TripRT, rest: Bytes)
    requires |EncDescriptor(tu.tripID, tu.routeID, tu.startDate, tu.cancelled, tu.added)| < TWO_63
    ensures DecTrip(
        BytesField(1, EncDescriptor(tu.tripID, tu.routeID, tu.startDate, tu.cancelled, tu.added)) + rest, NO_TRIP)
      == DecTrip(rest, tu.(added := tu.added && !tu.cancelled, hasDelay := false, delaySec := ABSENT, timestamp := 0,
        stus := []))
  {
    var e := EncDescriptor(tu.tripID, tu.routeID, tu.startDate, tu.cancelled, tu.added);
    DescriptorBack(tu.tripID, tu.routeID, tu.startDate, tu.cancelled, tu.added);
    var rel := if tu.cancelled then 3 else if tu.added then 1 else -1;
    DescribedBack(e, Descriptor(tu.tripID, tu.routeID, tu.startDate, rel), rest);
  }

  lemma DescribedBack(e: Bytes, d: Descriptor, rest: Bytes)
    requires |e| < TWO_63 && DecDescriptor(e, NO_DESCRIPTOR) == Some(d)
    ensures DecTrip(BytesField(1, e) + rest, NO_TRIP) == DecTrip(rest, Described(NO_TRIP, d))
  {
    BytesFieldBack(1, e, rest);
  }

  lemma TimestampBack(c: bool, v: nat, rest: Bytes, tu: TripRT)
    requires v < TWO_64
    ensures DecTrip(When(c, VarintField(4, v)) + rest, tu) == DecTrip(rest, if c then tu.(timestamp := v) else tu)
  {
    WhenVarint(c, 4, v, rest);
  }

  lemma TripDelayBack(c: bool, v: int, tu: TripRT)
    requires Int32(v)
    ensures DecTrip(When(c, VarintField(5, Low32(v))), tu)
      == Some(if c then tu.(delaySec := v, hasDelay := true) else tu)
  {
    WhenVarint(c, 5, Low32(v), []);
    assert When(c, VarintField(5, Low32(v))) + [] == When(c, VarintField(5, Low32(v)));
    if c { assert DecTrip([], tu.(delaySec := v, hasDelay := true)) == Some(tu.(delaySec := v, hasDelay := true)); }
  }

  lemma TripBack(tu: TripRT)
    requires tu.Valid() && |EncTrip(tu)| < TWO_63
    ensures DecTrip(EncTrip(tu), NO_TRIP) == Some(NormTrip(tu))
  {
    var delayed := tu.hasDelay && tu.delaySec != ABSENT;
    var r5 := When(delayed, VarintField(5, Low32(tu.delaySec)));
    var r4 := When(tu.timestamp != 0, VarintField(4, tu.timestamp)) + r5;
    var r2 := EncSTUs(tu.stus) + r4;
    TripDescriptorBack(tu, r2);
    var u := tu.(added := tu.added && !tu.cancelled, hasDelay := false, delaySec := ABSENT, timestamp := 0, stus := []);
    STUsBack(tu.stus, r4, u);
    assert [] + NormSTUs(tu.stus) == NormSTUs(tu.stus);
    u := u.(stus := NormSTUs(tu.stus));
    TimestampBack(tu.timestamp != 0, tu.timestamp, r5, u);
    u := u.(timestamp := tu.timestamp);
    TripDelayBack(delayed, tu.delaySec, u);
  }

  // ---- vehicles -----------------------------------------------------------------------------------

  lemma CoordBack(field: nat, bits: nat, rest: Bytes, q: Position)
    requires field in {1, 2} && bits < TWO_32
    ensures DecPosition(Fixed32Field(field, bits) + rest, q)
      == DecPosition(rest, if field == 1 then q.(lat := bits) else q.(lon := bits))
  {
    Fixed32FieldBack(field, bits, rest);
  }

  lemma PositionBack(lat: nat, lon: nat, q: Position)
    requires lat < TWO_32 && lon < TWO_32
    ensures DecPosition(EncPosition(lat, lon), q) == Some(Position(lat, lon))
  {
    CoordBack(1, lat, Fixed32Field(2, lon), q);
    CoordBack(2, lon, [], q.(lat := lat));
    assert Fixed32Field(2, lon) + [] == Fixed32Field(2, lon);
    assert DecPosition([], Position(lat, lon)) == Some(Position(lat, lon));
  }

  lemma PositionFieldBack(c: bool, lat: nat, lon: nat, rest: Bytes, v: VehicleRT)
    requires lat < TWO_32 && lon < TWO_32 && |EncPosition(lat, lon)| < TWO_63
    ensures DecVehicle(When(c, BytesField(2, EncPosition(lat, lon))) + rest, v)
      == DecVehicle(rest, if c then v.(lat := lat, lon := lon) else v)
  {
    WhenBytes(c, 2, EncPosition(lat, lon), rest);
    PositionBack(lat, lon, Position(v.lat, v.lon));
  }

  lemma VehicleNumberBack(c: bool, field: nat, n: nat, rest: Bytes, v: VehicleRT)
    requires field in {3, 4, 5} && n < TWO_64
    ensures DecVehicle(When(c, VarintField(field, n)) + rest, v)
      == DecVehicle(rest, if c then SetVehicle(v, field, n) else v)
  {
    WhenVarint(c, field, n, rest);
  }

  lemma VehicleStopBack(c: bool, id: Bytes, v: VehicleRT)
    requires |id| < TWO_63
    ensures DecVehicle(When(c, BytesField(7, id)), v) == Some(if c then v.(stopID := id) else v)
  {
    WhenBytes(c, 7, id, []);
    assert When(c, BytesField(7, id)) + [] == When(c, BytesField(7, id));
    if c { assert DecVehicle([], v.(stopID := id)) == Some(v.(stopID := id)); }
  }

  lemma VehicleDescriptorBack(v: VehicleRT, rest: Bytes)
    requires |EncDescriptor(v.tripID, v.routeID, [], false, false)| < TWO_63
    ensures DecVehicle(BytesField(1, EncDescriptor(v.tripID, v.routeID, [], false, false)) + rest, NO_VEHICLE)
      == DecVehicle(rest, NO_VEHICLE.(tripID := v.tripID, routeID := v.routeID))
  {
    BytesFieldBack(1, EncDescriptor(v.tripID, v.routeID, [], false, false), rest);
    DescriptorBack(v.tripID, v.routeID, [], false, false);
  }

  lemma VehicleBack(v: VehicleRT)
    requires v.Valid() && |EncVehicle(v)| < TWO_63
    ensures DecVehicle(EncVehicle(v), NO_VEHICLE) == Some(NormVehicle(v))
  {
    var placed := !IsZero(v.lat) || !IsZero(v.lon);
    var r7 := When(v.stopID != [], BytesField(7, v.stopID));
    var r5 := When(v.timestamp != 0, VarintField(5, v.timestamp)) + r7;
    var r4 := When(v.status != ABSENT, VarintField(4, Low32(v.status))) + r5;
    var r3 := When(v.currentSeq != ABSENT, VarintField(3, Low32(v.currentSeq))) + r4;
    var r2 := When(placed, BytesField(2, EncPosition(v.lat, v.lon))) + r3;
    VehicleDescriptorBack(v, r2);
    var u := NO_VEHICLE.(tripID := v.tripID, routeID := v.routeID);
    PositionLength(v.lat, v.lon);
    PositionFieldBack(placed, v.lat, v.lon, r3, u);
    u := u.(lat := NormVehicle(v).lat, lon := NormVehicle(v).lon);
    VehicleNumberBack(v.currentSeq != ABSENT, 3, Low32(v.currentSeq), r4, u);
    u := u.(currentSeq := v.currentSeq);
    VehicleNumberBack(v.status != ABSENT, 4, Low32(v.status), r5, u);
    u := u.(status := v.status);
    VehicleNumberBack(v.timestamp != 0, 5, v.timestamp, r7, u);
    u := u.(timestamp := v.timestamp);
    VehicleStopBack(v.stopID != [], v.stopID, u);
  }

  lemma PositionLength(lat: nat, lon: nat)
    ensures |EncPosition(lat, lon)| < TWO_63
  {
    Word64Length(13);
    Word64Length(21);
  }

  // ---- the feed -----------------------------------------------------------------------------------

  lemma NameBack(name: Bytes, rest: Bytes, f: Feed)
    requires |name| < TWO_63
    ensures DecEntity(BytesField(1, name) + rest, f) == DecEntity(rest, f)
  {
    BytesFieldBack(1, name, rest);
  }

  lemma EntityFieldBack(field: nat, e: Bytes, f: Feed, f': Feed)
    requires |e| < TWO_63 && field in {3, 4}
    requires EntityField(field, 2, Uvarint(|e|) + e, f) == Some(([], f'))
    ensures DecEntity(BytesField(field, e), f) == Some(f')
  {
    BytesFieldBack(field, e, []);
    assert BytesField(field, e) + [] == BytesField(field, e);
    assert (Uvarint(|e|) + e) + [] == Uvarint(|e|) + e;
    assert DecEntity([], f') == Some(f');
  }

  lemma TripEntityBack(tu: TripRT, f: Feed)
    requires tu.Valid() && |EncTripEntity(tu)| < TWO_63
    ensures DecEntity(EncTripEntity(tu), f) == Some(f.(trips := f.trips + [NormTrip(tu)]))
  {
    var e := EncTrip(tu);
    NameBack(TRIP_ENTITY, BytesField(3, e), f);
    TripBack(tu);
    WholePayload(e);
    EntityFieldBack(3, e, f, f.(trips := f.trips + [NormTrip(tu)]));
  }

  lemma WholePayload(e: Bytes)
    requires |e| < TWO_63
    ensures GetBytes(Uvarint(|e|) + e) == Some((e, []))
  {
    PayloadBack(e, []);
    assert (Uvarint(|e|) + e) + [] == Uvarint(|e|) + e;
  }

  lemma VehicleEntityBack(v: VehicleRT, f: Feed)
    requires v.Valid() && |EncVehicleEntity(v)| < TWO_63
    ensures DecEntity(EncVehicleEntity(v), f) == Some(f.(vehicles := f.vehicles + [NormVehicle(v)]))
  {
    var e := EncVehicle(v);
    NameBack(VEHICLE_ENTITY, BytesField(4, e), f);
    VehicleBack(v);
    WholePayload(e);
    EntityFieldBack(4, e, f, f.(vehicles := f.vehicles + [NormVehicle(v)]));
  }

  lemma HeaderBack(ts: nat, f: Feed)
    requires ts < TWO_64
    ensures DecHeader(EncHeader(ts), f) == Some(f.(timestamp := ts))
  {
    BytesFieldBack(1, VERSION, VarintField(3, ts));
    VarintFieldBack(3, ts, []);
    var f' := f.(timestamp := ts);
    assert VarintField(3, ts) + [] == VarintField(3, ts) && Uvarint(ts) + [] == Uvarint(ts);
    assert DecHeader([], f') == Some(f');
    assert DecHeader(VarintField(3, ts), f) == Some(f');
  }

  ghost predicate TripsValid(ts: seq<TripRT>) { forall i :: 0 <= i < |ts| ==> ts[i].Valid() }

  ghost predicate VehiclesValid(vs: seq<VehicleRT>) { forall i :: 0 <= i < |vs| ==> vs[i].Valid() }

  lemma {:induction false} TripsBack(ts: seq<TripRT>, rest: Bytes, f: Feed)
    requires TripsValid(ts) && |EncTrips(ts)| < TWO_63
    ensures DecFeed(EncTrips(ts) + rest, f) == DecFeed(rest, f.(trips := f.trips + NormTrips(ts)))
    decreases |ts|
  {
    if ts == [] {
      assert f.trips + NormTrips(ts) == f.trips;
      assert EncTrips(ts) + rest == rest;
    } else {
      var tail := EncTrips(ts[1..]) + rest;
      var e := EncTripEntity(ts[0]);
      Assoc(BytesField(2, e), EncTrips(ts[1..]), rest);
      var f' := f.(trips := f.trips + [NormTrip(ts[0])]);
      TripEntityBack(ts[0], f);
      EntityBack(e, tail, f, f');
      TripsBack(ts[1..], rest, f');
      Assoc(f.trips, [NormTrip(ts[0])], NormTrips(ts[1..]));
    }
  }

  lemma EntityBack(e: Bytes, rest: Bytes, f: Feed, f': Feed)
    requires |e| < TWO_63 && DecEntity(e, f) == Some(f')
    ensures DecFeed(BytesField(2, e) + rest, f) == DecFeed(rest, f')
  {
    BytesFieldBack(2, e, rest);
  }

  lemma {:induction false} VehiclesBack(vs: seq<VehicleRT>, f: Feed)
    requires VehiclesValid(vs) && |EncVehicles(vs)| < TWO_63
    ensures DecFeed(EncVehicles(vs), f) == Some(f.(vehicles := f.vehicles + NormVehicles(vs)))
    decreases |vs|
  {
    if vs == [] {
      assert f.vehicles + NormVehicles(vs) == f.vehicles;
    } else {
      var e := EncVehicleEntity(vs[0]);
      var f' := f.(vehicles := f.vehicles + [NormVehicle(vs[0])]);
      VehicleEntityBack(vs[0], f);
      EntityBack(e, EncVehicles(vs[1..]), f, f');
      VehiclesBack(vs[1..], f');
      Assoc(f.vehicles, [NormVehicle(vs[0])], NormVehicles(vs[1..]));
    }
  }

  lemma FeedHeaderBack(ts: nat, rest: Bytes, f: Feed)
    requires ts < TWO_64
    ensures DecFeed(BytesField(1, EncHeader(ts)) + rest, f) == DecFeed(rest, f.(timestamp := ts))
  {
    Word64Length(10);
    Word64Length(24);
    Word64Length(ts);
    Word64Length(3);
    BytesFieldBack(1, EncHeader(ts), rest);
    HeaderBack(ts, f);
  }

  /** Every feed comes back from its encoding in normal form. */
  lemma FeedBack(f: Feed)
    requires f.Valid() && |EncFeed(f)| < TWO_63
    ensures DecFeed(EncFeed(f), Feed(0, [], [])) == Some(NormFeed(f))
  {
    var u := Feed(f.timestamp, [], []);
    FeedHeaderBack(f.timestamp, EncTrips(f.trips) + EncVehicles(f.vehicles), Feed(0, [], []));
    TripsBack(f.trips, EncVehicles(f.vehicles), u);
    u := u.(trips := NormTrips(f.trips));
    assert [] + NormTrips(f.trips) == NormTrips(f.trips) && [] + NormVehicles(f.vehicles) == NormVehicles(f.vehicles);
    VehiclesBack(f.vehicles, u);
  }

  /** The normal form is a fixed point: a second round trip changes nothing. */
  lemma NormIdempotent(f: Feed)
    ensures NormFeed(NormFeed(f)) == NormFeed(f)
  {
    var n := NormFeed(f);
    forall i | 0 <= i < |f.trips|
      ensures NormTrip(n.trips[i]) == n.trips[i]
    {
      assert NormSTUs(n.trips[i].stus) == n.trips[i].stus;
    }
    assert NormTrips(n.trips) == n.trips && NormVehicles(n.vehicles) == n.vehicles;
  }

  /** The feeds the round trip returns unchanged. */
  ghost predicate Canonical(f: Feed) {
    && (forall i :: 0 <= i < |f.trips| ==> CanonicalTrip(f.trips[i]))
    && forall i :: 0 <= i < |f.vehicles| ==> CanonicalVehicle(f.vehicles[i])
  }

  ghost predicate CanonicalTrip(tu: TripRT) {
    && !(tu.added && tu.cancelled)
    && (tu.hasDelay <==> tu.delaySec != ABSENT)
    && forall i :: 0 <= i < |tu.stus| ==> !(tu.stus[i].skipped && tu.stus[i].noData)
  }

  predicate CanonicalVehicle(v: VehicleRT) { IsZero(v.lat) && IsZero(v.lon) ==> v.lat == 0 && v.lon == 0 }

  lemma CanonicalTripFixed(tu: TripRT)
    ensures NormTrip(tu) == tu <==> CanonicalTrip(tu)
  {
    SameAs(NormSTUs(tu.stus), tu.stus);
  }

  /** Decoding an encoding gives the feed itself exactly when it is canonical. */
  lemma LosslessIff(f: Feed)
    requires f.Valid() && |EncFeed(f)| < TWO_63
    ensures DecFeed(EncFeed(f), Feed(0, [], [])) == Some(f) <==> Canonical(f)
  {
    FeedBack(f);
    NormFixed(f);
  }

  lemma NormFixed(f: Feed)
    ensures NormFeed(f) == f <==> Canonical(f)
  {
    forall i | 0 <= i < |f.trips| ensures NormTrips(f.trips)[i] == f.trips[i] <==> CanonicalTrip(f.trips[i]) {
      CanonicalTripFixed(f.trips[i]);
    }
    SameAs(NormTrips(f.trips), f.trips);
    forall i | 0 <= i < |f.vehicles| ensures NormVehicles(f.vehicles)[i] == f.vehicles[i] <==>
      CanonicalVehicle(f.vehicles[i]) {
    }
    SameAs(NormVehicles(f.vehicles), f.vehicles);
  }
}
