/** GTFS-Realtime feeds: the messages, what the encoder writes and what the decoder makes of any bytes. */
module GtfsRt {
  import opened Words
  import opened Varints
  import opened Wire

  type Bytes = seq<byte>

  /** Marks a missing numeric field: the least int32. */
  const ABSENT: int := -0x8000_0000

  datatype STU = STU(
    seqNo: int, stopID: Bytes, arrDelay: int, depDelay: int, arrTime: int, depTime: int, skipped: bool, noData: bool)
  {
    predicate Valid() {
      Int32(seqNo) && Int32(arrDelay) && Int32(depDelay) && Int64(arrTime) && Int64(depTime)
    }
  }

  datatype TripRT = TripRT(
    tripID: Bytes, routeID: Bytes, startDate: Bytes, cancelled: bool, added: bool,
    delaySec: int, hasDelay: bool, timestamp: nat, stus: seq<STU>)
  {
    ghost predicate Valid() {
      Int32(delaySec) && timestamp < TWO_64 && forall i :: 0 <= i < |stus| ==> stus[i].Valid()
    }
  }

  /** lat and lon are the bit patterns of 32-bit floats. */
  datatype VehicleRT = VehicleRT(
    tripID: Bytes, routeID: Bytes, lat: nat, lon: nat, currentSeq: int, stopID: Bytes, status: int, timestamp: nat)
  {
    predicate Valid() {
      lat < TWO_32 && lon < TWO_32 && Int32(currentSeq) && Int32(status) && timestamp < TWO_64
    }
  }

  datatype Feed = Feed(timestamp: nat, trips: seq<TripRT>, vehicles: seq<VehicleRT>)
  {
    ghost predicate Valid() {
      && timestamp < TWO_64
      && (forall i :: 0 <= i < |trips| ==> trips[i].Valid())
      && forall i :: 0 <= i < |vehicles| ==> vehicles[i].Valid()
    }
  }

  /** A float that compares equal to zero: plus or minus zero. */
  predicate IsZero(bits: nat) { bits == 0 || bits == 0x8000_0000 }

  // ---- encoding -------------------------------------------------------------------------------

  function When(c: bool, field: Bytes): Bytes { if c then field else [] }

  function EncDescriptor(tripID: Bytes, routeID: Bytes, startDate: Bytes, cancelled: bool, added: bool): Bytes {
    BytesField(1, tripID) + (When(routeID != [], BytesField(5, routeID))
      + (When(startDate != [], BytesField(3, startDate))
      + (if cancelled then VarintField(4, 3) else if added then VarintField(4, 1) else [])))
  }

  function EncSTE(delay: int, t: int): Bytes {
    When(delay != ABSENT, VarintField(1, Signed64(delay))) + When(t != 0, VarintField(2, Signed64(t)))
  }

  function EncSTU(s: STU): Bytes {
    When(s.seqNo != ABSENT, VarintField(1, Low32(s.seqNo)))
    + (When(s.arrDelay != ABSENT || s.arrTime != 0, BytesField(2, EncSTE(s.arrDelay, s.arrTime)))
    + (When(s.depDelay != ABSENT || s.depTime != 0, BytesField(3, EncSTE(s.depDelay, s.depTime)))
    + (When(s.stopID != [], BytesField(4, s.stopID))
    + (if s.skipped then VarintField(5, 1) else if s.noData then VarintField(5, 2) else []))))
  }

  function EncSTUs(stus: seq<STU>): Bytes {
    if stus == [] then [] else BytesField(2, EncSTU(stus[0])) + EncSTUs(stus[1..])
  }

  function EncTrip(tu: TripRT): Bytes {
    BytesField(1, EncDescriptor(tu.tripID, tu.routeID, tu.startDate, tu.cancelled, tu.added))
    + (EncSTUs(tu.stus)
    + (When(tu.timestamp != 0, VarintField(4, tu.timestamp))
    + When(tu.hasDelay && tu.delaySec != ABSENT, VarintField(5, Low32(tu.delaySec)))))
  }

  function EncPosition(lat: nat, lon: nat): Bytes { Fixed32Field(1, lat) + Fixed32Field(2, lon) }

  function EncVehicle(v: VehicleRT): Bytes {
    BytesField(1, EncDescriptor(v.tripID, v.routeID, [], false, false))
    + (When(!IsZero(v.lat) || !IsZero(v.lon), BytesField(2, EncPosition(v.lat, v.lon)))
    + (When(v.currentSeq != ABSENT, VarintField(3, Low32(v.currentSeq)))
    + (When(v.status != ABSENT, VarintField(4, Low32(v.status)))
    + (When(v.timestamp != 0, VarintField(5, v.timestamp))
    + When(v.stopID != [], BytesField(7, v.stopID))))))
  }

  const VERSION: Bytes := [50, 46, 48]
  const TRIP_ENTITY: Bytes := [101, 45, 116, 117]
  const VEHICLE_ENTITY: Bytes := [101, 45, 118, 112]

  function EncHeader(timestamp: nat): Bytes { BytesField(1, VERSION) + VarintField(3, timestamp) }

  function EncTripEntity(tu: TripRT): Bytes { BytesField(1, TRIP_ENTITY) + BytesField(3, EncTrip(tu)) }

  function EncVehicleEntity(v: VehicleRT): Bytes { BytesField(1, VEHICLE_ENTITY) + BytesField(4, EncVehicle(v)) }

  function EncTrips(ts: seq<TripRT>): Bytes {
    if ts == [] then [] else BytesField(2, EncTripEntity(ts[0])) + EncTrips(ts[1..])
  }

  function EncVehicles(vs: seq<VehicleRT>): Bytes {
    if vs == [] then [] else BytesField(2, EncVehicleEntity(vs[0])) + EncVehicles(vs[1..])
  }

  function EncFeed(f: Feed): Bytes {
    BytesField(1, EncHeader(f.timestamp)) + (EncTrips(f.trips) + EncVehicles(f.vehicles))
  }

  // ---- decoding: the meaning of any bytes ------------------------------------------------------
  // XField is one field of message X, from its number and wire type: the bytes after it and the new value.
  // NextX reads the number and wire type first; DecX reads to the end.

  datatype Descriptor = Descriptor(tripID: Bytes, routeID: Bytes, startDate: Bytes, rel: int)

  function Skipped<A>(wire: nat, b: Bytes, a: A): (r: Option<(Bytes, A)>)
    ensures r.Some? ==> |r.value.0| <= |b|
  {
    var s := Skip(wire, b);
    if s.None? then None else Some((s.value, a))
  }

  function SetText(d: Descriptor, field: nat, s: Bytes): Descriptor {
    if field == 1 then d.(tripID := s) else if field == 5 then d.(routeID := s) else d.(startDate := s)
  }

  function DescriptorField(field: nat, wire: nat, b: Bytes, d: Descriptor): (r: Option<(Bytes, Descriptor)>)
    ensures r.Some? ==> |r.value.0| <= |b|
  {
    if field == 1 || field == 5 || field == 3 then
      var s := GetBytes(b);
      if s.None? then None else Some((s.value.1, SetText(d, field, s.value.0)))
    else if field == 4 then
      var v := GetVarint(b);
      if v.None? then None else Some((v.value.1, d.(rel := ToI64(v.value.0))))
    else Skipped(wire, b, d)
  }

  function NextDescriptor(b: Bytes, d: Descriptor): (r: Option<(Bytes, Descriptor)>)
    ensures r.Some? ==> |r.value.0| < |b|
  {
    var k := GetField(b);
    if k.None? then None else DescriptorField(k.value.0, k.value.1, k.value.2, d)
  }

  function DecDescriptor(b: Bytes, d: Descriptor): Option<Descriptor>
    decreases |b|
  {
    if b == [] then Some(d)
    else
      var next := NextDescriptor(b, d);
      if next.None? then None else DecDescriptor(next.value.0, next.value.1)
  }

  datatype Event = Event(delay: int, time: int)

  function EventField(field: nat, wire: nat, b: Bytes, e: Event): (r: Option<(Bytes, Event)>)
    ensures r.Some? ==> |r.value.0| <= |b|
  {
    if field == 1 || field == 2 then
      var v := GetVarint(b);
      if v.None? then None
      else Some((v.value.1, if field == 1 then e.(delay := ToI32(v.value.0)) else e.(time := ToI64(v.value.0))))
    else Skipped(wire, b, e)
  }

  function NextEvent(b: Bytes, e: Event): (r: Option<(Bytes, Event)>)
    ensures r.Some? ==> |r.value.0| < |b|
  {
    var k := GetField(b);
    if k.None? then None else EventField(k.value.0, k.value.1, k.value.2, e)
  }

  function DecEvent(b: Bytes, e: Event): Option<Event>
    decreases |b|
  {
    if b == [] then Some(e)
    else
      var next := NextEvent(b, e);
      if next.None? then None else DecEvent(next.value.0, next.value.1)
  }

  function SetNumber(s: STU, field: nat, v: nat): STU {
    if field == 1 then s.(seqNo := ToI32(v)) else s.(skipped := v == 1, noData := v == 2)
  }

  function SetEvent(s: STU, field: nat, e: Event): STU {
    if field == 2 then s.(arrDelay := e.delay, arrTime := e.time) else s.(depDelay := e.delay, depTime := e.time)
  }

  function STUField(field: nat, wire: nat, b: Bytes, s: STU): (r: Option<(Bytes, STU)>)
    ensures r.Some? ==> |r.value.0| <= |b|
  {
    if field == 1 || field == 5 then
      var v := GetVarint(b);
      if v.None? then None else Some((v.value.1, SetNumber(s, field, v.value.0)))
    else if field == 2 || field == 3 then
      var x := GetBytes(b);
      if x.None? then None
      else
        var e := DecEvent(x.value.0, Event(ABSENT, 0));
        if e.None? then None else Some((x.value.1, SetEvent(s, field, e.value)))
    else if field == 4 then
      var x := GetBytes(b);
      if x.None? then None else Some((x.value.1, s.(stopID := x.value.0)))
    else Skipped(wire, b, s)
  }

  function NextSTU(b: Bytes, s: STU): (r: Option<(Bytes, STU)>)
    ensures r.Some? ==> |r.value.0| < |b|
  {
    var k := GetField(b);
    if k.None? then None else STUField(k.value.0, k.value.1, k.value.2, s)
  }

  function DecSTU(b: Bytes, s: STU): Option<STU>
    decreases |b|
  {
    if b == [] then Some(s)
    else
      var next := NextSTU(b, s);
      if next.None? then None else DecSTU(next.value.0, next.value.1)
  }

  const NO_STU: STU := STU(ABSENT, [], ABSENT, ABSENT, 0, 0, false, false)
  const NO_TRIP: TripRT := TripRT([], [], [], false, false, ABSENT, false, 0, [])
  const NO_VEHICLE: VehicleRT := VehicleRT([], [], 0, 0, ABSENT, [], ABSENT, 0)
  const NO_DESCRIPTOR: Descriptor := Descriptor([], [], [], -1)

  function Described(tu: TripRT, d: Descriptor): TripRT {
    tu.(tripID := d.tripID, routeID := d.routeID, startDate := d.startDate, cancelled := d.rel == 3,
      added := d.rel == 1)
  }

  function TripField(field: nat, wire: nat, b: Bytes, tu: TripRT): (r: Option<(Bytes, TripRT)>)
    ensures r.Some? ==> |r.value.0| <= |b|
  {
    if field == 1 then
      var x := GetBytes(b);
      if x.None? then None
      else
        var d := DecDescriptor(x.value.0, NO_DESCRIPTOR);
        if d.None? then None else Some((x.value.1, Described(tu, d.value)))
    else if field == 2 then
      var x := GetBytes(b);
      if x.None? then None
      else
        var s := DecSTU(x.value.0, NO_STU);
        if s.None? then None else Some((x.value.1, tu.(stus := tu.stus + [s.value])))
    else if field == 4 || field == 5 then
      var v := GetVarint(b);
      if v.None? then None
      else Some((v.value.1,
        if field == 4 then tu.(timestamp := v.value.0) else tu.(delaySec := ToI32(v.value.0), hasDelay := true)))
    else Skipped(wire, b, tu)
  }

  function NextTrip(b: Bytes, tu: TripRT): (r: Option<(Bytes, TripRT)>)
    ensures r.Some? ==> |r.value.0| < |b|
  {
    var k := GetField(b);
    if k.None? then None else TripField(k.value.0, k.value.1, k.value.2, tu)
  }

  function DecTrip(b: Bytes, tu: TripRT): Option<TripRT>
    decreases |b|
  {
    if b == [] then Some(tu)
    else
      var next := NextTrip(b, tu);
      if next.None? then None else DecTrip(next.value.0, next.value.1)
  }

  datatype Position = Position(lat: nat, lon: nat)

  function PositionField(field: nat, wire: nat, b: Bytes, q: Position): (r: Option<(Bytes, Position)>)
    ensures r.Some? ==> |r.value.0| <= |b|
  {
    if (field == 1 || field == 2) && wire == 5 then
      var v := GetFixed32(b);
      if v.None? then None
      else Some((v.value.1, if field == 1 then q.(lat := v.value.0) else q.(lon := v.value.0)))
    else Skipped(wire, b, q)
  }

  function NextPosition(b: Bytes, q: Position): (r: Option<(Bytes, Position)>)
    ensures r.Some? ==> |r.value.0| < |b|
  {
    var k := GetField(b);
    if k.None? then None else PositionField(k.value.0, k.value.1, k.value.2, q)
  }

  function DecPosition(b: Bytes, q: Position): Option<Position>
    decreases |b|
  {
    if b == [] then Some(q)
    else
      var next := NextPosition(b, q);
      if next.None? then None else DecPosition(next.value.0, next.value.1)
  }

  function SetVehicle(v: VehicleRT, field: nat, n: nat): VehicleRT {
    if field == 3 then v.(currentSeq := ToI32(n)) else if field == 4 then v.(status := ToI32(n)) else v.(timestamp := n)
  }

  function VehicleField(field: nat, wire: nat, b: Bytes, v: VehicleRT): (r: Option<(Bytes, VehicleRT)>)
    ensures r.Some? ==> |r.value.0| <= |b|
  {
    if field == 1 then
      var x := GetBytes(b);
      if x.None? then None
      else
        var d := DecDescriptor(x.value.0, NO_DESCRIPTOR);
        if d.None? then None else Some((x.value.1, v.(tripID := d.value.tripID, routeID := d.value.routeID)))
    else if field == 2 then
      var x := GetBytes(b);
      if x.None? then None
      else
        var q := DecPosition(x.value.0, Position(v.lat, v.lon));
        if q.None? then None else Some((x.value.1, v.(lat := q.value.lat, lon := q.value.lon)))
    else if field == 7 then
      var x := GetBytes(b);
      if x.None? then None else Some((x.value.1, v.(stopID := x.value.0)))
    else if field == 3 || field == 4 || field == 5 then
      var n := GetVarint(b);
      if n.None? then None else Some((n.value.1, SetVehicle(v, field, n.value.0)))
    else Skipped(wire, b, v)
  }

  function NextVehicle(b: Bytes, v: VehicleRT): (r: Option<(Bytes, VehicleRT)>)
    ensures r.Some? ==> |r.value.0| < |b|
  {
    var k := GetField(b);
    if k.None? then None else VehicleField(k.value.0, k.value.1, k.value.2, v)
  }

  function DecVehicle(b: Bytes, v: VehicleRT): Option<VehicleRT>
    decreases |b|
  {
    if b == [] then Some(v)
    else
      var next := NextVehicle(b, v);
      if next.None? then None else DecVehicle(next.value.0, next.value.1)
  }

  function EntityField(field: nat, wire: nat, b: Bytes, f: Feed): (r: Option<(Bytes, Feed)>)
    ensures r.Some? ==> |r.value.0| <= |b|
  {
    if field == 3 then
      var x := GetBytes(b);
      if x.None? then None
      else
        var tu := DecTrip(x.value.0, NO_TRIP);
        if tu.None? then None else Some((x.value.1, f.(trips := f.trips + [tu.value])))
    else if field == 4 then
      var x := GetBytes(b);
      if x.None? then None
      else
        var v := DecVehicle(x.value.0, NO_VEHICLE);
        if v.None? then None else Some((x.value.1, f.(vehicles := f.vehicles + [v.value])))
    else Skipped(wire, b, f)
  }

  function NextEntity(b: Bytes, f: Feed): (r: Option<(Bytes, Feed)>)
    ensures r.Some? ==> |r.value.0| < |b|
  {
    var k := GetField(b);
    if k.None? then None else EntityField(k.value.0, k.value.1, k.value.2, f)
  }

  function DecEntity(b: Bytes, f: Feed): Option<Feed>
    decreases |b|
  {
    if b == [] then Some(f)
    else
      var next := NextEntity(b, f);
      if next.None? then None else DecEntity(next.value.0, next.value.1)
  }

  function HeaderField(field: nat, wire: nat, b: Bytes, f: Feed): (r: Option<(Bytes, Feed)>)
    ensures r.Some? ==> |r.value.0| <= |b|
  {
    if field == 3 && wire == 0 then
      var v := GetVarint(b);
      if v.None? then None else Some((v.value.1, f.(timestamp := v.value.0)))
    else Skipped(wire, b, f)
  }

  function NextHeader(b: Bytes, f: Feed): (r: Option<(Bytes, Feed)>)
    ensures r.Some? ==> |r.value.0| < |b|
  {
    var k := GetField(b);
    if k.None? then None else HeaderField(k.value.0, k.value.1, k.value.2, f)
  }

  function DecHeader(b: Bytes, f: Feed): Option<Feed>
    decreases |b|
  {
    if b == [] then Some(f)
    else
      var next := NextHeader(b, f);
      if next.None? then None else DecHeader(next.value.0, next.value.1)
  }

  function FeedField(field: nat, wire: nat, b: Bytes, f: Feed): (r: Option<(Bytes, Feed)>)
    ensures r.Some? ==> |r.value.0| <= |b|
  {
    if field == 1 || field == 2 then
      var x := GetBytes(b);
      if x.None? then None
      else
        var f' := if field == 1 then DecHeader(x.value.0, f) else DecEntity(x.value.0, f);
        if f'.None? then None else Some((x.value.1, f'.value))
    else Skipped(wire, b, f)
  }

  function NextFeed(b: Bytes, f: Feed): (r: Option<(Bytes, Feed)>)
    ensures r.Some? ==> |r.value.0| < |b|
  {
    var k := GetField(b);
    if k.None? then None else FeedField(k.value.0, k.value.1, k.value.2, f)
  }

  function DecFeed(b: Bytes, f: Feed): Option<Feed>
    decreases |b|
  {
    if b == [] then Some(f)
    else
      var next := NextFeed(b, f);
      if next.None? then None else DecFeed(next.value.0, next.value.1)
  }

  // ---- what survives a round trip ----------------------------------------------------------------

  /** NoData is dropped when Skipped. */
  function NormSTU(s: STU): STU { s.(noData := s.noData && !s.skipped) }

  function NormSTUs(stus: seq<STU>): (r: seq<STU>)
    ensures |r| == |stus|
    ensures forall i :: 0 <= i < |r| ==> r[i] == NormSTU(stus[i])
  {
    if stus == [] then [] else [NormSTU(stus[0])] + NormSTUs(stus[1..])
  }

  /** Added is dropped when Cancelled; an unset or absent trip delay is no delay. */
  function NormTrip(tu: TripRT): TripRT {
    var delayed := tu.hasDelay && tu.delaySec != ABSENT;
    tu.(added := tu.added && !tu.cancelled, hasDelay := delayed, delaySec := if delayed then tu.delaySec else ABSENT,
        stus := NormSTUs(tu.stus))
  }

  /** A position whose two coordinates are zero is no position. */
  function NormVehicle(v: VehicleRT): VehicleRT {
    if IsZero(v.lat) && IsZero(v.lon) then v.(lat := 0, lon := 0) else v
  }

  function NormTrips(ts: seq<TripRT>): (r: seq<TripRT>)
    ensures |r| == |ts|
    ensures forall i :: 0 <= i < |r| ==> r[i] == NormTrip(ts[i])
  {
    if ts == [] then [] else [NormTrip(ts[0])] + NormTrips(ts[1..])
  }

  function NormVehicles(vs: seq<VehicleRT>): (r: seq<VehicleRT>)
    ensures |r| == |vs|
    ensures forall i :: 0 <= i < |r| ==> r[i] == NormVehicle(vs[i])
  {
    if vs == [] then [] else [NormVehicle(vs[0])] + NormVehicles(vs[1..])
  }

  function NormFeed(f: Feed): Feed { f.(trips := NormTrips(f.trips), vehicles := NormVehicles(f.vehicles)) }
}
