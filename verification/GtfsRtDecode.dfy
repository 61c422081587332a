/** The GTFS-Realtime decoder as it runs: a cursor moved through a message, field by field. */
module GtfsRtDecoding {
  import opened Words
  import opened Varints
  import opened Seqs
  import opened Wire
  import opened GtfsRt
  import opened GtfsRtBack
  import opened GtfsRtScan
  import opened GtfsRtEncoding

  /** A step that takes what it should, or fails when it should. */
  ghost predicate Ate<T>(want: Option<(Bytes, T)>, ok: bool, left: Bytes, v: T) {
    if want.None? then !ok else ok && want.value == (left, v)
  }

  /** The step went as far as the scan says. */
  ghost predicate Moved(scan: Outcome<nat>, st: Status, i: nat) {
    match st
    case Ok => scan == Got(i)
    case Error => scan.Failed?
    case Panic => scan.Panicked?
  }

  /** The value of the bytes if they have one; if not, an error or a panic, as the scan says. */
  ghost predicate Tells<T>(want: Option<T>, scan: Outcome<nat>, r: Outcome<T>) {
    match r
    case Got(v) => want == Some(v) && scan.Got?
    case Failed => want.None? && scan.Failed?
    case Panicked => want.None? && scan.Panicked?
  }

  function StatusOf<T>(r: Outcome<T>): Status {
    match r
    case Got(_) => Ok
    case Failed => Error
    case Panicked => Panic
  }

  // ---- steps ------------------------------------------------------------------------------------------

  method TakeNumber(p: Decoder) returns (v: nat, st: Status)
    requires p.Valid()
    modifies p
    ensures p.Valid() && (st.Ok? ==> p.i >= old(p.i))
    ensures if st.Ok? then GetVarint(old(p.Rest())) == Some((v, p.Rest())) else GetVarint(old(p.Rest())).None?
    ensures Moved(NumberAt(p.b, old(p.i)), st, p.i)
  {
    var ok;
    v, ok := p.Varint();
    st := Done(ok);
  }

  method TakeText(p: Decoder) returns (s: Bytes, st: Status)
    requires p.Valid()
    modifies p
    ensures p.Valid() && (st.Ok? ==> p.i >= old(p.i))
    ensures if st.Ok? then GetBytes(old(p.Rest())) == Some((s, p.Rest())) else GetBytes(old(p.Rest())).None?
    ensures Moved(PayloadScan(None, p.b, old(p.i)), st, p.i)
  {
    s, st := p.Bytes();
  }

  method SkipOne(p: Decoder, wire: nat) returns (st: Status)
    requires p.Valid()
    modifies p
    ensures p.Valid() && (st.Ok? ==> p.i >= old(p.i))
    ensures if st.Ok? then Skip(wire, old(p.Rest())) == Some(p.Rest()) else Skip(wire, old(p.Rest())).None?
    ensures Moved(ShapeScan(SkipShape(wire), p.b, old(p.i)), st, p.i)
  {
    match wire
    case 0 => var _, done := TakeNumber(p); st := done;
    case 2 => var _, done := TakeText(p); st := done;
    case _ => st := p.SkipField(wire);
  }

  // For each message X: TakeXField reads one field behind its key, DecodeX the whole message, TakeInnerX a payload
  // holding one.

  method TakeDescriptorField(p: Decoder, field: nat, wire: nat, x: Descriptor) returns (st: Status, r: Descriptor)
    requires p.Valid()
    modifies p
    ensures p.Valid() && (st.Ok? ==> p.i >= old(p.i))
    ensures Ate(DescriptorField(field, wire, old(p.Rest()), x), st.Ok?, p.Rest(), r)
    ensures Moved(ShapeScan(ShapeOf(TripDescriptor, field, wire), p.b, old(p.i)), st, p.i)
  {
    r := x;
    match field {
      case 1 =>
        var s;
        s, st := TakeText(p);
        if st.Ok? { r := r.(tripID := s); }
      case 5 =>
        var s;
        s, st := TakeText(p);
        if st.Ok? { r := r.(routeID := s); }
      case 3 =>
        var s;
        s, st := TakeText(p);
        if st.Ok? { r := r.(startDate := s); }
      case 4 =>
        var v;
        v, st := TakeNumber(p);
        if st.Ok? { r := r.(rel := ToI64(v)); }
      case _ =>
        st := SkipOne(p, wire);
    }
  }

  method TakeDescriptor(p: Decoder, x: Descriptor) returns (st: Status, r: Descriptor)
    requires p.Valid() && p.i < |p.b|
    modifies p
    ensures p.Valid() && (st.Ok? ==> p.i > old(p.i))
    ensures Ate(NextDescriptor(old(p.Rest()), x), st.Ok?, p.Rest(), r)
    ensures Moved(FieldScan(TripDescriptor, p.b, old(p.i)), st, p.i)
  {
    var field, wire, ok := p.Field();
    if !ok { return Error, x; }
    st, r := TakeDescriptorField(p, field, wire, x);
  }

  method DecodeDescriptor(b: Bytes) returns (r: Outcome<Descriptor>)
    requires |b| < TWO_63
    ensures Tells(DecDescriptor(b, NO_DESCRIPTOR), Scan(TripDescriptor, b, 0), r)
  {
    var p := new Decoder(b);
    var x := NO_DESCRIPTOR;
    while p.i < |p.b|
      invariant p.Valid() && p.b == b && DecDescriptor(p.Rest(), x) == DecDescriptor(b, NO_DESCRIPTOR)
      invariant Scan(TripDescriptor, b, p.i) == Scan(TripDescriptor, b, 0)
      decreases |p.b| - p.i
    {
      var st;
      st, x := TakeDescriptor(p, x);
      if st.Error? { return Failed; }
      if st.Panic? { return Panicked; }
    }
    p.AtEnd();
    return Got(x);
  }

  method TakeInnerDescriptor(p: Decoder) returns (st: Status, r: Descriptor)
    requires p.Valid()
    modifies p
    ensures p.Valid() && (st.Ok? ==> p.i >= old(p.i))
    ensures st.Ok? <==>
      GetBytes(old(p.Rest())).Some? && DecDescriptor(GetBytes(old(p.Rest())).value.0, NO_DESCRIPTOR).Some?
    ensures st.Ok? ==> GetBytes(old(p.Rest())).value.1 == p.Rest()
    ensures st.Ok? ==> Some(r) == DecDescriptor(GetBytes(old(p.Rest())).value.0, NO_DESCRIPTOR)
    ensures Moved(PayloadScan(Some(TripDescriptor), p.b, old(p.i)), st, p.i)
  {
    r := NO_DESCRIPTOR;
    var b;
    b, st := p.Bytes();
    if !st.Ok? { return; }
    var m := DecodeDescriptor(b);
    st := StatusOf(m);
    if m.Got? { r := m.value; }
  }

  method TakeEventField(p: Decoder, field: nat, wire: nat, x: Event) returns (st: Status, r: Event)
    requires p.Valid()
    modifies p
    ensures p.Valid() && (st.Ok? ==> p.i >= old(p.i))
    ensures Ate(EventField(field, wire, old(p.Rest()), x), st.Ok?, p.Rest(), r)
    ensures Moved(ShapeScan(ShapeOf(StopTimeEvent, field, wire), p.b, old(p.i)), st, p.i)
  {
    r := x;
    match field {
      case 1 =>
        var v;
        v, st := TakeNumber(p);
        if st.Ok? { r := r.(delay := ToI32(v)); }
      case 2 =>
        var v;
        v, st := TakeNumber(p);
        if st.Ok? { r := r.(time := ToI64(v)); }
      case _ =>
        st := SkipOne(p, wire);
    }
  }

  method TakeEvent(p: Decoder, x: Event) returns (st: Status, r: Event)
    requires p.Valid() && p.i < |p.b|
    modifies p
    ensures p.Valid() && (st.Ok? ==> p.i > old(p.i))
    ensures Ate(NextEvent(old(p.Rest()), x), st.Ok?, p.Rest(), r)
    ensures Moved(FieldScan(StopTimeEvent, p.b, old(p.i)), st, p.i)
  {
    var field, wire, ok := p.Field();
    if !ok { return Error, x; }
    st, r := TakeEventField(p, field, wire, x);
  }

  method DecodeSTE(b: Bytes) returns (r: Outcome<Event>)
    requires |b| < TWO_63
    ensures Tells(DecEvent(b, Event(ABSENT, 0)), Scan(StopTimeEvent, b, 0), r)
  {
    var p := new Decoder(b);
    var x := Event(ABSENT, 0);
    while p.i < |p.b|
      invariant p.Valid() && p.b == b && DecEvent(p.Rest(), x) == DecEvent(b, Event(ABSENT, 0))
      invariant Scan(StopTimeEvent, b, p.i) == Scan(StopTimeEvent, b, 0)
      decreases |p.b| - p.i
    {
      var st;
      st, x := TakeEvent(p, x);
      if st.Error? { return Failed; }
      if st.Panic? { return Panicked; }
    }
    p.AtEnd();
    return Got(x);
  }

  method TakeInnerEvent(p: Decoder) returns (st: Status, r: Event)
    requires p.Valid()
    modifies p
    ensures p.Valid() && (st.Ok? ==> p.i >= old(p.i))
    ensures st.Ok? <==>
      GetBytes(old(p.Rest())).Some? && DecEvent(GetBytes(old(p.Rest())).value.0, Event(ABSENT, 0)).Some?
    ensures st.Ok? ==> GetBytes(old(p.Rest())).value.1 == p.Rest()
    ensures st.Ok? ==> Some(r) == DecEvent(GetBytes(old(p.Rest())).value.0, Event(ABSENT, 0))
    ensures Moved(PayloadScan(Some(StopTimeEvent), p.b, old(p.i)), st, p.i)
  {
    r := Event(ABSENT, 0);
    var b;
    b, st := p.Bytes();
    if !st.Ok? { return; }
    var m := DecodeSTE(b);
    st := StatusOf(m);
    if m.Got? { r := m.value; }
  }

  method TakeSTUField(p: Decoder, field: nat, wire: nat, x: STU) returns (st: Status, r: STU)
    requires p.Valid()
    modifies p
    ensures p.Valid() && (st.Ok? ==> p.i >= old(p.i))
    ensures Ate(STUField(field, wire, old(p.Rest()), x), st.Ok?, p.Rest(), r)
    ensures Moved(ShapeScan(ShapeOf(StopTimeUpdate, field, wire), p.b, old(p.i)), st, p.i)
  {
    r := x;
    match field {
      case 1 =>
        var v;
        v, st := TakeNumber(p);
        if st.Ok? { r := r.(seqNo := ToI32(v)); }
      case 4 =>
        var s;
        s, st := TakeText(p);
        if st.Ok? { r := r.(stopID := s); }
      case 2 =>
        var e;
        st, e := TakeInnerEvent(p);
        if st.Ok? { r := r.(arrDelay := e.delay, arrTime := e.time); }
      case 3 =>
        var e;
        st, e := TakeInnerEvent(p);
        if st.Ok? { r := r.(depDelay := e.delay, depTime := e.time); }
      case 5 =>
        var v;
        v, st := TakeNumber(p);
        if st.Ok? { r := r.(skipped := v == 1, noData := v == 2); }
      case _ =>
        st := SkipOne(p, wire);
    }
  }

  method TakeSTU(p: Decoder, x: STU) returns (st: Status, r: STU)
    requires p.Valid() && p.i < |p.b|
    modifies p
    ensures p.Valid() && (st.Ok? ==> p.i > old(p.i))
    ensures Ate(NextSTU(old(p.Rest()), x), st.Ok?, p.Rest(), r)
    ensures Moved(FieldScan(StopTimeUpdate, p.b, old(p.i)), st, p.i)
  {
    var field, wire, ok := p.Field();
    if !ok { return Error, x; }
    st, r := TakeSTUField(p, field, wire, x);
  }

  method DecodeSTU(b: Bytes) returns (r: Outcome<STU>)
    requires |b| < TWO_63
    ensures Tells(DecSTU(b, NO_STU), Scan(StopTimeUpdate, b, 0), r)
  {
    var p := new Decoder(b);
    var x := NO_STU;
    while p.i < |p.b|
      invariant p.Valid() && p.b == b && DecSTU(p.Rest(), x) == DecSTU(b, NO_STU)
      invariant Scan(StopTimeUpdate, b, p.i) == Scan(StopTimeUpdate, b, 0)
      decreases |p.b| - p.i
    {
      var st;
      st, x := TakeSTU(p, x);
      if st.Error? { return Failed; }
      if st.Panic? { return Panicked; }
    }
    p.AtEnd();
    return Got(x);
  }

  method TakeInnerSTU(p: Decoder) returns (st: Status, r: STU)
    requires p.Valid()
    modifies p
    ensures p.Valid() && (st.Ok? ==> p.i >= old(p.i))
    ensures st.Ok? <==>
      GetBytes(old(p.Rest())).Some? && DecSTU(GetBytes(old(p.Rest())).value.0, NO_STU).Some?
    ensures st.Ok? ==> GetBytes(old(p.Rest())).value.1 == p.Rest()
    ensures st.Ok? ==> Some(r) == DecSTU(GetBytes(old(p.Rest())).value.0, NO_STU)
    ensures Moved(PayloadScan(Some(StopTimeUpdate), p.b, old(p.i)), st, p.i)
  {
    r := NO_STU;
    var b;
    b, st := p.Bytes();
    if !st.Ok? { return; }
    var m := DecodeSTU(b);
    st := StatusOf(m);
    if m.Got? { r := m.value; }
  }

  method TakeTripField(p: Decoder, field: nat, wire: nat, x: TripRT) returns (st: Status, r: TripRT)
    requires p.Valid()
    modifies p
    ensures p.Valid() && (st.Ok? ==> p.i >= old(p.i))
    ensures Ate(TripField(field, wire, old(p.Rest()), x), st.Ok?, p.Rest(), r)
    ensures Moved(ShapeScan(ShapeOf(TripUpdate, field, wire), p.b, old(p.i)), st, p.i)
  {
    r := x;
    match field {
      case 1 =>
        var d;
        st, d := TakeInnerDescriptor(p);
        if st.Ok? { 
          r := r.(tripID := d.tripID, routeID := d.routeID, startDate := d.startDate);
          r := r.(cancelled := d.rel == 3, added := d.rel == 1);
        }
      case 2 =>
        var s;
        st, s := TakeInnerSTU(p);
        if st.Ok? { r := r.(stus := r.stus + [s]); }
      case 4 =>
        var v;
        v, st := TakeNumber(p);
        if st.Ok? { r := r.(timestamp := v); }
      case 5 =>
        var v;
        v, st := TakeNumber(p);
        if st.Ok? { r := r.(delaySec := ToI32(v), hasDelay := true); }
      case _ =>
        st := SkipOne(p, wire);
    }
  }

  method TakeTrip(p: Decoder, x: TripRT) returns (st: Status, r: TripRT)
    requires p.Valid() && p.i < |p.b|
    modifies p
    ensures p.Valid() && (st.Ok? ==> p.i > old(p.i))
    ensures Ate(NextTrip(old(p.Rest()), x), st.Ok?, p.Rest(), r)
    ensures Moved(FieldScan(TripUpdate, p.b, old(p.i)), st, p.i)
  {
    var field, wire, ok := p.Field();
    if !ok { return Error, x; }
    st, r := TakeTripField(p, field, wire, x);
  }

  method DecodeTrip(b: Bytes) returns (r: Outcome<TripRT>)
    requires |b| < TWO_63
    ensures Tells(DecTrip(b, NO_TRIP), Scan(TripUpdate, b, 0), r)
  {
    var p := new Decoder(b);
    var x := NO_TRIP;
    while p.i < |p.b|
      invariant p.Valid() && p.b == b && DecTrip(p.Rest(), x) == DecTrip(b, NO_TRIP)
      invariant Scan(TripUpdate, b, p.i) == Scan(TripUpdate, b, 0)
      decreases |p.b| - p.i
    {
      var st;
      st, x := TakeTrip(p, x);
      if st.Error? { return Failed; }
      if st.Panic? { return Panicked; }
    }
    p.AtEnd();
    return Got(x);
  }

  method TakeInnerTrip(p: Decoder) returns (st: Status, r: TripRT)
    requires p.Valid()
    modifies p
    ensures p.Valid() && (st.Ok? ==> p.i >= old(p.i))
    ensures st.Ok? <==>
      GetBytes(old(p.Rest())).Some? && DecTrip(GetBytes(old(p.Rest())).value.0, NO_TRIP).Some?
    ensures st.Ok? ==> GetBytes(old(p.Rest())).value.1 == p.Rest()
    ensures st.Ok? ==> Some(r) == DecTrip(GetBytes(old(p.Rest())).value.0, NO_TRIP)
    ensures Moved(PayloadScan(Some(TripUpdate), p.b, old(p.i)), st, p.i)
  {
    r := NO_TRIP;
    var b;
    b, st := p.Bytes();
    if !st.Ok? { return; }
    var m := DecodeTrip(b);
    st := StatusOf(m);
    if m.Got? { r := m.value; }
  }

  method TakePositionField(p: Decoder, field: nat, wire: nat, x: Position) returns (st: Status, r: Position)
    requires p.Valid()
    modifies p
    ensures p.Valid() && (st.Ok? ==> p.i >= old(p.i))
    ensures Ate(PositionField(field, wire, old(p.Rest()), x), st.Ok?, p.Rest(), r)
    ensures Moved(ShapeScan(ShapeOf(Point, field, wire), p.b, old(p.i)), st, p.i)
  {
    r := x;
    if field == 1 && wire == 5 {
      var bits, ok := p.ReadFixed32();
      st := Done(ok);
      if ok { r := r.(lat := bits); }
    } else if field == 2 && wire == 5 {
      var bits, ok := p.ReadFixed32();
      st := Done(ok);
      if ok { r := r.(lon := bits); }
    } else {
      st := SkipOne(p, wire);
    }
  }

  method TakePosition(p: Decoder, x: Position) returns (st: Status, r: Position)
    requires p.Valid() && p.i < |p.b|
    modifies p
    ensures p.Valid() && (st.Ok? ==> p.i > old(p.i))
    ensures Ate(NextPosition(old(p.Rest()), x), st.Ok?, p.Rest(), r)
    ensures Moved(FieldScan(Point, p.b, old(p.i)), st, p.i)
  {
    var field, wire, ok := p.Field();
    if !ok { return Error, x; }
    st, r := TakePositionField(p, field, wire, x);
  }

  method DecodePosition(b: Bytes, lat: nat, lon: nat) returns (r: Outcome<Position>)
    requires |b| < TWO_63
    ensures Tells(DecPosition(b, Position(lat, lon)), Scan(Point, b, 0), r)
  {
    var p := new Decoder(b);
    var x := Position(lat, lon);
    while p.i < |p.b|
      invariant p.Valid() && p.b == b && DecPosition(p.Rest(), x) == DecPosition(b, Position(lat, lon))
      invariant Scan(Point, b, p.i) == Scan(Point, b, 0)
      decreases |p.b| - p.i
    {
      var st;
      st, x := TakePosition(p, x);
      if st.Error? { return Failed; }
      if st.Panic? { return Panicked; }
    }
    p.AtEnd();
    return Got(x);
  }

  method TakeInnerPosition(p: Decoder, lat: nat, lon: nat) returns (st: Status, r: Position)
    requires p.Valid()
    modifies p
    ensures p.Valid() && (st.Ok? ==> p.i >= old(p.i))
    ensures st.Ok? <==>
      GetBytes(old(p.Rest())).Some? && DecPosition(GetBytes(old(p.Rest())).value.0, Position(lat, lon)).Some?
    ensures st.Ok? ==> GetBytes(old(p.Rest())).value.1 == p.Rest()
    ensures st.Ok? ==> Some(r) == DecPosition(GetBytes(old(p.Rest())).value.0, Position(lat, lon))
    ensures Moved(PayloadScan(Some(Point), p.b, old(p.i)), st, p.i)
  {
    r := Position(lat, lon);
    var b;
    b, st := p.Bytes();
    if !st.Ok? { return; }
    var m := DecodePosition(b, lat, lon);
    st := StatusOf(m);
    if m.Got? { r := m.value; }
  }

  method TakeVehicleField(p: Decoder, field: nat, wire: nat, x: VehicleRT) returns (st: Status, r: VehicleRT)
    requires p.Valid()
    modifies p
    ensures p.Valid() && (st.Ok? ==> p.i >= old(p.i))
    ensures Ate(VehicleField(field, wire, old(p.Rest()), x), st.Ok?, p.Rest(), r)
    ensures Moved(ShapeScan(ShapeOf(Kind.Vehicle, field, wire), p.b, old(p.i)), st, p.i)
  {
    r := x;
    match field {
      case 1 =>
        var d;
        st, d := TakeInnerDescriptor(p);
        if st.Ok? { r := r.(tripID := d.tripID, routeID := d.routeID); }
      case 2 =>
        var q;
        st, q := TakeInnerPosition(p, r.lat, r.lon);
        if st.Ok? { r := r.(lat := q.lat, lon := q.lon); }
      case 3 =>
        var v;
        v, st := TakeNumber(p);
        if st.Ok? { r := r.(currentSeq := ToI32(v)); }
      case 7 =>
        var s;
        s, st := TakeText(p);
        if st.Ok? { r := r.(stopID := s); }
      case 4 =>
        var v;
        v, st := TakeNumber(p);
        if st.Ok? { r := r.(status := ToI32(v)); }
      case 5 =>
        var v;
        v, st := TakeNumber(p);
        if st.Ok? { r := r.(timestamp := v); }
      case _ =>
        st := SkipOne(p, wire);
    }
  }

  method TakeVehicle(p: Decoder, x: VehicleRT) returns (st: Status, r: VehicleRT)
    requires p.Valid() && p.i < |p.b|
    modifies p
    ensures p.Valid() && (st.Ok? ==> p.i > old(p.i))
    ensures Ate(NextVehicle(old(p.Rest()), x), st.Ok?, p.Rest(), r)
    ensures Moved(FieldScan(Kind.Vehicle, p.b, old(p.i)), st, p.i)
  {
    var field, wire, ok := p.Field();
    if !ok { return Error, x; }
    st, r := TakeVehicleField(p, field, wire, x);
  }

  method DecodeVehicle(b: Bytes) returns (r: Outcome<VehicleRT>)
    requires |b| < TWO_63
    ensures Tells(DecVehicle(b, NO_VEHICLE), Scan(Kind.Vehicle, b, 0), r)
  {
    var p := new Decoder(b);
    var x := NO_VEHICLE;
    while p.i < |p.b|
      invariant p.Valid() && p.b == b && DecVehicle(p.Rest(), x) == DecVehicle(b, NO_VEHICLE)
      invariant Scan(Kind.Vehicle, b, p.i) == Scan(Kind.Vehicle, b, 0)
      decreases |p.b| - p.i
    {
      var st;
      st, x := TakeVehicle(p, x);
      if st.Error? { return Failed; }
      if st.Panic? { return Panicked; }
    }
    p.AtEnd();
    return Got(x);
  }

  method TakeInnerVehicle(p: Decoder) returns (st: Status, r: VehicleRT)
    requires p.Valid()
    modifies p
    ensures p.Valid() && (st.Ok? ==> p.i >= old(p.i))
    ensures st.Ok? <==>
      GetBytes(old(p.Rest())).Some? && DecVehicle(GetBytes(old(p.Rest())).value.0, NO_VEHICLE).Some?
    ensures st.Ok? ==> GetBytes(old(p.Rest())).value.1 == p.Rest()
    ensures st.Ok? ==> Some(r) == DecVehicle(GetBytes(old(p.Rest())).value.0, NO_VEHICLE)
    ensures Moved(PayloadScan(Some(Kind.Vehicle), p.b, old(p.i)), st, p.i)
  {
    r := NO_VEHICLE;
    var b;
    b, st := p.Bytes();
    if !st.Ok? { return; }
    var m := DecodeVehicle(b);
    st := StatusOf(m);
    if m.Got? { r := m.value; }
  }

  method TakeEntityField(p: Decoder, field: nat, wire: nat, x: Feed) returns (st: Status, r: Feed)
    requires p.Valid()
    modifies p
    ensures p.Valid() && (st.Ok? ==> p.i >= old(p.i))
    ensures Ate(EntityField(field, wire, old(p.Rest()), x), st.Ok?, p.Rest(), r)
    ensures Moved(ShapeScan(ShapeOf(Entity, field, wire), p.b, old(p.i)), st, p.i)
  {
    r := x;
    match field {
      case 3 =>
        var tu;
        st, tu := TakeInnerTrip(p);
        if st.Ok? { r := r.(trips := r.trips + [tu]); }
      case 4 =>
        var v;
        st, v := TakeInnerVehicle(p);
        if st.Ok? { r := r.(vehicles := r.vehicles + [v]); }
      case _ =>
        st := SkipOne(p, wire);
    }
  }

  method TakeEntity(p: Decoder, x: Feed) returns (st: Status, r: Feed)
    requires p.Valid() && p.i < |p.b|
    modifies p
    ensures p.Valid() && (st.Ok? ==> p.i > old(p.i))
    ensures Ate(NextEntity(old(p.Rest()), x), st.Ok?, p.Rest(), r)
    ensures Moved(FieldScan(Entity, p.b, old(p.i)), st, p.i)
  {
    var field, wire, ok := p.Field();
    if !ok { return Error, x; }
    st, r := TakeEntityField(p, field, wire, x);
  }

  method DecodeEntity(b: Bytes, f0: Feed) returns (r: Outcome<Feed>)
    requires |b| < TWO_63
    ensures Tells(DecEntity(b, f0), Scan(Entity, b, 0), r)
  {
    var p := new Decoder(b);
    var x := f0;
    while p.i < |p.b|
      invariant p.Valid() && p.b == b && DecEntity(p.Rest(), x) == DecEntity(b, f0)
      invariant Scan(Entity, b, p.i) == Scan(Entity, b, 0)
      decreases |p.b| - p.i
    {
      var st;
      st, x := TakeEntity(p, x);
      if st.Error? { return Failed; }
      if st.Panic? { return Panicked; }
    }
    p.AtEnd();
    return Got(x);
  }

  method TakeInnerEntity(p: Decoder, f0: Feed) returns (st: Status, r: Feed)
    requires p.Valid()
    modifies p
    ensures p.Valid() && (st.Ok? ==> p.i >= old(p.i))
    ensures st.Ok? <==>
      GetBytes(old(p.Rest())).Some? && DecEntity(GetBytes(old(p.Rest())).value.0, f0).Some?
    ensures st.Ok? ==> GetBytes(old(p.Rest())).value.1 == p.Rest()
    ensures st.Ok? ==> Some(r) == DecEntity(GetBytes(old(p.Rest())).value.0, f0)
    ensures Moved(PayloadScan(Some(Entity), p.b, old(p.i)), st, p.i)
  {
    r := f0;
    var b;
    b, st := p.Bytes();
    if !st.Ok? { return; }
    var m := DecodeEntity(b, f0);
    st := StatusOf(m);
    if m.Got? { r := m.value; }
  }

  method TakeHeaderField(p: Decoder, field: nat, wire: nat, x: Feed) returns (st: Status, r: Feed)
    requires p.Valid()
    modifies p
    ensures p.Valid() && (st.Ok? ==> p.i >= old(p.i))
    ensures Ate(HeaderField(field, wire, old(p.Rest()), x), st.Ok?, p.Rest(), r)
    ensures Moved(ShapeScan(ShapeOf(Header, field, wire), p.b, old(p.i)), st, p.i)
  {
    r := x;
    if field == 3 && wire == 0 {
      var v;
      v, st := TakeNumber(p);
      if st.Ok? { r := r.(timestamp := v); }
    } else {
      st := SkipOne(p, wire);
    }
  }

  method TakeHeader(p: Decoder, x: Feed) returns (st: Status, r: Feed)
    requires p.Valid() && p.i < |p.b|
    modifies p
    ensures p.Valid() && (st.Ok? ==> p.i > old(p.i))
    ensures Ate(NextHeader(old(p.Rest()), x), st.Ok?, p.Rest(), r)
    ensures Moved(FieldScan(Header, p.b, old(p.i)), st, p.i)
  {
    var field, wire, ok := p.Field();
    if !ok { return Error, x; }
    st, r := TakeHeaderField(p, field, wire, x);
  }

  method DecodeHeader(b: Bytes, f0: Feed) returns (r: Outcome<Feed>)
    requires |b| < TWO_63
    ensures Tells(DecHeader(b, f0), Scan(Header, b, 0), r)
  {
    var p := new Decoder(b);
    var x := f0;
    while p.i < |p.b|
      invariant p.Valid() && p.b == b && DecHeader(p.Rest(), x) == DecHeader(b, f0)
      invariant Scan(Header, b, p.i) == Scan(Header, b, 0)
      decreases |p.b| - p.i
    {
      var st;
      st, x := TakeHeader(p, x);
      if st.Error? { return Failed; }
      if st.Panic? { return Panicked; }
    }
    p.AtEnd();
    return Got(x);
  }

  method TakeInnerHeader(p: Decoder, f0: Feed) returns (st: Status, r: Feed)
    requires p.Valid()
    modifies p
    ensures p.Valid() && (st.Ok? ==> p.i >= old(p.i))
    ensures st.Ok? <==>
      GetBytes(old(p.Rest())).Some? && DecHeader(GetBytes(old(p.Rest())).value.0, f0).Some?
    ensures st.Ok? ==> GetBytes(old(p.Rest())).value.1 == p.Rest()
    ensures st.Ok? ==> Some(r) == DecHeader(GetBytes(old(p.Rest())).value.0, f0)
    ensures Moved(PayloadScan(Some(Header), p.b, old(p.i)), st, p.i)
  {
    r := f0;
    var b;
    b, st := p.Bytes();
    if !st.Ok? { return; }
    var m := DecodeHeader(b, f0);
    st := StatusOf(m);
    if m.Got? { r := m.value; }
  }

  method TakeFeedField(p: Decoder, field: nat, wire: nat, x: Feed) returns (st: Status, r: Feed)
    requires p.Valid()
    modifies p
    ensures p.Valid() && (st.Ok? ==> p.i >= old(p.i))
    ensures Ate(FeedField(field, wire, old(p.Rest()), x), st.Ok?, p.Rest(), r)
    ensures Moved(ShapeScan(ShapeOf(Message, field, wire), p.b, old(p.i)), st, p.i)
  {
    r := x;
    match field {
      case 1 =>
        var f;
        st, f := TakeInnerHeader(p, r);
        if st.Ok? { r := f; }
      case 2 =>
        var f;
        st, f := TakeInnerEntity(p, r);
        if st.Ok? { r := f; }
      case _ =>
        st := SkipOne(p, wire);
    }
  }

  method TakeFeed(p: Decoder, x: Feed) returns (st: Status, r: Feed)
    requires p.Valid() && p.i < |p.b|
    modifies p
    ensures p.Valid() && (st.Ok? ==> p.i > old(p.i))
    ensures Ate(NextFeed(old(p.Rest()), x), st.Ok?, p.Rest(), r)
    ensures Moved(FieldScan(Message, p.b, old(p.i)), st, p.i)
  {
    var field, wire, ok := p.Field();
    if !ok { return Error, x; }
    st, r := TakeFeedField(p, field, wire, x);
  }

  method Decode(b: Bytes) returns (r: Outcome<Feed>)
    requires |b| < TWO_63
    ensures Tells(DecFeed(b, Feed(0, [], [])), Scan(Message, b, 0), r)
  {
    var p := new Decoder(b);
    var x := Feed(0, [], []);
    while p.i < |p.b|
      invariant p.Valid() && p.b == b && DecFeed(p.Rest(), x) == DecFeed(b, Feed(0, [], []))
      invariant Scan(Message, b, p.i) == Scan(Message, b, 0)
      decreases |p.b| - p.i
    {
      var st;
      st, x := TakeFeed(p, x);
      if st.Error? { return Failed; }
      if st.Panic? { return Panicked; }
    }
    p.AtEnd();
    return Got(x);
  }

  /** The running pair: what Decode makes of what Encode wrote. */
  method RoundTrip(f: Feed) returns (bytes: Bytes, back: Outcome<Feed>)
    requires f.Valid() && |EncFeed(f)| < TWO_63
    ensures back == Got(NormFeed(f))
    ensures back == Got(f) <==> Canonical(f)
  {
    bytes := Encode(f);
    back := Decode(bytes);
    FeedBack(f);
    LosslessIff(f);
  }

  /** Decode panics on a feed exactly when its cursor meets an overlong length before any error. */
  method DecodeOrPanic(data: Bytes) returns (r: Outcome<Feed>)
    requires |data| < TWO_63
    ensures r.Panicked? <==> exists offsets :: Stumbles(Message, data, offsets)
    ensures r.Got? <==> DecFeed(data, Feed(0, [], [])).Some?
    ensures r.Got? ==> DecFeed(data, Feed(0, [], [])) == Some(r.value)
  {
    PanicsIff(Message, data);
    r := Decode(data);
  }
}
