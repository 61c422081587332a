/** Which bytes a decoder gets through, which it refuses, and which make it panic; what it stores does
    not matter here. */
module GtfsRtScan {
  import opened Words
  import opened Varints
  import opened Seqs
  import opened Wire

  datatype Kind =
    | Message | Header | Entity | TripUpdate | TripDescriptor | StopTimeUpdate | StopTimeEvent | Vehicle | Point

  /** What a message kind expects behind a field key; a payload may hold a message of its own. */
  datatype Shape = Number | Fixed(width: nat) | Payload(inner: Option<Kind>) | Unsupported

  /** A field that is skipped. */
  function SkipShape(wire: nat): Shape {
    match wire
    case 0 => Number
    case 1 => Fixed(8)
    case 2 => Payload(None)
    case 5 => Fixed(4)
    case _ => Unsupported
  }

  function ShapeOf(kind: Kind, field: nat, wire: nat): Shape {
    match kind
    case Message => if field == 1 then Payload(Some(Header)) else if field == 2 then Payload(Some(Entity))
      else SkipShape(wire)
    case Header => if field == 3 && wire == 0 then Number else SkipShape(wire)
    case Entity => if field == 3 then Payload(Some(TripUpdate)) else if field == 4 then Payload(Some(Vehicle))
      else SkipShape(wire)
    case TripUpdate =>
      if field == 1 then Payload(Some(TripDescriptor)) else if field == 2 then Payload(Some(StopTimeUpdate))
      else if field in {4, 5} then Number else SkipShape(wire)
    case TripDescriptor => if field in {1, 3, 5} then Payload(None) else if field == 4 then Number else SkipShape(wire)
    case StopTimeUpdate =>
      if field in {2, 3} then Payload(Some(StopTimeEvent)) else if field == 4 then Payload(None)
      else if field in {1, 5} then Number else SkipShape(wire)
    case StopTimeEvent => if field in {1, 2} then Number else SkipShape(wire)
    case Vehicle =>
      if field == 1 then Payload(Some(TripDescriptor)) else if field == 2 then Payload(Some(Point))
      else if field == 7 then Payload(None) else if field in {3, 4, 5} then Number else SkipShape(wire)
    case Point => if field in {1, 2} && wire == 5 then Fixed(4) else SkipShape(wire)
  }

  /** A number behind the key: where it ends. */
  function NumberAt(m: seq<byte>, j: nat): (r: Outcome<nat>)
    requires j <= |m|
    ensures r.Got? ==> j < r.value <= |m|
  {
    var v := GetVarint(m[j..]);
    if v.None? then Failed else Got(|m| - |v.value.1|)
  }

  /** Where the key of the field at i ends. */
  function KeyAt(m: seq<byte>, i: nat): (r: Option<(nat, nat, nat)>)
    requires i <= |m|
    ensures r.Some? ==> i < r.value.2 <= |m|
  {
    var k := GetField(m[i..]);
    if k.None? then None else Some((k.value.0, k.value.1, |m| - |k.value.2|))
  }

  /** Where the field at i ends. */
  function FieldScan(kind: Kind, m: seq<byte>, i: nat): (r: Outcome<nat>)
    requires i < |m|
    ensures r.Got? ==> i < r.value <= |m|
    decreases |m|, |m| - i, 0
  {
    var k := KeyAt(m, i);
    if k.None? then Failed
    else
      ShapeScan(ShapeOf(kind, k.value.0, k.value.1), m, k.value.2)
  }

  /** Where what follows a key ends. */
  function ShapeScan(shape: Shape, m: seq<byte>, j: nat): (r: Outcome<nat>)
    requires j <= |m|
    ensures r.Got? ==> j <= r.value <= |m|
    decreases |m|, |m| - j, 1
  {
    match shape
    case Number => NumberAt(m, j)
    case Fixed(w) => if j + w > |m| then Failed else Got(j + w)
    case Payload(inner) => PayloadScan(inner, m, j)
    case Unsupported => Failed
  }

  /** A payload at j, and the message in it. */
  function PayloadScan(inner: Option<Kind>, m: seq<byte>, j: nat): (r: Outcome<nat>)
    requires j <= |m|
    ensures r.Got? ==> j < r.value <= |m|
    decreases |m|, |m| - j, 0
  {
    match PayloadAt(m, j)
    case Failed => Failed
    case Panicked => Panicked
    case Got(at) =>
      if inner.None? then Got(at.1)
      else
        match Scan(inner.value, m[at.0..at.1], 0)
        case Failed => Failed
        case Panicked => Panicked
        case Got(_) => Got(at.1)
  }

  /** All fields from i on. */
  function Scan(kind: Kind, m: seq<byte>, i: nat): Outcome<nat>
    requires i <= |m|
    decreases |m|, |m| - i, 1
  {
    if i == |m| then Got(i)
    else
      match FieldScan(kind, m, i)
      case Failed => Failed
      case Panicked => Panicked
      case Got(j) => Scan(kind, m, j)
  }

  // ---- exactly the overlong lengths ----------------------------------------------------------------------------

  /** From i the cursor comes to j, one whole field after the other, without an error. */
  ghost predicate Reaches(kind: Kind, m: seq<byte>, i: nat, j: nat)
    requires i <= |m|
    decreases |m| - i
  {
    i == j || (i < |m| && FieldScan(kind, m, i).Got? && Reaches(kind, m, FieldScan(kind, m, i).value, j))
  }

  /** From i the cursor meets an overlong length: the fields it lies in, outermost first, start at these offsets. */
  ghost predicate Meets(kind: Kind, m: seq<byte>, i: nat, offsets: seq<nat>)
    requires i <= |m|
    decreases |offsets|, 0
  {
    && offsets != [] && offsets[0] < |m| && Reaches(kind, m, i, offsets[0])
    && var k := KeyAt(m, offsets[0]);
       && k.Some? && ShapeOf(kind, k.value.0, k.value.1).Payload?
       && MeetsBehind(ShapeOf(kind, k.value.0, k.value.1).inner, m, k.value.2, offsets[1..])
  }

  /** The payload at j has an overlong length, or holds a message in which one is met. */
  ghost predicate MeetsBehind(inner: Option<Kind>, m: seq<byte>, j: nat, offsets: seq<nat>)
    requires j <= |m|
    decreases |offsets|, 1
  {
    var l := LengthAt(m, j);
    && l.Some?
    && var (n, c) := l.value;
       if offsets == [] then Overlong(n, c)
       else inner.Some? && !Overlong(n, c) && c + n <= |m| && Meets(inner.value, m[c..c + n], 0, offsets)
  }

  ghost predicate Stumbles(kind: Kind, m: seq<byte>, offsets: seq<nat>) { Meets(kind, m, 0, offsets) }

  lemma FieldPanics(kind: Kind, m: seq<byte>, i: nat)
    requires i < |m|
    ensures FieldScan(kind, m, i).Panicked? <==>
      var k := KeyAt(m, i);
      k.Some? && var shape := ShapeOf(kind, k.value.0, k.value.1);
        shape.Payload? && PayloadScan(shape.inner, m, k.value.2).Panicked?
  {
  }

  lemma PayloadPanics(inner: Option<Kind>, m: seq<byte>, j: nat)
    requires j <= |m|
    ensures PayloadScan(inner, m, j).Panicked? <==>
      var at := PayloadAt(m, j);
      at.Panicked? || (at.Got? && inner.Some? && Scan(inner.value, m[at.value.0..at.value.1], 0).Panicked?)
  {
  }

  lemma {:induction false} ScanFinds(kind: Kind, m: seq<byte>, i: nat) returns (offsets: seq<nat>)
    requires i <= |m| && Scan(kind, m, i).Panicked?
    ensures Meets(kind, m, i, offsets)
    decreases |m|, |m| - i
  {
    var f := FieldScan(kind, m, i);
    if f.Got? {
      offsets := ScanFinds(kind, m, f.value);
    } else {
      FieldPanics(kind, m, i);
      var k := KeyAt(m, i).value;
      var behind := PayloadFinds(ShapeOf(kind, k.0, k.1).inner, m, k.2);
      offsets := [i] + behind;
      assert offsets[1..] == behind;
    }
  }

  lemma {:induction false} PayloadFinds(inner: Option<Kind>, m: seq<byte>, j: nat) returns (offsets: seq<nat>)
    requires j <= |m| && PayloadScan(inner, m, j).Panicked?
    ensures MeetsBehind(inner, m, j, offsets)
    decreases |m|, |m| - j
  {
    PayloadPanics(inner, m, j);
    var at := PayloadAt(m, j);
    if at.Panicked? {
      offsets := [];
    } else {
      var (n, c) := LengthAt(m, j).value;
      assert at.value == (c, c + n);
      offsets := ScanFinds(inner.value, m[c..c + n], 0);
    }
  }

  lemma {:induction false} MeetingPanics(kind: Kind, m: seq<byte>, i: nat, offsets: seq<nat>)
    requires i <= |m| && Meets(kind, m, i, offsets)
    ensures Scan(kind, m, i).Panicked?
    decreases |m|, |m| - i
  {
    if i != offsets[0] {
      MeetingPanics(kind, m, FieldScan(kind, m, i).value, offsets);
    } else {
      FieldPanics(kind, m, i);
      var k := KeyAt(m, i).value;
      MeetingBehind(ShapeOf(kind, k.0, k.1).inner, m, k.2, offsets[1..]);
    }
  }

  lemma {:induction false} MeetingBehind(inner: Option<Kind>, m: seq<byte>, j: nat, offsets: seq<nat>)
    requires j <= |m| && MeetsBehind(inner, m, j, offsets)
    ensures PayloadScan(inner, m, j).Panicked?
    decreases |m|, |m| - j
  {
    PayloadPanics(inner, m, j);
    if offsets != [] {
      var (n, c) := LengthAt(m, j).value;
      MeetingPanics(inner.value, m[c..c + n], 0, offsets);
    }
  }

  /** Decoding panics exactly when the cursor meets, before any error, a length that with the cursor is 2^63 or more. */
  lemma PanicsIff(kind: Kind, m: seq<byte>)
    ensures Scan(kind, m, 0).Panicked? <==> exists offsets :: Stumbles(kind, m, offsets)
  {
    if Scan(kind, m, 0).Panicked? {
      var offsets := ScanFinds(kind, m, 0);
      assert Stumbles(kind, m, offsets);
    }
    forall offsets | Stumbles(kind, m, offsets)
      ensures Scan(kind, m, 0).Panicked? { MeetingPanics(kind, m, 0, offsets); }
  }

  /** One field is enough: a header whose announced length is overlong, whatever follows. */
  lemma OneField(n: nat, rest: seq<byte>)
    requires TWO_63 <= n < TWO_64
    ensures Scan(Message, Tag(1, 2) + (Uvarint(n) + rest), 0).Panicked?
  {
    var m := Tag(1, 2) + (Uvarint(n) + rest);
    assert m[0..] == m;
    TagBack(1, 2, Uvarint(n) + rest);
    ReadBack(n, rest);
    var j := |Tag(1, 2)|;
    assert m[j..] == Uvarint(n) + rest;
    assert KeyAt(m, 0) == Some((1, 2, j));
    assert LengthAt(m, j) == Some((n, |m| - |rest|));
    FieldPanics(Message, m, 0);
    PayloadPanics(Some(Header), m, j);
  }

  /** Eleven bytes. */
  lemma Eleven(m: seq<byte>)
    requires m == [10, 255, 255, 255, 255, 255, 255, 255, 255, 255, 1]
    ensures Scan(Message, m, 0).Panicked?
  {
    ElevenAre(m);
    OneField(TWO_64 - 1, []);
  }

  lemma ElevenAre(m: seq<byte>)
    requires m == [10, 255, 255, 255, 255, 255, 255, 255, 255, 255, 1]
    ensures m == Tag(1, 2) + (Uvarint(TWO_64 - 1) + [])
  {
    Ones();
    assert Tag(1, 2) == [10];
    AddNothing(Uvarint(TWO_64 - 1));
  }

  lemma Ones()
    ensures Uvarint(TWO_64 - 1) == [255, 255, 255, 255, 255, 255, 255, 255, 255, 1]
  {
    var v: nat := 1;
    assert Uvarint(v) == seq(0, _ => 255) + [1];
    for k := 0 to 9
      invariant v + 1 == 2 * Pow7(k) && Uvarint(v) == seq(k, _ => 255) + [1]
    {
      assert Pow7(k + 1) == 128 * Pow7(k);
      assert Uvarint(128 * v + 127) == [255] + Uvarint(v);
      assert [255] + (seq(k, _ => 255) + [1]) == seq(k + 1, _ => 255) + [1];
      v := 128 * v + 127;
    }
    Pow7Values();
  }
}
