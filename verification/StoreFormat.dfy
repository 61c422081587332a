/** The source image: what is written for a source, and what a reader makes of any bytes. */
module StoreFormat {
  import opened Words
  import opened Varints
  import opened StreetMap
  import opened SourceData

  type Bytes = seq<byte>

  // ---- values -----------------------------------------------------------------------------------

  function PutI64(v: int): Bytes { Svarint(Wrap64(v)) }

  function PutText(t: Text): Bytes { Uvarint(|t|) + t }

  function ToByte(v: nat): byte { v % 256 }

  function GetU64(b: Bytes): (r: Option<(nat, Bytes)>)
    ensures r.Some? ==> r.value.0 < TWO_64 && |r.value.1| < |b|
  {
    var r := Read64(b);
    if r.None? then None else Some((r.value.0, b[r.value.1..]))
  }

  function GetI64(b: Bytes): (r: Option<(int, Bytes)>)
    ensures r.Some? ==> |r.value.1| < |b|
  {
    var r := GetU64(b);
    if r.None? then None else Some((UnZigZag(r.value.0), r.value.1))
  }

  function GetByte(b: Bytes): Option<(nat, Bytes)> {
    if b == [] then None else Some((b[0], b[1..]))
  }

  const MAX_TEXT: nat := 0x10_0000

  /** A string of at most 1 MiB. */
  function GetText(b: Bytes): Option<(Text, Bytes)> {
    var n := GetU64(b);
    if n.None? || n.value.0 > MAX_TEXT || n.value.0 > |n.value.1| then None
    else Some((n.value.1[..n.value.0], n.value.1[n.value.0..]))
  }

  lemma U64Back(v: nat, rest: Bytes)
    requires v < TWO_64
    ensures GetU64(Uvarint(v) + rest) == Some((v, rest))
  {
    ReadersAgree(v, rest);
    assert (Uvarint(v) + rest)[|Uvarint(v)|..] == rest;
  }

  lemma I64Back(v: int, rest: Bytes)
    ensures GetI64(PutI64(v) + rest) == Some((Wrap64(v), rest))
  {
    ZigZagBack(Wrap64(v));
    U64Back(ZigZag(Wrap64(v)), rest);
  }

  lemma TextBack(t: Text, rest: Bytes)
    requires |t| <= MAX_TEXT
    ensures GetText(PutText(t) + rest) == Some((t, rest))
  {
    assert PutText(t) + rest == Uvarint(|t|) + (t + rest);
    U64Back(|t|, t + rest);
    assert (t + rest)[..|t|] == t && (t + rest)[|t|..] == rest;
  }

  // ---- lists --------------------------------------------------------------------------------------
  // The entries of a list are written one after another; each may depend on a state the earlier ones left.

  function PutList<S, A>(put: (S, A) -> Bytes, next: (S, A) -> S, s: S, xs: seq<A>): Bytes
    decreases |xs|
  {
    if xs == [] then [] else put(s, xs[0]) + PutList(put, next, next(s, xs[0]), xs[1..])
  }

  /** n more entries, onto acc. */
  function GetList<S, A>(get: (S, Bytes) -> Option<(A, Bytes)>, next: (S, A) -> S, s: S, b: Bytes, n: nat, acc: seq<A>)
    : (r: Option<(seq<A>, Bytes)>)
    ensures r.Some? ==> |r.value.0| == |acc| + n
    decreases n
  {
    if n == 0 then Some((acc, b))
    else
      var x := get(s, b);
      if x.None? then None else GetList(get, next, next(s, x.value.0), x.value.1, n - 1, acc + [x.value.0])
  }

  /** A count, then that many entries. */
  function GetCounted<S, A>(get: (S, Bytes) -> Option<(A, Bytes)>, next: (S, A) -> S, s: S, b: Bytes): Option<(seq<A>,
      Bytes)> {
    var n := GetU64(b);
    if n.None? then None else GetList(get, next, s, n.value.1, n.value.0, [])
  }

  // Names: no state.

  function PutName(s: nat, t: Text): Bytes { PutText(t) }

  function GetName(s: nat, b: Bytes): Option<(Text, Bytes)> { GetText(b) }

  function AfterName(s: nat, t: Text): nat { s }

  // Way records: the state is where the next references start.

  function PutWay(off: nat, w: WayRec): Bytes {
    Uvarint(w.refCnt) + ([ToByte(w.fwd), ToByte(w.bwd), ToByte(w.speed)] + Uvarint(w.nameIdx))
  }

  function GetWay(off: nat, b: Bytes): Option<(WayRec, Bytes)> {
    var c := GetU64(b);
    if c.None? || |c.value.1| < 3 then None
    else
      var r := c.value.1;
      var n := GetU64(r[3..]);
      if n.None? then None
      else Some((WayRec(off, c.value.0 % TWO_32, r[0], r[1], r[2], n.value.0 % TWO_32), n.value.1))
  }

  function AfterWay(off: nat, w: WayRec): nat { (off + w.refCnt) % TWO_32 }

  // Integers by their signed difference from the previous one; sorted ids by the unsigned difference.

  function PutDelta(prev: int, x: int): Bytes { PutI64(x - prev) }

  function GetDelta(prev: int, b: Bytes): Option<(int, Bytes)> {
    var d := GetI64(b);
    if d.None? then None else Some((Wrap64(prev + d.value.0), d.value.1))
  }

  function PutId(prev: int, x: int): Bytes { Uvarint(Signed64(x - prev)) }

  function GetId(prev: int, b: Bytes): Option<(int, Bytes)> {
    var d := GetU64(b);
    if d.None? then None else Some((Wrap64(prev + ToI64(d.value.0)), d.value.1))
  }

  function AfterInt(prev: int, x: int): int { x }

  // Coordinates by pairs of differences, summed up in 64 bits.

  function PutPair(prev: Coord, c: Coord): Bytes { PutI64(c.lat - prev.lat) + PutI64(c.lon - prev.lon) }

  function GetPair(prev: Coord, b: Bytes): Option<(Coord, Bytes)> {
    var a := GetI64(b);
    if a.None? then None
    else
      var o := GetI64(a.value.1);
      if o.None? then None
      else Some((Coord(Wrap64(prev.lat + a.value.0), Wrap64(prev.lon + o.value.0)), o.value.1))
  }

  function AfterPair(prev: Coord, c: Coord): Coord { c }

  // Bounds: int32 values on their own.

  function PutDim(s: nat, v: int): Bytes { PutI64(v) }

  function GetDim(s: nat, b: Bytes): Option<(int, Bytes)> {
    var v := GetI64(b);
    if v.None? then None else Some((Wrap32(v.value.0), v.value.1))
  }

  function AfterDim(s: nat, v: int): nat { s }

  /** Eight flags a byte, the first in the lowest bit. */
  function Pack(bits: seq<bool>): nat {
    if bits == [] then 0 else (if bits[0] then 1 else 0) + 2 * Pack(bits[1..])
  }

  function Bit(v: nat, j: nat): bool {
    if j == 0 then v % 2 == 1 else Bit(v / 2, j - 1)
  }

  function Unpack(v: nat, n: nat): (r: seq<bool>)
    ensures |r| == n
  {
    seq(n, j requires 0 <= j < n => Bit(v, j))
  }

  function Least8(n: nat): nat { if n < 8 then n else 8 }

  function PutFlags(route: seq<bool>): Bytes
    decreases |route|
  {
    if route == [] then []
    else var k := Least8(|route|); [ToByte(Pack(route[..k]))] + PutFlags(route[k..])
  }

  function GetFlags(b: Bytes, n: nat, acc: seq<bool>): Option<(seq<bool>, Bytes)>
    decreases n
  {
    if n == 0 then Some((acc, b))
    else if b == [] then None
    else var k := Least8(n); GetFlags(b[1..], n - k, acc + Unpack(b[0], k))
  }

  // ---- the image ----------------------------------------------------------------------------------

  function Dims(b: BBox): seq<int> { [b.minLat, b.minLon, b.maxLat, b.maxLon] }

  function PutHead(s: Source): Bytes {
    PutList(PutDim, AfterDim, 0, Dims(s.bbox)) + (PutI64(s.replSeq) + PutText(s.replURL))
  }

  function Image(s: Source): Bytes
    requires |s.lats| == |s.lons|
  {
    PutHead(s)
    + ((Uvarint(|s.names|) + PutList(PutName, AfterName, 0, s.names))
    + ((Uvarint(|s.ways|) + PutList(PutWay, AfterWay, 0, s.ways))
    + (PutList(PutDelta, AfterInt, 0, s.wayIDs)
    + ((Uvarint(|s.refs|) + PutList(PutDelta, AfterInt, 0, s.refs))
    + ((Uvarint(|s.ids|) + PutList(PutId, AfterInt, 0, s.ids))
    + (PutList(PutPair, AfterPair, Coord(0, 0), PairUp(s.lats, s.lons))
    + PutFlags(s.route)))))))
  }

  datatype Head = Head(bbox: BBox, replSeq: int, replURL: Text)

  function GetHead(b: Bytes): Option<(Head, Bytes)> {
    var q := GetList(GetDim, AfterDim, 0, b, 4, []);
    if q.None? then None
    else
      var s := GetI64(q.value.1);
      if s.None? then None
      else
        var u := GetText(s.value.1);
        if u.None? then None
        else
          var d := q.value.0;
          Some((Head(BBox(d[0], d[1], d[2], d[3]), s.value.0, u.value.0), u.value.1))
  }

  function Lats(cs: seq<Coord>): (r: seq<int>)
    ensures |r| == |cs|
  {
    seq(|cs|, i requires 0 <= i < |cs| => Wrap32(cs[i].lat))
  }

  function Lons(cs: seq<Coord>): (r: seq<int>)
    ensures |r| == |cs|
  {
    seq(|cs|, i requires 0 <= i < |cs| => Wrap32(cs[i].lon))
  }

  // Later parts of the image, given what was read before.

  function GetNodes(b: Bytes, h: Head, names: seq<Text>, ways: seq<WayRec>, wayIDs: seq<int>,
      refs: seq<int>): Option<Source> {
    var ids := GetCounted(GetId, AfterInt, 0, b);
    if ids.None? then None
    else
      var cs := GetList(GetPair, AfterPair, Coord(0, 0), ids.value.1, |ids.value.0|, []);
      if cs.None? then None
      else
        var fs := GetFlags(cs.value.1, |ids.value.0|, []);
        if fs.None? then None
        else Some(Source(ways, wayIDs, refs, names, ids.value.0, Lats(cs.value.0), Lons(cs.value.0), fs.value.0,
          h.bbox, h.replSeq, h.replURL))
  }

  function GetStreets(b: Bytes, h: Head, names: seq<Text>): Option<Source> {
    var ws := GetCounted(GetWay, AfterWay, 0, b);
    if ws.None? then None
    else
      var wids := GetList(GetDelta, AfterInt, 0, ws.value.1, |ws.value.0|, []);
      if wids.None? then None
      else
        var rs := GetCounted(GetDelta, AfterInt, 0, wids.value.1);
        if rs.None? then None else GetNodes(rs.value.1, h, names, ws.value.0, wids.value.0, rs.value.0)
  }

  function GetBody(b: Bytes, h: Head): Option<Source> {
    var ns := GetCounted(GetName, AfterName, 0, b);
    if ns.None? then None else GetStreets(ns.value.1, h, ns.value.0)
  }

  /** The source some bytes hold; what follows the image is ignored. */
  function GetSource(b: Bytes): Option<Source> {
    var h := GetHead(b);
    if h.None? then None else GetBody(h.value.1, h.value.0)
  }
}
