/** The source image as it is written and read: a writer and a reader that stop at their first error. */
module StoreCodec {
  import opened Words
  import opened Varints
  import opened Seqs
  import opened StreetMap
  import opened SourceData
  import opened SourceUpdate
  import opened StoreFormat
  import opened StoreBack

  /** Writes to a sink with room for so many bytes; after an error nothing more is written. */
  class Writer {
    const room: nat
    var out: Bytes
    var err: bool
    /** Everything offered so far. */
    ghost var done: Bytes

    ghost predicate Valid()
      reads this
    {
      if err then |done| > room else out == done && |done| <= room
    }

    constructor (room: nat)
      ensures Valid() && done == [] && this.room == room
    {
      this.room, out, err, done := room, [], false, [];
    }

    method Write(data: Bytes)
      requires Valid()
      modifies this
      ensures Valid() && done == old(done) + data
    {
      done := done + data;
      if err { return; }
      if |out| + |data| > room {
        err := true;
      } else {
        out := out + data;
      }
    }

    method U64(v: nat)
      requires Valid()
      modifies this
      ensures Valid() && done == old(done) + Uvarint(v)
    {
      Write(Uvarint(v));
    }

    method I64(v: int)
      requires Valid()
      modifies this
      ensures Valid() && done == old(done) + PutI64(v)
    {
      Write(PutI64(v));
    }

    method Str(s: Text)
      requires Valid()
      modifies this
      ensures Valid() && done == old(done) + PutText(s)
    {
      U64(|s|);
      Write(s);
      Assoc(old(done), Uvarint(|s|), s);
    }
  }

  // ---- writing lists ------------------------------------------------------------------------------

  lemma ListAt<S, A>(put: (S, A) -> Bytes, next: (S, A) -> S, s: S, xs: seq<A>, i: nat, before: Bytes)
    requires i < |xs|
    ensures before + PutList(put, next, s, xs[i..])
      == (before + put(s, xs[i])) + PutList(put, next, next(s, xs[i]), xs[i + 1..])
  {
    assert xs[i..][0] == xs[i] && xs[i..][1..] == xs[i + 1..];
    Assoc(before, put(s, xs[i]), PutList(put, next, next(s, xs[i]), xs[i + 1..]));
  }

  lemma ListEnds<S, A>(put: (S, A) -> Bytes, next: (S, A) -> S, s: S, xs: seq<A>, before: Bytes)
    ensures xs[0..] == xs
    ensures before + PutList(put, next, s, xs[|xs|..]) == before
  {
    assert |xs[|xs|..]| == 0;
    AddNothing(before);
  }

  method WriteNames(w: Writer, names: seq<Text>)
    requires w.Valid()
    modifies w
    ensures w.Valid() && w.done == old(w.done) + PutList(PutName, AfterName, 0, names)
  {
    ListEnds(PutName, AfterName, 0, names, w.done);
    for i := 0 to |names|
      invariant w.Valid()
      invariant w.done + PutList(PutName, AfterName, 0, names[i..]) == old(w.done)
        + PutList(PutName, AfterName, 0, names)
    {
      ListAt(PutName, AfterName, 0, names, i, w.done);
      w.Str(names[i]);
    }
    ListEnds(PutName, AfterName, 0, names, w.done);
  }

  method WriteWay(w: Writer, r: WayRec, ghost off: nat)
    requires w.Valid()
    modifies w
    ensures w.Valid() && w.done == old(w.done) + PutWay(off, r)
  {
    w.U64(r.refCnt);
    w.Write([ToByte(r.fwd)]);
    w.Write([ToByte(r.bwd)]);
    w.Write([ToByte(r.speed)]);
    w.U64(r.nameIdx);
    Flags3(old(w.done), Uvarint(r.refCnt), ToByte(r.fwd), ToByte(r.bwd), ToByte(r.speed), Uvarint(r.nameIdx));
  }

  lemma Flags3(a: Bytes, b: Bytes, x: byte, y: byte, z: byte, c: Bytes)
    ensures ((((a + b) + [x]) + [y]) + [z]) + c == a + (b + ([x, y, z] + c))
  {
  }

  method WriteWays(w: Writer, ways: seq<WayRec>)
    requires w.Valid()
    modifies w
    ensures w.Valid() && w.done == old(w.done) + PutList(PutWay, AfterWay, 0, ways)
  {
    ListEnds(PutWay, AfterWay, 0, ways, w.done);
    ghost var off: nat := 0;
    for i := 0 to |ways|
      invariant w.Valid()
      invariant w.done + PutList(PutWay, AfterWay, off, ways[i..]) == old(w.done) + PutList(PutWay, AfterWay, 0, ways)
    {
      ListAt(PutWay, AfterWay, off, ways, i, w.done);
      WriteWay(w, ways[i], off);
      off := AfterWay(off, ways[i]);
    }
    ListEnds(PutWay, AfterWay, off, ways, w.done);
  }

  method WriteDeltas(w: Writer, xs: seq<int>)
    requires w.Valid()
    modifies w
    ensures w.Valid() && w.done == old(w.done) + PutList(PutDelta, AfterInt, 0, xs)
  {
    ListEnds(PutDelta, AfterInt, 0, xs, w.done);
    var prev := 0;
    for i := 0 to |xs|
      invariant w.Valid()
      invariant w.done + PutList(PutDelta, AfterInt, prev, xs[i..]) == old(w.done) + PutList(PutDelta, AfterInt, 0, xs)
    {
      ListAt(PutDelta, AfterInt, prev, xs, i, w.done);
      w.I64(xs[i] - prev);
      prev := xs[i];
    }
    ListEnds(PutDelta, AfterInt, prev, xs, w.done);
  }

  method WriteIds(w: Writer, ids: seq<int>)
    requires w.Valid()
    modifies w
    ensures w.Valid() && w.done == old(w.done) + PutList(PutId, AfterInt, 0, ids)
  {
    ListEnds(PutId, AfterInt, 0, ids, w.done);
    var prev := 0;
    for i := 0 to |ids|
      invariant w.Valid()
      invariant w.done + PutList(PutId, AfterInt, prev, ids[i..]) == old(w.done) + PutList(PutId, AfterInt, 0, ids)
    {
      ListAt(PutId, AfterInt, prev, ids, i, w.done);
      w.U64(Signed64(ids[i] - prev));
      prev := ids[i];
    }
    ListEnds(PutId, AfterInt, prev, ids, w.done);
  }

  method WritePairs(w: Writer, lats: seq<int>, lons: seq<int>)
    requires w.Valid() && |lats| == |lons|
    modifies w
    ensures w.Valid() && w.done == old(w.done) + PutList(PutPair, AfterPair, Coord(0, 0), PairUp(lats, lons))
  {
    ghost var cs := PairUp(lats, lons);
    ListEnds(PutPair, AfterPair, Coord(0, 0), cs, w.done);
    var pla, plo := 0, 0;
    for i := 0 to |lats|
      invariant w.Valid()
      invariant w.done + PutList(PutPair, AfterPair, Coord(pla, plo), cs[i..])
        == old(w.done) + PutList(PutPair, AfterPair, Coord(0, 0), cs)
    {
      ghost var at := w.done;
      ListAt(PutPair, AfterPair, Coord(pla, plo), cs, i, w.done);
      w.I64(lats[i] - pla);
      w.I64(lons[i] - plo);
      Assoc(at, PutI64(lats[i] - pla), PutI64(lons[i] - plo));
      pla, plo := lats[i], lons[i];
    }
    ListEnds(PutPair, AfterPair, Coord(pla, plo), cs, w.done);
  }

  function Pow2(j: nat): nat {
    if j == 0 then 1 else 2 * Pow2(j - 1)
  }

  lemma {:induction false} PackSnoc(bits: seq<bool>, x: bool)
    ensures Pack(bits + [x]) == Pack(bits) + if x then Pow2(|bits|) else 0
    decreases |bits|
  {
    if bits == [] {
      assert Pack(([x])[1..]) == 0;
    } else {
      PackSnoc(bits[1..], x);
      assert (bits + [x])[1..] == bits[1..] + [x];
    }
  }

  /** One byte of flags, set bit by bit. */
  method PackByte(route: seq<bool>, i: nat, k: nat) returns (b: nat)
    requires i + k <= |route| && k <= 8
    ensures b == Pack(route[i..i + k])
  {
    b := 0;
    for j := 0 to k
      invariant b == Pack(route[i..i + j])
    {
      PackSnoc(route[i..i + j], route[i + j]);
      assert route[i..i + j] + [route[i + j]] == route[i..i + j + 1];
      if route[i + j] { b := b + Pow2(j); }
    }
  }

  method WriteFlags(w: Writer, route: seq<bool>)
    requires w.Valid()
    modifies w
    ensures w.Valid() && w.done == old(w.done) + PutFlags(route)
  {
    var i := 0;
    assert route[0..] == route;
    while i < |route|
      invariant i <= |route| && w.Valid()
      invariant w.done + PutFlags(route[i..]) == old(w.done) + PutFlags(route)
    {
      var k := Least8(|route| - i);
      var b := PackByte(route, i, k);
      FlagsAt(route, i, w.done);
      w.Write([ToByte(b)]);
      i := i + k;
    }
    FlagsEnd(route, w.done);
  }

  lemma FlagsAt(route: seq<bool>, i: nat, before: Bytes)
    requires i < |route|
    ensures before + PutFlags(route[i..]) ==
      (before + [ToByte(Pack(route[i..i + Least8(|route| - i)]))]) + PutFlags(route[i + Least8(|route| - i)..])
  {
    var k := Least8(|route| - i);
    assert route[i..][..k] == route[i..i + k] && route[i..][k..] == route[i + k..];
    Assoc(before, [ToByte(Pack(route[i..i + k]))], PutFlags(route[i + k..]));
  }

  lemma FlagsEnd(route: seq<bool>, before: Bytes)
    ensures before + PutFlags(route[|route|..]) == before
  {
    assert |route[|route|..]| == 0;
    AddNothing(before);
  }

  // ---- writing the image ----------------------------------------------------------------------------

  method WriteHead(w: Writer, s: Source)
    requires w.Valid()
    modifies w
    ensures w.Valid() && w.done == old(w.done) + PutHead(s)
  {
    w.I64(s.bbox.minLat);
    w.I64(s.bbox.minLon);
    w.I64(s.bbox.maxLat);
    w.I64(s.bbox.maxLon);
    DimsFlat(old(w.done), s.bbox);
    Assoc(old(w.done), PutList(PutDim, AfterDim, 0, Dims(s.bbox)), PutI64(s.replSeq) + PutText(s.replURL));
    ghost var at := w.done;
    w.I64(s.replSeq);
    w.Str(s.replURL);
    Assoc(at, PutI64(s.replSeq), PutText(s.replURL));
  }

  lemma DimsFlat(a: Bytes, b: BBox)
    ensures (((a + PutI64(b.minLat)) + PutI64(b.minLon)) + PutI64(b.maxLat)) + PutI64(b.maxLon)
      == a + PutList(PutDim, AfterDim, 0, Dims(b))
  {
    var xs := Dims(b);
    ListEnds(PutDim, AfterDim, 0, xs, a);
    ListAt(PutDim, AfterDim, 0, xs, 0, a);
    ListAt(PutDim, AfterDim, 0, xs, 1, a + PutI64(xs[0]));
    ListAt(PutDim, AfterDim, 0, xs, 2, (a + PutI64(xs[0])) + PutI64(xs[1]));
    ListAt(PutDim, AfterDim, 0, xs, 3, ((a + PutI64(xs[0])) + PutI64(xs[1])) + PutI64(xs[2]));
    ListEnds(PutDim, AfterDim, 0, xs, (((a + PutI64(xs[0])) + PutI64(xs[1])) + PutI64(xs[2])) + PutI64(xs[3]));
  }

  /** SrcData.encode: the whole image is offered to the writer. */
  method Encode(s: Source, w: Writer)
    requires w.Valid() && |s.lats| == |s.lons|
    modifies w
    ensures w.Valid() && w.done == old(w.done) + Image(s)
  {
    WriteHead(w, s);
    w.U64(|s.names|);
    WriteNames(w, s.names);
    w.U64(|s.ways|);
    WriteWays(w, s.ways);
    WriteDeltas(w, s.wayIDs);
    w.U64(|s.refs|);
    WriteDeltas(w, s.refs);
    w.U64(|s.ids|);
    WriteIds(w, s.ids);
    WritePairs(w, s.lats, s.lons);
    WriteFlags(w, s.route);
    ImageFlat(old(w.done), PutHead(s), Uvarint(|s.names|), PutList(PutName, AfterName, 0, s.names),
      Uvarint(|s.ways|), PutList(PutWay, AfterWay, 0, s.ways), PutList(PutDelta, AfterInt, 0, s.wayIDs),
      Uvarint(|s.refs|), PutList(PutDelta, AfterInt, 0, s.refs), Uvarint(|s.ids|), PutList(PutId, AfterInt, 0, s.ids),
      PutList(PutPair, AfterPair, Coord(0, 0), PairUp(s.lats, s.lons)), PutFlags(s.route));
  }

  lemma ImageFlat(a: Bytes, p0: Bytes, n1: Bytes, p1: Bytes, n2: Bytes, p2: Bytes, p3: Bytes, n4: Bytes, p4: Bytes,
      n5: Bytes, p5: Bytes, p6: Bytes, p7: Bytes)
    ensures (((((((((((a + p0) + n1) + p1) + n2) + p2) + p3) + n4) + p4) + n5) + p5) + p6) + p7
      == a + (p0 + ((n1 + p1) + ((n2 + p2) + (p3 + ((n4 + p4) + ((n5 + p5) + (p6 + p7)))))))
  {
    Assoc(a + p0, n1, p1);
    Assoc((a + p0) + (n1 + p1), n2, p2);
    var b := ((a + p0) + (n1 + p1)) + (n2 + p2);
    Assoc(b + p3, n4, p4);
    Assoc((b + p3) + (n4 + p4), n5, p5);
    Fold8(a, p0, n1 + p1, n2 + p2, p3, n4 + p4, n5 + p5, p6, p7);
  }

  lemma Fold8(a: Bytes, p0: Bytes, p1: Bytes, p2: Bytes, p3: Bytes, p4: Bytes, p5: Bytes, p6: Bytes, p7: Bytes)
    ensures (((((((a + p0) + p1) + p2) + p3) + p4) + p5) + p6) + p7
      == a + (p0 + (p1 + (p2 + (p3 + (p4 + (p5 + (p6 + p7)))))))
  {
    Assoc(((((a + p0) + p1) + p2) + p3) + p4 + p5, p6, p7);
    Assoc(((((a + p0) + p1) + p2) + p3) + p4, p5, p6 + p7);
    Assoc((((a + p0) + p1) + p2) + p3, p4, p5 + (p6 + p7));
    Assoc(((a + p0) + p1) + p2, p3, p4 + (p5 + (p6 + p7)));
    Assoc((a + p0) + p1, p2, p3 + (p4 + (p5 + (p6 + p7))));
    Assoc(a + p0, p1, p2 + (p3 + (p4 + (p5 + (p6 + p7)))));
    Assoc(a, p0, p1 + (p2 + (p3 + (p4 + (p5 + (p6 + p7))))));
  }

  /** An image comes out, whole, exactly when there is room for it. */
  method WriteStore(s: Source, room: nat) returns (out: Bytes, ok: bool)
    requires |s.lats| == |s.lons|
    ensures ok <==> |Image(s)| <= room
    ensures ok ==> out == Image(s)
  {
    var w := new Writer(room);
    Encode(s, w);
    AddNothing(Image(s));
    out, ok := w.out, !w.err;
  }
}
