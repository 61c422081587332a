/** Reading an image gives back the source it was written for. */
module StoreBack {
  import opened Words
  import opened Varints
  import opened Seqs
  import opened StreetMap
  import opened SourceData
  import opened StoreFormat

  // ---- what fits the image ------------------------------------------------------------------------

  /** Offsets are the running reference counts, in 32 bits. */
  predicate Contiguous(ways: seq<WayRec>, off: nat) {
    ways == [] || (ways[0].refOff == off && Contiguous(ways[1..], (off + ways[0].refCnt) % TWO_32))
  }

  predicate WayFits(w: WayRec) {
    w.refCnt < TWO_32 && w.nameIdx < TWO_32 && w.fwd < 256 && w.bwd < 256 && w.speed < 256
  }

  predicate AllFit(ways: seq<WayRec>) { forall i :: 0 <= i < |ways| ==> WayFits(ways[i]) }

  predicate All64(xs: seq<int>) { forall i :: 0 <= i < |xs| ==> Int64(xs[i]) }

  predicate All32(xs: seq<int>) { forall i :: 0 <= i < |xs| ==> Int32(xs[i]) }

  predicate AllShort(names: seq<Text>) { forall i :: 0 <= i < |names| ==> |names[i]| <= MAX_TEXT }

  predicate AllNarrow(cs: seq<Coord>) { forall i :: 0 <= i < |cs| ==> Int32(cs[i].lat) && Int32(cs[i].lon) }

  predicate BoxFits(b: BBox) { Int32(b.minLat) && Int32(b.minLon) && Int32(b.maxLat) && Int32(b.maxLon) }

  /** Every field within its integer type, and no string over 1 MiB. */
  predicate Ranged(s: Source) {
    && AllFit(s.ways) && |s.names| < TWO_64 && |s.ways| < TWO_64 && |s.refs| < TWO_64 && |s.ids| < TWO_64
    && AllShort(s.names) && |s.replURL| <= MAX_TEXT
    && All64(s.wayIDs) && All64(s.refs) && All64(s.ids) && All32(s.lats) && All32(s.lons)
    && BoxFits(s.bbox) && Int64(s.replSeq)
  }

  /** Contiguous references, parallel arrays, names up to 1 MiB. */
  predicate Storable(s: Source) {
    && Ranged(s) && Contiguous(s.ways, 0) && |s.wayIDs| == |s.ways|
    && |s.lats| == |s.lons| == |s.route| == |s.ids|
  }

  // ---- lists ----------------------------------------------------------------------------------------

  /** Every entry can be read back from the state it is written in. */
  ghost predicate Codes<S, A>(put: (S, A) -> Bytes, get: (S, Bytes) -> Option<(A, Bytes)>, next: (S, A) -> S, s: S,
      xs: seq<A>)
    decreases |xs|
  {
    xs == [] || (CodesOne(put, get, s, xs[0]) && Codes(put, get, next, next(s, xs[0]), xs[1..]))
  }

  ghost predicate CodesOne<S, A>(put: (S, A) -> Bytes, get: (S, Bytes) -> Option<(A, Bytes)>, s: S, x: A) {
    forall rest :: get(s, put(s, x) + rest) == Some((x, rest))
  }

  lemma {:induction false} ListBack<S, A>(put: (S, A) -> Bytes, get: (S, Bytes) -> Option<(A, Bytes)>,
      next: (S, A) -> S, s: S, xs: seq<A>, rest: Bytes, acc: seq<A>)
    requires Codes(put, get, next, s, xs)
    ensures GetList(get, next, s, PutList(put, next, s, xs) + rest, |xs|, acc) == Some((acc + xs, rest))
    decreases |xs|
  {
    if xs == [] {
      AddNothing(acc);
      AddNothing(rest);
    } else {
      var s' := next(s, xs[0]);
      var tail := PutList(put, next, s', xs[1..]);
      Assoc(put(s, xs[0]), tail, rest);
      assert get(s, put(s, xs[0]) + (tail + rest)) == Some((xs[0], tail + rest));
      ListBack(put, get, next, s', xs[1..], rest, acc + [xs[0]]);
      Regroup(acc, xs);
    }
  }

  lemma CountedBack<S, A>(put: (S, A) -> Bytes, get: (S, Bytes) -> Option<(A, Bytes)>, next: (S, A) -> S,
      s: S, xs: seq<A>, rest: Bytes)
    requires Codes(put, get, next, s, xs) && |xs| < TWO_64
    ensures GetCounted(get, next, s, (Uvarint(|xs|) + PutList(put, next, s, xs)) + rest) == Some((xs, rest))
  {
    Assoc(Uvarint(|xs|), PutList(put, next, s, xs), rest);
    U64Back(|xs|, PutList(put, next, s, xs) + rest);
    ListBack(put, get, next, s, xs, rest, []);
    AddNothing(xs);
  }

  lemma {:induction false} NamesCode(names: seq<Text>)
    requires AllShort(names)
    ensures Codes(PutName, GetName, AfterName, 0, names)
    decreases |names|
  {
    if names != [] {
      forall rest ensures GetName(0, PutName(0, names[0]) + rest)
        == Some((names[0], rest)) { TextBack(names[0], rest); }
      NamesCode(names[1..]);
    }
  }

  lemma WayBack(w: WayRec, rest: Bytes)
    requires WayFits(w)
    ensures GetWay(w.refOff, PutWay(w.refOff, w) + rest) == Some((w, rest))
  {
    var flags: Bytes := [ToByte(w.fwd), ToByte(w.bwd), ToByte(w.speed)];
    var tail := Uvarint(w.nameIdx) + rest;
    Assoc(Uvarint(w.refCnt), flags + Uvarint(w.nameIdx), rest);
    Assoc(flags, Uvarint(w.nameIdx), rest);
    U64Back(w.refCnt, flags + tail);
    assert (flags + tail)[3..] == tail;
    U64Back(w.nameIdx, rest);
  }

  lemma {:induction false} WaysCode(ways: seq<WayRec>, off: nat)
    requires AllFit(ways) && Contiguous(ways, off)
    ensures Codes(PutWay, GetWay, AfterWay, off, ways)
    decreases |ways|
  {
    if ways != [] {
      WayCodes(ways[0]);
      WaysCode(ways[1..], AfterWay(off, ways[0]));
    }
  }

  lemma WayCodes(w: WayRec)
    requires WayFits(w)
    ensures CodesOne(PutWay, GetWay, w.refOff, w)
  {
    forall rest ensures GetWay(w.refOff, PutWay(w.refOff, w) + rest) == Some((w, rest)) { WayBack(w, rest); }
  }

  lemma {:induction false} DeltasCode(xs: seq<int>, prev: int)
    requires All64(xs)
    ensures Codes(PutDelta, GetDelta, AfterInt, prev, xs)
    decreases |xs|
  {
    if xs != [] {
      forall rest ensures GetDelta(prev, PutDelta(prev, xs[0]) + rest) == Some((xs[0], rest)) {
        I64Back(xs[0] - prev, rest);
        DeltaBack64(prev, xs[0]);
      }
      DeltasCode(xs[1..], xs[0]);
    }
  }

  lemma {:induction false} IdsCode(xs: seq<int>, prev: int)
    requires All64(xs)
    ensures Codes(PutId, GetId, AfterInt, prev, xs)
    decreases |xs|
  {
    if xs != [] {
      forall rest ensures GetId(prev, PutId(prev, xs[0]) + rest) == Some((xs[0], rest)) {
        U64Back(Signed64(xs[0] - prev), rest);
        DeltaBack64(prev, xs[0]);
      }
      IdsCode(xs[1..], xs[0]);
    }
  }

  lemma PairBack(prev: Coord, c: Coord, rest: Bytes)
    requires Int32(c.lat) && Int32(c.lon)
    ensures GetPair(prev, PutPair(prev, c) + rest) == Some((c, rest))
  {
    Assoc(PutI64(c.lat - prev.lat), PutI64(c.lon - prev.lon), rest);
    I64Back(c.lat - prev.lat, PutI64(c.lon - prev.lon) + rest);
    I64Back(c.lon - prev.lon, rest);
    DeltaBack64(prev.lat, c.lat);
    DeltaBack64(prev.lon, c.lon);
  }

  lemma {:induction false} PairsCode(cs: seq<Coord>, prev: Coord)
    requires AllNarrow(cs)
    ensures Codes(PutPair, GetPair, AfterPair, prev, cs)
    decreases |cs|
  {
    if cs != [] {
      PairCodes(prev, cs[0]);
      PairsCode(cs[1..], cs[0]);
    }
  }

  lemma PairCodes(prev: Coord, c: Coord)
    requires Int32(c.lat) && Int32(c.lon)
    ensures CodesOne(PutPair, GetPair, prev, c)
  {
    forall rest ensures GetPair(prev, PutPair(prev, c) + rest) == Some((c, rest)) { PairBack(prev, c, rest); }
  }

  lemma {:induction false} DimsCode(xs: seq<int>)
    requires All32(xs)
    ensures Codes(PutDim, GetDim, AfterDim, 0, xs)
    decreases |xs|
  {
    if xs != [] {
      forall rest ensures GetDim(0, PutDim(0, xs[0]) + rest) == Some((xs[0], rest)) { I64Back(xs[0], rest); }
      DimsCode(xs[1..]);
    }
  }

  lemma {:induction false} BitBack(bits: seq<bool>, j: nat)
    requires j < |bits|
    ensures Bit(Pack(bits), j) == bits[j]
  {
    if j > 0 { BitBack(bits[1..], j - 1); }
  }

  lemma {:induction false} PackFits(bits: seq<bool>)
    ensures |bits| <= 1 ==> Pack(bits) < 2
    ensures |bits| <= 2 ==> Pack(bits) < 4
    ensures |bits| <= 3 ==> Pack(bits) < 8
    ensures |bits| <= 4 ==> Pack(bits) < 16
    ensures |bits| <= 5 ==> Pack(bits) < 32
    ensures |bits| <= 6 ==> Pack(bits) < 64
    ensures |bits| <= 7 ==> Pack(bits) < 128
    ensures |bits| <= 8 ==> Pack(bits) < 256
  {
    if bits != [] { PackFits(bits[1..]); }
  }

  lemma UnpackBack(bits: seq<bool>)
    requires |bits| <= 8
    ensures Unpack(ToByte(Pack(bits)), |bits|) == bits
  {
    PackFits(bits);
    forall j | 0 <= j < |bits| ensures Bit(Pack(bits), j) == bits[j] { BitBack(bits, j); }
  }

  lemma {:induction false} FlagsBack(route: seq<bool>, rest: Bytes, acc: seq<bool>)
    ensures GetFlags(PutFlags(route) + rest, |route|, acc) == Some((acc + route, rest))
    decreases |route|
  {
    if route == [] {
      AddNothing(acc);
      AddNothing(rest);
    } else {
      var k := Least8(|route|);
      var one: Bytes := [ToByte(Pack(route[..k]))];
      Assoc(one, PutFlags(route[k..]), rest);
      assert (one + (PutFlags(route[k..]) + rest))[1..] == PutFlags(route[k..]) + rest;
      UnpackBack(route[..k]);
      FlagsBack(route[k..], rest, acc + route[..k]);
      assert (acc + route[..k]) + route[k..] == acc + route;
    }
  }

  // ---- the image --------------------------------------------------------------------------------------

  lemma HeadBack(s: Source, rest: Bytes)
    requires BoxFits(s.bbox) && Int64(s.replSeq) && |s.replURL| <= MAX_TEXT
    ensures GetHead(PutHead(s) + rest) == Some((Head(s.bbox, s.replSeq, s.replURL), rest))
  {
    var tail := PutI64(s.replSeq) + PutText(s.replURL);
    Assoc(PutList(PutDim, AfterDim, 0, Dims(s.bbox)), tail, rest);
    DimsCode(Dims(s.bbox));
    ListBack(PutDim, GetDim, AfterDim, 0, Dims(s.bbox), tail + rest, []);
    AddNothing(Dims(s.bbox));
    Assoc(PutI64(s.replSeq), PutText(s.replURL), rest);
    I64Back(s.replSeq, PutText(s.replURL) + rest);
    TextBack(s.replURL, rest);
  }

  // What follows each part.

  function After6(s: Source, rest: Bytes): Bytes
    requires |s.lats| == |s.lons|
  {
    PutList(PutPair, AfterPair, Coord(0, 0), PairUp(s.lats, s.lons)) + (PutFlags(s.route) + rest)
  }

  function After3(s: Source, rest: Bytes): Bytes
    requires |s.lats| == |s.lons|
  {
    PutList(PutDelta, AfterInt, 0, s.wayIDs) + ((Uvarint(|s.refs|) + PutList(PutDelta, AfterInt, 0, s.refs))
      + ((Uvarint(|s.ids|) + PutList(PutId, AfterInt, 0, s.ids)) + After6(s, rest)))
  }

  lemma ImageParts(s: Source, rest: Bytes)
    requires |s.lats| == |s.lons|
    ensures Image(s) + rest == PutHead(s) + ((Uvarint(|s.names|) + PutList(PutName, AfterName, 0, s.names))
      + ((Uvarint(|s.ways|) + PutList(PutWay, AfterWay, 0, s.ways)) + After3(s, rest)))
  {
    Assoc8(PutHead(s), Uvarint(|s.names|) + PutList(PutName, AfterName, 0, s.names),
      Uvarint(|s.ways|) + PutList(PutWay, AfterWay, 0, s.ways), PutList(PutDelta, AfterInt, 0, s.wayIDs),
      Uvarint(|s.refs|) + PutList(PutDelta, AfterInt, 0, s.refs), Uvarint(|s.ids|) + PutList(PutId, AfterInt, 0, s.ids),
      PutList(PutPair, AfterPair, Coord(0, 0), PairUp(s.lats, s.lons)), PutFlags(s.route), rest);
  }

  lemma Assoc8(a: Bytes, b: Bytes, c: Bytes, d: Bytes, e: Bytes, f: Bytes, g: Bytes, h: Bytes, rest: Bytes)
    ensures (a + (b + (c + (d + (e + (f + (g + h))))))) + rest == a + (b + (c + (d + (e + (f + (g + (h + rest)))))))
  {
    Assoc(a, b + (c + (d + (e + (f + (g + h))))), rest);
    Assoc(b, c + (d + (e + (f + (g + h)))), rest);
    Assoc(c, d + (e + (f + (g + h))), rest);
    Assoc(d, e + (f + (g + h)), rest);
    Assoc(e, f + (g + h), rest);
    Assoc(f, g + h, rest);
    Assoc(g, h, rest);
  }

  lemma NodesBack(s: Source, rest: Bytes, h: Head)
    requires Storable(s) && h == Head(s.bbox, s.replSeq, s.replURL)
    ensures GetNodes((Uvarint(|s.ids|) + PutList(PutId, AfterInt, 0, s.ids)) + After6(s, rest),
      h, s.names, s.ways, s.wayIDs, s.refs) == Some(s)
  {
    var pairs := PairUp(s.lats, s.lons);
    IdsCode(s.ids, 0);
    CountedBack(PutId, GetId, AfterInt, 0, s.ids, After6(s, rest));
    PairsCode(pairs, Coord(0, 0));
    ListBack(PutPair, GetPair, AfterPair, Coord(0, 0), pairs, PutFlags(s.route) + rest, []);
    AddNothing(pairs);
    FlagsBack(s.route, rest, []);
    AddNothing(s.route);
    assert Lats(pairs) == s.lats && Lons(pairs) == s.lons;
  }

  lemma StreetsBack(s: Source, rest: Bytes, h: Head)
    requires Storable(s) && h == Head(s.bbox, s.replSeq, s.replURL)
    ensures GetStreets((Uvarint(|s.ways|) + PutList(PutWay, AfterWay, 0, s.ways)) + After3(s, rest), h, s.names)
      == Some(s)
  {
    var t5 := (Uvarint(|s.ids|) + PutList(PutId, AfterInt, 0, s.ids)) + After6(s, rest);
    WaysCode(s.ways, 0);
    CountedBack(PutWay, GetWay, AfterWay, 0, s.ways, After3(s, rest));
    DeltasCode(s.wayIDs, 0);
    ListBack(PutDelta, GetDelta, AfterInt, 0, s.wayIDs,
      (Uvarint(|s.refs|) + PutList(PutDelta, AfterInt, 0, s.refs)) + t5, []);
    AddNothing(s.wayIDs);
    DeltasCode(s.refs, 0);
    CountedBack(PutDelta, GetDelta, AfterInt, 0, s.refs, t5);
    NodesBack(s, rest, h);
  }

  /** decode(encode(src)) == src, whatever follows. */
  lemma ImageBack(s: Source, rest: Bytes)
    requires Storable(s)
    ensures GetSource(Image(s) + rest) == Some(s)
  {
    var t2 := (Uvarint(|s.ways|) + PutList(PutWay, AfterWay, 0, s.ways)) + After3(s, rest);
    var t1 := (Uvarint(|s.names|) + PutList(PutName, AfterName, 0, s.names)) + t2;
    ImageParts(s, rest);
    HeadBack(s, t1);
    NamesCode(s.names);
    CountedBack(PutName, GetName, AfterName, 0, s.names, t2);
    StreetsBack(s, rest, Head(s.bbox, s.replSeq, s.replURL));
  }

  /** Two storable sources with the same image are the same source. */
  lemma ImageInjective(s: Source, t: Source)
    requires Storable(s) && Storable(t) && Image(s) == Image(t)
    ensures s == t
  {
    ImageBack(s, []);
    ImageBack(t, []);
  }

  // ---- valid sources are storable -----------------------------------------------------------------------

  lemma {:induction false} RecordsContiguous(ways: seq<WayRec>, nrefs: nat, nnames: nat)
    requires Records(ways, nrefs, nnames) && nrefs < TWO_32
    ensures Contiguous(ways, 0)
    ensures forall i :: 0 <= i < |ways| ==> ways[i].refCnt < TWO_32 && ways[i].nameIdx < nnames
  {
    if ways != [] {
      var n := |ways| - 1;
      RecordsContiguous(ways[..n], ways[n].refOff, nnames);
      ContiguousSnoc(ways[..n], ways[n], 0, ways[n].refOff, nnames);
      assert ways[..n] + [ways[n]] == ways;
    }
  }

  function End(ways: seq<WayRec>, off: nat): nat {
    if ways == [] then off else End(ways[1..], (off + ways[0].refCnt) % TWO_32)
  }

  lemma {:induction false} ContiguousSnoc(ways: seq<WayRec>, w: WayRec, off: nat, nrefs: nat, nnames: nat)
    requires Contiguous(ways, off) && Records(ways, nrefs, nnames) && off == 0 && nrefs < TWO_32 && w.refOff == nrefs
    ensures Contiguous(ways + [w], off)
  {
    EndOfRecords(ways, nrefs, nnames);
    AppendContiguous(ways, w, off);
  }

  lemma {:induction false} AppendContiguous(ways: seq<WayRec>, w: WayRec, off: nat)
    requires Contiguous(ways, off) && w.refOff == End(ways, off)
    ensures Contiguous(ways + [w], off)
    decreases |ways|
  {
    if ways != [] {
      AppendContiguous(ways[1..], w, (off + ways[0].refCnt) % TWO_32);
      assert (ways + [w])[1..] == ways[1..] + [w];
    }
  }

  lemma {:induction false} EndSnoc(ways: seq<WayRec>, w: WayRec, off: nat)
    ensures End(ways + [w], off) == (End(ways, off) + w.refCnt) % TWO_32
    decreases |ways|
  {
    if ways != [] {
      EndSnoc(ways[1..], w, (off + ways[0].refCnt) % TWO_32);
      assert (ways + [w])[1..] == ways[1..] + [w];
    }
  }

  lemma {:induction false} EndOfRecords(ways: seq<WayRec>, nrefs: nat, nnames: nat)
    requires Records(ways, nrefs, nnames) && nrefs < TWO_32
    ensures End(ways, 0) == nrefs
  {
    if ways != [] {
      var n := |ways| - 1;
      EndOfRecords(ways[..n], ways[n].refOff, nnames);
      EndSnoc(ways[..n], ways[n], 0);
      assert ways[..n] + [ways[n]] == ways;
    }
  }

  /** A valid source with fewer than 2^32 references is storable. */
  lemma ValidStorable(s: Source)
    requires s.Valid() && Ranged(s) && |s.refs| < TWO_32
    ensures Storable(s)
  {
    RecordsContiguous(s.ways, |s.refs|, |s.names|);
  }

  // ---- only storable sources are read -----------------------------------------------------------------------

  /** Every entry read takes a byte or more and is as wanted. */
  ghost predicate Yields<S(!new), A>(get: (S, Bytes) -> Option<(A, Bytes)>, ok: A -> bool) {
    forall s: S, b: Bytes :: YieldsAt(get, ok, s, b)
  }

  ghost predicate YieldsAt<S, A>(get: (S, Bytes) -> Option<(A, Bytes)>, ok: A -> bool, s: S, b: Bytes) {
    var r := get(s, b);
    r.Some? ==> |r.value.1| < |b| && ok(r.value.0)
  }

  ghost predicate Each<A>(xs: seq<A>, ok: A -> bool) { forall i :: 0 <= i < |xs| ==> ok(xs[i]) }

  lemma {:induction false} ListYields<S(!new), A>(get: (S, Bytes) -> Option<(A, Bytes)>, next: (S, A) -> S, s: S,
      b: Bytes, n: nat, acc: seq<A>, ok: A -> bool)
    requires Yields(get, ok) && Each(acc, ok)
    ensures var r := GetList(get, next, s, b, n, acc);
      r.Some? ==> Each(r.value.0, ok) && |r.value.0| == |acc| + n && |r.value.1| + n <= |b|
    decreases n
  {
    if n > 0 {
      var x := get(s, b);
      assert YieldsAt(get, ok, s, b);
      if x.Some? { ListYields(get, next, next(s, x.value.0), x.value.1, n - 1, acc + [x.value.0], ok); }
    }
  }

  /** A count, then that many entries: no more than there are bytes. */
  lemma CountedYields<S(!new), A>(get: (S, Bytes) -> Option<(A, Bytes)>, next: (S, A) -> S, s: S, b: Bytes,
      ok: A -> bool)
    requires Yields(get, ok)
    ensures var r := GetCounted(get, next, s, b);
      r.Some? ==> Each(r.value.0, ok) && |r.value.0| < TWO_64 && |r.value.1| + |r.value.0| < |b|
  {
    var n := GetU64(b);
    if n.Some? { ListYields(get, next, s, n.value.1, n.value.0, [], ok); }
  }

  /** What is read of a 64-bit zigzag word is a 64-bit integer. */
  lemma I64Ranged(b: Bytes)
    ensures GetI64(b).Some? ==> Int64(GetI64(b).value.0)
  {
  }

  predicate Short(t: Text) { |t| <= MAX_TEXT }

  predicate AnyCoord(c: Coord) { true }

  lemma ReadersYield()
    ensures Yields(GetName, Short) && Yields(GetWay, WayFits)
    ensures Yields(GetDelta, Int64) && Yields(GetId, Int64) && Yields(GetDim, Int32)
    ensures Yields(GetPair, AnyCoord)
  {
    forall s: nat, b: Bytes ensures YieldsAt(GetName, Short, s, b) {}
    forall s: nat, b: Bytes ensures YieldsAt(GetWay, WayFits, s, b) {}
    forall s: int, b: Bytes ensures YieldsAt(GetDelta, Int64, s, b) {}
    forall s: int, b: Bytes ensures YieldsAt(GetId, Int64, s, b) {}
    forall s: nat, b: Bytes ensures YieldsAt(GetDim, Int32, s, b) {}
    forall s: Coord, b: Bytes ensures YieldsAt(GetPair, AnyCoord, s, b) {}
  }

  /** A record that starts where the ones before end extends them. */
  lemma OneWayMore(acc: seq<WayRec>, w: WayRec)
    requires Contiguous(acc, 0) && w.refOff == End(acc, 0)
    ensures Contiguous(acc + [w], 0) && AfterWay(End(acc, 0), w) == End(acc + [w], 0)
  {
    AppendContiguous(acc, w, 0);
    EndSnoc(acc, w, 0);
  }

  lemma OffsetKept(off: nat, b: Bytes)
    ensures GetWay(off, b).Some? ==> GetWay(off, b).value.0.refOff == off
  {
  }

  /** Every entry read keeps what holds of the state and the entries so far. */
  ghost predicate Keeps<S(!new), A(!new)>(get: (S, Bytes) -> Option<(A, Bytes)>, next: (S, A) -> S,
    inv: (S, seq<A>) -> bool)
  {
    forall s: S, b: Bytes, acc: seq<A> :: KeepsAt(get, next, inv, s, b, acc)
  }

  ghost predicate KeepsAt<S, A>(get: (S, Bytes) -> Option<(A, Bytes)>, next: (S, A) -> S, inv: (S, seq<A>) -> bool,
    s: S, b: Bytes, acc: seq<A>)
  {
    var r := get(s, b);
    inv(s, acc) && r.Some? ==> inv(next(s, r.value.0), acc + [r.value.0])
  }

  lemma {:induction false} ListKeeps<S(!new), A(!new)>(get: (S, Bytes) -> Option<(A, Bytes)>, next: (S, A) -> S, s: S,
      b: Bytes, n: nat, acc: seq<A>, inv: (S, seq<A>) -> bool) returns (s': S)
    requires Keeps(get, next, inv) && inv(s, acc)
    ensures var r := GetList(get, next, s, b, n, acc); r.Some? ==> inv(s', r.value.0)
    decreases n
  {
    s' := s;
    if n > 0 {
      var x := get(s, b);
      assert KeepsAt(get, next, inv, s, b, acc);
      if x.Some? { s' := ListKeeps(get, next, next(s, x.value.0), x.value.1, n - 1, acc + [x.value.0], inv); }
    }
  }

  predicate Joined(off: nat, ways: seq<WayRec>) { Contiguous(ways, 0) && off == End(ways, 0) }

  /** Way records are read with the running reference count as their offset. */
  lemma WaysRead(b: Bytes)
    ensures var r := GetCounted(GetWay, AfterWay, 0, b);
      r.Some? ==>
        Contiguous(r.value.0, 0) && AllFit(r.value.0) && |r.value.0| < TWO_64 && |r.value.1| + |r.value.0| < |b|
  {
    ReadersYield();
    CountedYields(GetWay, AfterWay, 0, b, WayFits);
    forall off: nat, b: Bytes, acc: seq<WayRec> ensures KeepsAt(GetWay, AfterWay, Joined, off, b, acc) {
      OffsetKept(off, b);
      if Joined(off, acc) && GetWay(off, b).Some? { OneWayMore(acc, GetWay(off, b).value.0); }
    }
    if GetU64(b).Some? {
      var off := ListKeeps(GetWay, AfterWay, 0, GetU64(b).value.1, GetU64(b).value.0, [], Joined);
    }
  }

  lemma {:induction false} FlagsCounted(b: Bytes, n: nat, acc: seq<bool>)
    ensures var r := GetFlags(b, n, acc); r.Some? ==> |r.value.0| == |acc| + n
    decreases n
  {
    if n > 0 && b != [] { FlagsCounted(b[1..], n - Least8(n), acc + Unpack(b[0], Least8(n))); }
  }

  lemma HeadRead(b: Bytes)
    ensures GetHead(b).Some? ==> var h := GetHead(b).value.0;
      BoxFits(h.bbox) && Int64(h.replSeq) && |h.replURL| <= MAX_TEXT && |GetHead(b).value.1| <= |b|
  {
    ReadersYield();
    ListYields(GetDim, AfterDim, 0, b, 4, [], Int32);
    var q := GetList(GetDim, AfterDim, 0, b, 4, []);
    if q.Some? { I64Ranged(q.value.1); }
  }

  lemma NodesRead(b: Bytes, h: Head, names: seq<Text>, ways: seq<WayRec>, wayIDs: seq<int>, refs: seq<int>)
    ensures var r := GetNodes(b, h, names, ways, wayIDs, refs); r.Some? ==> var s := r.value;
      && s.ways == ways && s.wayIDs == wayIDs && s.refs == refs && s.names == names
      && s.bbox == h.bbox && s.replSeq == h.replSeq && s.replURL == h.replURL
      && |s.ids| < TWO_64 && |s.ids| <= |b| && All64(s.ids) && All32(s.lats) && All32(s.lons)
      && |s.lats| == |s.lons| == |s.route| == |s.ids|
  {
    ReadersYield();
    CountedYields(GetId, AfterInt, 0, b, Int64);
    var ids := GetCounted(GetId, AfterInt, 0, b);
    if ids.Some? {
      var cs := GetList(GetPair, AfterPair, Coord(0, 0), ids.value.1, |ids.value.0|, []);
      if cs.Some? { FlagsCounted(cs.value.1, |ids.value.0|, []); }
    }
  }

  lemma StreetsRead(b: Bytes, h: Head, names: seq<Text>)
    ensures var r := GetStreets(b, h, names); r.Some? ==> var s := r.value;
      && s.names == names && s.bbox == h.bbox && s.replSeq == h.replSeq && s.replURL == h.replURL
      && AllFit(s.ways) && Contiguous(s.ways, 0) && |s.wayIDs| == |s.ways| && All64(s.wayIDs) && All64(s.refs)
      && |s.ways| < TWO_64 && |s.refs| < TWO_64 && |s.ids| < TWO_64
      && |s.ways| <= |b| && |s.refs| <= |b| && |s.ids| <= |b|
      && All64(s.ids) && All32(s.lats) && All32(s.lons) && |s.lats| == |s.lons| == |s.route| == |s.ids|
  {
    WaysRead(b);
    var ws := GetCounted(GetWay, AfterWay, 0, b);
    if ws.Some? {
      ReadersYield();
      ListYields(GetDelta, AfterInt, 0, ws.value.1, |ws.value.0|, [], Int64);
      var wids := GetList(GetDelta, AfterInt, 0, ws.value.1, |ws.value.0|, []);
      if wids.Some? {
        CountedYields(GetDelta, AfterInt, 0, wids.value.1, Int64);
        var rs := GetCounted(GetDelta, AfterInt, 0, wids.value.1);
        if rs.Some? { NodesRead(rs.value.1, h, names, ws.value.0, wids.value.0, rs.value.0); }
      }
    }
  }

  /** Whatever bytes are read, the source they hold is storable, and no list of it is longer than the bytes. */
  lemma OnlyStorable(b: Bytes)
    ensures GetSource(b).Some? ==> var s := GetSource(b).value;
      Storable(s) && |s.names| <= |b| && |s.ways| <= |b| && |s.refs| <= |b| && |s.ids| <= |b|
  {
    HeadRead(b);
    var h := GetHead(b);
    if h.Some? {
      ReadersYield();
      CountedYields(GetName, AfterName, 0, h.value.1, Short);
      var ns := GetCounted(GetName, AfterName, 0, h.value.1);
      if ns.Some? { StreetsRead(ns.value.1, h.value.0, ns.value.0); }
    }
  }

  /** The image of a source with as many latitudes as longitudes reads back exactly when the source is storable. */
  lemma BackIff(s: Source, rest: Bytes)
    requires |s.lats| == |s.lons|
    ensures GetSource(Image(s) + rest) == Some(s) <==> Storable(s)
  {
    OnlyStorable(Image(s) + rest);
    if Storable(s) { ImageBack(s, rest); }
  }
}
