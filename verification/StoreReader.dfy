/** Reading the source image: a reader that keeps its first error, and loops that go on regardless. */
module StoreReader {
  import opened Words
  import opened Varints
  import opened Seqs
  import opened StreetMap
  import opened SourceData
  import opened SourceUpdate
  import opened StoreFormat
  import opened StoreBack
  import opened StoreCodec
  import opened StoreLoading

  /** What a step read: nothing if it met an error, now or before. */
  ghost predicate Took<T>(want: Option<(T, Bytes)>, v: T, left: Option<Bytes>) {
    if want.None? then left.None? else left == Some(want.value.1) && v == want.value.0
  }

  class Reader {
    const b: Bytes
    var i: nat
    var err: bool

    ghost predicate Valid()
      reads this
    {
      i <= |b|
    }

    /** The bytes still ahead, unless an error was met. */
    ghost function Left(): Option<Bytes>
      requires Valid()
      reads this
    {
      if err then None else Some(b[i..])
    }

    constructor (b: Bytes)
      ensures Valid() && Left() == Some(b)
    {
      this.b, i, err := b, 0, false;
    }

    method Byte() returns (v: nat)
      requires Valid()
      modifies this
      ensures Valid()
      ensures Took(if old(Left()).None? then None else GetByte(old(Left()).value), v, Left())
    {
      if err { return 0; }
      if i == |b| {
        err := true;
        return 0;
      }
      v := b[i];
      assert b[i..][0] == b[i] && b[i..][1..] == b[i + 1..];
      i := i + 1;
    }

    method U64() returns (v: nat)
      requires Valid()
      modifies this
      ensures Valid()
      ensures Took(if old(Left()).None? then None else GetU64(old(Left()).value), v, Left()) && (err ==> v == 0)
    {
      if err { return 0; }
      var r := Read64(b[i..]);
      if r.None? {
        err := true;
        return 0;
      }
      assert b[i..][r.value.1..] == b[i + r.value.1..];
      v, i := r.value.0, i + r.value.1;
    }

    method I64() returns (v: int)
      requires Valid()
      modifies this
      ensures Valid()
      ensures Took(if old(Left()).None? then None else GetI64(old(Left()).value), v, Left())
    {
      var u := U64();
      v := UnZigZag(u);
    }

    method Str() returns (t: Text)
      requires Valid()
      modifies this
      ensures Valid()
      ensures Took(if old(Left()).None? then None else GetText(old(Left()).value), t, Left())
    {
      var n := U64();
      if err { return []; }
      if n == 0 {
        assert b[i..][..0] == [] && b[i..][0..] == b[i..];
        return [];
      }
      if n > MAX_TEXT || i + n > |b| {
        err := true;
        return [];
      }
      t := b[i..i + n];
      assert b[i..][..n] == t && b[i..][n..] == b[i + n..];
      i := i + n;
    }
  }

  // ---- reading lists --------------------------------------------------------------------------------

  ghost function ListOn<S, A>(get: (S, Bytes) -> Option<(A, Bytes)>, next: (S, A) -> S, s: S, left: Option<Bytes>,
      n: nat, acc: seq<A>): Option<(seq<A>, Bytes)> {
    if left.None? then None else GetList(get, next, s, left.value, n, acc)
  }

  /** One entry taken, or none: the list read so far still leads to the same result. */
  lemma OneMore<S, A>(get: (S, Bytes) -> Option<(A, Bytes)>, next: (S, A) -> S, s: S, before: Option<Bytes>, n: nat,
      acc: seq<A>, x: A, after: Option<Bytes>)
    requires n > 0 && Took(if before.None? then None else get(s, before.value), x, after)
    ensures ListOn(get, next, s, before, n, acc) == ListOn(get, next, next(s, x), after, n - 1, acc + [x])
  {
  }

  lemma AllRead<S, A>(get: (S, Bytes) -> Option<(A, Bytes)>, next: (S, A) -> S, s: S, left: Option<Bytes>, acc: seq<A>)
    ensures Took(ListOn(get, next, s, left, 0, acc), acc, left)
  {
  }

  method ReadNames(r: Reader, n: nat) returns (names: seq<Text>)
    requires r.Valid()
    modifies r
    ensures r.Valid() && Took(ListOn(GetName, AfterName, 0, old(r.Left()), n, []), names, r.Left())
  {
    names := [];
    for i := 0 to n
      invariant r.Valid()
      invariant ListOn(GetName, AfterName, 0, r.Left(), n - i, names)
        == ListOn(GetName, AfterName, 0, old(r.Left()), n, [])
    {
      ghost var before := r.Left();
      var t := r.Str();
      OneMore(GetName, AfterName, 0, before, n - i, names, t, r.Left());
      names := names + [t];
    }
    AllRead(GetName, AfterName, 0, r.Left(), names);
  }

  method ReadWay(r: Reader, off: nat) returns (w: WayRec)
    requires r.Valid()
    modifies r
    ensures r.Valid() && Took(if old(r.Left()).None? then None else GetWay(off, old(r.Left()).value), w, r.Left())
    ensures w.refOff == off
  {
    var cnt := r.U64();
    ghost var at := r.Left();
    var fwd := r.Byte();
    var bwd := r.Byte();
    var speed := r.Byte();
    if at.Some? { ThreeBytes(at.value); }
    var ni := r.U64();
    w := WayRec(off, cnt % TWO_32, fwd, bwd, speed, ni % TWO_32);
  }

  lemma ThreeBytes(b: Bytes)
    ensures |b| >= 3 ==> b[1..][0] == b[1] && b[1..][1..][0] == b[2] && b[1..][1..][1..] == b[3..]
    ensures |b| == 1 ==> b[1..] == []
    ensures |b| == 2 ==> b[1..][1..] == []
  {
  }

  method ReadWays(r: Reader, n: nat) returns (ways: seq<WayRec>)
    requires r.Valid()
    modifies r
    ensures r.Valid() && Took(ListOn(GetWay, AfterWay, 0, old(r.Left()), n, []), ways, r.Left())
  {
    ways := [];
    var refOff: nat := 0;
    for i := 0 to n
      invariant r.Valid()
      invariant ListOn(GetWay, AfterWay, refOff, r.Left(), n - i, ways)
        == ListOn(GetWay, AfterWay, 0, old(r.Left()), n, [])
    {
      ghost var before := r.Left();
      var w := ReadWay(r, refOff);
      OneMore(GetWay, AfterWay, refOff, before, n - i, ways, w, r.Left());
      refOff := (refOff + w.refCnt) % TWO_32;
      ways := ways + [w];
    }
    AllRead(GetWay, AfterWay, refOff, r.Left(), ways);
  }

  method ReadDeltas(r: Reader, n: nat) returns (xs: seq<int>)
    requires r.Valid()
    modifies r
    ensures r.Valid() && Took(ListOn(GetDelta, AfterInt, 0, old(r.Left()), n, []), xs, r.Left())
  {
    xs := [];
    var prev := 0;
    for i := 0 to n
      invariant r.Valid()
      invariant ListOn(GetDelta, AfterInt, prev, r.Left(), n - i, xs)
        == ListOn(GetDelta, AfterInt, 0, old(r.Left()), n, [])
    {
      ghost var before := r.Left();
      var d := r.I64();
      var x := Wrap64(prev + d);
      OneMore(GetDelta, AfterInt, prev, before, n - i, xs, x, r.Left());
      prev, xs := x, xs + [x];
    }
    AllRead(GetDelta, AfterInt, prev, r.Left(), xs);
  }

  method ReadIds(r: Reader, n: nat) returns (xs: seq<int>)
    requires r.Valid()
    modifies r
    ensures r.Valid() && Took(ListOn(GetId, AfterInt, 0, old(r.Left()), n, []), xs, r.Left())
  {
    xs := [];
    var prev := 0;
    for i := 0 to n
      invariant r.Valid()
      invariant ListOn(GetId, AfterInt, prev, r.Left(), n - i, xs) == ListOn(GetId, AfterInt, 0, old(r.Left()), n, [])
    {
      ghost var before := r.Left();
      var d := r.U64();
      var x := Wrap64(prev + ToI64(d));
      OneMore(GetId, AfterInt, prev, before, n - i, xs, x, r.Left());
      prev, xs := x, xs + [x];
    }
    AllRead(GetId, AfterInt, prev, r.Left(), xs);
  }

  method ReadPair(r: Reader, pla: int, plo: int) returns (lat: int, lon: int)
    requires r.Valid()
    modifies r
    ensures r.Valid()
    ensures Took(if old(r.Left()).None? then None
      else GetPair(Coord(pla, plo), old(r.Left()).value), Coord(lat, lon), r.Left())
  {
    var a := r.I64();
    var o := r.I64();
    lat, lon := Wrap64(pla + a), Wrap64(plo + o);
  }

  lemma OnePlace(cs: seq<Coord>, c: Coord)
    ensures Lats(cs + [c]) == Lats(cs) + [Wrap32(c.lat)] && Lons(cs + [c]) == Lons(cs) + [Wrap32(c.lon)]
  {
  }

  method ReadPairs(r: Reader, n: nat) returns (lats: seq<int>, lons: seq<int>, ghost cs: seq<Coord>)
    requires r.Valid()
    modifies r
    ensures r.Valid() && Took(ListOn(GetPair, AfterPair, Coord(0, 0), old(r.Left()), n, []), cs, r.Left())
    ensures lats == Lats(cs) && lons == Lons(cs)
  {
    lats, lons, cs := [], [], [];
    var pla, plo := 0, 0;
    for i := 0 to n
      invariant r.Valid() && lats == Lats(cs) && lons == Lons(cs)
      invariant PairsOn(pla, plo, r.Left(), n - i, cs) == PairsOn(0, 0, old(r.Left()), n, [])
    {
      ghost var before, prev := r.Left(), Coord(pla, plo);
      pla, plo := ReadPair(r, pla, plo);
      OneMore(GetPair, AfterPair, prev, before, n - i, cs, Coord(pla, plo), r.Left());
      OnePlace(cs, Coord(pla, plo));
      lats, lons := lats + [Wrap32(pla)], lons + [Wrap32(plo)];
      cs := cs + [Coord(pla, plo)];
    }
    AllRead(GetPair, AfterPair, Coord(pla, plo), r.Left(), cs);
  }

  ghost function PairsOn(pla: int, plo: int, left: Option<Bytes>, n: nat, acc: seq<Coord>): Option<(seq<Coord>,
      Bytes)> {
    ListOn(GetPair, AfterPair, Coord(pla, plo), left, n, acc)
  }

  ghost function FlagsOn(left: Option<Bytes>, n: nat, acc: seq<bool>): Option<(seq<bool>, Bytes)> {
    if left.None? then None else GetFlags(left.value, n, acc)
  }

  lemma OneByteMore(before: Option<Bytes>, n: nat, acc: seq<bool>, v: nat, after: Option<Bytes>)
    requires n > 0 && Took(if before.None? then None else GetByte(before.value), v, after)
    ensures FlagsOn(before, n, acc) == FlagsOn(after, n - Least8(n), acc + Unpack(v, Least8(n)))
  {
  }

  method ReadFlags(r: Reader, n: nat) returns (route: seq<bool>)
    requires r.Valid()
    modifies r
    ensures r.Valid() && Took(FlagsOn(old(r.Left()), n, []), route, r.Left())
  {
    route := [];
    var i := 0;
    while i < n
      invariant i <= n && r.Valid()
      invariant FlagsOn(r.Left(), n - i, route) == FlagsOn(old(r.Left()), n, [])
    {
      ghost var before := r.Left();
      var v := r.Byte();
      OneByteMore(before, n - i, route, v, r.Left());
      var k := Least8(n - i);
      route := route + Unpack(v, k);
      i := i + k;
    }
  }

  // ---- reading the image ------------------------------------------------------------------------------

  method ReadInts(r: Reader, n: nat) returns (xs: seq<int>)
    requires r.Valid()
    modifies r
    ensures r.Valid() && |xs| == n && Took(ListOn(GetDim, AfterDim, 0, old(r.Left()), n, []), xs, r.Left())
  {
    xs := [];
    for i := 0 to n
      invariant r.Valid() && |xs| == i
      invariant ListOn(GetDim, AfterDim, 0, r.Left(), n - i, xs) == ListOn(GetDim, AfterDim, 0, old(r.Left()), n, [])
    {
      ghost var before := r.Left();
      var v := r.I64();
      OneMore(GetDim, AfterDim, 0, before, n - i, xs, Wrap32(v), r.Left());
      xs := xs + [Wrap32(v)];
    }
    AllRead(GetDim, AfterDim, 0, r.Left(), xs);
  }

  method ReadHead(r: Reader) returns (h: Head)
    requires r.Valid()
    modifies r
    ensures r.Valid() && Took(if old(r.Left()).None? then None else GetHead(old(r.Left()).value), h, r.Left())
  {
    var d := ReadInts(r, 4);
    var q := r.I64();
    var u := r.Str();
    h := Head(BBox(d[0], d[1], d[2], d[3]), q, u);
  }

  /** How a list with a count came out: a panic, an error met now or before, or the list. */
  ghost predicate Counted<A>(want: Outcome<(seq<A>, Bytes)>, panic: bool, xs: seq<A>, left: Option<Bytes>) {
    && (panic <==> want.Panicked?)
    && (!panic ==> if want.Failed? then left.None? else left == Some(want.value.1) && xs == want.value.0)
  }

  /** So for the rest of the source. */
  ghost predicate Loaded(want: Outcome<Source>, panic: bool, s: Source, left: Option<Bytes>) {
    && (panic <==> want.Panicked?)
    && (!panic ==> if want.Failed? then left.None? else left.Some? && s == want.value)
  }

  ghost function CountedOn<S, A>(get: (S, Bytes) -> Option<(A, Bytes)>, next: (S, A) -> S, s: S, left: Option<Bytes>,
      most: nat): Outcome<(seq<A>, Bytes)> {
    if left.None? then Failed else LoadCounted(get, next, s, left.value, most)
  }

  method ReadNameList(r: Reader, most: nat) returns (panic: bool, names: seq<Text>)
    requires r.Valid()
    modifies r
    ensures r.Valid() && Counted(CountedOn(GetName, AfterName, 0, old(r.Left()), most), panic, names, r.Left())
  {
    var n := r.U64();
    if n > most { return true, []; }
    names := ReadNames(r, n);
    panic := false;
  }

  method ReadWayList(r: Reader, most: nat) returns (panic: bool, ways: seq<WayRec>)
    requires r.Valid()
    modifies r
    ensures r.Valid() && Counted(CountedOn(GetWay, AfterWay, 0, old(r.Left()), most), panic, ways, r.Left())
  {
    var n := r.U64();
    if n > most { return true, []; }
    ways := ReadWays(r, n);
    panic := false;
  }

  method ReadRefList(r: Reader, most: nat) returns (panic: bool, refs: seq<int>)
    requires r.Valid()
    modifies r
    ensures r.Valid() && Counted(CountedOn(GetDelta, AfterInt, 0, old(r.Left()), most), panic, refs, r.Left())
  {
    var n := r.U64();
    if n > most { return true, []; }
    refs := ReadDeltas(r, n);
    panic := false;
  }

  method ReadIdList(r: Reader, most: nat) returns (panic: bool, ids: seq<int>)
    requires r.Valid()
    modifies r
    ensures r.Valid() && Counted(CountedOn(GetId, AfterInt, 0, old(r.Left()), most), panic, ids, r.Left())
  {
    var n := r.U64();
    if n > most { return true, []; }
    ids := ReadIds(r, n);
    panic := false;
  }

  const NO_SOURCE: Source := Source([], [], [], [], [], [], [], [], BBox(0, 0, 0, 0), 0, [])

  method ReadNodes(r: Reader, room: Room, h: Head, names: seq<Text>, ways: seq<WayRec>, wayIDs: seq<int>,
      refs: seq<int>)
      returns (panic: bool, s: Source)
    requires r.Valid()
    modifies r
    ensures r.Valid()
    ensures Loaded(if old(r.Left()).None? then Failed
      else LoadNodes(old(r.Left()).value, room, h, names, ways, wayIDs, refs), panic, s, r.Left())
  {
    var ids;
    panic, ids := ReadIdList(r, room.ids);
    if panic { return true, NO_SOURCE; }
    var lats, lons, cs := ReadPairs(r, |ids|);
    var route := ReadFlags(r, |ids|);
    s := Source(ways, wayIDs, refs, names, ids, lats, lons, route, h.bbox, h.replSeq, h.replURL);
  }

  method ReadStreets(r: Reader, room: Room, h: Head, names: seq<Text>) returns (panic: bool, s: Source)
    requires r.Valid()
    modifies r
    ensures r.Valid()
    ensures Loaded(if old(r.Left()).None? then Failed else LoadStreets(old(r.Left()).value, room, h, names),
      panic, s, r.Left())
  {
    var ways, refs;
    panic, ways := ReadWayList(r, room.ways);
    if panic { return true, NO_SOURCE; }
    var wayIDs := ReadDeltas(r, |ways|);
    panic, refs := ReadRefList(r, room.refs);
    if panic { return true, NO_SOURCE; }
    panic, s := ReadNodes(r, room, h, names, ways, wayIDs, refs);
  }

  method ReadBody(r: Reader, room: Room, h: Head) returns (panic: bool, s: Source)
    requires r.Valid()
    modifies r
    ensures r.Valid()
    ensures Loaded(if old(r.Left()).None? then Failed else LoadBody(old(r.Left()).value, room, h), panic, s, r.Left())
  {
    var names;
    panic, names := ReadNameList(r, room.names);
    if panic { return true, NO_SOURCE; }
    panic, s := ReadStreets(r, room, h, names);
  }

  /** SrcData.decode, for any bytes: a panic where a count met before any error has no room, and otherwise the source
      they hold, or an error. */
  method ReadStore(b: Bytes, room: Room) returns (r: Outcome<Source>)
    ensures r.Panicked? <==> Without(room, Met(b), 0)
    ensures !r.Panicked? ==> r == OutcomeOf(GetSource(b))
  {
    var reader := new Reader(b);
    var h := ReadHead(reader);
    var panic, data := ReadBody(reader, room, h);
    LoadPanicsIff(b, room);
    LoadIsGet(b, room);
    r := if panic then Panicked else if reader.err then Failed else Got(data);
  }

  /** Saving, reloading and then applying diffs gives the map that applying them directly gives; reloading panics only
      without room for the lists that were saved. */
  method RestartAndUpdate(src: SrcData, disk: nat, room: Room, chs: seq<Change>)
      returns (ok: bool, panic: bool, resumed: SrcData, direct: SrcData)
    requires src.Valid() && Ranged(src.Value()) && |src.refs| < TWO_32
    ensures ok <==> |Image(src.Value())| <= disk
    ensures panic <==> ok && !room.Holds(old(src.Value()))
    ensures direct.Valid() && direct.Value().Map() == ApplyAll(src.Value().Map(), chs)
    ensures ok && !panic ==> resumed.Valid() && resumed.Value().Map() == direct.Value().Map()
  {
    ValidStorable(src.Value());
    direct := src.ApplyChanges(chs);
    resumed, panic := src, false;
    var image;
    image, ok := WriteStore(src.Value(), disk);
    if ok {
      ImageBack(src.Value(), []);
      AddNothing(image);
      HeldLoads(image, room);
      LoadPanicsIff(image, room);
      var back := ReadStore(image, room);
      if back.Panicked? { return true, true, src, direct; }
      var copy := new SrcData.From(back.value);
      resumed := copy.ApplyChanges(chs);
    }
  }
}
