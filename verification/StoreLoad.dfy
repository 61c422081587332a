/** Loading an image where memory is limited: a list is allocated by its count before it is read, and make() panics on a
    count it cannot meet. */
module StoreLoading {
  import opened Words
  import opened StreetMap
  import opened SourceData
  import opened StoreFormat
  import opened StoreBack

  /** The greatest counts make() accepts for names, way records, references and node ids; what is allocated by the same
      counts later has smaller elements. */
  datatype Room = Room(names: nat, ways: nat, refs: nat, ids: nat) {
    predicate Holds(s: Source) {
      |s.names| <= names && |s.ways| <= ways && |s.refs| <= refs && |s.ids| <= ids
    }

    /** The limit of the k-th count of an image. */
    function Limit(k: nat): nat {
      if k == 0 then names else if k == 1 then ways else if k == 2 then refs else ids
    }
  }

  function OutcomeOf<T>(r: Option<T>): Outcome<T> { if r.Some? then Got(r.value) else Failed }

  /** A count, then that many entries, with room for `most`. */
  function LoadCounted<S, A>(get: (S, Bytes) -> Option<(A, Bytes)>, next: (S, A) -> S, s: S, b: Bytes, most: nat)
    : Outcome<(seq<A>, Bytes)>
  {
    var n := GetU64(b);
    if n.None? then Failed
    else if n.value.0 > most then Panicked
    else OutcomeOf(GetCounted(get, next, s, b))
  }

  function LoadNodes(b: Bytes, room: Room, h: Head, names: seq<Text>, ways: seq<WayRec>, wayIDs: seq<int>,
    refs: seq<int>): Outcome<Source>
  {
    match LoadCounted(GetId, AfterInt, 0, b, room.ids)
    case Failed => Failed
    case Panicked => Panicked
    case Got(_) => OutcomeOf(GetNodes(b, h, names, ways, wayIDs, refs))
  }

  function LoadRefs(b: Bytes, room: Room, h: Head, names: seq<Text>, ways: seq<WayRec>, wayIDs: seq<int>)
    : Outcome<Source>
  {
    match LoadCounted(GetDelta, AfterInt, 0, b, room.refs)
    case Failed => Failed
    case Panicked => Panicked
    case Got(rs) => LoadNodes(rs.1, room, h, names, ways, wayIDs, rs.0)
  }

  function LoadStreets(b: Bytes, room: Room, h: Head, names: seq<Text>): Outcome<Source> {
    match LoadCounted(GetWay, AfterWay, 0, b, room.ways)
    case Failed => Failed
    case Panicked => Panicked
    case Got(ws) =>
      var wids := GetList(GetDelta, AfterInt, 0, ws.1, |ws.0|, []);
      if wids.None? then Failed else LoadRefs(wids.value.1, room, h, names, ws.0, wids.value.0)
  }

  function LoadBody(b: Bytes, room: Room, h: Head): Outcome<Source> {
    match LoadCounted(GetName, AfterName, 0, b, room.names)
    case Failed => Failed
    case Panicked => Panicked
    case Got(ns) => LoadStreets(ns.1, room, h, ns.0)
  }

  /** What loading these bytes comes to. */
  function Load(b: Bytes, room: Room): Outcome<Source> {
    var h := GetHead(b);
    if h.None? then Failed else LoadBody(h.value.1, room, h.value.0)
  }

  // ---- exactly the counts without room --------------------------------------------------------------------------

  /** The first count of these bytes, and what follows the list behind it. */
  function CountAnd<S, A>(get: (S, Bytes) -> Option<(A, Bytes)>, next: (S, A) -> S, s: S, b: Bytes,
    more: (seq<A>, Bytes) -> seq<nat>): seq<nat>
  {
    var n := GetU64(b);
    if n.None? then []
    else
      var xs := GetCounted(get, next, s, b);
      [n.value.0] + if xs.None? then [] else more(xs.value.0, xs.value.1)
  }

  function MetNodes(b: Bytes): seq<nat> { CountAnd(GetId, AfterInt, 0, b, (_, _) => []) }

  function MetRefs(b: Bytes): seq<nat> { CountAnd(GetDelta, AfterInt, 0, b, (_, rest) => MetNodes(rest)) }

  function MetStreets(b: Bytes): seq<nat> {
    CountAnd(GetWay, AfterWay, 0, b, (ways, rest) =>
      var wids := GetList(GetDelta, AfterInt, 0, rest, |ways|, []);
      if wids.None? then [] else MetRefs(wids.value.1))
  }

  function MetBody(b: Bytes): seq<nat> { CountAnd(GetName, AfterName, 0, b, (_, rest) => MetStreets(rest)) }

  /** The counts a reader meets before any error: of names, way records, references and node ids, as far as it gets. */
  function Met(b: Bytes): seq<nat> {
    var h := GetHead(b);
    if h.None? then [] else MetBody(h.value.1)
  }

  /** One of the counts, the k-th and later ones of the image, has no room. */
  ghost predicate Without(room: Room, met: seq<nat>, k: nat) {
    exists i: nat :: i < |met| && met[i] > room.Limit(k + i)
  }

  lemma WithoutNext(room: Room, n: nat, more: seq<nat>, k: nat)
    ensures Without(room, [n] + more, k) <==> n > room.Limit(k) || Without(room, more, k + 1)
  {
    var met := [n] + more;
    if n > room.Limit(k) { assert met[0] > room.Limit(k + 0); }
    if Without(room, more, k + 1) {
      var i: nat :| i < |more| && more[i] > room.Limit(k + 1 + i);
      assert met[i + 1] > room.Limit(k + (i + 1));
    }
    if Without(room, met, k) && n <= room.Limit(k) {
      var i: nat :| i < |met| && met[i] > room.Limit(k + i);
      assert more[i - 1] > room.Limit(k + 1 + (i - 1));
    }
  }

  lemma NodesPanic(b: Bytes, room: Room, h: Head, names: seq<Text>, ways: seq<WayRec>, wayIDs: seq<int>, refs: seq<int>)
    ensures LoadNodes(b, room, h, names, ways, wayIDs, refs).Panicked? <==> Without(room, MetNodes(b), 3)
  {
    var n := GetU64(b);
    if n.Some? {
      WithoutNext(room, n.value.0, [], 3);
      assert MetNodes(b) == [n.value.0] + [];
    }
  }

  lemma RefsPanic(b: Bytes, room: Room, h: Head, names: seq<Text>, ways: seq<WayRec>, wayIDs: seq<int>)
    ensures LoadRefs(b, room, h, names, ways, wayIDs).Panicked? <==> Without(room, MetRefs(b), 2)
  {
    var n := GetU64(b);
    if n.Some? {
      var xs := GetCounted(GetDelta, AfterInt, 0, b);
      WithoutNext(room, n.value.0, if xs.None? then [] else MetNodes(xs.value.1), 2);
      if xs.Some? { NodesPanic(xs.value.1, room, h, names, ways, wayIDs, xs.value.0); }
    }
  }

  lemma StreetsPanic(b: Bytes, room: Room, h: Head, names: seq<Text>)
    ensures LoadStreets(b, room, h, names).Panicked? <==> Without(room, MetStreets(b), 1)
  {
    var n := GetU64(b);
    if n.Some? {
      var xs := GetCounted(GetWay, AfterWay, 0, b);
      if xs.None? {
        WithoutNext(room, n.value.0, [], 1);
      } else {
        var wids := GetList(GetDelta, AfterInt, 0, xs.value.1, |xs.value.0|, []);
        WithoutNext(room, n.value.0, if wids.None? then [] else MetRefs(wids.value.1), 1);
        if wids.Some? { RefsPanic(wids.value.1, room, h, names, xs.value.0, wids.value.0); }
      }
    }
  }

  lemma BodyPanic(b: Bytes, room: Room, h: Head)
    ensures LoadBody(b, room, h).Panicked? <==> Without(room, MetBody(b), 0)
  {
    var n := GetU64(b);
    if n.Some? {
      var xs := GetCounted(GetName, AfterName, 0, b);
      WithoutNext(room, n.value.0, if xs.None? then [] else MetStreets(xs.value.1), 0);
      if xs.Some? { StreetsPanic(xs.value.1, room, h, xs.value.0); }
    }
  }

  /** Loading panics exactly when a count met before any error has no room. */
  lemma LoadPanicsIff(b: Bytes, room: Room)
    ensures Load(b, room).Panicked? <==> Without(room, Met(b), 0)
  {
    var h := GetHead(b);
    if h.Some? { BodyPanic(h.value.1, room, h.value.0); }
  }

  lemma StreetsGet(b: Bytes, room: Room, h: Head, names: seq<Text>)
    ensures LoadStreets(b, room, h, names).Panicked? ||
      LoadStreets(b, room, h, names) == OutcomeOf(GetStreets(b, h, names))
  {
  }

  lemma BodyGet(b: Bytes, room: Room, h: Head)
    ensures LoadBody(b, room, h).Panicked? || LoadBody(b, room, h) == OutcomeOf(GetBody(b, h))
  {
    var ns := GetCounted(GetName, AfterName, 0, b);
    if ns.Some? { StreetsGet(ns.value.1, room, h, ns.value.0); }
  }

  /** Without a panic, loading gives the source the bytes hold, or an error if they hold none. */
  lemma LoadIsGet(b: Bytes, room: Room)
    ensures Load(b, room).Panicked? || Load(b, room) == OutcomeOf(GetSource(b))
  {
    var h := GetHead(b);
    if h.Some? { BodyGet(h.value.1, room, h.value.0); }
  }

  /** Bytes that hold a source are loaded exactly when there is room for its lists. */
  lemma HeldLoads(b: Bytes, room: Room)
    requires GetSource(b).Some?
    ensures Load(b, room) == if room.Holds(GetSource(b).value) then Got(GetSource(b).value) else Panicked
  {
    HeldCounts(b);
    LoadIsGet(b, room);
    LoadPanicsIff(b, room);
    var s := GetSource(b).value;
    WithoutFour(room, |s.names|, |s.ways|, |s.refs|, |s.ids|);
  }

  lemma WithoutFour(room: Room, a: nat, b: nat, c: nat, d: nat)
    ensures Without(room, [a, b, c, d], 0) <==> a > room.names || b > room.ways || c > room.refs || d > room.ids
  {
    WithoutNext(room, d, [], 3);
    WithoutNext(room, c, [d], 2);
    WithoutNext(room, b, [c, d], 1);
    WithoutNext(room, a, [b, c, d], 0);
    assert [d] + [] == [d] && [c] + [d] == [c, d] && [b] + [c, d] == [b, c, d] && [a] + [b, c, d] == [a, b, c, d];
  }

  lemma NodesCounts(b: Bytes, h: Head, names: seq<Text>, ways: seq<WayRec>, wayIDs: seq<int>, refs: seq<int>)
    requires GetNodes(b, h, names, ways, wayIDs, refs).Some?
    ensures MetNodes(b) == [|GetNodes(b, h, names, ways, wayIDs, refs).value.ids|]
  {
  }

  lemma StreetsCounts(b: Bytes, h: Head, names: seq<Text>)
    requires GetStreets(b, h, names).Some?
    ensures var s := GetStreets(b, h, names).value; MetStreets(b) == [|s.ways|, |s.refs|, |s.ids|]
  {
    StreetsRead(b, h, names);
    var ws := GetCounted(GetWay, AfterWay, 0, b);
    var wids := GetList(GetDelta, AfterInt, 0, ws.value.1, |ws.value.0|, []);
    var rs := GetCounted(GetDelta, AfterInt, 0, wids.value.1);
    NodesCounts(rs.value.1, h, names, ws.value.0, wids.value.0, rs.value.0);
    NodesRead(rs.value.1, h, names, ws.value.0, wids.value.0, rs.value.0);
    assert MetRefs(wids.value.1) == [|rs.value.0|] + MetNodes(rs.value.1);
    assert MetStreets(b) == [|ws.value.0|] + MetRefs(wids.value.1);
  }

  lemma BodyCounts(b: Bytes, h: Head)
    requires GetBody(b, h).Some?
    ensures var s := GetBody(b, h).value; MetBody(b) == [|s.names|, |s.ways|, |s.refs|, |s.ids|]
  {
    var ns := GetCounted(GetName, AfterName, 0, b);
    StreetsRead(ns.value.1, h, ns.value.0);
    StreetsCounts(ns.value.1, h, ns.value.0);
    assert MetBody(b) == [|ns.value.0|] + MetStreets(ns.value.1);
  }

  /** The counts met are those of the source's lists. */
  lemma HeldCounts(b: Bytes)
    requires GetSource(b).Some?
    ensures var s := GetSource(b).value; Met(b) == [|s.names|, |s.ways|, |s.refs|, |s.ids|]
  {
    var h := GetHead(b);
    BodyCounts(h.value.1, h.value.0);
  }
}
