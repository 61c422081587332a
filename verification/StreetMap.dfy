/** What an osmChange diff means: street maps as values and the update they undergo. */
module StreetMap {
  import opened Varints

  /** A string as its bytes. */
  type Text = seq<byte>

  /** The latitude that marks a node without a coordinate: the least int32. */
  const MISSING: int := -0x8000_0000

  datatype Coord = Coord(lat: int, lon: int)

  datatype Way = Way(id: int, refs: seq<int>, fwd: nat, bwd: nat, speed: nat, name: Text)

  /** The ways in order, and the coordinate of every node they reference. */
  datatype Streets = Streets(ways: seq<Way>, at: map<int, Coord>)
  {
    predicate Valid() { at.Keys == RefSet(ways) }
  }

  /** An upserted way, already classified: `routable` is the verdict on its tags. */
  datatype WayChange = WayChange(routable: bool, way: Way)

  datatype NodeChange = NodeChange(id: int, to: Coord)

  datatype Change = Change(
    wayUpsert: seq<WayChange>, wayDelete: seq<int>, nodeUpsert: seq<NodeChange>, nodeDelete: seq<int>)

  /** All node references, ways back to back. */
  function AllRefs(ways: seq<Way>): seq<int> {
    if ways == [] then [] else AllRefs(ways[..|ways| - 1]) + ways[|ways| - 1].refs
  }

  function RefSet(ways: seq<Way>): set<int> { set x | x in AllRefs(ways) }

  function UpsertIds(ups: seq<WayChange>): (r: set<int>)
    ensures forall x :: x in r <==> exists i :: 0 <= i < |ups| && ups[i].way.id == x
  {
    set i | 0 <= i < |ups| :: ups[i].way.id
  }

  function Gone(ch: Change): set<int> { (set x | x in ch.wayDelete) + UpsertIds(ch.wayUpsert) }

  function Survivors(ways: seq<Way>, gone: set<int>): seq<Way> {
    if ways == [] then []
    else
      var w := ways[|ways| - 1];
      Survivors(ways[..|ways| - 1], gone) + if w.id in gone then [] else [w]
  }

  predicate Kept(u: WayChange) { u.routable && |u.way.refs| >= 2 }

  function Routable(ups: seq<WayChange>): seq<Way> {
    if ups == [] then []
    else
      var u := ups[|ups| - 1];
      Routable(ups[..|ups| - 1]) + if Kept(u) then [u.way] else []
  }

  /** Where the upserts, in order, leave node id. */
  function Moved(base: Coord, ups: seq<NodeChange>, id: int): Coord {
    if ups == [] then base
    else if ups[|ups| - 1].id == id then ups[|ups| - 1].to
    else Moved(base, ups[..|ups| - 1], id)
  }

  function OldCoord(at: map<int, Coord>, id: int): Coord {
    if id in at then at[id] else Coord(MISSING, 0)
  }

  function NewCoord(at: map<int, Coord>, ch: Change, id: int): Coord {
    var c := Moved(OldCoord(at, id), ch.nodeUpsert, id);
    if id in ch.nodeDelete then c.(lat := MISSING) else c
  }

  function NewWays(ways: seq<Way>, ch: Change): seq<Way> {
    Survivors(ways, Gone(ch)) + Routable(ch.wayUpsert)
  }

  /** The update: survivors, then the upserted ways that are still routable; coordinates of exactly the live nodes. */
  function Apply(m: Streets, ch: Change): (r: Streets)
    ensures r.Valid()
  {
    var ways := NewWays(m.ways, ch);
    Streets(ways, map id | id in RefSet(ways) :: NewCoord(m.at, ch, id))
  }

  function ApplyAll(m: Streets, chs: seq<Change>): (r: Streets)
    ensures m.Valid() ==> r.Valid()
  {
    if chs == [] then m else Apply(ApplyAll(m, chs[..|chs| - 1]), chs[|chs| - 1])
  }

  // ---- what the update promises ---------------------------------------------------------------

  lemma {:induction false} SurvivorsAre(ways: seq<Way>, gone: set<int>, w: Way)
    ensures w in Survivors(ways, gone) <==> w in ways && w.id !in gone
  {
    if ways != [] {
      SurvivorsAre(ways[..|ways| - 1], gone, w);
      assert ways == ways[..|ways| - 1] + [ways[|ways| - 1]];
    }
  }

  lemma {:induction false} RoutableAre(ups: seq<WayChange>, w: Way)
    ensures w in Routable(ups) <==> exists i :: 0 <= i < |ups| && Kept(ups[i]) && ups[i].way == w
  {
    if ups != [] {
      var init := ups[..|ups| - 1];
      RoutableAre(init, w);
      if i :| 0 <= i < |init| && Kept(init[i]) && init[i].way == w { assert ups[i] == init[i]; }
      if i :| 0 <= i < |ups| && Kept(ups[i]) && ups[i].way == w {
        if i < |init| { assert init[i] == ups[i]; }
      }
    }
  }

  /** A way is in the new map iff it is a routable upsert, or an old way neither deleted nor upserted. */
  lemma WaysAfter(m: Streets, ch: Change, w: Way)
    ensures w in Apply(m, ch).ways <==>
      (exists i :: 0 <= i < |ch.wayUpsert| && Kept(ch.wayUpsert[i]) && ch.wayUpsert[i].way == w)
      || (w in m.ways && w.id !in ch.wayDelete && forall i :: 0 <= i < |ch.wayUpsert| ==>
        ch.wayUpsert[i].way.id != w.id)
  {
    SurvivorsAre(m.ways, Gone(ch), w);
    RoutableAre(ch.wayUpsert, w);
  }

  predicate LastMove(ups: seq<NodeChange>, i: int, id: int) {
    0 <= i < |ups| && ups[i].id == id && forall j :: i < j < |ups| ==> ups[j].id != id
  }

  lemma {:induction false} MovedIs(base: Coord, ups: seq<NodeChange>, id: int)
    ensures (forall i :: 0 <= i < |ups| ==> ups[i].id != id) ==> Moved(base, ups, id) == base
    ensures forall i :: LastMove(ups, i, id) ==> Moved(base, ups, id) == ups[i].to
  {
    if ups != [] {
      var init := ups[..|ups| - 1];
      MovedIs(base, init, id);
      forall i | LastMove(ups, i, id)
        ensures Moved(base, ups, id) == ups[i].to
      {
        if i < |init| { assert LastMove(init, i, id); }
      }
      if forall i :: 0 <= i < |ups| ==> ups[i].id != id {
        assert forall i :: 0 <= i < |init| ==> init[i].id != id;
      }
    }
  }

  /** A live node: missing if deleted, else its last upsert, else its old coordinate, else missing. */
  lemma NodesAfter(m: Streets, ch: Change, id: int)
    requires id in RefSet(Apply(m, ch).ways)
    ensures id in ch.nodeDelete ==> Apply(m, ch).at[id].lat == MISSING
    ensures id !in ch.nodeDelete ==>
      forall i :: LastMove(ch.nodeUpsert, i, id) ==> Apply(m, ch).at[id] == ch.nodeUpsert[i].to
    ensures id !in ch.nodeDelete && (forall i :: 0 <= i < |ch.nodeUpsert| ==> ch.nodeUpsert[i].id != id)
      ==> Apply(m, ch).at[id] == OldCoord(m.at, id)
  {
    MovedIs(OldCoord(m.at, id), ch.nodeUpsert, id);
  }

  lemma {:induction false} SurvivorsAppend(a: seq<Way>, b: seq<Way>, gone: set<int>)
    ensures Survivors(a + b, gone) == Survivors(a, gone) + Survivors(b, gone)
    decreases |b|
  {
    if b == [] {
      assert a + b == a;
    } else {
      var init := b[..|b| - 1];
      SurvivorsAppend(a, init, gone);
      assert (a + b)[..|a + b| - 1] == a + init;
    }
  }

  lemma {:induction false} SurvivorsTwice(ways: seq<Way>, gone: set<int>)
    ensures Survivors(Survivors(ways, gone), gone) == Survivors(ways, gone)
  {
    if ways != [] {
      var init, w := ways[..|ways| - 1], ways[|ways| - 1];
      SurvivorsTwice(init, gone);
      var one := if w.id in gone then [] else [w];
      SurvivorsAppend(Survivors(init, gone), one, gone);
      if w.id !in gone {
        assert Survivors([w][..0], gone) == [];
      }
    }
  }

  lemma {:induction false} RoutableReplaced(ups: seq<WayChange>, gone: set<int>)
    requires UpsertIds(ups) <= gone
    ensures Survivors(Routable(ups), gone) == []
  {
    if ups != [] {
      var init, u := ups[..|ups| - 1], ups[|ups| - 1];
      forall x | x in UpsertIds(init) ensures x in gone {
        var i :| 0 <= i < |init| && init[i].way.id == x;
        assert ups[i].way.id == x;
      }
      RoutableReplaced(init, gone);
      assert u.way.id in UpsertIds(ups);
      var one := if Kept(u) then [u.way] else [];
      SurvivorsAppend(Routable(init), one, gone);
      if Kept(u) { assert Survivors([u.way][..0], gone) == []; }
    }
  }

  lemma WaysTwice(ways: seq<Way>, ch: Change)
    ensures NewWays(NewWays(ways, ch), ch) == NewWays(ways, ch)
  {
    var gone := Gone(ch);
    var kept, added := Survivors(ways, gone), Routable(ch.wayUpsert);
    SurvivorsAppend(kept, added, gone);
    SurvivorsTwice(ways, gone);
    RoutableReplaced(ch.wayUpsert, gone);
    AddNone(kept);
  }

  lemma AddNone(ways: seq<Way>)
    ensures ways + [] == ways
  {
  }

  lemma {:induction false} MovedSame(a: Coord, b: Coord, ups: seq<NodeChange>, id: int)
    ensures Moved(a, ups, id) == Moved(b, ups, id) || (Moved(a, ups, id) == a && Moved(b, ups, id) == b)
  {
    if ups != [] && ups[|ups| - 1].id != id {
      MovedSame(a, b, ups[..|ups| - 1], id);
    }
  }

  /** Replaying a diff that was already applied changes nothing. */
  lemma ReplayHarmless(m: Streets, ch: Change)
    ensures Apply(Apply(m, ch), ch) == Apply(m, ch)
  {
    var once := Apply(m, ch);
    WaysTwice(m.ways, ch);
    forall id | id in RefSet(once.ways)
      ensures NewCoord(once.at, ch, id) == NewCoord(m.at, ch, id)
    {
      MovedSame(OldCoord(m.at, id), OldCoord(once.at, id), ch.nodeUpsert, id);
    }
    assert Apply(once, ch).at == once.at;
  }

  /** The empty diff changes nothing. */
  lemma NothingChanges(m: Streets)
    requires m.Valid()
    ensures Apply(m, Change([], [], [], [])) == m
  {
    var ch := Change([], [], [], []);
    KeepAll(m.ways, Gone(ch));
    assert NewWays(m.ways, ch) == m.ways;
    assert Apply(m, ch).at == m.at;
  }

  lemma {:induction false} KeepAll(ways: seq<Way>, gone: set<int>)
    requires gone == {}
    ensures Survivors(ways, gone) == ways
  {
    if ways != [] {
      KeepAll(ways[..|ways| - 1], gone);
      assert ways == ways[..|ways| - 1] + [ways[|ways| - 1]];
    }
  }

  /** A list of diffs is applied one after another, so it may be cut anywhere. */
  lemma {:induction false} ApplyInParts(m: Streets, a: seq<Change>, b: seq<Change>)
    ensures ApplyAll(m, a + b) == ApplyAll(ApplyAll(m, a), b)
    decreases |b|
  {
    if b == [] {
      assert a + b == a;
    } else {
      ApplyInParts(m, a, b[..|b| - 1]);
      assert (a + b)[..|a + b| - 1] == a + b[..|b| - 1];
    }
  }

  /** Deletion loses to an upsert of the same way in the same diff, and wins over an upsert of the same node. */
  lemma DeleteAndUpsert(m: Streets, w: Way, c: Coord)
    requires |w.refs| >= 2
    ensures
      var ch := Change([WayChange(true, w)], [w.id], [NodeChange(w.refs[0], c)], [w.refs[0]]);
      var r := Apply(m, ch);
      w in r.ways && w.refs[0] in r.at && r.at[w.refs[0]].lat == MISSING
  {
    var ch := Change([WayChange(true, w)], [w.id], [NodeChange(w.refs[0], c)], [w.refs[0]]);
    assert ch.wayUpsert[..0] == [];
    assert Kept(ch.wayUpsert[0]) && ch.wayUpsert[0].way == w;
    WaysAfter(m, ch, w);
    InRefs(Apply(m, ch).ways, w, w.refs[0]);
  }

  lemma {:induction false} InRefs(ways: seq<Way>, w: Way, id: int)
    requires w in ways && id in w.refs
    ensures id in RefSet(ways)
  {
    var init, last := ways[..|ways| - 1], ways[|ways| - 1];
    assert ways == init + [last];
    if w in init { InRefs(init, w, id); }
  }
}
