/** The source object: its node index is rebuilt and diffs are folded in by loops over its lists. */
module SourceUpdate {
  import opened Sorting
  import opened StreetMap
  import opened SourceData

  /** What the name lookup table knows: nothing yet, or every name's position. */
  predicate NameTable(names: seq<Text>, nameIdx: map<Text, nat>) {
    && (forall n :: n in nameIdx ==> nameIdx[n] < |names| && names[nameIdx[n]] == n)
    && (nameIdx == map[] || forall i :: 0 <= i < |names| ==> names[i] in nameIdx)
  }

  predicate NoRepeats(names: seq<Text>) { forall i, j :: 0 <= i < j < |names| ==> names[i] != names[j] }

  /** Node k has this coordinate. */
  predicate NodeAt(lats: seq<int>, lons: seq<int>, k: nat, c: Coord)
    requires |lats| == |lons| && k < |lats|
  {
    lats[k] == c.lat && lons[k] == c.lon
  }

  class SrcData {
    var ways: seq<WayRec>
    var wayIDs: seq<int>
    var refs: seq<int>
    var names: seq<Text>
    var ids: seq<int>
    var lats: seq<int>
    var lons: seq<int>
    var route: seq<bool>
    var bbox: BBox
    var replSeq: int
    var replURL: Text

    function Value(): Source
      reads this
    {
      Source(ways, wayIDs, refs, names, ids, lats, lons, route, bbox, replSeq, replURL)
    }

    ghost predicate Valid()
      reads this
    {
      Value().Valid()
    }

    /** The lists of ways alone are in order. */
    ghost predicate Stored()
      reads this
    {
      |wayIDs| == |ways| && Records(ways, |refs|, |names|)
    }

    ghost function Ways(): seq<Way>
      requires Stored()
      reads this
    {
      WaysOf(ways, wayIDs, refs, names)
    }

    constructor (names: seq<Text>, bbox: BBox, replSeq: int, replURL: Text)
      ensures Value() == Source([], [], [], names, [], [], [], [], bbox, replSeq, replURL)
    {
      ways, wayIDs, refs, ids, lats, lons, route := [], [], [], [], [], [], [];
      this.names, this.bbox, this.replSeq, this.replURL := names, bbox, replSeq, replURL;
    }

    constructor From(s: Source)
      ensures Value() == s
    {
      ways, wayIDs, refs, names, ids, lats, lons, route := s.ways, s.wayIDs, s.refs, s.names, s.ids, s.lats, s.lons,
        s.route;
      bbox, replSeq, replURL := s.bbox, s.replSeq, s.replURL;
    }

    /** One way at the end of the lists. */
    method AddWay(w: WayRec, id: int, own: seq<int>)
      requires Stored() && w.refOff == |refs| && w.refCnt == |own| >= 2 && w.nameIdx < |names|
      modifies this`ways, this`wayIDs, this`refs
      ensures Stored() && Ways() == old(Ways()) + [Way(id, own, w.fwd, w.bwd, w.speed, names[w.nameIdx])]
    {
      WayAdded(ways, wayIDs, refs, names, w, id, own);
      ways, wayIDs, refs := ways + [w], wayIDs + [id], refs + own;
    }

    /** Carries over the ways of another source that are not gone. */
    method CarryWays(src: SrcData, gone: set<int>)
      requires src != this && src.Stored() && Stored() && ways == [] && names == src.names
      modifies this`ways, this`wayIDs, this`refs
      ensures Stored() && Ways() == Survivors(src.Ways(), gone)
    {
      ghost var all := src.Ways();
      for i := 0 to |src.ways|
        invariant Stored() && Ways() == Survivors(all[..i], gone)
      {
        WayAt(src.ways, src.wayIDs, src.refs, src.names, i);
        assert all[..i + 1][..i] == all[..i];
        var w := src.ways[i];
        if src.wayIDs[i] !in gone {
          AddWay(w.(refOff := |refs|), src.wayIDs[i], src.refs[w.refOff..w.refOff + w.refCnt]);
        }
      }
      assert all[..|all|] == all;
    }

    /** The index of a name, added if it is new; the table is filled when first needed. */
    method LookupName(name: Text, table: map<Text, nat>) returns (ni: nat, nameIdx: map<Text, nat>)
      requires Stored() && NameTable(names, table)
      modifies this`names
      ensures old(names) <= names && Stored() && Ways() == old(Ways()) && NameTable(names, nameIdx)
      ensures ni < |names| && names[ni] == name
      ensures name in old(names) ==> names == old(names)
      ensures name !in old(names) ==> names == old(names) + [name]
    {
      nameIdx := table;
      if |nameIdx| == 0 {
        for i := 0 to |names|
          invariant forall n :: n in nameIdx ==> nameIdx[n] < |names| && names[nameIdx[n]] == n
          invariant forall j :: 0 <= j < i ==> names[j] in nameIdx
        {
          nameIdx := nameIdx[names[i] := i];
        }
      }
      if name in nameIdx { return nameIdx[name], nameIdx; }
      MoreNames(ways, wayIDs, refs, names, names + [name]);
      ni := |names|;
      names := names + [name];
      nameIdx := nameIdx[name := ni];
    }

    /** Appends the upserted ways that are still routable. */
    method AddWays(ups: seq<WayChange>)
      requires Stored()
      modifies this`ways, this`wayIDs, this`refs, this`names
      ensures old(names) <= names && Stored() && Ways() == old(Ways()) + Routable(ups)
      ensures old(NoRepeats(names)) ==> NoRepeats(names)
    {
      var nameIdx: map<Text, nat> := map[];
      for k := 0 to |ups|
        invariant old(names) <= names && Stored() && NameTable(names, nameIdx)
        invariant Ways() == old(Ways()) + Routable(ups[..k])
        invariant old(NoRepeats(names)) ==> NoRepeats(names)
      {
        assert ups[..k + 1][..k] == ups[..k];
        var wc := ups[k];
        if Kept(wc) {
          var ni;
          ni, nameIdx := LookupName(wc.way.name, nameIdx);
          AddWay(WayRec(|refs|, |wc.way.refs|, wc.way.fwd, wc.way.bwd, wc.way.speed, ni), wc.way.id, wc.way.refs);
          Group(old(Ways()), Routable(ups[..k]), wc.way);
        }
      }
      assert ups[..|ups|] == ups;
    }

    /** Sorted unique ids of the referenced nodes, routing flags, and room for coordinates. */
    method IndexNodes()
      requires Stored()
      modifies this`ids, this`route, this`lats, this`lons
      ensures Indexed(Ways(), ids, route)
      ensures |lats| == |lons| == |ids|
      ensures forall k :: 0 <= k < |ids| ==> lats[k] == MISSING && lons[k] == 0
    {
      RefsFlat(ways, wayIDs, refs, names);
      ids, route := DistinctIds(refs);
      ghost var twice := route;
      MarkEnds();
      IndexBuilt(Ways(), ids, twice, route);
      lats := seq(|ids|, _ => MISSING);
      lons := seq(|ids|, _ => 0);
    }

    /** Way endpoints become routing nodes. */
    method MarkEnds()
      requires Stored() && Increasing(ids) && |route| == |ids|
      modifies this`route
      ensures |route| == |ids|
      ensures forall k :: 0 <= k < |ids| ==>
        (route[k] <==> old(route[k]) || EndsBefore(Ways(), |Ways()|, ids[k]))
    {
      ghost var all := Ways();
      for i := 0 to |ways|
        invariant |route| == |ids|
        invariant forall k :: 0 <= k < |ids| ==> (route[k] <==> old(route[k]) || EndsBefore(all, i, ids[k]))
      {
        WayAt(ways, wayIDs, refs, names, i);
        var w := ways[i];
        ghost var own := all[i].refs;
        assert own[0] == refs[w.refOff] && own[|own| - 1] == refs[w.refOff + w.refCnt - 1];
        MarkNode(refs[w.refOff]);
        MarkNode(refs[w.refOff + w.refCnt - 1]);
        ExtendEnds(all, i);
      }
    }

    /** Known coordinates are carried over from another source. */
    method CarryCoords(src: SrcData)
      requires src != this && Increasing(src.ids) && |src.lats| == |src.lons| == |src.ids|
      requires |lats| == |lons| == |ids| && forall k :: 0 <= k < |ids| ==> NodeAt(lats, lons, k, Coord(MISSING, 0))
      modifies this`lats, this`lons
      ensures |lats| == |lons| == |ids|
      ensures forall k :: 0 <= k < |ids| ==> NodeAt(lats, lons, k,
        OldCoord(Coords(src.ids, src.lats, src.lons), ids[k]))
    {
      ghost var at := Coords(src.ids, src.lats, src.lons);
      CoordsAre(src.ids, src.lats, src.lons);
      for i := 0 to |ids|
        invariant |lats| == |lons| == |ids|
        invariant forall k :: 0 <= k < i ==> NodeAt(lats, lons, k, OldCoord(at, ids[k]))
        invariant forall k :: i <= k < |ids| ==> NodeAt(lats, lons, k, Coord(MISSING, 0))
      {
        var j, ok := BinarySearch(src.ids, ids[i]);
        ghost var lats0, lons0 := lats, lons;
        if ok {
          lats := lats[i := src.lats[j]];
          lons := lons[i := src.lons[j]];
        }
        assert NodeAt(lats, lons, i, OldCoord(at, ids[i])) by {
          assert NodeAt(lats0, lons0, i, Coord(MISSING, 0));
        }
        forall k | i < k < |ids| ensures NodeAt(lats, lons, k, Coord(MISSING, 0)) {
          assert NodeAt(lats0, lons0, k, Coord(MISSING, 0));
        }
      }
    }

    /** Overlays the node changes in order. */
    method MoveNodes(ups: seq<NodeChange>)
      requires Increasing(ids) && |lats| == |lons| == |ids|
      modifies this`lats, this`lons
      ensures |lats| == |lons| == |ids|
      ensures forall k :: 0 <= k < |ids| ==> NodeAt(lats, lons, k,
        Moved(Coord(old(lats[k]), old(lons[k])), ups, ids[k]))
    {
      for i := 0 to |ups|
        invariant |lats| == |lons| == |ids|
        invariant forall k :: 0 <= k < |ids| ==>
          NodeAt(lats, lons, k, Moved(Coord(old(lats[k]), old(lons[k])), ups[..i], ids[k]))
      {
        assert ups[..i + 1][..i] == ups[..i];
        var j, ok := BinarySearch(ids, ups[i].id);
        if ok {
          lats := lats[j := ups[i].to.lat];
          lons := lons[j := ups[i].to.lon];
        }
      }
      assert ups[..|ups|] == ups;
    }

    /** Deleted nodes lose their coordinate; assembly cuts chains there. */
    method DropNodes(gone: seq<int>)
      requires Increasing(ids) && |lats| == |ids|
      modifies this`lats
      ensures |lats| == |ids|
      ensures forall k :: 0 <= k < |ids| ==> lats[k] == if ids[k] in gone then MISSING else old(lats[k])
    {
      for i := 0 to |gone|
        invariant |lats| == |ids|
        invariant forall k :: 0 <= k < |ids| ==> lats[k] == if ids[k] in gone[..i] then MISSING else old(lats[k])
      {
        assert gone[..i + 1] == gone[..i] + [gone[i]];
        var j, ok := BinarySearch(ids, gone[i]);
        if ok { lats := lats[j := MISSING]; }
      }
      assert gone[..|gone|] == gone;
    }

    /** The surviving ways of another source, then the upserted ones. */
    method TakeWays(src: SrcData, ch: Change)
      requires src != this && src.Stored() && Stored() && ways == [] && names == src.names
      modifies this`ways, this`wayIDs, this`refs, this`names
      ensures Stored() && Ways() == NewWays(src.Ways(), ch)
      ensures src.names <= names && (NoRepeats(src.names) ==> NoRepeats(names))
    {
      var delWay := set x | x in ch.wayDelete;
      var upWay := set i | 0 <= i < |ch.wayUpsert| :: ch.wayUpsert[i].way.id;
      CarryWays(src, delWay + upWay);
      AddWays(ch.wayUpsert);
    }

    /** Every node's coordinate after the diff. */
    method TakeNodes(src: SrcData, ch: Change)
      requires src != this && Increasing(src.ids) && |src.lats| == |src.lons| == |src.ids|
      requires Increasing(ids) && |lats| == |lons| == |ids| && forall k :: 0 <= k < |ids| ==>
        NodeAt(lats, lons, k, Coord(MISSING, 0))
      modifies this`lats, this`lons
      ensures |lats| == |lons| == |ids|
      ensures forall k :: 0 <= k < |ids| ==> NodeAt(lats, lons, k,
        NewCoord(Coords(src.ids, src.lats, src.lons), ch, ids[k]))
    {
      ghost var at := Coords(src.ids, src.lats, src.lons);
      CarryCoords(src);
      MoveNodes(ch.nodeUpsert);
      assert forall k :: 0 <= k < |ids| ==> NodeAt(lats, lons, k, Moved(OldCoord(at, ids[k]), ch.nodeUpsert, ids[k]));
      ghost var moved := lats;
      DropNodes(ch.nodeDelete);
      forall k | 0 <= k < |ids| ensures NodeAt(lats, lons, k, NewCoord(at, ch, ids[k])) {
        assert NodeAt(moved, lons, k, Moved(OldCoord(at, ids[k]), ch.nodeUpsert, ids[k]));
      }
    }

    /** Ways, index and coordinates of another source after the diff. */
    method Refill(src: SrcData, ch: Change)
      requires src != this && src.Valid() && Stored() && ways == [] && names == src.names
      modifies this`ways, this`wayIDs, this`refs, this`names, this`ids, this`route, this`lats, this`lons
      ensures Valid() && Ways() == NewWays(src.Ways(), ch)
      ensures forall k :: 0 <= k < |ids| ==> NodeAt(lats, lons, k,
        NewCoord(Coords(src.ids, src.lats, src.lons), ch, ids[k]))
      ensures src.names <= names && (NoRepeats(src.names) ==> NoRepeats(names))
    {
      TakeWays(src, ch);
      IndexNodes();
      TakeNodes(src, ch);
    }

    /** Folds a diff into a fresh source; this one is not touched. */
    method ApplyChange(ch: Change) returns (out: SrcData)
      requires Valid()
      ensures fresh(out) && out.Valid()
      ensures out.Value().Map() == Apply(Value().Map(), ch)
      ensures names <= out.names && (NoRepeats(names) ==> NoRepeats(out.names))
      ensures (out.bbox, out.replSeq, out.replURL) == (bbox, replSeq, replURL)
    {
      out := new SrcData(names, bbox, replSeq, replURL);
      out.Refill(this, ch);
      Applied(Value(), out.Value(), ch);
    }

    /** Folds a list of diffs, oldest first. */
    method ApplyChanges(chs: seq<Change>) returns (out: SrcData)
      requires Valid()
      ensures out.Valid() && out.Value().Map() == ApplyAll(Value().Map(), chs)
    {
      out := this;
      for i := 0 to |chs|
        invariant out.Valid() && out.Value().Map() == ApplyAll(Value().Map(), chs[..i])
      {
        assert chs[..i + 1][..i] == chs[..i];
        out := out.ApplyChange(chs[i]);
      }
      assert chs[..|chs|] == chs;
    }

    method MarkNode(r: int)
      requires Increasing(ids) && |route| == |ids|
      modifies this`route
      ensures |route| == |ids|
      ensures forall k :: 0 <= k < |ids| ==> (route[k] <==> old(route[k]) || ids[k] == r)
    {
      var j, ok := BinarySearch(ids, r);
      if ok { route := route[j := true]; }
    }
  }

  lemma Group(a: seq<Way>, b: seq<Way>, w: Way)
    ensures (a + b) + [w] == a + (b + [w])
  {
  }

  /** New lists of ways with the right coordinate on every node are the updated map. */
  lemma Applied(s: Source, t: Source, ch: Change)
    requires s.Valid() && t.Valid()
    requires t.Map().ways == NewWays(s.Map().ways, ch)
    requires forall k :: 0 <= k < |t.ids| ==>
      NodeAt(t.lats, t.lons, k, NewCoord(Coords(s.ids, s.lats, s.lons), ch, t.ids[k]))
    ensures t.Map() == Apply(s.Map(), ch)
  {
    CoordsAre(t.ids, t.lats, t.lons);
    var at, want := t.Map().at, Apply(s.Map(), ch).at;
    forall x ensures x in at <==> x in want {
      assert x in at <==> x in t.ids;
    }
    forall x | x in at ensures at[x] == want[x] {
      var k :| 0 <= k < |t.ids| && t.ids[k] == x;
      assert NodeAt(t.lats, t.lons, k, NewCoord(s.Map().at, ch, x));
    }
    assert at == want;
  }

  lemma IndexBuilt(all: seq<Way>, ids: seq<int>, twice: seq<bool>, route: seq<bool>)
    requires Increasing(ids) && (forall x :: x in ids <==> x in AllRefs(all))
    requires |twice| == |route| == |ids|
    requires forall k :: 0 <= k < |ids| ==> (twice[k] <==> multiset(AllRefs(all))[ids[k]] >= 2)
    requires forall k :: 0 <= k < |ids| ==> (route[k] <==> twice[k] || EndsBefore(all, |all|, ids[k]))
    ensures Indexed(all, ids, route)
  {
  }

  lemma ExtendEnds(all: seq<Way>, i: nat)
    requires i < |all|
    ensures forall id :: EndsBefore(all, i + 1, id) <==> EndsBefore(all, i, id) || EndsAt(all[i], id)
  {
  }

  /** The distinct references in order, and which of them occur more than once. */
  method DistinctIds(refs: seq<int>) returns (ids: seq<int>, twice: seq<bool>)
    ensures Increasing(ids) && |twice| == |ids|
    ensures forall x :: x in ids <==> x in refs
    ensures forall k :: 0 <= k < |ids| ==> (twice[k] <==> multiset(refs)[ids[k]] >= 2)
  {
    var ordered := Sort(refs);
    SortSorts(refs);
    assert forall x :: x in ordered <==> x in multiset(ordered);
    var sorted := new int[|ordered|](i requires 0 <= i < |ordered| => ordered[i]);
    assert sorted[..] == ordered;
    var n;
    n, twice := Compact(sorted);
    ids := sorted[..n];
  }
}
