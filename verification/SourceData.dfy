/** The flat source image of the street network: its invariant, the map it stands for, and diff application. */
module SourceData {
  import opened Sorting
  import opened StreetMap

  datatype WayRec = WayRec(refOff: nat, refCnt: nat, fwd: nat, bwd: nat, speed: nat, nameIdx: nat)

  datatype BBox = BBox(minLat: int, minLon: int, maxLat: int, maxLon: int)

  /** The records of at least two references each lie back to back in a reference list of that length. */
  predicate Records(ways: seq<WayRec>, nrefs: nat, nnames: nat) {
    if ways == [] then nrefs == 0
    else
      var w := ways[|ways| - 1];
      && w.refCnt >= 2 && w.nameIdx < nnames && w.refOff + w.refCnt == nrefs
      && Records(ways[..|ways| - 1], w.refOff, nnames)
  }

  /** The ways the flat lists stand for. */
  function WaysOf(ways: seq<WayRec>, wayIDs: seq<int>, refs: seq<int>, names: seq<Text>): (r: seq<Way>)
    requires |wayIDs| == |ways| && Records(ways, |refs|, |names|)
    ensures |r| == |ways|
  {
    if ways == [] then []
    else
      var n := |ways| - 1;
      var w := ways[n];
      WaysOf(ways[..n], wayIDs[..n], refs[..w.refOff], names)
      + [Way(wayIDs[n], refs[w.refOff..], w.fwd, w.bwd, w.speed, names[w.nameIdx])]
  }

  predicate EndsAt(w: Way, id: int) {
    |w.refs| > 0 && (w.refs[0] == id || w.refs[|w.refs| - 1] == id)
  }

  predicate EndsBefore(ways: seq<Way>, n: nat, id: int)
    requires n <= |ways|
  {
    exists i :: 0 <= i < n && EndsAt(ways[i], id)
  }

  /** A routing node: used by two or more way positions, or a way's endpoint. */
  predicate Hot(ways: seq<Way>, id: int) {
    multiset(AllRefs(ways))[id] >= 2 || EndsBefore(ways, |ways|, id)
  }

  /** The node index: the referenced ids, once each and sorted, with their routing flags. */
  ghost predicate Indexed(ways: seq<Way>, ids: seq<int>, route: seq<bool>) {
    && Increasing(ids)
    && (forall x :: x in ids <==> x in AllRefs(ways))
    && |route| == |ids|
    && forall k :: 0 <= k < |ids| ==> (route[k] <==> Hot(ways, ids[k]))
  }

  function Coords(ids: seq<int>, lats: seq<int>, lons: seq<int>): map<int, Coord>
    requires |lats| == |lons| == |ids|
  {
    if ids == [] then map[]
    else
      var n := |ids| - 1;
      Coords(ids[..n], lats[..n], lons[..n])[ids[n] := Coord(lats[n], lons[n])]
  }

  function PairUp(lats: seq<int>, lons: seq<int>): (r: seq<Coord>)
    requires |lats| == |lons|
    ensures |r| == |lats|
  {
    seq(|lats|, i requires 0 <= i < |lats| => Coord(lats[i], lons[i]))
  }

  datatype Source = Source(
    ways: seq<WayRec>, wayIDs: seq<int>, refs: seq<int>, names: seq<Text>,
    ids: seq<int>, lats: seq<int>, lons: seq<int>, route: seq<bool>,
    bbox: BBox, replSeq: int, replURL: Text)
  {
    ghost predicate Valid() {
      && |wayIDs| == |ways| && Records(ways, |refs|, |names|)
      && |lats| == |lons| == |ids|
      && Indexed(WaysOf(ways, wayIDs, refs, names), ids, route)
    }

    function Map(): (m: Streets)
      requires |wayIDs| == |ways| && Records(ways, |refs|, |names|) && |lats| == |lons| == |ids|
    {
      Streets(WaysOf(ways, wayIDs, refs, names), Coords(ids, lats, lons))
    }
  }

  // ---- lemmas about the flat lists --------------------------------------------------------------

  lemma {:induction false} RefsFlat(ways: seq<WayRec>, wayIDs: seq<int>, refs: seq<int>, names: seq<Text>)
    requires |wayIDs| == |ways| && Records(ways, |refs|, |names|)
    ensures AllRefs(WaysOf(ways, wayIDs, refs, names)) == refs
  {
    if ways != [] {
      var n := |ways| - 1;
      RefsFlat(ways[..n], wayIDs[..n], refs[..ways[n].refOff], names);
      var all := WaysOf(ways, wayIDs, refs, names);
      assert all[..n] == WaysOf(ways[..n], wayIDs[..n], refs[..ways[n].refOff], names);
      assert refs == refs[..ways[n].refOff] + refs[ways[n].refOff..];
    }
  }

  lemma {:induction false} WayAt(ways: seq<WayRec>, wayIDs: seq<int>, refs: seq<int>, names: seq<Text>, i: nat)
    requires |wayIDs| == |ways| && Records(ways, |refs|, |names|) && i < |ways|
    ensures ways[i].refCnt >= 2 && ways[i].refOff + ways[i].refCnt <= |refs| && ways[i].nameIdx < |names|
    ensures WaysOf(ways, wayIDs, refs, names)[i]
      == Way(wayIDs[i], refs[ways[i].refOff..ways[i].refOff + ways[i].refCnt],
      ways[i].fwd, ways[i].bwd, ways[i].speed, names[ways[i].nameIdx])
  {
    var n := |ways| - 1;
    var off := ways[n].refOff;
    if i < n {
      WayAt(ways[..n], wayIDs[..n], refs[..off], names, i);
      assert refs[..off][ways[i].refOff..ways[i].refOff + ways[i].refCnt]
          == refs[ways[i].refOff..ways[i].refOff + ways[i].refCnt];
    } else {
      assert refs[off..] == refs[off..off + ways[n].refCnt];
    }
  }

  lemma {:induction false} MoreNames(ways: seq<WayRec>, wayIDs: seq<int>, refs: seq<int>, names: seq<Text>,
      more: seq<Text>)
    requires |wayIDs| == |ways| && Records(ways, |refs|, |names|) && names <= more
    ensures Records(ways, |refs|, |more|)
    ensures WaysOf(ways, wayIDs, refs, more) == WaysOf(ways, wayIDs, refs, names)
  {
    if ways != [] {
      var n := |ways| - 1;
      MoreNames(ways[..n], wayIDs[..n], refs[..ways[n].refOff], names, more);
    }
  }

  lemma WayAdded(ways: seq<WayRec>, wayIDs: seq<int>, refs: seq<int>, names: seq<Text>, w: WayRec, id: int,
      own: seq<int>)
    requires |wayIDs| == |ways| && Records(ways, |refs|, |names|)
    requires w.refOff == |refs| && w.refCnt == |own| >= 2 && w.nameIdx < |names|
    ensures Records(ways + [w], |refs + own|, |names|)
    ensures WaysOf(ways + [w], wayIDs + [id], refs + own, names)
      == WaysOf(ways, wayIDs, refs, names) + [Way(id, own, w.fwd, w.bwd, w.speed, names[w.nameIdx])]
  {
    var all, allIDs, allRefs := ways + [w], wayIDs + [id], refs + own;
    assert all[..|ways|] == ways && allIDs[..|ways|] == wayIDs;
    assert allRefs[..|refs|] == refs && allRefs[|refs|..] == own;
  }

  lemma {:induction false} CoordsAre(ids: seq<int>, lats: seq<int>, lons: seq<int>)
    requires |lats| == |lons| == |ids| && Increasing(ids)
    ensures forall x :: x in Coords(ids, lats, lons) <==> x in ids
    ensures forall k :: 0 <= k < |ids| ==> Coords(ids, lats, lons)[ids[k]] == Coord(lats[k], lons[k])
  {
    if ids != [] {
      var n := |ids| - 1;
      CoordsAre(ids[..n], lats[..n], lons[..n]);
      assert ids == ids[..n] + [ids[n]];
      forall k | 0 <= k < |ids|
        ensures ids[k] in Coords(ids, lats, lons) && Coords(ids, lats, lons)[ids[k]] == Coord(lats[k], lons[k])
      {
        if k < n {
          assert ids[..n][k] == ids[k] && ids[k] < ids[n];
          assert Coords(ids[..n], lats[..n], lons[..n])[ids[..n][k]] == Coord(lats[..n][k], lons[..n][k]);
        }
      }
    }
  }

  /** A valid source stands for a valid map. */
  lemma MapValid(s: Source)
    requires s.Valid()
    ensures s.Map().Valid()
  {
    CoordsAre(s.ids, s.lats, s.lons);
    assert forall x :: x in s.Map().at.Keys <==> x in RefSet(s.Map().ways);
  }
}
