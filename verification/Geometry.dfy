/** Edge shapes: intermediate points as wrapped coordinate differences in one byte blob. */
module Geometry {
  import opened Words
  import opened Varints
  import opened Seqs
  import opened StreetMap
  import opened Reversing

  type Bytes = seq<byte>

  /** A coordinate that fits its two int32 fields. */
  predicate Fits(c: Coord) { Int32(c.lat) && Int32(c.lon) }

  ghost predicate AllFit(cs: seq<Coord>) { forall i :: 0 <= i < |cs| ==> Fits(cs[i]) }

  // ---- writing --------------------------------------------------------------------------------------

  function Delta(prev: Coord, c: Coord): Bytes {
    Svarint(Wrap32(c.lat - prev.lat)) + Svarint(Wrap32(c.lon - prev.lon))
  }

  function Deltas(prev: Coord, cs: seq<Coord>): Bytes
    decreases |cs|
  {
    if cs == [] then [] else Delta(prev, cs[0]) + Deltas(cs[0], cs[1..])
  }

  /** What is stored for a chain of three or more points: how many lie between its ends, then their differences. */
  function Shape(chain: seq<Coord>): Bytes
    requires |chain| >= 2
  {
    Uvarint(|chain| - 2) + Deltas(chain[0], chain[1..|chain| - 1])
  }

  lemma DeltasAt(prev: Coord, cs: seq<Coord>, i: nat, before: Bytes)
    requires i < |cs|
    ensures before + Deltas(prev, cs[i..]) == (before + Delta(prev, cs[i])) + Deltas(cs[i], cs[i + 1..])
  {
    assert cs[i..][0] == cs[i] && cs[i..][1..] == cs[i + 1..];
    Assoc(before, Delta(prev, cs[i]), Deltas(cs[i], cs[i + 1..]));
  }

  lemma DeltasEnd(prev: Coord, cs: seq<Coord>, before: Bytes)
    ensures before + Deltas(prev, cs[|cs|..]) == before && cs[0..] == cs
  {
    All(cs);
    AddNothing(before);
  }

  /** The shape of a chain, appended to the blob. */
  method AppendShape(blob: Bytes, chain: seq<Coord>) returns (r: Bytes)
    requires |chain| >= 2
    ensures r == blob + Shape(chain)
  {
    var mid := chain[1..|chain| - 1];
    r := AppendUvarint(blob, |chain| - 2);
    Assoc(blob, Uvarint(|chain| - 2), Deltas(chain[0], mid));
    ghost var want := r + Deltas(chain[0], mid);
    DeltasEnd(chain[0], mid, r);
    var prev := chain[0];
    for i := 0 to |mid|
      invariant r + Deltas(prev, mid[i..]) == want
    {
      DeltasAt(prev, mid, i, r);
      ghost var at := r;
      r := AppendSvarint(r, Wrap32(mid[i].lat - prev.lat));
      r := AppendSvarint(r, Wrap32(mid[i].lon - prev.lon));
      Assoc(at, Svarint(Wrap32(mid[i].lat - prev.lat)), Svarint(Wrap32(mid[i].lon - prev.lon)));
      prev := mid[i];
    }
    DeltasEnd(prev, mid, r);
  }

  // ---- reading --------------------------------------------------------------------------------------

  /** A whole 64-bit varint. */
  function GetNum(b: Bytes): Option<(nat, Bytes)> {
    var r := Parse(b);
    if r.Some? && r.value.0 < TWO_64 then Some((r.value.0, b[r.value.1..])) else None
  }

  function Shift(last: int, u: nat): int { Wrap32(last + ToI32(Low32(UnZigZag(u)))) }

  /** The next point, from two signed differences. */
  function GetPoint(b: Bytes, last: Coord): Option<(Coord, Bytes)> {
    var a := GetNum(b);
    if a.None? then None
    else
      var o := GetNum(a.value.1);
      if o.None? then None else Some((Coord(Shift(last.lat, a.value.0), Shift(last.lon, o.value.0)), o.value.1))
  }

  /** n more points, onto acc. */
  function GetPoints(b: Bytes, n: nat, last: Coord, acc: seq<Coord>): Option<seq<Coord>>
    decreases n
  {
    if n == 0 then Some(acc)
    else
      var c := GetPoint(b, last);
      if c.None? then None else GetPoints(c.value.1, n - 1, c.value.0, acc + [c.value.0])
  }

  /** The points of a stored shape, seen from its first end. */
  function GetShape(b: Bytes, base: Coord): Option<seq<Coord>> {
    var n := GetNum(b);
    if n.None? then None else GetPoints(n.value.1, n.value.0, base, [])
  }

  method ReadNum(blob: Bytes, i: nat) returns (v: nat, next: nat)
    requires i <= |blob| && GetNum(blob[i..]).Some?
    ensures next <= |blob| && GetNum(blob[i..]) == Some((v, blob[next..]))
  {
    v, next := ReadPlain(blob, i);
    assert blob[i..][next - i..] == blob[next..];
  }

  method ReadPoint(blob: Bytes, at: nat, last: Coord) returns (c: Coord, next: nat)
    requires at <= |blob| && GetPoint(blob[at..], last).Some?
    ensures next <= |blob| && GetPoint(blob[at..], last) == Some((c, blob[next..]))
  {
    var dLat, dLon;
    dLat, next := ReadNum(blob, at);
    dLon, next := ReadNum(blob, next);
    c := Coord(Shift(last.lat, dLat), Shift(last.lon, dLon));
  }

  /** Reads a stored shape onto a list of points; reversed in place when it was stored the other way round. */
  method DecodeGeom(blob: Bytes, off: nat, u: Coord, v: Coord, rev: bool, pts: seq<Coord>) returns (r: seq<Coord>)
    requires off <= |blob| && GetShape(blob[off..], if rev then v else u).Some?
    ensures rev ==> r == pts + Reversed(GetShape(blob[off..], v).value)
    ensures !rev ==> r == pts + GetShape(blob[off..], u).value
  {
    var base := if rev then v else u;
    var n, i := ReadNum(blob, off);
    var run := ReadPoints(blob, i, n, base);
    if rev { run := Reverse(run); }
    r := pts + run;
  }

  method ReadPoints(blob: Bytes, start: nat, n: nat, base: Coord) returns (run: seq<Coord>)
    requires start <= |blob| && GetPoints(blob[start..], n, base, []).Some?
    ensures GetPoints(blob[start..], n, base, []) == Some(run)
  {
    run := [];
    var i: nat, last := start, base;
    for k := 0 to n
      invariant i <= |blob| && GetPoints(blob[i..], n - k, last, run) == GetPoints(blob[start..], n, base, [])
    {
      last, i := ReadPoint(blob, i, last);
      run := run + [last];
    }
  }

  // ---- round trip -----------------------------------------------------------------------------------

  lemma ShiftBack(last: int, v: int)
    requires Int32(v)
    ensures Shift(last, ZigZag(Wrap32(v - last))) == v
  {
    ZigZagBack(Wrap32(v - last));
    DeltaBack32(last, v);
  }

  lemma NumBack(v: nat, rest: Bytes)
    requires v < TWO_64
    ensures GetNum(Uvarint(v) + rest) == Some((v, rest))
  {
    ParseUvarint(v, rest);
    assert (Uvarint(v) + rest)[|Uvarint(v)|..] == rest;
  }

  lemma PointBack(last: Coord, c: Coord, rest: Bytes)
    requires Fits(c)
    ensures GetPoint(Delta(last, c) + rest, last) == Some((c, rest))
  {
    var dLat, dLon := Wrap32(c.lat - last.lat), Wrap32(c.lon - last.lon);
    Assoc(Svarint(dLat), Svarint(dLon), rest);
    ZigZagBack(dLat);
    ZigZagBack(dLon);
    NumBack(ZigZag(dLat), Svarint(dLon) + rest);
    NumBack(ZigZag(dLon), rest);
    ShiftBack(last.lat, c.lat);
    ShiftBack(last.lon, c.lon);
  }

  lemma {:induction false} PointsBack(last: Coord, cs: seq<Coord>, rest: Bytes, acc: seq<Coord>)
    requires AllFit(cs)
    ensures GetPoints(Deltas(last, cs) + rest, |cs|, last, acc) == Some(acc + cs)
    decreases |cs|
  {
    if cs == [] {
      AddNothing(acc);
    } else {
      Assoc(Delta(last, cs[0]), Deltas(cs[0], cs[1..]), rest);
      PointBack(last, cs[0], Deltas(cs[0], cs[1..]) + rest);
      PointsBack(cs[0], cs[1..], rest, acc + [cs[0]]);
      Regroup(acc, cs);
    }
  }

  /** A stored chain gives back its inner points, under 32-bit wrap-around and whatever follows in the blob. */
  lemma ShapeBack(chain: seq<Coord>, rest: Bytes)
    requires 2 <= |chain| < TWO_64 && AllFit(chain)
    ensures GetShape(Shape(chain) + rest, chain[0]) == Some(chain[1..|chain| - 1])
  {
    var mid := chain[1..|chain| - 1];
    Assoc(Uvarint(|mid|), Deltas(chain[0], mid), rest);
    NumBack(|mid|, Deltas(chain[0], mid) + rest);
    PointsBack(chain[0], mid, rest, []);
    AddNothing(mid);
  }
}
