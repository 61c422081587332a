/** The counting sort that lays staged edges out as CSR: each direction in its source's bucket, in staging order. */
module Csr {
  import opened Words
  import opened Seqs
  import opened GraphModel

  const NO_GEOM: nat := 0xFFFF_FFFF

  /** One undirected edge as the assembler stages it. */
  datatype Staged = Staged(u: nat, v: nat, meters: nat, fwd: Flags, bwd: Flags, speed: nat, name: nat, geomOff: nat)

  /** One direction of it. */
  datatype Arc = Arc(from: nat, to: nat, meters: nat, flags: Flags, speed: nat, name: nat, geomOff: nat)

  const NO_ARC: Arc := Arc(0, 0, 0, NO_FLAGS, 0, 0, 0)

  function Forward(e: Staged): Arc { Arc(e.u, e.v, e.meters, e.fwd, e.speed, e.name, e.geomOff) }

  function Backward(e: Staged): Arc {
    Arc(e.v, e.u, e.meters, if e.geomOff != NO_GEOM then e.bwd.(geomRev := true) else e.bwd, e.speed, e.name, e.geomOff)
  }

  /** The directions of one edge: none for a loop, else those with any flag. */
  function ArcsOf(e: Staged): seq<Arc> {
    if e.u == e.v then []
    else (if e.fwd.Any() then [Forward(e)] else []) + if e.bwd.Any() then [Backward(e)] else []
  }

  function Arcs(edges: seq<Staged>): seq<Arc> {
    if edges == [] then [] else Arcs(edges[..|edges| - 1]) + ArcsOf(edges[|edges| - 1])
  }

  function From(arcs: seq<Arc>, n: nat): nat {
    if arcs == [] then 0 else From(arcs[..|arcs| - 1], n) + if arcs[|arcs| - 1].from == n then 1 else 0
  }

  function Below(arcs: seq<Arc>, n: nat): nat {
    if arcs == [] then 0 else Below(arcs[..|arcs| - 1], n) + if arcs[|arcs| - 1].from < n then 1 else 0
  }

  lemma {:induction false} BelowNext(arcs: seq<Arc>, n: nat)
    ensures Below(arcs, n + 1) == Below(arcs, n) + From(arcs, n)
  {
    if arcs != [] { BelowNext(arcs[..|arcs| - 1], n); }
  }

  lemma {:induction false} BelowAll(arcs: seq<Arc>, n: nat)
    ensures Below(arcs, 0) == 0
    ensures (forall k :: 0 <= k < |arcs| ==> arcs[k].from < n) ==> Below(arcs, n) == |arcs|
  {
    if arcs != [] {
      var init := arcs[..|arcs| - 1];
      BelowAll(init, n);
      assert forall k :: 0 <= k < |init| ==> init[k] == arcs[k];
    }
  }

  lemma {:induction false} BelowMono(arcs: seq<Arc>, n: nat, m: nat)
    requires n <= m
    ensures Below(arcs, n) <= Below(arcs, m)
  {
    if arcs != [] { BelowMono(arcs[..|arcs| - 1], n, m); }
  }

  lemma {:induction false} FromMono(arcs: seq<Arc>, i: nat, j: nat, n: nat)
    requires i <= j <= |arcs|
    ensures From(arcs[..i], n) <= From(arcs[..j], n)
    decreases j
  {
    if i < j {
      FromMono(arcs, i, j - 1, n);
      assert arcs[..j][..j - 1] == arcs[..j - 1];
    }
  }

  lemma FromNext(arcs: seq<Arc>, k: nat, n: nat)
    requires k < |arcs|
    ensures From(arcs[..k + 1], n) == From(arcs[..k], n) + if arcs[k].from == n then 1 else 0
  {
    assert arcs[..k + 1][..k] == arcs[..k];
  }

  /** Where arc k goes: after the smaller buckets and the earlier arcs of its own. */
  function Slot(arcs: seq<Arc>, k: nat): nat
    requires k < |arcs|
  {
    Below(arcs, arcs[k].from) + From(arcs[..k], arcs[k].from)
  }

  lemma SlotInBucket(arcs: seq<Arc>, k: nat)
    requires k < |arcs|
    ensures Below(arcs, arcs[k].from) <= Slot(arcs, k) < Below(arcs, arcs[k].from + 1)
  {
    var n := arcs[k].from;
    FromNext(arcs, k, n);
    FromMono(arcs, k + 1, |arcs|, n);
    assert arcs[..|arcs|] == arcs;
    BelowNext(arcs, n);
  }

  /** No two arcs share a slot. */
  lemma SlotsDiffer(arcs: seq<Arc>, j: nat, k: nat)
    requires j < k < |arcs|
    ensures Slot(arcs, j) != Slot(arcs, k)
  {
    SlotInBucket(arcs, j);
    SlotInBucket(arcs, k);
    var a, b := arcs[j].from, arcs[k].from;
    if a < b {
      BelowMono(arcs, a + 1, b);
    } else if b < a {
      BelowMono(arcs, b + 1, a);
    } else {
      FromNext(arcs, j, a);
      FromMono(arcs, j + 1, k, a);
    }
  }

  /** Every slot of a bucket is some arc's. */
  lemma {:induction false} SlotTaken(arcs: seq<Arc>, n: nat, p: nat, k: nat) returns (j: nat)
    requires k <= |arcs| && Below(arcs, n) <= p < Below(arcs, n) + From(arcs[..k], n)
    ensures j < k && arcs[j].from == n && Slot(arcs, j) == p
    decreases k
  {
    assert k > 0 by { assert arcs[..0] == []; }
    FromNext(arcs, k - 1, n);
    if p < Below(arcs, n) + From(arcs[..k - 1], n) {
      j := SlotTaken(arcs, n, p, k - 1);
    } else {
      j := k - 1;
    }
  }

  lemma {:induction false} ArcsAt(edges: seq<Staged>, i: nat)
    requires i < |edges|
    ensures Arcs(edges[..i + 1]) == Arcs(edges[..i]) + ArcsOf(edges[i])
  {
    assert edges[..i + 1][..i] == edges[..i];
  }

  /** Every arc is one direction of a staged edge that is not a loop, and carries a flag. */
  lemma {:induction false} ArcOrigin(edges: seq<Staged>, k: nat) returns (i: nat)
    requires k < |Arcs(edges)|
    ensures i < |edges| && edges[i].u != edges[i].v && Arcs(edges)[k].flags.Any()
    ensures (Arcs(edges)[k] == Forward(edges[i]) && edges[i].fwd.Any()) ||
      (Arcs(edges)[k] == Backward(edges[i]) && edges[i].bwd.Any())
  {
    var n := |edges| - 1;
    if k < |Arcs(edges[..n])| {
      i := ArcOrigin(edges[..n], k);
    } else {
      i := n;
    }
  }

  ghost predicate EndsIn(edges: seq<Staged>, n: nat) {
    forall i :: 0 <= i < |edges| ==> edges[i].u < n && edges[i].v < n
  }

  lemma ArcsEndIn(edges: seq<Staged>, n: nat)
    requires EndsIn(edges, n)
    ensures forall k :: 0 <= k < |Arcs(edges)| ==> Arcs(edges)[k].from < n && Arcs(edges)[k].to < n
  {
    forall k | 0 <= k < |Arcs(edges)| ensures Arcs(edges)[k].from < n && Arcs(edges)[k].to < n {
      var i := ArcOrigin(edges, k);
    }
  }

  /** The finished layout: offsets and one record per arc. */
  ghost predicate LaidOut(arcs: seq<Arc>, n: nat, first: seq<nat>, slots: seq<Arc>) {
    && |first| == n + 1 && |slots| == |arcs|
    && (forall i :: 0 <= i <= n ==> first[i] == Below(arcs, i))
    && forall k :: 0 <= k < |arcs| ==> Placed(arcs, slots, k)
  }

  ghost predicate Placed(arcs: seq<Arc>, slots: seq<Arc>, k: nat) {
    k < |arcs| && Slot(arcs, k) < |slots| && slots[Slot(arcs, k)] == arcs[k]
  }

  // ---- the counting sort ------------------------------------------------------------------------------

  ghost predicate Counted(arcs: seq<Arc>, deg: seq<nat>) {
    |deg| > 0 && deg[0] == 0 && forall i :: 0 <= i < |deg| - 1 ==> deg[i + 1] == From(arcs, i)
  }

  /** deg[i + 1] counts the arcs from node i. */
  method Degrees(edges: seq<Staged>, n: nat) returns (deg: array<nat>)
    requires EndsIn(edges, n)
    ensures fresh(deg) && deg.Length == n + 1 && Counted(Arcs(edges), deg[..])
  {
    deg := new nat[n + 1](_ => 0);
    for i := 0 to |edges|
      invariant Counted(Arcs(edges[..i]), deg[..])
    {
      ArcsAt(edges, i);
      CountEdge(edges[i], deg, Arcs(edges[..i]));
    }
    assert edges[..|edges|] == edges;
  }

  method CountEdge(e: Staged, deg: array<nat>, ghost arcs: seq<Arc>)
    requires Counted(arcs, deg[..]) && e.u + 1 < deg.Length && e.v + 1 < deg.Length
    modifies deg
    ensures Counted(arcs + ArcsOf(e), deg[..])
  {
    CountedOne(arcs, e);
    ghost var before := deg[..];
    if e.u != e.v {
      if e.fwd.Any() { deg[e.u + 1] := deg[e.u + 1] + 1; }
      if e.bwd.Any() { deg[e.v + 1] := deg[e.v + 1] + 1; }
    }
    assert forall i :: 0 <= i < deg.Length - 1 ==> deg[i + 1] == before[i + 1] + Leaving(e, i);
  }

  /** How many of an edge's arcs leave n. */
  function Leaving(e: Staged, n: nat): nat {
    (if e.u != e.v && e.fwd.Any() && e.u == n then 1 else 0) + if e.u != e.v && e.bwd.Any() && e.v == n then 1 else 0
  }

  lemma CountedOne(arcs: seq<Arc>, e: Staged)
    ensures forall n: nat :: From(arcs + ArcsOf(e), n) == From(arcs, n) + Leaving(e, n)
  {
    forall n: nat ensures From(arcs + ArcsOf(e), n) == From(arcs, n) + Leaving(e, n) {
      var own := ArcsOf(e);
      if |own| == 1 {
        assert (arcs + own)[..|arcs|] == arcs;
      } else if |own| == 2 {
        assert (arcs + own)[..|arcs| + 1] == arcs + [own[0]];
        assert (arcs + [own[0]])[..|arcs|] == arcs;
      } else {
        assert arcs + own == arcs;
      }
    }
  }

  /** Running sums turn degrees into offsets. */
  method Offsets(ghost arcs: seq<Arc>, deg: array<nat>, n: nat) returns (first: seq<nat>)
    requires deg.Length == n + 1 && Counted(arcs, deg[..])
    modifies deg
    ensures |first| == n + 1 && forall i :: 0 <= i <= n ==> first[i] == Below(arcs, i)
  {
    BelowAll(arcs, 0);
    for i := 1 to n + 1
      invariant forall j :: 0 <= j < i ==> deg[j] == Below(arcs, j)
      invariant forall j :: i <= j <= n ==> deg[j] == From(arcs, j - 1)
    {
      BelowNext(arcs, i - 1);
      deg[i] := deg[i] + deg[i - 1];
    }
    first := deg[..];
  }

  /** The fill cursors after k arcs, and the arcs placed so far. */
  ghost predicate Filled(arcs: seq<Arc>, k: nat, fill: seq<nat>, slots: seq<Arc>) {
    && k <= |arcs| && |slots| == |arcs|
    && (forall i :: 0 <= i < |fill| ==> fill[i] == From(arcs[..k], i))
    && forall j :: 0 <= j < k ==> Placed(arcs, slots, j)
  }

  /** Puts the next arc in its bucket. */
  method Place(a: Arc, first: seq<nat>, fill: array<nat>, slots: array<Arc>, ghost arcs: seq<Arc>, ghost k: nat)
    requires fill != slots as object && |first| == fill.Length + 1
    requires forall i :: 0 <= i < |first| ==> first[i] == Below(arcs, i)
    requires k < |arcs| && arcs[k] == a && a.from < fill.Length && Filled(arcs, k, fill[..], slots[..])
    requires Below(arcs, fill.Length) == |arcs|
    modifies fill, slots
    ensures Filled(arcs, k + 1, fill[..], slots[..])
  {
    var pos := first[a.from] + fill[a.from];
    SlotInBucket(arcs, k);
    BelowMono(arcs, a.from + 1, fill.Length);
    assert pos == Slot(arcs, k);
    ghost var before := slots[..];
    fill[a.from] := fill[a.from] + 1;
    slots[pos] := a;
    forall i | 0 <= i < fill.Length ensures fill[i] == From(arcs[..k + 1], i) { FromNext(arcs, k, i); }
    forall j | 0 <= j < k + 1 ensures Placed(arcs, slots[..], j) {
      if j < k {
        assert Placed(arcs, before, j);
        SlotsDiffer(arcs, j, k);
      }
    }
  }

  method PlaceEdge(e: Staged, first: seq<nat>, fill: array<nat>, slots: array<Arc>, ghost arcs: seq<Arc>, ghost k: nat)
    requires fill != slots as object && |first| == fill.Length + 1
    requires forall i :: 0 <= i < |first| ==> first[i] == Below(arcs, i)
    requires k + |ArcsOf(e)| <= |arcs| && arcs[k..k + |ArcsOf(e)|] == ArcsOf(e)
    requires e.u < fill.Length && e.v < fill.Length && Filled(arcs, k, fill[..], slots[..])
    requires Below(arcs, fill.Length) == |arcs|
    modifies fill, slots
    ensures Filled(arcs, k + |ArcsOf(e)|, fill[..], slots[..])
  {
    ghost var own := ArcsOf(e);
    ghost var mine := arcs[k..k + |own|];
    assert own != [] ==> mine[0] == arcs[k] && mine[|own| - 1] == arcs[k + |own| - 1];
    if e.u != e.v {
      if e.fwd.Any() { Place(Forward(e), first, fill, slots, arcs, k); }
      if e.bwd.Any() { Place(Backward(e), first, fill, slots, arcs, k + |own| - 1); }
    }
  }

  /** Arcs of edge i start at starts[i]. */
  ghost predicate Blocks(edges: seq<Staged>, arcs: seq<Arc>, starts: seq<nat>) {
    && |starts| == |edges| + 1 && starts[0] == 0 && starts[|edges|] == |arcs|
    && forall i :: 0 <= i < |edges| ==> Block(edges[i], arcs, starts[i], starts[i + 1])
  }

  ghost predicate Block(e: Staged, arcs: seq<Arc>, at: nat, next: nat) {
    at <= next == at + |ArcsOf(e)| <= |arcs| && arcs[at..next] == ArcsOf(e)
  }

  lemma {:induction false} ArcBlocks(edges: seq<Staged>) returns (starts: seq<nat>)
    ensures Blocks(edges, Arcs(edges), starts)
  {
    if edges == [] {
      starts := [0];
    } else {
      var n := |edges| - 1;
      var init, own := Arcs(edges[..n]), ArcsOf(edges[n]);
      starts := ArcBlocks(edges[..n]);
      forall i | 0 <= i < n ensures Block(edges[i], init + own, starts[i], starts[i + 1]) {
        assert Block(edges[..n][i], init, starts[i], starts[i + 1]);
        LongerBlock(edges[i], init, own, starts[i], starts[i + 1]);
      }
      LastBlock(edges[n], init);
      starts := starts + [|init| + |own|];
    }
  }

  lemma LongerBlock(e: Staged, arcs: seq<Arc>, more: seq<Arc>, at: nat, next: nat)
    requires Block(e, arcs, at, next)
    ensures Block(e, arcs + more, at, next)
  {
    assert (arcs + more)[at..next] == arcs[at..next];
  }

  lemma LastBlock(e: Staged, arcs: seq<Arc>)
    ensures Block(e, arcs + ArcsOf(e), |arcs|, |arcs| + |ArcsOf(e)|)
  {
    assert (arcs + ArcsOf(e))[|arcs|..|arcs| + |ArcsOf(e)|] == ArcsOf(e);
  }

  /** Every flagged direction of a staged edge that is not a loop is an arc. */
  lemma ArcPresent(edges: seq<Staged>, i: nat)
    requires i < |edges| && edges[i].u != edges[i].v
    ensures edges[i].fwd.Any() ==> Forward(edges[i]) in Arcs(edges)
    ensures edges[i].bwd.Any() ==> Backward(edges[i]) in Arcs(edges)
  {
    var starts := ArcBlocks(edges);
    var own := ArcsOf(edges[i]);
    assert Block(edges[i], Arcs(edges), starts[i], starts[i + 1]);
    var mine := Arcs(edges)[starts[i]..starts[i + 1]];
    assert edges[i].fwd.Any() ==> mine[0] == Forward(edges[i]);
    assert edges[i].bwd.Any() ==> mine[|own| - 1] == Backward(edges[i]);
  }

  lemma NothingFilled(arcs: seq<Arc>, fill: seq<nat>, slots: seq<Arc>)
    requires |slots| == |arcs| && forall i :: 0 <= i < |fill| ==> fill[i] == 0
    ensures Filled(arcs, 0, fill, slots)
  {
    All(arcs);
  }

  method FillSlots(edges: seq<Staged>, n: nat, first: seq<nat>, ghost arcs: seq<Arc>, ghost starts: seq<nat>)
    returns (slots: seq<Arc>)
    requires EndsIn(edges, n) && Blocks(edges, arcs, starts)
    requires |first| == n + 1 && forall i :: 0 <= i <= n ==> first[i] == Below(arcs, i)
    requires Below(arcs, n) == |arcs|
    ensures |slots| == |arcs| && forall k :: 0 <= k < |slots| ==> Placed(arcs, slots, k)
  {
    var out := new Arc[first[n]](_ => NO_ARC);
    var fill := new nat[n](_ => 0);
    NothingFilled(arcs, fill[..], out[..]);
    for i := 0 to |edges|
      invariant Filled(arcs, starts[i], fill[..], out[..])
    {
      assert Block(edges[i], arcs, starts[i], starts[i + 1]);
      PlaceEdge(edges[i], first, fill, out, arcs, starts[i]);
    }
    slots := out[..];
  }

  method Layout(edges: seq<Staged>, n: nat) returns (first: seq<nat>, slots: seq<Arc>)
    requires EndsIn(edges, n)
    ensures LaidOut(Arcs(edges), n, first, slots)
  {
    ghost var arcs := Arcs(edges);
    ArcsEndIn(edges, n);
    BelowAll(arcs, n);
    var deg := Degrees(edges, n);
    first := Offsets(arcs, deg, n);
    ghost var starts := ArcBlocks(edges);
    slots := FillSlots(edges, n, first, arcs, starts);
  }
}
