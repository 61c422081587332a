/** Opposite edges, and paths walked backwards. */
module Twins {
  import opened Words
  import opened GraphModel

  /** f leads back along e: from e's target to its source, with the same shape and length. */
  ghost predicate TwinOf(g: Graph, e: nat, u: nat, f: nat) {
    && e < g.NumEdges() && f < g.NumEdges() && |g.edgeGeom| == |g.edgeMeters| == g.NumEdges() && f != e
    && g.OutEdge(u, e) && g.OutEdge(g.edgeTarget[e], f) && g.edgeTarget[f] == u
    && g.edgeGeom[f] == g.edgeGeom[e] && g.edgeMeters[f] == g.edgeMeters[e]
  }

  method Twin(g: Graph, e: nat, u: nat) returns (r: Option<nat>)
    requires g.Valid() && |g.edgeGeom| == g.NumEdges() && e < g.NumEdges() && g.OutEdge(u, e)
    ensures r.Some? ==> TwinOf(g, e, u, r.value)
    ensures r.None? ==> forall f: nat :: !TwinOf(g, e, u, f)
  {
    assert g.EdgeOk(e);
    var v := g.edgeTarget[e];
    assert g.Ordered(v, v + 1) && g.Ordered(v + 1, g.NumNodes());
    var f := g.firstEdge[v];
    while f < g.firstEdge[v + 1]
      invariant g.firstEdge[v] <= f <= g.firstEdge[v + 1] <= g.NumEdges()
      invariant forall f': nat :: f' < f ==> !TwinOf(g, e, u, f')
    {
      if g.edgeTarget[f] == u && f != e && g.edgeGeom[f] == g.edgeGeom[e] && g.edgeMeters[f] == g.edgeMeters[e] {
        return Some(f);
      }
      f := f + 1;
    }
    r := None;
  }

  /** The edges lead in turn from node a to node b, whatever the mode. */
  ghost predicate Walk(g: Graph, a: nat, edges: seq<nat>, b: nat)
    decreases |edges|
  {
    && a < g.NumNodes()
    && if edges == [] then a == b
       else edges[0] < g.NumEdges() && g.OutEdge(a, edges[0]) && Walk(g, g.edgeTarget[edges[0]], edges[1..], b)
  }

  ghost function Metres(g: Graph, edges: seq<nat>): nat {
    if edges == [] then 0
    else (if edges[0] < |g.edgeMeters| then g.edgeMeters[edges[0]] else 0) + Metres(g, edges[1..])
  }

  /** Edge by edge from the end, back is the twin of edges. */
  ghost predicate Backward(g: Graph, edges: seq<nat>, back: seq<nat>) {
    |back| == |edges| && forall i :: 0 <= i < |edges| ==> Paired(g, edges[i], back[|edges| - 1 - i])
  }

  ghost predicate Paired(g: Graph, e: nat, f: nat) { exists u :: TwinOf(g, e, u, f) }

  ghost predicate HasTwin(g: Graph, e: nat) { exists f :: Paired(g, e, f) }

  lemma {:induction false} WalkSnoc(g: Graph, a: nat, edges: seq<nat>, b: nat, e: nat)
    requires g.Valid() && Walk(g, a, edges, b) && e < g.NumEdges() && g.OutEdge(b, e)
    ensures Walk(g, a, edges + [e], g.edgeTarget[e])
    ensures Metres(g, edges + [e]) == Metres(g, edges) + g.edgeMeters[e]
    decreases |edges|
  {
    assert g.EdgeOk(e);
    if edges == [] {
      assert edges + [e] == [e] && [e][1..] == [];
    } else {
      WalkSnoc(g, g.edgeTarget[edges[0]], edges[1..], b, e);
      assert (edges + [e])[1..] == edges[1..] + [e];
    }
  }

  /** A reversed walk leads from the end to the start, over the same metres. */
  lemma {:induction false} BackwardWalks(g: Graph, a: nat, edges: seq<nat>, b: nat, back: seq<nat>)
    requires g.Valid() && Walk(g, a, edges, b) && Backward(g, edges, back)
    ensures Walk(g, b, back, a) && Metres(g, back) == Metres(g, edges)
    decreases |edges|
  {
    if edges != [] {
      var n := |edges|;
      var f := back[n - 1];
      assert Paired(g, edges[0], back[n - 1 - 0]);
      var u :| TwinOf(g, edges[0], u, f);
      g.OneSource(u, a, edges[0]);
      forall i | 0 <= i < n - 1 ensures Paired(g, edges[1..][i], back[..n - 1][n - 2 - i]) {
        assert Paired(g, edges[i + 1], back[n - 1 - (i + 1)]);
      }
      BackwardWalks(g, g.edgeTarget[edges[0]], edges[1..], b, back[..n - 1]);
      WalkSnoc(g, b, back[..n - 1], g.edgeTarget[edges[0]], f);
      assert back == back[..n - 1] + [f];
    }
  }

  /** The reverse of a path, if every edge has a twin. */
  method ReversePath(g: Graph, edges: seq<nat>) returns (r: Option<seq<nat>>)
    requires g.Valid() && |g.edgeGeom| == g.NumEdges() && forall i :: 0 <= i < |edges| ==> edges[i] < g.NumEdges()
    ensures r.Some? ==> Backward(g, edges, r.value)
    ensures r.Some? <==> forall i :: 0 <= i < |edges| ==> HasTwin(g, edges[i])
  {
    var back: seq<nat> := seq(|edges|, _ => 0);
    for i := 0 to |edges|
      invariant |back| == |edges|
      invariant forall j :: 0 <= j < i ==> Paired(g, edges[j], back[|edges| - 1 - j])
    {
      var u := g.SourceOf(edges[i]);
      var t := Twin(g, edges[i], u);
      if t.None? {
        NoTwin(g, edges[i], u);
        return None;
      }
      assert Paired(g, edges[i], t.value);
      back := back[|edges| - 1 - i := t.value];
    }
    r := Some(back);
  }

  lemma NoTwin(g: Graph, e: nat, u: nat)
    requires g.Valid() && e < g.NumEdges() && g.OutEdge(u, e) && forall f: nat :: !TwinOf(g, e, u, f)
    ensures !HasTwin(g, e)
  {
    forall f: nat, u': nat ensures !TwinOf(g, e, u', f) {
      if TwinOf(g, e, u', f) { g.OneSource(u, u', e); }
    }
  }

  ghost function Deciseconds(g: Graph, edges: seq<nat>, m: Mode, speedFactor: nat): nat {
    if edges == [] then 0
    else
      (if edges[0] < |g.edgeMeters| == |g.edgeSpeed| then g.EdgeDs(edges[0], m, speedFactor) else 0)
      + Deciseconds(g, edges[1..], m, speedFactor)
  }

  lemma {:induction false} DecisecondsSnoc(g: Graph, edges: seq<nat>, e: nat, m: Mode, speedFactor: nat)
    ensures Deciseconds(g, edges + [e], m, speedFactor)
      == Deciseconds(g, edges, m, speedFactor) + Deciseconds(g, [e], m, speedFactor)
    decreases |edges|
  {
    if edges == [] {
      assert edges + [e] == [e];
    } else {
      DecisecondsSnoc(g, edges[1..], e, m, speedFactor);
      assert (edges + [e])[1..] == edges[1..] + [e];
    }
  }

  /** On foot or by bike the way back takes as long as the way there. */
  lemma {:induction false} BackwardCosts(g: Graph, edges: seq<nat>, back: seq<nat>, m: Mode, speedFactor: nat)
    requires g.Valid() && Backward(g, edges, back) && m != Car
    ensures Deciseconds(g, back, m, speedFactor) == Deciseconds(g, edges, m, speedFactor)
    decreases |edges|
  {
    if edges != [] {
      var n := |edges|;
      var f := back[n - 1];
      assert Paired(g, edges[0], back[n - 1 - 0]);
      forall i | 0 <= i < n - 1 ensures Paired(g, edges[1..][i], back[..n - 1][n - 2 - i]) {
        assert Paired(g, edges[i + 1], back[n - 1 - (i + 1)]);
      }
      BackwardCosts(g, edges[1..], back[..n - 1], m, speedFactor);
      DecisecondsSnoc(g, back[..n - 1], f, m, speedFactor);
      assert back == back[..n - 1] + [f] && [f][1..] == [];
    }
  }
}
