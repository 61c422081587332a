/** Undirected mode components by union-find with path halving, and the snap mask they give. */
module Components {
  import opened Words
  import opened GraphModel

  const MIN_COMPONENT_NODES: nat := 200

  // ---- components, stated by walks -----------------------------------------------------------

  /** An allowed edge before `upto` joins a and b, in either direction. */
  ghost predicate Linked(g: Graph, m: Mode, upto: nat, a: nat, b: nat) {
    exists e: nat :: e < upto && (Joins(g, m, e, a, b) || Joins(g, m, e, b, a))
  }

  ghost predicate Joins(g: Graph, m: Mode, e: nat, a: nat, b: nat) {
    g.OutEdge(a, e) && e < |g.edgeTarget| == |g.edgeFlags| && g.edgeTarget[e] == b && g.Allowed(e, m)
  }

  /** a is joined to b through the listed nodes, the last of which is b. */
  ghost predicate Via(g: Graph, m: Mode, upto: nat, a: nat, nodes: seq<nat>, b: nat)
    decreases |nodes|
  {
    if nodes == [] then a == b
    else Linked(g, m, upto, a, nodes[0]) && Via(g, m, upto, nodes[0], nodes[1..], b)
  }

  ghost predicate Connected(g: Graph, m: Mode, upto: nat, a: nat, b: nat) {
    exists nodes :: Via(g, m, upto, a, nodes, b)
  }

  /** The undirected component of a node in one mode. */
  ghost function Component(g: Graph, m: Mode, a: nat): set<nat> {
    set b: nat | b < g.NumNodes() && Connected(g, m, g.NumEdges(), a, b)
  }

  ghost predicate Touches(g: Graph, m: Mode, a: nat) {
    exists e: nat, b: nat :: Joins(g, m, e, a, b) || Joins(g, m, e, b, a)
  }

  function ComponentThreshold(n: nat): nat {
    if n / 4 < MIN_COMPONENT_NODES then (if n / 4 > 2 then n / 4 else 2) else MIN_COMPONENT_NODES
  }

  /** n may be snapped to in mode m: it has an edge of that mode and its component is large enough. */
  ghost predicate Snappable(g: Graph, m: Mode, a: nat) {
    Touches(g, m, a) && |Component(g, m, a)| >= ComponentThreshold(g.NumNodes())
  }

  lemma {:induction false} ViaTrans(g: Graph, m: Mode, upto: nat, a: nat, p: seq<nat>, b: nat, q: seq<nat>, c: nat)
    requires Via(g, m, upto, a, p, b) && Via(g, m, upto, b, q, c)
    ensures Via(g, m, upto, a, p + q, c)
    decreases |p|
  {
    if p == [] {
      assert p + q == q;
    } else {
      ViaTrans(g, m, upto, p[0], p[1..], b, q, c);
      assert (p + q)[1..] == p[1..] + q;
    }
  }

  lemma {:induction false} ViaSym(g: Graph, m: Mode, upto: nat, a: nat, p: seq<nat>, b: nat) returns (q: seq<nat>)
    requires Via(g, m, upto, a, p, b)
    ensures Via(g, m, upto, b, q, a)
    decreases |p|
  {
    if p == [] {
      q := [];
    } else {
      q := ViaSym(g, m, upto, p[0], p[1..], b);
      LinkedSym(g, m, upto, a, p[0]);
      assert Via(g, m, upto, a, [], a);
      assert [a][1..] == [];
      assert Via(g, m, upto, p[0], [a], a);
      ViaTrans(g, m, upto, b, q, p[0], [a], a);
      q := q + [a];
    }
  }

  lemma LinkedSym(g: Graph, m: Mode, upto: nat, a: nat, b: nat)
    requires Linked(g, m, upto, a, b)
    ensures Linked(g, m, upto, b, a)
  {
    var e: nat :| e < upto && (Joins(g, m, e, a, b) || Joins(g, m, e, b, a));
  }

  lemma {:induction false} ViaMono(g: Graph, m: Mode, upto: nat, upto': nat, a: nat, p: seq<nat>, b: nat)
    requires Via(g, m, upto, a, p, b) && upto <= upto'
    ensures Via(g, m, upto', a, p, b)
    decreases |p|
  {
    if p != [] {
      var e: nat :| e < upto && (Joins(g, m, e, a, p[0]) || Joins(g, m, e, p[0], a));
      ViaMono(g, m, upto, upto', p[0], p[1..], b);
    }
  }

  lemma ConnectedTrans(g: Graph, m: Mode, upto: nat, a: nat, b: nat, c: nat)
    requires Connected(g, m, upto, a, b) && Connected(g, m, upto, b, c)
    ensures Connected(g, m, upto, a, c)
  {
    var p :| Via(g, m, upto, a, p, b);
    var q :| Via(g, m, upto, b, q, c);
    ViaTrans(g, m, upto, a, p, b, q, c);
  }

  lemma ConnectedSym(g: Graph, m: Mode, upto: nat, a: nat, b: nat)
    requires Connected(g, m, upto, a, b)
    ensures Connected(g, m, upto, b, a)
  {
    var p :| Via(g, m, upto, a, p, b);
    var q := ViaSym(g, m, upto, a, p, b);
  }

  lemma ConnectedMono(g: Graph, m: Mode, upto: nat, upto': nat, a: nat, b: nat)
    requires Connected(g, m, upto, a, b) && upto <= upto'
    ensures Connected(g, m, upto', a, b)
  {
    var p :| Via(g, m, upto, a, p, b);
    ViaMono(g, m, upto, upto', a, p, b);
  }

  lemma LinkConnects(g: Graph, m: Mode, upto: nat, a: nat, b: nat)
    requires Linked(g, m, upto, a, b)
    ensures Connected(g, m, upto, a, b)
  {
    assert [b][1..] == [];
    assert Via(g, m, upto, b, [], b);
    assert Via(g, m, upto, a, [b], b);
  }

  lemma SelfConnected(g: Graph, m: Mode, upto: nat, a: nat)
    ensures Connected(g, m, upto, a, a)
  {
    assert Via(g, m, upto, a, [], a);
  }

  // ---- the union-find forest --------------------------------------------------------------------

  /** The ghost reading of a parent array: each node's representative, and ranks that rise towards it. */
  datatype Forest = Forest(rep: seq<nat>, rank: seq<nat>, top: nat)

  ghost predicate NodeOk(parent: seq<nat>, f: Forest, x: nat)
    requires |parent| == |f.rep| == |f.rank| && x < |parent|
  {
    && parent[x] < |parent| && f.rep[x] < |parent| && f.rank[x] <= f.top
    && f.rep[parent[x]] == f.rep[x]
    && parent[f.rep[x]] == f.rep[x]
    && (parent[x] == x ==> f.rep[x] == x)
    && (parent[x] != x ==> f.rank[x] < f.rank[parent[x]])
  }

  ghost predicate ForestOk(parent: seq<nat>, f: Forest) {
    && |parent| == |f.rep| == |f.rank|
    && forall x :: 0 <= x < |parent| ==> NodeOk(parent, f, x)
  }

  /** The representatives after root ru is hung below root rv. */
  ghost function Joined(f: Forest, ru: nat, rv: nat): Forest
    requires |f.rep| == |f.rank|
  {
    Forest(
      seq(|f.rep|, x requires 0 <= x < |f.rep| => if f.rep[x] == ru then rv else f.rep[x]),
      seq(|f.rep|, x requires 0 <= x < |f.rep| => f.rank[x] + if f.rep[x] == rv then f.top + 1 else 0),
      f.top + f.top + 1)
  }

  lemma JoinKeeps(parent: seq<nat>, f: Forest, ru: nat, rv: nat)
    requires ForestOk(parent, f) && ru < |parent| && rv < |parent| && ru != rv
    requires parent[ru] == ru && parent[rv] == rv
    ensures ForestOk(parent[ru := rv], Joined(f, ru, rv))
  {
    var parent', f' := parent[ru := rv], Joined(f, ru, rv);
    assert NodeOk(parent, f, ru) && NodeOk(parent, f, rv);
    forall x | 0 <= x < |parent'|
      ensures NodeOk(parent', f', x)
    {
      assert NodeOk(parent, f, x);
      assert NodeOk(parent, f, parent[x]);
    }
  }

  lemma HalveKeeps(parent: seq<nat>, f: Forest, x: nat)
    requires ForestOk(parent, f) && x < |parent| && parent[x] < |parent| && parent[x] != x
    ensures ForestOk(parent[x := parent[parent[x]]], f)
  {
    var parent' := parent[x := parent[parent[x]]];
    assert NodeOk(parent, f, x) && NodeOk(parent, f, parent[x]);
    forall y | 0 <= y < |parent'|
      ensures NodeOk(parent', f, y)
    {
      assert NodeOk(parent, f, y);
    }
  }

  /** The representative of x; every second parent on the way is shortcut. */
  method Find(parent: array<nat>, ghost f: Forest, start: nat) returns (x: nat)
    requires ForestOk(parent[..], f) && start < parent.Length
    modifies parent
    ensures ForestOk(parent[..], f) && x == f.rep[start] < parent.Length && parent[x] == x
  {
    x := start;
    assert NodeOk(parent[..], f, x);
    while parent[x] != x
      invariant ForestOk(parent[..], f) && x < parent.Length && f.rep[x] == f.rep[start]
      invariant NodeOk(parent[..], f, x)
      decreases f.top - f.rank[x]
    {
      ghost var before := parent[..];
      HalveKeeps(before, f, x);
      assert NodeOk(before, f, parent[x]);
      parent[x] := parent[parent[x]];
      assert parent[..] == before[x := before[before[x]]];
      x := parent[x];
      assert NodeOk(parent[..], f, x);
    }
  }

  /** The forest describes the components of the allowed edges before `upto`. */
  ghost predicate Describes(g: Graph, m: Mode, f: Forest, upto: nat) {
    && |f.rep| == g.NumNodes()
    && (forall a: nat :: Grounded(g, m, f, upto, a))
    && forall e: nat, a: nat, b: nat :: e < upto && Joins(g, m, e, a, b) ==> SameRep(f, a, b)
  }

  /** a is connected to its representative. */
  ghost predicate Grounded(g: Graph, m: Mode, f: Forest, upto: nat, a: nat) {
    a < |f.rep| ==> Connected(g, m, upto, a, f.rep[a])
  }

  ghost predicate SameRep(f: Forest, a: nat, b: nat) {
    a < |f.rep| && b < |f.rep| && f.rep[a] == f.rep[b]
  }

  /** A node whose representative was u's is connected to v's once edge `upto` joins u and v. */
  lemma ThroughNewEdge(g: Graph, m: Mode, f: Forest, upto: nat, next: nat, u: nat, v: nat, a: nat)
    requires Describes(g, m, f, upto) && Joins(g, m, upto, u, v) && next == upto + 1
    requires u < |f.rep| && v < |f.rep| && a < |f.rep| && f.rep[a] == f.rep[u]
    ensures Connected(g, m, next, a, f.rep[v])
  {
    assert Grounded(g, m, f, upto, a) && Grounded(g, m, f, upto, u) && Grounded(g, m, f, upto, v);
    ConnectedMono(g, m, upto, next, a, f.rep[a]);
    ConnectedMono(g, m, upto, next, u, f.rep[u]);
    ConnectedMono(g, m, upto, next, v, f.rep[v]);
    ConnectedSym(g, m, next, u, f.rep[u]);
    ConnectedTrans(g, m, next, a, f.rep[u], u);
    assert Linked(g, m, next, u, v);
    LinkConnects(g, m, next, u, v);
    ConnectedTrans(g, m, next, a, u, v);
    ConnectedTrans(g, m, next, a, v, f.rep[v]);
  }

  /** Joining the representatives of u and v accounts for edge `upto`. */
  lemma DescribesNext(g: Graph, m: Mode, f: Forest, upto: nat, next: nat, u: nat, v: nat)
    requires g.Valid() && |f.rep| == |f.rank| && Describes(g, m, f, upto) && Joins(g, m, upto, u, v)
    requires u < g.NumNodes() && v < g.NumNodes() && next == upto + 1
    ensures Describes(g, m, if f.rep[u] == f.rep[v] then f else Joined(f, f.rep[u], f.rep[v]), next)
  {
    var f' := if f.rep[u] == f.rep[v] then f else Joined(f, f.rep[u], f.rep[v]);
    forall a: nat ensures Grounded(g, m, f', next, a) {
      assert Grounded(g, m, f, upto, a);
      if a >= |f.rep| {
      } else if f.rep[a] == f.rep[u] {
        ThroughNewEdge(g, m, f, upto, next, u, v, a);
      } else {
        ConnectedMono(g, m, upto, next, a, f.rep[a]);
      }
    }
    forall e: nat, a: nat, b: nat | e < next && Joins(g, m, e, a, b) ensures SameRep(f', a, b) {
      if e < upto {
        assert SameRep(f, a, b);
      } else {
        g.OneSource(a, u, e);
      }
    }
  }

  lemma DescribesSkip(g: Graph, m: Mode, f: Forest, upto: nat, next: nat)
    requires next == upto + 1 && Describes(g, m, f, upto) && upto < |g.edgeTarget| == |g.edgeFlags| &&
      !g.Allowed(upto, m)
    ensures Describes(g, m, f, next)
  {
    forall a: nat ensures Grounded(g, m, f, next, a) {
      assert Grounded(g, m, f, upto, a);
      if a < |f.rep| { ConnectedMono(g, m, upto, next, a, f.rep[a]); }
    }
  }

  /** Two nodes have the same representative exactly when they are connected. */
  lemma RepIsComponent(g: Graph, m: Mode, f: Forest, a: nat, b: nat)
    requires Describes(g, m, f, g.NumEdges()) && a < |f.rep| && b < |f.rep|
    ensures f.rep[a] == f.rep[b] <==> Connected(g, m, g.NumEdges(), a, b)
  {
    if f.rep[a] == f.rep[b] {
      assert Grounded(g, m, f, g.NumEdges(), a) && Grounded(g, m, f, g.NumEdges(), b);
      ConnectedSym(g, m, g.NumEdges(), b, f.rep[b]);
      ConnectedTrans(g, m, g.NumEdges(), a, f.rep[a], b);
    }
    if Connected(g, m, g.NumEdges(), a, b) {
      var p :| Via(g, m, g.NumEdges(), a, p, b);
      ViaSameRep(g, m, f, a, p, b);
    }
  }

  lemma {:induction false} ViaSameRep(g: Graph, m: Mode, f: Forest, a: nat, p: seq<nat>, b: nat)
    requires Describes(g, m, f, g.NumEdges()) && a < |f.rep| && b < |f.rep| && Via(g, m, g.NumEdges(), a, p, b)
    ensures f.rep[a] == f.rep[b]
    decreases |p|
  {
    if p != [] {
      var e: nat :| e < g.NumEdges() && (Joins(g, m, e, a, p[0]) || Joins(g, m, e, p[0], a));
      assert SameRep(f, a, p[0]) || SameRep(f, p[0], a);
      ViaSameRep(g, m, f, p[0], p[1..], b);
    }
  }

  // ---- the snap mask -------------------------------------------------------------------------------

  /** Joins the end points of every allowed edge. */
  method JoinEdges(g: Graph, m: Mode) returns (parent: array<nat>, ghost f: Forest)
    requires g.Valid()
    ensures fresh(parent) && ForestOk(parent[..], f) && Describes(g, m, f, g.NumEdges()) &&
      parent.Length == g.NumNodes()
  {
    var n := g.NumNodes();
    parent := new nat[n](i => i);
    f := Forest(seq(n, i requires 0 <= i < n => i), seq(n, _ => 0), 0);
    assert forall x :: 0 <= x < n ==> parent[..][x] == x;
    forall a: nat ensures Grounded(g, m, f, 0, a) { SelfConnected(g, m, 0, a); }
    var u, done := 0, 0;
    while u < n
      invariant 0 <= u <= n && fresh(parent) && parent.Length == n
      invariant done == g.firstEdge[u]
      invariant ForestOk(parent[..], f) && Describes(g, m, f, done)
    {
      assert g.Ordered(u, u + 1) && g.Ordered(u + 1, n);
      done, f := JoinOut(g, m, parent, f, u);
      u := u + 1;
    }
  }

  /** Joins node u with the targets of its allowed out-edges. */
  method JoinOut(g: Graph, m: Mode, parent: array<nat>, ghost f: Forest, u: nat) returns (done: nat, ghost f': Forest)
    requires g.Valid() && u < g.NumNodes() && parent.Length == g.NumNodes()
    requires ForestOk(parent[..], f) && Describes(g, m, f, g.firstEdge[u])
    modifies parent
    ensures done == g.firstEdge[u + 1] && ForestOk(parent[..], f') && Describes(g, m, f', done)
  {
    assert g.Ordered(u, u + 1) && g.Ordered(u + 1, g.NumNodes());
    var e := g.firstEdge[u];
    f' := f;
    while e < g.firstEdge[u + 1]
      invariant g.firstEdge[u] <= e <= g.firstEdge[u + 1]
      invariant ForestOk(parent[..], f') && Describes(g, m, f', e)
    {
      assert g.EdgeOk(e);
      if g.Allowed(e, m) {
        assert Joins(g, m, e, u, g.edgeTarget[e]);
        DescribesNext(g, m, f', e, e + 1, u, g.edgeTarget[e]);
        var ru := Find(parent, f', u);
        var rv := Find(parent, f', g.edgeTarget[e]);
        assert NodeOk(parent[..], f', u);
        if ru != rv {
          ghost var before := parent[..];
          JoinKeeps(before, f', ru, rv);
          parent[ru] := rv;
          assert parent[..] == before[ru := rv];
          f' := Joined(f', ru, rv);
        }
      } else {
        DescribesSkip(g, m, f', e, e + 1);
      }
      e := e + 1;
    }
    done := e;
  }

  /** Marks the nodes touched by an allowed edge. */
  method MarkTouched(g: Graph, m: Mode) returns (hasMode: seq<bool>)
    requires g.Valid()
    ensures |hasMode| == g.NumNodes() && forall a: nat :: a < |hasMode| ==> (hasMode[a] <==> Touches(g, m, a))
  {
    hasMode := seq(g.NumNodes(), _ => false);
    var u := 0;
    while u < g.NumNodes()
      invariant 0 <= u <= g.NumNodes() && |hasMode| == g.NumNodes()
      invariant forall a: nat :: a < |hasMode| && hasMode[a] ==> Touches(g, m, a)
      invariant forall e: nat, a: nat, b: nat :: a < u && Joins(g, m, e, a, b) ==> MarkedBoth(hasMode, a, b)
    {
      assert g.Ordered(u, u + 1) && g.Ordered(u + 1, g.NumNodes());
      var e := g.firstEdge[u];
      while e < g.firstEdge[u + 1]
        invariant g.firstEdge[u] <= e <= g.firstEdge[u + 1] && |hasMode| == g.NumNodes()
        invariant forall a: nat :: a < |hasMode| && hasMode[a] ==> Touches(g, m, a)
        invariant forall e': nat, a: nat, b: nat :: (a < u || (a == u && e' < e)) && Joins(g, m, e', a, b) ==>
          MarkedBoth(hasMode, a, b)
      {
        assert g.EdgeOk(e);
        if g.Allowed(e, m) {
          assert Joins(g, m, e, u, g.edgeTarget[e]);
          hasMode := hasMode[u := true][g.edgeTarget[e] := true];
        }
        e := e + 1;
      }
      u := u + 1;
    }
    forall a: nat | a < |hasMode| && Touches(g, m, a) ensures hasMode[a] {
      var e: nat, b: nat :| Joins(g, m, e, a, b) || Joins(g, m, e, b, a);
      assert MarkedBoth(hasMode, a, b) || MarkedBoth(hasMode, b, a);
    }
  }

  ghost predicate MarkedBoth(hasMode: seq<bool>, a: nat, b: nat) {
    a < |hasMode| && b < |hasMode| && hasMode[a] && hasMode[b]
  }

  /** The touched nodes below i whose representative is r. */
  ghost function Members(hasMode: seq<bool>, f: Forest, r: nat, i: nat): set<nat>
    requires |hasMode| == |f.rep| && i <= |hasMode|
  {
    set x: nat | x < i && hasMode[x] && f.rep[x] == r
  }

  lemma MembersAreComponent(g: Graph, m: Mode, hasMode: seq<bool>, f: Forest, a: nat)
    requires g.Valid() && Describes(g, m, f, g.NumEdges()) && |hasMode| == |f.rep| && a < |f.rep|
    requires forall x: nat :: x < |hasMode| ==> (hasMode[x] <==> Touches(g, m, x))
    requires hasMode[a]
    ensures Members(hasMode, f, f.rep[a], |hasMode|) == Component(g, m, a)
  {
    forall b: nat | b < |hasMode|
      ensures b in Members(hasMode, f, f.rep[a], |hasMode|) <==> b in Component(g, m, a)
    {
      RepIsComponent(g, m, f, a, b);
      if Connected(g, m, g.NumEdges(), a, b) && a != b {
        ConnectedSym(g, m, g.NumEdges(), a, b);
        var p :| Via(g, m, g.NumEdges(), b, p, a);
        assert Linked(g, m, g.NumEdges(), b, p[0]);
      }
    }
  }

  /** Counts the touched nodes of each component, by representative. */
  method CountMembers(hasMode: seq<bool>, parent: array<nat>, ghost f: Forest) returns (sizes: map<nat, nat>)
    requires ForestOk(parent[..], f) && |hasMode| == parent.Length
    modifies parent
    ensures ForestOk(parent[..], f)
    ensures forall r: nat :: (if r in sizes then sizes[r] else 0) == |Members(hasMode, f, r, |hasMode|)|
  {
    sizes := map[];
    var i := 0;
    while i < |hasMode|
      invariant 0 <= i <= |hasMode| && ForestOk(parent[..], f)
      invariant forall r: nat :: (if r in sizes then sizes[r] else 0) == |Members(hasMode, f, r, i)|
    {
      ghost var before := sizes;
      if hasMode[i] {
        var r := Find(parent, f, i);
        sizes := sizes[r := (if r in sizes then sizes[r] else 0) + 1];
      }
      forall r: nat ensures (if r in sizes then sizes[r] else 0) == |Members(hasMode, f, r, i + 1)| {
        MembersNext(hasMode, f, r, i);
      }
      i := i + 1;
    }
  }

  lemma MembersNext(hasMode: seq<bool>, f: Forest, r: nat, i: nat)
    requires |hasMode| == |f.rep| && i < |hasMode|
    ensures |Members(hasMode, f, r, i + 1)| == |Members(hasMode, f, r, i)| + if hasMode[i] && f.rep[i] == r then 1
      else 0
  {
    assert Members(hasMode, f, r, i + 1) == Members(hasMode, f, r, i) + if hasMode[i] && f.rep[i] == r then {i} else {};
  }

  /** Sets one mode's bit on the nodes that may be snapped to in that mode. */
  method LabelMode(g: Graph, m: Mode, ok: seq<Flags>) returns (ok': seq<Flags>)
    requires g.Valid() && |ok| == g.NumNodes()
    ensures |ok'| == |ok|
    ensures forall a: nat :: a < |ok| ==> ok'[a] == if Snappable(g, m, a) then ok[a].With(m) else ok[a]
  {
    var parent, f := JoinEdges(g, m);
    var hasMode := MarkTouched(g, m);
    var sizes := CountMembers(hasMode, parent, f);
    var thr := ComponentThreshold(g.NumNodes());
    ok' := ok;
    var i := 0;
    while i < |ok|
      invariant 0 <= i <= |ok| && fresh(parent) && parent.Length == |ok| && ForestOk(parent[..], f) && |ok'| == |ok|
      invariant forall a: nat :: a < |ok| ==> ok'[a] == if a < i && Snappable(g, m, a) then ok[a].With(m) else ok[a]
    {
      if hasMode[i] {
        var r := Find(parent, f, i);
        MembersAreComponent(g, m, hasMode, f, i);
        if (if r in sizes then sizes[r] else 0) >= thr {
          ok' := ok'[i := ok'[i].With(m)];
        }
      }
      i := i + 1;
    }
  }

  /** The snap mask of every node: a mode's bit is set exactly for the nodes of its large components. */
  method SnapComponents(g: Graph) returns (ok: seq<Flags>)
    requires g.Valid()
    ensures |ok| == g.NumNodes()
    ensures forall a: nat, m: Mode :: a < |ok| ==> (ok[a].Has(m) <==> Snappable(g, m, a))
  {
    ok := seq(g.NumNodes(), _ => NO_FLAGS);
    ok := LabelMode(g, Car, ok);
    ok := LabelMode(g, Bike, ok);
    ok := LabelMode(g, Foot, ok);
  }
}
