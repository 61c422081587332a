/** Point-to-point weighted A*: nodes are reopened, the heuristic is a parameter. */
module RoadSearching {
  import opened Words
  import opened GraphModel
  import opened Heap
  import opened Reversing
  import opened LabelStores

  /** The largest uint32: no complete route yet. */
  const NEVER: nat := TWO_32 - 1

  /** What a run is asked; h holds the weighted heuristic of each node. */
  datatype Task = Task(g: Graph, mode: Travel, src: seq<Seed>, dst: seq<Seed>, h: seq<nat>)
  {
    ghost predicate Valid() {
      && g.Valid() && |h| == g.NumNodes()
      && (forall i: nat :: SeedOk(src, i)) && (forall i: nat :: SeedOk(dst, i))
    }

    ghost predicate SeedOk(seeds: seq<Seed>, i: nat) {
      i < |seeds| ==> seeds[i].node < g.NumNodes()
    }
  }

  datatype RoadResult = RoadResult(edges: seq<nat>, ds: nat, endSeed: int, settled: nat, found: bool)

  // ---- sums that must not wrap ------------------------------------------------------------

  /** The node reached by the first j edges from source seed i. */
  ghost function NodeAfter(k: Task, i: nat, edges: seq<nat>, j: nat): int
    requires i < |k.src| && j <= |edges|
  {
    if j == 0 then k.src[i].node else if edges[j - 1] < |k.g.edgeTarget| then k.g.edgeTarget[edges[j - 1]] else -1
  }

  /** The path visits no node twice. */
  ghost predicate Simple(k: Task, i: nat, edges: seq<nat>)
    requires i < |k.src|
  {
    forall a, b :: 0 <= a < b <= |edges| ==> NodeAfter(k, i, edges, a) != NodeAfter(k, i, edges, b)
  }

  /** What the search adds to a cost c of reaching n: its heuristic, a completion cost, the cost of one more edge. None
      of the sums wraps, and none is the value that stands for no route. */
  ghost predicate Fits(k: Task, n: nat, c: nat) {
    && (n < |k.h| ==> c + k.h[n] < NEVER)
    && (forall j :: 0 <= j < |k.dst| && k.dst[j].node == n ==> c + k.dst[j].ds < NEVER)
    && forall e :: Step(k.g, k.mode, n, e) ==> c + Cost(k.g, k.mode, e) < TWO_32
  }

  /** The sums at the end of every seeded path of allowed edges that visits no node twice fit 32 bits. */
  ghost predicate NoWrap(k: Task) {
    forall i, edges, n, c | Reaches(k.g, k.mode, k.src, i, edges, n, c) && Simple(k, i, edges) :: Fits(k, n, c)
  }

  /** What a caller may check instead: with N nodes and no edge, seed, heuristic or completion above these bounds. */
  ghost predicate Bounded(k: Task, edge: nat, seed: nat, more: nat) {
    && (forall i :: 0 <= i < |k.src| ==> k.src[i].ds <= seed)
    && (forall e: nat :: Cost(k.g, k.mode, e) <= edge)
    && (forall n :: 0 <= n < |k.h| ==> k.h[n] <= more) && (forall j :: 0 <= j < |k.dst| ==> k.dst[j].ds <= more)
    && edge <= more && seed + k.g.NumNodes() * edge + more < NEVER
  }

  /** Different numbers below n are at most n. */
  lemma {:induction false} Pigeonhole(s: seq<int>, n: nat)
    requires (forall a, b :: 0 <= a < b < |s| ==> s[a] != s[b]) && forall a :: 0 <= a < |s| ==> 0 <= s[a] < n
    ensures |s| <= n
    decreases n
  {
    if s != [] {
      assert 0 <= s[0] < n;
      if i :| 0 <= i < |s| && s[i] == n - 1 {
        Pigeonhole(s[..i] + s[i + 1..], n - 1);
      } else {
        Pigeonhole(s, n - 1);
      }
    }
  }

  lemma {:induction false} OnNodes(k: Task, i: nat, edges: seq<nat>, a: nat, n: nat, j: nat)
    requires k.Valid() && i < |k.src| && a == k.src[i].node && Path(k.g, k.mode, a, edges, n) && j <= |edges|
    ensures 0 <= NodeAfter(k, i, edges, j) < k.g.NumNodes()
    decreases |edges|
  {
    if edges != [] {
      var mid := PathInit(k.g, k.mode, a, edges, n);
      var last := edges[|edges| - 1];
      assert k.g.EdgeOk(last);
      if j < |edges| {
        OnNodes(k, i, edges[..|edges| - 1], a, mid, j);
        assert NodeAfter(k, i, edges, j) == NodeAfter(k, i, edges[..|edges| - 1], j);
      }
    }
  }

  /** A path that visits no node twice has fewer edges than the graph has nodes. */
  lemma SimpleIsShort(k: Task, i: nat, edges: seq<nat>, n: nat, c: nat)
    requires k.Valid() && Reaches(k.g, k.mode, k.src, i, edges, n, c) && Simple(k, i, edges)
    ensures |edges| < k.g.NumNodes()
  {
    var nodes := seq(|edges| + 1, j requires 0 <= j < |edges| + 1 => NodeAfter(k, i, edges, j));
    forall j | 0 <= j < |nodes| ensures 0 <= nodes[j] < k.g.NumNodes() { OnNodes(k, i, edges, k.src[i].node, n, j); }
    Pigeonhole(nodes, k.g.NumNodes());
  }

  lemma {:induction false} CostAtMost(g: Graph, mode: Travel, edges: seq<nat>, edge: nat)
    requires forall e: nat :: Cost(g, mode, e) <= edge
    ensures PathCost(g, mode, edges) <= |edges| * edge
    decreases |edges|
  {
    if edges != [] {
      CostAtMost(g, mode, edges[1..], edge);
      assert |edges| * edge == edge + (|edges| - 1) * edge;
    }
  }

  lemma LargerTimes(a: nat, b: nat, c: nat)
    requires a <= b
    ensures a * c <= b * c
  {
  }

  lemma PathBounded(k: Task, edge: nat, seed: nat, more: nat, i: nat, edges: seq<nat>, n: nat, c: nat)
    requires k.Valid() && Bounded(k, edge, seed, more)
    requires Reaches(k.g, k.mode, k.src, i, edges, n, c) && Simple(k, i, edges)
    ensures c <= seed + k.g.NumNodes() * edge
  {
    SimpleIsShort(k, i, edges, n, c);
    CostAtMost(k.g, k.mode, edges, edge);
    LargerTimes(|edges|, k.g.NumNodes(), edge);
  }

  /** Within such bounds nothing wraps. */
  lemma BoundedFits(k: Task, edge: nat, seed: nat, more: nat)
    requires k.Valid() && Bounded(k, edge, seed, more)
    ensures NoWrap(k)
  {
    forall i: nat, edges, n: nat, c: nat | Reaches(k.g, k.mode, k.src, i, edges, n, c) && Simple(k, i, edges)
      ensures Fits(k, n, c) {
      PathBounded(k, edge, seed, more, i, edges, n, c);
      FitsBelow(k, edge, more, n, c);
    }
  }

  lemma FitsBelow(k: Task, edge: nat, more: nat, n: nat, c: nat)
    requires (forall e: nat :: Cost(k.g, k.mode, e) <= edge)
      && (forall n :: 0 <= n < |k.h| ==> k.h[n] <= more) && forall j :: 0 <= j < |k.dst| ==> k.dst[j].ds <= more
    requires edge <= more && c + more < NEVER
    ensures Fits(k, n, c)
  {
  }

  // ---- labels -------------------------------------------------------------------------------

  /** The cheapest completion cost per destination node. */
  ghost predicate DstOk(k: Task, dst: map<nat, nat>) {
    && (forall i :: 0 <= i < |k.dst| ==> k.dst[i].node in dst && dst[k.dst[i].node] <= k.dst[i].ds)
    && (forall d :: d in dst ==>
          d < k.g.NumNodes() && exists i :: 0 <= i < |k.dst| && k.dst[i].node == d && k.dst[i].ds == dst[d])
  }

  ghost predicate Sound(k: Task, l: Labels, n: nat) {
    l.Has(n) ==>
      && (exists i, edges :: Realised(k, l, i, edges, n, l.dist[n]))
      && Accounted(k, l, n)
  }

  /** The j-th node of the path has a label no larger than the cost of getting there along it. */
  ghost predicate KeepsAt(k: Task, l: Labels, i: nat, edges: seq<nat>, j: nat)
    requires i < |k.src|
  {
    j <= |edges| ==>
      var v := NodeAfter(k, i, edges, j);
      v >= 0 && l.Has(v) && l.dist[v] <= k.src[i].ds + PathCost(k.g, k.mode, edges[..j])
  }

  /** The path costs c and ends at n, visits no node twice, and all its nodes are labelled accordingly. */
  ghost predicate Realised(k: Task, l: Labels, i: nat, edges: seq<nat>, n: nat, c: nat) {
    && Reaches(k.g, k.mode, k.src, i, edges, n, c) && Simple(k, i, edges)
    && forall j: nat :: KeepsAt(k, l, i, edges, j)
  }

  /** A path to v at cost ds, all of whose nodes but the last are different and labelled. */
  ghost predicate Offered(k: Task, l: Labels, i: nat, edges: seq<nat>, v: nat, ds: nat) {
    && Reaches(k.g, k.mode, k.src, i, edges, v, ds)
    && (forall a, b :: 0 <= a < b < |edges| ==> NodeAfter(k, i, edges, a) != NodeAfter(k, i, edges, b))
    && forall j: nat :: j < |edges| ==> KeepsAt(k, l, i, edges, j)
  }

  lemma {:induction false} PrefixCost(g: Graph, mode: Travel, edges: seq<nat>, j: nat)
    requires j <= |edges|
    ensures PathCost(g, mode, edges[..j]) <= PathCost(g, mode, edges)
    decreases |edges|
  {
    if j > 0 {
      PrefixCost(g, mode, edges[1..], j - 1);
      assert edges[..j][1..] == edges[1..][..j - 1];
    }
  }

  lemma {:induction false} EndsAtLast(k: Task, i: nat, edges: seq<nat>, a: nat, n: nat)
    requires k.Valid() && i < |k.src| && Path(k.g, k.mode, a, edges, n) && a == k.src[i].node
    ensures NodeAfter(k, i, edges, |edges|) == n
  {
    if edges != [] { var mid := PathInit(k.g, k.mode, a, edges, n); }
  }

  /** An offer that improves its node's label visits it only at the end, so the new label is realised. */
  lemma OfferRealised(k: Task, l: Labels, i: nat, edges: seq<nat>, v: nat, ds: nat, p: int)
    requires k.Valid() && l.Sized(k.g.NumNodes()) && v < k.g.NumNodes() && Offered(k, l, i, edges, v, ds)
    requires !l.Has(v) || ds < l.dist[v]
    ensures Realised(k, l.Improved(v, ds, p), i, edges, v, ds)
  {
    var l', n := l.Improved(v, ds, p), |edges|;
    EndsAtLast(k, i, edges, k.src[i].node, v);
    assert edges[..n] == edges;
    forall a | 0 <= a < n ensures NodeAfter(k, i, edges, a) != v {
      assert KeepsAt(k, l, i, edges, a);
      PrefixCost(k.g, k.mode, edges, a);
    }
    forall j: nat ensures KeepsAt(k, l', i, edges, j) {
      if j < n { assert KeepsAt(k, l, i, edges, j); }
    }
  }

  /** A better label elsewhere leaves a realised label realised. */
  lemma StillRealised(k: Task, l: Labels, v: nat, ds: nat, p: int, i: nat, edges: seq<nat>, n: nat, c: nat)
    requires l.Sized(k.g.NumNodes()) && v < k.g.NumNodes() && (!l.Has(v) || ds < l.dist[v])
    requires Realised(k, l, i, edges, n, c)
    ensures Realised(k, l.Improved(v, ds, p), i, edges, n, c)
  {
    forall j: nat ensures KeepsAt(k, l.Improved(v, ds, p), i, edges, j) { assert KeepsAt(k, l, i, edges, j); }
  }

  ghost predicate Accounted(k: Task, l: Labels, n: nat)
    requires l.Has(n)
  {
    if l.parent[n] < 0 then
      exists i :: 0 <= i < |k.src| && k.src[i].node == n && k.src[i].ds == l.dist[n]
    else
      exists u :: EdgeAccounts(k, l, u, l.parent[n], n)
  }

  ghost predicate EdgeAccounts(k: Task, l: Labels, u: nat, e: nat, n: nat)
    requires l.Has(n)
  {
    && l.Has(u) && Step(k.g, k.mode, u, e) && k.g.edgeTarget[e] == n
    && l.dist[u] + Cost(k.g, k.mode, e) <= l.dist[n]
  }

  /** Edge e leads from the labelled node u to v, at total cost ds. */
  ghost predicate NewEdge(k: Task, l: Labels, u: nat, e: nat, v: nat, ds: nat) {
    && u != v && l.Has(u) && Step(k.g, k.mode, u, e) && k.g.edgeTarget[e] == v
    && ds == l.dist[u] + Cost(k.g, k.mode, e)
  }

  ghost predicate Relaxed(k: Task, l: Labels, n: nat, e: nat)
    requires l.Has(n)
  {
    Step(k.g, k.mode, n, e) ==>
      l.Has(k.g.edgeTarget[e]) && l.dist[k.g.edgeTarget[e]] <= l.dist[n] + Cost(k.g, k.mode, e)
  }

  /** The route through n, if n is a destination, is counted in best. */
  ghost predicate Counted(dst: map<nat, nat>, l: Labels, n: nat, best: nat)
    requires l.Has(n)
  {
    n in dst ==> best <= l.dist[n] + dst[n]
  }

  ghost predicate Queued(k: Task, l: Labels, heap: seq<nat>, n: nat)
    requires l.Has(n)
  {
    n < |k.h| && Pack(l.dist[n] + k.h[n], n) in heap
  }

  /** Every labelled node is queued at its label, or counted and relaxed: fully, or, while it is being
      settled, up to edge `upto`. */
  ghost predicate Settled(k: Task, dst: map<nat, nat>, l: Labels, heap: seq<nat>, best: nat, n: nat, busy: int,
      upto: nat) {
    l.Has(n) ==>
      || (n != busy && Queued(k, l, heap, n))
      || (Counted(dst, l, n, best) && forall e: nat :: (n == busy ==> e < upto) ==> Relaxed(k, l, n, e))
  }

  ghost predicate SeedUsed(k: Task, l: Labels, i: nat) {
    i < |k.src| ==> l.Has(k.src[i].node) && l.dist[k.src[i].node] <= k.src[i].ds
  }

  ghost predicate Entries(k: Task, heap: seq<nat>) {
    forall it :: it in heap ==> NodeOf(it) < k.g.NumNodes()
  }

  /** best is NEVER, or the total of a route to bestNode that its label still honours. */
  ghost predicate BestOk(k: Task, dst: map<nat, nat>, l: Labels, best: nat, bestNode: int) {
    if bestNode < 0 then bestNode == -1 && best == NEVER
    else bestNode in dst && l.Has(bestNode) && l.dist[bestNode] + dst[bestNode] <= best < NEVER
  }

  ghost predicate Searching(k: Task, dst: map<nat, nat>, l: Labels, heap: seq<nat>, best: nat, seeded: nat, busy: int,
      upto: nat) {
    && l.Sized(k.g.NumNodes())
    && (forall n: nat :: Sound(k, l, n))
    && (forall n: nat :: Settled(k, dst, l, heap, best, n, busy, upto))
    && (forall i: nat :: i < seeded ==> SeedUsed(k, l, i))
    && IsHeap(heap) && Entries(k, heap)
  }

  lemma LabelFits(k: Task, l: Labels, n: nat)
    requires k.Valid() && NoWrap(k) && Sound(k, l, n) && l.Has(n)
    ensures Fits(k, n, l.dist[n])
  {
    var i: nat, edges :| Realised(k, l, i, edges, n, l.dist[n]);
  }

  ghost function Potential(l: Labels, n: nat): nat
    requires n <= |l.dist| && l.Sized(|l.dist|)
  {
    if n == 0 then 0
    else Potential(l, n - 1) + if l.Has(n - 1) && l.dist[n - 1] < TWO_32 then l.dist[n - 1] else TWO_32
  }

  lemma {:induction false} PotentialDrops(l: Labels, n: nat, v: nat, ds: nat, p: int)
    requires n <= |l.dist| && l.Sized(|l.dist|) && v < |l.dist| && ds < TWO_32
    requires !l.Has(v) || ds < l.dist[v]
    ensures var l' := l.Improved(v, ds, p);
      if v < n then Potential(l', n) < Potential(l, n) else Potential(l', n) == Potential(l, n)
  {
    if n > 0 { PotentialDrops(l, n - 1, v, ds, p); }
  }

  /** A new or better label leaves every label sound. */
  lemma StaysSound(k: Task, l: Labels, v: nat, ds: nat, p: int, n: nat)
    requires k.Valid() && l.Sized(k.g.NumNodes()) && v < k.g.NumNodes() && (!l.Has(v) || ds < l.dist[v])
    requires Sound(k, l, n) && exists i, edges :: Offered(k, l, i, edges, v, ds)
    requires if p < 0 then exists i :: 0 <= i < |k.src| && k.src[i].node == v && k.src[i].ds == ds
      else exists u: nat :: NewEdge(k, l, u, p, v, ds)
    ensures Sound(k, l.Improved(v, ds, p), n)
  {
    var l' := l.Improved(v, ds, p);
    if n == v {
      var i: nat, edges :| Offered(k, l, i, edges, v, ds);
      OfferRealised(k, l, i, edges, v, ds, p);
      if p >= 0 {
        var u: nat :| NewEdge(k, l, u, p, v, ds);
        assert EdgeAccounts(k, l', u, p, v);
      }
    } else if l.Has(n) {
      var i: nat, edges :| Realised(k, l, i, edges, n, l.dist[n]);
      StillRealised(k, l, v, ds, p, i, edges, n, l.dist[n]);
      if l.parent[n] >= 0 {
        var u :| EdgeAccounts(k, l, u, l.parent[n], n);
        assert EdgeAccounts(k, l', u, l'.parent[n], n);
      }
    }
  }

  // ---- one improvement --------------------------------------------------------------------------

  lemma ImproveKeeps(k: Task, dst: map<nat, nat>, l: Labels, heap: seq<nat>, heap': seq<nat>, best: nat, seeded: nat,
                     busy: int, upto: nat, v: nat, ds: nat, p: int)
    requires k.Valid() && Searching(k, dst, l, heap, best, seeded, busy, upto)
    requires v < k.g.NumNodes() && v != busy && (!l.Has(v) || ds < l.dist[v])
    requires exists i, edges :: Offered(k, l, i, edges, v, ds)
    requires if p < 0 then exists i :: 0 <= i < |k.src| && k.src[i].node == v && k.src[i].ds == ds
      else exists u: nat :: NewEdge(k, l, u, p, v, ds)
    requires IsHeap(heap') && forall x :: x in heap' <==> x in heap || x == Pack(ds + k.h[v], v)
    requires k.g.NumNodes() < TWO_32
    ensures Searching(k, dst, l.Improved(v, ds, p), heap', best, seeded, busy, upto)
  {
    var l' := l.Improved(v, ds, p);
    forall n: nat ensures Sound(k, l', n) { StaysSound(k, l, v, ds, p, n); }
    forall n: nat ensures Settled(k, dst, l', heap', best, n, busy, upto) {
      assert Settled(k, dst, l, heap, best, n, busy, upto);
      if n != v && l.Has(n) && !(n != busy && Queued(k, l, heap, n)) {
        forall e: nat | n == busy ==> e < upto ensures Relaxed(k, l', n, e) {
          assert Relaxed(k, l, n, e);
        }
      }
    }
    forall i: nat | i < seeded ensures SeedUsed(k, l', i) { assert SeedUsed(k, l, i); }
    Unpack(ds + k.h[v], v);
  }

  // ---- settling ------------------------------------------------------------------------------------

  lemma StaleKeeps(k: Task, dst: map<nat, nat>, l: Labels, heap: seq<nat>, heap': seq<nat>, best: nat, seeded: nat,
      it: nat)
    requires k.Valid() && Searching(k, dst, l, heap, best, seeded, -1, 0) && k.g.NumNodes() < TWO_32
    requires IsHeap(heap') && (forall x :: x in heap <==> x in heap' || x == it)
    requires var n := NodeOf(it); !(l.Has(n) && KeyOf(it) == l.dist[n] + k.h[n])
    ensures Searching(k, dst, l, heap', best, seeded, -1, 0)
  {
    forall n: nat ensures Settled(k, dst, l, heap', best, n, -1, 0) {
      assert Settled(k, dst, l, heap, best, n, -1, 0);
      if l.Has(n) && n < |k.h| { Unpack(l.dist[n] + k.h[n], n); }
    }
  }

  /** h' is h without one entry, of this key and node. */
  ghost predicate Popped(h: seq<nat>, h': seq<nat>, it: nat, key: nat, v: nat) {
    it in h && (forall x :: x in h <==> x in h' || x == it) && KeyOf(it) == key && NodeOf(it) == v
  }

  /** Popping the entry of a label, once its route is counted, starts settling its node. */
  lemma PopKeeps(k: Task, dst: map<nat, nat>, l: Labels, heap: seq<nat>, heap': seq<nat>, best: nat, best': nat,
                 seeded: nat, it: nat, v: nat, first: nat)
    requires k.Valid() && Searching(k, dst, l, heap, best, seeded, -1, 0) && k.g.NumNodes() < TWO_32
    requires IsHeap(heap') && (forall x :: x in heap <==> x in heap' || x == it)
    requires v == NodeOf(it) < k.g.NumNodes() && first == k.g.firstEdge[v]
    requires l.Has(v) && KeyOf(it) == l.dist[v] + k.h[v]
    requires best' <= best && Counted(dst, l, v, best')
    ensures Searching(k, dst, l, heap', best', seeded, v, first)
  {
    forall n: nat ensures Settled(k, dst, l, heap', best', n, v, first) {
      assert Settled(k, dst, l, heap, best, n, -1, 0);
      if n == v {
        forall e: nat | e < first ensures Relaxed(k, l, v, e) {
        }
      } else if l.Has(n) && n < |k.h| {
        Unpack(l.dist[n] + k.h[n], n);
      }
    }
  }

  lemma DoneKeeps(k: Task, dst: map<nat, nat>, l: Labels, heap: seq<nat>, best: nat, seeded: nat, n: nat)
    requires k.Valid() && n < k.g.NumNodes() && Searching(k, dst, l, heap, best, seeded, n, k.g.firstEdge[n + 1])
    ensures Searching(k, dst, l, heap, best, seeded, -1, 0)
  {
    forall n': nat ensures Settled(k, dst, l, heap, best, n', -1, 0) {
      assert Settled(k, dst, l, heap, best, n', n, k.g.firstEdge[n + 1]);
      if n' == n && l.Has(n) {
        forall e: nat ensures Relaxed(k, l, n, e) {
        }
      }
    }
  }

  lemma OneMoreEdge(k: Task, dst: map<nat, nat>, l: Labels, heap: seq<nat>, best: nat, v: nat, e: nat, next: nat)
    requires k.Valid() && Searching(k, dst, l, heap, best, |k.src|, v, e) && l.Has(v) && Relaxed(k, l, v, e)
    requires next == e + 1
    ensures Searching(k, dst, l, heap, best, |k.src|, v, next)
  {
    forall n: nat ensures Settled(k, dst, l, heap, best, n, v, next) {
      assert Settled(k, dst, l, heap, best, n, v, e);
      if n == v {
        forall e': nat | e' < next ensures Relaxed(k, l, v, e') {
          assert e' < e ==> Relaxed(k, l, v, e');
        }
      }
    }
  }

  lemma EdgeOffers(k: Task, l: Labels, v: nat, e: nat, nd: nat)
    requires k.Valid() && l.Sized(k.g.NumNodes()) && l.Has(v) && Sound(k, l, v) && Step(k.g, k.mode, v, e)
    requires nd == l.dist[v] + Cost(k.g, k.mode, e) && k.g.edgeTarget[e] < k.g.NumNodes()
    ensures exists i, edges :: Offered(k, l, i, edges, k.g.edgeTarget[e], nd)
  {
    var i: nat, edges :| Realised(k, l, i, edges, v, l.dist[v]);
    var longer := edges + [e];
    PathSnoc(k.g, k.mode, k.src[i].node, edges, v, e);
    forall j: nat | j <= |edges| ensures NodeAfter(k, i, longer, j) == NodeAfter(k, i, edges, j) &&
      KeepsAt(k, l, i, longer, j) {
      assert KeepsAt(k, l, i, edges, j) && longer[..j] == edges[..j];
    }
    assert Offered(k, l, i, longer, k.g.edgeTarget[e], nd);
  }

  // ---- the bound ------------------------------------------------------------------------------------

  /** No queued entry could still lead to a route cheaper than best. */
  ghost predicate NothingBelow(heap: seq<nat>, best: nat) {
    forall it :: it in heap ==> KeyOf(it) >= best
  }

  lemma NothingLower(heap: seq<nat>, key: nat, best: nat)
    requires NothingBelow(heap, key) && best <= key
    ensures NothingBelow(heap, best)
  {
  }

  /** a is at most eps times b. */
  ghost predicate AtMost(a: nat, eps: real, b: nat) {
    a as real <= eps * b as real
  }

  /** The heuristic never exceeds eps times the cheapest remaining cost, completion included. */
  ghost predicate Admissible(k: Task, dst: map<nat, nat>, eps: real)
    requires |k.h| == k.g.NumNodes()
  {
    forall n: nat, edges, d: nat :: Path(k.g, k.mode, n, edges, d) && d in dst ==>
      AtMost(k.h[n], eps, PathCost(k.g, k.mode, edges) + dst[d])
  }

  lemma PrefixAndRest(eps: real, prefix: nat, h: nat, rest: nat, best: nat)
    requires eps >= 1.0 && AtMost(h, eps, rest) && best <= prefix + h
    ensures AtMost(best, eps, prefix + rest)
  {
    var x := prefix as real;
    assert eps * x - x == (eps - 1.0) * x >= 0.0;
    assert eps * (prefix + rest) as real == eps * x + eps * rest as real;
  }

  lemma TotalItself(eps: real, total: nat, best: nat)
    requires eps >= 1.0 && best <= total
    ensures AtMost(best, eps, total)
  {
    var x := total as real;
    assert eps * x - x == (eps - 1.0) * x >= 0.0;
  }

  /** Along any path from a node reached no dearer than `prefix`: either some node of it is still queued, so
      best is within its estimate, or the route is counted. */
  lemma {:induction false} WithinEps(k: Task, dst: map<nat, nat>, l: Labels, heap: seq<nat>, best: nat,
                                     u: nat, edges: seq<nat>, d: nat, prefix: nat)
    returns (v: nat, rest: seq<nat>, sofar: nat)
    requires k.Valid() && Searching(k, dst, l, heap, best, |k.src|, -1, 0) && NothingBelow(heap, best)
    requires Path(k.g, k.mode, u, edges, d) && d in dst
    requires l.Has(u) && l.dist[u] <= prefix && k.g.NumNodes() < TWO_32
    ensures best <= prefix + PathCost(k.g, k.mode, edges) + dst[d] || (
      && Path(k.g, k.mode, v, rest, d) && v < |k.h| && best <= sofar + k.h[v]
      && sofar + PathCost(k.g, k.mode, rest) == prefix + PathCost(k.g, k.mode, edges))
    decreases |edges|
  {
    assert Settled(k, dst, l, heap, best, u, -1, 0);
    v, rest, sofar := u, edges, prefix;
    if Queued(k, l, heap, u) {
      Unpack(l.dist[u] + k.h[u], u);
    } else if edges != [] {
      var e := edges[0];
      assert Relaxed(k, l, u, e);
      v, rest, sofar := WithinEps(k, dst, l, heap, best, k.g.edgeTarget[e], edges[1..], d,
        prefix + Cost(k.g, k.mode, e));
    }
  }

  /** With nothing queued, every node on a path from a labelled node is labelled and its route counted. */
  lemma {:induction false} ReachedIsCounted(k: Task, dst: map<nat, nat>, l: Labels, best: nat, u: nat, edges: seq<nat>,
      d: nat)
    requires k.Valid() && Searching(k, dst, l, [], best, |k.src|, -1, 0)
    requires Path(k.g, k.mode, u, edges, d) && l.Has(u)
    ensures l.Has(d) && Counted(dst, l, d, best)
    decreases |edges|
  {
    assert Settled(k, dst, l, [], best, u, -1, 0);
    if edges != [] {
      assert Relaxed(k, l, u, edges[0]);
      ReachedIsCounted(k, dst, l, best, k.g.edgeTarget[edges[0]], edges[1..], d);
    }
  }

  /** A complete route: from source seed i along the edges to d, with d's completion cost, in total c. */
  ghost predicate CompleteRoute(k: Task, dst: map<nat, nat>, i: nat, edges: seq<nat>, d: nat, c: nat) {
    d in dst && i < |k.src| && Path(k.g, k.mode, k.src[i].node, edges, d)
    && c == k.src[i].ds + PathCost(k.g, k.mode, edges) + dst[d]
  }

  /** What a finished, unexhausted run proves about its best total. */
  lemma BestIsBounded(k: Task, dst: map<nat, nat>, l: Labels, heap: seq<nat>, best: nat, bestNode: int)
    requires k.Valid() && DstOk(k, dst) && NoWrap(k) && k.g.NumNodes() < TWO_32
    requires Searching(k, dst, l, heap, best, |k.src|, -1, 0) && BestOk(k, dst, l, best, bestNode)
    requires NothingBelow(heap, best) && (bestNode < 0 ==> heap == [])
    ensures bestNode >= 0 <==> exists i, edges, d, c: nat :: CompleteRoute(k, dst, i, edges, d, c)
    ensures forall eps: real, i, edges, d, c: nat |
      eps >= 1.0 && Admissible(k, dst, eps) && CompleteRoute(k, dst, i, edges, d, c) :: AtMost(best, eps, c)
  {
    forall i: nat, edges, d: nat, c: nat | CompleteRoute(k, dst, i, edges, d, c)
      ensures bestNode >= 0
    {
      assert SeedUsed(k, l, i);
      if bestNode < 0 {
        ReachedIsCounted(k, dst, l, best, k.src[i].node, edges, d);
        assert Sound(k, l, d);
        LabelFits(k, l, d);
        assert false;
      }
    }
    if bestNode >= 0 {
      assert Sound(k, l, bestNode);
      var i: nat, edges :| Realised(k, l, i, edges, bestNode, l.dist[bestNode]);
      assert CompleteRoute(k, dst, i, edges, bestNode, l.dist[bestNode] + dst[bestNode]);
    }
    forall eps: real, i: nat, edges, d: nat, c: nat | eps >= 1.0 && Admissible(k, dst, eps) &&
      CompleteRoute(k, dst, i, edges, d, c)
      ensures AtMost(best, eps, c)
    {
      RouteBounds(k, dst, l, heap, best, eps, i, edges, d, c);
    }
  }

  lemma RouteBounds(k: Task, dst: map<nat, nat>, l: Labels, heap: seq<nat>, best: nat, eps: real,
                    i: nat, edges: seq<nat>, d: nat, c: nat)
    requires k.Valid() && k.g.NumNodes() < TWO_32
    requires Searching(k, dst, l, heap, best, |k.src|, -1, 0) && NothingBelow(heap, best)
    requires eps >= 1.0 && Admissible(k, dst, eps) && CompleteRoute(k, dst, i, edges, d, c)
    ensures AtMost(best, eps, c)
  {
    assert SeedUsed(k, l, i);
    var v, rest, sofar := WithinEps(k, dst, l, heap, best, k.src[i].node, edges, d, k.src[i].ds);
    if best <= c {
      TotalItself(eps, c, best);
    } else {
      PrefixAndRest(eps, sofar, k.h[v], PathCost(k.g, k.mode, rest) + dst[d], best);
      assert c == sofar + (PathCost(k.g, k.mode, rest) + dst[d]);
    }
  }

  /** With an admissible estimate (eps = 1) the total is the cheapest route's, and the path achieves it. */
  lemma OptimalAtOne(k: Task, dst: map<nat, nat>, res: RoadResult)
    requires |k.h| == k.g.NumNodes() && Answers(k, dst, res, false) && res.found && Admissible(k, dst, 1.0)
    ensures exists i: nat :: res.endSeed >= 0 && CompleteRoute(k, dst, i, res.edges, res.endSeed, res.ds)
    ensures forall i, edges, d, c: nat :: CompleteRoute(k, dst, i, edges, d, c) ==> res.ds <= c
  {
    var i: nat, c: nat :| CompleteRoute(k, dst, i, res.edges, res.endSeed, c) && c <= res.ds;
    assert AtMost(res.ds, 1.0, c);
    forall i, edges, d: nat, c: nat | CompleteRoute(k, dst, i, edges, d, c) ensures res.ds <= c {
      assert AtMost(res.ds, 1.0, c);
    }
  }

  /** What a result says of its task. An exhausted run has settled more nodes than allowed. */
  ghost predicate Answers(k: Task, dst: map<nat, nat>, res: RoadResult, exhausted: bool)
    requires |k.h| == k.g.NumNodes()
  {
    && (!res.found ==> res == RoadResult([], 0, -1, 0, false))
    && (res.found ==> res.endSeed >= 0 && exists i: nat, c: nat ::
      CompleteRoute(k, dst, i, res.edges, res.endSeed, c) && c <= res.ds)
    && (!exhausted ==>
          && (res.found <==> exists i, edges, d, c: nat :: CompleteRoute(k, dst, i, edges, d, c))
          && (res.found ==> forall eps: real, i, edges, d, c: nat |
                eps >= 1.0 && Admissible(k, dst, eps) && CompleteRoute(k, dst, i, edges, d, c) ::
                  AtMost(res.ds, eps, c)))
  }

  /** Labels are kept, or replaced by better ones. */
  ghost predicate NoWorse(l: Labels, l': Labels) {
    forall d: nat :: l.Has(d) ==> l'.Has(d) && l'.dist[d] <= l.dist[d]
  }

  method DstMap(k: Task) returns (dst: map<nat, nat>)
    requires k.Valid()
    ensures DstOk(k, dst)
  {
    dst := map[];
    var i := 0;
    while i < |k.dst|
      invariant i <= |k.dst|
      invariant forall j :: 0 <= j < i ==> k.dst[j].node in dst && dst[k.dst[j].node] <= k.dst[j].ds
      invariant forall d :: d in dst ==> d < k.g.NumNodes() && exists j ::
        0 <= j < i && k.dst[j].node == d && k.dst[j].ds == dst[d]
    {
      var sd := k.dst[i];
      assert k.SeedOk(k.dst, i);
      if sd.node !in dst || sd.ds < dst[sd.node] {
        dst := dst[sd.node := sd.ds];
      }
      i := i + 1;
    }
  }

  class RoadSearch {
    const labels: LabelStore
    var heap: seq<nat>

    ghost function Now(): Labels
      reads labels`epoch, labels.dist, labels.stamp, labels.parent
    {
      labels.Now()
    }

    ghost predicate Valid()
      reads labels, labels.dist, labels.stamp, labels.parent
    {
      labels.Valid()
    }

    constructor (numNodes: nat)
      ensures Valid() && labels.n == numNodes && fresh(labels.Repr())
    {
      labels := new LabelStore(numNodes, TWO_32);
      heap := [];
    }

    /** Labels v with ds and queues it, unless v already has a label as good. */
    method Push(k: Task, ghost dst: map<nat, nat>, ghost best: nat, ghost seeded: nat, ghost busy: int, ghost upto: nat,
                v: nat, ds: nat, p: int)
      requires Valid() && k.Valid() && NoWrap(k) && k.g.NumNodes() == labels.n < TWO_32
      requires Searching(k, dst, Now(), heap, best, seeded, busy, upto)
      requires v < labels.n && (v == busy ==> Now().Has(v) && Now().dist[v] <= ds)
      requires exists i, edges :: Offered(k, Now(), i, edges, v, ds)
      requires if p < 0 then exists i :: 0 <= i < |k.src| && k.src[i].node == v && k.src[i].ds == ds
        else v == busy || exists u: nat :: NewEdge(k, Now(), u, p, v, ds)
      modifies this`heap, labels.dist, labels.stamp, labels.parent
      ensures Valid() && Searching(k, dst, Now(), heap, best, seeded, busy, upto)
      ensures Now().Has(v) && Now().dist[v] <= ds
      ensures if old(Now()).Has(v) && old(Now()).dist[v] <= ds then Now() == old(Now()) && heap == old(heap)
        else Now() == old(Now()).Improved(v, ds, p) && Potential(Now(), labels.n) < Potential(old(Now()), labels.n)
    {
      ghost var l, h := Now(), heap;
      var better := labels.Improve(v, ds, p);
      if better {
        assert Sound(k, l, v);
        StaysSound(k, l, v, ds, p, v);
        LabelFits(k, Now(), v);
        heap := HeapPush(heap, Pack(Add32(ds, k.h[v]), v));
        ImproveKeeps(k, dst, l, h, heap, best, seeded, busy, upto, v, ds, p);
        PotentialDrops(l, labels.n, v, ds, p);
      }
    }

    method PushSeeds(k: Task, ghost dst: map<nat, nat>)
      requires Valid() && k.Valid() && NoWrap(k) && k.g.NumNodes() == labels.n < TWO_32
      requires heap == [] && forall v: nat :: !Now().Has(v)
      modifies this`heap, labels.dist, labels.stamp, labels.parent
      ensures Valid() && Searching(k, dst, Now(), heap, NEVER, |k.src|, -1, 0)
    {
      var i := 0;
      while i < |k.src|
        invariant Valid() && i <= |k.src| && Searching(k, dst, Now(), heap, NEVER, i, -1, 0)
      {
        var sd := k.src[i];
        assert k.SeedOk(k.src, i);
        assert Offered(k, Now(), i, [], sd.node, sd.ds);
        Push(k, dst, NEVER, i, -1, 0, sd.node, sd.ds, -1);
        assert SeedUsed(k, Now(), i);
        i := i + 1;
      }
    }

    /** Relaxes edge e of the node v being settled. */
    method RelaxEdge(k: Task, ghost dst: map<nat, nat>, ghost best: nat, v: nat, ds: nat, e: nat)
      requires Valid() && k.Valid() && NoWrap(k) && k.g.NumNodes() == labels.n < TWO_32
      requires v < labels.n && k.g.OutEdge(v, e) && Now().Has(v) && Now().dist[v] == ds
      requires Searching(k, dst, Now(), heap, best, |k.src|, v, e)
      modifies this`heap, labels.dist, labels.stamp, labels.parent
      ensures Valid() && Now().Has(v) && Now().dist[v] == ds
      ensures Searching(k, dst, Now(), heap, best, |k.src|, v, e + 1)
      ensures (Now() == old(Now()) && heap == old(heap)) || Potential(Now(), labels.n) < Potential(old(Now()), labels.n)
      ensures NoWorse(old(Now()), Now())
    {
      EdgeInGraph(k, v, e);
      if k.g.Allowed(e, k.mode.m) {
        var nd := Add32(ds, k.g.EdgeDs(e, k.mode.m, k.mode.speedFactor));
        EdgeFacts(k, Now(), v, e, nd);
        Push(k, dst, best, |k.src|, v, e, k.g.edgeTarget[e], nd, e);
      }
      OneMoreEdge(k, dst, Now(), heap, best, v, e, e + 1);
    }

    method SettleNode(k: Task, ghost dst: map<nat, nat>, ghost best: nat, v: nat, ds: nat)
      requires Valid() && k.Valid() && NoWrap(k) && k.g.NumNodes() == labels.n < TWO_32
      requires v < labels.n && Now().Has(v) && Now().dist[v] == ds
      requires Searching(k, dst, Now(), heap, best, |k.src|, v, k.g.firstEdge[v])
      modifies this`heap, labels.dist, labels.stamp, labels.parent
      ensures Valid() && Searching(k, dst, Now(), heap, best, |k.src|, -1, 0)
      ensures (Now() == old(Now()) && heap == old(heap)) || Potential(Now(), labels.n) < Potential(old(Now()), labels.n)
      ensures NoWorse(old(Now()), Now())
    {
      assert k.g.Ordered(v, v + 1);
      var e := k.g.firstEdge[v];
      while e < k.g.firstEdge[v + 1]
        invariant k.g.firstEdge[v] <= e <= k.g.firstEdge[v + 1]
        invariant Valid() && Now().Has(v) && Now().dist[v] == ds
        invariant Searching(k, dst, Now(), heap, best, |k.src|, v, e)
        invariant (Now() == old(Now()) && heap == old(heap)) ||
          Potential(Now(), labels.n) < Potential(old(Now()), labels.n)
        invariant NoWorse(old(Now()), Now())
      {
        RelaxEdge(k, dst, best, v, ds, e);
        e := e + 1;
      }
      DoneKeeps(k, dst, Now(), heap, best, |k.src|, v);
    }

    /** Counts the route through v, if v is a destination. */
    method Count(k: Task, dst: map<nat, nat>, v: nat, ds: nat, best: nat, bestNode: int)
        returns (best': nat, bestNode': int)
      requires Valid() && k.Valid() && NoWrap(k) && DstOk(k, dst) && k.g.NumNodes() == labels.n
      requires v < labels.n && Now().Has(v) && Now().dist[v] == ds && Sound(k, Now(), v)
      requires BestOk(k, dst, Now(), best, bestNode)
      ensures BestOk(k, dst, Now(), best', bestNode')
      ensures best' <= best && Counted(dst, Now(), v, best')
    {
      best', bestNode' := best, bestNode;
      if v in dst {
        LabelFits(k, Now(), v);
        var total := Add32(ds, dst[v]);
        if total < best { best', bestNode' := total, v; }
      }
    }

    /** Takes the least entry; live if it is not outdated by a better label. */
    method Pop(k: Task, ghost dst: map<nat, nat>, ghost best: nat) returns (key: nat, v: nat, live: bool, ghost it: nat)
      requires Valid() && k.Valid() && NoWrap(k) && k.g.NumNodes() == labels.n < TWO_32 && heap != []
      requires Searching(k, dst, Now(), heap, best, |k.src|, -1, 0)
      modifies this`heap
      ensures |heap| == |old(heap)| - 1 && IsHeap(heap) && v < labels.n
      ensures Popped(old(heap), heap, it, key, v)
      ensures !live ==> Searching(k, dst, Now(), heap, best, |k.src|, -1, 0)
      ensures live ==> Now().Has(v) && key == Now().dist[v] + k.h[v] < NEVER && NothingBelow(old(heap), key)
    {
      ghost var h := heap;
      var top;
      top, heap := HeapPop(heap);
      it := top;
      assert it in h;
      key, v := KeyOf(top), NodeOf(top);
      assert Popped(h, heap, it, key, v);
      assert Sound(k, Now(), v);
      if labels.stamp[v] == labels.epoch { LabelFits(k, Now(), v); }
      live := labels.stamp[v] == labels.epoch && key == Add32(labels.dist[v], k.h[v]);
      if live {
        forall x | x in h ensures KeyOf(x) >= key { assert it <= x; }
      } else {
        StaleKeeps(k, dst, Now(), h, heap, best, |k.src|, it);
      }
    }

    /** Relaxes the edges of the node just popped. */
    method Expand(k: Task, ghost dst: map<nat, nat>, v: nat, ghost h: seq<nat>, ghost it: nat, ghost before: nat,
        ghost best: nat)
      requires Valid() && k.Valid() && NoWrap(k) && k.g.NumNodes() == labels.n < TWO_32
      requires Searching(k, dst, Now(), h, before, |k.src|, -1, 0) && best <= before
      requires v < labels.n && Now().Has(v) && IsHeap(heap) && Counted(dst, Now(), v, best)
      requires Popped(h, heap, it, Now().dist[v] + k.h[v], v)
      modifies this`heap, labels.dist, labels.stamp, labels.parent
      ensures Valid() && Searching(k, dst, Now(), heap, best, |k.src|, -1, 0)
      ensures (Now() == old(Now()) && heap == old(heap)) || Potential(Now(), labels.n) < Potential(old(Now()), labels.n)
      ensures NoWorse(old(Now()), Now())
    {
      PopKeeps(k, dst, Now(), h, heap, before, best, |k.src|, it, v, k.g.firstEdge[v]);
      SettleNode(k, dst, best, v, labels.dist[v]);
    }

    /** The search loop: stops when the queue is empty, when no entry can improve the best complete route, or
        when more than maxSettled nodes have been settled. */
    method Explore(k: Task, dst: map<nat, nat>, maxSettled: int)
      returns (best: nat, bestNode: int, settled: nat, ghost exhausted: bool, ghost last: seq<nat>)
      requires Valid() && k.Valid() && NoWrap(k) && DstOk(k, dst) && k.g.NumNodes() == labels.n < TWO_32
      requires Searching(k, dst, Now(), heap, NEVER, |k.src|, -1, 0)
      modifies this`heap, labels.dist, labels.stamp, labels.parent
      ensures Valid() && BestOk(k, dst, Now(), best, bestNode)
      ensures Now().Sized(labels.n) && forall n: nat :: Sound(k, Now(), n)
      ensures exhausted <==> settled > maxSettled
      ensures !exhausted ==> Searching(k, dst, Now(), last, best, |k.src|, -1, 0) && NothingBelow(last, best)
      ensures !exhausted && bestNode < 0 ==> last == []
    {
      best, bestNode, settled, exhausted, last := NEVER, -1, 0, false, [];
      if maxSettled < 0 { exhausted := true; }
      while heap != []
        invariant Valid() && BestOk(k, dst, Now(), best, bestNode)
        invariant Searching(k, dst, Now(), heap, best, |k.src|, -1, 0)
        invariant exhausted <==> settled > maxSettled
        invariant settled > 0 ==> !exhausted
        decreases Potential(Now(), labels.n), |heap|
      {
        ghost var h := heap;
        ghost var it;
        var key, v, live;
        key, v, live, it := Pop(k, dst, best);
        if !live { continue; }
        if key >= best {
          NothingLower(h, key, best);
          last := h;
          return;
        }
        ghost var before := best;
        best, bestNode := Count(k, dst, v, labels.dist[v], best, bestNode);
        settled := settled + 1;
        if settled > maxSettled {
          exhausted := true;
          return;
        }
        Expand(k, dst, v, h, it, before, best);
      }
      last := [];
    }

    /** Follows the parents back from v: a path from a source seed that costs no more than v's label. */
    method Rebuild(k: Task, v: nat) returns (path: seq<nat>)
      requires Valid() && k.Valid() && k.g.NumNodes() == labels.n && v < labels.n && Now().Has(v)
      requires forall n: nat :: Sound(k, Now(), n)
      ensures exists i, c :: Reaches(k.g, k.mode, k.src, i, path, v, c) && c <= Now().dist[v]
    {
      var rev: seq<nat> := [];
      var u: nat := v;
      while labels.parent[u] >= 0
        invariant u < labels.n && Now().Has(u)
        invariant Path(k.g, k.mode, u, Reversed(rev), v)
        invariant Now().dist[u] + PathCost(k.g, k.mode, Reversed(rev)) <= Now().dist[v]
        decreases labels.dist[u]
      {
        assert Sound(k, Now(), u);
        var e: nat := labels.parent[u];
        var w := k.g.SourceOf(e);
        ParentCheaper(k, Now(), w, u);
        ReversedSnoc(rev, e);
        assert ([e] + Reversed(rev))[1..] == Reversed(rev);
        rev := rev + [e];
        u := w;
      }
      assert Sound(k, Now(), u);
      path := Reverse(rev);
      ghost var i :| 0 <= i < |k.src| && k.src[i].node == u && k.src[i].ds == Now().dist[u];
      assert Reaches(k.g, k.mode, k.src, i, path, v, k.src[i].ds + PathCost(k.g, k.mode, path));
    }

    /** One weighted A* query. */
    method Route(k: Task, maxSettled: int) returns (res: RoadResult, ghost dst: map<nat, nat>, ghost exhausted: bool)
      requires Valid() && k.Valid() && NoWrap(k) && k.g.NumNodes() == labels.n
      modifies this, labels, labels.dist, labels.stamp, labels.parent
      ensures Valid() && DstOk(k, dst) && Answers(k, dst, res, exhausted)
      ensures res.found ==> (exhausted <==> res.settled > maxSettled)
    {
      labels.NextEpoch();
      heap := [];
      var dstMap := DstMap(k);
      dst := dstMap;
      PushSeeds(k, dst);
      var best, bestNode, settled;
      ghost var last;
      best, bestNode, settled, exhausted, last := Explore(k, dstMap, maxSettled);
      if !exhausted { BestIsBounded(k, dst, Now(), last, best, bestNode); }
      if bestNode < 0 { return RoadResult([], 0, -1, 0, false), dst, exhausted; }
      var edges := Rebuild(k, bestNode);
      ghost var i: nat, c: nat :| Reaches(k.g, k.mode, k.src, i, edges, bestNode, c) && c <= Now().dist[bestNode];
      assert CompleteRoute(k, dst, i, edges, bestNode, c + dst[bestNode]);
      res := RoadResult(edges, best, bestNode, settled, true);
    }
  }

  lemma EdgeInGraph(k: Task, v: nat, e: nat)
    requires k.Valid() && k.g.OutEdge(v, e)
    ensures e < |k.g.edgeTarget| == |k.g.edgeMeters| == |k.g.edgeSpeed| == |k.g.edgeFlags| &&
      k.g.edgeTarget[e] < k.g.NumNodes()
  {
    assert k.g.Ordered(v + 1, k.g.NumNodes());
    assert k.g.EdgeOk(e);
  }

  /** Relaxing edge e out of the labelled node v: its cost fits, and the label it offers is that of a path. */
  lemma EdgeFacts(k: Task, l: Labels, v: nat, e: nat, nd: nat)
    requires k.Valid() && NoWrap(k) && l.Sized(k.g.NumNodes()) && l.Has(v) && Sound(k, l, v)
    requires Step(k.g, k.mode, v, e) && nd == Add32(l.dist[v], Cost(k.g, k.mode, e))
    ensures k.g.edgeTarget[e] < k.g.NumNodes()
    ensures nd == l.dist[v] + Cost(k.g, k.mode, e) > l.dist[v]
    ensures exists i, edges :: Offered(k, l, i, edges, k.g.edgeTarget[e], nd)
    ensures k.g.edgeTarget[e] == v || exists u: nat :: NewEdge(k, l, u, e, k.g.edgeTarget[e], nd)
  {
    EdgeInGraph(k, v, e);
    LabelFits(k, l, v);
    k.g.EdgeCosts(e, k.mode.m, k.mode.speedFactor);
    EdgeOffers(k, l, v, e, nd);
    assert k.g.edgeTarget[e] == v || NewEdge(k, l, v, e, k.g.edgeTarget[e], nd);
  }

  lemma ParentCheaper(k: Task, l: Labels, u: nat, n: nat)
    requires k.Valid() && l.Has(n) && Sound(k, l, n) && l.parent[n] >= 0
    requires k.g.OutEdge(u, l.parent[n])
    ensures l.Has(u) && Step(k.g, k.mode, u, l.parent[n]) && k.g.edgeTarget[l.parent[n]] == n
    ensures l.dist[u] + Cost(k.g, k.mode, l.parent[n]) <= l.dist[n]
    ensures l.dist[u] < l.dist[n]
  {
    var e: nat := l.parent[n];
    var u' :| EdgeAccounts(k, l, u', e, n);
    k.g.OneSource(u, u', e);
    k.g.EdgeCosts(e, k.mode.m, k.mode.speedFactor);
  }
}
