/** Bounded multi-source Dijkstra on reusable, epoch-stamped arrays. */
module NearSearching {
  import opened Words
  import opened GraphModel
  import opened Heap
  import opened Reversing
  import opened LabelStores

  const MAX_NEAR_DS: nat := 65000

  /** One search over one graph: what a run is asked. */
  datatype Task = Task(g: Graph, mode: Travel, seeds: seq<Seed>, maxDs: nat)
  {
    ghost predicate Valid() {
      && g.Valid() && maxDs <= MAX_NEAR_DS
      && forall i: nat :: SeedOk(i)
    }

    ghost predicate SeedOk(i: nat) {
      i < |seeds| ==> seeds[i].node < g.NumNodes()
    }
  }

  /** The label of n is the cost of a seeded path within the bound, and its parent edge accounts for it. */
  ghost predicate Sound(k: Task, l: Labels, n: nat) {
    l.Has(n) ==>
      && l.dist[n] <= k.maxDs
      && (exists i, edges :: Reaches(k.g, k.mode, k.seeds, i, edges, n, l.dist[n]))
      && Accounted(k, l, n)
  }

  ghost predicate Accounted(k: Task, l: Labels, n: nat)
    requires l.Has(n)
  {
    if l.parent[n] < 0 then
      exists i :: 0 <= i < |k.seeds| && k.seeds[i].node == n && k.seeds[i].ds == l.dist[n]
    else
      exists u :: EdgeAccounts(k, l, u, l.parent[n], n)
  }

  /** Edge e leads from the labelled node u to n, at no more than n's label. */
  ghost predicate EdgeAccounts(k: Task, l: Labels, u: nat, e: nat, n: nat)
    requires l.Has(n)
  {
    && l.Has(u) && Step(k.g, k.mode, u, e) && k.g.edgeTarget[e] == n
    && l.dist[u] + Cost(k.g, k.mode, e) <= l.dist[n]
  }

  /** Edge e out of n has been relaxed. */
  ghost predicate Relaxed(k: Task, l: Labels, n: nat, e: nat)
    requires l.Has(n)
  {
    Step(k.g, k.mode, n, e) && l.dist[n] + Cost(k.g, k.mode, e) <= k.maxDs ==>
      l.Has(k.g.edgeTarget[e]) && l.dist[k.g.edgeTarget[e]] <= l.dist[n] + Cost(k.g, k.mode, e)
  }

  /** Seed i has been used. */
  ghost predicate SeedUsed(k: Task, l: Labels, i: nat) {
    i < |k.seeds| && k.seeds[i].ds <= k.maxDs ==> l.Has(k.seeds[i].node) && l.dist[k.seeds[i].node] <= k.seeds[i].ds
  }

  /** Every labelled node is queued at its label, or has its edges relaxed: all of them, or those of the
      node being settled up to edge `upto`. */
  ghost predicate Settled(k: Task, l: Labels, heap: seq<nat>, n: nat, busy: int, upto: nat) {
    l.Has(n) ==>
      || (n != busy && Pack(l.dist[n], n) in heap)
      || forall e: nat :: (n == busy ==> e < upto) ==> Relaxed(k, l, n, e)
  }

  ghost predicate Entries(k: Task, heap: seq<nat>) {
    forall it :: it in heap ==> NodeOf(it) < k.g.NumNodes() && KeyOf(it) <= k.maxDs
  }

  ghost predicate Searching(k: Task, l: Labels, heap: seq<nat>, seeded: nat, busy: int, upto: nat) {
    && l.Sized(k.g.NumNodes())
    && (forall n: nat :: Sound(k, l, n))
    && (forall n: nat :: Settled(k, l, heap, n, busy, upto))
    && (forall i: nat :: i < seeded ==> SeedUsed(k, l, i))
    && IsHeap(heap) && Entries(k, heap)
  }

  /** The result of a finished run. */
  ghost predicate Explored(k: Task, l: Labels) {
    Searching(k, l, [], |k.seeds|, -1, 0)
  }

  // ---- progress -----------------------------------------------------------------------

  ghost function Potential(l: Labels, maxDs: nat, n: nat): nat
    requires n <= |l.dist| && l.Sized(|l.dist|)
  {
    if n == 0 then 0
    else Potential(l, maxDs, n - 1) + if l.Has(n - 1) && l.dist[n - 1] <= maxDs then l.dist[n - 1] else maxDs + 1
  }

  lemma {:induction false} PotentialDrops(l: Labels, maxDs: nat, n: nat, v: nat, ds: nat, p: int)
    requires n <= |l.dist| && l.Sized(|l.dist|) && v < |l.dist| && ds <= maxDs
    requires !l.Has(v) || ds < l.dist[v]
    ensures var l' := l.Improved(v, ds, p);
      if v < n then Potential(l', maxDs, n) < Potential(l, maxDs, n)
        else Potential(l', maxDs, n) == Potential(l, maxDs, n)
  {
    if n > 0 { PotentialDrops(l, maxDs, n - 1, v, ds, p); }
  }

  // ---- one improvement ------------------------------------------------------------------

  /** Writing a better, accounted label for v and queueing it keeps the search invariant. */
  lemma ImproveKeeps(k: Task, l: Labels, heap: seq<nat>, heap': seq<nat>, seeded: nat, busy: int, upto: nat,
                     v: nat, ds: nat, p: int)
    requires k.Valid() && Searching(k, l, heap, seeded, busy, upto)
    requires v < k.g.NumNodes() && v != busy && ds <= k.maxDs && (!l.Has(v) || ds < l.dist[v])
    requires exists i, edges :: Reaches(k.g, k.mode, k.seeds, i, edges, v, ds)
    requires if p < 0 then exists i :: 0 <= i < |k.seeds| && k.seeds[i].node == v && k.seeds[i].ds == ds
      else exists u :: u != v && EdgeAccounts(k, l.Improved(v, ds, p), u, p, v)
    requires IsHeap(heap') && forall x :: x in heap' <==> x in heap || x == Pack(ds, v)
    ensures Searching(k, l.Improved(v, ds, p), heap', seeded, busy, upto)
  {
    var l' := l.Improved(v, ds, p);
    forall n: nat ensures Sound(k, l', n) {
      assert Sound(k, l, n);
      if n == v {
        assert l'.dist[n] == ds && l'.parent[n] == p;
      } else if l.Has(n) && l.parent[n] >= 0 {
        var u :| EdgeAccounts(k, l, u, l.parent[n], n);
        assert EdgeAccounts(k, l', u, l'.parent[n], n);
      }
    }
    forall n: nat ensures Settled(k, l', heap', n, busy, upto) {
      assert Settled(k, l, heap, n, busy, upto);
      if n != v && l.Has(n) && !(n != busy && Pack(l.dist[n], n) in heap) {
        forall e: nat | n == busy ==> e < upto ensures Relaxed(k, l', n, e) {
          assert Relaxed(k, l, n, e);
        }
      }
    }
    forall i: nat | i < seeded ensures SeedUsed(k, l', i) { assert SeedUsed(k, l, i); }
    Unpack(ds, v);
  }

  /** Popping a stale entry loses nothing. */
  lemma StaleKeeps(k: Task, l: Labels, heap: seq<nat>, heap': seq<nat>, seeded: nat, it: nat)
    requires k.Valid() && Searching(k, l, heap, seeded, -1, 0)
    requires IsHeap(heap') && (forall x :: x in heap <==> x in heap' || x == it)
    requires !(l.Has(NodeOf(it)) && l.dist[NodeOf(it)] == KeyOf(it)) && k.g.NumNodes() < TWO_32
    ensures Searching(k, l, heap', seeded, -1, 0)
  {
    forall n: nat ensures Settled(k, l, heap', n, -1, 0) {
      assert Settled(k, l, heap, n, -1, 0);
      if l.Has(n) { Unpack(l.dist[n], n); }
    }
  }

  /** Popping the entry of a label starts settling its node. */
  lemma PopKeeps(k: Task, l: Labels, heap: seq<nat>, heap': seq<nat>, seeded: nat, it: nat, v: nat, first: nat)
    requires k.Valid() && Searching(k, l, heap, seeded, -1, 0)
    requires IsHeap(heap') && (forall x :: x in heap <==> x in heap' || x == it)
    requires v == NodeOf(it) < k.g.NumNodes() < TWO_32 && first == k.g.firstEdge[v]
    requires l.Has(v) && l.dist[v] == KeyOf(it)
    ensures Searching(k, l, heap', seeded, v, first)
  {
    forall n: nat ensures Settled(k, l, heap', n, v, first) {
      assert Settled(k, l, heap, n, -1, 0);
      if n == v {
        forall e: nat | e < first ensures Relaxed(k, l, v, e) {
        }
      } else if l.Has(n) {
        Unpack(l.dist[n], n);
      }
    }
  }

  /** Once the last out-edge of the busy node is relaxed, the node is settled. */
  lemma DoneKeeps(k: Task, l: Labels, heap: seq<nat>, seeded: nat, n: nat)
    requires k.Valid() && n < k.g.NumNodes() && Searching(k, l, heap, seeded, n, k.g.firstEdge[n + 1])
    ensures Searching(k, l, heap, seeded, -1, 0)
  {
    forall n': nat ensures Settled(k, l, heap, n', -1, 0) {
      assert Settled(k, l, heap, n', n, k.g.firstEdge[n + 1]);
      if n' == n && l.Has(n) {
        forall e: nat ensures Relaxed(k, l, n, e) {
        }
      }
    }
  }

  /** A path to v extended by edge e accounts for the label nd of its target. */
  lemma EdgeImproves(k: Task, l: Labels, v: nat, e: nat, nd: nat)
    requires k.Valid() && l.Sized(k.g.NumNodes()) && l.Has(v) && Sound(k, l, v) && Step(k.g, k.mode, v, e)
    requires nd == l.dist[v] + Cost(k.g, k.mode, e) && k.g.edgeTarget[e] < k.g.NumNodes()
    requires !l.Has(k.g.edgeTarget[e]) || nd < l.dist[k.g.edgeTarget[e]]
    ensures k.g.edgeTarget[e] != v
    ensures exists i, edges :: Reaches(k.g, k.mode, k.seeds, i, edges, k.g.edgeTarget[e], nd)
    ensures EdgeAccounts(k, l.Improved(k.g.edgeTarget[e], nd, e), v, e, k.g.edgeTarget[e])
  {
    var i: nat, edges :| Reaches(k.g, k.mode, k.seeds, i, edges, v, l.dist[v]);
    PathSnoc(k.g, k.mode, k.seeds[i].node, edges, v, e);
    assert Reaches(k.g, k.mode, k.seeds, i, edges + [e], k.g.edgeTarget[e], nd);
  }

  lemma OneMoreEdge(k: Task, l: Labels, heap: seq<nat>, v: nat, e: nat, next: nat)
    requires k.Valid() && Searching(k, l, heap, |k.seeds|, v, e) && l.Has(v) && Relaxed(k, l, v, e)
    requires next == e + 1
    ensures Searching(k, l, heap, |k.seeds|, v, next)
  {
    forall n: nat ensures Settled(k, l, heap, n, v, next) {
      assert Settled(k, l, heap, n, v, e);
      if n == v {
        forall e': nat | e' < next ensures Relaxed(k, l, v, e') {
          assert e' < e ==> Relaxed(k, l, v, e');
        }
      }
    }
  }

  // ---- what a finished run says -----------------------------------------------------------

  /** No seeded path within the bound is cheaper than its end's label. */
  lemma {:induction false} NoCheaper(k: Task, l: Labels, i: nat, edges: seq<nat>, n: nat, c: nat)
    requires k.Valid() && Explored(k, l)
    requires Reaches(k.g, k.mode, k.seeds, i, edges, n, c) && c <= k.maxDs
    ensures l.Has(n) && l.dist[n] <= c
    decreases |edges|
  {
    if edges == [] {
      assert SeedUsed(k, l, i);
    } else {
      var mid := PathInit(k.g, k.mode, k.seeds[i].node, edges, n);
      var e := edges[|edges| - 1];
      NoCheaper(k, l, i, edges[..|edges| - 1], mid, c - Cost(k.g, k.mode, e));
      assert Settled(k, l, [], mid, -1, 0);
      assert Relaxed(k, l, mid, e);
    }
  }

  /** A label is reported exactly for the nodes within the bound, and it is the cheapest seeded cost. */
  lemma Exact(k: Task, l: Labels, n: nat)
    requires k.Valid() && Explored(k, l) && n < k.g.NumNodes()
    ensures l.Has(n) <==> exists i, edges, c: nat :: Reaches(k.g, k.mode, k.seeds, i, edges, n, c) && c <= k.maxDs
    ensures l.Has(n) ==> l.dist[n] <= k.maxDs && exists i, edges ::
      Reaches(k.g, k.mode, k.seeds, i, edges, n, l.dist[n])
    ensures forall i, edges, c: nat :: Reaches(k.g, k.mode, k.seeds, i, edges, n, c) && c <= k.maxDs ==>
      l.Has(n) && l.dist[n] <= c
  {
    assert Sound(k, l, n);
    forall i, edges, c: nat | Reaches(k.g, k.mode, k.seeds, i, edges, n, c) && c <= k.maxDs
      ensures l.Has(n) && l.dist[n] <= c
    {
      NoCheaper(k, l, i, edges, n, c);
    }
  }

  /** The parent edge of a finished label costs exactly the difference of the two labels. */
  lemma ParentExact(k: Task, l: Labels, u: nat, n: nat)
    requires k.Valid() && Explored(k, l) && l.Has(n) && l.parent[n] >= 0
    requires k.g.OutEdge(u, l.parent[n]) && n < k.g.NumNodes()
    ensures l.Has(u) && Step(k.g, k.mode, u, l.parent[n]) && k.g.edgeTarget[l.parent[n]] == n
    ensures l.dist[u] + Cost(k.g, k.mode, l.parent[n]) == l.dist[n]
    ensures l.dist[u] < l.dist[n]
  {
    assert Sound(k, l, n);
    var e: nat := l.parent[n];
    var u' :| EdgeAccounts(k, l, u', e, n);
    k.g.OneSource(u, u', e);
    assert Settled(k, l, [], u, -1, 0);
    assert Relaxed(k, l, u, e);
    k.g.EdgeCosts(e, k.mode.m, k.mode.speedFactor);
  }

  class NearSearch {
    const labels: LabelStore
    var heap: seq<nat>
    var touched: seq<nat>

    ghost function Now(): Labels
      reads labels`epoch, labels.dist, labels.stamp, labels.parent
    {
      labels.Now()
    }

    ghost predicate Valid()
      reads labels, labels.dist, labels.stamp, labels.parent
    {
      labels.Valid()
    }

    /** touched lists every labelled node once. */
    ghost predicate TouchedOk()
      reads this, labels`epoch, labels.dist, labels.stamp, labels.parent
    {
      && (forall i :: 0 <= i < |touched| ==> Now().Has(touched[i]))
      && (forall v: nat :: Now().Has(v) ==> v in touched)
      && forall i, j :: 0 <= i < j < |touched| ==> touched[i] != touched[j]
    }

    constructor (numNodes: nat)
      ensures Valid() && labels.n == numNodes && fresh(labels.Repr())
    {
      labels := new LabelStore(numNodes, TWO_16);
      heap, touched := [], [];
    }

    /** Labels v with ds unless it already has a label as good; remembers newly reached nodes. */
    method Improve(v: nat, ds: nat, p: int) returns (better: bool)
      requires Valid() && v < labels.n && TouchedOk()
      modifies this`touched, labels.dist, labels.stamp, labels.parent
      ensures Valid() && TouchedOk()
      ensures better <==> !(old(Now()).Has(v) && old(Now()).dist[v] <= ds)
      ensures Now() == if better then old(Now()).Improved(v, ds, p) else old(Now())
    {
      var isNew := labels.stamp[v] != labels.epoch;
      better := labels.Improve(v, ds, p);
      if better && isNew {
        touched := touched + [v];
      }
    }

    /** Queues the seeds within the bound. */
    method UseSeeds(k: Task)
      requires Valid() && k.Valid() && k.g.NumNodes() == labels.n < TWO_32
      requires heap == [] && touched == [] && forall v: nat :: !Now().Has(v)
      modifies this`heap, this`touched, labels.dist, labels.stamp, labels.parent
      ensures Valid() && TouchedOk() && Searching(k, Now(), heap, |k.seeds|, -1, 0)
    {
      var i := 0;
      while i < |k.seeds|
        invariant Valid() && TouchedOk() && i <= |k.seeds|
        invariant Searching(k, Now(), heap, i, -1, 0)
      {
        var sd := k.seeds[i];
        assert k.SeedOk(i);
        if sd.ds <= k.maxDs {
          ghost var l, h := Now(), heap;
          var better := Improve(sd.node, sd.ds, -1);
          if better {
            heap := HeapPush(heap, Pack(sd.ds, sd.node));
            assert Reaches(k.g, k.mode, k.seeds, i, [], sd.node, sd.ds);
            ImproveKeeps(k, l, h, heap, i, -1, 0, sd.node, sd.ds, -1);
          }
        }
        assert SeedUsed(k, Now(), i);
        i := i + 1;
      }
    }

    /** Relaxes edge e of the node v being settled. */
    method RelaxEdge(k: Task, v: nat, ds: nat, e: nat)
      requires Valid() && TouchedOk() && k.Valid() && k.g.NumNodes() == labels.n < TWO_32
      requires v < labels.n && k.g.OutEdge(v, e) && Now().Has(v) && Now().dist[v] == ds
      requires Searching(k, Now(), heap, |k.seeds|, v, e)
      modifies this`heap, this`touched, labels.dist, labels.stamp, labels.parent
      ensures Valid() && TouchedOk()
      ensures Now().Has(v) && Now().dist[v] == ds
      ensures Searching(k, Now(), heap, |k.seeds|, v, e + 1)
      ensures Potential(Now(), k.maxDs, labels.n) < Potential(old(Now()), k.maxDs, labels.n) ||
        (Potential(Now(), k.maxDs, labels.n) == Potential(old(Now()), k.maxDs, labels.n) && heap == old(heap))
    {
      ghost var l, h := Now(), heap;
      assert Sound(k, l, v);
      assert e < |k.g.edgeTarget| by { assert k.g.Ordered(v + 1, k.g.NumNodes()); }
      assert k.g.EdgeOk(e);
      k.g.EdgeCosts(e, k.mode.m, k.mode.speedFactor);
      if k.g.Allowed(e, k.mode.m) {
        var nd := ds + k.g.EdgeDs(e, k.mode.m, k.mode.speedFactor);
        if nd <= k.maxDs {
          var t := k.g.edgeTarget[e];
          var better := Improve(t, nd, e);
          if better {
            heap := HeapPush(heap, Pack(nd, t));
            EdgeImproves(k, l, v, e, nd);
            ImproveKeeps(k, l, h, heap, |k.seeds|, v, e, t, nd, e);
            PotentialDrops(l, k.maxDs, labels.n, t, nd, e);
          }
        }
      }
      OneMoreEdge(k, Now(), heap, v, e, e + 1);
    }

    /** Explores from the seeds up to the bound, reusing the arrays of earlier runs. */
    method Run(g: Graph, seeds: seq<Seed>, mode: Travel, maxDs: nat) returns (ghost k: Task)
      requires Valid() && g.Valid() && g.NumNodes() == labels.n
      requires forall i :: 0 <= i < |seeds| ==> seeds[i].node < labels.n
      modifies this, labels, labels.dist, labels.stamp, labels.parent
      ensures Valid() && TouchedOk()
      ensures k == Task(g, mode, seeds, if maxDs > MAX_NEAR_DS then MAX_NEAR_DS else maxDs)
      ensures k.Valid() && Explored(k, Now())
    {
      var bound := if maxDs > MAX_NEAR_DS then MAX_NEAR_DS else maxDs;
      var task := Task(g, mode, seeds, bound);
      k := task;
      labels.NextEpoch();
      heap, touched := [], [];
      UseSeeds(task);
      while heap != []
        invariant Valid() && TouchedOk() && Searching(k, Now(), heap, |seeds|, -1, 0)
        decreases Potential(Now(), bound, labels.n), |heap|
      {
        ghost var h := heap;
        var it;
        it, heap := HeapPop(heap);
        var ds, v := KeyOf(it), NodeOf(it);
        assert it in h;
        if ds == labels.dist[v] && labels.stamp[v] == labels.epoch {
          PopKeeps(k, Now(), h, heap, |seeds|, it, v, g.firstEdge[v]);
          SettleNode(task, v, ds);
        } else {
          StaleKeeps(k, Now(), h, heap, |seeds|, it);
        }
      }
    }

    /** Relaxes every out-edge of a node just popped at its label. */
    method SettleNode(k: Task, v: nat, ds: nat)
      requires Valid() && TouchedOk() && k.Valid() && k.g.NumNodes() == labels.n < TWO_32
      requires v < labels.n && Now().Has(v) && Now().dist[v] == ds
      requires Searching(k, Now(), heap, |k.seeds|, v, k.g.firstEdge[v])
      modifies this`heap, this`touched, labels.dist, labels.stamp, labels.parent
      ensures Valid() && TouchedOk()
      ensures Searching(k, Now(), heap, |k.seeds|, -1, 0)
      ensures Potential(Now(), k.maxDs, labels.n) < Potential(old(Now()), k.maxDs, labels.n) ||
        (Potential(Now(), k.maxDs, labels.n) == Potential(old(Now()), k.maxDs, labels.n) && heap == old(heap))
    {
      assert k.g.Ordered(v, v + 1);
      var e := k.g.firstEdge[v];
      while e < k.g.firstEdge[v + 1]
        invariant k.g.firstEdge[v] <= e <= k.g.firstEdge[v + 1]
        invariant Valid() && TouchedOk()
        invariant Now().Has(v) && Now().dist[v] == ds
        invariant Searching(k, Now(), heap, |k.seeds|, v, e)
        invariant Potential(Now(), k.maxDs, labels.n) < Potential(old(Now()), k.maxDs, labels.n) ||
          (Potential(Now(), k.maxDs, labels.n) == Potential(old(Now()), k.maxDs, labels.n) && heap == old(heap))
      {
        RelaxEdge(k, v, ds, e);
        e := e + 1;
      }
      DoneKeeps(k, Now(), heap, |k.seeds|, v);
    }

    /** The directed edges from a seed to v, in travel order; none when v was not reached. */
    method PathTo(ghost k: Task, g: Graph, v: nat) returns (path: seq<nat>)
      requires Valid() && k.Valid() && g == k.g && g.NumNodes() == labels.n && v < labels.n
      requires Explored(k, Now())
      ensures !Now().Has(v) ==> path == []
      ensures Now().Has(v) ==> exists i :: Reaches(k.g, k.mode, k.seeds, i, path, v, Now().dist[v])
    {
      if labels.stamp[v] != labels.epoch { return []; }
      var rev: seq<nat> := [];
      var u: nat := v;
      while labels.parent[u] >= 0
        invariant u < labels.n && Now().Has(u)
        invariant Path(g, k.mode, u, Reversed(rev), v)
        invariant Now().dist[u] + PathCost(g, k.mode, Reversed(rev)) == Now().dist[v]
        decreases labels.dist[u]
      {
        assert Sound(k, Now(), u);
        var e: nat := labels.parent[u];
        assert e < g.NumEdges();
        var w := g.SourceOf(e);
        ParentExact(k, Now(), w, u);
        ReversedSnoc(rev, e);
        assert ([e] + Reversed(rev))[1..] == Reversed(rev);
        rev := rev + [e];
        u := w;
      }
      assert Sound(k, Now(), u);
      path := Reverse(rev);
      ghost var i :| 0 <= i < |k.seeds| && k.seeds[i].node == u && k.seeds[i].ds == Now().dist[u];
      assert Reaches(k.g, k.mode, k.seeds, i, path, v, Now().dist[v]);
    }

    /** The cost to v, if v was reached. */
    method Dist(v: nat) returns (ds: nat, ok: bool)
      requires Valid() && v < labels.n
      ensures ok <==> Now().Has(v)
      ensures ok ==> ds == Now().dist[v]
    {
      if labels.stamp[v] != labels.epoch { return 0, false; }
      return labels.dist[v], true;
    }
  }
}
