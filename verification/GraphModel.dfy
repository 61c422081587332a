/** The compiled street graph: CSR out-edges, traversal costs, and what a path costs. */
module GraphModel {
  import opened Words
  import opened Varints
  import opened StreetMap

  datatype Mode = Car | Bike | Foot

  /** The flag byte of a directed edge or node, bit by bit. */
  datatype Flags = Flags(car: bool, bike: bool, foot: bool, geomRev: bool, roundabout: bool, ramp: bool, steps: bool,
    unused: bool)
  {
    predicate Has(m: Mode) {
      match m
      case Car => car
      case Bike => bike
      case Foot => foot
    }

    predicate Any() {
      car || bike || foot || geomRev || roundabout || ramp || steps || unused
    }

    function With(m: Mode): (r: Flags)
      ensures forall m' :: r.Has(m') <==> Has(m') || m' == m
    {
      match m
      case Car => this.(car := true)
      case Bike => this.(bike := true)
      case Foot => this.(foot := true)
    }
  }

  const NO_FLAGS: Flags := Flags(false, false, false, false, false, false, false, false)

  datatype Graph = Graph(
    nodeAt: seq<Coord>,
    firstEdge: seq<nat>,      // CSR offsets, one more than the nodes
    edgeTarget: seq<nat>,
    edgeMeters: seq<nat>,
    edgeFlags: seq<Flags>,
    edgeSpeed: seq<nat>,
    edgeName: seq<nat>,
    edgeGeom: seq<nat>,       // offset into geom, or NO_GEOM
    geom: seq<byte>)
  {
    function NumNodes(): nat { if |firstEdge| == 0 then 0 else |firstEdge| - 1 }

    function NumEdges(): nat { |edgeTarget| }

    ghost predicate Valid() {
      && |firstEdge| >= 1 && firstEdge[0] == 0 && firstEdge[NumNodes()] == NumEdges() < TWO_31
      && NumNodes() < TWO_31
      && |edgeMeters| == |edgeFlags| == |edgeSpeed| == NumEdges()
      && (forall i: nat, j: nat :: Ordered(i, j))
      && (forall e: nat :: EdgeOk(e))
    }

    ghost predicate Ordered(i: nat, j: nat) {
      i <= j < |firstEdge| ==> firstEdge[i] <= firstEdge[j]
    }

    ghost predicate EdgeOk(e: nat) {
      e < NumEdges() && |edgeMeters| == |edgeSpeed| == NumEdges() ==>
        edgeTarget[e] < NumNodes() && 1 <= edgeMeters[e] < TWO_16 && edgeSpeed[e] < 256
    }

    /** e is an out-edge of n. */
    predicate OutEdge(n: nat, e: nat) {
      n + 1 < |firstEdge| && firstEdge[n] <= e < firstEdge[n + 1]
    }

    predicate Allowed(e: nat, m: Mode)
      requires e < |edgeFlags|
    {
      edgeFlags[e].Has(m)
    }

    /** Traversal cost in deciseconds; the 32-bit product of metres and speed factor wraps. */
    function EdgeDs(e: nat, m: Mode, speedFactor: nat): nat
      requires e < |edgeMeters| == |edgeSpeed|
    {
      if m == Car then
        var v := if edgeSpeed[e] == 0 then 30 else edgeSpeed[e];
        (edgeMeters[e] * 36 + v - 1) / v
      else
        var ds := (edgeMeters[e] * speedFactor) % TWO_32 / TWO_16;
        if ds == 0 then 1 else ds
    }

    /** Every edge costs at least one decisecond and less than 2^23. */
    lemma EdgeCosts(e: nat, m: Mode, speedFactor: nat)
      requires Valid() && e < NumEdges()
      ensures 1 <= EdgeDs(e, m, speedFactor) < 0x80_0000
    {
      assert EdgeOk(e);
      if m == Car {
        var v := if edgeSpeed[e] == 0 then 30 else edgeSpeed[e];
        var t := edgeMeters[e] * 36 + v - 1;
        assert t >= v && t < 0x80_0000;
        CeilDiv(t, v);
      } else {
        assert (edgeMeters[e] * speedFactor) % TWO_32 < TWO_32;
      }
    }

    /** CSR binary search for the source node of an edge. */
    method SourceOf(e: nat) returns (n: nat)
      requires Valid() && e < NumEdges()
      ensures n < NumNodes() && OutEdge(n, e)
    {
      var lo, hi := 0, NumNodes();
      while lo < hi
        invariant 0 <= lo <= hi <= NumNodes()
        invariant firstEdge[lo] <= e
        invariant hi < NumNodes() ==> firstEdge[hi + 1] > e
      {
        var mid := (lo + hi) / 2;
        if firstEdge[mid + 1] > e {
          hi := mid;
        } else {
          lo := mid + 1;
        }
      }
      n := lo;
    }

    lemma OneSource(n: nat, n': nat, e: nat)
      requires Valid() && OutEdge(n, e) && OutEdge(n', e)
      ensures n == n'
    {
      assert Ordered(n + 1, n') && Ordered(n' + 1, n);
    }
  }

  lemma CeilDiv(t: nat, v: nat)
    requires 1 <= v <= t
    ensures 1 <= t / v <= t
  {
  }

  /** A search start: a node and the cost already paid to reach it. */
  datatype Seed = Seed(node: nat, ds: nat)

  /** How a search reads the graph. */
  datatype Travel = Travel(m: Mode, speedFactor: nat)

  /** The allowed edges lead in turn from node a to node b. */
  ghost predicate Path(g: Graph, mode: Travel, a: nat, edges: seq<nat>, b: nat)
    decreases |edges|
  {
    && a < g.NumNodes()
    && if edges == [] then a == b
       else Step(g, mode, a, edges[0]) && Path(g, mode, g.edgeTarget[edges[0]], edges[1..], b)
  }

  /** Edge e leaves a and may be used in this mode. */
  ghost predicate Step(g: Graph, mode: Travel, a: nat, e: nat) {
    g.OutEdge(a, e) && e < |g.edgeTarget| == |g.edgeFlags| == |g.edgeMeters| == |g.edgeSpeed| && g.Allowed(e, mode.m)
  }

  /** The cost of an edge; edges outside the graph cost nothing. */
  ghost function Cost(g: Graph, mode: Travel, e: nat): nat {
    if e < |g.edgeMeters| == |g.edgeSpeed| then g.EdgeDs(e, mode.m, mode.speedFactor) else 0
  }

  ghost function PathCost(g: Graph, mode: Travel, edges: seq<nat>): nat {
    if edges == [] then 0 else Cost(g, mode, edges[0]) + PathCost(g, mode, edges[1..])
  }

  /** A seeded path: from some seed to n, at total cost c. */
  ghost predicate Reaches(g: Graph, mode: Travel, seeds: seq<Seed>, i: nat, edges: seq<nat>, n: nat, c: nat) {
    i < |seeds| && Path(g, mode, seeds[i].node, edges, n) && c == seeds[i].ds + PathCost(g, mode, edges)
  }

  lemma {:induction false} PathSnoc(g: Graph, mode: Travel, a: nat, edges: seq<nat>, b: nat, e: nat)
    requires g.Valid() && Path(g, mode, a, edges, b) && Step(g, mode, b, e)
    ensures Path(g, mode, a, edges + [e], g.edgeTarget[e])
    ensures PathCost(g, mode, edges + [e]) == PathCost(g, mode, edges) + Cost(g, mode, e)
    decreases |edges|
  {
    assert g.EdgeOk(e);
    if edges == [] {
      assert [e][1..] == [];
      assert edges + [e] == [e];
      assert PathCost(g, mode, [e]) == Cost(g, mode, e) + PathCost(g, mode, [e][1..]);
    } else {
      PathSnoc(g, mode, g.edgeTarget[edges[0]], edges[1..], b, e);
      assert (edges + [e])[1..] == edges[1..] + [e];
    }
  }

  /** The last edge of a nonempty path. */
  lemma {:induction false} PathInit(g: Graph, mode: Travel, a: nat, edges: seq<nat>, b: nat) returns (mid: nat)
    requires g.Valid() && Path(g, mode, a, edges, b) && edges != []
    ensures Path(g, mode, a, edges[..|edges| - 1], mid) && Step(g, mode, mid, edges[|edges| - 1])
    ensures b == g.edgeTarget[edges[|edges| - 1]]
    ensures PathCost(g, mode, edges) == PathCost(g, mode, edges[..|edges| - 1]) + Cost(g, mode, edges[|edges| - 1])
    decreases |edges|
  {
    if |edges| == 1 {
      mid := a;
      assert edges[..0] == [] && edges[1..] == [];
    } else {
      mid := PathInit(g, mode, g.edgeTarget[edges[0]], edges[1..], b);
      assert edges[1..][..|edges| - 2] == edges[..|edges| - 1][1..];
    }
  }
}
