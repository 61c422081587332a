/** Node labels on arrays reused between runs: a label counts only when its stamp is the current epoch. */
module LabelStores {
  /** A snapshot of the arrays; node n carries a label of this run iff its stamp is the epoch. */
  datatype Labels = Labels(dist: seq<nat>, stamp: seq<nat>, parent: seq<int>, epoch: nat)
  {
    ghost predicate Sized(n: nat) {
      |dist| == |stamp| == |parent| == n
    }

    predicate Has(n: nat) {
      n < |stamp| && n < |dist| && n < |parent| && stamp[n] == epoch
    }

    function Improved(n: nat, ds: nat, p: int): Labels
      requires n < |dist| == |stamp| == |parent|
    {
      Labels(dist[n := ds], stamp[n := epoch], parent[n := p], epoch)
    }
  }

  class LabelStore {
    const n: nat
    const wrap: nat            // the epoch counter's modulus: 2^16 or 2^32
    const dist: array<nat>
    const stamp: array<nat>
    const parent: array<int>
    var epoch: nat

    ghost function Now(): Labels
      reads this`epoch, dist, stamp, parent
    {
      Labels(dist[..], stamp[..], parent[..], epoch)
    }

    /** Stamps never run ahead of the epoch, so a new epoch forgets every label. */
    ghost predicate Valid()
      reads this, dist, stamp, parent
    {
      && dist.Length == stamp.Length == parent.Length == n
      && dist != stamp
      && 2 <= wrap && epoch < wrap
      && forall i :: 0 <= i < n ==> stamp[i] <= epoch
    }

    ghost function Repr(): set<object> {
      {this, dist, stamp, parent}
    }

    constructor (numNodes: nat, wrap: nat)
      requires 2 <= wrap
      ensures Valid() && n == numNodes && this.wrap == wrap && fresh(Repr())
    {
      n := numNodes;
      this.wrap := wrap;
      dist := new nat[numNodes](_ => 0);
      stamp := new nat[numNodes](_ => 0);
      parent := new int[numNodes](_ => 0);
      epoch := 0;
      new;
      assert dist != stamp;
    }

    /** Starts a new epoch; when the counter wraps to 0 the stamps are cleared. */
    method NextEpoch()
      requires Valid()
      modifies this`epoch, stamp
      ensures Valid() && forall v: nat :: !Now().Has(v)
    {
      epoch := (epoch + 1) % wrap;
      if epoch == 0 {
        var i := 0;
        while i < n
          invariant 0 <= i <= n
          invariant forall j :: 0 <= j < i ==> stamp[j] == 0
        {
          stamp[i] := 0;
          i := i + 1;
        }
        epoch := 1;
      }
    }

    /** Labels v with ds unless it already has a label as good. */
    method Improve(v: nat, ds: nat, p: int) returns (better: bool)
      requires Valid() && v < n
      modifies dist, stamp, parent
      ensures Valid()
      ensures better <==> !(old(Now()).Has(v) && old(Now()).dist[v] <= ds)
      ensures Now() == if better then old(Now()).Improved(v, ds, p) else old(Now())
    {
      if stamp[v] == epoch && dist[v] <= ds { return false; }
      stamp[v] := epoch;
      dist[v] := ds;
      parent[v] := p;
      better := true;
      assert dist[..] == old(dist[..])[v := ds];
      assert stamp[..] == old(stamp[..])[v := epoch];
      assert parent[..] == old(parent[..])[v := p];
    }
  }
}
