/** The binary heap of packed (key << 32 | node) words used by both street searches. */
module Heap {
  import opened Words

  function Parent(j: nat): nat
    requires j >= 1
  {
    (j - 1) / 2
  }

  /** Entry j is not below its parent. */
  ghost predicate InOrder(h: seq<nat>, j: nat) {
    1 <= j < |h| ==> h[Parent(j)] <= h[j]
  }

  ghost predicate IsHeap(h: seq<nat>) {
    forall j: nat :: InOrder(h, j)
  }

  function Pack(key: nat, node: nat): nat { key * TWO_32 + node }

  function KeyOf(it: nat): nat { it / TWO_32 }

  function NodeOf(it: nat): nat { it % TWO_32 }

  lemma Unpack(key: nat, node: nat)
    requires node < TWO_32
    ensures KeyOf(Pack(key, node)) == key && NodeOf(Pack(key, node)) == node
  {
  }

  function Swap(h: seq<nat>, i: nat, j: nat): (r: seq<nat>)
    requires i < |h| && j < |h|
    ensures |r| == |h| && multiset(r) == multiset(h)
  {
    h[i := h[j]][j := h[i]]
  }

  /** j, a child of i, is not below i's parent. */
  ghost predicate Skips(h: seq<nat>, i: nat, j: nat) {
    1 <= j < |h| && 1 <= i < |h| && Parent(j) == i ==> h[Parent(i)] <= h[j]
  }

  /** In order but for entry i, whose children are not below its parent. */
  ghost predicate UpTo(h: seq<nat>, i: nat) {
    (forall j: nat :: j != i ==> InOrder(h, j)) && forall j: nat :: Skips(h, i, j)
  }

  lemma SiftUpStep(h: seq<nat>, i: nat)
    requires 1 <= i < |h| && UpTo(h, i) && h[i] < h[Parent(i)]
    ensures UpTo(Swap(h, Parent(i), i), Parent(i))
  {
    var p := Parent(i);
    var h' := Swap(h, p, i);
    assert InOrder(h, p);
    forall j: nat | j != p
      ensures InOrder(h', j)
    {
      assert InOrder(h, j) || j == i;
      assert Skips(h, i, j);
    }
    forall j: nat
      ensures Skips(h', p, j)
    {
      assert InOrder(h, j) || j == i;
    }
  }

  method HeapPush(h: seq<nat>, it: nat) returns (r: seq<nat>)
    requires IsHeap(h)
    ensures IsHeap(r) && multiset(r) == multiset(h) + multiset{it}
    ensures forall x :: x in r <==> x in h || x == it
    ensures |r| == |h| + 1
  {
    r := h + [it];
    var i := |r| - 1;
    PushedLast(h, it);
    while i > 0
      invariant 0 <= i < |r| == |h| + 1 && UpTo(r, i)
      invariant multiset(r) == multiset(h) + multiset{it}
    {
      var p := Parent(i);
      if r[p] <= r[i] { break; }
      SiftUpStep(r, i);
      r := Swap(r, p, i);
      i := p;
    }
    forall j: nat ensures InOrder(r, j) { assert j != i ==> InOrder(r, j); }
    SameMembers(h, r, it);
  }

  lemma PushedLast(h: seq<nat>, it: nat)
    requires IsHeap(h)
    ensures UpTo(h + [it], |h|)
  {
    forall j: nat | j != |h| ensures InOrder(h + [it], j) { assert InOrder(h, j); }
  }

  lemma SameMembers(h: seq<nat>, r: seq<nat>, it: nat)
    requires multiset(r) == multiset(h) + multiset{it}
    ensures forall x :: x in r <==> x in h || x == it
    ensures |r| == |h| + 1
  {
    assert |multiset(r)| == |multiset(h)| + 1;
    forall x ensures x in r <==> x in h || x == it {
      assert x in r <==> x in multiset(r);
      assert x in h <==> x in multiset(h);
    }
  }

  /** In order but for the children of i, which are not below i's parent. */
  ghost predicate DownFrom(h: seq<nat>, i: nat) {
    (forall j: nat :: j >= 1 && Parent(j) != i ==> InOrder(h, j)) && forall j: nat :: Skips(h, i, j)
  }

  lemma SiftDownStep(h: seq<nat>, i: nat, c: nat)
    requires i < |h| && 1 <= c < |h| && Parent(c) == i && DownFrom(h, i) && h[c] < h[i]
    requires forall j: nat :: 1 <= j < |h| && Parent(j) == i ==> h[c] <= h[j]
    ensures DownFrom(Swap(h, i, c), c)
  {
    var h' := Swap(h, i, c);
    forall j: nat | j >= 1 && Parent(j) != c
      ensures InOrder(h', j)
    {
      assert Parent(j) != i ==> InOrder(h, j);
      assert Skips(h, i, c);
    }
    forall j: nat
      ensures Skips(h', c, j)
    {
      assert j >= 1 && Parent(j) == c ==> InOrder(h, j);
    }
  }

  lemma {:induction false} RootIsLeast(h: seq<nat>, i: nat)
    requires IsHeap(h) && i < |h|
    ensures h[0] <= h[i]
  {
    if i > 0 {
      assert InOrder(h, i);
      RootIsLeast(h, Parent(i));
    }
  }

  lemma LastToRoot(h: seq<nat>) returns (r: seq<nat>)
    requires |h| > 0 && IsHeap(h)
    ensures r == h[0 := h[|h| - 1]][..|h| - 1] && DownFrom(r, 0)
    ensures multiset(h) == multiset(r) + multiset{h[0]}
  {
    var last := |h| - 1;
    r := h[0 := h[last]][..last];
    forall j: nat | j >= 1 && Parent(j) != 0
      ensures InOrder(r, j)
    {
      assert InOrder(h, j);
    }
    assert h == [h[0]] + h[1..];
    if last > 0 {
      assert h[1..] == h[1..last] + [h[last]];
      assert r == [h[last]] + h[1..last];
    }
  }

  /** The position of the least of entry i and its children. */
  method SmallestChild(r: seq<nat>, i: nat) returns (small: nat)
    requires i < |r|
    ensures small == i || (1 <= small < |r| && Parent(small) == i && r[small] < r[i] && small > i)
    ensures forall j: nat :: 1 <= j < |r| && Parent(j) == i ==> r[small] <= r[j]
  {
    var left, right := 2 * i + 1, 2 * i + 2;
    small := i;
    if left < |r| && r[left] < r[small] { small := left; }
    if right < |r| && r[right] < r[small] { small := right; }
  }

  method HeapPop(h: seq<nat>) returns (top: nat, r: seq<nat>)
    requires |h| > 0 && IsHeap(h)
    ensures IsHeap(r) && multiset(h) == multiset(r) + multiset{top}
    ensures forall x :: x in h <==> x in r || x == top
    ensures forall x :: x in h ==> top <= x
    ensures |r| == |h| - 1
  {
    top := h[0];
    forall x | x in h ensures top <= x {
      var i :| 0 <= i < |h| && h[i] == x;
      RootIsLeast(h, i);
    }
    ghost var start := LastToRoot(h);
    r := h[0 := h[|h| - 1]][..|h| - 1];
    var i := 0;
    while i < |r|
      invariant 0 <= i && |r| == |h| - 1
      invariant i < |r| || |r| == 0
      invariant DownFrom(r, i) && multiset(r) == multiset(start)
      decreases |r| - i
    {
      var small := SmallestChild(r, i);
      if small == i { break; }
      SiftDownStep(r, i, small);
      r := Swap(r, i, small);
      i := small;
    }
    forall j: nat ensures InOrder(r, j) { assert j >= 1 && Parent(j) != i ==> InOrder(r, j); }
    SameMembers(r, h, top);
  }
}
