/** Sorted id lists: sorting, dropping repeats in place, binary search. */
module Sorting {
  predicate Sorted(s: seq<int>) { forall i, j :: 0 <= i < j < |s| ==> s[i] <= s[j] }

  predicate Increasing(s: seq<int>) { forall i, j :: 0 <= i < j < |s| ==> s[i] < s[j] }

  function Insert(s: seq<int>, x: int): seq<int> {
    if s == [] then [x]
    else if x <= s[0] then [x] + s
    else [s[0]] + Insert(s[1..], x)
  }

  lemma {:induction false} InsertKeeps(s: seq<int>, x: int)
    ensures multiset(Insert(s, x)) == multiset(s) + multiset{x}
  {
    if s != [] && x > s[0] {
      InsertKeeps(s[1..], x);
      assert s == [s[0]] + s[1..];
    }
  }

  lemma {:induction false} InsertSorts(s: seq<int>, x: int)
    requires Sorted(s)
    ensures Sorted(Insert(s, x))
  {
    if s != [] && x > s[0] {
      InsertSorts(s[1..], x);
      var t := Insert(s[1..], x);
      InsertKeeps(s[1..], x);
      forall i | 0 <= i < |t| ensures t[i] >= s[0] {
        assert t[i] in multiset(t);
        assert t[i] == x || t[i] in s[1..];
      }
    }
  }

  /** slices.Sort. */
  function Sort(s: seq<int>): seq<int> {
    if s == [] then [] else Insert(Sort(s[1..]), s[0])
  }

  lemma {:induction false} SortSorts(s: seq<int>)
    ensures Sorted(Sort(s)) && multiset(Sort(s)) == multiset(s)
  {
    if s != [] {
      SortSorts(s[1..]);
      InsertSorts(Sort(s[1..]), s[0]);
      InsertKeeps(Sort(s[1..]), s[0]);
      assert s == [s[0]] + s[1..];
    }
  }

  /** In a sorted list the copies of a value are one run. */
  lemma RunLength(s: seq<int>, i: nat, j: nat)
    requires Sorted(s) && i < j <= |s|
    requires forall k :: i <= k < j ==> s[k] == s[i]
    requires forall k :: 0 <= k < i ==> s[k] < s[i]
    requires forall k :: j <= k < |s| ==> s[k] > s[i]
    ensures multiset(s)[s[i]] == j - i
  {
    var x := s[i];
    assert s == s[..i] + s[i..j] + s[j..];
    assert x !in s[..i] && x !in s[j..];
    assert multiset(s)[x] == multiset(s[..i])[x] + multiset(s[i..j])[x] + multiset(s[j..])[x];
    forall k | 0 <= k < j - i ensures s[i..j][k] == x { assert s[i..j][k] == s[i + k]; }
    AllEqual(s[i..j], x);
  }

  lemma {:induction false} AllEqual(s: seq<int>, x: int)
    requires forall k :: 0 <= k < |s| ==> s[k] == x
    ensures multiset(s)[x] == |s|
  {
    if s != [] {
      AllEqual(s[1..], x);
      assert s == [s[0]] + s[1..];
    }
  }

  /** Drops repeats, writing over the part already read; `twice` says which values had several copies. */
  method Compact(a: array<int>) returns (n: nat, twice: seq<bool>)
    requires Sorted(a[..])
    modifies a
    ensures n == |twice| <= a.Length && Increasing(a[..n])
    ensures forall x :: x in a[..n] <==> x in old(a[..])
    ensures forall k :: 0 <= k < n ==> (twice[k] <==> multiset(old(a[..]))[a[k]] >= 2)
  {
    ghost var s := a[..];
    n, twice := 0, [];
    var i := 0;
    while i < a.Length
      invariant n == |twice| && n <= i <= a.Length && a[i..] == s[i..]
      invariant Compacted(s, i, a[..n], twice)
    {
      var j := i + 1;
      while j < a.Length && a[j] == a[i]
        invariant i < j <= a.Length && forall k :: i <= k < j ==> s[k] == s[i]
      {
        assert a[i..][j - i] == s[i..][j - i] && a[i..][0] == s[i..][0];
        j := j + 1;
      }
      assert a[i..][0] == s[i..][0];
      if j < a.Length { assert a[i..][j - i] == s[i..][j - i]; }
      NextRun(s, i, j, a[..n], twice);
      ghost var before := a[..n];
      var x := a[i];
      a[n] := x;
      assert a[..n + 1] == before + [s[i]];
      assert a[j..] == s[j..] by {
        assert forall k :: j <= k < a.Length ==> a[k] == s[i..][k - i];
      }
      n, twice := n + 1, twice + [j - i >= 2];
      i := j;
    }
    assert s[..i] == s;
  }

  /** t is s[..i] without repeats, and s[..i] ends where a run ends. */
  ghost predicate Compacted(s: seq<int>, i: nat, t: seq<int>, twice: seq<bool>)
    requires i <= |s|
  {
    && |t| == |twice| && Increasing(t)
    && (forall x :: x in t <==> x in s[..i])
    && (i < |s| ==> forall k :: 0 <= k < i ==> s[k] < s[i])
    && forall k :: 0 <= k < |t| ==> (twice[k] <==> multiset(s)[t[k]] >= 2)
  }

  lemma NextRun(s: seq<int>, i: nat, j: nat, t: seq<int>, twice: seq<bool>)
    requires Sorted(s) && i < j <= |s| && Compacted(s, i, t, twice)
    requires forall k :: i <= k < j ==> s[k] == s[i]
    requires j < |s| ==> s[j] != s[i]
    ensures Compacted(s, j, t + [s[i]], twice + [j - i >= 2])
  {
    assert forall k :: j <= k < |s| ==> s[k] > s[i] by {
      if j < |s| { assert s[j] > s[i]; }
    }
    RunLength(s, i, j);
    EarlierLess(s, i, t);
    RunElements(s, i, j);
    var t' := t + [s[i]];
    forall x ensures x in t' <==> x in s[..j] {
      assert x in t' <==> x in t || x == s[i];
    }
  }

  lemma EarlierLess(s: seq<int>, i: nat, t: seq<int>)
    requires i < |s| && (forall x :: x in t ==> x in s[..i]) && forall k :: 0 <= k < i ==> s[k] < s[i]
    ensures forall k :: 0 <= k < |t| ==> t[k] < s[i]
  {
    forall k | 0 <= k < |t| ensures t[k] < s[i] { assert t[k] in t; }
  }

  lemma RunElements(s: seq<int>, i: nat, j: nat)
    requires i < j <= |s| && forall k :: i <= k < j ==> s[k] == s[i]
    ensures forall x :: x in s[..j] <==> x in s[..i] || x == s[i]
  {
    assert s[..j][i] == s[i];
    forall x ensures x in s[..j] <==> x in s[..i] || x == s[i] {
      if x in s[..i] {
        var k :| 0 <= k < i && s[k] == x;
        assert s[..j][k] == x;
      }
      if x in s[..j] {
        var k :| 0 <= k < j && s[k] == x;
        if k < i { assert s[..i][k] == x; }
      }
    }
  }

  /** slices.BinarySearch. */
  method BinarySearch(s: seq<int>, x: int) returns (j: nat, ok: bool)
    requires Increasing(s)
    ensures ok <==> x in s
    ensures ok ==> j < |s| && s[j] == x
  {
    var lo, hi := 0, |s|;
    while lo < hi
      invariant 0 <= lo <= hi <= |s|
      invariant forall k :: 0 <= k < lo ==> s[k] < x
      invariant forall k :: hi <= k < |s| ==> s[k] >= x
    {
      var mid := (lo + hi) / 2;
      if s[mid] < x { lo := mid + 1; } else { hi := mid; }
    }
    j, ok := lo, lo < |s| && s[lo] == x;
  }
}
