/** In-place reversal, as the path and journey rebuilders do it. */
module Reversing {
  function Reversed<T>(s: seq<T>): (r: seq<T>)
    ensures |r| == |s|
    ensures forall i :: 0 <= i < |s| ==> r[i] == s[|s| - 1 - i]
  {
    if s == [] then [] else Reversed(s[1..]) + [s[0]]
  }

  lemma {:induction false} ReversedSnoc<T>(s: seq<T>, x: T)
    ensures Reversed(s + [x]) == [x] + Reversed(s)
  {
    if s == [] {
      assert s + [x] == [x];
      assert [x][1..] == [];
    } else {
      ReversedSnoc(s[1..], x);
      assert (s + [x])[1..] == s[1..] + [x];
    }
  }

  method Reverse<T>(s: seq<T>) returns (r: seq<T>)
    ensures r == Reversed(s)
  {
    r := s;
    var i, n := 0, |s|;
    while i < n / 2
      invariant 0 <= i <= n / 2 && |r| == n
      invariant forall k :: 0 <= k < i ==> r[k] == s[n - 1 - k] && r[n - 1 - k] == s[k]
      invariant forall k :: i <= k < n - i ==> r[k] == s[k]
    {
      r := r[i := r[n - 1 - i]][n - 1 - i := r[i]];
      i := i + 1;
    }
  }
}
