/** Small facts about concatenation, stated once so that proofs can name them. */
module Seqs {
  lemma Assoc<A>(a: seq<A>, b: seq<A>, c: seq<A>)
    ensures (a + b) + c == a + (b + c)
  {
  }

  lemma AddNothing<A>(s: seq<A>)
    ensures s + [] == s && [] + s == s
  {
  }

  /** One element moved from the front of what is left to the end of what is done. */
  lemma Regroup<A>(s: seq<A>, t: seq<A>)
    requires t != []
    ensures (s + [t[0]]) + t[1..] == s + t
  {
  }

  lemma All<A>(s: seq<A>)
    ensures s[0..] == s && s[..|s|] == s && s[|s|..] == [] && s[..0] == []
  {
  }

  lemma SameAs<A>(s: seq<A>, t: seq<A>)
    requires |s| == |t|
    ensures s == t <==> forall i :: 0 <= i < |s| ==> s[i] == t[i]
  {
  }
}
