/** Sequences without duplicates, and how long they can be. */
module Finite {

  ghost predicate NoDups<T>(s: seq<T>) {
    forall i, j :: 0 <= i < j < |s| ==> s[i] != s[j]
  }

  ghost function Range(n: nat): (r: set<int>)
    ensures |r| == n && forall k :: k in r <==> 0 <= k < n
  {
    if n == 0 then {} else Range(n - 1) + {n - 1}
  }

  lemma {:induction false} NoDupsCardinality<T>(s: seq<T>)
    requires NoDups(s)
    ensures |(set x | x in s)| == |s|
  {
    if s != [] {
      var front, last := s[..|s| - 1], s[|s| - 1];
      NoDupsCardinality(front);
      assert (set x | x in s) == (set x | x in front) + {last} by {
        assert s == front + [last];
      }
    }
  }

  lemma Element<T>(s: set<T>) returns (x: T)
    requires s != {}
    ensures x in s
  {
    x :| x in s;
  }

  lemma SubsetCardinality<T>(a: set<T>, b: set<T>)
    requires a <= b
    ensures |a| <= |b|
    decreases a
  {
    if x :| x in a {
      SubsetCardinality(a - {x}, b - {x});
    }
  }

  /** Pigeonhole principle: distinct numbers below n are at most n. */
  lemma NoDupsBounded(s: seq<int>, n: nat)
    requires NoDups(s) && forall x | x in s :: 0 <= x < n
    ensures |s| <= n
  {
    NoDupsCardinality(s);
    SubsetCardinality((set x | x in s), Range(n));
  }
}
