/**
 Splitting the island sectors into island sizes (size_islands).
 */
module Sizes {
  import opened HexTorus
  import opened Chance

  function Total(s: seq<int>): int {
    if s == [] then 0 else Total(s[..|s| - 1]) + s[|s| - 1]
  }

  lemma {:induction false} TotalOfConcat(s: seq<int>, t: seq<int>)
    ensures Total(s + t) == Total(s) + Total(t)
  {
    if t == [] {
      assert s + t == s;
    } else {
      TotalOfConcat(s, t[..|t| - 1]);
      assert (s + t)[..|s + t| - 1] == s + t[..|t| - 1];
    }
  }

  ghost predicate Descending(s: seq<int>) {
    forall i, j :: 0 <= i < j < |s| ==> s[i] >= s[j]
  }

  function Insert(s: seq<int>, x: int): (t: seq<int>)
    ensures multiset(t) == multiset(s) + multiset{x}
  {
    if s == [] then [x]
    else if s[|s| - 1] >= x then s + [x]
    else
      var front, last := s[..|s| - 1], s[|s| - 1];
      assert s == front + [last];
      Insert(front, x) + [last]
  }

  lemma {:induction false} InsertTotal(s: seq<int>, x: int)
    ensures Total(Insert(s, x)) == Total(s) + x
  {
    if s == [] || s[|s| - 1] >= x {
      assert Insert(s, x) == s + [x];
      TotalOfConcat(s, [x]);
    } else {
      var front, last := s[..|s| - 1], s[|s| - 1];
      InsertTotal(front, x);
      TotalOfConcat(Insert(front, x), [last]);
    }
    TotalOfOne(x);
    if s != [] {
      TotalOfOne(s[|s| - 1]);
    }
  }

  lemma TotalOfOne(x: int)
    ensures Total([x]) == x
  {
    assert [x][..0] == [];
  }

  lemma {:induction false} InsertDescending(s: seq<int>, x: int)
    requires Descending(s)
    ensures Descending(Insert(s, x))
  {
    if s != [] && s[|s| - 1] < x {
      var front, last := s[..|s| - 1], s[|s| - 1];
      InsertDescending(front, x);
      MembersOf(front, Insert(front, x), x);
    }
  }

  lemma MembersOf(s: seq<int>, t: seq<int>, x: int)
    requires multiset(t) == multiset(s) + multiset{x}
    ensures forall i :: 0 <= i < |t| ==> t[i] == x || t[i] in s
  {
    forall i | 0 <= i < |t| ensures t[i] == x || t[i] in s {
      assert t[i] in multiset(t);
    }
  }

  /** qsort with int_cmp: largest first. */
  function SortDescending(s: seq<int>): (t: seq<int>)
    ensures multiset(t) == multiset(s)
  {
    if s == [] then [] else
      assert s == s[..|s| - 1] + [s[|s| - 1]];
      Insert(SortDescending(s[..|s| - 1]), s[|s| - 1])
  }

  lemma {:induction false} SortedDescending(s: seq<int>)
    ensures Descending(SortDescending(s)) && Total(SortDescending(s)) == Total(s)
  {
    hide Descending, Insert;
    if s == [] {
      NothingDescends();
    } else {
      var front, last := s[..|s| - 1], s[|s| - 1];
      SortedDescending(front);
      InsertDescending(SortDescending(front), last);
      InsertTotal(SortDescending(front), last);
    }
  }

  lemma NothingDescends()
    ensures Descending([])
  {
  }

  lemma OneMoreSize(n: nat, i: nat, size: nat, s: seq<int>)
    requires 1 <= i < |s|
    ensures (n - i + 1) * size - size == (n - i) * size
    ensures Total(s[1..i + 1]) == Total(s[1..i]) + s[i]
  {
    assert s[1..i + 1][..i - 1] == s[1..i];
  }

  lemma SplitFirst(s: seq<int>)
    requires s != []
    ensures Total(s) == s[0] + Total(s[1..])
  {
    assert [s[0]][..0] == [];
    assert s == [s[0]] + s[1..];
    TotalOfConcat([s[0]], s[1..]);
  }

  /** isiz has sizes after the first up to i; the first is what is left. */
  ghost predicate SizesOk(s: seq<int>, n: nat, size: nat, i: nat, first: int, r: int, left: int)
  {
    && |s| == n && 1 <= i <= n && 0 <= first < size && 0 <= r < size
    && left == (n - i + 1) * size
    && s[0] == left - r + first
    && s[0] + Total(s[1..i]) == n * size
    && forall k :: 1 <= k < i ==> 1 <= s[k] <= 2 * size - 1
  }

  lemma NextSize(s: seq<int>, s': seq<int>, n: nat, size: nat, i: nat, first: int, r0: int, r1: int, left: int)
    requires SizesOk(s, n, size, i, first, r0, left) && i < n && 0 <= r1 < size
    requires s' == s[i := size + r1 - r0][0 := s[0] - (size + r1 - r0)]
    ensures SizesOk(s', n, size, i + 1, first, r1, left - size)
  {
    OneMoreSize(n, i, size, s');
    assert s'[1..i] == s[1..i];
  }

  lemma AllSizes(s: seq<int>, n: nat, size: nat, first: int, r: int, left: int)
    requires SizesOk(s, n, size, n, first, r, left)
    ensures Total(s) == n * size && forall k :: 0 <= k < n ==> 1 <= s[k] <= 2 * size - 1
  {
    SplitFirst(s);
    assert s[1..n] == s[1..];
  }

  /** Sizes in the order drawn. */
  method DrawSizes(n: nat, size: nat) returns (sizes: seq<int>)
    requires n >= 1 && size >= 1
    ensures |sizes| == n && Total(sizes) == n * size
    ensures forall k :: 0 <= k < n ==> 1 <= sizes[k] <= 2 * size - 1
  {
    hide SizesOk, Total;
    var isiz := new int[n];
    isiz[0] := n * size;
    var r1 := Roll0(size);
    ghost var first, left := r1, n * size;
    var i := 1;
    FirstSize(isiz[..], n, size, first);
    while i < n
      invariant 1 <= i <= n && isiz.Length == n && 0 <= r1 < size
      invariant SizesOk(isiz[..], n, size, i, first, r1, left)
    {
      ghost var s := isiz[..];
      var r0 := r1;
      r1 := Roll0(size);
      isiz[i] := size + r1 - r0;
      isiz[0] := isiz[0] - isiz[i];
      assert isiz[..] == s[i := size + r1 - r0][0 := s[0] - (size + r1 - r0)];
      NextSize(s, isiz[..], n, size, i, first, r0, r1, left);
      left := left - size;
      i := i + 1;
    }
    AllSizes(isiz[..], n, size, first, r1, left);
    sizes := isiz[..];
  }

  /** size_islands: n sizes, each less than twice the average, that add up to n times the average. */
  method SizeIslands(n: nat, size: nat) returns (sizes: seq<int>)
    requires n >= 1 && size >= 1
    ensures |sizes| == n && Total(sizes) == n * size
    ensures forall k :: 0 <= k < n ==> 1 <= sizes[k] <= 2 * size - 1
    ensures Descending(sizes)
  {
    hide *;
    var isiz := DrawSizes(n, size);
    sizes := SortDescending(isiz);
    SortedDescending(isiz);
    SortedMembers(isiz, sizes, size);
  }

  lemma FirstSize(s: seq<int>, n: nat, size: nat, first: int)
    requires |s| == n >= 1 && s[0] == n * size && 0 <= first < size
    ensures SizesOk(s, n, size, 1, first, first, n * size)
  {
    assert s[1..1] == [];
  }

  lemma SortedMembers(s: seq<int>, t: seq<int>, size: nat)
    requires multiset(s) == multiset(t) && forall k :: 0 <= k < |s| ==> 1 <= s[k] <= 2 * size - 1
    ensures |s| == |t| && forall k :: 0 <= k < |t| ==> 1 <= t[k] <= 2 * size - 1
  {
    assert |s| == |multiset(s)| == |multiset(t)| == |t|;
    forall k | 0 <= k < |t| ensures 1 <= t[k] <= 2 * size - 1 {
      assert t[k] in multiset(t) && t[k] in multiset(s);
    }
  }
}
