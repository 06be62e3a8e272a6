/**
 Final elevations and sector types (elevate_land, elevate_sea, elev_to_sct_type,
 write_sects).  Elevations are computed with reals.
 */
module Elevation {
  import opened Arith
  import opened HexTorus
  import opened Finite
  import opened Land
  import opened Bfs
  import opened World
  import opened Continents
  import opened Spheres
  import opened Hills
  import opened Resources

  const LANDMIN: int := 1
  const PLATMIN: int := 36
  const HIGHMIN: int := 98

  // Sorting sectors by raw elevation

  /** elev_cmp: by elevation, sectors of the same elevation by offset. */
  ghost predicate Below(elev: seq<int>, a: Sector, b: Sector)
    requires |elev| == WorldSz()
  {
    elev[a] < elev[b] || (elev[a] == elev[b] && a <= b)
  }

  ghost predicate Ascending(elev: seq<int>, s: seq<Sector>)
    requires |elev| == WorldSz()
  {
    forall i, j :: 0 <= i < j < |s| ==> Below(elev, s[i], s[j])
  }

  /** Put x where it belongs. */
  function Insert(elev: seq<int>, s: seq<Sector>, x: Sector): (t: seq<Sector>)
    requires |elev| == WorldSz()
    ensures multiset(t) == multiset(s) + multiset{x}
  {
    if s == [] then [x]
    else
      var front, last := s[..|s| - 1], s[|s| - 1];
      assert s == front + [last];
      if elev[last] < elev[x] || (elev[last] == elev[x] && last <= x) then s + [x]
      else Insert(elev, front, x) + [last]
  }

  lemma AppendKeepsAscending(elev: seq<int>, t: seq<Sector>, last: Sector)
    requires |elev| == WorldSz() && Ascending(elev, t) && forall i :: 0 <= i < |t| ==> Below(elev, t[i], last)
    ensures Ascending(elev, t + [last])
  {
  }

  lemma InsertMembers(elev: seq<int>, s: seq<Sector>, x: Sector)
    requires |elev| == WorldSz()
    ensures forall i :: 0 <= i < |Insert(elev, s, x)| ==> Insert(elev, s, x)[i] == x || Insert(elev, s, x)[i] in s
  {
    hide Insert;
    var t := Insert(elev, s, x);
    forall i | 0 <= i < |t|
      ensures t[i] == x || t[i] in s
    {
      assert t[i] in multiset(t);
    }
  }

  lemma {:induction false} InsertKeepsAscending(elev: seq<int>, s: seq<Sector>, x: Sector)
    requires |elev| == WorldSz() && Ascending(elev, s)
    ensures Ascending(elev, Insert(elev, s, x))
  {
    hide WorldSz;
    if s != [] {
      var front, last := s[..|s| - 1], s[|s| - 1];
      if elev[last] < elev[x] || (elev[last] == elev[x] && last <= x) {
        AppendKeepsAscending(elev, s, x);
      } else {
        InsertKeepsAscending(elev, front, x);
        InsertMembers(elev, front, x);
        AppendKeepsAscending(elev, Insert(elev, front, x), last);
      }
    }
  }

  /** qsort with elev_cmp. */
  function Sort(elev: seq<int>, s: seq<Sector>): (t: seq<Sector>)
    requires |elev| == WorldSz()
    ensures multiset(t) == multiset(s)
  {
    if s == [] then []
    else
      assert s == s[..|s| - 1] + [s[|s| - 1]];
      Insert(elev, Sort(elev, s[..|s| - 1]), s[|s| - 1])
  }

  lemma {:induction false} SortAscending(elev: seq<int>, s: seq<Sector>)
    requires |elev| == WorldSz()
    ensures Ascending(elev, Sort(elev, s))
  {
    if s != [] {
      SortAscending(elev, s[..|s| - 1]);
      InsertKeepsAscending(elev, Sort(elev, s[..|s| - 1]), s[|s| - 1]);
    }
  }

  lemma SortMembers(elev: seq<int>, s: seq<Sector>)
    requires |elev| == WorldSz() && NoDups(s)
    ensures |Sort(elev, s)| == |s| && NoDups(Sort(elev, s))
    ensures forall x :: x in Sort(elev, s) <==> x in s
  {
    hide Insert;
    var t := Sort(elev, s);
    assert |t| == |multiset(t)| == |multiset(s)| == |s|;
    forall x ensures x in t <==> x in s {
      assert x in t <==> x in multiset(t);
    }
    NoDupsFromMultiset(s, t);
  }

  lemma {:induction false} NoDupsMultiset(s: seq<Sector>)
    requires NoDups(s)
    ensures forall x :: multiset(s)[x] <= 1
  {
    if s != [] {
      var front, last := s[..|s| - 1], s[|s| - 1];
      assert s == front + [last];
      NoDupsMultiset(front);
      assert last !in front;
    }
  }

  lemma NoDupsFromMultiset(s: seq<Sector>, t: seq<Sector>)
    requires NoDups(s) && multiset(s) == multiset(t)
    ensures NoDups(t)
  {
    NoDupsMultiset(s);
    forall i, j | 0 <= i < j < |t| ensures t[i] != t[j] {
      if t[i] == t[j] {
        CountTwice(t, i, j);
      }
    }
  }

  lemma CountTwice(t: seq<Sector>, i: nat, j: nat)
    requires i < j < |t| && t[i] == t[j]
    ensures multiset(t)[t[j]] >= 2
  {
    assert t == t[..j] + [t[j]] + t[j + 1..];
    assert t[..j][i] == t[j];
    assert t[j] in multiset(t[..j]);
  }

  // Heights by rank

  /** elevation after i steps of width span / m: linear, at most span. */
  lemma Linear(i: int, m: int, span: int)
    requires 0 <= i <= m && m > 0 && span >= 0
    ensures 0.0 <= i as real * (span as real / m as real) <= span as real
  {
    var step := span as real / m as real;
    assert step * m as real == span as real;
    assert step >= 0.0;
    assert (m - i) as real * step >= 0.0;
    assert i as real * step >= 0.0;
  }

  /** The elevation of the sector that ranks i-th among n sectors, nm of which are mountains. */
  ghost function Height(n: nat, nm: nat, maxNm: nat, i: nat): int
    requires i < n && nm <= maxNm
  {
    if i < n - nm then
      (1.0 + i as real * (if n - nm == 1 then 0.0 else 96.0 / (n - nm - 1) as real) + 0.5).Floor
    else
      var k := if n < nm then i + 1 else i + 1 - (n - nm);
      (98.0 + k as real * (29.0 / maxNm as real) + 0.5).Floor
  }

  /** Non-mountains are in [1,97], mountains in [98,127]. */
  lemma HeightRange(n: nat, nm: nat, maxNm: nat, i: nat)
    requires i < n && nm <= maxNm
    ensures if i < n - nm then LANDMIN <= Height(n, nm, maxNm, i) < HIGHMIN
            else HIGHMIN <= Height(n, nm, maxNm, i) <= 127
  {
    if i < n - nm {
      if n - nm > 1 {
        Linear(i, n - nm - 1, 96);
      }
    } else {
      var k := if n < nm then i + 1 else i + 1 - (n - nm);
      Linear(k, maxNm, 29);
    }
  }

  /** The height k steps up from some base, rounded. */
  ghost function Rise(base: real, k: int, step: real): int {
    (base + k as real * step + 0.5).Floor
  }

  lemma RiseMonotone(base: real, i: int, j: int, step: real)
    requires i <= j && step >= 0.0
    ensures Rise(base, i, step) <= Rise(base, j, step)
  {
    var a, b := i as real * step, j as real * step;
    assert (j - i) as real * step >= 0.0;
    assert a <= b;
  }

  // Elevating one island

  /** The sectors ranked before the i-th have got their heights; nothing else has changed. */
  ghost predicate Ranked(before: seq<int>, elev: seq<int>, off: seq<Sector>, nm: nat, maxNm: nat, i: nat)
    requires |before| == |elev| == WorldSz() && nm <= maxNm && i <= |off|
  {
    && (forall k :: 0 <= k < i ==> elev[off[k]] == Height(|off|, nm, maxNm, k))
    && (forall s: Sector :: (forall k :: 0 <= k < i ==> off[k] != s) ==> elev[s] == before[s])
  }

  lemma RankOne(before: seq<int>, elev: seq<int>, off: seq<Sector>, nm: nat, maxNm: nat, i: nat)
    requires |before| == |elev| == WorldSz() && nm <= maxNm && i < |off| && NoDups(off)
    requires Ranked(before, elev, off, nm, maxNm, i)
    ensures Ranked(before, elev[off[i] := Height(|off|, nm, maxNm, i)], off, nm, maxNm, i + 1)
  {
    hide Height, WorldSz;
  }

  lemma OneMoreStep(i: int, delta: real)
    ensures (i + 1) as real * delta == i as real * delta + delta
  {
  }

  /** The step between the heights of plains; a division by zero leaves an infinity that is not used. */
  function PlainStep(n: nat, nm: nat): (step: real)
    ensures n > nm ==> step >= 0.0
  {
    if n - nm - 1 == 0 then 0.0 else (HIGHMIN - LANDMIN - 1) as real / (n - nm - 1) as real
  }

  function MountainStep(maxNm: nat): (step: real)
    ensures step >= 0.0
  {
    if maxNm == 0 then 0.0 else (127.0 - HIGHMIN as real) / maxNm as real
  }

  lemma PlainHeight(n: nat, nm: nat, maxNm: nat, i: nat)
    requires i < n && nm <= maxNm && i < n - nm
    ensures Height(n, nm, maxNm, i) == Rise(1.0, i, PlainStep(n, nm))
  {
  }

  lemma MountainHeight(n: nat, nm: nat, maxNm: nat, i: nat, k: nat)
    requires i < n && nm <= maxNm && i >= n - nm && k == i + 1 - (if n < nm then 0 else n - nm)
    ensures Height(n, nm, maxNm, i) == Rise(98.0, k, MountainStep(maxNm))
  {
  }

  /** Sectors that rank higher are no lower. */
  lemma HeightMonotone(n: nat, nm: nat, maxNm: nat, i: nat, j: nat)
    requires i <= j < n && nm <= maxNm
    ensures Height(n, nm, maxNm, i) <= Height(n, nm, maxNm, j)
  {
    hide Height, PlainStep, MountainStep, Rise;
    if i < n - nm <= j {
      HeightRange(n, nm, maxNm, i);
      HeightRange(n, nm, maxNm, j);
    } else if j < n - nm {
      PlainHeight(n, nm, maxNm, i);
      PlainHeight(n, nm, maxNm, j);
      RiseMonotone(1.0, i, j, PlainStep(n, nm));
    } else {
      var first := if n < nm then 0 else n - nm;
      MountainHeight(n, nm, maxNm, i, i + 1 - first);
      MountainHeight(n, nm, maxNm, j, j + 1 - first);
      RiseMonotone(98.0, i + 1 - first, j + 1 - first, MountainStep(maxNm));
    }
  }

  /** Lines 1365-1370: give plains their heights. */
  method AssignPlains(elev: array<int>, off: seq<Sector>, nm: nat, maxNm: nat) returns (i: nat)
    requires elev.Length == WorldSz() && NoDups(off) && nm <= maxNm
    modifies elev
    ensures i == (if |off| < nm then 0 else |off| - nm) && Ranked(old(elev[..]), elev[..], off, nm, maxNm, i)
  {
    hide WorldSz, Height, PlainStep;
    ghost var before := elev[..];
    var n := |off|;
    var delta := PlainStep(n, nm);
    var elevation := LANDMIN as real;
    i := 0;
    while i < n - nm
      invariant 0 <= i <= n && (i > 0 ==> i <= n - nm)
      invariant elevation == 1.0 + i as real * delta
      invariant Ranked(before, elev[..], off, nm, maxNm, i)
    {
      PlainHeight(n, nm, maxNm, i);
      RankOne(before, elev[..], off, nm, maxNm, i);
      ghost var now := elev[..];
      assert (elevation + 0.5).Floor == Height(n, nm, maxNm, i);
      elev[off[i]] := (elevation + 0.5).Floor;
      assert elev[..] == now[off[i] := Height(n, nm, maxNm, i)];
      OneMoreStep(i, delta);
      elevation := elevation + delta;
      i := i + 1;
    }
  }

  /** Lines 1371-1376: give mountains their heights. */
  method AssignMountains(elev: array<int>, off: seq<Sector>, nm: nat, maxNm: nat, first: nat, ghost before: seq<int>)
    requires elev.Length == |before| == WorldSz() && NoDups(off) && nm <= maxNm
    requires first == (if |off| < nm then 0 else |off| - nm) && Ranked(before, elev[..], off, nm, maxNm, first)
    modifies elev
    ensures Ranked(before, elev[..], off, nm, maxNm, |off|)
  {
    hide WorldSz, Height, MountainStep;
    var n := |off|;
    var elevation := HIGHMIN as real;
    var delta := MountainStep(maxNm);
    var i := first;
    while i < n
      invariant first <= i <= n
      invariant elevation == 98.0 + (i - first) as real * delta
      invariant Ranked(before, elev[..], off, nm, maxNm, i)
    {
      OneMoreStep(i - first, delta);
      elevation := elevation + delta;
      MountainHeight(n, nm, maxNm, i, i + 1 - first);
      RankOne(before, elev[..], off, nm, maxNm, i);
      ghost var now := elev[..];
      assert (elevation + 0.5).Floor == Height(n, nm, maxNm, i);
      elev[off[i]] := (elevation + 0.5).Floor;
      assert elev[..] == now[off[i] := Height(n, nm, maxNm, i)];
      i := i + 1;
    }
  }

  /** The number of leading sectors that make up the capital. */
  function CapitalSize(c: nat, nc: nat): nat {
    if c < nc then 2 else 0
  }

  /**
   Island sectors have their final elevations: capitals on a plateau, all others
   a height according to their rank by raw elevation.
   */
  ghost predicate Elevated(raw: seq<int>, elev: seq<int>, sect: seq<Sector>, i0: nat, pm: nat, maxNm: nat)
    requires |raw| == |elev| == WorldSz()
  {
    && i0 <= |sect| && pm * |sect| / 100 <= maxNm
    && (forall i :: 0 <= i < i0 ==> elev[sect[i]] == PLATMIN)
    && ByRank(elev, Sort(raw, sect[i0..]), pm * |sect| / 100, maxNm, |sect| - i0)
  }

  /** These n sectors, of which nm are to be mountains, have heights by rank. */
  ghost predicate ByRank(elev: seq<int>, off: seq<Sector>, nm: nat, maxNm: nat, n: nat)
    requires |elev| == WorldSz() && nm <= maxNm
  {
    |off| == n && forall i :: 0 <= i < n ==> elev[off[i]] == Height(n, nm, maxNm, i)
  }

  /** Elevating an island changes its sectors only. */
  ghost predicate ChangedOnly(before: seq<int>, after: seq<int>, sect: seq<Sector>)
    requires |before| == |after| == WorldSz()
  {
    forall s: Sector | s !in sect :: after[s] == before[s]
  }

  lemma SortSame(elev: seq<int>, elev': seq<int>, s: seq<Sector>)
    requires |elev| == |elev'| == WorldSz() && forall x | x in s :: elev[x] == elev'[x]
    ensures Sort(elev, s) == Sort(elev', s)
  {
    if s != [] {
      SortSame(elev, elev', s[..|s| - 1]);
      var t := Sort(elev, s[..|s| - 1]);
      forall x | x in t ensures x in s {
        assert x in multiset(t);
        assert x in multiset(s[..|s| - 1]);
      }
      InsertSame(elev, elev', t, s[|s| - 1]);
    }
  }

  lemma InsertSame(elev: seq<int>, elev': seq<int>, s: seq<Sector>, x: Sector)
    requires |elev| == |elev'| == WorldSz() && elev[x] == elev'[x] && forall y | y in s :: elev[y] == elev'[y]
    ensures Insert(elev, s, x) == Insert(elev', s, x)
  {
    hide WorldSz;
  }

  lemma SuffixNoDups(s: seq<Sector>, k: nat)
    requires NoDups(s) && k <= |s|
    ensures NoDups(s[k..]) && forall i :: 0 <= i < k ==> s[i] !in s[k..]
  {
  }

  /** Lines 1357-1376: elevate one island. */
  method ElevateIsland(elev: array<int>, sect: seq<Sector>, i0: nat, pm: nat, maxNm: nat)
    requires elev.Length == WorldSz() && NoDups(sect) && i0 <= 2 && i0 <= |sect| && pm * |sect| / 100 <= maxNm
    modifies elev
    ensures Elevated(old(elev[..]), elev[..], sect, i0, pm, maxNm)
    ensures ChangedOnly(old(elev[..]), elev[..], sect)
  {
    hide WorldSz, Height, Sort, Insert;
    ghost var raw := elev[..];
    var nm := pm * |sect| / 100;
    SuffixNoDups(sect, i0);
    var i := 0;
    while i < i0
      invariant 0 <= i <= i0
      invariant forall k :: 0 <= k < i ==> elev[sect[k]] == PLATMIN
      invariant forall s: Sector | s !in sect[..i0] :: elev[s] == raw[s]
    {
      elev[sect[i]] := PLATMIN;
      i := i + 1;
    }
    ghost var before := elev[..];
    SortSame(raw, before, sect[i0..]);
    SortMembers(before, sect[i0..]);
    var off := Sort(elev[..], sect[i0..]);
    var first := AssignPlains(elev, off, nm, maxNm);
    AssignMountains(elev, off, nm, maxNm, first, before);
    IslandElevated(raw, before, elev[..], sect, i0, off, pm, nm, maxNm);
  }

  lemma IslandElevated(raw: seq<int>, before: seq<int>, elev: seq<int>, sect: seq<Sector>, i0: nat, off: seq<Sector>,
                       pm: nat, nm: nat, maxNm: nat)
    requires |raw| == |before| == |elev| == WorldSz() && NoDups(sect) && i0 <= |sect|
    requires nm == pm * |sect| / 100 && nm <= maxNm
    requires forall k :: 0 <= k < i0 ==> before[sect[k]] == PLATMIN
    requires forall s: Sector | s !in sect[..i0] :: before[s] == raw[s]
    requires off == Sort(before, sect[i0..]) && |off| == |sect| - i0
    requires Ranked(before, elev, off, nm, maxNm, |off|)
    ensures Elevated(raw, elev, sect, i0, pm, maxNm) && ChangedOnly(raw, elev, sect)
  {
    hide WorldSz, Height, Sort, Insert;
    SuffixNoDups(sect, i0);
    SortSame(raw, before, sect[i0..]);
    SortMembers(before, sect[i0..]);
    forall s: Sector | s !in sect[i0..]
      ensures elev[s] == before[s]
    {
    }
  }

  // Elevating all land

  /** Islands below n have been elevated, everything else has its raw elevation still. */
  ghost predicate LandElevated(l: Land, live: nat, nc: nat, raw: seq<int>, elev: seq<int>, pm: nat, maxNm: nat, n: nat)
    requires l.Sized() && n <= live <= |l.sect| && |raw| == |elev| == WorldSz()
  {
    && (forall c :: 0 <= c < n ==> Elevated(raw, elev, l.sect[c], if c < nc then 2 else 0, pm, maxNm))
    && (forall s: Sector | !(0 <= l.own[s] < n) :: elev[s] == raw[s])
  }

  lemma ElevateNext(l: Land, live: nat, nc: nat, raw: seq<int>, before: seq<int>, elev: seq<int>, pm: nat,
                    maxNm: nat, n: nat)
    requires LandOk(l, live) && n < live && |raw| == |before| == |elev| == WorldSz()
    requires LandElevated(l, live, nc, raw, before, pm, maxNm, n)
    requires Elevated(before, elev, l.sect[n], CapitalSize(n, nc), pm, maxNm) && ChangedOnly(before, elev, l.sect[n])
    ensures LandElevated(l, live, nc, raw, elev, pm, maxNm, n + 1)
  {
    hide WorldSz, Height, Sort, AdjacencyOk, Elevated;
    ElevatedSame(before, raw, elev, elev, l.sect[n], CapitalSize(n, nc), pm, maxNm);
    forall c | 0 <= c < n
      ensures Elevated(raw, elev, l.sect[c], CapitalSize(c, nc), pm, maxNm)
    {
      assert forall s: Sector | s in l.sect[c] :: l.own[s] == c && s !in l.sect[n];
      ElevatedSame(raw, raw, before, elev, l.sect[c], CapitalSize(c, nc), pm, maxNm);
    }
  }

  /** Whether an island is elevated depends on its own sectors only. */
  lemma ElevatedSame(raw: seq<int>, raw': seq<int>, elev: seq<int>, elev': seq<int>, sect: seq<Sector>,
                     i0: nat, pm: nat, maxNm: nat)
    requires |raw| == |raw'| == |elev| == |elev'| == WorldSz()
    requires Elevated(raw, elev, sect, i0, pm, maxNm) && NoDups(sect)
    requires forall s | s in sect :: raw[s] == raw'[s] && elev[s] == elev'[s]
    ensures Elevated(raw', elev', sect, i0, pm, maxNm)
  {
    hide WorldSz, Height, Sort;
    SortSame(raw, raw', sect[i0..]);
    SuffixNoDups(sect, i0);
    SortMembers(raw, sect[i0..]);
    var off := Sort(raw, sect[i0..]);
    forall i | 0 <= i < |off| ensures elev[off[i]] == elev'[off[i]] {
      assert off[i] in off;
    }
  }

  /** No island exceeds the buffers, and continents have their capitals. */
  ghost predicate SizesFit(w: World)
    reads w
    requires w.Valid()
  {
    forall c :: 0 <= c < w.live ==> (if c < w.p.nc then 2 else 0) <= |w.sect[c]| <= Max(w.p.sc, 2 * w.p.isize)
  }

  /** The number of mountains on the largest island possible. */
  ghost function MaxMountains(p: Params, pm: nat): nat {
    pm * Max(p.sc, 2 * p.isize) / 100
  }

  lemma MountainsFit(pm: nat, size: nat, max: nat)
    requires size <= max
    ensures pm * size / 100 <= pm * max / 100
  {
    MulMonotonic(size, max, pm);
  }

  /** elevate_land */
  method ElevateLand(w: World, elev: array<int>, pm: nat)
    requires w.Valid() && LandOk(w.Value(), w.live) && w.live == w.p.nc + w.p.ni && SizesFit(w)
    requires elev.Length == WorldSz() && elev as object !in {w.own as object, w.adjLand}
    modifies elev
    ensures LandElevated(w.Value(), w.live, w.p.nc, old(elev[..]), elev[..], pm, MaxMountains(w.p, pm), w.live)
  {
    hide WorldSz, Height, Sort, LandOk, Elevated, ChangedOnly;
    var maxNm := pm * Max(w.p.sc, 2 * w.p.isize) / 100;
    ghost var raw := elev[..];
    var c := 0;
    SizedLand(w.Value(), w.live);
    while c < w.p.nc + w.p.ni
      invariant 0 <= c <= w.live
      invariant LandElevated(w.Value(), w.live, w.p.nc, raw, elev[..], pm, maxNm, c)
    {
      ghost var before := elev[..];
      MountainsFit(pm, |w.sect[c]|, Max(w.p.sc, 2 * w.p.isize));
      ElevateIsland(elev, w.sect[c], CapitalSize(c, w.p.nc), pm, maxNm);
      ElevateNext(w.Value(), w.live, w.p.nc, raw, before, elev[..], pm, maxNm, c);
      c := c + 1;
    }
  }

  lemma SizedLand(l: Land, live: nat)
    requires LandOk(l, live)
    ensures l.Sized() && live <= |l.sect| && forall c :: 0 <= c < live ==> NoDups(l.sect[c])
    ensures forall s: Sector :: -1 <= l.own[s] < live
  {
    hide AdjacencyOk;
  }

  /** Every land sector ends up between 1 and 127, capitals on the plateau. */
  lemma ElevatedRange(raw: seq<int>, elev: seq<int>, sect: seq<Sector>, i0: nat, pm: nat, maxNm: nat, s: Sector)
    requires |raw| == |elev| == WorldSz() && Elevated(raw, elev, sect, i0, pm, maxNm) && NoDups(sect) && s in sect
    ensures LANDMIN <= elev[s] <= 127 && (s in sect[..i0] ==> elev[s] == PLATMIN)
  {
    hide WorldSz, Height, Sort;
    if s !in sect[..i0] {
      var k :| 0 <= k < |sect| && sect[k] == s;
      SuffixNoDups(sect, i0);
      assert sect[i0..][k - i0] == s;
      SortMembers(raw, sect[i0..]);
      var off := Sort(raw, sect[i0..]);
      assert s in off;
      var i :| 0 <= i < |off| && off[i] == s;
      HeightRange(|off|, pm * |sect| / 100, maxNm, i);
    }
  }

  // Comparing islands

  /** Elevations of sectors. */
  function ElevationsOf(elev: seq<int>, s: seq<Sector>): (h: seq<int>)
    requires |elev| == WorldSz()
    ensures |h| == |s| && forall i :: 0 <= i < |s| ==> h[i] == elev[s[i]]
  {
    if s == [] then [] else ElevationsOf(elev, s[..|s| - 1]) + [elev[s[|s| - 1]]]
  }

  lemma ElevationsOfMore(elev: seq<int>, s: seq<Sector>, x: Sector)
    requires |elev| == WorldSz()
    ensures ElevationsOf(elev, s + [x]) == ElevationsOf(elev, s) + [elev[x]]
  {
    hide WorldSz;
  }

  lemma {:induction false} InsertKeepsElevations(raw: seq<int>, elev: seq<int>, s: seq<Sector>, x: Sector)
    requires |raw| == |elev| == WorldSz()
    ensures multiset(ElevationsOf(elev, Insert(raw, s, x))) == multiset(ElevationsOf(elev, s)) + multiset{elev[x]}
  {
    hide WorldSz, ElevationsOf;
    ElevationsOfMore(elev, s, x);
    if s == [] {
      assert s + [x] == [x];
    } else {
      var front, last := s[..|s| - 1], s[|s| - 1];
      assert s == front + [last];
      InsertKeepsElevations(raw, elev, front, x);
      ElevationsOfMore(elev, front, last);
      ElevationsOfMore(elev, Insert(raw, front, x), last);
    }
  }

  /** Sorting sectors permutes their elevations. */
  lemma {:induction false} SortKeepsElevations(raw: seq<int>, elev: seq<int>, s: seq<Sector>)
    requires |raw| == |elev| == WorldSz()
    ensures multiset(ElevationsOf(elev, Sort(raw, s))) == multiset(ElevationsOf(elev, s))
  {
    hide WorldSz, ElevationsOf, Insert;
    if s != [] {
      var front, last := s[..|s| - 1], s[|s| - 1];
      assert s == front + [last];
      SortKeepsElevations(raw, elev, front);
      InsertKeepsElevations(raw, elev, Sort(raw, front), last);
      ElevationsOfMore(elev, front, last);
    }
  }

  lemma SplitElevations(elev: seq<int>, s: seq<Sector>, i0: nat)
    requires |elev| == WorldSz() && i0 <= |s|
    ensures ElevationsOf(elev, s) == ElevationsOf(elev, s[..i0]) + ElevationsOf(elev, s[i0..])
  {
    hide WorldSz;
  }

  /** Heights by rank. */
  ghost function Heights(n: nat, nm: nat, maxNm: nat): (h: seq<int>)
    requires nm <= maxNm
    ensures |h| == n && forall i :: 0 <= i < n ==> h[i] == Height(n, nm, maxNm, i)
  {
    seq(n, i requires 0 <= i < n => Height(n, nm, maxNm, i))
  }

  lemma PlateauElevations(elev: seq<int>, s: seq<Sector>)
    requires |elev| == WorldSz() && forall i :: 0 <= i < |s| ==> elev[s[i]] == PLATMIN
    ensures ElevationsOf(elev, s) == seq(|s|, i => PLATMIN)
  {
  }

  lemma RankedElevations(elev: seq<int>, off: seq<Sector>, nm: nat, maxNm: nat, n: nat)
    requires |elev| == WorldSz() && nm <= maxNm && ByRank(elev, off, nm, maxNm, n)
    ensures ElevationsOf(elev, off) == Heights(n, nm, maxNm)
  {
    hide WorldSz, Height;
  }

  /** The set of elevations an island gets depends only on how large it is. */
  lemma IslandElevations(raw: seq<int>, elev: seq<int>, sect: seq<Sector>, i0: nat, pm: nat, maxNm: nat)
    requires |raw| == |elev| == WorldSz() && Elevated(raw, elev, sect, i0, pm, maxNm)
    ensures multiset(ElevationsOf(elev, sect))
            == multiset(seq(i0, i => PLATMIN)) + multiset(Heights(|sect| - i0, pm * |sect| / 100, maxNm))
  {
    hide WorldSz, Sort, ByRank, ElevationsOf, Heights;
    PlateauElevations(elev, sect[..i0]);
    RankedElevations(elev, Sort(raw, sect[i0..]), pm * |sect| / 100, maxNm, |sect| - i0);
    SortKeepsElevations(raw, elev, sect[i0..]);
    SplitElevations(elev, sect, i0);
  }

  /** Islands of the same size get the same set of elevations, repetitions included; so do continents. */
  lemma SameSizeSameElevations(raw: seq<int>, elev: seq<int>, a: seq<Sector>, b: seq<Sector>, i0: nat, pm: nat,
                               maxNm: nat)
    requires |raw| == |elev| == WorldSz() && |a| == |b|
    requires Elevated(raw, elev, a, i0, pm, maxNm) && Elevated(raw, elev, b, i0, pm, maxNm)
    ensures multiset(ElevationsOf(elev, a)) == multiset(ElevationsOf(elev, b))
  {
    hide WorldSz, ElevationsOf, Heights, ByRank;
    IslandElevations(raw, elev, a, i0, pm, maxNm);
    IslandElevations(raw, elev, b, i0, pm, maxNm);
  }

  /** Larger islands get the mountains smaller ones get, and possibly more, which are taller. */
  lemma LargerHaveMoreMountains(m: nat, n: nat, pm: nat, maxNm: nat, k: nat)
    requires m <= n && pm <= 100 && pm * n / 100 <= maxNm && k < n
    ensures pm * m / 100 <= pm * n / 100 <= n && pm * m / 100 <= m
    ensures var nm, nm' := pm * m / 100, pm * n / 100;
            && (k < nm ==> Height(m, nm, maxNm, m - nm + k) == Height(n, nm', maxNm, n - nm' + k))
            && (nm <= k < nm' ==>
                  forall j :: 0 <= j < m ==> Height(m, nm, maxNm, j) <= Height(n, nm', maxNm, n - nm' + k))
  {
    hide Height;
    MountainsFit(pm, m, n);
    Percentage(pm, m);
    Percentage(pm, n);
    var nm, nm' := pm * m / 100, pm * n / 100;
    MountainHeights(m, nm, n, nm', maxNm, k);
    if nm <= k < nm' {
      forall j | 0 <= j < m
        ensures Height(m, nm, maxNm, j) <= Height(n, nm', maxNm, n - nm' + k)
      {
        HeightRange(n, nm', maxNm, n - nm' + k);
        HeightRange(m, nm, maxNm, j);
        if j >= m - nm {
          MountainHeights(m, nm, n, nm', maxNm, j - (m - nm));
          HeightMonotone(n, nm', maxNm, n - nm' + (j - (m - nm)), n - nm' + k);
        }
      }
    }
  }

  lemma Percentage(pm: nat, n: nat)
    requires pm <= 100
    ensures 0 <= pm * n / 100 <= n
  {
    MulMonotonic(pm, 100, n);
    MulMonotonic(0, pm, n);
  }

  lemma MountainHeights(m: nat, nm: nat, n: nat, nm': nat, maxNm: nat, k: nat)
    requires nm <= m && nm' <= n && nm <= nm' <= maxNm
    ensures k < nm ==> Height(m, nm, maxNm, m - nm + k) == Height(n, nm', maxNm, n - nm' + k)
  {
  }

  // The sea

  /** Elevations below zero are scaled to -1 to -127; min is the lowest. */
  ghost function SeaLevel(elevation: int, min: int): int
    requires min <= elevation < 0
  {
    -1 - 126 * (-elevation) / (-min)
  }

  lemma SeaLevelIs(elevation: int, min: int)
    requires min <= elevation < 0
    ensures SeaLevel(elevation, min) == -1 - 126 * (-elevation) / (-min)
  {
  }

  lemma SeaLevelRange(elevation: int, min: int)
    requires min <= elevation < 0
    ensures -127 <= SeaLevel(elevation, min) <= -1
    ensures elevation == min ==> SeaLevel(elevation, min) == -127
  {
    var m, e := -min, -elevation;
    var q := 126 * e / m;
    assert 126 * e == q * m + 126 * e % m;
    MulMonotonic(127, q, m);
    MulMonotonic(q, -1, m);
    if e == m {
      DivModUnique(126 * e, m, 126, 0);
    }
  }

  /** The deeper of two sectors stays at least as deep as the other. */
  lemma SeaLevelMonotone(a: int, b: int, min: int)
    requires min <= a <= b < 0
    ensures SeaLevel(a, min) <= SeaLevel(b, min)
  {
    var m := -min;
    var p, q := 126 * -a / m, 126 * -b / m;
    assert 126 * -a == p * m + 126 * -a % m;
    assert 126 * -b == q * m + 126 * -b % m;
    MulMonotonic(p + 1, q, m);
  }

  /** lowest is the lowest elevation there is, if any is below zero. */
  ghost predicate IsLowest(elev: seq<int>, lowest: int)
    requires |elev| == WorldSz()
  {
    && lowest <= 0 && (forall s: Sector :: lowest <= elev[s])
    && (lowest < 0 ==> exists s: Sector :: elev[s] == lowest)
  }

  /** elevate_sea */
  method ElevateSea(elev: array<int>) returns (ghost lowest: int)
    requires elev.Length == WorldSz()
    modifies elev
    ensures IsLowest(old(elev[..]), lowest)
    ensures forall s: Sector ::
              elev[s] == if old(elev[s]) < 0 then SeaLevel(old(elev[s]), lowest) else old(elev[s])
    ensures forall s: Sector, t: Sector :: old(elev[s]) <= old(elev[t]) < 0 ==> elev[s] <= elev[t]
    ensures forall s: Sector :: if old(elev[s]) < 0 then -127 <= elev[s] <= -1 else elev[s] == old(elev[s])
    ensures forall s: Sector | old(elev[s]) < 0 && (forall t: Sector :: old(elev[s]) <= old(elev[t])) :: elev[s] == -127
  {
    hide WorldSz, SeaLevel;
    var min := 0;
    var i := 0;
    while i < WorldSz()
      invariant 0 <= i <= WorldSz() && min <= 0
      invariant forall k: Sector | k < i :: min <= elev[k]
      invariant min < 0 ==> exists k: Sector :: k < i && elev[k] == min
    {
      if elev[i] < min {
        min := elev[i];
      }
      i := i + 1;
    }
    i := 0;
    while i < WorldSz()
      invariant 0 <= i <= WorldSz()
      invariant forall k: Sector | k >= i :: elev[k] == old(elev[k])
      invariant forall k: Sector | k < i ::
                  elev[k] == if old(elev[k]) < 0 then SeaLevel(old(elev[k]), min) else old(elev[k])
    {
      if elev[i] < 0 {
        SeaLevelIs(elev[i], min);
        // C truncates; both operands are negative
        elev[i] := -1 - 126 * (-elev[i]) / (-min);
      }
      i := i + 1;
    }
    lowest := min;
    forall s: Sector | old(elev[s]) < 0
      ensures -127 <= elev[s] <= -1 && (old(elev[s]) == min ==> elev[s] == -127)
    {
      SeaLevelRange(old(elev[s]), min);
    }
    forall s: Sector, t: Sector | old(elev[s]) <= old(elev[t]) < 0
      ensures elev[s] <= elev[t]
    {
      SeaLevelMonotone(old(elev[s]), old(elev[t]), min);
    }
  }

  // All elevations

  /** Sea is in [-127,0], land in [1,127], and capitals are on the plateau. */
  ghost predicate ElevationsOk(l: Land, live: nat, nc: nat, elev: seq<int>)
    requires l.Sized() && live <= |l.sect| && |elev| == WorldSz()
  {
    && (forall s: Sector :: if l.own[s] == -1 then -127 <= elev[s] <= 0 else LANDMIN <= elev[s] <= 127)
    && (forall c, i :: 0 <= c < nc && c < live && 0 <= i < 2 && i < |l.sect[c]| ==> elev[l.sect[c][i]] == PLATMIN)
  }

  lemma LandInRange(l: Land, live: nat, nc: nat, raw: seq<int>, elev: seq<int>, pm: nat, maxNm: nat)
    requires LandOk(l, live) && |raw| == |elev| == WorldSz() && RawOk(l.own, raw)
    requires LandElevated(l, live, nc, raw, elev, pm, maxNm, live)
    ensures forall s: Sector :: if l.own[s] == -1 then elev[s] <= 0 else LANDMIN <= elev[s] <= 127
    ensures forall c, i :: 0 <= c < nc && c < live && 0 <= i < 2 && i < |l.sect[c]| ==> elev[l.sect[c][i]] == PLATMIN
  {
    hide WorldSz, AdjacencyOk, Elevated;
    forall s: Sector | l.own[s] != -1
      ensures LANDMIN <= elev[s] <= 127
    {
      var c := l.own[s];
      ElevatedRange(raw, elev, l.sect[c], CapitalSize(c, nc), pm, maxNm, s);
    }
    forall c, i | 0 <= c < nc && c < live && 0 <= i < 2 && i < |l.sect[c]|
      ensures elev[l.sect[c][i]] == PLATMIN
    {
      CapitalElevated(raw, elev, l.sect[c], pm, maxNm, i);
    }
  }

  lemma CapitalElevated(raw: seq<int>, elev: seq<int>, sect: seq<Sector>, pm: nat, maxNm: nat, i: nat)
    requires |raw| == |elev| == WorldSz() && i < 2 && Elevated(raw, elev, sect, 2, pm, maxNm)
    ensures i < |sect| && elev[sect[i]] == PLATMIN
  {
  }

  /** Sea is below zero exactly where some depression covers it, and at zero elsewhere. */
  ghost predicate SeaFollows(own: seq<int>, elev: seq<int>, hills: seq<Hill>) {
    && |own| == |elev| == WorldSz()
    && (forall s: Sector | own[s] == -1 && Covered(hills, s) :: elev[s] < 0)
    && (forall s: Sector | own[s] == -1 && !Covered(hills, s) :: elev[s] == 0)
  }

  /** Islands of the same size have the same set of elevations, and so do continents. */
  ghost predicate IslandsAlike(l: Land, live: nat, nc: nat, elev: seq<int>)
    requires live <= |l.sect| && |elev| == WorldSz()
  {
    forall c, d | 0 <= c < live && 0 <= d < live && CapitalSize(c, nc) == CapitalSize(d, nc)
                  && |l.sect[c]| == |l.sect[d]| ::
      multiset(ElevationsOf(elev, l.sect[c])) == multiset(ElevationsOf(elev, l.sect[d]))
  }

  lemma ElevatedAlike(l: Land, live: nat, nc: nat, raw: seq<int>, elev: seq<int>, pm: nat, maxNm: nat)
    requires l.Sized() && live <= |l.sect| && |raw| == |elev| == WorldSz()
    requires LandElevated(l, live, nc, raw, elev, pm, maxNm, live)
    ensures IslandsAlike(l, live, nc, elev)
  {
    hide WorldSz, Elevated, ElevationsOf;
    forall c, d | 0 <= c < live && 0 <= d < live && CapitalSize(c, nc) == CapitalSize(d, nc)
                  && |l.sect[c]| == |l.sect[d]|
      ensures multiset(ElevationsOf(elev, l.sect[c])) == multiset(ElevationsOf(elev, l.sect[d]))
    {
      SameSizeSameElevations(raw, elev, l.sect[c], l.sect[d], CapitalSize(c, nc), pm, maxNm);
    }
  }

  lemma SeaDoesNotMatter(l: Land, live: nat, nc: nat, before: seq<int>, elev: seq<int>)
    requires LandOk(l, live) && |before| == |elev| == WorldSz() && IslandsAlike(l, live, nc, before)
    requires forall s: Sector | l.own[s] != -1 :: elev[s] == before[s]
    ensures IslandsAlike(l, live, nc, elev)
  {
    SizedLand(l, live);
    forall c | 0 <= c < live
      ensures ElevationsOf(elev, l.sect[c]) == ElevationsOf(before, l.sect[c])
    {
      SectorsOf(l, live, c);
      SameElevations(elev, before, l.sect[c]);
    }
    hide WorldSz, LandOk, ElevationsOf;
  }

  lemma SameElevations(elev: seq<int>, elev': seq<int>, s: seq<Sector>)
    requires |elev| == |elev'| == WorldSz() && forall x | x in s :: elev[x] == elev'[x]
    ensures ElevationsOf(elev, s) == ElevationsOf(elev', s)
  {
    hide WorldSz;
    assert forall i :: 0 <= i < |s| ==> s[i] in s;
  }

  /** Sea elevations are raw elevations scaled by the lowest of them. */
  ghost predicate SeaLowered(own: seq<int>, raw: seq<int>, elev: seq<int>, lowest: int)
    requires |own| == |raw| == |elev| == WorldSz()
  {
    && (forall s: Sector | own[s] == -1 :: lowest <= raw[s] <= 0)
    && (lowest < 0 ==> exists s: Sector :: own[s] == -1 && raw[s] == lowest)
    && (forall s: Sector | own[s] == -1 :: elev[s] == if raw[s] < 0 then SeaLevel(raw[s], lowest) else 0)
  }

  /**
   The final elevations: from nothing, hills and depressions are raised in the order
   drawn; islands get their heights by rank, of which pm percent are for mountains;
   and the sea is scaled.
   */
  ghost predicate Sculpted(l: Land, live: nat, p: Params, pm: nat, relief: Relief, elev: seq<int>) {
    && l.Sized() && live <= |l.sect| && |elev| == WorldSz()
    && var raw := RawElevations(l.own, relief.hills);
    && (forall c :: 0 <= c < live ==>
          Elevated(raw, elev, l.sect[c], if c < p.nc then 2 else 0, pm, MaxMountains(p, pm)))
    && exists lowest :: SeaLowered(l.own, raw, elev, lowest)
  }

  lemma SculptedFrom(l: Land, live: nat, p: Params, pm: nat, relief: Relief, raw: seq<int>, before: seq<int>,
                     elev: seq<int>, lowest: int)
    requires LandOk(l, live) && |raw| == |before| == |elev| == WorldSz() && RawOk(l.own, raw)
    requires raw == RawElevations(l.own, relief.hills)
    requires LandElevated(l, live, p.nc, raw, before, pm, MaxMountains(p, pm), live)
    requires forall s: Sector | l.own[s] != -1 :: before[s] >= LANDMIN
    requires IsLowest(before, lowest)
    requires forall s: Sector :: elev[s] == if before[s] < 0 then SeaLevel(before[s], lowest) else before[s]
    ensures Sculpted(l, live, p, pm, relief, elev)
  {
    SizedLand(l, live);
    hide WorldSz, LandOk, Elevated, SeaLevel, RawElevations, MaxMountains;
    var maxNm := MaxMountains(p, pm);
    forall c | 0 <= c < live
      ensures Elevated(raw, elev, l.sect[c], if c < p.nc then 2 else 0, pm, maxNm)
    {
      SectorsOf(l, live, c);
      ElevatedSame(raw, raw, before, elev, l.sect[c], if c < p.nc then 2 else 0, pm, maxNm);
    }
    forall s: Sector | l.own[s] == -1
      ensures before[s] == raw[s] <= 0
    {
    }
    assert SeaLowered(l.own, raw, elev, lowest);
  }

  /** create_elevations; relief is what it draws. */
  method CreateElevations(w: World, b: BfsQueue, elev: array<int>, pm: nat) returns (ghost relief: Relief)
    requires w.Valid() && b.Valid() && LandOk(w.Value(), w.live) && w.live == w.p.nc + w.p.ni && Apart(b, w)
    requires SizesFit(w)
    requires elev.Length == WorldSz() && forall s: Sector :: elev[s] == 0
    requires elev as object !in {w.own as object, w.adjLand, w.xzone, w.seen, b.distance, b.closest, b.queue}
    modifies b, b.closest, b.distance, b.queue, elev
    ensures ElevationsOk(w.Value(), w.live, w.p.nc, elev[..])
    ensures DrawnFor(w.own[..], w.live, relief) && SeaFollows(w.own[..], elev[..], relief.hills)
    ensures IslandsAlike(w.Value(), w.live, w.p.nc, elev[..])
    ensures Sculpted(w.Value(), w.live, w.p, pm, relief, elev[..])
  {
    hide WorldSz, LandOk, LandElevated, DrawnFor, Shows, AfterHills, SeaFollows, IslandsAlike, Sculpted, IsLowest,
         RawOk, RawElevations, MaxMountains;
    RawIs(w.own[..], elev[..]);
    ghost var maxNm := MaxMountains(w.p, pm);
    SizedLand(w.Value(), w.live);
    relief := ElevatePrep(w, b, elev);
    ghost var raw := elev[..];
    ElevateLand(w, elev, pm);
    LandInRange(w.Value(), w.live, w.p.nc, raw, elev[..], pm, maxNm);
    SeaUntouched(w.Value(), w.live, w.p.nc, raw, elev[..], pm, maxNm, relief.hills);
    ElevatedAlike(w.Value(), w.live, w.p.nc, raw, elev[..], pm, maxNm);
    ghost var before := elev[..];
    ghost var lowest := ElevateSea(elev);
    SculptedFrom(w.Value(), w.live, w.p, pm, relief, raw, before, elev[..], lowest);
    SeaDoesNotMatter(w.Value(), w.live, w.p.nc, before, elev[..]);
    SeaScaled(w.own[..], before, elev[..], relief.hills);
  }

  lemma SeaUntouched(l: Land, live: nat, nc: nat, raw: seq<int>, elev: seq<int>, pm: nat, maxNm: nat, hills: seq<Hill>)
    requires l.Sized() && live <= |l.sect| && |raw| == |elev| == WorldSz()
    requires LandElevated(l, live, nc, raw, elev, pm, maxNm, live) && RawOk(l.own, raw) && Shows(raw, hills)
    ensures SeaFollows(l.own, elev, hills)
  {
    hide WorldSz, Covered, Elevated;
    forall s: Sector | l.own[s] == -1
      ensures elev[s] == raw[s] <= 0
    {
    }
  }

  lemma SeaScaled(own: seq<int>, before: seq<int>, elev: seq<int>, hills: seq<Hill>)
    requires SeaFollows(own, before, hills) && |elev| == WorldSz()
    requires forall s: Sector :: if before[s] < 0 then elev[s] <= -1 else elev[s] == before[s]
    ensures SeaFollows(own, elev, hills)
  {
    hide WorldSz, Covered;
  }

  // Sector types

  datatype SectorType = Water | Rural | Mountain

  /** elev_to_sct_type */
  function SctType(elevation: int): SectorType {
    if elevation < LANDMIN then Water else if elevation < HIGHMIN then Rural else Mountain
  }

  /** The fields write_sects sets. */
  datatype Sct = Sct(elev: int, sctType: SectorType, newType: SectorType, dterr: int, coastal: bool,
                     resources: Deposits)

  /** Whether the fields of a sector go with its elevation. */
  ghost predicate FollowsElevation(sct: Sct, elev: int) {
    && sct.elev == elev && sct.newType == sct.sctType
    && sct.sctType == (if elev < 1 then Water else if elev < 98 then Rural else Mountain)
    && DepositsFor(elev, sct.resources)
  }

  /** Exactly the sectors ranked as mountains come out as mountains. */
  lemma MountainsByRank(raw: seq<int>, elev: seq<int>, sect: seq<Sector>, i0: nat, pm: nat, maxNm: nat, i: nat)
    requires |raw| == |elev| == WorldSz() && Elevated(raw, elev, sect, i0, pm, maxNm) && i < |sect| - i0
    ensures var off := Sort(raw, sect[i0..]);
            && |off| == |sect| - i0
            && (SctType(elev[off[i]]) == Mountain <==> i >= |off| - pm * |sect| / 100)
            && (SctType(elev[off[i]]) == Rural <==> i < |off| - pm * |sect| / 100)
  {
    hide WorldSz, Height, Sort;
    HeightRange(|sect| - i0, pm * |sect| / 100, maxNm, i);
  }

  /** elev_to_sct_type: sea, plains and mountains; capitals, at PLATMIN, are never mountains. */
  lemma TypesByElevation(elev: int)
    ensures SctType(elev) == Water <==> elev <= 0
    ensures SctType(elev) == Rural <==> 1 <= elev <= 97
    ensures SctType(elev) == Mountain <==> 98 <= elev
  {
  }

  lemma InSignedChar(l: Land, live: nat, nc: nat, elev: seq<int>, s: Sector)
    requires l.Sized() && live <= |l.sect| && |elev| == WorldSz() && ElevationsOk(l, live, nc, elev)
    ensures -127 <= elev[s] <= 127
  {
  }

  /** What write_sects does to one sector; dterr is an unsigned char. */
  method WriteSect(w: World, elev: array<int>, s: Sector) returns (sct: Sct)
    requires w.Valid() && AdjacencyOk(w.own[..], w.adjLand[..]) && elev.Length == WorldSz()
    requires -127 <= elev[s] <= 127
    ensures FollowsElevation(sct, elev[s]) && sct.dterr == (w.own[s] + 1) % 256
    ensures sct.coastal <==> exists d: Dir :: w.own[Neighbor(s, d)] == -1
  {
    hide WorldSz, Neighbor, DepositsFor, AdjacencyOk;
    var coastal := IsCoastal(w, s);
    var resources := AddResources(elev[s]);
    sct := Sct(elev[s], SctType(elev[s]), SctType(elev[s]), (w.own[s] + 1) % 256, coastal, resources);
  }

  /** Sea is water, land is not, and capitals are rural. */
  ghost predicate TypesOk(l: Land, live: nat, nc: nat, sects: seq<Sct>)
    requires l.Sized() && live <= |l.sect| && |sects| == WorldSz()
  {
    && (forall s: Sector :: sects[s].sctType == Water <==> l.own[s] == -1)
    && (forall c, i :: 0 <= c < nc && c < live && 0 <= i < 2 && i < |l.sect[c]| ==>
          sects[l.sect[c][i]].sctType == Rural)
  }

  lemma TypesFollow(l: Land, live: nat, nc: nat, elev: seq<int>, sects: seq<Sct>)
    requires l.Sized() && live <= |l.sect| && |elev| == |sects| == WorldSz() && ElevationsOk(l, live, nc, elev)
    requires forall s: Sector :: FollowsElevation(sects[s], elev[s])
    ensures TypesOk(l, live, nc, sects)
  {
    hide WorldSz, DepositsFor;
  }

  /** write_sects */
  method WriteSects(w: World, elev: array<int>) returns (sects: seq<Sct>)
    requires w.Valid() && LandOk(w.Value(), w.live) && elev.Length == WorldSz()
    requires ElevationsOk(w.Value(), w.live, w.p.nc, elev[..])
    ensures |sects| == WorldSz()
    // Exactly the sectors nobody owns are water
    ensures TypesOk(w.Value(), w.live, w.p.nc, sects)
    ensures forall s: Sector :: sects[s].coastal <==> exists d: Dir :: w.own[Neighbor(s, d)] == -1
    ensures forall s: Sector :: sects[s].dterr == (w.own[s] + 1) % 256
    ensures forall s: Sector :: FollowsElevation(sects[s], elev[s])
  {
    hide WorldSz, Neighbor, FollowsElevation, AdjacencyOk, ElevationsOk, TypesOk;
    sects := [];
    var i := 0;
    while i < WorldSz()
      invariant 0 <= i <= WorldSz() && |sects| == i
      invariant forall s: Sector | s < i :: sects[s].dterr == (w.own[s] + 1) % 256
      invariant forall s: Sector | s < i :: FollowsElevation(sects[s], elev[s])
      invariant forall s: Sector | s < i :: sects[s].coastal <==> exists d: Dir :: w.own[Neighbor(s, d)] == -1
    {
      InSignedChar(w.Value(), w.live, w.p.nc, elev[..], i);
      var sct := WriteSect(w, elev, i);
      sects := sects + [sct];
      i := i + 1;
    }
    TypesFollow(w.Value(), w.live, w.p.nc, elev[..], sects);
  }
}
