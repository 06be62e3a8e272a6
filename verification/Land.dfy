/**
 Land ownership (own), island sectors (sect, isecs) and the cache of adjacent
 land (adj_land), with the two ways they change: a sector is added to an island,
 or the last one added is taken back.
 */
module Land {
  import opened HexTorus
  import opened Finite

  // Direction sets, one bit per direction

  function Mask(d: Dir): bv8 {
    match d
    case 1 => 2
    case 2 => 4
    case 3 => 8
    case 4 => 16
    case 5 => 32
    case _ => 64
  }

  /** All of DIR_FIRST..DIR_LAST: (1u << (DIR_LAST + 1)) - (1u << DIR_FIRST). */
  const ALL_DIRS: bv8 := 126

  predicate Bit(b: bv8, d: Dir) {
    b & Mask(d) != 0
  }

  /** No bits other than those for directions are set. */
  predicate OnlyDirs(b: bv8) {
    b & 129 == 0
  }

  lemma SetBit(b: bv8, d: Dir, e: Dir)
    ensures Bit(b | Mask(d), e) <==> e == d || Bit(b, e)
    ensures OnlyDirs(b) ==> OnlyDirs(b | Mask(d))
  {
  }

  lemma ClearBit(b: bv8, d: Dir, e: Dir)
    ensures Bit(b & !Mask(d), e) <==> e != d && Bit(b, e)
    ensures OnlyDirs(b) ==> OnlyDirs(b & !Mask(d))
  {
  }

  /** Set or clear one direction. */
  function WithBit(b: bv8, d: Dir, land: bool): bv8 {
    if land then b | Mask(d) else b & !Mask(d)
  }

  lemma PutBit(b: bv8, d: Dir, e: Dir, land: bool)
    ensures Bit(WithBit(b, d, land), e) == if e == d then land else Bit(b, e)
    ensures OnlyDirs(b) ==> OnlyDirs(WithBit(b, d, land))
  {
    hide Bit, Mask, OnlyDirs;
    SetBit(b, d, e);
    ClearBit(b, d, e);
  }

  /** The set is full exactly when it has all six directions. */
  lemma FullSet(b: bv8)
    requires OnlyDirs(b)
    ensures b != ALL_DIRS <==> exists d: Dir :: !Bit(b, d)
  {
    if b != ALL_DIRS {
      assert !Bit(b, 1) || !Bit(b, 2) || !Bit(b, 3) || !Bit(b, 4) || !Bit(b, 5) || !Bit(b, 6);
    }
  }

  /** The number of directions in the set. */
  function Count(b: bv8): (n: nat)
    ensures n <= 6
  {
    (if b & 2 != 0 then 1 else 0) + (if b & 4 != 0 then 1 else 0) + (if b & 8 != 0 then 1 else 0)
    + (if b & 16 != 0 then 1 else 0) + (if b & 32 != 0 then 1 else 0) + (if b & 64 != 0 then 1 else 0)
  }

  lemma ClearLowest(b: bv8)
    requires OnlyDirs(b) && b != 0
    ensures OnlyDirs(b & (b - 1)) && Count(b & (b - 1)) == Count(b) - 1
  {
  }

  lemma SomethingCounted(b: bv8)
    ensures (exists d: Dir :: Bit(b, d)) ==> Count(b) > 0
    ensures Count(0) == 0
  {
  }

  /** Directions up to k in the set. */
  ghost function BitsUpTo(b: bv8, k: nat): set<Dir> {
    set d: Dir | 1 <= d <= 6 && d <= k && Bit(b, d)
  }

  lemma OneMoreBit(b: bv8, k: Dir)
    ensures |BitsUpTo(b, k)| == |BitsUpTo(b, k - 1)| + if Bit(b, k) then 1 else 0
  {
    hide Bit;
    assert BitsUpTo(b, k) == BitsUpTo(b, k - 1) + if Bit(b, k) then {k} else {};
  }

  lemma CountIs(b: bv8)
    ensures Count(b) == (if Bit(b, 1) then 1 else 0) + (if Bit(b, 2) then 1 else 0) + (if Bit(b, 3) then 1 else 0)
                        + (if Bit(b, 4) then 1 else 0) + (if Bit(b, 5) then 1 else 0) + (if Bit(b, 6) then 1 else 0)
  {
  }

  lemma NoBits(b: bv8)
    ensures BitsUpTo(b, 0) == {}
  {
  }

  /** The number of directions is just that. */
  lemma CountIsCardinality(b: bv8)
    ensures Count(b) == |BitsUpTo(b, 6)|
  {
    hide Bit, Count, BitsUpTo;
    NoBits(b);
    CountIs(b);
    OneMoreBit(b, 1);
    OneMoreBit(b, 2);
    OneMoreBit(b, 3);
    OneMoreBit(b, 4);
    OneMoreBit(b, 5);
    OneMoreBit(b, 6);
  }

  /** The directions in which the neighbours of s are land. */
  ghost function LandAround(own: seq<int>, s: Sector): set<Dir>
    requires |own| == WorldSz()
  {
    set d: Dir | 1 <= d <= 6 && own[Neighbor(s, d)] != -1
  }

  lemma LandCounted(own: seq<int>, adj: seq<bv8>, s: Sector)
    requires |own| == |adj| == WorldSz() && AdjacencyOk(own, adj)
    ensures Count(adj[s]) == |LandAround(own, s)|
  {
    hide Bit, Count, Neighbor;
    CountIsCardinality(adj[s]);
    assert BitsUpTo(adj[s], 6) == LandAround(own, s);
  }

  // Land as a value

  /** sect[c] holds island c's sectors in the order they were added; isecs[c] is its length. */
  datatype Land = Land(own: seq<int>, adj: seq<bv8>, sect: seq<seq<Sector>>) {
    ghost predicate Sized() {
      |own| == |adj| == WorldSz()
    }
  }

  /** The first live islands own exactly the sectors they list. */
  ghost predicate OwnersOk(l: Land, live: nat)
    requires l.Sized() && live <= |l.sect|
  {
    && (forall s: Sector :: -1 <= l.own[s] < live)
    && (forall c :: 0 <= c < live ==> NoDups(l.sect[c]))
    && (forall c, s: Sector :: 0 <= c < live ==> (s in l.sect[c] <==> l.own[s] == c))
  }

  /** adj_land has bit d set exactly when the neighbour in direction d is land. */
  ghost predicate AdjacencyOk(own: seq<int>, adj: seq<bv8>)
    requires |own| == |adj| == WorldSz()
  {
    forall s: Sector :: OnlyDirs(adj[s]) && forall d: Dir :: Bit(adj[s], d) <==> own[Neighbor(s, d)] != -1
  }

  ghost predicate Adjacent(s: Sector, t: Sector) {
    exists d: Dir :: Neighbor(s, d) == t
  }

  /** Every sector but the first is next to one that was there before. */
  ghost predicate GrownFromFirst(sect: seq<Sector>) {
    forall i :: 0 < i < |sect| ==> NextToEarlier(sect, i)
  }

  ghost predicate NextToEarlier(sect: seq<Sector>, i: nat)
    requires i < |sect|
  {
    exists j :: 0 <= j < i && Adjacent(sect[j], sect[i])
  }

  ghost predicate LandOk(l: Land, live: nat) {
    && l.Sized() && live <= |l.sect|
    && OwnersOk(l, live)
    && AdjacencyOk(l.own, l.adj)
    && forall c :: 0 <= c < live ==> GrownFromFirst(l.sect[c])
  }

  /** adj' is what adj_land_update makes of adj after s has become land or water. */
  ghost predicate AdjacencyUpdate(adj: seq<bv8>, adj': seq<bv8>, s: Sector, land: bool)
  {
    && |adj| == |adj'| == WorldSz()
    && forall t: Sector :: (OnlyDirs(adj[t]) ==> OnlyDirs(adj'[t]))
         && forall d: Dir :: Bit(adj'[t], d) == if Neighbor(t, d) == s then land else Bit(adj[t], d)
  }

  /** What add_sector does to own, adj_land and sect. */
  ghost predicate SectorAdded(l: Land, l': Land, c: nat, s: Sector) {
    && l.Sized() && c < |l.sect|
    && l'.own == l.own[s := c]
    && AdjacencyUpdate(l.adj, l'.adj, s, true)
    && l'.sect == l.sect[c := l.sect[c] + [s]]
  }

  /** What the roll-back of an unfinished round does to an island that grew in it. */
  ghost predicate SectorDropped(l: Land, l': Land, c: nat) {
    && l.Sized() && c < |l.sect| && l.sect[c] != []
    && var last := |l.sect[c]| - 1;
    && l'.own == l.own[l.sect[c][last] := -1]
    && AdjacencyUpdate(l.adj, l'.adj, l.sect[c][last], false)
    && l'.sect == l.sect[c := l.sect[c][..last]]
  }

  lemma AddingKeepsOwners(l: Land, l': Land, c: nat, s: Sector, live: nat)
    requires l.Sized() && live <= |l.sect| && OwnersOk(l, live) && c < live && SectorAdded(l, l', c, s)
             && l.own[s] == -1
    ensures OwnersOk(l', live)
  {
    hide AdjacencyUpdate;
    assert s !in l.sect[c];
    forall e, t: Sector | 0 <= e < live
      ensures t in l'.sect[e] <==> l'.own[t] == e
    {
      if e == c {
        assert l'.sect[e] == l.sect[c] + [s];
      }
    }
  }

  lemma AddingKeepsAdjacency(own: seq<int>, adj: seq<bv8>, adj': seq<bv8>, s: Sector, c: int)
    requires |own| == |adj| == WorldSz() && AdjacencyOk(own, adj)
    requires AdjacencyUpdate(adj, adj', s, c != -1)
    ensures AdjacencyOk(own[s := c], adj')
  {
    hide Neighbor, Bit, OnlyDirs;
  }

  lemma GrowingOn(sect: seq<Sector>, s: Sector)
    requires GrownFromFirst(sect)
    requires sect == [] || exists t :: t in sect && Adjacent(t, s)
    ensures GrownFromFirst(sect + [s])
  {
    hide Neighbor;
    var sect' := sect + [s];
    forall i | 0 < i < |sect'|
      ensures NextToEarlier(sect', i)
    {
      if i == |sect| {
        var t :| t in sect && Adjacent(t, s);
        var j :| 0 <= j < |sect| && sect[j] == t;
        assert Adjacent(sect'[j], sect'[i]);
      } else {
        assert NextToEarlier(sect, i);
        var j :| 0 <= j < i && Adjacent(sect[j], sect[i]);
        assert Adjacent(sect'[j], sect'[i]);
      }
    }
  }

  lemma GrowingBack(sect: seq<Sector>, n: nat)
    requires GrownFromFirst(sect) && n <= |sect|
    ensures GrownFromFirst(sect[..n])
  {
    hide Neighbor;
    var sect' := sect[..n];
    forall i | 0 < i < n
      ensures NextToEarlier(sect', i)
    {
      assert NextToEarlier(sect, i);
      var j :| 0 <= j < i && Adjacent(sect[j], sect[i]);
      assert Adjacent(sect'[j], sect'[i]);
    }
  }

  lemma AddingKeepsLand(l: Land, l': Land, c: nat, s: Sector, live: nat)
    requires LandOk(l, live) && c < live && SectorAdded(l, l', c, s)
    requires l.own[s] == -1
    requires l.sect[c] == [] || exists t :: t in l.sect[c] && Adjacent(t, s)
    ensures LandOk(l', live)
  {
    hide AdjacencyOk, OwnersOk, Neighbor, Bit, OnlyDirs;
    AddingKeepsOwners(l, l', c, s, live);
    AddingKeepsAdjacency(l.own, l.adj, l'.adj, s, c);
    GrowingOn(l.sect[c], s);
  }

  lemma DroppingKeepsOwners(l: Land, l': Land, c: nat, live: nat)
    requires l.Sized() && live <= |l.sect| && OwnersOk(l, live) && c < live && SectorDropped(l, l', c)
    ensures OwnersOk(l', live)
  {
    hide AdjacencyUpdate;
    var last := |l.sect[c]| - 1;
    forall e, t: Sector | 0 <= e < live
      ensures t in l'.sect[e] <==> l'.own[t] == e
    {
      if e == c {
        assert l.sect[c] == l'.sect[c] + [l.sect[c][last]];
        assert forall i :: 0 <= i < last ==> l.sect[c][i] != l.sect[c][last];
      }
    }
  }

  lemma DroppingKeepsLand(l: Land, l': Land, c: nat, live: nat)
    requires LandOk(l, live) && c < live && SectorDropped(l, l', c)
    ensures LandOk(l', live)
  {
    hide AdjacencyOk, OwnersOk, Neighbor, Bit, OnlyDirs;
    DroppingKeepsOwners(l, l', c, live);
    AddingKeepsAdjacency(l.own, l.adj, l'.adj, l.sect[c][|l.sect[c]| - 1], -1);
    GrowingBack(l.sect[c], |l.sect[c]| - 1);
  }

  /** Setting isecs[live] to zero brings the next island to life. */
  lemma StartingKeepsLand(l: Land, live: nat)
    requires LandOk(l, live) && live < |l.sect|
    ensures LandOk(l.(sect := l.sect[live := []]), live + 1)
  {
  }

  // Islands are connected

  /** path leads from one sector to another, always staying within set. */
  ghost predicate Path(path: seq<Sector>, within: seq<Sector>) {
    && path != []
    && (forall i :: 0 <= i < |path| ==> path[i] in within)
    && (forall i :: 0 < i < |path| ==> Adjacent(path[i - 1], path[i]))
  }

  /** There is a path inside the island from its first sector to any other. */
  lemma {:induction false} PathFromFirst(sect: seq<Sector>, i: nat) returns (path: seq<Sector>)
    requires GrownFromFirst(sect) && i < |sect|
    ensures Path(path, sect) && path[0] == sect[0] && path[|path| - 1] == sect[i]
  {
    if i == 0 {
      path := [sect[0]];
    } else {
      assert NextToEarlier(sect, i);
      var j :| 0 <= j < i && Adjacent(sect[j], sect[i]);
      path := PathFromFirst(sect, j);
      path := path + [sect[i]];
    }
  }

  lemma AdjacentSymmetric(s: Sector, t: Sector)
    requires Adjacent(s, t)
    ensures Adjacent(t, s)
  {
    hide Neighbor;
    var d: Dir :| Neighbor(s, d) == t;
    BackAndForth(s, d);
  }

  lemma {:induction false} ReversePath(path: seq<Sector>, within: seq<Sector>) returns (back: seq<Sector>)
    requires Path(path, within)
    ensures Path(back, within) && back[0] == path[|path| - 1] && back[|back| - 1] == path[0]
  {
    hide Adjacent;
    if |path| == 1 {
      back := path;
    } else {
      back := ReversePath(path[1..], within);
      AdjacentSymmetric(path[0], path[1]);
      back := back + [path[0]];
    }
  }

  /** Any two sectors of an island are joined by a path inside the island. */
  lemma {:induction false} IslandConnected(l: Land, live: nat, s: Sector, t: Sector) returns (path: seq<Sector>)
    requires LandOk(l, live) && l.own[s] == l.own[t] != -1
    ensures Path(path, l.sect[l.own[s]]) && path[0] == s && path[|path| - 1] == t
    ensures forall i :: 0 <= i < |path| ==> l.own[path[i]] == l.own[s]
  {
    hide Adjacent, AdjacencyOk;
    var sect := l.sect[l.own[s]];
    var i :| 0 <= i < |sect| && sect[i] == s;
    var j :| 0 <= j < |sect| && sect[j] == t;
    var p := PathFromFirst(sect, i);
    var q := PathFromFirst(sect, j);
    p := ReversePath(p, sect);
    path := p + q[1..];
  }
}
