/**
 The world under construction: the global arrays of the world generator that
 describe land and exclusive zones, and the operations that update them in place.
 */
module World {
  import opened HexTorus
  import opened Hexagon
  import opened Land
  import opened Zones
  import opened Bfs

  /** Program arguments: numbers and sizes of continents and islands, minimum distances. */
  datatype Params = Params(nc: nat, sc: nat, ni: nat, isize: nat, sp: nat, di: nat, id: nat, distinct: bool) {
    /**
     What parse_args checks, and what it does not: that a byte can hold the number
     of continents, that one wrap is enough to draw a zone around a sector, and
     that continents are no closer than islands.
     */
    ghost predicate Valid() {
      && 1 <= nc < 255 && sc >= 2 && ni % nc == 0 && isize >= 1 && sp <= 100
      && 2 * di <= WORLD_X && 2 * id <= WORLD_X && id <= di
    }

    /** How far the zone of island c's sectors extends. */
    function Width(c: nat): nat {
      if c < nc then di else if distinct then id else 0
    }
  }

  class World {
    const p: Params
    const own: array<int>
    const adjLand: array<bv8>
    const xzone: array<int>
    const seen: array<nat>
    var curSeen: nat
    var sect: seq<seq<Sector>>
    /** The islands in use are those below live. */
    ghost var live: nat
    /** The calls of xzone_around_sector since the last xzone_init. */
    ghost var marks: seq<Mark>

    ghost predicate Valid()
      reads this
    {
      && own.Length == adjLand.Length == xzone.Length == seen.Length == WorldSz()
      && own as object != adjLand && own != xzone && own as object != seen
      && adjLand as object != xzone && adjLand as object != seen && xzone as object != seen
      && p.Valid() && |sect| == p.nc + p.ni && live <= |sect|
    }

    ghost function Value(): Land
      reads this, own, adjLand
    {
      Land(own[..], adjLand[..], sect)
    }

    /** Land, zones and distances are as they should be; zones are width wide. */
    ghost predicate Ok(width: nat)
      reads this, own, adjLand, xzone
      requires Valid()
    {
      && LandOk(Value(), live)
      && ZonesOk(xzone[..], marks)
      && Marked(sect, live, marks, width)
      && Separated(sect, live, p.nc, p.di, p.id)
      && MarksBelow(marks, live)
    }

    constructor (p: Params)
      requires p.Valid()
      ensures Valid() && this.p == p && live == 0 && curSeen == 0
      ensures fresh(own) && fresh(adjLand) && fresh(xzone) && fresh(seen)
      ensures forall s: Sector :: seen[s] == 0
    {
      this.p := p;
      own := new int[WorldSz()];
      adjLand := new bv8[WorldSz()];
      xzone := new int[WorldSz()];
      seen := new nat[WorldSz()](i => 0);
      curSeen := 0;
      sect := seq(p.nc + p.ni, i => []);
      live := 0;
      marks := [];
    }

    /** init */
    method Init()
      requires Valid()
      modifies this`live, own, adjLand
      ensures Valid() && live == 0
      ensures LandOk(Value(), 0)
    {
      hide Neighbor;
      var i := 0;
      while i < WorldSz()
        invariant 0 <= i <= WorldSz()
        invariant forall k :: 0 <= k < i ==> own[k] == -1 && adjLand[k] == 0
      {
        own[i], adjLand[i] := -1, 0;
        i := i + 1;
      }
      live := 0;
      assert AdjacencyOk(own[..], adjLand[..]);
    }

    /** xzone_ok */
    predicate XzoneOk(c: nat, s: Sector)
      reads this, xzone
      requires Valid()
    {
      xzone[s] == c || xzone[s] == -1
    }

    /** Lines 816-823: claim the sectors of a ring. */
    method XzoneRing(c: nat, s: Sector, d: nat, ghost z: seq<int>)
      requires Valid() && 0 < 2 * d <= WORLD_X && Claimed(z, xzone[..], c, Ball(s, d - 1))
      modifies xzone
      ensures Claimed(z, xzone[..], c, Ball(s, d))
    {
      hide RingAt, Dist, WorldSz, RingBefore, RingUpTo, Ball, Blend;
      var it := new HexagonIter();
      var s1 := it.First(s, d);
      var more := true;
      while more
        invariant it.Valid() && it.center == s && it.n == d && fresh(it)
        invariant more <==> it.dir <= 6
        invariant more ==> it.On(s1)
        invariant !more ==> it.Visited() == RingBefore(s, d, 7, 0)
        invariant Claimed(z, xzone[..], c, Ball(s, d - 1) + it.Visited())
        decreases 7 - it.dir, d - it.i
      {
        ghost var before, visited := xzone[..], Ball(s, d - 1) + it.Visited();
        var blended := xzone[s1];
        if blended == -1 {
          blended := c;
        } else if blended != c {
          blended := -2;
        }
        xzone[s1] := blended;
        ClaimOne(z, before, c, visited, s1, blended);
        s1, more := it.Next(s1);
      }
      BallGrows(s, d);
    }

    /** xzone_around_sector */
    method XzoneAroundSector(c: nat, s: Sector, dist: nat)
      requires Valid() && 2 * dist <= WORLD_X
      requires XzoneOk(c, s)
      modifies this`marks, xzone
      ensures Valid()
      ensures ZoneAdded(old(xzone[..]), xzone[..], c, s, dist)
      ensures marks == old(marks) + [Mark(c, s, dist)]
    {
      hide WorldSz, Ball;
      ghost var z := xzone[..];
      BallOfRadiusZero(s);
      xzone[s] := c;
      var d := 1;
      while d <= dist
        invariant 1 <= d <= dist + 1
        invariant Claimed(z, xzone[..], c, Ball(s, d - 1))
        invariant marks == old(marks)
      {
        XzoneRing(c, s, d, z);
        d := d + 1;
      }
      marks := marks + [Mark(c, s, dist)];
    }

    /** xzone_around_island */
    method XzoneAroundIsland(c: nat, dist: nat)
      requires Valid() && 2 * dist <= WORLD_X && c < |sect|
      requires ZonesOk(xzone[..], marks)
      requires forall s: Sector | s in sect[c] :: Claimants(marks, s) <= {c}
      modifies this`marks, xzone
      ensures Valid() && ZonesOk(xzone[..], marks)
      ensures marks == old(marks) + IslandMarks(c, sect[c], dist)
    {
      hide Dist, ZonesOk;
      var i := 0;
      while i < |sect[c]|
        invariant 0 <= i <= |sect[c]|
        invariant ZonesOk(xzone[..], marks)
        invariant marks == old(marks) + IslandMarks(c, sect[c], dist)[..i]
      {
        ghost var z, m := xzone[..], marks;
        var s := sect[c][i];
        NoOthersYet(z, old(marks), IslandMarks(c, sect[c], dist)[..i], c, s);
        XzoneAroundSector(c, s, dist);
        AddingKeepsZones(z, xzone[..], m, c, s, dist);
        i := i + 1;
      }
    }

    /** xzone_init */
    method XzoneInit(n: nat)
      requires Valid() && n <= |sect|
      requires FarApart(sect, n, p.id)
      modifies this`marks, xzone
      ensures Valid() && ZonesOk(xzone[..], marks)
      ensures marks == RebuildMarks(sect, n, p.id)
    {
      hide Dist, ZonesOk;
      var i := 0;
      while i < WorldSz()
        invariant 0 <= i <= WorldSz()
        invariant forall k :: 0 <= k < i ==> xzone[k] == -1
      {
        xzone[i] := -1;
        i := i + 1;
      }
      marks := [];
      NoClaims(xzone[..]);
      var c := 0;
      while c < n
        invariant 0 <= c <= n
        invariant ZonesOk(xzone[..], marks)
        invariant marks == RebuildMarks(sect, c, p.id)
      {
        OnlyOwnClaims(sect, n, c, p.id);
        XzoneAroundIsland(c, p.id);
        c := c + 1;
      }
    }

    /** adj_land_update */
    method AdjLandUpdate(s: Sector)
      requires Valid()
      modifies adjLand
      ensures AdjacencyUpdate(old(adjLand[..]), adjLand[..], s, own[s] != -1)
    {
      hide Neighbor, WorldSz, OnlyDirs, PartlyUpdated, AdjacencyUpdate, WithBit;
      var isLand := own[s] != -1;
      ghost var adj := adjLand[..];
      NoneUpdated(adj, s, isLand);
      var d := 1;
      while d <= 6
        invariant 1 <= d <= 7
        invariant PartlyUpdated(adj, adjLand[..], s, isLand, d)
      {
        BackAndForth(s, d);
        var n := Neighbor(s, d);
        ghost var before := adjLand[..];
        adjLand[n] := WithBit(adjLand[n], DirBack(d), isLand);
        OneMoreUpdated(adj, before, adjLand[..], s, isLand, d);
        d := d + 1;
      }
      AllUpdated(adj, adjLand[..], s, isLand);
    }

    /** What allocate_memory reserves for island c. */
    ghost function Capacity(c: nat): nat
      reads this
    {
      if c < p.nc then p.sc else 2 * p.isize
    }

    /** is_in_sphere */
    predicate IsInSphere(c: nat, s: Sector, closest: array<NatId>)
      reads this, closest
      requires p.nc > 0 && closest.Length == WorldSz()
    {
      c < p.nc || closest[s] == c % p.nc
    }

    /** can_grow_at */
    predicate CanGrowAt(c: nat, s: Sector, closest: array<NatId>)
      reads this, own, xzone, closest
      requires Valid() && closest.Length == WorldSz()
    {
      own[s] == -1 && XzoneOk(c, s) && IsInSphere(c, s, closest)
    }

    /** can_grow_at says what it is meant to say. */
    lemma CanGrowAtIsOpenTo(c: nat, s: Sector, closest: array<NatId>)
      requires Valid() && closest.Length == WorldSz() && ZonesOk(xzone[..], marks)
      ensures CanGrowAt(c, s, closest) <==> OpenTo(own[..], marks, closest[..], p.nc, c, s)
    {
      hide Dist, ZonesOk;
      ZoneAllows(xzone[..], marks, c, s);
    }

    /** Island c has room in its buffer, and s is a place it may grow to. */
    ghost predicate MayAdd(c: nat, s: Sector)
      reads this, own, xzone
      requires Valid()
    {
      && c < live && |sect[c]| < Capacity(c)
      && own[s] == -1 && XzoneOk(c, s)
      && (sect[c] == [] || exists t :: t in sect[c] && Adjacent(t, s))
    }

    /** add_sector */
    method AddSector(c: nat, s: Sector)
      requires Valid() && p.distinct && Ok(p.Width(c)) && MayAdd(c, s)
      modifies this`sect, this`marks, own, adjLand, xzone
      ensures Valid() && Ok(p.Width(c))
      ensures SectorAdded(old(Value()), Value(), c, s)
      ensures ZoneAdded(old(xzone[..]), xzone[..], c, s, p.Width(c))
      ensures marks == old(marks) + [Mark(c, s, p.Width(c))]
    {
      hide LandOk, ZonesOk, Separated, Marked, ZoneAdded, AdjacencyUpdate, Adjacent;
      ghost var l, z, m := Value(), xzone[..], marks;
      var width := p.Width(c);
      XzoneAroundSector(c, s, width);
      sect := sect[c := sect[c] + [s]];
      own[s] := c;
      AdjLandUpdate(s);
      AddingKeepsLand(l, Value(), c, s, live);
      AddingKeepsZones(z, xzone[..], m, c, s, width);
      AddingKeepsSeparation(l.sect, live, z, m, c, s, width, p.nc, p.di, p.id);
      AddingKeepsMarks(l.sect, live, m, c, s, width);
    }

    /** Lines 1263-1268: take back the last sector of island c. */
    method DropSector(c: nat, ghost width: nat)
      requires Valid() && Ok(width) && c < live && sect[c] != []
      modifies this`sect, own, adjLand
      ensures Valid() && Ok(width)
      ensures SectorDropped(old(Value()), Value(), c)
    {
      hide LandOk, ZonesOk, AdjacencyUpdate;
      ghost var l := Value();
      var last := |sect[c]| - 1;
      var s := sect[c][last];
      sect := sect[c := sect[c][..last]];
      own[s] := -1;
      AdjLandUpdate(s);
      DroppingKeepsLand(l, Value(), c, live);
    }

    /** Line 1134 or 1243: island c starts over, empty. */
    method StartIsland(c: nat, ghost width: nat)
      requires Valid() && Ok(width) && c == live < |sect|
      modifies this`sect, this`live
      ensures Valid() && Ok(width)
      ensures live == old(live) + 1 && sect == old(sect)[c := []]
    {
      hide LandOk, ZonesOk;
      StartingKeepsLand(Value(), live);
      sect := sect[c := []];
      live := live + 1;
    }
  }

  /** The sectors visited have been claimed by island c. */
  ghost predicate Claimed(z: seq<int>, z': seq<int>, c: nat, visited: set<Sector>)
  {
    && |z| == |z'| == WorldSz()
    && forall t: Sector :: z'[t] == if t in visited then Blend(z[t], c) else z[t]
  }

  lemma ClaimOne(z: seq<int>, z': seq<int>, c: nat, visited: set<Sector>, s: Sector, blended: int)
    requires Claimed(z, z', c, visited)
    requires blended == if z'[s] == -1 then c else if z'[s] != c then -2 else c
    ensures Claimed(z, z'[s := blended], c, visited + {s})
  {
    hide WorldSz;
  }

  lemma NoClaims(xzone: seq<int>)
    requires |xzone| == WorldSz() && forall s: Sector :: xzone[s] == -1
    ensures ZonesOk(xzone, [])
  {
    forall s: Sector ensures Claimants([], s) == {} {}
  }

  /** While an island's zone is drawn, only its own claims can hit its sectors. */
  lemma NoOthersYet(xzone: seq<int>, marks: seq<Mark>, own: seq<Mark>, c: nat, s: Sector)
    requires |xzone| == WorldSz() && ZonesOk(xzone, marks + own)
    requires Claimants(marks, s) <= {c} && forall m | m in own :: m.c == c
    ensures xzone[s] == c || xzone[s] == -1
  {
    hide Dist;
    CompressMeaning(Claimants(marks + own, s), c);
    assert Claimants(marks + own, s) <= {c};
  }

  lemma OnlyOwnClaims(sect: seq<seq<Sector>>, n: nat, c: nat, id: nat)
    requires c < n <= |sect| && FarApart(sect, n, id)
    ensures forall s: Sector | s in sect[c] :: Claimants(RebuildMarks(sect, c, id), s) <= {c}
  {
    hide Dist;
    RebuildMarksAre(sect, c, id);
    forall s: Sector, m | s in sect[c] && m in RebuildMarks(sect, c, id)
      ensures Dist(s, m.s) > id == m.width
    {
      DistSymmetric(s, m.s);
    }
  }

  /** The updates due to s's neighbours in directions before d are done. */
  ghost predicate PartlyUpdated(adj: seq<bv8>, adj': seq<bv8>, s: Sector, land: bool, d: int)
  {
    && |adj| == |adj'| == WorldSz()
    && forall t: Sector :: (OnlyDirs(adj[t]) ==> OnlyDirs(adj'[t]))
         && forall e: Dir :: Bit(adj'[t], e) == if DirBack(e) < d && Neighbor(t, e) == s then land else Bit(adj[t], e)
  }

  lemma NoneUpdated(adj: seq<bv8>, s: Sector, land: bool)
    requires |adj| == WorldSz()
    ensures PartlyUpdated(adj, adj, s, land, 1)
  {
    hide Neighbor, Bit, OnlyDirs;
  }

  /** Only s's neighbour in direction d has s in the direction back. */
  lemma BackIs(s: Sector, d: Dir, t: Sector, e: Dir)
    ensures e == DirBack(d) && Neighbor(t, e) == s <==> e == DirBack(d) && t == Neighbor(s, d)
  {
    hide Neighbor;
    BackAndForth(s, d);
    BackAndForth(t, e);
  }

  lemma OneMoreUpdated(adj: seq<bv8>, adj': seq<bv8>, adj'': seq<bv8>, s: Sector, land: bool, d: Dir)
    requires PartlyUpdated(adj, adj', s, land, d)
    requires var n := Neighbor(s, d); adj'' == adj'[n := WithBit(adj'[n], DirBack(d), land)]
    ensures PartlyUpdated(adj, adj'', s, land, d + 1)
  {
    hide Neighbor, Bit, OnlyDirs, WithBit, WorldSz;
    var n := Neighbor(s, d);
    forall t: Sector, e: Dir
      ensures OnlyDirs(adj'[t]) ==> OnlyDirs(adj''[t])
      ensures Bit(adj''[t], e) == if e == DirBack(d) && Neighbor(t, e) == s then land else Bit(adj'[t], e)
    {
      PutBit(adj'[n], DirBack(d), e, land);
      BackIs(s, d, t, e);
    }
    DirsBack(d);
  }

  lemma DirsBack(d: Dir)
    ensures forall e: Dir :: DirBack(e) < d + 1 <==> DirBack(e) < d || e == DirBack(d)
  {
  }

  lemma AllUpdated(adj: seq<bv8>, adj': seq<bv8>, s: Sector, land: bool)
    requires PartlyUpdated(adj, adj', s, land, 7)
    ensures AdjacencyUpdate(adj, adj', s, land)
  {
    hide Neighbor, Bit, OnlyDirs;
  }

  lemma AddingKeepsMarks(sect: seq<seq<Sector>>, n: nat, marks: seq<Mark>, c: nat, s: Sector, width: nat)
    requires c < n <= |sect| && Marked(sect, n, marks, width)
    ensures Marked(sect[c := sect[c] + [s]], n, marks + [Mark(c, s, width)], width)
  {
  }
}
