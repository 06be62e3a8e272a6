/**
 Placing and growing the additional islands (place_island, grow_islands).
 */
module Islands {
  import opened Arith
  import opened HexTorus
  import opened Finite
  import opened Land
  import opened Zones
  import opened Bfs
  import opened Distances
  import opened Chance
  import opened Sampling
  import opened Placing
  import opened Sizes
  import opened World
  import opened Growth
  import opened Continents
  import opened Spheres

  /**
   What init_spheres_of_influence has found out about the continents: sectors
   that are more than id away from their coasts have a distance greater than id.
   */
  ghost predicate FarHasDistance(sect: seq<seq<Sector>>, nc: nat, id: nat, distance: seq<int>)
    requires nc <= |sect| && |distance| == WorldSz()
  {
    forall s: Sector | FarFromContinents(sect, nc, id, s) :: distance[s] > id
  }

  ghost predicate SpheresOk(w: World, b: BfsQueue)
    reads w, b.distance
    requires w.Valid() && b.distance.Length == WorldSz() && w.p.nc <= w.live
  {
    FarHasDistance(w.sect, w.p.nc, w.p.id, b.distance[..])
  }

  lemma SpheresFromDistances(w: World, b: BfsQueue, distance0: seq<int>, closest0: seq<int>)
    requires w.Valid() && b.Valid() && LandOk(w.Value(), w.live) && w.p.nc <= w.live
    requires CoastDistances(w.own[..], w.p.nc, distance0, closest0)
    requires BorderDistances(distance0, closest0, w.p.id, b.distance[..], b.closest[..])
    ensures SpheresOk(w, b)
  {
    hide Neighbor, Dist, LandOk, CoastDistances, NearestBorder;
    forall s: Sector | FarFromContinents(w.sect, w.p.nc, w.p.id, s)
      ensures b.distance[s] > w.p.id
    {
      FarFromCoast(w.Value(), w.live, w.p.nc, w.p.id, distance0, closest0, s);
      assert NearestBorder(distance0, closest0, w.p.id, b.distance[..], s);
      BorderIsFarther(distance0, closest0, w.p.id, b.distance[..], s);
    }
  }

  ghost predicate FarFromContinents(sect: seq<seq<Sector>>, nc: nat, id: nat, s: Sector)
    requires nc <= |sect|
  {
    forall e, q: Sector | 0 <= e < nc && q in sect[e] :: Dist(s, q) > id
  }

  lemma FarFromCoast(l: Land, live: nat, nc: nat, id: nat, distance0: seq<int>, closest0: seq<int>, s: Sector)
    requires LandOk(l, live) && nc <= live && FarFromContinents(l.sect, nc, id, s) && id < USHRT_MAX
    requires CoastDistances(l.own, nc, distance0, closest0)
    ensures |distance0| == WorldSz() && distance0[s] > id
  {
    hide Neighbor, Dist, LandOk, NearestIs;
    if distance0[s] < USHRT_MAX {
      var q: Sector :| ShoreAt(l.own, nc, distance0, q, s);
      ShoreIsContinent(l, live, nc, q);
      DistSymmetric(s, q);
    }
  }

  lemma BorderIsFarther(distance0: seq<int>, closest0: seq<int>, id: nat, distance: seq<int>, s: Sector)
    requires |distance0| == |closest0| == |distance| == WorldSz()
    requires NearestBorder(distance0, closest0, id, distance, s)
    ensures distance[s] == distance0[s] || distance[s] > id
  {
    hide Dist, Border;
    if distance[s] < distance0[s] {
      var q: Sector :| BorderAt(distance0, closest0, id, distance, q, s);
    }
  }

  lemma ShoreIsContinent(l: Land, live: nat, nc: nat, q: Sector)
    requires LandOk(l, live) && nc <= live && Shore(l.own, nc, q)
    ensures 0 <= l.own[q] < nc && q in l.sect[l.own[q]]
  {
    hide Neighbor, AdjacencyOk;
  }

  /** A place for a new island is more than id away from all land. */
  lemma FarFromLand(w: World, b: BfsQueue, c: nat, s: Sector)
    requires w.Valid() && b.distance.Length == WorldSz() && w.p.nc <= c < w.live && SpheresOk(w, b)
    requires w.Ok(w.p.id) && MarksBelow(w.marks, c) && w.XzoneOk(c, s)
    ensures b.distance[s] > w.p.id
  {
    hide LandOk, ZonesOk, Dist;
    forall e, q: Sector | 0 <= e < w.p.nc && q in w.sect[e]
      ensures Dist(s, q) > w.p.id
    {
      OutOfReach(w.xzone[..], w.marks, Mark(e, q, w.p.id), c, s);
    }
  }

  /** Sector s is open to island c. */
  ghost predicate IsOpen(w: World, b: BfsQueue, c: nat, s: Sector)
    reads w, w.own, b, b.closest
    requires w.own.Length == b.closest.Length == WorldSz() && w.p.nc > 0
  {
    OpenTo(w.own[..], w.marks, b.closest[..], w.p.nc, c, s)
  }

  /** Places before n where island c can start. */
  ghost predicate RoomBefore(w: World, c: nat, closest: array<NatId>, n: int)
    reads w, w.own, w.xzone, closest
    requires w.Valid() && closest.Length == WorldSz()
  {
    exists s: Sector :: s < n && w.CanGrowAt(c, s, closest)
  }

  /** What place_island draws from: possible places, their weights, and the rolls. */
  datatype Places = Places(at: seq<Sector>, weights: seq<nat>, rolls: seq<int>)

  ghost predicate RollsFit(places: Places, limit: nat) {
    |places.at| == |places.weights| && RollsOk(Cut(places.weights, limit), places.rolls)
  }

  /** How far a place is from where no island may be, squared. */
  function PlaceWeight(distance: int, id: nat): nat
    requires distance > id
  {
    (distance - id) * (distance - id)
  }

  /** All places before n have been considered, in order. */
  ghost predicate PlacesOk(w: World, b: BfsQueue, c: nat, limit: nat, places: Places, n: int)
    reads w, w.own, w.xzone, b, b.closest, b.distance
    requires w.Valid() && b.closest.Length == b.distance.Length == WorldSz()
  {
    && RollsFit(places, limit)
    && (forall s: Sector :: s in places.at <==> s < n && w.CanGrowAt(c, s, b.closest))
    && (forall i :: 0 <= i < |places.at| ==> b.distance[places.at[i]] > w.p.id
                                             && places.weights[i] == PlaceWeight(b.distance[places.at[i]], w.p.id))
    && (forall i, j :: 0 <= i < j < |places.at| ==> places.at[i] < places.at[j])
  }

  /** The place drawn so far. */
  ghost predicate Drawn(places: Places, limit: nat, n: int, here: Sector)
    requires RollsFit(places, limit)
  {
    && n == Sum(Cut(places.weights, limit))
    && (var i := Choose(places.weights, places.rolls); i >= 0 ==> here == places.at[i])
    && AllPositive(places.weights)
  }

  /** One more place, and what a roll makes of it. */
  function More(places: Places, s: Sector, weight: nat, roll: int): Places {
    Places(places.at + [s], places.weights + [weight], places.rolls + [roll])
  }

  lemma AddPlace(w: World, b: BfsQueue, c: nat, limit: nat, places: Places, s: Sector, weight: nat, roll: int)
    requires w.Valid() && b.closest.Length == b.distance.Length == WorldSz()
    requires PlacesOk(w, b, c, limit, places, s) && w.CanGrowAt(c, s, b.closest)
    requires b.distance[s] > w.p.id && weight == PlaceWeight(b.distance[s], w.p.id)
    requires RollOk(Sum(Cut(places.weights, limit)) + Min(weight, limit), roll)
    ensures PlacesOk(w, b, c, limit, More(places, s, weight, roll), s + 1)
  {
    hide WorldSz, World.CanGrowAt, World.Valid, Cut, RollsOk, Sum;
    CutMore(places.weights, limit, places.rolls, weight, roll);
    forall i | 0 <= i < |places.at|
      ensures places.at[i] < s
    {
      assert places.at[i] in places.at;
    }
  }

  lemma DrawnMore(places: Places, limit: nat, n: int, here: Sector, s: Sector, weight: nat, roll: int)
    requires RollsFit(places, limit)
    requires Drawn(places, limit, n, here) && weight > 0 && RollOk(n + Min(weight, limit), roll)
    ensures RollsFit(More(places, s, weight, roll), limit)
    ensures Drawn(More(places, s, weight, roll), limit, n + Min(weight, limit), if roll < weight then s else here)
  {
    hide Cut, RollsOk, Sum, Choose;
    CutMore(places.weights, limit, places.rolls, weight, roll);
  }

  lemma SkipPlace(w: World, b: BfsQueue, c: nat, limit: nat, places: Places, s: Sector)
    requires w.Valid() && b.closest.Length == b.distance.Length == WorldSz()
    requires PlacesOk(w, b, c, limit, places, s) && !w.CanGrowAt(c, s, b.closest)
    ensures PlacesOk(w, b, c, limit, places, s + 1)
  {
    hide WorldSz, World.CanGrowAt, World.Valid, Cut, RollsOk;
  }

  /** There is a place exactly when there is room, and then the one drawn is a possible one. */
  lemma PlaceDrawn(w: World, b: BfsQueue, c: nat, limit: nat, places: Places, n: int, here: Sector)
    requires w.Valid() && b.closest.Length == b.distance.Length == WorldSz() && limit > 0
    requires PlacesOk(w, b, c, limit, places, WorldSz()) && Drawn(places, limit, n, here)
    ensures n > 0 <==> RoomBefore(w, c, b.closest, WorldSz())
    ensures n > 0 ==> w.CanGrowAt(c, here, b.closest)
    ensures n > 0 <==> places.at != []
    ensures n > 0 ==> var i := Choose(places.weights, places.rolls); i >= 0 && here == places.at[i]
  {
    hide WorldSz, World.CanGrowAt, World.Valid, Cut, RollsOk, Choose;
    if places.at == [] {
      NothingCut(limit);
    } else {
      assert places.at[0] in places.at;
      CutPositive(places.weights, limit);
      SomethingChosen(places.weights, limit, places.rolls);
      assert here in places.at;
    }
  }

  /** Lines 1175-1184: the weight of a place, and what it adds to the sum. */
  method WeighPlace(w: World, b: BfsQueue, c: nat, s: Sector, isiz: nat) returns (weight: nat, more: nat)
    requires w.Valid() && b.distance.Length == WorldSz() && w.p.nc <= c < w.live && SpheresOk(w, b)
    requires w.Ok(w.p.id) && MarksBelow(w.marks, c) && w.XzoneOk(c, s) && 1 <= isiz
    ensures b.distance[s] > w.p.id && weight == PlaceWeight(b.distance[s], w.p.id)
    ensures 1 <= more <= weight && more <= isiz && more == Min(weight, (isiz + 2) / 3)
  {
    hide WorldSz, LandOk, ZonesOk, Separated, Marked, SpheresOk;
    FarFromLand(w, b, c, s);
    var d := b.distance[s];
    assert d > w.p.id;
    Square(d - w.p.id);
    weight := (d - w.p.id) * (d - w.p.id);
    more := Min(weight, (isiz + 2) / 3);
  }

  /** Lines 1175-1184: consider one place. */
  method ConsiderPlace(w: World, b: BfsQueue, c: nat, isiz: nat, s: Sector, n: nat, here: Sector,
                       ghost places: Places)
    returns (n': nat, here': Sector, ghost places': Places)
    requires w.Valid() && b.closest.Length == b.distance.Length == WorldSz() && w.p.nc <= c < w.live
    requires w.Ok(w.p.id) && MarksBelow(w.marks, c) && SpheresOk(w, b) && 1 <= isiz && n + isiz <= INT_MAX
    requires PlacesOk(w, b, c, (isiz + 2) / 3, places, s) && RollsFit(places, (isiz + 2) / 3)
    requires Drawn(places, (isiz + 2) / 3, n, here)
    ensures n <= n' <= n + isiz
    ensures PlacesOk(w, b, c, (isiz + 2) / 3, places', s + 1) && RollsFit(places', (isiz + 2) / 3)
    ensures Drawn(places', (isiz + 2) / 3, n', here')
  {
    hide WorldSz, LandOk, ZonesOk, Separated, Marked, SpheresOk, World.Ok, PlacesOk, Drawn, PlaceWeight;
    ghost var limit := (isiz + 2) / 3;
    n', here', places' := n, here, places;
    if w.CanGrowAt(c, s, b.closest) {
      var weight, more := WeighPlace(w, b, c, s, isiz);
      n' := n + more;
      var roll := Roll0(n');
      DrawnSum(places, limit, n, here);
      AddPlace(w, b, c, limit, places, s, weight, roll);
      DrawnMore(places, limit, n, here, s, weight, roll);
      if roll < weight {
        here' := s;
      }
      places' := More(places, s, weight, roll);
    } else {
      SkipPlace(w, b, c, limit, places, s);
    }
  }

  /**
   The loop over all sectors; they are visited by rows, i.e. in the order of their
   offsets.  Choosing from the places drawn is what Placing is about.
   */
  method FindPlace(w: World, b: BfsQueue, c: nat, isiz: nat) returns (n: nat, here: Sector, ghost places: Places)
    requires w.Valid() && b.closest.Length == b.distance.Length == WorldSz() && w.p.nc <= c < w.live
    requires w.Ok(w.p.id) && MarksBelow(w.marks, c) && SpheresOk(w, b)
    requires 1 <= isiz <= 2 * w.p.isize && WorldSz() * (2 * w.p.isize) <= INT_MAX
    ensures n > 0 <==> RoomBefore(w, c, b.closest, WorldSz())
    ensures n > 0 ==> w.CanGrowAt(c, here, b.closest)
    ensures PlacesOk(w, b, c, (isiz + 2) / 3, places, WorldSz()) && Drawn(places, (isiz + 2) / 3, n, here)
    // Exactly the sectors open to the island are considered
    ensures forall s: Sector :: s in places.at <==> IsOpen(w, b, c, s)
    ensures n > 0 <==> places.at != []
    ensures n > 0 ==> var i := Choose(places.weights, places.rolls); i >= 0 && here == places.at[i]
  {
    hide WorldSz, SpheresOk, World.Ok, PlacesOk, Drawn, RollsFit, IsOpen, Choose;
    ghost var limit := (isiz + 2) / 3;
    n, here, places := 0, 0, Places([], [], []);
    NoPlaces(w, b, c, limit, here);
    var s := 0;
    while s < WorldSz()
      invariant 0 <= s <= WorldSz()
      invariant 0 <= n <= s * (2 * w.p.isize)
      invariant PlacesOk(w, b, c, limit, places, s) && RollsFit(places, limit) && Drawn(places, limit, n, here)
      modifies {}
    {
      MulMonotonic(s + 1, WorldSz(), 2 * w.p.isize);
      OneMore(s, 2 * w.p.isize);
      n, here, places := ConsiderPlace(w, b, c, isiz, s, n, here, places);
      s := s + 1;
    }
    PlaceDrawn(w, b, c, limit, places, n, here);
    PlacesAreOpen(w, b, c, limit, places);
  }

  lemma PlacesAreOpen(w: World, b: BfsQueue, c: nat, limit: nat, places: Places)
    requires w.Valid() && w.Ok(w.p.id) && b.closest.Length == b.distance.Length == WorldSz()
    requires PlacesOk(w, b, c, limit, places, WorldSz())
    ensures forall s: Sector :: s in places.at <==> IsOpen(w, b, c, s)
  {
    hide WorldSz, RollsFit, OpenTo, ZonesOk, LandOk, Separated, Marked, MarksBelow, World.CanGrowAt;
    forall s: Sector
      ensures w.CanGrowAt(c, s, b.closest) <==> IsOpen(w, b, c, s)
    {
      w.CanGrowAtIsOpenTo(c, s, b.closest);
    }
  }

  lemma DrawnSum(places: Places, limit: nat, n: int, here: Sector)
    requires RollsFit(places, limit) && Drawn(places, limit, n, here)
    ensures n == Sum(Cut(places.weights, limit))
  {
  }

  lemma NoPlaces(w: World, b: BfsQueue, c: nat, limit: nat, here: Sector)
    requires w.Valid() && b.closest.Length == b.distance.Length == WorldSz()
    ensures PlacesOk(w, b, c, limit, Places([], [], []), 0) && Drawn(Places([], [], []), limit, 0, here)
    ensures RollsFit(Places([], [], []), limit)
  {
    hide WorldSz, World.CanGrowAt, World.Valid;
  }

  /** place_island */
  method PlaceIsland(w: World, b: BfsQueue, c: nat, isiz: nat)
    returns (placed: bool, ghost at: Sector, ghost places: Places)
    requires Ready(w, b.closest, w.p.id) && b.distance.Length == WorldSz()
    requires w.p.nc <= c && c + 1 == w.live && w.sect[c] == [] && MarksBelow(w.marks, c)
    requires SpheresOk(w, b)
    requires 1 <= isiz <= 2 * w.p.isize && WorldSz() * (2 * w.p.isize) <= INT_MAX
    modifies w`sect, w`marks, w.own, w.adjLand, w.xzone
    ensures Ready(w, b.closest, w.p.id)
    // The places it is drawn from are the sectors open to the island; it is placed exactly when there are any
    ensures old(PlacesOk(w, b, c, (isiz + 2) / 3, places, WorldSz()))
    ensures forall s: Sector :: s in places.at <==> old(IsOpen(w, b, c, s))
    ensures placed <==> places.at != []
    ensures placed ==> var i := Choose(places.weights, places.rolls);
                       i >= 0 && at == places.at[i] && SectorAdded(old(w.Value()), w.Value(), c, at)
    ensures placed ==> c < w.p.nc || b.closest[at] == c % w.p.nc
    ensures !placed ==> w.Value() == old(w.Value()) && w.marks == old(w.marks)
  {
    hide WorldSz, LandOk, ZonesOk, Separated, Marked, SpheresOk, Adjacent, AdjacencyUpdate, ZoneAdded, MarksBelow,
         RoomBefore, FarHasDistance, PlacesOk, IsOpen, Choose, RollsOk, Cut, Sum, Drawn;
    var n, here;
    n, here, places := FindPlace(w, b, c, isiz);
    at := here;
    placed := n > 0;
    if placed {
      w.AddSector(c, here);
    }
  }

  lemma Square(n: int)
    requires n > 0
    ensures n * n >= 1
  {
  }

  lemma OneMore(s: nat, k: nat)
    ensures (s + 1) * k == s * k + k
  {
  }

  // A round: nc islands of the same size, one in each sphere

  ghost predicate SameBelow(sect0: seq<seq<Sector>>, sect: seq<seq<Sector>>, base: nat) {
    |sect| == |sect0| && base <= |sect| && forall c :: 0 <= c < base ==> sect[c] == sect0[c]
  }

  /** The n islands from base on have secs sectors each. */
  ghost predicate AllOfSize(sect: seq<seq<Sector>>, base: nat, n: nat, secs: nat) {
    base + n <= |sect| && forall c :: base <= c < base + n ==> |sect[c]| == secs
  }

  /** Spheres are known, islands keep to theirs, and zones are width sectors wide. */
  ghost predicate ReadyAt(w: World, b: BfsQueue, width: nat)
    reads w, w.own, w.adjLand, w.xzone, w.seen, b.closest, b.distance
  {
    && Ready(w, b.closest, width) && b.distance.Length == WorldSz() && Apart(b, w)
    && w.p.nc <= w.live && SpheresOk(w, b) && InSpheres(w.sect, w.p.nc, w.live, b.closest[..])
    && WorldSz() * (2 * w.p.isize) <= INT_MAX
  }

  /** Ready to place or grow islands in their spheres. */
  ghost predicate ReadyForIslands(w: World, b: BfsQueue)
    reads w, w.own, w.adjLand, w.xzone, w.seen, b.closest, b.distance
  {
    ReadyAt(w, b, w.p.id)
  }

  /** No sector is open to island c. */
  ghost predicate NoPlace(w: World, b: BfsQueue, c: nat)
    reads w, w.own, b, b.closest
    requires w.own.Length == b.closest.Length == WorldSz() && w.p.nc > 0
  {
    forall s: Sector :: !IsOpen(w, b, c, s)
  }

  lemma StillNoPlace(w: World, b: BfsQueue, c: nat, own: seq<int>, marks: seq<Mark>, closest: seq<int>,
                     places: seq<Sector>)
    requires w.own.Length == b.closest.Length == WorldSz() && w.p.nc > 0
    requires w.own[..] == own && w.marks == marks && b.closest[..] == closest
    requires places == [] && forall s: Sector :: s in places <==> OpenTo(own, marks, closest, w.p.nc, c, s)
    ensures NoPlace(w, b, c)
  {
    hide OpenTo;
    forall s: Sector
      ensures !IsOpen(w, b, c, s)
    {
      assert s !in places;
    }
  }

  /** Lines 1243-1248: start island c, and place its first sector in its sphere. */
  method StartAndPlace(w: World, b: BfsQueue, c: nat, isiz: nat) returns (placed: bool)
    requires ReadyForIslands(w, b) && w.live == c < |w.sect| && 1 <= isiz <= 2 * w.p.isize
    modifies w`sect, w`marks, w`live, w.own, w.adjLand, w.xzone
    ensures ReadyForIslands(w, b) && w.live == c + 1
    ensures SameBelow(old(w.sect), w.sect, c) && (placed ==> |w.sect[c]| == 1)
    ensures !placed ==> NoPlace(w, b, c)
  {
    hide WorldSz, LandOk, ZonesOk, Separated, Marked, FarHasDistance, MarksBelow, RoomBefore, Adjacent, AdjacencyUpdate,
         InSpheres, PlacesOk, OpenTo, Choose, NoPlace;
    ghost var sect0 := w.sect;
    FreshIsland(w, c);
    w.StartIsland(c, w.p.id);
    SpheresStay(sect0, w.sect, w.p.nc, w.p.id, b.distance[..]);
    StartingKeepsSpheres(sect0, w.p.nc, c, b.closest[..]);
    ghost var sect1 := w.sect;
    ghost var at;
    ghost var places;
    ghost var own, marks, closest := w.own[..], w.marks, b.closest[..];
    placed, at, places := PlaceIsland(w, b, c, isiz);
    if !placed {
      assert w.Value().own == own;
      StillNoPlace(w, b, c, own, marks, closest, places.at);
    }
    SpheresStay(sect0, w.sect, w.p.nc, w.p.id, b.distance[..]);
    if placed {
      AddingKeepsSpheres(sect1, w.p.nc, w.live, b.closest[..], c, at);
    }
  }

  /** Lines 1242-1249: place one island in each sphere. */
  method PlaceRound(w: World, b: BfsQueue, base: nat, isiz: nat) returns (placed: bool)
    requires ReadyForIslands(w, b) && w.live == base && base + w.p.nc <= |w.sect|
    requires 1 <= isiz <= 2 * w.p.isize
    modifies w`sect, w`marks, w`live, w.own, w.adjLand, w.xzone
    // Every island there is keeps to its sphere, see InSpheres in ReadyForIslands
    ensures ReadyForIslands(w, b) && SameBelow(old(w.sect), w.sect, base)
    ensures InSpheres(w.sect, w.p.nc, w.live, b.closest[..])
    ensures placed ==> w.live == base + w.p.nc && AllOfSize(w.sect, base, w.p.nc, 1)
    ensures !placed ==> base < w.live <= base + w.p.nc && NoPlace(w, b, w.live - 1)
  {
    hide ReadyForIslands, NoPlace;
    var j := 0;
    PlacedInSpheres(w, b);
    while j < w.p.nc
      invariant 0 <= j <= w.p.nc && w.live == base + j
      invariant ReadyForIslands(w, b) && InSpheres(w.sect, w.p.nc, w.live, b.closest[..])
      invariant SameBelow(old(w.sect), w.sect, base) && AllOfSize(w.sect, base, j, 1)
    {
      var ok := StartAndPlace(w, b, base + j, isiz);
      PlacedInSpheres(w, b);
      if !ok {
        return false;
      }
      j := j + 1;
    }
    return true;
  }

  lemma PlacedInSpheres(w: World, b: BfsQueue)
    requires ReadyForIslands(w, b)
    ensures InSpheres(w.sect, w.p.nc, w.live, b.closest[..])
  {
  }

  lemma FreshIsland(w: World, c: nat)
    requires w.Valid() && w.Ok(w.p.id) && c == w.live
    ensures MarksBelow(w.marks, c)
  {
  }

  /** What spheres are known to hold stays true while continents do. */
  lemma SpheresStay(sect0: seq<seq<Sector>>, sect: seq<seq<Sector>>, nc: nat, id: nat, distance: seq<int>)
    requires nc <= |sect0| && |distance| == WorldSz() && FarHasDistance(sect0, nc, id, distance)
    requires SameBelow(sect0, sect, nc)
    ensures FarHasDistance(sect, nc, id, distance)
  {
    hide Dist;
    forall s: Sector | forall e, q: Sector | 0 <= e < nc && q in sect[e] :: Dist(s, q) > id
      ensures distance[s] > id
    {
      assert forall e, q: Sector | 0 <= e < nc && q in sect0[e] :: Dist(s, q) > id;
    }
  }

  /** Lines 1251-1257: grow the islands of a round until one of them cannot grow; calls bounds the rounds. */
  method GrowToSize(w: World, b: BfsQueue, base: nat, isiz: nat) returns (done: bool, secs: nat)
    requires ReadyForIslands(w, b) && w.p.nc <= base && base % w.p.nc == 0 && w.live == base + w.p.nc
    requires AllOfSize(w.sect, base, w.p.nc, 1) && 1 <= isiz <= 2 * w.p.isize
    requires w.curSeen + isiz * w.p.nc < UINT_MAX
    modifies w`curSeen, w`sect, w`marks, w.own, w.adjLand, w.xzone, w.seen
    ensures ReadyForIslands(w, b) && SameBelow(old(w.sect), w.sect, base)
    ensures w.curSeen <= old(w.curSeen) + isiz * w.p.nc
    ensures done ==> secs == isiz && AllOfSize(w.sect, base, w.p.nc, secs)
    ensures !done ==> 2 <= secs <= isiz && PartlyGrown(w.sect, base, w.p.nc, secs) && IslandStuck(w, b, base, secs - 1)
  {
    hide WorldSz, LandOk, ZonesOk, Separated, Marked, FarHasDistance, MarksBelow, RoomBefore, Adjacent, AdjacencyUpdate,
         InSpheres, SomeHas, SomeStuck;
    ghost var sect0 := w.sect;
    done, secs := true, 1;
    Allowance(0, isiz, w.p.nc);
    while secs < isiz && done
      invariant 1 <= secs <= isiz
      invariant ReadyForIslands(w, b) && SameBelow(sect0, w.sect, base)
      invariant w.curSeen == old(w.curSeen) + (secs - 1) * w.p.nc
      invariant done ==> AllOfSize(w.sect, base, w.p.nc, secs)
      invariant !done ==> secs >= 2 && PartlyGrown(w.sect, base, w.p.nc, secs) && IslandStuck(w, b, base, secs - 1)
    {
      Allowance(secs - 1, isiz, w.p.nc);
      ghost var before := w.sect;
      done := GrowRound(w, base, b.closest, secs, done);
      SpheresStay(before, w.sect, w.p.nc, w.p.id, b.distance[..]);
      secs := secs + 1;
    }
    MulMonotonic(secs - 1, isiz, w.p.nc);
  }

  /** Some island of the round has secs sectors and cannot grow. */
  ghost predicate IslandStuck(w: World, b: BfsQueue, base: nat, secs: nat)
    reads w, w.own, b, b.closest
  {
    SomeStuck(w.own[..], w.marks, b.closest[..], w.p.nc, w.sect, base, w.p.nc, secs)
  }

  /** The last round was not finished: some of the islands lack the last sector. */
  ghost predicate PartlyGrown(sect: seq<seq<Sector>>, base: nat, n: nat, secs: nat) {
    && base + n <= |sect| && secs >= 1 && SomeHas(sect, base, n, secs - 1)
    && forall c :: base <= c < base + n ==> |sect[c]| == secs - 1 || |sect[c]| == secs
  }

  /** Lines 1259-1270: take back what islands of an unfinished round have grown in it. */
  method RollBack(w: World, b: BfsQueue, base: nat, secs: nat)
    requires ReadyForIslands(w, b) && w.p.nc <= base && w.live == base + w.p.nc
    requires secs >= 1 && PartlyGrown(w.sect, base, w.p.nc, secs + 1) && IslandStuck(w, b, base, secs)
    modifies w`sect, w.own, w.adjLand
    ensures ReadyForIslands(w, b) && SameBelow(old(w.sect), w.sect, base)
    ensures AllOfSize(w.sect, base, w.p.nc, secs) && IslandStuck(w, b, base, secs)
  {
    hide ReadyForIslands, IslandStuck;
    ghost var sect0 := w.sect;
    var j := 0;
    while j < w.p.nc
      invariant 0 <= j <= w.p.nc
      invariant ReadyForIslands(w, b) && SameBelow(sect0, w.sect, base)
      invariant AllOfSize(w.sect, base, j, secs)
      invariant forall c :: base + j <= c < base + w.p.nc ==> w.sect[c] == sect0[c]
      invariant IslandStuck(w, b, base, secs)
    {
      if |w.sect[base + j]| != secs {
        TakeBack(w, b, base, base + j, secs);
      }
      j := j + 1;
    }
  }

  /** Island c gives back its last sector; whatever island was stuck still is. */
  method TakeBack(w: World, b: BfsQueue, base: nat, c: nat, secs: nat)
    requires ReadyForIslands(w, b) && w.p.nc <= base <= c < base + w.p.nc == w.live
    requires |w.sect[c]| == secs + 1 && IslandStuck(w, b, base, secs)
    modifies w`sect, w.own, w.adjLand
    ensures ReadyForIslands(w, b) && IslandStuck(w, b, base, secs)
    ensures w.sect == old(w.sect)[c := old(w.sect)[c][..secs]]
  {
    hide WorldSz, LandOk, ZonesOk, Separated, Marked, FarHasDistance, MarksBelow, RoomBefore, Adjacent, AdjacencyUpdate,
         InSpheres, SomeStuck;
    ghost var before := w.sect;
    LastHasMark(w, c, w.p.id);
    ghost var own, m := w.own[..], Mark(c, w.sect[c][secs], w.p.id);
    w.DropSector(c, w.p.id);
    assert w.Value().own == own[m.s := -1];
    StuckGoesBack(own, w.marks, b.closest[..], w.p.nc, before, base, w.p.nc, secs, m);
    DroppingKeepsSpheres(before, w.p.nc, w.live, b.closest[..], c);
    SpheresStay(before, w.sect, w.p.nc, w.p.id, b.distance[..]);
  }

  lemma LastHasMark(w: World, c: nat, width: nat)
    requires w.Valid() && w.Ok(width) && c < w.live && w.sect[c] != []
    ensures Mark(c, w.sect[c][|w.sect[c]| - 1], width) in w.marks
  {
    hide LandOk, ZonesOk, Separated, MarksBelow;
  }

  lemma StuckGoesBack(own: seq<int>, marks: seq<Mark>, closest: seq<int>, nc: nat, sect: seq<seq<Sector>>, base: nat,
                      n: nat, secs: nat, m: Mark)
    requires SomeStuck(own, marks, closest, nc, sect, base, n, secs) && m in marks && base <= m.c < base + n
    requires |sect[m.c]| == secs + 1
    ensures SomeStuck(own[m.s := -1], marks, closest, nc, sect[m.c := sect[m.c][..secs]], base, n, secs)
  {
    hide WorldSz, Stuck;
    var c :| base <= c < base + n && StuckAt(own, marks, closest, nc, sect, c, secs);
    StuckWhenOthersShrink(own, marks, closest, nc, c, sect[c], m);
    assert StuckAt(own[m.s := -1], marks, closest, nc, sect[m.c := sect[m.c][..secs]], c, secs);
  }

  /** One round of grow_islands (lines 1242-1272). */
  method IslandRound(w: World, b: BfsQueue, base: nat, isiz: nat) returns (placed: bool, secs: nat)
    requires ReadyForIslands(w, b) && w.p.nc <= base && base % w.p.nc == 0 && w.live == base
    requires base + w.p.nc <= |w.sect| && 1 <= isiz <= 2 * w.p.isize
    requires w.curSeen + isiz * w.p.nc < UINT_MAX
    modifies w`curSeen, w`sect, w`marks, w`live, w.own, w.adjLand, w.xzone, w.seen
    ensures ReadyForIslands(w, b) && SameBelow(old(w.sect), w.sect, base)
    ensures w.curSeen <= old(w.curSeen) + isiz * w.p.nc
    ensures placed ==> 1 <= secs <= isiz && w.live == base + w.p.nc && AllOfSize(w.sect, base, w.p.nc, secs)
    // It stops short only when there is no place, or no room to grow
    ensures placed && secs < isiz ==> IslandStuck(w, b, base, secs)
    ensures !placed ==> base < w.live <= base + w.p.nc && NoPlace(w, b, w.live - 1)
  {
    hide WorldSz, LandOk, ZonesOk, Separated, Marked, FarHasDistance, MarksBelow, RoomBefore, Adjacent, AdjacencyUpdate,
         IslandStuck, NoPlace;
    secs := 0;
    placed := PlaceRound(w, b, base, isiz);
    if !placed {
      return;
    }
    var done;
    done, secs := GrowToSize(w, b, base, isiz);
    if !done {
      secs := secs - 1;
      RollBack(w, b, base, secs);
    }
  }

  // All rounds

  /** In round k, islands of size grown[k] were grown, one per continent. */
  ghost predicate RoundsOk(sect: seq<seq<Sector>>, nc: nat, grown: seq<int>, size: nat, base: nat) {
    && nc > 0 && base <= |sect| && base == nc + |grown| * nc
    && (forall c :: nc <= c < base ==> 1 <= c / nc <= |grown| && |sect[c]| == grown[c / nc - 1])
    && forall k :: 0 <= k < |grown| ==> 1 <= grown[k] <= 2 * size
  }

  lemma OneMoreRound(sect: seq<seq<Sector>>, sect': seq<seq<Sector>>, nc: nat, grown: seq<int>, size: nat,
                     base: nat, secs: nat)
    requires RoundsOk(sect, nc, grown, size, base) && SameBelow(sect, sect', base)
    requires AllOfSize(sect', base, nc, secs) && 1 <= secs <= 2 * size
    ensures RoundsOk(sect', nc, grown + [secs], size, base + nc)
  {
    var grown' := grown + [secs];
    Allowance(|grown|, |grown| + 1, nc);
    forall c | nc <= c < base + nc
      ensures 1 <= c / nc <= |grown'| && |sect'[c]| == grown'[c / nc - 1]
    {
      if c >= base {
        DivModUnique(c, nc, |grown| + 1, c - base);
      } else {
        assert 1 <= c / nc <= |grown|;
      }
    }
  }

  lemma NoRounds(sect: seq<seq<Sector>>, nc: nat, size: nat)
    requires 0 < nc <= |sect|
    ensures RoundsOk(sect, nc, [], size, nc)
  {
  }

  lemma BaseOfRound(nc: nat, i: nat, n: nat, ni: nat)
    requires nc > 0 && i < n && ni == n * nc
    ensures (nc + i * nc) % nc == 0 && nc + i * nc + nc <= nc + ni
  {
    Allowance(i, n, nc);
    DivModUnique(nc + i * nc, nc, i + 1, 0);
  }

  /** Rebuilding the zones with the smaller width keeps everything that matters. */
  method RebuildZones(w: World, b: BfsQueue, n: nat, ghost width: nat)
    requires ReadyAt(w, b, width) && w.live == n
    modifies w`marks, w.xzone
    ensures ReadyForIslands(w, b)
  {
    hide WorldSz, LandOk, ZonesOk, FarHasDistance, Dist, InSpheres;
    SeparatedFar(w);
    w.XzoneInit(n);
    RebuildMarksAre(w.sect, w.live, w.p.id);
  }

  /** Continents are at least as far apart as islands, so drawing their zones again is safe. */
  lemma SeparatedFar(w: World)
    requires w.Valid() && Separated(w.sect, w.live, w.p.nc, w.p.di, w.p.id)
    ensures FarApart(w.sect, w.live, w.p.id)
  {
    hide Dist;
  }

  // What spheres are

  /** The world as it was when only the nc continents had been grown. */
  ghost function ContinentsOnly(own: seq<int>, nc: nat): (own0: seq<int>)
    ensures |own0| == |own|
  {
    seq(|own|, s requires 0 <= s < |own| => if own[s] < nc then own[s] else -1)
  }

  /** closest holds the spheres of influence of the continents. */
  ghost predicate SpheresExact(own: seq<int>, nc: nat, id: nat, closest: seq<int>) {
    exists distance0, closest0, distance ::
      && CoastDistances(ContinentsOnly(own, nc), nc, distance0, closest0)
      && BorderDistances(distance0, closest0, id, distance, closest)
  }

  lemma OwnContinentsOnly(l: Land, nc: nat)
    requires LandOk(l, nc)
    ensures ContinentsOnly(l.own, nc) == l.own
  {
    hide AdjacencyOk;
  }

  lemma ContinentsStayOnly(l: Land, live: nat, l': Land, live': nat, nc: nat)
    requires LandOk(l, live) && LandOk(l', live') && nc <= live && nc <= live' && SameBelow(l.sect, l'.sect, nc)
    ensures ContinentsOnly(l'.own, nc) == ContinentsOnly(l.own, nc)
  {
    hide AdjacencyOk;
    forall s: Sector
      ensures (if l.own[s] < nc then l.own[s] else -1) == if l'.own[s] < nc then l'.own[s] else -1
    {
      if 0 <= l.own[s] < nc {
        assert s in l.sect[l.own[s]];
      }
      if 0 <= l'.own[s] < nc {
        assert s in l'.sect[l'.own[s]];
      }
    }
  }

  /** The coasts nearest to s are all continent e's; or there is a tie, and the spheres nearest to s are all e's. */
  ghost predicate BelongsTo(own0: seq<int>, nc: nat, id: nat, distance0: seq<int>, closest0: seq<int>, s: Sector,
                            e: int)
    requires |own0| == |distance0| == |closest0| == WorldSz()
  {
    || (distance0[s] < USHRT_MAX && NearestIs(own0, nc, distance0, s, e))
    || (closest0[s] == TIE && BorderIsCloser(distance0, closest0, id, s)
        && ClosestBordersAre(distance0, closest0, id, s, e))
  }

  /** What it means for a sector to be in a continent's sphere. */
  ghost predicate InSphereOf(own: seq<int>, nc: nat, id: nat, s: Sector, e: int)
    requires |own| == WorldSz()
  {
    exists distance0, closest0 ::
      CoastDistances(ContinentsOnly(own, nc), nc, distance0, closest0)
      && BelongsTo(ContinentsOnly(own, nc), nc, id, distance0, closest0, s, e)
  }

  lemma LabelBelongs(own0: seq<int>, nc: nat, id: nat, distance0: seq<int>, closest0: seq<int>, distance: seq<int>,
                     closest: seq<int>, s: Sector)
    requires nc <= 254 && CoastDistances(own0, nc, distance0, closest0)
    requires BorderDistances(distance0, closest0, id, distance, closest) && closest[s] != TIE
    ensures |own0| == WorldSz() && BelongsTo(own0, nc, id, distance0, closest0, s, closest[s])
  {
    hide Dist, Shore, NearestIs, NearestBorder, BorderIsCloser, ClosestBordersAre;
    if closest0[s] == TIE {
      assert TieOk(distance0, closest0, id, closest, s);
    }
  }

  /** Each island is entirely in the sphere of influence of one continent, the one whose turn it was. */
  lemma {:induction false} IslandInItsSphere(own: seq<int>, sect: seq<seq<Sector>>, nc: nat, n: nat, id: nat,
                                             closest: seq<int>, c: nat, s: Sector)
    requires |own| == WorldSz() && nc <= 254 && SpheresExact(own, nc, id, closest) && InSpheres(sect, nc, n, closest)
    requires nc <= c < n && s in sect[c]
    ensures InSphereOf(own, nc, id, s, c % nc)
  {
    hide CoastDistances, BorderDistances, BelongsTo, ContinentsOnly;
    var distance0, closest0, distance :|
      CoastDistances(ContinentsOnly(own, nc), nc, distance0, closest0)
      && BorderDistances(distance0, closest0, id, distance, closest);
    LabelBelongs(ContinentsOnly(own, nc), nc, id, distance0, closest0, distance, closest, s);
  }

  /** init_spheres_of_influence, when there are only continents. */
  method FindSpheres(w: World, b: BfsQueue)
    requires Ready(w, b.closest, w.p.di) && b.Valid() && Apart(b, w) && w.live == w.p.nc
    requires WorldSz() * (2 * w.p.isize) <= INT_MAX
    modifies b, b.closest, b.distance, b.queue
    ensures b.Valid() && ReadyAt(w, b, w.p.di) && SpheresExact(w.own[..], w.p.nc, w.p.id, b.closest[..])
  {
    hide WorldSz, LandOk, ZonesOk, Separated, Marked, FarHasDistance, MarksBelow, CoastDistances, BorderDistances;
    ghost var distance0, closest0 := InitSpheres(b, w);
    SpheresFromDistances(w, b, distance0, closest0);
    OwnContinentsOnly(w.Value(), w.p.nc);
  }

  lemma SpheresStayExact(l: Land, l': Land, nc: nat, live: nat, id: nat, closest: seq<int>)
    requires LandOk(l, nc) && LandOk(l', live) && nc <= live && SameBelow(l.sect, l'.sect, nc)
    requires SpheresExact(l.own, nc, id, closest)
    ensures SpheresExact(l'.own, nc, id, closest)
  {
    hide LandOk, ContinentsOnly, CoastDistances, BorderDistances;
    ContinentsStayOnly(l, nc, l', live, nc);
  }

  lemma ReadyMeans(w: World, b: BfsQueue, width: nat)
    requires ReadyAt(w, b, width)
    ensures Ready(w, b.closest, width) && InSpheres(w.sect, w.p.nc, w.live, b.closest[..])
    ensures w.Valid() && w.p.Valid() && w.p.nc <= w.live <= |w.sect| && LandOk(w.Value(), w.live)
  {
    hide LandOk;
  }

  lemma SameBelowTwice(sect0: seq<seq<Sector>>, sect1: seq<seq<Sector>>, sect2: seq<seq<Sector>>, nc: nat, base: nat)
    requires SameBelow(sect0, sect1, nc) && SameBelow(sect1, sect2, base) && nc <= base
    ensures SameBelow(sect0, sect2, nc)
  {
  }

  /** Calls of grow_one_sector in a round, at most, and in all rounds. */
  function CallsPerRound(p: Params): nat {
    2 * p.isize * p.nc
  }

  function IslandCalls(p: Params): nat
    requires p.nc > 0
  {
    MulMonotonic(0, p.ni / p.nc, CallsPerRound(p));
    (p.ni / p.nc) * CallsPerRound(p)
  }

  /** One iteration of the loop: draw the zones again, and grow nc islands of at most carry sectors. */
  method NextRound(w: World, b: BfsQueue, base: nat, carry: int, ghost width: nat, ghost grown: seq<int>)
    returns (placed: bool, secs: nat)
    requires ReadyAt(w, b, width) && w.live == base && base % w.p.nc == 0 && base + w.p.nc <= |w.sect| && carry >= 1
    requires RoundsOk(w.sect, w.p.nc, grown, w.p.isize, base)
    requires w.curSeen + CallsPerRound(w.p) < UINT_MAX
    modifies w`curSeen, w`sect, w`marks, w`live, w.own, w.adjLand, w.xzone, w.seen
    ensures ReadyAt(w, b, w.p.id) && SameBelow(old(w.sect), w.sect, base)
    ensures w.curSeen <= old(w.curSeen) + CallsPerRound(w.p)
    ensures placed ==> 1 <= secs <= carry && w.live == base + w.p.nc
                       && RoundsOk(w.sect, w.p.nc, grown + [secs], w.p.isize, base + w.p.nc)
    // As large as possible and due
    ensures placed && secs != Min(2 * w.p.isize, carry) ==> IslandStuck(w, b, base, secs)
    ensures !placed ==> base < w.live <= base + w.p.nc && NoPlace(w, b, w.live - 1)
  {
    hide WorldSz, LandOk, Ready, ReadyAt, RoundsOk, InSpheres, SameBelow, IslandStuck, NoPlace;
    ReadyMeans(w, b, width);
    RebuildZones(w, b, base, width);
    var isiz := Min(2 * w.p.isize, carry);
    MulMonotonic(isiz, 2 * w.p.isize, w.p.nc);
    ghost var before := w.sect;
    placed, secs := IslandRound(w, b, base, isiz);
    if placed {
      OneMoreRound(before, w.sect, w.p.nc, grown, w.p.isize, base, secs);
    }
  }

  /** The world after a round. */
  datatype Snapshot = Snapshot(land: Land, marks: seq<Mark>)

  /** A snapshot of n islands that are there still, and of the zones around them. */
  ghost predicate SnapshotOk(snap: Snapshot, sect: seq<seq<Sector>>, n: nat, width: nat) {
    && LandOk(snap.land, n) && SameBelow(snap.land.sect, sect, n)
    && Marked(snap.land.sect, n, snap.marks, width) && MarksBelow(snap.marks, n)
  }

  /** How many sectors per island are due in round k. */
  ghost function DueIn(sizes: seq<int>, grown: seq<int>, k: nat): int
    requires k < |sizes| && k <= |grown|
  {
    Total(sizes[..k + 1]) - Total(grown[..k])
  }

  /** In every round, islands were grown as large as was due, and as buffers hold; or one of them was stuck. */
  ghost predicate GrownAsDue(p: Params, sizes: seq<int>, grown: seq<int>, snaps: seq<Snapshot>, closest: seq<int>,
                             sect: seq<seq<Sector>>)
  {
    && |grown| == |snaps| <= |sizes|
    && forall k :: 0 <= k < |grown| ==> GrownAsDueIn(p, sizes, grown, snaps[k], closest, sect, k)
  }

  ghost predicate GrownAsDueIn(p: Params, sizes: seq<int>, grown: seq<int>, snap: Snapshot, closest: seq<int>,
                               sect: seq<seq<Sector>>, k: nat)
    requires k < |grown| <= |sizes|
  {
    && SnapshotOk(snap, sect, p.nc + (k + 1) * p.nc, p.id)
    && grown[k] >= 0
    && (grown[k] == Min(2 * p.isize, DueIn(sizes, grown, k))
        || SomeStuck(snap.land.own, snap.marks, closest, p.nc, snap.land.sect, p.nc + k * p.nc, p.nc, grown[k]))
  }

  lemma StillSnapshot(snap: Snapshot, sect: seq<seq<Sector>>, sect': seq<seq<Sector>>, n: nat, m: nat, width: nat)
    requires SnapshotOk(snap, sect, n, width) && SameBelow(sect, sect', m) && n <= m
    ensures SnapshotOk(snap, sect', n, width)
  {
    hide LandOk, Marked, MarksBelow;
  }

  lemma OneMoreGrown(p: Params, sizes: seq<int>, grown: seq<int>, snaps: seq<Snapshot>, closest: seq<int>,
                     sect: seq<seq<Sector>>, sect': seq<seq<Sector>>, size: nat, snap: Snapshot)
    requires GrownAsDue(p, sizes, grown, snaps, closest, sect) && |grown| < |sizes|
    requires SameBelow(sect, sect', p.nc + |grown| * p.nc)
    requires SnapshotOk(snap, sect', p.nc + (|grown| + 1) * p.nc, p.id)
    requires size == Min(2 * p.isize, DueIn(sizes, grown, |grown|))
             || SomeStuck(snap.land.own, snap.marks, closest, p.nc, snap.land.sect, p.nc + |grown| * p.nc, p.nc, size)
    ensures GrownAsDue(p, sizes, grown + [size], snaps + [snap], closest, sect')
  {
    hide SnapshotOk, SomeStuck, Total;
    var grown' := grown + [size];
    forall k | 0 <= k <= |grown|
      ensures GrownAsDueIn(p, sizes, grown', (snaps + [snap])[k], closest, sect', k)
    {
      assert grown'[..k] == grown[..k];
      if k < |grown| {
        assert GrownAsDueIn(p, sizes, grown, snaps[k], closest, sect, k);
        MulMonotonic(k + 1, |grown|, p.nc);
        StillSnapshot(snaps[k], sect, sect', p.nc + (k + 1) * p.nc, p.nc + |grown| * p.nc, p.id);
      }
    }
  }

  lemma TakeSnapshot(w: World, b: BfsQueue)
    requires ReadyAt(w, b, w.p.id)
    ensures SnapshotOk(Snapshot(w.Value(), w.marks), w.sect, w.live, w.p.id)
  {
    hide LandOk, Marked, MarksBelow, Separated;
  }

  lemma WholeGrown(sizes: seq<int>, grown: seq<int>)
    requires |grown| < |sizes|
    ensures DueIn(sizes, grown, |grown|) == Total(sizes[..|grown| + 1]) - Total(grown)
  {
    hide Total;
    assert grown[..|grown|] == grown;
  }

  /** What holds between rounds. */
  ghost predicate BetweenRounds(w: World, b: BfsQueue, sizes: seq<int>, carry: int, grown: seq<int>, width: nat,
                                snaps: seq<Snapshot>)
    reads w, w.own, w.adjLand, w.xzone, w.seen, b, b.closest, b.distance
  {
    && |grown| <= |sizes| && ReadyAt(w, b, width) && (grown != [] ==> width == w.p.id)
    && w.live == w.p.nc + |grown| * w.p.nc && RoundsOk(w.sect, w.p.nc, grown, w.p.isize, w.live)
    && carry >= 0 && Total(grown) + carry == Total(sizes[..|grown|])
    && GrownAsDue(w.p, sizes, grown, snaps, b.closest[..], w.sect)
  }

  /** Lines 1233-1277: one pass of the loop, when it does not end there. */
  method NextSize(w: World, b: BfsQueue, sizes: seq<int>, i: nat, carry: int, ghost grown: seq<int>,
                  ghost width: nat, ghost snaps: seq<Snapshot>)
    returns (placed: bool, carry': int, ghost grown': seq<int>, ghost snaps': seq<Snapshot>)
    requires BetweenRounds(w, b, sizes, carry, grown, width, snaps) && |grown| == i
    requires i < |sizes| == w.p.ni / w.p.nc && sizes[i] >= 1 && w.curSeen + CallsPerRound(w.p) < UINT_MAX
    modifies w`curSeen, w`sect, w`marks, w`live, w.own, w.adjLand, w.xzone, w.seen
    ensures w.curSeen <= old(w.curSeen) + CallsPerRound(w.p) && SameBelow(old(w.sect), w.sect, w.p.nc)
    ensures ReadyAt(w, b, w.p.id)
    ensures placed ==> |grown'| == |grown| + 1 && BetweenRounds(w, b, sizes, carry', grown', w.p.id, snaps')
    ensures !placed ==> w.p.nc < w.live && NoPlace(w, b, w.live - 1)
  {
    hide WorldSz, ReadyAt, RoundsOk, SameBelow, Total, CallsPerRound, GrownAsDue, NoPlace, IslandStuck, SnapshotOk;
    var base := w.p.nc + i * w.p.nc;
    ReadyMeans(w, b, width);
    BaseOfRound(w.p.nc, i, |sizes|, w.p.ni);
    ghost var before := w.sect;
    carry' := carry + sizes[i];
    var secs;
    TotalPrefix(sizes, i);
    placed, secs := NextRound(w, b, base, carry', width, grown);
    SameBelowLess(before, w.sect, w.p.nc, base);
    grown', snaps' := grown, snaps;
    if placed {
      TotalStep(grown, secs);
      RoundTold(w, b, sizes, grown, snaps, before, secs, carry');
      grown', snaps' := grown + [secs], snaps + [Snapshot(w.Value(), w.marks)];
      OneMore(i, w.p.nc);
      carry' := carry' - secs;
    }
  }

  lemma SameBelowLess(sect0: seq<seq<Sector>>, sect: seq<seq<Sector>>, nc: nat, base: nat)
    requires SameBelow(sect0, sect, base) && nc <= base
    ensures SameBelow(sect0, sect, nc)
  {
  }

  /** The loop over rounds, with sizes that have been worked out before. */
  method AllRounds(w: World, b: BfsQueue, sizes: seq<int>)
    returns (done: bool, carry: int, ghost grown: seq<int>, ghost width: nat, ghost snaps: seq<Snapshot>)
    requires ReadyAt(w, b, w.p.di) && w.live == w.p.nc <= w.p.ni && w.p.Valid()
    requires |sizes| == w.p.ni / w.p.nc && forall k :: 0 <= k < |sizes| ==> sizes[k] >= 1
    requires w.curSeen + IslandCalls(w.p) < UINT_MAX
    modifies w`curSeen, w`sect, w`marks, w`live, w.own, w.adjLand, w.xzone, w.seen
    ensures ReadyAt(w, b, width) && (|sizes| > 0 ==> width == w.p.id)
    ensures w.curSeen <= old(w.curSeen) + IslandCalls(w.p)
    ensures SameBelow(old(w.sect), w.sect, w.p.nc)
    ensures done ==> BetweenRounds(w, b, sizes, carry, grown, width, snaps) && |grown| == |sizes|
    ensures !done ==> w.p.nc < w.live && b.closest.Length == w.own.Length == WorldSz() && NoPlace(w, b, w.live - 1)
  {
    hide WorldSz, ReadyAt, RoundsOk, SameBelow, Total, CallsPerRound, IslandCalls, BetweenRounds, NoPlace;
    NothingGrown(w, b, sizes);
    NoRoundsNoCalls(w.p);
    ReadyMeans(w, b, w.p.di);
    IslandsPerContinent(w.p);
    carry, grown, width, snaps := 0, [], w.p.di, [];
    var i := 0;
    while i < |sizes|
      invariant 0 <= i <= |sizes| && |grown| == i && (i > 0 ==> width == w.p.id)
      invariant BetweenRounds(w, b, sizes, carry, grown, width, snaps)
      invariant SameBelow(old(w.sect), w.sect, w.p.nc)
      invariant w.curSeen <= old(w.curSeen) + i * CallsPerRound(w.p) <= old(w.curSeen) + IslandCalls(w.p)
    {
      RoundAllowance(w.p, i);
      ghost var before := w.sect;
      var placed;
      placed, carry, grown, snaps := NextSize(w, b, sizes, i, carry, grown, width, snaps);
      width := w.p.id;
      SameBelowTwice(old(w.sect), before, w.sect, w.p.nc, w.p.nc);
      if !placed {
        ReadyMeans(w, b, width);
        return false, carry, grown, width, snaps;
      }
      i := i + 1;
    }
    ReadyBetween(w, b, sizes, carry, grown, width, snaps);
    done := true;
  }

  lemma ReadyBetween(w: World, b: BfsQueue, sizes: seq<int>, carry: int, grown: seq<int>, width: nat,
                     snaps: seq<Snapshot>)
    requires BetweenRounds(w, b, sizes, carry, grown, width, snaps)
    ensures ReadyAt(w, b, width)
  {
  }

  /** What holds after all rounds. */
  lemma RoundsDone(w: World, b: BfsQueue, sizes: seq<int>, carry: int, grown: seq<int>, width: nat,
                   snaps: seq<Snapshot>)
    requires BetweenRounds(w, b, sizes, carry, grown, width, snaps) && |grown| == |sizes| == w.p.ni / w.p.nc
    requires w.p.nc > 0 && w.p.ni == (w.p.ni / w.p.nc) * w.p.nc
    ensures w.live == w.p.nc + w.p.ni && RoundsOk(w.sect, w.p.nc, grown, w.p.isize, w.live)
    ensures carry >= 0 && Total(grown) + carry == Total(sizes)
    ensures GrownAsDue(w.p, sizes, grown, snaps, b.closest[..], w.sect)
  {
    hide ReadyAt, RoundsOk, Total, GrownAsDue;
    assert sizes[..|sizes|] == sizes;
  }

  lemma NothingGrown(w: World, b: BfsQueue, sizes: seq<int>)
    requires ReadyAt(w, b, w.p.di) && w.live == w.p.nc
    ensures BetweenRounds(w, b, sizes, 0, [], w.p.di, []) && SameBelow(w.sect, w.sect, w.p.nc)
  {
    hide LandOk, Ready, SpheresOk, InSpheres;
    ReadyMeans(w, b, w.p.di);
    NoRounds(w.sect, w.p.nc, w.p.isize);
  }

  lemma StuckMeans(w: World, b: BfsQueue, base: nat, secs: nat)
    ensures IslandStuck(w, b, base, secs) <==>
            SomeStuck(w.Value().own, w.marks, b.closest[..], w.p.nc, w.Value().sect, base, w.p.nc, secs)
  {
  }

  /** What one more round adds to the record of all rounds. */
  lemma RoundTold(w: World, b: BfsQueue, sizes: seq<int>, grown: seq<int>, snaps: seq<Snapshot>,
                  before: seq<seq<Sector>>, secs: nat, carry: int)
    requires ReadyAt(w, b, w.p.id) && w.live == w.p.nc + |grown| * w.p.nc + w.p.nc && |grown| < |sizes|
    requires GrownAsDue(w.p, sizes, grown, snaps, b.closest[..], before)
    requires SameBelow(before, w.sect, w.p.nc + |grown| * w.p.nc)
    requires carry == Total(sizes[..|grown| + 1]) - Total(grown)
    requires secs == Min(2 * w.p.isize, carry) || IslandStuck(w, b, w.p.nc + |grown| * w.p.nc, secs)
    ensures GrownAsDue(w.p, sizes, grown + [secs], snaps + [Snapshot(w.Value(), w.marks)], b.closest[..], w.sect)
  {
    hide WorldSz, ReadyAt, SameBelow, Total, GrownAsDue, IslandStuck, SnapshotOk, DueIn, SomeStuck;
    WholeGrown(sizes, grown);
    TakeSnapshot(w, b);
    StuckMeans(w, b, w.p.nc + |grown| * w.p.nc, secs);
    OneMore(|grown|, w.p.nc);
    OneMoreGrown(w.p, sizes, grown, snaps, b.closest[..], before, w.sect, secs, Snapshot(w.Value(), w.marks));
  }

  /** Sizes as size_islands promises them: largest first, each less than twice the average, which they add up to. */
  ghost predicate SizesDrawn(sizes: seq<int>, n: nat, size: nat) {
    && |sizes| == n && Total(sizes) == n * size && Descending(sizes)
    && forall k :: 0 <= k < n ==> 1 <= sizes[k] <= 2 * size - 1
  }

  /**
   grow_islands: returns false if there is no room for some island.  Otherwise,
   grown lists the sizes by round, and carry what could not be grown per continent.
   */
  method GrowIslands(w: World, b: BfsQueue)
    returns (done: bool, carry: int, ghost grown: seq<int>, ghost sizes: seq<int>, ghost snaps: seq<Snapshot>)
    requires Ready(w, b.closest, w.p.di) && b.Valid() && Apart(b, w) && w.live == w.p.nc <= w.p.ni
    requires WorldSz() * (2 * w.p.isize) <= INT_MAX
    requires w.curSeen + IslandCalls(w.p) < UINT_MAX
    modifies w`curSeen, w`sect, w`marks, w`live, w.own, w.adjLand, w.xzone, w.seen, b, b.closest, b.distance, b.queue
    ensures Ready(w, b.closest, w.p.id) && w.p.nc <= w.live && b.Valid()
    ensures w.curSeen <= old(w.curSeen) + IslandCalls(w.p)
    ensures SameBelow(old(w.sect), w.sect, w.p.nc)
    // Every island is in the sphere of influence of the continent it is for
    ensures InSpheres(w.sect, w.p.nc, w.live, b.closest[..]) && SpheresExact(w.own[..], w.p.nc, w.p.id, b.closest[..])
    ensures done ==> w.live == w.p.nc + w.p.ni && |grown| == w.p.ni / w.p.nc
    ensures done ==> RoundsOk(w.sect, w.p.nc, grown, w.p.isize, w.live)
    ensures done ==> carry >= 0 && Total(grown) + carry == (w.p.ni / w.p.nc) * w.p.isize
    // All rounds go by the sizes drawn
    ensures SizesDrawn(sizes, w.p.ni / w.p.nc, w.p.isize)
    ensures done ==> GrownAsDue(w.p, sizes, grown, snaps, b.closest[..], w.sect)
    ensures !done ==> w.p.nc < w.live && NoPlace(w, b, w.live - 1)
  {
    hide WorldSz, Ready, ReadyAt, RoundsOk, SpheresExact, InSpheres, SameBelow, Total, IslandCalls, LandOk, GrownAsDue,
         NoPlace, Descending, BetweenRounds;
    ReadyStarts(w, b);
    IslandsPerContinent(w.p);
    var isiz := SizeIslands(w.p.ni / w.p.nc, w.p.isize);
    sizes := isiz;
    FindSpheres(w, b);
    ghost var l := w.Value();
    ghost var width;
    done, carry, grown, width, snaps := AllRounds(w, b, isiz);
    if done {
      RoundsDone(w, b, isiz, carry, grown, width, snaps);
    }
    ReadyMeans(w, b, width);
    SpheresStayExact(l, w.Value(), w.p.nc, w.live, w.p.id, b.closest[..]);
  }

  lemma ReadyStarts(w: World, b: BfsQueue)
    requires Ready(w, b.closest, w.p.di) && w.live == w.p.nc
    ensures w.Valid() && w.p.Valid() && LandOk(w.Value(), w.p.nc)
  {
    hide LandOk;
  }

  lemma IslandsPerContinent(p: Params)
    requires p.Valid() && p.nc <= p.ni
    ensures p.ni / p.nc >= 1 && p.ni == (p.ni / p.nc) * p.nc
  {
  }

  lemma RoundAllowance(p: Params, i: nat)
    requires p.nc > 0 && i < p.ni / p.nc
    ensures (i + 1) * CallsPerRound(p) == i * CallsPerRound(p) + CallsPerRound(p) <= IslandCalls(p)
  {
    MulMonotonic(i + 1, p.ni / p.nc, CallsPerRound(p));
    OneMore(i, CallsPerRound(p));
  }

  lemma NoRoundsNoCalls(p: Params)
    ensures 0 * CallsPerRound(p) == 0
  {
  }

  lemma TotalStep(s: seq<int>, x: int)
    ensures Total(s + [x]) == Total(s) + x
  {
    assert (s + [x])[..|s|] == s;
  }

  lemma TotalPrefix(s: seq<int>, i: nat)
    requires i < |s|
    ensures Total(s[..i + 1]) == Total(s[..i]) + s[i]
  {
    assert s[..i + 1][..i] == s[..i];
  }
}
