/**
 A world in which the border pass of init_spheres_of_influence labels a sector
 that is equally close to two continents.

 The continents are the sectors 0,4 and 2,4, and 6,4 and 8,4.  Sector 3,1 is three
 sectors away from both.  Of its neighbours, those on the left are closest to the
 first continent, and the others are tied.
 */
module TieExample {
  import opened Arith
  import opened HexTorus
  import opened Bfs
  import opened Spheres

  function OwnerAt(x: int, y: int): int {
    if y != 4 then -1 else if x == 0 || x == 2 then 0 else if x == 6 || x == 8 then 1 else -1
  }

  function Owners(): (own: seq<int>)
    ensures |own| == WorldSz()
  {
    seq(WorldSz(), s requires 0 <= s < WorldSz() => OwnerAt(SctX(s), SctY(s)))
  }

  /** The world is large enough for the example not to meet itself. */
  ghost predicate Roomy() {
    WORLD_X >= 20 && WORLD_Y >= 10
  }

  /** Coordinates that occur in the example. */
  predicate Nearby(x: int, y: int) {
    0 <= x <= 8 && 0 <= y <= 4 && x % 2 == y % 2
  }

  lemma NearbyIsNormal(x: int, y: int)
    requires Roomy() && Nearby(x, y)
    ensures Normal(x, y) && SctX(XYOffset(x, y)) == x && SctY(XYOffset(x, y)) == y
    ensures Owners()[XYOffset(x, y)] == OwnerAt(x, y)
  {
    hide XYOffset, SctX, SctY, WorldSz;
    CoordinatesOfOffset(x, y);
  }

  function Steps(x: int, y: int, x': int, y': int): nat {
    HexNorm(Abs(x - x'), Abs(y - y'))
  }

  lemma DistNearby(x: int, y: int, x': int, y': int)
    requires Roomy() && Nearby(x, y) && Nearby(x', y')
    ensures Normal(x, y) && Normal(x', y') && Dist(XYOffset(x, y), XYOffset(x', y')) == Steps(x, y, x', y')
  {
    hide XYOffset, SctX, SctY, WorldSz, Delta;
    NearbyIsNormal(x, y);
    NearbyIsNormal(x', y');
  }

  lemma LandIs(q: Sector)
    requires Roomy()
    ensures Owners()[q] != -1 <==>
              q == XYOffset(0, 4) || q == XYOffset(2, 4) || q == XYOffset(6, 4) || q == XYOffset(8, 4)
  {
    hide XYOffset, SctX, SctY, WorldSz;
    SectorHasCoordinates(q);
    NearbyIsNormal(0, 4);
    NearbyIsNormal(2, 4);
    NearbyIsNormal(6, 4);
    NearbyIsNormal(8, 4);
  }

  /** A neighbour of an example sector, by its coordinates. */
  lemma NeighborIs(x: int, y: int, d: Dir)
    requires Roomy() && Nearby(x, y) && Nearby(x + DirX(d), y + DirY(d))
    ensures Normal(x, y) && Normal(x + DirX(d), y + DirY(d))
    ensures Neighbor(XYOffset(x, y), d) == XYOffset(x + DirX(d), y + DirY(d))
  {
    hide XYOffset, SctX, SctY, WorldSz, Neighbor, DirX, DirY;
    NearbyIsNormal(x, y);
    NearbyIsNormal(x + DirX(d), y + DirY(d));
    DirRange(d);
    NeighborCoordinates(XYOffset(x, y), d);
    SectorHasCoordinates(Neighbor(XYOffset(x, y), d));
  }

  /** All land is coastal. */
  lemma CoastIs(x: int)
    requires Roomy() && x in {0, 2, 6, 8}
    ensures Normal(x, 4) && Shore(Owners(), 2, XYOffset(x, 4))
  {
    hide XYOffset, SctX, SctY, WorldSz, Neighbor;
    NearbyIsNormal(x, 4);
    var d: Dir := if x == 0 then 1 else 6;
    NeighborIs(x, 4, d);
    NearbyIsNormal(x + DirX(d), 3);
  }

  function ToFirst(x: int, y: int): int {
    Min(Steps(0, 4, x, y), Steps(2, 4, x, y))
  }

  function ToSecond(x: int, y: int): int {
    Min(Steps(6, 4, x, y), Steps(8, 4, x, y))
  }

  /** How far the coasts are from a sector of the example. */
  lemma CoastsFrom(x: int, y: int, q: Sector)
    requires Roomy() && Nearby(x, y) && Shore(Owners(), 2, q)
    ensures Normal(x, y) && 0 <= Owners()[q] < 2
    ensures if Owners()[q] == 0
            then Dist(q, XYOffset(x, y)) == Steps(0, 4, x, y) || Dist(q, XYOffset(x, y)) == Steps(2, 4, x, y)
            else Dist(q, XYOffset(x, y)) == Steps(6, 4, x, y) || Dist(q, XYOffset(x, y)) == Steps(8, 4, x, y)
  {
    hide XYOffset, SctX, SctY, WorldSz, Neighbor, Dist, Steps;
    NearbyIsNormal(x, y);
    LandIs(q);
    NearbyIsNormal(0, 4);
    NearbyIsNormal(2, 4);
    NearbyIsNormal(6, 4);
    NearbyIsNormal(8, 4);
    DistNearby(0, 4, x, y);
    DistNearby(2, 4, x, y);
    DistNearby(6, 4, x, y);
    DistNearby(8, 4, x, y);
  }

  /** Some coastal sector of a continent is at the distance computed. */
  lemma NearestCoast(x: int, y: int, c: int) returns (q: Sector)
    requires Roomy() && Nearby(x, y) && (c == 0 || c == 1)
    ensures Normal(x, y) && Shore(Owners(), 2, q) && Owners()[q] == c
    ensures Dist(q, XYOffset(x, y)) == if c == 0 then ToFirst(x, y) else ToSecond(x, y)
  {
    hide XYOffset, SctX, SctY, WorldSz, Neighbor, Dist, Steps, Coastal;
    NearbyIsNormal(x, y);
    var qx := if c == 0 then (if Steps(0, 4, x, y) < Steps(2, 4, x, y) then 0 else 2)
              else (if Steps(6, 4, x, y) < Steps(8, 4, x, y) then 6 else 8);
    CoastIs(qx);
    NearbyIsNormal(qx, 4);
    q := XYOffset(qx, 4);
    DistNearby(qx, 4, x, y);
  }

  /** What the first pass leaves at a sector of the example. */
  lemma LabelAt(distance: seq<int>, closest: seq<int>, x: int, y: int)
    requires Roomy() && Nearby(x, y) && CoastDistances(Owners(), 2, distance, closest)
    ensures Normal(x, y) && distance[XYOffset(x, y)] == Min(ToFirst(x, y), ToSecond(x, y))
    ensures closest[XYOffset(x, y)] == if ToFirst(x, y) < ToSecond(x, y) then 0
                                       else if ToSecond(x, y) < ToFirst(x, y) then 1 else TIE
  {
    hide XYOffset, SctX, SctY, WorldSz, Neighbor, Dist, Steps, Shore;
    NearbyIsNormal(x, y);
    var s := XYOffset(x, y);
    var p := NearestCoast(x, y, 0);
    var q := NearestCoast(x, y, 1);
    forall r: Sector | Shore(Owners(), 2, r)
      ensures 0 <= Owners()[r] < 2
      ensures Dist(r, s) >= if Owners()[r] == 0 then ToFirst(x, y) else ToSecond(x, y)
    {
      CoastsFrom(x, y, r);
    }
    assert distance[s] <= Dist(p, s) && distance[s] <= Dist(q, s);
    assert distance[s] < USHRT_MAX;
    var r: Sector :| ShoreAt(Owners(), 2, distance, r, s);
    assert distance[s] == Min(ToFirst(x, y), ToSecond(x, y));
    assert ToFirst(x, y) <= ToSecond(x, y) ==> ShoreAt(Owners(), 2, distance, p, s);
    assert ToSecond(x, y) <= ToFirst(x, y) ==> ShoreAt(Owners(), 2, distance, q, s);
    assert closest[s] == 0 <==> NearestIs(Owners(), 2, distance, s, 0);
    assert closest[s] == 1 <==> NearestIs(Owners(), 2, distance, s, 1);
  }

  /** A sector at distance one is a neighbour. */
  lemma OneStepAway(s: Sector, q: Sector) returns (d: Dir)
    requires Dist(q, s) == 1
    ensures q == Neighbor(s, d)
  {
    hide Dist, Neighbor;
    DistZero(s, s);
    var e := DistDescent(q, s);
    DistZero(Neighbor(q, e), s);
    BackAndForth(q, e);
    d := DirBack(e);
  }

  /** No neighbour of 3,1 is closest to the second continent. */
  lemma NeighborsOfTie(distance: seq<int>, closest: seq<int>, d: Dir)
    requires Roomy() && CoastDistances(Owners(), 2, distance, closest)
    ensures Nearby(3, 1) && Normal(3, 1) && closest[Neighbor(XYOffset(3, 1), d)] in {0, TIE}
  {
    hide XYOffset, SctX, SctY, WorldSz, Neighbor, Dist, CoastDistances;
    NearbyIsNormal(3, 1);
    NeighborIs(3, 1, d);
    LabelAt(distance, closest, 3 + DirX(d), 1 + DirY(d));
    CoastSized(Owners(), 2, distance, closest);
  }

  /** Sector 1,1 is at the border of the first continent's sphere. */
  lemma BorderInExample(distance: seq<int>, closest: seq<int>)
    requires Roomy() && CoastDistances(Owners(), 2, distance, closest)
    ensures |distance| == |closest| == WorldSz() && Normal(1, 1) && Normal(3, 1)
    ensures closest[XYOffset(3, 1)] == TIE && distance[XYOffset(3, 1)] == 3
    ensures Border(distance, closest, 0, XYOffset(1, 1)) && Dist(XYOffset(1, 1), XYOffset(3, 1)) == 1
  {
    hide XYOffset, SctX, SctY, WorldSz, Neighbor, Dist, CoastDistances;
    CoastSized(Owners(), 2, distance, closest);
    LabelAt(distance, closest, 3, 1);
    LabelAt(distance, closest, 1, 1);
    NeighborIs(1, 1, 2);
    DistNearby(1, 1, 3, 1);
    assert closest[Neighbor(XYOffset(1, 1), 2)] != closest[XYOffset(1, 1)];
  }

  /**
   The comment at init_spheres_of_influence says that the label of a sector is -1
   if no single continent is closest.  Here, two are, and it is labelled with one
   of them.
   */
  lemma TieIsRelabelled(distance: seq<int>, closest: seq<int>, distance': seq<int>, closest': seq<int>)
    requires Roomy() && CoastDistances(Owners(), 2, distance, closest)
    requires BorderDistances(distance, closest, 0, distance', closest')
    ensures Normal(3, 1) && closest[XYOffset(3, 1)] == TIE && closest'[XYOffset(3, 1)] == 0
  {
    hide XYOffset, SctX, SctY, WorldSz, Neighbor, Dist, CoastDistances, Border, BorderDistances;
    BorderInExample(distance, closest);
    var s, q0 := XYOffset(3, 1), XYOffset(1, 1);
    forall q: Sector | ClosestBorder(distance, closest, 0, q, s)
      ensures closest[q] == 0
    {
      BorderIsLabelled(distance, closest, 0, q);
      DistZero(q, s);
      var d := OneStepAway(s, q);
      NeighborsOfTie(distance, closest, d);
    }
    assert BorderIsCloser(distance, closest, 0, s) && ClosestBordersAre(distance, closest, 0, s, 0);
    LabelOfTie(distance, closest, 0, distance', closest', s, 0);
  }

  lemma LabelOfTie(distance: seq<int>, closest: seq<int>, id: nat, distance': seq<int>, closest': seq<int>, s: Sector,
                   c: int)
    requires BorderDistances(distance, closest, id, distance', closest') && closest[s] == TIE && c != TIE
    requires BorderIsCloser(distance, closest, id, s) && ClosestBordersAre(distance, closest, id, s, c)
    ensures closest'[s] == c
  {
    hide NearestBorder, BorderIsCloser, ClosestBordersAre;
    assert TieOk(distance, closest, id, closest', s);
  }
}
