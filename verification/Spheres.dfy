/**
 Spheres of influence and the distance to the coast (bfs_enqueue_island,
 bfs_enqueue_border, init_spheres_of_influence, init_distance_to_coast).
 */
module Spheres {
  import opened HexTorus
  import opened Finite
  import opened Land
  import opened Bfs
  import opened Distances
  import opened World

  /** is_coastal tells for land sectors whether they are next to the sea. */
  ghost predicate Coastal(own: seq<int>, s: Sector)
    requires |own| == WorldSz()
  {
    own[s] != -1 && exists d: Dir :: own[Neighbor(s, d)] == -1
  }

  /** The queue holds coastal sectors, at distance 0 and labelled with their island; all others are far away. */
  ghost predicate Seeded(g: Search, own: seq<int>)
    requires |own| == WorldSz()
  {
    && g.Sized() && NoDups(g.pending)
    && (forall s | s in g.pending ::
          g.distance[s] == 0 && own[s] >= 0 && g.closest[s] == own[s] % 256 && Coastal(own, s))
    && (forall s: Sector | s !in g.pending :: g.distance[s] == USHRT_MAX && g.closest[s] == TIE)
  }

  /** The arrays of the search are not those of the world. */
  ghost predicate Apart(b: BfsQueue, w: World) {
    && b.closest as object !in {w.own as object, w.adjLand, w.xzone, w.seen}
    && b.distance as object !in {w.own as object, w.adjLand, w.xzone, w.seen}
    && b.queue as object !in {w.own as object, w.adjLand, w.xzone, w.seen}
  }

  /** is_coastal */
  method IsCoastal(w: World, s: Sector) returns (coastal: bool)
    requires w.Valid() && AdjacencyOk(w.own[..], w.adjLand[..])
    ensures coastal <==> exists d: Dir :: w.own[Neighbor(s, d)] == -1
  {
    hide Neighbor, Bit, OnlyDirs;
    assert OnlyDirs(w.adjLand[s]);
    FullSet(w.adjLand[s]);
    assert forall d: Dir :: Bit(w.adjLand[s], d) <==> w.own[..][Neighbor(s, d)] != -1;
    coastal := w.adjLand[s] != ALL_DIRS;
    if d: Dir :| !Bit(w.adjLand[s], d) {
      assert w.own[Neighbor(s, d)] == -1;
    }
    if d: Dir :| w.own[Neighbor(s, d)] == -1 {
      assert !Bit(w.adjLand[s], d);
    }
  }

  /** There is room for another coastal sector, because there is sea next to it. */
  lemma RoomForCoast(g: Search, own: seq<int>, s: Sector)
    requires |own| == WorldSz() && Seeded(g, own) && s !in g.pending && Coastal(own, s)
    ensures |g.pending| + 1 < WorldSz()
  {
    hide Neighbor;
    var d: Dir :| own[Neighbor(s, d)] == -1;
    NoDupsBounded(g.pending + [s, Neighbor(s, d)], WorldSz());
  }

  /** Lines 929-930: enqueue a sector if it is coastal. */
  method EnqueueIfCoastal(b: BfsQueue, w: World, c: nat, s: Sector)
    requires w.Valid() && b.Valid() && AdjacencyOk(w.own[..], w.adjLand[..]) && Apart(b, w)
    requires Seeded(b.Contents(), w.own[..]) && s !in b.pending && w.own[s] == c
    modifies b, b.closest, b.distance, b.queue
    ensures b.Valid() && Seeded(b.Contents(), w.own[..])
    ensures b.pending == old(b.pending) + if Coastal(w.own[..], s) then [s] else []
  {
    hide Neighbor, AdjacencyOk, Coastal, WorldSz, Seeded;
    ghost var own := w.own[..];
    CoastalLand(own, s);
    var coastal := IsCoastal(w, s);
    if coastal {
      RoomForCoast(b.Contents(), own, s);
      OneMoreSeed(b.Contents(), own, s);
      b.Enqueue(c % 256, s, 0);
    }
  }

  /** bfs_enqueue_island; closest holds a byte, so the island number is cut off. */
  method EnqueueIsland(b: BfsQueue, w: World, c: nat)
    requires w.Valid() && b.Valid() && LandOk(w.Value(), w.live) && c < w.live
    requires Apart(b, w)
    requires Seeded(b.Contents(), w.own[..]) && forall s | s in b.pending :: w.own[s] < c
    modifies b, b.closest, b.distance, b.queue
    ensures b.Valid() && Seeded(b.Contents(), w.own[..])
    ensures forall s: Sector :: s in b.pending <==> s in old(b.pending) || (Coastal(w.own[..], s) && w.own[s] == c)
  {
    ghost var own, before := w.own[..], b.pending;
    SectorsOf(w.Value(), w.live, c);
    hide *;
    assert w.sect[c][..0] == [];
    var i := 0;
    while i < |w.sect[c]|
      invariant 0 <= i <= |w.sect[c]|
      invariant b.Valid() && Seeded(b.Contents(), own)
      invariant forall s: Sector :: s in b.pending <==> s in before || (Coastal(own, s) && s in w.sect[c][..i])
    {
      OneMoreSector(w.sect[c], i);
      EnqueueIfCoastal(b, w, c, w.sect[c][i]);
      i := i + 1;
    }
    assert w.sect[c][..i] == w.sect[c];
  }

  lemma OneMoreSector(sect: seq<Sector>, i: nat)
    requires i < |sect| && NoDups(sect)
    ensures sect[..i + 1] == sect[..i] + [sect[i]] && sect[i] !in sect[..i]
  {
  }

  lemma SectorsOf(l: Land, live: nat, c: nat)
    requires LandOk(l, live) && c < live
    ensures c < |l.sect| && NoDups(l.sect[c]) && forall s: Sector :: s in l.sect[c] <==> l.own[s] == c
    ensures AdjacencyOk(l.own, l.adj) && |l.own| == WorldSz()
  {
    hide AdjacencyOk;
  }

  lemma OneMoreSeed(g: Search, own: seq<int>, s: Sector)
    requires |own| == WorldSz() && Seeded(g, own) && s !in g.pending && Coastal(own, s) && own[s] >= 0
    ensures g.distance[s] == USHRT_MAX && Seeded(Put(g, own[s] % 256, s, 0), own)
  {
    hide Coastal, WorldSz;
  }

  lemma CoastalLand(own: seq<int>, s: Sector)
    requires |own| == WorldSz() && own[s] != -1
    ensures Coastal(own, s) <==> exists d: Dir :: own[Neighbor(s, d)] == -1
  {
    hide Neighbor;
  }

  /** Coastal sectors of the first n islands. */
  ghost predicate Shore(own: seq<int>, n: int, q: Sector)
    requires |own| == WorldSz()
  {
    Coastal(own, q) && own[q] < n
  }

  /** bfs_init, and the loops over islands at lines 980-981 and 1000-1001. */
  method EnqueueIslands(b: BfsQueue, w: World, n: nat)
    requires w.Valid() && b.Valid() && LandOk(w.Value(), w.live) && n <= w.live && Apart(b, w)
    modifies b, b.closest, b.distance, b.queue
    ensures b.Valid() && Seeded(b.Contents(), w.own[..])
    ensures forall s: Sector :: s in b.pending <==> Shore(w.own[..], n, s)
  {
    hide Neighbor, LandOk, Coastal;
    b.Init();
    OwnersFrom(w.Value(), w.live);
    var c := 0;
    while c < n
      invariant 0 <= c <= n
      invariant b.Valid() && Seeded(b.Contents(), w.own[..])
      invariant forall s: Sector :: s in b.pending <==> Shore(w.own[..], c, s)
    {
      EnqueueIsland(b, w, c);
      c := c + 1;
    }
  }

  lemma OwnersFrom(l: Land, live: nat)
    requires LandOk(l, live)
    ensures forall s: Sector :: -1 <= l.own[s] && (Coastal(l.own, s) ==> l.own[s] >= 0)
  {
    hide Neighbor, AdjacencyOk;
  }

  /** distance is that to the nearest coastal sector of the first n islands, closest the only island that near. */
  ghost predicate CoastDistances(own: seq<int>, n: nat, distance: seq<int>, closest: seq<int>) {
    && |own| == |distance| == |closest| == WorldSz()
    && (forall s: Sector, q: Sector | Shore(own, n, q) :: distance[s] <= Dist(q, s))
    && (forall s: Sector :: distance[s] == USHRT_MAX || exists q: Sector :: ShoreAt(own, n, distance, q, s))
    && (forall s: Sector | (exists q: Sector :: Shore(own, n, q)) :: distance[s] < USHRT_MAX)
    && (n <= 255 ==> forall s: Sector, c: int | 0 <= c < n ::
          closest[s] == c <==> distance[s] < USHRT_MAX && NearestIs(own, n, distance, s, c))
    && (forall s: Sector | distance[s] == USHRT_MAX :: closest[s] == TIE)
    && (n <= 255 ==> forall s: Sector :: closest[s] == TIE || 0 <= closest[s] < n)
  }

  ghost predicate ShoreAt(own: seq<int>, n: nat, distance: seq<int>, q: Sector, s: Sector)
    requires |own| == |distance| == WorldSz()
  {
    Shore(own, n, q) && distance[s] == Dist(q, s)
  }

  ghost predicate NearestIs(own: seq<int>, n: nat, distance: seq<int>, s: Sector, c: int)
    requires |own| == |distance| == WorldSz()
  {
    forall q: Sector | ShoreAt(own, n, distance, q, s) :: own[q] == c
  }

  /** All sectors are reached unless there is no coast at all. */
  lemma AllReached(g0: Search, g: Search, own: seq<int>)
    requires |own| == WorldSz() && Seeded(g0, own) && Converged(g0, g) && g0.pending != []
    requires forall t: Sector :: g.distance[t] >= 0
    ensures Sound(g0, 0) && forall s: Sector :: Reached(g0, g.distance, s)
    ensures forall s: Sector :: g.distance[s] < USHRT_MAX
  {
    hide Converged, Neighbor, Dist, Coastal;
    SizedSearches(g0, g);
    var q := g0.pending[0];
    forall s: Sector ensures g.distance[s] < USHRT_MAX && Reached(g0, g.distance, s) {
      DistanceIsMinimum(g0, g, 0, s);
      DistBounded(q, s);
    }
  }

  /** A run from the coasts of the first n islands leaves the distance to the coast. */
  lemma FirstPass(g0: Search, g: Search, own: seq<int>, n: nat)
    requires |own| == WorldSz() && Seeded(g0, own) && Converged(g0, g)
    requires forall s: Sector :: s in g0.pending <==> Shore(own, n, s)
    requires forall t: Sector :: g.distance[t] >= 0
    ensures CoastDistances(own, n, g.distance, g.closest)
  {
    hide Converged, Neighbor, Dist, Coastal, Shore, NearestIs;
    SizedSearches(g0, g);
    if g0.pending == [] {
      NothingReached(g0, g, own);
    } else {
      var q0 := g0.pending[0];
      assert Shore(own, n, q0);
      AllReached(g0, g, own);
      forall s: Sector
        ensures forall q: Sector | Shore(own, n, q) :: g.distance[s] <= Dist(q, s)
        ensures exists q: Sector :: ShoreAt(own, n, g.distance, q, s)
      {
        DistanceIsMinimum(g0, g, 0, s);
        var q := Supported(g0, g, 0, s);
        assert ShoreAt(own, n, g.distance, q, s);
      }
      if n <= 255 {
        FirstPassLabels(g0, g, own, n);
      }
    }
  }

  lemma NothingReached(g0: Search, g: Search, own: seq<int>)
    requires |own| == WorldSz() && Seeded(g0, own) && Converged(g0, g) && g0.pending == []
    requires forall t: Sector :: g.distance[t] >= 0
    ensures forall s: Sector :: g.distance[s] == USHRT_MAX && g.closest[s] == TIE
  {
    hide Neighbor, Dist, Coastal;
    forall s: Sector ensures g.distance[s] == USHRT_MAX {
      if g.distance[s] < USHRT_MAX {
        var q := Supported(g0, g, 0, s);
        assert false;
      }
    }
  }

  lemma FirstPassLabels(g0: Search, g: Search, own: seq<int>, n: nat)
    requires |own| == WorldSz() && Seeded(g0, own) && Converged(g0, g) && g0.pending != [] && n <= 255
    requires forall s: Sector :: s in g0.pending <==> Shore(own, n, s)
    requires forall t: Sector :: g.distance[t] >= 0
    ensures forall s: Sector, c: int | 0 <= c < n :: g.closest[s] == c <==> NearestIs(own, n, g.distance, s, c)
    ensures forall s: Sector :: g.closest[s] == TIE || 0 <= g.closest[s] < n
  {
    hide Converged, Neighbor, Dist, Coastal, Smooth, NearestIs, Sound, Seeded, Supports, ShoreAt;
    SizedSearches(g0, g);
    AllReached(g0, g, own);
    forall s: Sector, c: int | c != TIE
      ensures g.closest[s] == c <==> NearestIs(own, n, g.distance, s, c)
    {
      LabelIsNearest(g0, g, 0, s, c);
      SameNearest(g0, g, own, n, s, c);
    }
    forall s: Sector ensures g.closest[s] == TIE || 0 <= g.closest[s] < n {
      LabelInRange(g0, g, own, n, s);
    }
  }

  lemma LabelInRange(g0: Search, g: Search, own: seq<int>, n: nat, s: Sector)
    requires |own| == WorldSz() && Seeded(g0, own) && Converged(g0, g) && g0.pending != [] && n <= 255
    requires forall s: Sector :: s in g0.pending <==> Shore(own, n, s)
    requires forall t: Sector :: g.distance[t] >= 0
    ensures g.Sized() && (g.closest[s] == TIE || 0 <= g.closest[s] < n)
  {
    hide Converged, Neighbor, Dist, Coastal, Smooth, Sound, Seeded;
    SizedSearches(g0, g);
    AllReached(g0, g, own);
    if g.closest[s] != TIE {
      LabelIsNearest(g0, g, 0, s, g.closest[s]);
      SameNearest(g0, g, own, n, s, g.closest[s]);
      var q := SomeShore(g0, g, own, n, s);
    }
  }

  lemma SameNearest(g0: Search, g: Search, own: seq<int>, n: nat, s: Sector, c: int)
    requires |own| == WorldSz() && Seeded(g0, own) && g.Sized() && n <= 255
    requires forall s: Sector :: s in g0.pending <==> Shore(own, n, s)
    ensures AllNearest(g0, g, 0, s, c) <==> NearestIs(own, n, g.distance, s, c)
  {
    hide Neighbor, Dist, Shore, WorldSz, Seeded;
    SeedLabel(g0, own, n, s);
    forall q: Sector
      ensures Supports(g0, g, 0, q, s) <==> ShoreAt(own, n, g.distance, q, s)
      ensures Supports(g0, g, 0, q, s) ==> g0.closest[q] == own[q]
    {
      SeedLabel(g0, own, n, q);
    }
  }

  lemma SeedLabel(g0: Search, own: seq<int>, n: nat, q: Sector)
    requires |own| == WorldSz() && Seeded(g0, own) && n <= 255
    requires q in g0.pending <==> Shore(own, n, q)
    ensures g0.Sized() && (q in g0.pending ==> g0.closest[q] == own[q])
  {
    hide Neighbor, WorldSz, Coastal;
  }

  lemma SomeShore(g0: Search, g: Search, own: seq<int>, n: nat, s: Sector) returns (q: Sector)
    requires |own| == WorldSz() && Seeded(g0, own) && Converged(g0, g) && g0.pending != []
    requires forall s: Sector :: s in g0.pending <==> Shore(own, n, s)
    requires forall t: Sector :: g.distance[t] >= 0
    ensures ShoreAt(own, n, g.distance, q, s) && 0 <= own[q] < n
  {
    hide Converged, Neighbor, Dist, Coastal, Smooth;
    AllReached(g0, g, own);
    SizedSearches(g0, g);
    q := Supported(g0, g, 0, s);
  }

  /** init_distance_to_coast */
  method InitDistanceToCoast(b: BfsQueue, w: World)
    requires w.Valid() && b.Valid() && LandOk(w.Value(), w.live) && w.live == w.p.nc + w.p.ni && Apart(b, w)
    modifies b, b.closest, b.distance, b.queue
    ensures b.Valid() && CoastDistances(w.own[..], w.live, b.distance[..], b.closest[..])
  {
    hide Neighbor, LandOk, Coastal, Converged, CoastDistances;
    EnqueueIslands(b, w, w.p.nc + w.p.ni);
    ghost var g0 := b.Contents();
    var order := b.RunQueue(0);
    FirstPass(g0, b.Contents(), w.own[..], w.live);
  }

  // The border pass

  /** s is at the border of a sphere of influence, and out of the islands' way. */
  ghost predicate Border(distance: seq<int>, closest: seq<int>, id: nat, s: Sector)
    requires |distance| == |closest| == WorldSz()
  {
    distance[s] > id + 1 && closest[s] != TIE && exists d: Dir :: closest[Neighbor(s, d)] != closest[s]
  }

  /** The queue holds the border sectors below n, now at distance id + 1. */
  ghost predicate BorderSeeded(g: Search, distance: seq<int>, closest: seq<int>, id: nat, n: int)
    requires |distance| == |closest| == WorldSz()
  {
    && g.Sized() && NoDups(g.pending) && g.closest == closest
    && (forall s: Sector :: s in g.pending <==> s < n && Border(distance, closest, id, s))
    && (forall s: Sector :: g.distance[s] == if s in g.pending then id + 1 else distance[s])
  }

  /** A labelled sector has a coast somewhere, which is not at the border. */
  lemma RoomForBorder(g: Search, own: seq<int>, nc: nat, distance: seq<int>, closest: seq<int>, id: nat, n: int,
                      s: Sector)
    requires CoastDistances(own, nc, distance, closest) && BorderSeeded(g, distance, closest, id, n)
    requires Border(distance, closest, id, s) && s !in g.pending
    ensures |g.pending| + 1 < WorldSz()
  {
    hide Neighbor, Dist, Shore, NearestIs;
    var q: Sector :| ShoreAt(own, nc, distance, q, s);
    DistZero(q, q);
    NoDupsBounded(g.pending + [s, q], WorldSz());
  }

  /** Lines 949-957: has a neighbour another label? */
  method AtBorder(b: BfsQueue, s: Sector) returns (border: bool)
    requires b.Valid()
    ensures border <==> exists d: Dir :: b.closest[Neighbor(s, d)] != b.closest[s]
  {
    hide Neighbor, WorldSz;
    border := false;
    var dir := 1;
    while dir <= 6 && !border
      invariant 1 <= dir <= 7
      invariant !border ==> forall d: Dir | d < dir :: b.closest[Neighbor(s, d)] == b.closest[s]
      invariant border ==> exists d: Dir :: b.closest[Neighbor(s, d)] != b.closest[s]
      decreases 7 - dir, !border
    {
      border := b.closest[Neighbor(s, dir)] != b.closest[s];
      dir := dir + 1;
    }
  }

  /** bfs_enqueue_border; sectors are visited by rows, i.e. in the order of their offsets. */
  method EnqueueBorder(b: BfsQueue, id: nat, ghost own: seq<int>, ghost nc: nat)
    requires b.Valid() && b.pending == [] && id + 1 < USHRT_MAX
    requires CoastDistances(own, nc, b.distance[..], b.closest[..])
    modifies b, b.closest, b.distance, b.queue
    ensures b.Valid() && BorderSeeded(b.Contents(), old(b.distance[..]), old(b.closest[..]), id, WorldSz())
  {
    hide Neighbor, CoastDistances, WorldSz, Border, BorderSeeded;
    ghost var distance, closest := b.distance[..], b.closest[..];
    NoSeeds(b.Contents(), id);
    var s := 0;
    while s < WorldSz()
      invariant 0 <= s <= WorldSz()
      invariant b.Valid() && BorderSeeded(b.Contents(), distance, closest, id, s)
    {
      SeededBelow(b.Contents(), distance, closest, id, s);
      var border := false;
      if b.distance[s] > id + 1 && b.closest[s] != TIE {
        border := AtBorder(b, s);
      }
      BorderIs(distance, closest, id, s);
      if border {
        assert b.Contents().closest == closest;
        RoomForBorder(b.Contents(), own, nc, distance, closest, id, s, s);
        b.Enqueue(b.closest[s], s, id + 1);
      }
      s := s + 1;
    }
  }

  lemma NoSeeds(g: Search, id: nat)
    requires g.Sized() && g.pending == []
    ensures BorderSeeded(g, g.distance, g.closest, id, 0)
  {
    hide Neighbor, WorldSz, Border;
  }

  lemma BorderIs(distance: seq<int>, closest: seq<int>, id: nat, s: Sector)
    requires |distance| == |closest| == WorldSz()
    ensures Border(distance, closest, id, s) <==>
              distance[s] > id + 1 && closest[s] != TIE && exists d: Dir :: closest[Neighbor(s, d)] != closest[s]
  {
  }

  /** Sector s has not been touched yet, and what enqueuing it, or not, leads to. */
  lemma SeededBelow(g: Search, distance: seq<int>, closest: seq<int>, id: nat, s: Sector)
    requires |distance| == |closest| == WorldSz() && BorderSeeded(g, distance, closest, id, s)
    ensures g.Sized() && g.distance[s] == distance[s] && g.closest == closest && s !in g.pending
    ensures !Border(distance, closest, id, s) ==> BorderSeeded(g, distance, closest, id, s + 1)
    ensures Border(distance, closest, id, s) ==>
              id + 1 < distance[s] && BorderSeeded(Put(g, closest[s], s, id + 1), distance, closest, id, s + 1)
  {
    BorderIs(distance, closest, id, s);
    hide Neighbor, WorldSz, Border;
  }

  /**
   After the border pass, distance is that to the coast, or id + 1 more than
   that to the nearest border sector, whichever is smaller.  Unique labels stay.
   A sector closest to several continents gets a label after all when the border
   is closer, and all border sectors nearest to it are of the same sphere.
   */
  ghost predicate BorderDistances(distance0: seq<int>, closest0: seq<int>, id: nat, distance: seq<int>,
                                  closest: seq<int>)
  {
    && |distance0| == |closest0| == |distance| == |closest| == WorldSz()
    && (forall s: Sector :: NearestBorder(distance0, closest0, id, distance, s))
    && LabelsStay(closest0, closest)
    && TiesOk(distance0, closest0, id, closest)
  }

  ghost predicate LabelsStay(closest0: seq<int>, closest: seq<int>)
    requires |closest0| == |closest| == WorldSz()
  {
    forall s: Sector | closest0[s] != TIE :: closest[s] == closest0[s]
  }

  ghost predicate TiesOk(distance0: seq<int>, closest0: seq<int>, id: nat, closest: seq<int>)
    requires |distance0| == |closest0| == |closest| == WorldSz()
  {
    forall s: Sector | closest0[s] == TIE :: TieOk(distance0, closest0, id, closest, s)
  }

  /** A tied sector is labelled c exactly when the border is closer, and its nearest border sectors are all c's. */
  ghost predicate TieOk(distance0: seq<int>, closest0: seq<int>, id: nat, closest: seq<int>, s: Sector)
    requires |distance0| == |closest0| == |closest| == WorldSz()
  {
    && (closest[s] != TIE ==>
          BorderIsCloser(distance0, closest0, id, s) && ClosestBordersAre(distance0, closest0, id, s, closest[s]))
    && (BorderIsCloser(distance0, closest0, id, s) ==>
          forall c: int | c != TIE && ClosestBordersAre(distance0, closest0, id, s, c) :: closest[s] == c)
  }

  /** Some border sector is nearer to s than the coast, counting from distance id + 1. */
  ghost predicate BorderIsCloser(distance0: seq<int>, closest0: seq<int>, id: nat, s: Sector)
    requires |distance0| == |closest0| == WorldSz()
  {
    exists q: Sector :: Border(distance0, closest0, id, q) && id + 1 + Dist(q, s) < distance0[s]
  }

  ghost predicate ClosestBorder(distance0: seq<int>, closest0: seq<int>, id: nat, q: Sector, s: Sector)
    requires |distance0| == |closest0| == WorldSz()
  {
    && Border(distance0, closest0, id, q)
    && forall r: Sector | Border(distance0, closest0, id, r) :: Dist(q, s) <= Dist(r, s)
  }

  /** The border sectors nearest to s all belong to the sphere of c. */
  ghost predicate ClosestBordersAre(distance0: seq<int>, closest0: seq<int>, id: nat, s: Sector, c: int)
    requires |distance0| == |closest0| == WorldSz()
  {
    forall q: Sector | ClosestBorder(distance0, closest0, id, q, s) :: closest0[q] == c
  }

  /** distance is the smaller of distance0 and id + 1 more than that to the nearest border sector. */
  ghost predicate NearestBorder(distance0: seq<int>, closest0: seq<int>, id: nat, distance: seq<int>, s: Sector)
    requires |distance0| == |closest0| == |distance| == WorldSz()
  {
    && distance[s] <= distance0[s]
    && (forall q: Sector | Border(distance0, closest0, id, q) :: distance[s] <= id + 1 + Dist(q, s))
    && (distance[s] < distance0[s] ==> exists q: Sector :: BorderAt(distance0, closest0, id, distance, q, s))
  }

  ghost predicate BorderAt(distance0: seq<int>, closest0: seq<int>, id: nat, distance: seq<int>, q: Sector, s: Sector)
    requires |distance0| == |closest0| == |distance| == WorldSz()
  {
    Border(distance0, closest0, id, q) && distance[s] == id + 1 + Dist(q, s)
  }

  lemma CoastSmooth(own: seq<int>, nc: nat, distance: seq<int>, closest: seq<int>, s: Sector, d: Dir)
    requires CoastDistances(own, nc, distance, closest)
    ensures distance[Neighbor(s, d)] <= distance[s] + 1
    ensures 0 <= distance[s]
  {
    hide Neighbor, Dist, Shore, NearestIs;
    if q: Sector :| ShoreAt(own, nc, distance, q, s) {
      DistStep(s, d, q);
      DistSymmetric(s, q);
      DistSymmetric(Neighbor(s, d), q);
    } else if q: Sector :| ShoreAt(own, nc, distance, q, Neighbor(s, d)) {
    }
  }

  lemma CoastSized(own: seq<int>, nc: nat, distance: seq<int>, closest: seq<int>)
    requires CoastDistances(own, nc, distance, closest)
    ensures |own| == |distance| == |closest| == WorldSz()
  {
  }

  lemma BorderSound(g: Search, own: seq<int>, nc: nat, distance: seq<int>, closest: seq<int>, id: nat)
    requires CoastDistances(own, nc, distance, closest) && BorderSeeded(g, distance, closest, id, WorldSz())
    ensures Sound(g, id + 1)
  {
    hide Neighbor, CoastDistances, Border;
    CoastSized(own, nc, distance, closest);
    forall s: Sector, d: Dir
      ensures distance[Neighbor(s, d)] <= distance[s] + 1 && 0 <= distance[s]
    {
      CoastSmooth(own, nc, distance, closest, s, d);
    }
    forall s: Sector ensures g.distance[s] <= distance[s] && g.distance[s] >= 0 {
      assert 0 <= distance[s] by { var d: Dir := 1; assert distance[Neighbor(s, d)] <= distance[s] + 1; }
      BorderIsFar(distance, closest, id, s);
    }
  }

  lemma BorderIsLabelled(distance: seq<int>, closest: seq<int>, id: nat, s: Sector)
    requires |distance| == |closest| == WorldSz() && Border(distance, closest, id, s)
    ensures closest[s] != TIE
  {
  }

  lemma BorderIsFar(distance: seq<int>, closest: seq<int>, id: nat, s: Sector)
    requires |distance| == |closest| == WorldSz()
    ensures Border(distance, closest, id, s) ==> id + 1 < distance[s]
  {
  }

  /** The border pass does not relabel sectors that had a unique label. */
  lemma {:induction false} LabelStays(g0: Search, g: Search, distance: seq<int>, closest: seq<int>, id: nat, s: Sector)
    requires |distance| == |closest| == WorldSz() && BorderSeeded(g0, distance, closest, id, WorldSz())
    requires Sound(g0, id + 1) && Converged(g0, g) && forall t: Sector :: g.distance[t] >= 0
    requires closest[s] != TIE
    ensures g.closest[s] == closest[s]
    decreases g.distance[s]
  {
    hide Converged, Neighbor, Dist, Sound;
    SizedSearches(g0, g);
    var edges := EdgesFrom(g0, g.distance);
    forall e: Edge | e in edges && Tip(e) == s && Tight(g.distance, e)
      ensures g.closest[e.0] == closest[s]
    {
      SameSphere(g0, g, distance, closest, id, e);
      LabelStays(g0, g, distance, closest, id, e.0);
    }
    LabelIfUnanimous(g0, g, s);
  }

  lemma LabelIfUnanimous(g0: Search, g: Search, s: Sector)
    requires Converged(g0, g) && Unanimous(g.distance, g.closest, EdgesFrom(g0, g.distance), s, g0.closest[s])
    requires g0.closest[s] != TIE
    ensures g.closest[s] == g0.closest[s]
  {
    hide EdgesOk, Unanimous, EdgesFrom;
  }

  /** The border pass gets to labelled sectors only from sectors with the same label. */
  lemma SameSphere(g0: Search, g: Search, distance: seq<int>, closest: seq<int>, id: nat, e: Edge)
    requires |distance| == |closest| == WorldSz() && BorderSeeded(g0, distance, closest, id, WorldSz())
    requires Sound(g0, id + 1) && Converged(g0, g) && forall t: Sector :: g.distance[t] >= 0
    requires Reached(g0, g.distance, e.0) && Tight(g.distance, e) && closest[Tip(e)] != TIE
    ensures closest[e.0] == closest[Tip(e)]
  {
    hide Converged, Neighbor, Dist, Smooth;
    var s := Tip(e);
    var q := Supported(g0, g, id + 1, e.0);
    BackAndForth(e.0, e.1);
    DistanceIsMinimum(g0, g, id + 1, s);
    SizedSearches(g0, g);
    assert g.distance[s] >= id + 2;
    assert forall d: Dir :: closest[Neighbor(s, d)] == closest[s];
  }

  lemma SecondPassDistance(g0: Search, g: Search, distance: seq<int>, closest: seq<int>, id: nat, s: Sector)
    requires |distance| == |closest| == WorldSz() && BorderSeeded(g0, distance, closest, id, WorldSz())
    requires Sound(g0, id + 1) && Converged(g0, g) && forall t: Sector :: g.distance[t] >= 0
    ensures g.Sized() && NearestBorder(distance, closest, id, g.distance, s)
  {
    hide Converged, Neighbor, Dist, Sound, Border;
    SizedSearches(g0, g);
    DistanceIsMinimum(g0, g, id + 1, s);
    BorderIsFar(distance, closest, id, s);
    DistZero(s, s);
    if g.distance[s] == g0.distance[s] && s in g0.pending {
      assert BorderAt(distance, closest, id, g.distance, s, s);
    } else if g.distance[s] < g0.distance[s] {
      var q: Sector :| Supports(g0, g, id + 1, q, s);
      assert BorderAt(distance, closest, id, g.distance, q, s);
    }
  }

  lemma CloserMeansImproved(distance0: seq<int>, closest0: seq<int>, id: nat, distance: seq<int>, s: Sector)
    requires |distance0| == |closest0| == |distance| == WorldSz() && NearestBorder(distance0, closest0, id, distance, s)
    ensures BorderIsCloser(distance0, closest0, id, s) <==> distance[s] < distance0[s]
  {
    hide Dist, Border;
    if distance[s] < distance0[s] {
      var q: Sector :| BorderAt(distance0, closest0, id, distance, q, s);
    }
  }

  lemma ImprovedByClosest(distance0: seq<int>, closest0: seq<int>, id: nat, distance: seq<int>, q: Sector, s: Sector)
    requires |distance0| == |closest0| == |distance| == WorldSz() && NearestBorder(distance0, closest0, id, distance, s)
    requires distance[s] < distance0[s]
    ensures BorderAt(distance0, closest0, id, distance, q, s) <==> ClosestBorder(distance0, closest0, id, q, s)
  {
    hide Dist, Border;
    var p: Sector :| BorderAt(distance0, closest0, id, distance, p, s);
  }

  /**
   When a sector that had no unique label gets one: exactly when the border is
   closer than the coast, and the border sectors nearest to it are all of the same
   sphere.
   */
  lemma {:induction false} Relabelled(g0: Search, g: Search, distance: seq<int>, closest: seq<int>, id: nat, s: Sector,
                                      c: int)
    requires |distance| == |closest| == WorldSz() && BorderSeeded(g0, distance, closest, id, WorldSz())
    requires Sound(g0, id + 1) && Converged(g0, g) && forall t: Sector :: g.distance[t] >= 0
    requires closest[s] == TIE && c != TIE
    ensures g.Sized()
    ensures g.closest[s] == c <==>
              BorderIsCloser(distance, closest, id, s) && ClosestBordersAre(distance, closest, id, s, c)
  {
    hide Converged, Neighbor, Dist, Sound, NearestBorder, ClosestBorder, BorderIsCloser;
    SizedSearches(g0, g);
    SecondPassDistance(g0, g, distance, closest, id, s);
    CloserMeansImproved(distance, closest, id, g.distance, s);
    if g.distance[s] < distance[s] {
      LabelIsNearest(g0, g, id + 1, s, c);
      forall q: Sector
        ensures Supports(g0, g, id + 1, q, s) <==> ClosestBorder(distance, closest, id, q, s)
      {
        ImprovedByClosest(distance, closest, id, g.distance, q, s);
      }
    } else {
      TieStays(g0, g, s);
    }
  }

  lemma TieStays(g0: Search, g: Search, s: Sector)
    requires Converged(g0, g) && g0.closest[s] == TIE && g.distance[s] >= g0.distance[s]
    ensures g.closest[s] == TIE
  {
    hide EdgesOk, Unanimous;
  }

  lemma SecondPass(g0: Search, g: Search, distance: seq<int>, closest: seq<int>, id: nat)
    requires |distance| == |closest| == WorldSz() && BorderSeeded(g0, distance, closest, id, WorldSz())
    requires Sound(g0, id + 1) && Converged(g0, g) && forall t: Sector :: g.distance[t] >= 0
    ensures BorderDistances(distance, closest, id, g.distance, g.closest)
  {
    hide Converged, Neighbor, Sound, TiesOk, NearestBorder, BorderSeeded;
    TiesResolved(g0, g, distance, closest, id);
    forall s: Sector
      ensures NearestBorder(distance, closest, id, g.distance, s)
    {
      SecondPassDistance(g0, g, distance, closest, id, s);
    }
    forall s: Sector | closest[s] != TIE
      ensures g.closest[s] == closest[s]
    {
      LabelStays(g0, g, distance, closest, id, s);
    }
  }

  lemma TiesResolved(g0: Search, g: Search, distance: seq<int>, closest: seq<int>, id: nat)
    requires |distance| == |closest| == WorldSz() && BorderSeeded(g0, distance, closest, id, WorldSz())
    requires Sound(g0, id + 1) && Converged(g0, g) && forall t: Sector :: g.distance[t] >= 0
    ensures g.Sized() && TiesOk(distance, closest, id, g.closest)
  {
    hide Converged, Neighbor, Sound, TieOk;
    SizedSearches(g0, g);
    forall s: Sector | closest[s] == TIE
      ensures TieOk(distance, closest, id, g.closest, s)
    {
      TieResolved(g0, g, distance, closest, id, s);
    }
  }

  lemma TieResolved(g0: Search, g: Search, distance: seq<int>, closest: seq<int>, id: nat, s: Sector)
    requires |distance| == |closest| == WorldSz() && BorderSeeded(g0, distance, closest, id, WorldSz())
    requires Sound(g0, id + 1) && Converged(g0, g) && forall t: Sector :: g.distance[t] >= 0
    requires closest[s] == TIE
    ensures g.Sized() && TieOk(distance, closest, id, g.closest, s)
  {
    hide Converged, Neighbor, Sound, ClosestBordersAre, BorderIsCloser;
    SizedSearches(g0, g);
    if g.closest[s] != TIE {
      Relabelled(g0, g, distance, closest, id, s, g.closest[s]);
    }
    forall c: int | c != TIE && BorderIsCloser(distance, closest, id, s)
                    && ClosestBordersAre(distance, closest, id, s, c)
      ensures g.closest[s] == c
    {
      Relabelled(g0, g, distance, closest, id, s, c);
    }
  }

  /** The comment's promise, label -1 where no single continent is closest, is kept exactly in these cases. */
  lemma TieKeptExactlyWhen(distance0: seq<int>, closest0: seq<int>, id: nat, distance: seq<int>, closest: seq<int>,
                           s: Sector)
    requires BorderDistances(distance0, closest0, id, distance, closest) && closest0[s] == TIE
    ensures closest[s] == TIE
            <==> !BorderIsCloser(distance0, closest0, id, s)
                 || forall c: int | c != TIE :: !ClosestBordersAre(distance0, closest0, id, s, c)
  {
    hide NearestBorder, BorderIsCloser, ClosestBordersAre;
    assert TieOk(distance0, closest0, id, closest, s);
  }

  /** init_spheres_of_influence */
  method InitSpheres(b: BfsQueue, w: World) returns (ghost distance0: seq<int>, ghost closest0: seq<int>)
    requires w.Valid() && b.Valid() && LandOk(w.Value(), w.live) && w.p.nc <= w.live && Apart(b, w)
    modifies b, b.closest, b.distance, b.queue
    ensures b.Valid()
    ensures CoastDistances(w.own[..], w.p.nc, distance0, closest0)
    ensures BorderDistances(distance0, closest0, w.p.id, b.distance[..], b.closest[..])
  {
    hide Neighbor, LandOk, Coastal, Converged, CoastDistances, BorderDistances, BorderSeeded, Sound;
    EnqueueIslands(b, w, w.p.nc);
    ghost var g0 := b.Contents();
    var order := b.RunQueue(0);
    FirstPass(g0, b.Contents(), w.own[..], w.p.nc);
    distance0, closest0 := b.distance[..], b.closest[..];
    QueueEmptied(g0, b.Contents());
    EnqueueBorder(b, w.p.id, w.own[..], w.p.nc);
    g0 := b.Contents();
    BorderSound(g0, w.own[..], w.p.nc, distance0, closest0, w.p.id);
    SoundStarts(g0, w.p.id + 1);
    order := b.RunQueue(w.p.id + 1);
    SecondPass(g0, b.Contents(), distance0, closest0, w.p.id);
  }

  lemma QueueEmptied(g0: Search, g: Search)
    requires Converged(g0, g)
    ensures g.pending == []
  {
  }

  lemma SoundStarts(g: Search, k: nat)
    requires Sound(g, k)
    ensures Start(g, k)
  {
  }
}
