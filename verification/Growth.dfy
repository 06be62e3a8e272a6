/**
 Growing islands sector by sector (grow_weight, grow_one_sector).
 */
module Growth {
  import opened HexTorus
  import opened Finite
  import opened Land
  import opened Zones
  import opened Bfs
  import opened Chance
  import opened Sampling
  import opened World

  const UINT_MAX: int := 0xffffffff
  const INT_MAX: int := 0x7fffffff

  /** How likely a sector with n land neighbours is chosen. */
  function Weight(n: nat, spike: bool): nat
    requires n <= 6
  {
    if spike then (6 - n) * (6 - n) else n * n * n
  }

  lemma WeightBounded(n: nat, spike: bool)
    requires n <= 6
    ensures Weight(n, spike) <= 216
  {
    assert n == 0 || n == 1 || n == 2 || n == 3 || n == 4 || n == 5 || n == 6;
  }

  /** grow_weight */
  method GrowWeight(w: World, s: Sector, spike: bool) returns (weight: nat)
    requires w.Valid() && OnlyDirs(w.adjLand[s])
    requires exists d: Dir :: Bit(w.adjLand[s], d)
    ensures weight == Weight(Count(w.adjLand[s]), spike)
  {
    hide Count, OnlyDirs, Bit;
    SomethingCounted(w.adjLand[s]);
    var n := 0;
    var b := w.adjLand[s];
    while b != 0
      invariant OnlyDirs(b) && n + Count(b) == Count(w.adjLand[s])
      decreases Count(b)
    {
      ClearLowest(b);
      b := b & (b - 1);
      n := n + 1;
    }
    assert 0 < n < 7;
    if spike {
      return (6 - n) * (6 - n);
    }
    return n * n * n;
  }

  /** The sea sectors next to island sectors, as far as the loop has got. */
  ghost function SeaScanned(own: seq<int>, sect: seq<Sector>, i: int, dir: int): set<Sector>
    requires |own| == WorldSz()
  {
    set j: int, d: Dir | 0 <= j < |sect| && 1 <= d <= 6 && (j < i || (j == i && d < dir))
                         && own[Neighbor(sect[j], d)] == -1 :: Neighbor(sect[j], d)
  }

  lemma ScanOne(own: seq<int>, sect: seq<Sector>, i: nat, dir: Dir)
    requires |own| == WorldSz() && i < |sect|
    ensures var n := Neighbor(sect[i], dir);
            SeaScanned(own, sect, i, dir + 1) == SeaScanned(own, sect, i, dir) + if own[n] == -1 then {n} else {}
  {
    hide Neighbor;
  }

  lemma ScanRow(own: seq<int>, sect: seq<Sector>, i: nat)
    requires |own| == WorldSz() && i < |sect|
    ensures SeaScanned(own, sect, i, 7) == SeaScanned(own, sect, i + 1, 1)
  {
    hide Neighbor;
  }

  /** What grow_one_sector draws from: candidates, their weights and the rolls. */
  datatype Draw = Draw(cands: seq<Sector>, weights: seq<nat>, rolls: seq<int>) {
    ghost predicate Ok() {
      |cands| == |weights| && RollsOk(weights, rolls) && NoDups(cands)
    }

    /** The sector drawn so far, -1 if none. */
    ghost function Chosen(): int
      requires Ok()
    {
      var i := Choose(weights, rolls);
      if i < 0 then -1 else cands[i]
    }

    ghost function Add(s: Sector, weight: nat, roll: int): Draw {
      Draw(cands + [s], weights + [weight], rolls + [roll])
    }
  }

  lemma AddToDraw(d: Draw, s: Sector, weight: nat, roll: int)
    requires d.Ok() && s !in d.cands && RollOk(Sum(d.weights) + weight, roll)
    ensures d.Add(s, weight, roll).Ok()
    ensures Sum(d.Add(s, weight, roll).weights) == Sum(d.weights) + weight
    ensures d.Add(s, weight, roll).Chosen() == if roll < weight then s else d.Chosen()
  {
    var d' := d.Add(s, weight, roll);
    assert d'.weights[..|d'.weights| - 1] == d.weights;
    assert d'.rolls[..|d'.rolls| - 1] == d.rolls;
  }

  /** The weights are those of the candidates. */
  ghost predicate WeightsOk(d: Draw, adj: seq<bv8>, spike: bool)
    requires |adj| == WorldSz() && |d.cands| == |d.weights|
  {
    forall i :: 0 <= i < |d.cands| ==> d.weights[i] == Weight(Count(adj[d.cands[i]]), spike)
  }

  lemma {:induction false} SumBounded(ws: seq<nat>, bound: nat)
    requires forall i :: 0 <= i < |ws| ==> ws[i] <= bound
    ensures Sum(ws) <= bound * |ws|
  {
    if ws != [] {
      SumBounded(ws[..|ws| - 1], bound);
      assert bound * (|ws| - 1) + bound == bound * |ws|;
    }
  }

  /** The sum of weights never overflows an int when the world is not too large. */
  lemma NoOverflow(d: Draw, adj: seq<bv8>, spike: bool, s: Sector)
    requires |adj| == WorldSz() && d.Ok() && WeightsOk(d, adj, spike) && s !in d.cands
    requires 216 * WorldSz() < INT_MAX
    ensures Sum(d.weights) < INT_MAX - 216
  {
    hide WorldSz;
    forall i | 0 <= i < |d.weights| ensures d.weights[i] <= 216 {
      WeightBounded(Count(adj[d.cands[i]]), spike);
    }
    SumBounded(d.weights, 216);
    NoDupsBounded(d.cands + [s], WorldSz());
  }

  /** Sectors seen in this round are marked with cur_seen. */
  ghost predicate SeenOk(w: World, scanned: set<Sector>)
    reads w, w.seen
    requires w.Valid()
  {
    forall t: Sector :: w.seen[t] <= w.curSeen && (w.seen[t] == w.curSeen <==> t in scanned)
  }

  /** draw, wsum and new account for all sectors scanned so far. */
  ghost predicate DrawOk(w: World, c: nat, closest: array<NatId>, spike: bool, scanned: set<Sector>,
                         draw: Draw, wsum: nat, at: int)
    reads w, w.own, w.adjLand, w.xzone, closest
    requires w.Valid() && closest.Length == WorldSz()
  {
    && draw.Ok() && WeightsOk(draw, w.adjLand[..], spike)
    && wsum == Sum(draw.weights) && at == draw.Chosen()
    && forall t: Sector :: t in draw.cands <==> t in scanned && w.CanGrowAt(c, t, closest)
  }

  /** Lines 1098-1110: consider the sea sector n. */
  method Consider(w: World, c: nat, n: Sector, closest: array<NatId>, spike: bool, wsum: nat, at: int,
                  ghost scanned: set<Sector>, ghost draw: Draw)
    returns (wsum': nat, at': int, ghost draw': Draw)
    requires w.Valid() && closest.Length == WorldSz() && closest as object != w.seen
    requires OnlyDirs(w.adjLand[n]) && exists d: Dir :: Bit(w.adjLand[n], d)
    requires SeenOk(w, scanned) && DrawOk(w, c, closest, spike, scanned, draw, wsum, at)
    requires 216 * WorldSz() < INT_MAX
    modifies w.seen
    ensures SeenOk(w, scanned + {n}) && DrawOk(w, c, closest, spike, scanned + {n}, draw', wsum', at')
  {
    hide WorldSz, Bit, OnlyDirs, Count, Choose, RollsOk, Sum;
    wsum', at', draw' := wsum, at, draw;
    if w.seen[n] == w.curSeen {
      assert scanned + {n} == scanned;
      return;
    }
    assert w.seen[n] < w.curSeen;
    w.seen[n] := w.curSeen;
    if !w.CanGrowAt(c, n, closest) {
      return;
    }
    var weight := GrowWeight(w, n, spike);
    WeightBounded(Count(w.adjLand[n]), spike);
    NoOverflow(draw, w.adjLand[..], spike, n);
    assert wsum < INT_MAX - weight;
    wsum' := wsum + weight;
    var roll := Roll0(wsum');
    AddToDraw(draw, n, weight, roll);
    draw' := draw.Add(n, weight, roll);
    if roll < weight {
      at' := n;
    }
  }

  lemma AllScanned(own: seq<int>, sect: seq<Sector>, t: Sector)
    requires |own| == WorldSz()
    ensures t in SeaScanned(own, sect, |sect|, 1) <==> own[t] == -1 && exists s :: s in sect && Adjacent(s, t)
  {
    hide Neighbor;
    if t in SeaScanned(own, sect, |sect|, 1) {
      var j, d: Dir :| 0 <= j < |sect| && own[Neighbor(sect[j], d)] == -1 && Neighbor(sect[j], d) == t;
      assert sect[j] in sect && Adjacent(sect[j], t);
    }
    if own[t] == -1 && exists s :: s in sect && Adjacent(s, t) {
      var s :| s in sect && Adjacent(s, t);
      var j :| 0 <= j < |sect| && sect[j] == s;
      var d: Dir :| Neighbor(s, d) == t;
      assert Neighbor(sect[j], d) == t;
    }
  }

  /** A neighbour of land has a land neighbour, says adj_land. */
  lemma HasLandNeighbor(own: seq<int>, adj: seq<bv8>, s: Sector, d: Dir)
    requires |own| == |adj| == WorldSz() && AdjacencyOk(own, adj) && own[s] != -1
    ensures OnlyDirs(adj[Neighbor(s, d)]) && Bit(adj[Neighbor(s, d)], DirBack(d))
    ensures Bit(adj[s], d) <==> own[Neighbor(s, d)] != -1
  {
    hide Neighbor, Bit, OnlyDirs;
    BackAndForth(s, d);
  }

  /** Scanning all neighbours of the island (lines 1087-1112). */
  method ScanIsland(w: World, c: nat, closest: array<NatId>, spike: bool)
    returns (wsum: nat, at: int, ghost draw: Draw)
    requires w.Valid() && closest.Length == WorldSz() && closest as object != w.seen
    requires LandOk(w.Value(), w.live) && c < w.live
    requires SeenOk(w, {}) && 216 * WorldSz() < INT_MAX
    modifies w.seen
    ensures SeenOk(w, SeaScanned(w.own[..], w.sect[c], |w.sect[c]|, 1))
    ensures DrawOk(w, c, closest, spike, SeaScanned(w.own[..], w.sect[c], |w.sect[c]|, 1), draw, wsum, at)
  {
    hide WorldSz, Neighbor, Bit, OnlyDirs, Choose, RollsOk, Sum, AdjacencyOk, SeaScanned, DrawOk, WeightsOk;
    wsum, at, draw := 0, -1, Draw([], [], []);
    ghost var scanned: set<Sector> := {};
    ghost var own, sect := w.own[..], w.sect[c];
    NothingScanned(w, c, closest, spike, own, sect);
    var i := 0;
    while i < |w.sect[c]|
      invariant 0 <= i <= |w.sect[c]|
      invariant scanned == SeaScanned(own, sect, i, 1)
      invariant SeenOk(w, scanned) && DrawOk(w, c, closest, spike, scanned, draw, wsum, at)
    {
      var s := w.sect[c][i];
      var dir := 1;
      while dir <= 6
        invariant 1 <= dir <= 7
        invariant scanned == SeaScanned(own, sect, i, dir)
        invariant SeenOk(w, scanned) && DrawOk(w, c, closest, spike, scanned, draw, wsum, at)
      {
        HasLandNeighbor(own, w.adjLand[..], s, dir);
        ScanOne(own, sect, i, dir);
        if !Bit(w.adjLand[s], dir) {
          var n := Neighbor(s, dir);
          assert Bit(w.adjLand[n], DirBack(dir));
          wsum, at, draw := Consider(w, c, n, closest, spike, wsum, at, scanned, draw);
          scanned := scanned + {n};
        } else {
          assert scanned + {} == scanned;
        }
        dir := dir + 1;
      }
      ScanRow(own, sect, i);
      i := i + 1;
    }
  }

  lemma NothingScanned(w: World, c: nat, closest: array<NatId>, spike: bool, own: seq<int>, sect: seq<Sector>)
    requires w.Valid() && closest.Length == WorldSz() && |own| == WorldSz()
    ensures SeaScanned(own, sect, 0, 1) == {}
    ensures DrawOk(w, c, closest, spike, {}, Draw([], [], []), 0, -1)
  {
    hide Neighbor;
  }

  /** Weights are by the number of land neighbours: 1 to 125 for 1 to 5 of them, 216 for 6; the other way in a spike. */
  ghost predicate WeightsByLand(draw: Draw, own: seq<int>, spike: bool)
    requires |own| == WorldSz() && |draw.cands| == |draw.weights|
  {
    forall i :: 0 <= i < |draw.cands| ==>
      var n := |LandAround(own, draw.cands[i])|;
      draw.weights[i] == if spike then (6 - n) * (6 - n) else n * n * n
  }

  lemma WeightsAreByLand(draw: Draw, own: seq<int>, adj: seq<bv8>, spike: bool)
    requires |own| == |adj| == WorldSz() && |draw.cands| == |draw.weights|
    requires WeightsOk(draw, adj, spike) && AdjacencyOk(own, adj)
    ensures WeightsByLand(draw, own, spike)
  {
    hide WorldSz, LandAround, AdjacencyOk;
    forall i | 0 <= i < |draw.cands|
      ensures var n := |LandAround(own, draw.cands[i])|;
              draw.weights[i] == if spike then (6 - n) * (6 - n) else n * n * n
    {
      LandCounted(own, adj, draw.cands[i]);
    }
  }

  /** A candidate has weight zero only in a gap, and only when the island grows a spike. */
  lemma ZeroWeight(own: seq<int>, sect: seq<Sector>, t: Sector)
    requires |own| == WorldSz() && NextTo(sect, t) && forall s | s in sect :: own[s] != -1
    ensures 1 <= |LandAround(own, t)| <= 6
    ensures |LandAround(own, t)| == 6 <==> forall d: Dir :: own[Neighbor(t, d)] != -1
  {
    hide Neighbor;
    var s :| s in sect && Adjacent(s, t);
    var e: Dir :| Neighbor(s, e) == t;
    BackAndForth(s, e);
    assert DirBack(e) in LandAround(own, t);
    AllDirs();
    assert LandAround(own, t) <= Dirs();
    SubsetCardinality(LandAround(own, t), Dirs());
    if forall d: Dir :: own[Neighbor(t, d)] != -1 {
      assert LandAround(own, t) == Dirs();
    } else {
      var d: Dir :| own[Neighbor(t, d)] == -1;
      assert LandAround(own, t) <= Dirs() - {d};
      SubsetCardinality(LandAround(own, t), Dirs() - {d});
    }
  }

  ghost function Dirs(): set<Dir> {
    {1, 2, 3, 4, 5, 6}
  }

  lemma AllDirs()
    ensures |Dirs()| == 6 && forall d: Dir :: d in Dirs()
  {
  }

  lemma {:induction false} SumPositive(ws: seq<nat>)
    ensures Sum(ws) > 0 <==> exists i :: 0 <= i < |ws| && ws[i] > 0
  {
    if ws != [] {
      SumPositive(ws[..|ws| - 1]);
      if i :| 0 <= i < |ws| - 1 && ws[i] > 0 {
        assert ws[..|ws| - 1][i] > 0;
      }
    }
  }

  /** Some candidate can be grown at: not only gaps, unless the island grows evenly. */
  ghost predicate SomeGrows(own: seq<int>, draw: Draw, spike: bool)
    requires |own| == WorldSz()
  {
    exists t :: t in draw.cands && (!spike || exists d: Dir :: own[Neighbor(t, d)] == -1)
  }

  lemma GrowsWhen(own: seq<int>, sect: seq<Sector>, draw: Draw, spike: bool)
    requires |own| == WorldSz() && draw.Ok() && WeightsByLand(draw, own, spike)
    requires forall t | t in draw.cands :: NextTo(sect, t)
    requires forall s | s in sect :: own[s] != -1
    ensures Sum(draw.weights) > 0 <==> SomeGrows(own, draw, spike)
  {
    hide Neighbor, LandAround, RollsOk, NextTo, WorldSz, Sum;
    SumPositive(draw.weights);
    forall i | 0 <= i < |draw.cands|
      ensures draw.weights[i] > 0 <==> !spike || exists d: Dir :: own[Neighbor(draw.cands[i], d)] == -1
    {
      assert draw.cands[i] in draw.cands;
      ZeroWeight(own, sect, draw.cands[i]);
      WeightIsZero(|LandAround(own, draw.cands[i])|);
    }
    if t :| t in draw.cands && (!spike || exists d: Dir :: own[Neighbor(t, d)] == -1) {
      var i :| 0 <= i < |draw.cands| && draw.cands[i] == t;
      assert draw.weights[i] > 0;
    }
    if i :| 0 <= i < |draw.weights| && draw.weights[i] > 0 {
      assert draw.cands[i] in draw.cands;
    }
  }

  lemma WeightIsZero(n: nat)
    requires 1 <= n <= 6
    ensures n * n * n > 0 && ((6 - n) * (6 - n) > 0 <==> n < 6)
  {
  }

  /**
   grow_one_sector.  The sectors the island can grow to are those next to it that
   are open to it; it grows a spike when roll is below sp.
   */
  method GrowOneSector(w: World, c: nat, closest: array<NatId>) returns (grown: bool, ghost draw: Draw,
                       ghost spike: bool, ghost roll: int)
    requires w.Valid() && w.p.distinct && w.Ok(w.p.Width(c)) && c < w.live && |w.sect[c]| < w.Capacity(c)
    requires closest.Length == WorldSz() && closest as object !in {w.own as object, w.adjLand, w.xzone, w.seen}
    requires forall t: Sector :: w.seen[t] <= w.curSeen
    requires w.curSeen < UINT_MAX && 216 * WorldSz() < INT_MAX
    modifies w`curSeen, w`sect, w`marks, w.own, w.adjLand, w.xzone, w.seen
    ensures w.Valid() && w.Ok(w.p.Width(c))
    ensures w.curSeen == old(w.curSeen) + 1 && forall t: Sector :: w.seen[t] <= w.curSeen
    ensures 0 <= roll < 100 && (spike <==> roll < w.p.sp)
    // Each sector the island can grow to is considered once, with its weight
    ensures draw.Ok() && forall t: Sector :: t in draw.cands <==>
              old(NextTo(w.sect[c], t) && OpenTo(w.own[..], w.marks, closest[..], w.p.nc, c, t))
    ensures WeightsByLand(draw, old(w.own[..]), spike)
    // The island grows exactly when there is one with non-zero weight
    ensures grown <==> SomeGrows(old(w.own[..]), draw, spike)
    ensures grown ==> var i := Choose(draw.weights, draw.rolls);
                      i >= 0 && draw.weights[i] > 0 && SectorAdded(old(w.Value()), w.Value(), c, draw.cands[i])
                      && w.marks == old(w.marks) + [Mark(c, draw.cands[i], w.p.Width(c))]
    ensures !grown ==> w.Value() == old(w.Value()) && w.marks == old(w.marks)
  {
    hide WorldSz, Bit, OnlyDirs, Neighbor, Choose, RollsOk, Sum, LandOk, SeaScanned, OpenTo, WeightsByLand, SomeGrows,
         ZonesOk, AdjacencyOk;
    var spikeRoll := Roll0(100);
    roll, spike := spikeRoll, spikeRoll < w.p.sp;
    w.curSeen := w.curSeen + 1;
    var wsum, at;
    wsum, at, draw := ScanIsland(w, c, closest, spikeRoll < w.p.sp);
    CandidatesAre(w, c, closest, draw, spike, wsum, at);
    if wsum == 0 {
      return false, draw, spike, roll;
    }
    ChoosesPositive(draw.weights, draw.rolls);
    assert at in draw.cands;
    w.AddSector(c, at);
    return true, draw, spike, roll;
  }

  lemma CandidatesAre(w: World, c: nat, closest: array<NatId>, draw: Draw, spike: bool, wsum: nat, at: int)
    requires w.Valid() && w.Ok(w.p.Width(c)) && c < w.live && closest.Length == WorldSz()
    requires DrawOk(w, c, closest, spike, SeaScanned(w.own[..], w.sect[c], |w.sect[c]|, 1), draw, wsum, at)
    ensures forall t: Sector :: t in draw.cands <==>
              NextTo(w.sect[c], t) && OpenTo(w.own[..], w.marks, closest[..], w.p.nc, c, t)
    ensures forall t: Sector | t in draw.cands :: NextTo(w.sect[c], t) && w.CanGrowAt(c, t, closest)
    ensures WeightsByLand(draw, w.own[..], spike)
    ensures Sum(draw.weights) > 0 <==> SomeGrows(w.own[..], draw, spike)
  {
    hide WorldSz, Neighbor, SeaScanned, OpenTo, WeightsByLand, SomeGrows, ZonesOk, Separated, Marked, MarksBelow,
         WeightsOk, RollsOk, Sum, Choose, World.CanGrowAt;
    forall t: Sector
      ensures t in draw.cands <==>
                NextTo(w.sect[c], t) && OpenTo(w.own[..], w.marks, closest[..], w.p.nc, c, t)
      ensures t in draw.cands ==> NextTo(w.sect[c], t) && w.CanGrowAt(c, t, closest)
    {
      AllScanned(w.own[..], w.sect[c], t);
      w.CanGrowAtIsOpenTo(c, t, closest);
      OpenIsSea(w.own[..], w.marks, closest[..], w.p.nc, c, t);
    }
    WeightsAreByLand(draw, w.own[..], w.adjLand[..], spike);
    GrowsWhen(w.own[..], w.sect[c], draw, spike);
  }

  lemma OpenIsSea(own: seq<int>, marks: seq<Mark>, closest: seq<int>, nc: nat, c: nat, t: Sector)
    requires |own| == |closest| == WorldSz() && nc > 0
    ensures OpenTo(own, marks, closest, nc, c, t) ==> own[t] == -1
  {
  }
}
