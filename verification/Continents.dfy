/**
 Growing the continents (grow_continents), one sector each in turn.
 */
module Continents {
  import opened HexTorus
  import opened Finite
  import opened Land
  import opened Zones
  import opened Bfs
  import opened Sampling
  import opened World
  import opened Growth

  lemma NeighborDiffers(s: Sector, d: Dir)
    ensures Neighbor(s, d) != s
  {
    hide SctX, SctY, XYOffset, Neighbor, Wrapped;
    NeighborCoordinates(s, d);
  }

  /** What holds between calls of grow_one_sector. */
  ghost predicate Ready(w: World, closest: array<NatId>, width: nat)
    reads w, w.own, w.adjLand, w.xzone, w.seen, closest
  {
    && w.Valid() && w.p.distinct && w.Ok(width)
    && closest.Length == WorldSz() && closest as object !in {w.own as object, w.adjLand, w.xzone, w.seen}
    && 216 * WorldSz() < INT_MAX
    && forall t: Sector :: w.seen[t] <= w.curSeen
  }

  /** The islands below n that are not continents keep to the sphere of influence of the continent they are for. */
  ghost predicate InSpheres(sect: seq<seq<Sector>>, nc: nat, n: nat, closest: seq<int>) {
    && nc > 0 && n <= |sect| && |closest| == WorldSz()
    && forall c, s: Sector | nc <= c < n && s in sect[c] :: closest[s] == c % nc
  }

  lemma AddingKeepsSpheres(sect: seq<seq<Sector>>, nc: nat, n: nat, closest: seq<int>, c: nat, s: Sector)
    requires InSpheres(sect, nc, n, closest) && c < n && (c < nc || closest[s] == c % nc)
    ensures InSpheres(sect[c := sect[c] + [s]], nc, n, closest)
  {
  }

  lemma DroppingKeepsSpheres(sect: seq<seq<Sector>>, nc: nat, n: nat, closest: seq<int>, c: nat)
    requires InSpheres(sect, nc, n, closest) && c < n && sect[c] != []
    ensures InSpheres(sect[c := sect[c][..|sect[c]| - 1]], nc, n, closest)
  {
  }

  lemma StartingKeepsSpheres(sect: seq<seq<Sector>>, nc: nat, n: nat, closest: seq<int>)
    requires InSpheres(sect, nc, n, closest) && n < |sect|
    ensures InSpheres(sect[n := []], nc, n + 1, closest)
  {
  }

  /** Of count islands from base on, those below base + j have been offered the sector after secs. */
  ghost predicate RoundOk(sect0: seq<seq<Sector>>, sect: seq<seq<Sector>>, base: nat, j: nat, secs: nat, done: bool)
  {
    && |sect| == |sect0| && base + j <= |sect|
    && (forall c :: 0 <= c < |sect| && !(base <= c < base + j) ==> sect[c] == sect0[c])
    && (forall c :: base <= c < base + j ==>
          (sect[c] == sect0[c] && !done) || (|sect[c]| == secs + 1 && sect[c][..secs] == sect0[c]))
  }

  /** Some of the n islands from base on has secs sectors only. */
  ghost predicate SomeHas(sect: seq<seq<Sector>>, base: nat, n: nat, secs: nat) {
    base + n <= |sect| && exists c :: base <= c < base + n && |sect[c]| == secs
  }

  /** grow_one_sector, and what matters of it here: it adds a sector in the right sphere, or nothing. */
  method Grow(w: World, c: nat, closest: array<NatId>, ghost width: nat) returns (grown: bool, ghost s: Sector)
    requires Ready(w, closest, width) && width == w.p.Width(c) && c < w.live && |w.sect[c]| < w.Capacity(c)
    requires w.curSeen < UINT_MAX
    modifies w`curSeen, w`sect, w`marks, w.own, w.adjLand, w.xzone, w.seen
    ensures Ready(w, closest, width) && w.curSeen == old(w.curSeen) + 1
    ensures w.sect == if grown then old(w.sect)[c := old(w.sect)[c] + [s]] else old(w.sect)
    ensures grown ==> old(OpenTo(w.own[..], w.marks, closest[..], w.p.nc, c, s))
                      && w.own[..] == old(w.own[..])[s := c] && w.marks == old(w.marks) + [Mark(c, s, width)]
    ensures !grown ==> w.own[..] == old(w.own[..]) && w.marks == old(w.marks)
                       && Stuck(w.own[..], w.marks, closest[..], w.p.nc, c, w.sect[c])
  {
    hide WorldSz, LandOk, ZonesOk, Separated, Marked, Sum, Choose, WeightsByLand, AdjacencyUpdate, OpenTo, NextTo,
         Stuck, SomeGrows;
    ghost var draw, spike, roll;
    ghost var own, marks, sect := w.own[..], w.marks, w.sect[c];
    grown, draw, spike, roll := GrowOneSector(w, c, closest);
    s := if grown then draw.cands[Choose(draw.weights, draw.rolls)] else 0;
    if grown {
      assert s in draw.cands;
    } else {
      assert w.Value().own == old(w.Value()).own;
      NothingGrows(own, marks, closest[..], w.p.nc, c, sect, draw, spike);
    }
  }

  lemma NothingGrows(own: seq<int>, marks: seq<Mark>, closest: seq<int>, nc: nat, c: nat, sect: seq<Sector>, draw: Draw,
                     spike: bool)
    requires |own| == |closest| == WorldSz() && nc > 0
    requires forall t: Sector :: t in draw.cands <==> NextTo(sect, t) && OpenTo(own, marks, closest, nc, c, t)
    requires !SomeGrows(own, draw, spike)
    ensures Stuck(own, marks, closest, nc, c, sect)
  {
    hide WorldSz, NextTo, OpenTo, Neighbor;
  }

  /** Some of the n islands from base on has secs sectors and cannot grow. */
  ghost predicate SomeStuck(own: seq<int>, marks: seq<Mark>, closest: seq<int>, nc: nat, sect: seq<seq<Sector>>,
                            base: nat, n: nat, secs: nat)
  {
    && |own| == |closest| == WorldSz() && nc > 0 && base + n <= |sect|
    && exists c :: base <= c < base + n && StuckAt(own, marks, closest, nc, sect, c, secs)
  }

  ghost predicate StuckAt(own: seq<int>, marks: seq<Mark>, closest: seq<int>, nc: nat, sect: seq<seq<Sector>>, c: nat,
                          secs: nat)
    requires |own| == |closest| == WorldSz() && nc > 0 && c < |sect|
  {
    |sect[c]| == secs && Stuck(own, marks, closest, nc, c, sect[c])
  }

  /** An island that is stuck stays so while others grow. */
  lemma StuckGoesOn(own: seq<int>, marks: seq<Mark>, closest: seq<int>, nc: nat, sect: seq<seq<Sector>>, base: nat,
                    j: nat, secs: nat, m: Mark)
    requires SomeStuck(own, marks, closest, nc, sect, base, j, secs) && m.c == base + j < |sect| && own[m.s] == -1
    ensures SomeStuck(own[m.s := m.c], marks + [m], closest, nc, sect[m.c := sect[m.c] + [m.s]], base, j + 1, secs)
  {
    hide WorldSz, Stuck;
    var sect' := sect[m.c := sect[m.c] + [m.s]];
    var c :| base <= c < base + j && StuckAt(own, marks, closest, nc, sect, c, secs);
    StuckWhenOthersGrow(own, marks, closest, nc, c, sect[c], m.s, m);
    assert StuckAt(own[m.s := m.c], marks + [m], closest, nc, sect', c, secs);
  }

  /** Or an island is stuck now, or was before and nothing has changed. */
  lemma StuckNow(own: seq<int>, marks: seq<Mark>, closest: seq<int>, nc: nat, sect: seq<seq<Sector>>, base: nat, j: nat,
                 secs: nat)
    requires |own| == |closest| == WorldSz() && nc > 0 && base + j < |sect|
    ensures SomeStuck(own, marks, closest, nc, sect, base, j, secs) ==>
              SomeStuck(own, marks, closest, nc, sect, base, j + 1, secs)
    ensures StuckAt(own, marks, closest, nc, sect, base + j, secs) ==>
              SomeStuck(own, marks, closest, nc, sect, base, j + 1, secs)
  {
    hide WorldSz, StuckAt;
  }

  lemma RoundGoesOn(sect0: seq<seq<Sector>>, before: seq<seq<Sector>>, sect: seq<seq<Sector>>, base: nat, j: nat,
                    n: nat, secs: nat, done: bool, grown: bool, s: Sector)
    requires RoundOk(sect0, before, base, j, secs, done) && j < n && base + n <= |sect0|
    requires forall c :: base <= c < base + n ==> |sect0[c]| == secs
    requires sect == if grown then before[base + j := before[base + j] + [s]] else before
    ensures RoundOk(sect0, sect, base, j + 1, secs, done && grown)
    ensures SomeHas(before, base, j, secs) || !grown ==> SomeHas(sect, base, j + 1, secs)
  {
    if SomeHas(before, base, j, secs) {
      var c :| base <= c < base + j && |before[c]| == secs;
      assert |sect[c]| == secs;
    } else if !grown {
      assert |sect[base + j]| == secs;
    }
  }

  /** The loop at lines 1150-1153 (base 0) and 1253-1256: grow nc islands by one sector each. */
  method GrowRound(w: World, base: nat, closest: array<NatId>, ghost secs: nat, done0: bool) returns (done: bool)
    requires base + w.p.nc <= w.live && Ready(w, closest, w.p.Width(base)) && w.p.nc > 0
    requires base % w.p.nc == 0
    requires forall c :: base <= c < base + w.p.nc ==> |w.sect[c]| == secs < w.Capacity(c)
    requires w.curSeen + w.p.nc < UINT_MAX && InSpheres(w.sect, w.p.nc, w.live, closest[..])
    modifies w`curSeen, w`sect, w`marks, w.own, w.adjLand, w.xzone, w.seen
    ensures Ready(w, closest, w.p.Width(base)) && InSpheres(w.sect, w.p.nc, w.live, closest[..])
    ensures w.curSeen == old(w.curSeen) + w.p.nc
    ensures RoundOk(old(w.sect), w.sect, base, w.p.nc, secs, done) && (done ==> done0)
    ensures done0 && !done ==> SomeHas(w.sect, base, w.p.nc, secs)
                               && SomeStuck(w.own[..], w.marks, closest[..], w.p.nc, w.sect, base, w.p.nc, secs)
  {
    hide WorldSz, LandOk, ZonesOk, InSpheres, SomeHas, Separated, Marked, SomeStuck, Stuck, OpenTo, RoundOk;
    done := done0;
    RoundStarts(w.sect, base, secs, done);
    var j := 0;
    while j < w.p.nc
      invariant 0 <= j <= w.p.nc
      invariant Ready(w, closest, w.p.Width(base)) && InSpheres(w.sect, w.p.nc, w.live, closest[..])
      invariant w.curSeen == old(w.curSeen) + j
      invariant RoundOk(old(w.sect), w.sect, base, j, secs, done) && (done ==> done0)
      invariant done0 && !done ==> SomeHas(w.sect, base, j, secs)
                                   && SomeStuck(w.own[..], w.marks, closest[..], w.p.nc, w.sect, base, j, secs)
    {
      SameWidth(w.p, base, j);
      ghost var before, own, marks := w.sect, w.own[..], w.marks;
      NotYet(old(w.sect), before, base, j, secs, done);
      var grown, s := Grow(w, base + j, closest, w.p.Width(base));
      RoundGoesOn(old(w.sect), before, w.sect, base, j, w.p.nc, secs, done, grown, s);
      GrowthGoesOn(own, marks, w.own[..], w.marks, closest[..], w.p.nc, before, w.sect, base, j, secs, grown, s,
                   w.p.Width(base));
      if !grown {
        done := false;
      } else {
        AddingKeepsSpheres(before, w.p.nc, w.live, closest[..], base + j, s);
      }
      j := j + 1;
    }
  }

  lemma RoundStarts(sect: seq<seq<Sector>>, base: nat, secs: nat, done: bool)
    requires base <= |sect|
    ensures RoundOk(sect, sect, base, 0, secs, done)
  {
  }

  lemma NotYet(sect0: seq<seq<Sector>>, sect: seq<seq<Sector>>, base: nat, j: nat, secs: nat, done: bool)
    requires RoundOk(sect0, sect, base, j, secs, done) && base + j < |sect0|
    ensures |sect| == |sect0| && sect[base + j] == sect0[base + j]
  {
  }

  lemma GrowthGoesOn(own: seq<int>, marks: seq<Mark>, own': seq<int>, marks': seq<Mark>, closest: seq<int>, nc: nat,
                     sect: seq<seq<Sector>>, sect': seq<seq<Sector>>, base: nat, j: nat, secs: nat, grown: bool,
                     s: Sector, width: nat)
    requires |own| == |own'| == |closest| == WorldSz() && nc > 0 && base + j < |sect| == |sect'|
    requires |sect[base + j]| == secs
    requires if grown then OpenTo(own, marks, closest, nc, base + j, s) && own' == own[s := base + j]
                           && marks' == marks + [Mark(base + j, s, width)]
                           && sect' == sect[base + j := sect[base + j] + [s]]
             else own' == own && marks' == marks && sect' == sect
                  && Stuck(own, marks, closest, nc, base + j, sect[base + j])
    ensures SomeStuck(own, marks, closest, nc, sect, base, j, secs) || !grown ==>
              SomeStuck(own', marks', closest, nc, sect', base, j + 1, secs)
    ensures grown ==> base + j < nc || closest[s] == (base + j) % nc
  {
    hide WorldSz, Stuck, SomeStuck;
    if !grown {
      StuckNow(own, marks, closest, nc, sect, base, j, secs);
    } else if SomeStuck(own, marks, closest, nc, sect, base, j, secs) {
      StuckGoesOn(own, marks, closest, nc, sect, base, j, secs, Mark(base + j, s, width));
    }
  }

  /** The nc islands grown together have zones of the same width. */
  lemma SameWidth(p: Params, base: nat, j: nat)
    requires p.nc > 0 && base % p.nc == 0 && j < p.nc
    ensures p.Width(base + j) == p.Width(base)
  {
    var k := base / p.nc;
    assert base == k * p.nc;
    MulMonotonic(1, k, p.nc);
  }

  /** Continent c starts with its two capital sectors. */
  ghost predicate HasCapital(sect: seq<Sector>, capital: Sector) {
    |sect| >= 2 && sect[0] == capital && sect[1] == Neighbor(capital, 2)
  }

  lemma RightOfCapital(capital: Sector)
    ensures Adjacent(capital, Neighbor(capital, 2))
  {
    hide Neighbor;
  }

  /** An island's own claims do not keep it from growing. */
  lemma StillFree(z: seq<int>, z': seq<int>, c: nat, s: Sector, width: nat, t: Sector)
    requires ZoneAdded(z, z', c, s, width) && (z[t] == c || z[t] == -1)
    ensures z'[t] == c || z'[t] == -1
  {
  }

  /** Lines 1140-1141: add both capital sectors. */
  method AddCapital(w: World, c: nat, capital: Sector, closest: array<NatId>)
    requires c < w.p.nc && c < w.live && Ready(w, closest, w.p.di) && w.sect[c] == []
    requires w.CanGrowAt(c, capital, closest) && w.CanGrowAt(c, Neighbor(capital, 2), closest)
    modifies w`sect, w`marks, w.own, w.adjLand, w.xzone
    ensures Ready(w, closest, w.p.di) && w.live == old(w.live)
    ensures w.sect == old(w.sect)[c := [capital, Neighbor(capital, 2)]]
    ensures w.marks == old(w.marks) + [Mark(c, capital, w.p.di)] + [Mark(c, Neighbor(capital, 2), w.p.di)]
  {
    hide WorldSz, LandOk, ZonesOk, Neighbor, Separated, Marked, ZoneAdded, AdjacencyUpdate, Adjacent;
    NeighborDiffers(capital, 2);
    var right := Neighbor(capital, 2);
    RightOfCapital(capital);
    ghost var z := w.xzone[..];
    w.AddSector(c, capital);
    StillFree(z, w.xzone[..], c, capital, w.p.di, right);
    assert capital in w.sect[c];
    w.AddSector(c, right);
    assert w.sect[c] == [capital, right];
  }

  /** A capital's two sectors. */
  ghost function Pair(capital: Sector): set<Sector> {
    {capital, Neighbor(capital, 2)}
  }

  /** The first n capitals are more than di sectors apart, both sectors considered. */
  ghost predicate CapitalsFit(cap: seq<Sector>, n: nat, di: nat)
    requires n <= |cap|
  {
    forall c, e | 0 <= c < e < n :: PairsFit(cap[c], cap[e], di)
  }

  ghost predicate PairsFit(a: Sector, b: Sector, di: nat) {
    forall s, t | s in Pair(a) && t in Pair(b) :: Dist(s, t) > di
  }

  /** The first n capitals have been placed. */
  ghost predicate Placed(sect: seq<seq<Sector>>, marks: seq<Mark>, cap: seq<Sector>, n: nat, di: nat) {
    && n <= |cap| && n <= |sect|
    && (forall e :: 0 <= e < n ==> |sect[e]| == 2 && HasCapital(sect[e], cap[e]))
    && (forall m :: m in marks <==> m.width == di && m.c < n && m.s in Pair(cap[m.c]))
  }

  lemma PlacedMore(sect: seq<seq<Sector>>, marks: seq<Mark>, cap: seq<Sector>, n: nat, di: nat)
    requires Placed(sect, marks, cap, n, di) && n < |cap| && n < |sect|
    ensures Placed(sect[n := [cap[n], Neighbor(cap[n], 2)]],
                   marks + [Mark(n, cap[n], di)] + [Mark(n, Neighbor(cap[n], 2), di)], cap, n + 1, di)
  {
    hide Neighbor;
  }

  /** The next capital fits exactly when it is far enough from those before. */
  lemma NextFits(w: World, cap: seq<Sector>, c: nat, closest: array<NatId>)
    requires w.Valid() && w.Ok(w.p.di) && closest.Length == WorldSz() && c < w.p.nc && c < |cap|
    requires w.live == c + 1 && w.sect[c] == [] && Placed(w.sect, w.marks, cap, c, w.p.di)
    ensures w.CanGrowAt(c, cap[c], closest) && w.CanGrowAt(c, Neighbor(cap[c], 2), closest) <==>
            forall e | 0 <= e < c :: PairsFit(cap[e], cap[c], w.p.di)
  {
    hide WorldSz, Dist, Neighbor, ZonesOk, Separated, Marked, AdjacencyOk, World.CanGrowAt, OpenTo;
    forall t | t in Pair(cap[c])
      ensures w.CanGrowAt(c, t, closest) <==> FarFromAll(cap, c, w.p.di, t)
    {
      w.CanGrowAtIsOpenTo(c, t, closest);
      FarIsOpen(w.Value(), w.marks, closest[..], w.p.nc, cap, c, w.p.di, t);
    }
    FarFromAllMeans(cap, c, w.p.di);
  }

  ghost predicate FarFromAll(cap: seq<Sector>, c: nat, di: nat, t: Sector)
    requires c <= |cap|
  {
    forall e, s | 0 <= e < c && s in Pair(cap[e]) :: Dist(s, t) > di
  }

  lemma FarFromAllMeans(cap: seq<Sector>, c: nat, di: nat)
    requires c < |cap|
    ensures FarFromAll(cap, c, di, cap[c]) && FarFromAll(cap, c, di, Neighbor(cap[c], 2)) <==>
            forall e | 0 <= e < c :: PairsFit(cap[e], cap[c], di)
  {
    hide Neighbor, Dist;
    if forall e | 0 <= e < c :: PairsFit(cap[e], cap[c], di) {
      forall e, s, t | 0 <= e < c && s in Pair(cap[e]) && t in Pair(cap[c])
        ensures Dist(s, t) > di
      {
        assert PairsFit(cap[e], cap[c], di);
      }
    }
  }

  lemma FarIsOpen(l: Land, marks: seq<Mark>, closest: seq<int>, nc: nat, cap: seq<Sector>, c: nat, di: nat, t: Sector)
    requires LandOk(l, c + 1) && l.sect[c] == [] && |closest| == WorldSz() && c < nc
    requires Placed(l.sect, marks, cap, c, di)
    ensures OpenTo(l.own, marks, closest, nc, c, t) <==> FarFromAll(cap, c, di, t)
  {
    hide Neighbor, Dist, AdjacencyOk, WorldSz;
    forall m | m in marks
      ensures Dist(t, m.s) == Dist(m.s, t)
    {
      DistSymmetric(t, m.s);
    }
    if OpenTo(l.own, marks, closest, nc, c, t) {
      forall e, s | 0 <= e < c && s in Pair(cap[e])
        ensures Dist(s, t) > di
      {
        assert Mark(e, s, di) in marks;
      }
    }
    if FarFromAll(cap, c, di, t) && l.own[t] != -1 {
      var e := l.own[t];
      assert t in l.sect[e] && e < c;
      assert l.sect[e] == [cap[e], Neighbor(cap[e], 2)];
      assert t in Pair(cap[e]);
      DistZero(t, t);
      assert false;
    }
  }

  lemma FitsMore(cap: seq<Sector>, c: nat, di: nat)
    requires c < |cap|
    ensures CapitalsFit(cap, c + 1, di) <==>
            CapitalsFit(cap, c, di) && forall e | 0 <= e < c :: PairsFit(cap[e], cap[c], di)
  {
    hide PairsFit;
  }

  /** Lines 1133-1142: place the capitals; this succeeds exactly when they are far enough apart. */
  method PlaceCapitals(w: World, cap: seq<Sector>, closest: array<NatId>) returns (done: bool)
    requires Ready(w, closest, w.p.di) && w.live == 0 && |cap| == w.p.nc && w.marks == []
    modifies w`sect, w`marks, w`live, w.own, w.adjLand, w.xzone
    ensures Ready(w, closest, w.p.di) && w.live == w.p.nc
    ensures done <==> CapitalsFit(cap, w.p.nc, w.p.di)
    ensures done ==> forall c :: 0 <= c < w.p.nc ==> |w.sect[c]| == 2 && HasCapital(w.sect[c], cap[c])
  {
    hide WorldSz, LandOk, ZonesOk, Neighbor, Separated, Marked, CapitalsFit, PairsFit, Placed;
    done := true;
    NonePlaced(w.sect, cap, w.p.di);
    var c := 0;
    while c < w.p.nc
      invariant 0 <= c <= w.p.nc
      invariant Ready(w, closest, w.p.di) && w.live == c
      invariant done <==> CapitalsFit(cap, c, w.p.di)
      invariant done ==> Placed(w.sect, w.marks, cap, c, w.p.di)
    {
      FitsMore(cap, c, w.p.di);
      StartedStillPlaced(w.sect, w.marks, cap, c, w.p.di);
      w.StartIsland(c, w.p.di);
      if done {
        NextFits(w, cap, c, closest);
        StartedStillPlaced(w.sect, w.marks, cap, c, w.p.di);
      }
      if !w.CanGrowAt(c, cap[c], closest) || !w.CanGrowAt(c, Neighbor(cap[c], 2), closest) {
        done := false;
      } else {
        AddCapital(w, c, cap[c], closest);
      }
      c := c + 1;
    }
    PlacedMeans(w.sect, w.marks, cap, w.p.nc, w.p.di);
  }

  lemma PlacedMeans(sect: seq<seq<Sector>>, marks: seq<Mark>, cap: seq<Sector>, n: nat, di: nat)
    ensures Placed(sect, marks, cap, n, di) ==>
              && n <= |sect| && n <= |cap|
              && forall e :: 0 <= e < n ==> |sect[e]| == 2 && HasCapital(sect[e], cap[e])
  {
    hide HasCapital;
  }

  lemma NonePlaced(sect: seq<seq<Sector>>, cap: seq<Sector>, di: nat)
    ensures CapitalsFit(cap, 0, di) && Placed(sect, [], cap, 0, di)
  {
  }

  lemma StartedStillPlaced(sect: seq<seq<Sector>>, marks: seq<Mark>, cap: seq<Sector>, c: nat, di: nat)
    requires c < |sect| && c < |cap|
    ensures Placed(sect, marks, cap, c, di) ==>
              && Placed(sect[c := []], marks, cap, c, di)
              && Placed(sect[c := [cap[c], Neighbor(cap[c], 2)]],
                        marks + [Mark(c, cap[c], di)] + [Mark(c, Neighbor(cap[c], 2), di)], cap, c + 1, di)
  {
    hide Neighbor, HasCapital;
    if Placed(sect, marks, cap, c, di) {
      PlacedMore(sect, marks, cap, c, di);
    }
  }

  /** The continents have secs sectors each, and start with their capitals. */
  ghost predicate AllGrownTo(sect: seq<seq<Sector>>, cap: seq<Sector>, secs: nat) {
    |cap| <= |sect| && forall c :: 0 <= c < |cap| ==> |sect[c]| == secs && HasCapital(sect[c], cap[c])
  }

  /** grow_continents */
  method GrowContinents(w: World, cap: seq<Sector>, closest: array<NatId>) returns (done: bool)
    requires w.Valid() && w.p.distinct && w.live == 0 && LandOk(w.Value(), 0) && |cap| == w.p.nc
    requires closest.Length == WorldSz() && closest as object !in {w.own as object, w.adjLand, w.xzone, w.seen}
    requires 216 * WorldSz() < INT_MAX && forall t: Sector :: w.seen[t] <= w.curSeen
    requires w.curSeen + w.p.sc * w.p.nc < UINT_MAX
    modifies w`curSeen, w`sect, w`marks, w`live, w.own, w.adjLand, w.xzone, w.seen
    ensures Ready(w, closest, w.p.di) && w.live == w.p.nc
    ensures w.curSeen <= old(w.curSeen) + w.p.sc * w.p.nc
    ensures done ==> AllGrownTo(w.sect, cap, w.p.sc) && CapitalsFit(cap, w.p.nc, w.p.di)
    // It fails only for a reason
    ensures !done ==> !CapitalsFit(cap, w.p.nc, w.p.di) || ContinentStuck(w, closest[..])
  {
    hide WorldSz, LandOk, ZonesOk, Neighbor, AllGrownTo, RoundOk, CapitalsFit, SomeStuck, SomeHas, InSpheres;
    w.XzoneInit(0);
    done := PlaceCapitals(w, cap, closest);
    Allowance(0, w.p.sc, w.p.nc);
    if !done {
      return false;
    }
    NoIslandsYet(w, closest[..]);
    GrownTo2(w.sect, cap);
    var secs := 2;
    while secs < w.p.sc && done
      invariant 2 <= secs <= w.p.sc && InSpheres(w.sect, w.p.nc, w.live, closest[..])
      invariant !done ==> ContinentStuck(w, closest[..])
      invariant Ready(w, closest, w.p.di) && w.live == w.p.nc
      invariant w.curSeen == old(w.curSeen) + (secs - 2) * w.p.nc
      invariant done ==> AllGrownTo(w.sect, cap, secs)
    {
      Allowance(secs - 2, w.p.sc, w.p.nc);
      ghost var sect := w.sect;
      SizesOf(w, cap, secs);
      done := GrowRound(w, 0, closest, secs, done);
      CapitalsStay(sect, w.sect, cap, secs, done);
      secs := secs + 1;
    }
    MulMonotonic(secs - 2, w.p.sc, w.p.nc);
  }

  /** Some continent has fewer than sc sectors, and cannot grow. */
  ghost predicate ContinentStuck(w: World, closest: seq<int>)
    reads w, w.own
  {
    exists secs: nat :: 2 <= secs < w.p.sc && SomeStuck(w.own[..], w.marks, closest, w.p.nc, w.sect, 0, w.p.nc, secs)
  }

  lemma NoIslandsYet(w: World, closest: seq<int>)
    requires w.Valid() && w.live == w.p.nc && |closest| == WorldSz()
    ensures InSpheres(w.sect, w.p.nc, w.live, closest)
  {
  }

  lemma Allowance(i: nat, n: nat, nc: nat)
    requires i < n
    ensures i * nc + nc <= n * nc && (i + 1) * nc == i * nc + nc && 0 * nc == 0
  {
    MulMonotonic(i + 1, n, nc);
  }

  lemma GrownTo2(sect: seq<seq<Sector>>, cap: seq<Sector>)
    requires |cap| <= |sect| && forall c :: 0 <= c < |cap| ==> |sect[c]| == 2 && HasCapital(sect[c], cap[c])
    ensures AllGrownTo(sect, cap, 2)
  {
  }

  lemma SizesOf(w: World, cap: seq<Sector>, secs: nat)
    requires AllGrownTo(w.sect, cap, secs) && |cap| == w.p.nc && secs < w.p.sc
    ensures forall c :: 0 <= c < w.p.nc ==> |w.sect[c]| == secs < w.Capacity(c)
  {
  }

  lemma CapitalsStay(sect: seq<seq<Sector>>, sect': seq<seq<Sector>>, cap: seq<Sector>, secs: nat, done: bool)
    requires RoundOk(sect, sect', 0, |cap|, secs, done) && AllGrownTo(sect, cap, secs)
    ensures done ==> AllGrownTo(sect', cap, secs + 1)
  {
    hide Neighbor;
    forall c | 0 <= c < |cap| && |sect'[c]| > secs && sect'[c][..secs] == sect[c]
      ensures HasCapital(sect'[c], cap[c])
    {
      assert sect'[c][..secs][0] == sect'[c][0] && sect'[c][..secs][1] == sect'[c][1];
    }
  }
}
