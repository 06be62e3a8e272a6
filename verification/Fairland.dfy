/**
 The world generator as a whole (main): place capitals, grow continents and
 islands, start over when there is no room, then compute elevations.
 */
module Fairland {
  import opened HexTorus
  import opened Finite
  import opened Land
  import opened Zones
  import opened Bfs
  import opened Sizes
  import opened World
  import opened Growth
  import opened Continents
  import opened Spheres
  import opened Islands
  import opened Drift
  import opened Hills
  import opened Resources
  import opened Elevation

  const NUMTRIES: nat := 10

  /** Calls of grow_one_sector in one try, at most. */
  function CallsPerTry(p: Params): nat
    requires p.nc > 0
  {
    p.sc * p.nc + IslandCalls(p)
  }

  /** The world is not so large that counters overflow. */
  ghost predicate Moderate(p: Params)
    requires p.nc > 0
  {
    && 216 * WorldSz() < Growth.INT_MAX
    && WorldSz() * (2 * p.isize) <= Growth.INT_MAX
    && NUMTRIES * CallsPerTry(p) < UINT_MAX
  }

  /**
   How a world came about: the capitals' drift, island sizes as drawn and as grown
   by round, sectors per continent that were not grown, spheres of influence, and
   the world after each round.
   */
  datatype Grown = Grown(caps: seq<seq<Sector>>, sizes: seq<int>, grown: seq<int>, carry: int, closest: seq<int>,
                         snaps: seq<Snapshot>)

  /**
   A world as promised: fair, connected, and with islands that keep their distance
   and are each in one continent's sphere of influence.
   */
  ghost predicate Finished(w: World, cap: seq<Sector>, g: Grown)
    reads w, w.own, w.adjLand
    requires w.Valid()
  {
    && LandOk(w.Value(), w.live) && w.live == w.p.nc + w.p.ni
    && Separated(w.sect, w.live, w.p.nc, w.p.di, w.p.id)
    && |cap| == w.p.nc && AllGrownTo(w.sect, cap, w.p.sc)
    && DriftTrace(g.caps, w.p.nc) && cap == g.caps[|g.caps| - 1]
    && SizesDrawn(g.sizes, w.p.ni / w.p.nc, w.p.isize)
    && RoundsOk(w.sect, w.p.nc, g.grown, w.p.isize, w.live)
    && g.carry >= 0 && Total(g.grown) + g.carry == (w.p.ni / w.p.nc) * w.p.isize
    && GrownAsDue(w.p, g.sizes, g.grown, g.snaps, g.closest, w.sect)
    && InSpheres(w.sect, w.p.nc, w.live, g.closest) && SpheresExact(w.own[..], w.p.nc, w.p.id, g.closest)
  }

  /** Why there is no world: capitals are too close, some continent cannot grow, or there is no place for an island. */
  ghost predicate NoRoom(w: World, b: BfsQueue, cap: seq<Sector>)
    reads w, w.own, b, b.closest
    requires w.Valid() && b.closest.Length == WorldSz() && |cap| == w.p.nc
  {
    || !CapitalsFit(cap, w.p.nc, w.p.di)
    || ContinentStuck(w, b.closest[..])
    || (w.p.nc < w.live && NoPlace(w, b, w.live - 1))
  }

  /** What a try touches is not shared. */
  ghost predicate Unshared(w: World, b: BfsQueue, c: Capitals) {
    && Apart(b, w)
    && c.cap as object !in {w.own as object, w.adjLand, w.xzone, w.seen, b.queue, b.closest, b.distance}
    && c.mc as object !in {w.own as object, w.adjLand, w.xzone, w.seen, b.queue, b.closest, b.distance}
  }

  /** Grow continents around the capitals, then islands. */
  method GrowAll(w: World, b: BfsQueue, cap: seq<Sector>, ghost caps: seq<seq<Sector>>)
    returns (done: bool, ghost g: Grown)
    requires w.Valid() && b.Valid() && Apart(b, w) && |cap| == w.p.nc <= w.p.ni && w.p.distinct
    requires w.live == 0 && LandOk(w.Value(), 0) && DriftTrace(caps, w.p.nc) && cap == caps[|caps| - 1]
    requires forall t: Sector :: w.seen[t] <= w.curSeen
    requires Moderate(w.p) && w.curSeen + CallsPerTry(w.p) < UINT_MAX
    modifies w`curSeen, w`sect, w`marks, w`live, w.own, w.adjLand, w.xzone, w.seen
    modifies b, b.closest, b.distance, b.queue
    ensures w.Valid() && b.Valid()
    ensures w.curSeen <= old(w.curSeen) + CallsPerTry(w.p) && forall t: Sector :: w.seen[t] <= w.curSeen
    ensures done ==> Finished(w, cap, g)
    ensures !done ==> NoRoom(w, b, cap)
  {
    hide WorldSz, LandOk, Separated, AllGrownTo, RoundsOk, SameBelow, Total, Ready, CallsPerTry, Moderate, Finished,
         InSpheres, SpheresExact, IslandCalls, CapitalsFit, ContinentStuck, NoPlace, GrownAsDue, SizesDrawn, DriftTrace;
    g := Grown([], [], [], 0, [], []);
    EnoughCalls(w.p, w.curSeen);
    done := GrowContinents(w, cap, b.closest);
    ReadyMeans(w, b.closest, w.p.di);
    if !done {
      return;
    }
    ghost var sect := w.sect;
    var carry;
    ghost var grown, sizes, snaps;
    done, carry, grown, sizes, snaps := GrowIslands(w, b);
    ReadyMeans(w, b.closest, w.p.id);
    ContinentsStay(sect, w.sect, cap, w.p.sc);
    if done {
      g := Grown(caps, sizes, grown, carry, b.closest[..], snaps);
      IsFinished(w, cap, g);
    }
  }

  /** Calls for the continents, and calls for the islands. */
  lemma EnoughCalls(p: Params, seen: nat)
    requires p.nc > 0 && Moderate(p) && seen + CallsPerTry(p) < UINT_MAX
    ensures CallsPerTry(p) == p.sc * p.nc + IslandCalls(p) && 0 <= p.sc * p.nc
    ensures 216 * WorldSz() < Growth.INT_MAX && WorldSz() * (2 * p.isize) <= Growth.INT_MAX
  {
    hide WorldSz;
    MulMonotonic(0, p.sc, p.nc);
  }

  lemma IsFinished(w: World, cap: seq<Sector>, g: Grown)
    requires w.Valid() && LandOk(w.Value(), w.live) && w.live == w.p.nc + w.p.ni
    requires Separated(w.sect, w.live, w.p.nc, w.p.di, w.p.id)
    requires |cap| == w.p.nc && AllGrownTo(w.sect, cap, w.p.sc) && RoundsOk(w.sect, w.p.nc, g.grown, w.p.isize, w.live)
    requires DriftTrace(g.caps, w.p.nc) && cap == g.caps[|g.caps| - 1]
    requires SizesDrawn(g.sizes, w.p.ni / w.p.nc, w.p.isize)
    requires g.carry >= 0 && Total(g.grown) + g.carry == (w.p.ni / w.p.nc) * w.p.isize
    requires GrownAsDue(w.p, g.sizes, g.grown, g.snaps, g.closest, w.sect)
    requires InSpheres(w.sect, w.p.nc, w.live, g.closest) && SpheresExact(w.own[..], w.p.nc, w.p.id, g.closest)
    ensures Finished(w, cap, g)
  {
    hide LandOk, Separated, AllGrownTo, RoundsOk, Total, InSpheres, SpheresExact, GrownAsDue, SizesDrawn, DriftTrace;
  }

  /** In a finished world, every sector of an island is in the sphere of the continent it is for. */
  lemma IslandsBelong(w: World, cap: seq<Sector>, g: Grown, c: nat, s: Sector)
    requires w.Valid() && Finished(w, cap, g) && w.p.nc <= c < w.live && s in w.sect[c]
    ensures InSphereOf(w.own[..], w.p.nc, w.p.id, s, c % w.p.nc)
  {
    hide LandOk, Separated, AllGrownTo, RoundsOk, InSpheres, SpheresExact, InSphereOf, GrownAsDue, SizesDrawn,
         DriftTrace;
    IslandInItsSphere(w.own[..], w.sect, w.p.nc, w.live, w.p.id, g.closest, c, s);
  }

  lemma ReadyMeans(w: World, closest: array<NatId>, width: nat)
    requires Ready(w, closest, width)
    ensures w.Valid() && LandOk(w.Value(), w.live) && Separated(w.sect, w.live, w.p.nc, w.p.di, w.p.id)
    ensures forall t: Sector :: w.seen[t] <= w.curSeen
  {
    hide LandOk, Separated;
  }

  /** One try (the loop body in main). */
  method Try(w: World, b: BfsQueue, c: Capitals) returns (big: bool, done: bool, ghost g: Grown)
    requires w.Valid() && b.Valid() && c.Valid() && Unshared(w, b, c) && c.cap.Length == w.p.nc <= w.p.ni
             && w.p.distinct
    requires forall t: Sector :: w.seen[t] <= w.curSeen
    requires Moderate(w.p) && w.curSeen + CallsPerTry(w.p) < UINT_MAX
    modifies w`curSeen, w`sect, w`marks, w`live, w.own, w.adjLand, w.xzone, w.seen
    modifies b, b.closest, b.distance, b.queue, c.cap, c.mc, c`history
    ensures w.Valid() && b.Valid()
    ensures w.curSeen <= old(w.curSeen) + CallsPerTry(w.p) && forall t: Sector :: w.seen[t] <= w.curSeen
    ensures big <==> w.p.nc <= WorldSz()
    ensures big && done ==> Finished(w, c.cap[..], g)
    ensures big && !done ==> NoRoom(w, b, c.cap[..])
  {
    hide WorldSz, LandOk, Finished, CallsPerTry, Moderate, NoRoom, DriftTrace, HistoryTells, Spread;
    w.Init();
    var stab;
    ghost var caps;
    big, stab, caps := c.Drift();
    if !big {
      return false, false, Grown([], [], [], 0, [], []);
    }
    done, g := GrowAll(w, b, c.cap[..], caps);
  }

  lemma ContinentsStay(sect: seq<seq<Sector>>, sect': seq<seq<Sector>>, cap: seq<Sector>, sc: nat)
    requires AllGrownTo(sect, cap, sc) && SameBelow(sect, sect', |cap|)
    ensures AllGrownTo(sect', cap, sc)
  {
    hide Neighbor;
  }

  /** The loop over tries: no more than NUMTRIES of them, and the seen counter does not wrap around. */
  method Tries(w: World, b: BfsQueue, c: Capitals) returns (done: bool, tries: nat, ghost g: Grown)
    requires w.Valid() && b.Valid() && c.Valid() && Unshared(w, b, c) && c.cap.Length == w.p.nc <= w.p.ni
             && w.p.distinct
    requires w.curSeen == 0 && forall t: Sector :: w.seen[t] == 0
    requires Moderate(w.p)
    modifies w`curSeen, w`sect, w`marks, w`live, w.own, w.adjLand, w.xzone, w.seen
    modifies b, b.closest, b.distance, b.queue, c.cap, c.mc, c`history
    ensures w.Valid() && b.Valid()
    ensures done ==> Finished(w, c.cap[..], g)
    // It gives up only after NUMTRIES tries, or when there is no room for all capitals
    ensures 1 <= tries <= NUMTRIES
    ensures !done ==> (tries == NUMTRIES && NoRoom(w, b, c.cap[..])) || w.p.nc > WorldSz()
    ensures w.curSeen <= tries * CallsPerTry(w.p) <= NUMTRIES * CallsPerTry(w.p) < UINT_MAX
  {
    hide WorldSz, CallsPerTry, Finished, NoRoom;
    g, done, tries := Grown([], [], [], 0, [], []), false, 0;
    while !done && tries < NUMTRIES
      invariant 0 <= tries <= NUMTRIES && (tries == 0 ==> !done)
      invariant w.Valid() && b.Valid()
      invariant w.curSeen <= tries * CallsPerTry(w.p) <= NUMTRIES * CallsPerTry(w.p)
      invariant forall t: Sector :: w.seen[t] <= w.curSeen
      invariant done ==> Finished(w, c.cap[..], g)
      invariant !done && tries > 0 ==> NoRoom(w, b, c.cap[..])
    {
      MulMonotonic(tries + 1, NUMTRIES, CallsPerTry(w.p));
      OneMore(tries, CallsPerTry(w.p));
      var big;
      big, done, g := Try(w, b, c);
      tries := tries + 1;
      if !big {
        return false, tries, g;
      }
    }
  }

  /** The two capital sectors of each continent are rural. */
  ghost predicate CapitalsRural(sect: seq<seq<Sector>>, nc: nat, sects: seq<Sct>) {
    && nc <= |sect| && |sects| == WorldSz()
    && forall c, i :: 0 <= c < nc && 0 <= i < 2 ==> |sect[c]| >= 2 && sects[sect[c][i]].sctType == Rural
  }

  /** Sea is at zero exactly where no depression was drawn, and below elsewhere. */
  ghost predicate SeaAsDrawn(own: seq<int>, sects: seq<Sct>, live: nat, relief: Relief) {
    && |own| == |sects| == WorldSz() && DrawnFor(own, live, relief)
    && (forall s: Sector | own[s] == -1 && Covered(relief.hills, s) :: sects[s].elev < 0)
    && (forall s: Sector | own[s] == -1 && !Covered(relief.hills, s) :: sects[s].elev == 0)
  }

  ghost function ElevOf(sects: seq<Sct>): (elev: seq<int>)
    ensures |elev| == |sects| && forall s :: 0 <= s < |sects| ==> elev[s] == sects[s].elev
  {
    seq(|sects|, s requires 0 <= s < |sects| => sects[s].elev)
  }

  /** What is written follows from land, hills drawn and the percentage of mountains. */
  ghost predicate Written(l: Land, live: nat, p: Params, pm: nat, relief: Relief, sects: seq<Sct>) {
    && l.Sized() && |sects| == WorldSz()
    && Sculpted(l, live, p, pm, relief, ElevOf(sects))
    && forall s: Sector ::
         && FollowsElevation(sects[s], sects[s].elev) && sects[s].dterr == (l.own[s] + 1) % 256
         && (sects[s].coastal <==> exists d: Dir :: l.own[Neighbor(s, d)] == -1)
  }

  lemma WrittenFrom(l: Land, live: nat, p: Params, pm: nat, relief: Relief, elev: seq<int>, sects: seq<Sct>)
    requires l.Sized() && |elev| == |sects| == WorldSz() && Sculpted(l, live, p, pm, relief, elev)
    requires forall s: Sector :: FollowsElevation(sects[s], elev[s])
    requires forall s: Sector :: sects[s].dterr == (l.own[s] + 1) % 256
    requires forall s: Sector :: sects[s].coastal <==> exists d: Dir :: l.own[Neighbor(s, d)] == -1
    ensures Written(l, live, p, pm, relief, sects)
  {
    hide WorldSz, Sculpted, DepositsFor, Neighbor;
    assert ElevOf(sects) == elev;
  }

  /** Elevations and sector types for a finished world. */
  method Finish(w: World, b: BfsQueue, pm: nat, ghost cap: seq<Sector>, ghost g: Grown)
    returns (sects: seq<Sct>, ghost relief: Relief)
    requires w.Valid() && b.Valid() && Apart(b, w) && Finished(w, cap, g)
    modifies b, b.closest, b.distance, b.queue
    ensures |sects| == WorldSz()
    ensures forall s: Sector :: sects[s].sctType == Water <==> w.own[s] == -1
    ensures CapitalsRural(w.sect, w.p.nc, sects)
    ensures forall s: Sector :: if w.own[s] == -1 then -127 <= sects[s].elev <= 0 else 1 <= sects[s].elev <= 127
    ensures SeaAsDrawn(w.own[..], sects, w.live, relief)
    ensures Written(w.Value(), w.live, w.p, pm, relief, sects)
  {
    hide WorldSz, LandOk, ElevationsOk, DrawnFor, SeaFollows, Covered, TypesOk, Sculpted, IslandsAlike, Neighbor,
         DepositsFor, Written, SeaAsDrawn, CapitalsRural;
    var elev := new int[WorldSz()](i => 0);
    SizesWithinBuffers(w, cap, g);
    relief := CreateElevations(w, b, elev, pm);
    sects := WriteSects(w, elev);
    ElevationsMean(w.Value(), w.live, w.p.nc, elev[..]);
    TypesMean(w.Value(), w.live, w.p.nc, sects);
    SeaFollowsMeans(w.own[..], elev[..], sects, w.live, relief);
    WrittenFrom(w.Value(), w.live, w.p, pm, relief, elev[..], sects);
  }

  lemma TypesMean(l: Land, live: nat, nc: nat, sects: seq<Sct>)
    requires l.Sized() && nc <= live <= |l.sect| && |sects| == WorldSz() && TypesOk(l, live, nc, sects)
    requires forall c :: 0 <= c < nc ==> |l.sect[c]| >= 2
    ensures CapitalsRural(l.sect, nc, sects)
    ensures forall s: Sector :: sects[s].sctType == Water <==> l.own[s] == -1
  {
    hide WorldSz;
  }

  lemma SeaFollowsMeans(own: seq<int>, elev: seq<int>, sects: seq<Sct>, live: nat, relief: Relief)
    requires |own| == |elev| == |sects| == WorldSz() && DrawnFor(own, live, relief)
    requires SeaFollows(own, elev, relief.hills) && forall s: Sector :: sects[s].elev == elev[s]
    ensures SeaAsDrawn(own, sects, live, relief)
  {
    hide WorldSz, DrawnFor, Covered;
  }

  /** main: a world, unless it is not large enough for this much land. */
  method CreateWorld(p: Params, pm: nat)
    returns (done: bool, w: World, cap: seq<Sector>, sects: seq<Sct>, ghost g: Grown, ghost relief: Relief,
             ghost b: BfsQueue)
    requires p.Valid() && p.distinct && p.nc <= p.ni && Moderate(p)
    ensures w.Valid() && w.p == p
    ensures done ==> Finished(w, cap, g)
    ensures done ==> |sects| == WorldSz()
    ensures done ==> forall s: Sector :: sects[s].sctType == Water <==> w.own[s] == -1
    ensures done ==> CapitalsRural(w.sect, p.nc, sects)
    ensures done ==> forall s: Sector :: if w.own[s] == -1 then -127 <= sects[s].elev <= 0
            else 1 <= sects[s].elev <= 127
    ensures done ==> SeaAsDrawn(w.own[..], sects, w.live, relief)
    ensures done ==> Written(w.Value(), w.live, p, pm, relief, sects)
    // It gives up only when there is no room
    ensures !done ==> p.nc > WorldSz() || (b.closest.Length == WorldSz() && |cap| == p.nc && NoRoom(w, b, cap))
  {
    hide WorldSz, Finished, Moderate, SeaAsDrawn, Written, NoRoom;
    w := new World(p);
    var queue := new BfsQueue();
    var c := new Capitals(p.nc);
    var tries;
    done, tries, g := Tries(w, queue, c);
    b := queue;
    cap, sects, relief := c.cap[..], [], Relief([], [], []);
    if done {
      sects, relief := Finish(w, queue, pm, cap, g);
    }
  }

  lemma ElevationsMean(l: Land, live: nat, nc: nat, elev: seq<int>)
    requires l.Sized() && live <= |l.sect| && |elev| == WorldSz() && ElevationsOk(l, live, nc, elev)
    ensures forall s: Sector :: if l.own[s] == -1 then -127 <= elev[s] <= 0 else 1 <= elev[s] <= 127
  {
  }

  lemma SizesWithinBuffers(w: World, cap: seq<Sector>, g: Grown)
    requires w.Valid() && Finished(w, cap, g)
    ensures SizesFit(w) && forall c :: 0 <= c < w.p.nc ==> |w.sect[c]| >= 2
  {
    hide LandOk, Separated;
  }
}
