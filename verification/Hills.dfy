/**
 Raw elevations: random hills on land and depressions at sea (elevate_prep).
 Distances to the coast keep them on their side of it.
 */
module Hills {
  import opened Arith
  import opened HexTorus
  import opened Hexagon
  import opened Land
  import opened Bfs
  import opened Distances
  import opened Chance
  import opened World
  import opened Spheres

  const SHRT_MIN: int := -32768
  const SHRT_MAX: int := 32767

  /** Between sea and land lies the coast: it is no farther from the sea than the land is. */
  lemma {:induction false} CoastBeforeLand(own: seq<int>, s: Sector, t: Sector) returns (q: Sector)
    requires |own| == WorldSz() && own[s] == -1 && own[t] != -1
    ensures Coastal(own, q) && Dist(q, s) <= Dist(t, s)
    decreases Dist(t, s)
  {
    hide Neighbor, Dist;
    var d := DistDescent(t, s);
    if own[Neighbor(t, d)] == -1 {
      q := t;
    } else {
      q := CoastBeforeLand(own, s, Neighbor(t, d));
    }
  }

  /** And it is nearer to the land than the sea is. */
  lemma {:induction false} CoastBeforeSea(own: seq<int>, s: Sector, t: Sector) returns (q: Sector)
    requires |own| == WorldSz() && own[s] != -1 && own[t] == -1
    ensures Coastal(own, q) && Dist(q, s) < Dist(t, s)
    decreases Dist(t, s)
  {
    hide Neighbor, Dist;
    var d := DistDescent(t, s);
    var n := Neighbor(t, d);
    if own[n] != -1 {
      q := n;
      BackAndForth(t, d);
      assert own[Neighbor(n, DirBack(d))] == -1;
    } else {
      q := CoastBeforeSea(own, s, n);
    }
  }

  /** How far a hill around s may extend. */
  function Reach(own: int, distance: int): int {
    if own == -1 then distance - 1 else distance
  }

  lemma CloserShore(own: seq<int>, live: nat, distance: seq<int>, closest: seq<int>, q: Sector, s: Sector)
    requires CoastDistances(own, live, distance, closest) && Coastal(own, q) && own[q] < live
    ensures distance[s] <= Dist(q, s)
  {
    hide Dist, Coastal, NearestIs;
    assert Shore(own, live, q);
  }

  /** Within reach of s there is only land if s is land, and only sea if s is sea. */
  lemma {:induction false} HillsStayAshore(own: seq<int>, live: nat, distance: seq<int>, closest: seq<int>,
                                           s: Sector, t: Sector)
    requires CoastDistances(own, live, distance, closest)
    requires forall u: Sector :: -1 <= own[u] < live
    requires Dist(t, s) <= Reach(own[s], distance[s])
    ensures own[t] == -1 <==> own[s] == -1
  {
    hide Neighbor, Dist, NearestIs;
    if own[s] == -1 && own[t] != -1 {
      var q := CoastBeforeLand(own, s, t);
      CloserShore(own, live, distance, closest, q, s);
    }
    if own[s] != -1 && own[t] == -1 {
      var q := CoastBeforeSea(own, s, t);
      CloserShore(own, live, distance, closest, q, s);
    }
  }

  /** Land has been raised, if anything, and the sea lowered. */
  ghost predicate RawOk(own: seq<int>, elev: seq<int>) {
    && |own| == |elev| == WorldSz()
    && forall s: Sector :: if own[s] == -1 then SHRT_MIN <= elev[s] <= 0 else 0 <= elev[s] <= SHRT_MAX
  }

  /** after is at least k steps beyond before, or at the limit. */
  ghost predicate Beyond(before: int, after: int, sign: int, k: int) {
    var limited := LimitTo(before + sign * k, SHRT_MIN, SHRT_MAX);
    if sign > 0 then after >= limited else after <= limited
  }

  /** Sectors less than d away from s are raised by what a hill r sectors wide demands, the others not at all. */
  ghost predicate HillTo(before: seq<int>, after: seq<int>, s: Sector, r: nat, d: nat, sign: int) {
    && |before| == |after| == WorldSz()
    && forall t: Sector ::
         if Dist(t, s) < d then Beyond(before[t], after[t], sign, Steps(r, Dist(t, s))) else after[t] == before[t]
  }

  /** The same within distance d, and for those of the visited sectors that are exactly d away. */
  ghost predicate RingTo(before: seq<int>, after: seq<int>, s: Sector, r: nat, d: nat, sign: int,
                         visited: set<Sector>) {
    && |before| == |after| == WorldSz()
    && forall t: Sector ::
         if Dist(t, s) < d || (Dist(t, s) == d && t in visited)
         then Beyond(before[t], after[t], sign, Steps(r, Dist(t, s)))
         else after[t] == before[t]
  }

  function Steps(r: nat, d: nat): int {
    r * r - d * d
  }

  function Raised(elev: int, sign: int, steps: int): int {
    LimitTo(elev + sign * steps, SHRT_MIN, SHRT_MAX)
  }

  /** Raise sectors in turn, each by the same number of steps. */
  function RaiseAll(elev: seq<int>, ring: seq<Sector>, sign: int, steps: int): (after: seq<int>)
    requires |elev| == WorldSz()
    ensures |after| == |elev|
  {
    if ring == [] then elev
    else
      var before := RaiseAll(elev, ring[..|ring| - 1], sign, steps);
      var t := ring[|ring| - 1];
      before[t := Raised(before[t], sign, steps)]
  }

  /** A hill around s that is r sectors wide, up to d sectors of it: the center, then the rings around it. */
  ghost function HillUpTo(elev: seq<int>, s: Sector, r: nat, d: nat, sign: int): (after: seq<int>)
    requires |elev| == WorldSz()
    ensures |after| == |elev|
  {
    if d == 0 then elev
    else if d == 1 then elev[s := Raised(elev[s], sign, Steps(r, 0))]
    else RaiseAll(HillUpTo(elev, s, r, d - 1, sign), RingUpTo(s, d - 1, 7, 0), sign, Steps(r, d - 1))
  }

  /** How often a hill d sectors wide raises a sector. */
  function HillSize(d: nat): int {
    1 + 3 * d * (d - 1)
  }

  lemma RaiseAllMore(elev: seq<int>, ring: seq<Sector>, t: Sector, sign: int, steps: int)
    requires |elev| == WorldSz()
    ensures RaiseAll(elev, ring + [t], sign, steps) ==
            var before := RaiseAll(elev, ring, sign, steps); before[t := Raised(before[t], sign, steps)]
  {
    hide Raised, WorldSz;
    assert (ring + [t])[..|ring|] == ring;
  }

  lemma RaiseNothing(elev: seq<int>, sign: int, steps: int)
    requires |elev| == WorldSz()
    ensures RaiseAll(elev, [], sign, steps) == elev
  {
  }

  lemma NextRing(d: nat)
    ensures HillSize(1) == 1 && HillSize(d + 1) == HillSize(d) + 6 * d && d * 6 == 6 * d
  {
  }

  lemma HillStarts(before: seq<int>, s: Sector, r: nat, sign: int)
    requires |before| == WorldSz() && (sign == 1 || sign == -1)
    ensures HillTo(before, before[s := Raised(before[s], sign, Steps(r, 0))], s, r, 1, sign)
  {
    hide Dist;
    forall t: Sector
      ensures Dist(t, s) == 0 <==> t == s
    {
      DistZero(t, s);
    }
  }

  lemma RingStarts(before: seq<int>, after: seq<int>, s: Sector, r: nat, d: nat, sign: int)
    requires HillTo(before, after, s, r, d, sign)
    ensures RingTo(before, after, s, r, d, sign, {})
  {
    hide Dist, Steps, Beyond;
  }

  lemma BeyondMore(before: int, after: int, sign: int, k: int, more: nat)
    requires (sign == 1 || sign == -1) && SHRT_MIN <= after <= SHRT_MAX
    ensures Beyond(before, after, sign, k) ==> Beyond(before, Raised(after, sign, more), sign, k)
    ensures after == before ==> Beyond(before, Raised(after, sign, more), sign, more)
  {
  }

  lemma RingGrows(before: seq<int>, after: seq<int>, s: Sector, r: nat, d: nat, sign: int, visited: set<Sector>,
                  t: Sector)
    requires RingTo(before, after, s, r, d, sign, visited) && (sign == 1 || sign == -1) && d < r && Dist(t, s) <= d
    requires SHRT_MIN <= after[t] <= SHRT_MAX
    ensures RingTo(before, after[t := Raised(after[t], sign, Steps(r, d))], s, r, d, sign, visited + {t})
  {
    hide Dist, Beyond, Raised, Steps;
    StepsPositive(r, d);
    BeyondMore(before[t], after[t], sign, Steps(r, Dist(t, s)), Steps(r, d));
  }

  lemma StepsPositive(r: nat, d: nat)
    requires d < r
    ensures Steps(r, d) > 0
  {
    Squares(r, d);
  }

  lemma RingEnds(before: seq<int>, after: seq<int>, s: Sector, r: nat, d: nat, sign: int)
    requires RingTo(before, after, s, r, d, sign, RingBefore(s, d, 7, 0)) && d > 0
    ensures HillTo(before, after, s, r, d + 1, sign)
  {
    hide Dist, Beyond, Steps, RingBefore;
    BallGrows(s, d);
    forall t: Sector
      ensures Dist(t, s) == d ==> t in RingBefore(s, d, 7, 0)
    {
      assert t in Ball(s, d) <==> Dist(t, s) <= d;
    }
  }

  ghost function Members(s: seq<Sector>): set<Sector> {
    set t | t in s
  }

  ghost predicate InShort(elev: seq<int>) {
    |elev| == WorldSz() && forall t: Sector :: SHRT_MIN <= elev[t] <= SHRT_MAX
  }

  /** Raising the first sectors of a ring. */
  lemma {:induction false} RingShape(before: seq<int>, inner: seq<int>, s: Sector, r: nat, d: nat, sign: int,
                                     ring: seq<Sector>)
    requires HillTo(before, inner, s, r, d, sign) && InShort(inner) && (sign == 1 || sign == -1) && d < r
    requires forall t | t in ring :: Dist(t, s) <= d
    ensures InShort(RaiseAll(inner, ring, sign, Steps(r, d)))
    ensures RingTo(before, RaiseAll(inner, ring, sign, Steps(r, d)), s, r, d, sign, Members(ring))
  {
    hide Dist, Steps, HillTo, RingTo, WorldSz;
    if ring == [] {
      RingStarts(before, inner, s, r, d, sign);
      assert Members(ring) == {};
    } else {
      var front, t := ring[..|ring| - 1], ring[|ring| - 1];
      assert ring == front + [t];
      RingShape(before, inner, s, r, d, sign, front);
      RingGrows(before, RaiseAll(inner, front, sign, Steps(r, d)), s, r, d, sign, Members(front), t);
      assert Members(ring) == Members(front) + {t};
    }
  }

  lemma RingOrder(s: Sector, d: nat)
    requires d > 0
    ensures Members(RingUpTo(s, d, 7, 0)) == RingBefore(s, d, 7, 0)
    ensures forall t | t in RingUpTo(s, d, 7, 0) :: Dist(t, s) <= d
  {
    hide Dist, RingUpTo, RingBefore;
    RingUpToIsRingBefore(s, d, 7, 0);
    BallGrows(s, d);
    forall t | t in RingUpTo(s, d, 7, 0)
      ensures Dist(t, s) <= d
    {
      assert t in Ball(s, d);
    }
  }

  /** Hills raise exactly the sectors less than their width away. */
  lemma {:induction false} HillShape(elev: seq<int>, s: Sector, r: nat, d: nat, sign: int)
    requires InShort(elev) && (sign == 1 || sign == -1) && 0 < d <= r
    ensures HillTo(elev, HillUpTo(elev, s, r, d, sign), s, r, d, sign) && InShort(HillUpTo(elev, s, r, d, sign))
  {
    hide Dist, Steps, HillTo, RingTo, WorldSz, RingUpTo, RingBefore, RaiseAll;
    if d == 1 {
      HillStarts(elev, s, r, sign);
    } else {
      HillShape(elev, s, r, d - 1, sign);
      RingOrder(s, d - 1);
      RingShape(elev, HillUpTo(elev, s, r, d - 1, sign), s, r, d - 1, sign, RingUpTo(s, d - 1, 7, 0));
      RingEnds(elev, HillUpTo(elev, s, r, d, sign), s, r, d - 1, sign);
    }
  }

  /** Raise or lower s by a number of steps, within the limits of a short. */
  method Raise(own: array<int>, elev: array<int>, s: Sector, sign: int, steps: nat)
    requires own.Length == elev.Length == WorldSz() && own != elev && RawOk(own[..], elev[..])
    requires sign == if own[s] == -1 then -1 else 1
    modifies elev
    ensures RawOk(own[..], elev[..])
    ensures elev[..] == old(elev[..])[s := Raised(old(elev[s]), sign, steps)]
  {
    var elevation := elev[s] + sign * steps;
    elev[s] := LimitTo(elevation, SHRT_MIN, SHRT_MAX);
  }

  /** Lines 1337-1343: raise a ring of sectors. */
  method RaiseRing(w: World, b: BfsQueue, elev: array<int>, s: Sector, r: nat, d: nat, sign: int, n: int)
    returns (n': int)
    requires w.Valid() && b.Valid() && elev.Length == WorldSz() && elev != w.own
    requires CoastDistances(w.own[..], w.live, b.distance[..], b.closest[..])
    requires elev as object != b.distance && elev as object != b.closest
    requires forall u: Sector :: -1 <= w.own[u] < w.live
    requires 1 <= r <= 4 && r - 1 <= Reach(w.own[s], b.distance[s]) && r <= 3 + (if w.own[s] == -1 then 0 else 1)
    requires sign == SignOf(w.own[s])
    requires RawOk(w.own[..], elev[..])
    requires 0 < d < r
    modifies elev
    ensures RawOk(w.own[..], elev[..]) && n' == n - 6 * d
    ensures elev[..] == RaiseAll(old(elev[..]), RingUpTo(s, d, 7, 0), sign, Steps(r, d))
  {
    hide WorldSz, Dist, RingAt, RingBefore, RingUpTo, CoastDistances, Reach, RawOk, Steps, Raised, RaiseAll;
    ghost var inner := elev[..];
    n' := n;
    var it := new HexagonIter();
    var s1 := it.First(s, d);
    var more := true;
    RaiseNothing(inner, sign, Steps(r, d));
    while more
      invariant it.Valid() && it.center == s && it.n == d && fresh(it)
      invariant more <==> it.dir <= 6
      invariant more ==> it.On(s1)
      invariant n' == n - |it.Order()|
      invariant RawOk(w.own[..], elev[..]) && elev[..] == RaiseAll(inner, it.Order(), sign, Steps(r, d))
      decreases 7 - it.dir, d - it.i
    {
      RingInBall(s, d, it.dir, it.i);
      HillsStayAshore(w.own[..], w.live, b.distance[..], b.closest[..], s, s1);
      Squares(r, d);
      SquareIs(r, d);
      RaiseAllMore(inner, it.Order(), s1, sign, Steps(r, d));
      Raise(w.own, elev, s1, sign, r * r - d * d);
      n' := n' - 1;
      s1, more := it.Next(s1);
    }
  }

  /**
   Lines 1333-1344: a hill or depression around s that is r sectors wide; n
   counts the sectors raised.  Where it wraps around and meets itself, sectors may
   be raised more than once.
   */
  method RaiseHill(w: World, b: BfsQueue, elev: array<int>, s: Sector, r: nat, sign: int, n: int) returns (n': int)
    requires w.Valid() && b.Valid() && elev.Length == WorldSz() && elev != w.own
    requires CoastDistances(w.own[..], w.live, b.distance[..], b.closest[..])
    requires elev as object != b.distance && elev as object != b.closest
    requires forall u: Sector :: -1 <= w.own[u] < w.live
    requires 1 <= r <= 4 && r - 1 <= Reach(w.own[s], b.distance[s]) && r <= 3 + (if w.own[s] == -1 then 0 else 1)
    requires sign == SignOf(w.own[s])
    requires RawOk(w.own[..], elev[..])
    modifies elev
    ensures RawOk(w.own[..], elev[..]) && n' == n - HillSize(r)
    ensures elev[..] == HillUpTo(old(elev[..]), s, r, r, sign)
  {
    hide WorldSz, Dist, RingUpTo, CoastDistances, Reach, RawOk, Steps, Raised, RaiseAll, HillSize;
    ghost var before := elev[..];
    SquareIs(r, 0);
    Raise(w.own, elev, s, sign, r * r);
    n' := n - 1;
    NextRing(1);
    var d := 1;
    while d < r
      invariant 1 <= d <= r && n' == n - HillSize(d)
      invariant RawOk(w.own[..], elev[..]) && elev[..] == HillUpTo(before, s, r, d, sign)
    {
      n' := RaiseRing(w, b, elev, s, r, d, sign, n');
      NextRing(d);
      d := d + 1;
    }
  }

  lemma SquareIs(r: nat, d: nat)
    ensures Steps(r, d) == r * r - d * d && Steps(r, 0) == r * r
  {
  }

  lemma Squares(r: nat, d: nat)
    requires d < r
    ensures d * d < r * r
  {
    MulMonotonic(d, r, d);
    MulMonotonic(d, r, r);
    assert d * r <= r * r;
    assert (r - d) * r > 0;
  }

  // Runs of elevate_prep

  /** A hill (on land) or depression (at sea): its center, and how many sectors wide it is. */
  datatype Hill = Hill(at: Sector, r: nat)

  function SignOf(own: int): int {
    if own == -1 then -1 else 1
  }

  /** roll(MIN(3, distance)) at sea, roll(MIN(3, distance) + 1) on land. */
  ghost predicate Rollable(own: seq<int>, distance: seq<int>, h: Hill)
    requires |own| == |distance| == WorldSz()
  {
    1 <= h.r <= Min(3, distance[h.at]) + (if own[h.at] == -1 then 0 else 1)
  }

  /** The sectors raised by some hills, counting repetitions. */
  function SumSizes(hills: seq<Hill>): int {
    if hills == [] then 0 else SumSizes(hills[..|hills| - 1]) + HillSize(hills[|hills| - 1].r)
  }

  /** Elevations after some hills. */
  ghost function AfterHills(own: seq<int>, elev: seq<int>, hills: seq<Hill>): (after: seq<int>)
    requires |own| == |elev| == WorldSz()
    ensures |after| == |elev|
  {
    if hills == [] then elev
    else
      var h := hills[|hills| - 1];
      HillUpTo(AfterHills(own, elev, hills[..|hills| - 1]), h.at, h.r, h.r, SignOf(own[h.at]))
  }

  /** Elevations after some hills, where there was nothing before. */
  ghost function RawElevations(own: seq<int>, hills: seq<Hill>): (raw: seq<int>)
    requires |own| == WorldSz()
    ensures |raw| == WorldSz()
  {
    AfterHills(own, seq(WorldSz(), i => 0), hills)
  }

  lemma RawIs(own: seq<int>, elev: seq<int>)
    requires |own| == |elev| == WorldSz() && forall s: Sector :: elev[s] == 0
    ensures forall hills :: AfterHills(own, elev, hills) == RawElevations(own, hills)
  {
    hide AfterHills;
    assert elev == seq(WorldSz(), i => 0);
  }

  /**
   What was drawn, and from which distances to the coast.  Hills are drawn until
   they have raised a sector 8 times as often as there are sectors.
   */
  datatype Relief = Relief(hills: seq<Hill>, distance: seq<int>, closest: seq<int>)

  ghost predicate DrawnFor(own: seq<int>, live: nat, relief: Relief)
    requires |own| == WorldSz()
  {
    && CoastDistances(own, live, relief.distance, relief.closest)
    && AllRollable(own, relief.distance, relief.hills)
    && relief.hills != []
    && SumSizes(relief.hills[..|relief.hills| - 1]) < 8 * WorldSz() <= SumSizes(relief.hills)
  }

  ghost predicate AllRollable(own: seq<int>, distance: seq<int>, hills: seq<Hill>) {
    |own| == |distance| == WorldSz() && forall h | h in hills :: Rollable(own, distance, h)
  }

  /** Some hill covers sector t. */
  ghost predicate Covered(hills: seq<Hill>, t: Sector) {
    exists h :: h in hills && Dist(t, h.at) < h.r
  }

  /** Exactly the sectors covered have an elevation other than zero. */
  ghost predicate Shows(elev: seq<int>, hills: seq<Hill>) {
    && |elev| == WorldSz()
    && (forall t: Sector | Covered(hills, t) :: elev[t] != 0)
    && (forall t: Sector | !Covered(hills, t) :: elev[t] == 0)
  }

  lemma CoveredNext(hills: seq<Hill>, h: Hill, t: Sector)
    ensures Covered(hills + [h], t) <==> Covered(hills, t) || Dist(t, h.at) < h.r
  {
    hide Dist;
    if Covered(hills, t) {
      var g :| g in hills && Dist(t, g.at) < g.r;
      assert g in hills + [h];
    }
    if Dist(t, h.at) < h.r {
      assert h in hills + [h];
    }
  }

  lemma BeyondZero(before: int, after: int, sign: int, k: int)
    requires (sign == 1 || sign == -1) && k > 0 && Beyond(before, after, sign, k) && sign * before >= 0
    ensures after != 0
  {
  }

  /** A hill makes itself felt in every sector it covers, as it stays on its side of the coast. */
  lemma ShowsNext(own: seq<int>, live: nat, distance: seq<int>, closest: seq<int>, elev: seq<int>,
                  hills: seq<Hill>, h: Hill)
    requires CoastDistances(own, live, distance, closest) && forall u: Sector :: -1 <= own[u] < live
    requires h.r > 0 && h.r - 1 <= Reach(own[h.at], distance[h.at])
    requires RawOk(own, elev) && Shows(elev, hills)
    ensures Shows(HillUpTo(elev, h.at, h.r, h.r, SignOf(own[h.at])), hills + [h])
  {
    hide Dist, Covered, HillUpTo, Beyond, Steps, CoastDistances, Reach;
    var sign := SignOf(own[h.at]);
    var after := HillUpTo(elev, h.at, h.r, h.r, sign);
    HillShape(elev, h.at, h.r, h.r, sign);
    forall t: Sector
      ensures Covered(hills + [h], t) ==> after[t] != 0
      ensures !Covered(hills + [h], t) ==> after[t] == 0
    {
      CoveredNext(hills, h, t);
      if Dist(t, h.at) < h.r {
        HillsStayAshore(own, live, distance, closest, h.at, t);
        StepsPositive(h.r, Dist(t, h.at));
        BeyondZero(elev[t], after[t], sign, Steps(h.r, Dist(t, h.at)));
      }
    }
  }

  /** n is what is left of 8 times the sectors, and there was something left before the last hill. */
  ghost predicate Counted(hills: seq<Hill>, n: int) {
    && n == 8 * WorldSz() - SumSizes(hills)
    && (hills != [] ==> SumSizes(hills[..|hills| - 1]) < 8 * WorldSz())
  }

  lemma CountNext(hills: seq<Hill>, h: Hill, n: int)
    requires Counted(hills, n) && n > 0
    ensures Counted(hills + [h], n - HillSize(h.r)) && HillSize(h.r) > 0
  {
    hide WorldSz;
    assert (hills + [h])[..|hills|] == hills;
    if h.r > 0 {
      MulMonotonic(0, h.r - 1, h.r);
    }
  }

  lemma AfterNext(own: seq<int>, elev: seq<int>, hills: seq<Hill>, h: Hill)
    requires |own| == |elev| == WorldSz()
    ensures AfterHills(own, elev, hills + [h]) ==
            HillUpTo(AfterHills(own, elev, hills), h.at, h.r, h.r, SignOf(own[h.at]))
  {
    hide WorldSz, HillUpTo;
    assert (hills + [h])[..|hills|] == hills;
  }

  lemma NothingCovered(elev: seq<int>)
    requires |elev| == WorldSz() && forall s: Sector :: elev[s] == 0
    ensures Shows(elev, []) && Counted([], 8 * WorldSz())
  {
    hide Dist, WorldSz;
  }

  /** Lines 1324-1332: a center, and how wide a hill or depression to make. */
  method DrawHill(w: World, b: BfsQueue) returns (h: Hill, sign: int)
    requires w.Valid() && b.Valid() && CoastDistances(w.own[..], w.live, b.distance[..], b.closest[..])
    ensures Rollable(w.own[..], b.distance[..], h) && sign == SignOf(w.own[h.at])
  {
    hide CoastDistances, WorldSz;
    var off0 := Roll0(WorldSz());
    DistanceOfSea(w, b, off0);
    var r;
    if w.own[off0] == -1 {
      r := Roll(Min(3, b.distance[off0]));
      sign := -1;
    } else {
      r := Roll(Min(3, b.distance[off0]) + 1);
      sign := 1;
    }
    h := Hill(off0, r);
  }

  /** elevate_prep; relief is what it draws. */
  method ElevatePrep(w: World, b: BfsQueue, elev: array<int>) returns (ghost relief: Relief)
    requires w.Valid() && b.Valid() && LandOk(w.Value(), w.live) && w.live == w.p.nc + w.p.ni && Apart(b, w)
    requires elev.Length == WorldSz() && forall s: Sector :: elev[s] == 0
    requires elev as object !in {w.own as object, w.adjLand, w.xzone, w.seen, b.distance, b.closest, b.queue}
    modifies b, b.closest, b.distance, b.queue, elev
    ensures b.Valid() && RawOk(w.own[..], elev[..])
    ensures DrawnFor(w.own[..], w.live, relief)
    ensures elev[..] == AfterHills(w.own[..], old(elev[..]), relief.hills)
    ensures Shows(elev[..], relief.hills)
  {
    hide Dist, Neighbor, LandOk, CoastDistances, RawOk, Shows, Counted, HillSize, HillUpTo, AllRollable, WorldSz;
    ghost var hills, before := [], elev[..];
    var n := WorldSz() * 8;
    StartsRaw(w.own[..], elev[..]);
    NothingCovered(elev[..]);
    InitDistanceToCoast(b, w);
    OwnersFrom(w.Value(), w.live);
    OwnersBelow(w.Value(), w.live);
    NothingRolled(w.own[..], b.distance[..]);
    while n > 0
      invariant b.Valid() && RawOk(w.own[..], elev[..])
      invariant CoastDistances(w.own[..], w.live, b.distance[..], b.closest[..])
      invariant Counted(hills, n) && AllRollable(w.own[..], b.distance[..], hills)
      invariant elev[..] == AfterHills(w.own[..], before, hills) && Shows(elev[..], hills)
      decreases n
    {
      var h, sign := DrawHill(w, b);
      RollableReach(w.own[..], b.distance[..], h);
      CountNext(hills, h, n);
      AfterNext(w.own[..], before, hills, h);
      RollNext(w.own[..], b.distance[..], hills, h);
      ShowsNext(w.own[..], w.live, b.distance[..], b.closest[..], elev[..], hills, h);
      n := RaiseHill(w, b, elev, h.at, h.r, sign, n);
      hills := hills + [h];
    }
    relief := Relief(hills, b.distance[..], b.closest[..]);
    IsDrawn(w.own[..], w.live, relief, n);
  }

  lemma StartsRaw(own: seq<int>, elev: seq<int>)
    requires |own| == |elev| == WorldSz() && forall s: Sector :: elev[s] == 0
    ensures RawOk(own, elev)
  {
  }

  lemma NothingRolled(own: seq<int>, distance: seq<int>)
    requires |own| == |distance| == WorldSz()
    ensures AllRollable(own, distance, []) && AfterHills(own, own, []) == own
  {
  }

  lemma RollNext(own: seq<int>, distance: seq<int>, hills: seq<Hill>, h: Hill)
    requires |own| == |distance| == WorldSz() && AllRollable(own, distance, hills) && Rollable(own, distance, h)
    ensures AllRollable(own, distance, hills + [h])
  {
    hide Rollable;
  }

  lemma RollableReach(own: seq<int>, distance: seq<int>, h: Hill)
    requires |own| == |distance| == WorldSz() && Rollable(own, distance, h)
    ensures 1 <= h.r <= 4 && h.r - 1 <= Reach(own[h.at], distance[h.at])
    ensures h.r <= 3 + (if own[h.at] == -1 then 0 else 1)
  {
  }

  lemma IsDrawn(own: seq<int>, live: nat, relief: Relief, n: int)
    requires |own| == WorldSz() && CoastDistances(own, live, relief.distance, relief.closest)
    requires AllRollable(own, relief.distance, relief.hills) && Counted(relief.hills, n) && n <= 0
    ensures DrawnFor(own, live, relief)
  {
    hide CoastDistances, AllRollable;
  }

  /** The same hill n times. */
  function Repeated(h: Hill, n: nat): (hills: seq<Hill>)
    ensures |hills| == n && forall g | g in hills :: g == h
  {
    if n == 0 then [] else Repeated(h, n - 1) + [h]
  }

  lemma {:induction false} RepeatedSizes(at: Sector, n: nat)
    ensures SumSizes(Repeated(Hill(at, 1), n)) == n
  {
    hide WorldSz;
    if n > 0 {
      RepeatedSizes(at, n - 1);
      assert Repeated(Hill(at, 1), n)[..n - 1] == Repeated(Hill(at, 1), n - 1);
    }
  }

  /** All of the sea may stay at zero: draw the same land sector all the time, and hills one sector wide. */
  lemma FlatSeaIsPossible(own: seq<int>, live: nat, distance: seq<int>, closest: seq<int>, at: Sector)
    returns (relief: Relief)
    requires |own| == WorldSz() && CoastDistances(own, live, distance, closest) && own[at] != -1
    ensures DrawnFor(own, live, relief) && forall t: Sector | own[t] == -1 :: !Covered(relief.hills, t)
  {
    hide CoastDistances, Dist, WorldSz, SumSizes;
    var h := Hill(at, 1);
    NoNegativeDistance(own, live, distance, closest, at);
    relief := Relief(Repeated(h, 8 * WorldSz()), distance, closest);
    RepeatedSizes(at, 8 * WorldSz());
    RepeatedSizes(at, 8 * WorldSz() - 1);
    assert relief.hills[..8 * WorldSz() - 1] == Repeated(h, 8 * WorldSz() - 1);
    assert AllRollable(own, distance, relief.hills);
    forall t: Sector | own[t] == -1
      ensures !Covered(relief.hills, t)
    {
      DistZero(t, at);
    }
  }

  lemma OwnersBelow(l: Land, live: nat)
    requires LandOk(l, live)
    ensures forall u: Sector :: -1 <= l.own[u] < live
  {
    hide Neighbor;
  }

  lemma NoNegativeDistance(own: seq<int>, live: nat, distance: seq<int>, closest: seq<int>, s: Sector)
    requires CoastDistances(own, live, distance, closest)
    ensures |own| == |distance| == WorldSz() && distance[s] >= 0
  {
    hide Dist, Neighbor, NearestIs;
  }

  /** Sea is at least one sector away from the coast. */
  lemma DistanceOfSea(w: World, b: BfsQueue, s: Sector)
    requires w.Valid() && b.Valid() && CoastDistances(w.own[..], w.live, b.distance[..], b.closest[..])
    ensures w.own[s] == -1 ==> b.distance[s] >= 1
  {
    hide Dist, Neighbor, NearestIs;
    if b.distance[s] == 0 {
      var q: Sector :| ShoreAt(w.own[..], w.live, b.distance[..], q, s);
      DistZero(q, s);
    }
  }
}
