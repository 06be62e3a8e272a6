/**
 The iterator over the ring of sectors at some distance of a centre
 (hexagon_first, hexagon_next).

 The ring is walked on the torus, one wrapped step at a time.  To say where it
 leads, the ring is first described in the plane, where it is a hexagon of six
 sides with n points each, and then folded onto the torus.
 */
module Hexagon {
  import opened Arith
  import opened HexTorus

  // The hexagon in the plane

  /** A position relative to some sector. */
  datatype Point = Point(x: int, y: int)

  /** The point i steps down side d of the hexagon with radius n. */
  function RingPoint(n: nat, d: Dir, i: nat): (p: Point)
    ensures SameParity(p)
  {
    if d == 1 then EvenApart(i - 2 * n, 0 - i, i - n); Point(i - 2 * n, 0 - i)
    else if d == 2 then EvenApart(2 * i - n, 0 - n, i); Point(2 * i - n, 0 - n)
    else if d == 3 then EvenApart(n + i, i - n, n); Point(n + i, i - n)
    else if d == 4 then EvenApart(2 * n - i, i, n - i); Point(2 * n - i, i)
    else if d == 5 then EvenApart(n - 2 * i, n, 0 - i); Point(n - 2 * i, n)
    else EvenApart(0 - n - i, n - i, 0 - n); Point(0 - n - i, n - i)
  }

  lemma EvenApart(a: int, b: int, half: int)
    requires a - b == 2 * half
    ensures a % 2 == b % 2
  {
  }

  function PlaneDist(p: Point): nat {
    HexNorm(Abs(p.x), Abs(p.y))
  }

  /** p is the position of some sector relative to another one. */
  predicate SameParity(p: Point) {
    p.x % 2 == p.y % 2
  }

  /** The points on the ring of radius n are at distance n. */
  lemma RingPointDist(n: nat, d: Dir, i: nat)
    requires i < n
    ensures PlaneDist(RingPoint(n, d, i)) == n
    ensures -2 * n <= RingPoint(n, d, i).x <= 2 * n
  {
  }

  lemma Halved(a: int, b: int)
    requires a % 2 == b % 2
    ensures 2 * ((a + b) / 2) == a + b && 2 * ((a - b) / 2) == a - b
  {
  }

  lemma AbsParity(a: int)
    ensures Abs(a) % 2 == a % 2
  {
    EvenApart(-a, a, -a);
  }

  /** The points at distance n: those on the top and bottom sides, and those on the others. */
  lemma AtDistanceN(n: nat, x: int, y: int)
    requires HexNorm(Abs(x), Abs(y)) == n && x % 2 == y % 2
    ensures if Abs(x) > Abs(y) then Abs(x) + Abs(y) == 2 * n else Abs(y) == n
  {
    AbsParity(x);
    AbsParity(y);
    Halved(Abs(x), Abs(y));
  }

  /** Every point at distance n is on the ring. */
  lemma RingComplete(n: nat, p: Point) returns (d: Dir, i: nat)
    requires n > 0 && PlaneDist(p) == n && SameParity(p)
    ensures i < n && p == RingPoint(n, d, i)
  {
    var Point(x, y) := p;
    AtDistanceN(n, x, y);
    Halved(x, y);
    if y + n == 0 && x < n {
      d, i := 2, (x - y) / 2;
    } else if y < 0 && x > 0 {
      d, i := 3, y + n;
    } else if y == n && x + n > 0 {
      d, i := 5, 0 - (x - y) / 2;
    } else if y >= 0 && x > 0 {
      d, i := 4, y;
    } else if y > 0 {
      d, i := 6, n - y;
    } else {
      d, i := 1, 0 - y;
    }
  }

  /** No point occurs twice on the ring: it has 6 * n points. */
  lemma RingPointsDistinct(n: nat, d: Dir, i: nat, e: Dir, j: nat)
    requires i < n && j < n && RingPoint(n, d, i) == RingPoint(n, e, j)
    ensures d == e && i == j
  {
  }

  // The hexagon on the torus

  /** Any number of wraps. */
  function Fold(a: int, dim: WorldDim): (r: int)
    ensures 0 <= r < dim && r % 2 == a % 2
  {
    FoldParity(a, a / dim, dim, a % dim);
    a % dim
  }

  lemma FoldParity(a: int, q: int, dim: WorldDim, r: int)
    requires a == q * dim + r
    ensures r % 2 == a % 2
  {
    var h := dim / 2;
    HalfOfDouble(q, dim, h);
    EvenApart(a, r, q * h);
  }

  lemma FoldStep(a: int, k: int, dim: WorldDim)
    requires -2 <= k <= 2
    ensures Wrapped(Fold(a, dim) + k, dim) == Fold(a + k, dim)
  {
    hide Wrapped;
    var q := a / dim;
    var r := Wrapped(a % dim + k, dim);
    assert a == q * dim + a % dim;
    assert (q - 1) * dim == q * dim - dim && (q + 1) * dim == q * dim + dim;
    DivModUnique(a + k, dim, if a % dim + k < 0 then q - 1 else if a % dim + k < dim then q else q + 1, r);
  }

  /** The sector at position p relative to s. */
  function At(s: Sector, p: Point): Sector
    requires SameParity(p)
  {
    hide XYOffset, SctX, SctY, WorldSz, Fold;
    SectorHasCoordinates(s);
    XYOffset(Fold(SctX(s) + p.x, WORLD_X), Fold(SctY(s) + p.y, WORLD_Y))
  }

  lemma AtCoordinates(s: Sector, p: Point)
    requires SameParity(p)
    ensures SctX(At(s, p)) == Fold(SctX(s) + p.x, WORLD_X)
    ensures SctY(At(s, p)) == Fold(SctY(s) + p.y, WORLD_Y)
  {
    hide XYOffset, SctX, SctY, WorldSz, Fold;
    SectorHasCoordinates(s);
    CoordinatesOfOffset(Fold(SctX(s) + p.x, WORLD_X), Fold(SctY(s) + p.y, WORLD_Y));
  }

  function Step(p: Point, d: Dir): Point {
    Point(p.x + DirX(d), p.y + DirY(d))
  }

  /** A step on the torus is a step in the plane. */
  lemma AtStep(s: Sector, p: Point, d: Dir)
    requires SameParity(p)
    ensures SameParity(Step(p, d))
    ensures Neighbor(At(s, p), d) == At(s, Step(p, d))
  {
    hide XYOffset, SctX, SctY, WorldSz, At, Wrapped, Fold, Neighbor;
    SectorHasCoordinates(At(s, p));
    AtCoordinates(s, p);
    NeighborCoordinates(At(s, p), d);
    FoldStep(SctX(s) + p.x, DirX(d), WORLD_X);
    FoldStep(SctY(s) + p.y, DirY(d), WORLD_Y);
    var q := Step(p, d);
    AtCoordinates(s, q);
    SectorHasCoordinates(At(s, q));
    SectorHasCoordinates(Neighbor(At(s, p), d));
  }

  /** A sector at some position is no farther away than that position. */
  lemma AtDist(s: Sector, p: Point)
    requires SameParity(p)
    ensures Dist(At(s, p), s) <= PlaneDist(p)
  {
    hide XYOffset, SctX, SctY, WorldSz, At, Wrapped, Fold, Neighbor, Dist, Delta;
    AtCoordinates(s, p);
    var g := Gap(At(s, p), s);
    SectorHasCoordinates(At(s, p));
    SectorHasCoordinates(s);
    FoldDelta(SctX(s), p.x, WORLD_X);
    FoldDelta(SctY(s), p.y, WORLD_Y);
  }

  lemma FoldDelta(a: int, k: int, dim: WorldDim)
    requires 0 <= a < dim
    ensures Delta(Fold(a + k, dim), a, dim) <= Abs(k)
  {
    hide Delta;
    var q := (a + k) / dim;
    assert a + k == q * dim + (a + k) % dim;
    MulMonotonic(1, q, dim);
    MulMonotonic(q, -1, dim);
  }

  /** Every sector has a position at its distance. */
  lemma PositionOf(s: Sector, t: Sector) returns (p: Point)
    ensures SameParity(p) && At(s, p) == t && PlaneDist(p) == Dist(t, s)
  {
    hide XYOffset, SctX, SctY, WorldSz, Wrapped, Fold, Neighbor, Dist, Delta, At;
    SectorHasCoordinates(t);
    SectorHasCoordinates(s);
    var g := Gap(t, s);
    p := Point(Unfold(SctX(s), SctX(t), WORLD_X), Unfold(SctY(s), SctY(t), WORLD_Y));
    AtCoordinates(s, p);
    SectorHasCoordinates(At(s, p));
  }

  lemma FoldIs(a: int, dim: WorldDim, q: int, r: int)
    requires a == q * dim + r && 0 <= r < dim
    ensures Fold(a, dim) == r
  {
    DivModUnique(a, dim, q, r);
  }

  lemma UnfoldParity(a: int, b: int, k: int, dim: WorldDim)
    requires k == b - a || k == b - a + dim || k == b - a - dim
    ensures k % 2 == 0 <==> a % 2 == b % 2
  {
    EvenApart(k, b - a, (k - (b - a)) / 2);
    AbsParity(b - a);
    DifferenceParity(b, a);
  }

  /** The short way round from a to b. */
  function Unfold(a: int, b: int, dim: WorldDim): (k: int)
    requires 0 <= a < dim && 0 <= b < dim
    ensures Fold(a + k, dim) == b && Abs(k) == Delta(a, b, dim) == Delta(b, a, dim)
    ensures k % 2 == 0 <==> a % 2 == b % 2
  {
    hide Fold;
    var k := if Abs(b - a) <= dim / 2 then b - a else if b < a then b - a + dim else b - a - dim;
    FoldIs(a + k, dim, if a + k < 0 then -1 else if a + k < dim then 0 else 1, b);
    UnfoldParity(a, b, k, dim);
    k
  }

  // The sectors of a ring

  ghost function RingAt(s: Sector, n: nat, d: Dir, i: nat): Sector {
    At(s, RingPoint(n, d, i))
  }

  /** The sectors on the ring around s with radius n that come before the i-th of side d. */
  ghost function RingBefore(s: Sector, n: nat, d: int, i: nat): set<Sector> {
    set e: Dir, j: nat | 1 <= e <= 6 && 0 <= j < n && (e < d || (e == d && j < i)) :: RingAt(s, n, e, j)
  }

  /** The sectors within distance n of s. */
  ghost function Ball(s: Sector, n: nat): set<Sector> {
    set t: Sector | 0 <= t < WorldSz() && Dist(t, s) <= n
  }

  /** The same sectors in order, as often as the ring meets them. */
  ghost function RingUpTo(s: Sector, n: nat, d: int, i: nat): (r: seq<Sector>)
    requires n > 0 && 1 <= d <= 7 && i <= n && (d == 7 ==> i == 0)
    ensures |r| == n * (d - 1) + i
    decreases d, i
  {
    if i > 0 then RingUpTo(s, n, d, i - 1) + [RingAt(s, n, d, i - 1)]
    else if d > 1 then RingUpTo(s, n, d - 1, n)
    else []
  }

  lemma {:induction false} RingUpToIsRingBefore(s: Sector, n: nat, d: int, i: nat)
    requires n > 0 && 1 <= d <= 7 && i <= n && (d == 7 ==> i == 0)
    ensures forall t: Sector :: t in RingUpTo(s, n, d, i) <==> t in RingBefore(s, n, d, i)
    decreases d, i
  {
    hide RingAt, RingBefore;
    if i > 0 {
      RingUpToIsRingBefore(s, n, d, i - 1);
      RingStep(s, n, d, i - 1);
    } else if d > 1 {
      RingUpToIsRingBefore(s, n, d - 1, n);
      RingStep(s, n, d - 1, n - 1);
    } else {
      NothingBefore(s, n);
    }
  }

  lemma NothingBefore(s: Sector, n: nat)
    ensures RingBefore(s, n, 1, 0) == {}
  {
    hide RingAt;
  }

  lemma RingInBall(s: Sector, n: nat, d: Dir, i: nat)
    requires i < n
    ensures Dist(RingAt(s, n, d, i), s) <= n
  {
    hide XYOffset, SctX, SctY, WorldSz, Dist, At;
    RingPointDist(n, d, i);
    AtDist(s, RingPoint(n, d, i));
  }

  /** Rings 1 to n and the centre make up the ball of radius n, even where they wrap around. */
  lemma BallGrows(s: Sector, n: nat)
    requires n > 0
    ensures Ball(s, n) == Ball(s, n - 1) + RingBefore(s, n, 7, 0)
  {
    hide XYOffset, SctX, SctY, Dist, At, RingPoint;
    forall t | t in Ball(s, n)
      ensures t in Ball(s, n - 1) + RingBefore(s, n, 7, 0)
    {
      if Dist(t, s) == n {
        var p := PositionOf(s, t);
        var d, i := RingComplete(n, p);
        assert t == RingAt(s, n, d, i);
      }
    }
    forall t | t in RingBefore(s, n, 7, 0)
      ensures t in Ball(s, n)
    {
      var d: Dir, i: nat :| i < n && t == RingAt(s, n, d, i);
      RingInBall(s, n, d, i);
    }
  }

  lemma BallOfRadiusZero(s: Sector)
    ensures Ball(s, 0) == {s}
  {
    hide Dist;
    forall t: Sector ensures Dist(t, s) == 0 <==> t == s { DistZero(t, s); }
  }

  lemma RingStep(s: Sector, n: nat, d: Dir, i: nat)
    requires i < n
    ensures RingBefore(s, n, d, i + 1) == RingBefore(s, n, d, i) + {RingAt(s, n, d, i)}
    ensures RingBefore(s, n, d, n) == RingBefore(s, n, d + 1, 0)
  {
    hide RingAt;
  }

  lemma OrderStep(s: Sector, n: nat, d: Dir, i: nat)
    requires i < n
    ensures RingUpTo(s, n, d, i + 1) == RingUpTo(s, n, d, i) + [RingAt(s, n, d, i)]
    ensures RingUpTo(s, n, d, n) == RingUpTo(s, n, d + 1, 0)
  {
    hide RingAt;
  }

  /** A step along a side leads to its next point, or to the first point of the next side. */
  lemma RingWalk(n: nat, d: Dir, i: nat)
    requires i < n
    ensures Step(RingPoint(n, d, i), d) == if i + 1 < n then RingPoint(n, d, i + 1)
            else RingPoint(n, if d < 6 then d + 1 else 1, 0)
  {
  }

  class HexagonIter {
    var dir: int
    var i: nat
    var n: nat
    ghost var center: Sector

    constructor () {
    }

    ghost predicate Valid()
      reads this
    {
      0 < 2 * n <= WORLD_X && 1 <= dir <= 7 && i < n && (dir == 7 ==> i == 0)
    }

    /** The sectors handed out before the current one. */
    ghost function Visited(): set<Sector>
      reads this
    {
      RingBefore(center, n, dir, i)
    }

    /** The same in the order handed out. */
    ghost function Order(): seq<Sector>
      reads this
      requires Valid()
    {
      RingUpTo(center, n, dir, i)
    }

    /** The iterator stands on s. */
    ghost predicate On(s: Sector)
      reads this
    {
      1 <= dir <= 6 && s == RingAt(center, n, dir, i)
    }

    /** hexagon_first */
    method First(s: Sector, n: nat) returns (first: Sector)
      requires 0 < 2 * n <= WORLD_X
      modifies this
      ensures Valid() && center == s && this.n == n
      ensures On(first) && Visited() == {} && Order() == []
    {
      hide XYOffset, SctX, SctY, WorldSz, At, Fold, Wrapped;
      SectorHasCoordinates(s);
      first := XYOffset(Wrapped(SctX(s) - 2 * n, WORLD_X), SctY(s));
      dir, i, this.n, center := 1, 0, n, s;
      FirstPoint(s, n);
    }

    /** hexagon_next; more says that the ring is not complete yet. */
    method Next(s: Sector) returns (next: Sector, more: bool)
      requires Valid() && On(s)
      modifies this
      ensures Valid() && center == old(center) && n == old(n)
      ensures Visited() == old(Visited()) + {s} && Order() == old(Order()) + [s]
      ensures more ==> On(next)
      ensures !more ==> Visited() == RingBefore(center, n, 7, 0) && next == RingAt(center, n, 1, 0)
      ensures more <==> dir <= 6
      ensures if old(i) + 1 < n then dir == old(dir) && i == old(i) + 1 else dir == old(dir) + 1 && i == 0
    {
      hide XYOffset, SctX, SctY, WorldSz, At, Fold, Wrapped, RingBefore, RingUpTo, Neighbor, RingPoint, Step,
           SameParity;
      RingWalk(n, dir, i);
      AtStep(center, RingPoint(n, dir, i), dir);
      RingStep(center, n, dir, i);
      OrderStep(center, n, dir, i);
      next := Neighbor(s, dir);
      i := i + 1;
      if i == n {
        i := 0;
        dir := dir + 1;
      }
      more := dir <= 6;
    }
  }

  lemma FirstPoint(s: Sector, n: nat)
    requires 0 < 2 * n <= WORLD_X
    ensures Normal(Wrapped(SctX(s) - 2 * n, WORLD_X), SctY(s))
    ensures XYOffset(Wrapped(SctX(s) - 2 * n, WORLD_X), SctY(s)) == RingAt(s, n, 1, 0)
  {
    hide XYOffset, SctX, SctY, WorldSz, Fold;
    SectorHasCoordinates(s);
    var a := SctX(s) - 2 * n;
    FoldIs(a, WORLD_X, if a < 0 then -1 else 0, Wrapped(a, WORLD_X));
    FoldIs(SctY(s), WORLD_Y, 0, SctY(s));
    assert RingPoint(n, 1, 0) == Point(0 - 2 * n, 0);
  }
}
