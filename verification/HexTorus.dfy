/**
 The world of Empire is a torus of hexagons.  Sector x,y exists when x and y
 have the same parity; a sector's six neighbours are two columns away in its own
 row, or one column away in an adjacent row.

 This module holds the coordinate arithmetic the world generator rests on: the
 offset of a sector in the global arrays, one step in a direction with
 wrap-around, and the map distance.  It proves that map distance is the distance
 of the neighbour graph: one step changes it by at most one, and some step
 towards the other sector always lowers it.
 */
module HexTorus {
  import opened Arith

  /** World dimensions are even and not tiny, and no coordinate exceeds a C short. */
  type WorldDim = n: int | 6 <= n <= 32766 && n % 2 == 0 witness 64

  const WORLD_X: WorldDim
  const WORLD_Y: WorldDim

  /** WORLD_SZ(): the number of sectors. */
  function WorldSz(): (n: int)
    ensures n >= 8
  {
    MulMonotonic(4, WORLD_X, WORLD_Y);
    WORLD_X * WORLD_Y / 2
  }

  /** A sector, named by its offset in the per-sector arrays. */
  type Sector = s: int | 0 <= s < WorldSz() witness 0

  /** Directions DIR_FIRST..DIR_LAST: UR, R, DR, DL, L, UL. */
  type Dir = d: int | 1 <= d <= 6 witness 1

  function DirBack(d: Dir): Dir {
    if d >= 4 then d - 3 else d + 3
  }

  function DirX(d: Dir): int {
    if d == 2 then 2 else if d == 5 then -2 else if d <= 3 then 1 else -1
  }

  function DirY(d: Dir): int {
    if d == 2 || d == 5 then 0 else if d == 3 || d == 4 then 1 else -1
  }

  /** x,y are normalized coordinates of some sector. */
  predicate Normal(x: int, y: int) {
    0 <= x < WORLD_X && 0 <= y < WORLD_Y && x % 2 == y % 2
  }

  /** XYOFFSET. */
  function XYOffset(x: int, y: int): (s: Sector)
    requires Normal(x, y)
  {
    OffsetInRange(x, y);
    (y * WORLD_X + x) / 2
  }

  lemma MulMonotonic(a: int, b: int, c: nat)
    ensures a <= b ==> a * c <= b * c
  {
    if a <= b {
      assert (b - a) * c >= 0;
      assert (b - a) * c == b * c - a * c;
    }
  }

  lemma HalfOfDouble(a: int, b: int, h: int)
    requires b == 2 * h
    ensures a * b == 2 * (a * h)
  {
  }

  lemma HalfOfSum(k: int, x: int)
    ensures (2 * k + x) / 2 == k + x / 2
  {
  }

  lemma OffsetInRange(x: int, y: int)
    requires Normal(x, y)
    ensures 0 <= (y * WORLD_X + x) / 2 < WorldSz()
    ensures (y * WORLD_X + x) / 2 == y * (WORLD_X / 2) + x / 2
    ensures WorldSz() == WORLD_Y * (WORLD_X / 2)
  {
    var h := WORLD_X / 2;
    HalfOfDouble(y, WORLD_X, h);
    HalfOfSum(y * h, x);
    WorldSzAre(h);
    RowFits(x / 2, y, h);
  }

  lemma WorldSzAre(h: nat)
    requires WORLD_X == 2 * h
    ensures WorldSz() == WORLD_Y * h
  {
    HalfOfDouble(WORLD_Y, WORLD_X, h);
    HalfOfSum(WORLD_Y * h, 0);
  }

  lemma RowFits(k: nat, y: nat, h: nat)
    requires k < h && y < WORLD_Y
    ensures 0 <= y * h + k < WORLD_Y * h
  {
    MulMonotonic(y + 1, WORLD_Y, h);
    MulMonotonic(0, y, h);
  }

  /** sctoff2xy: the coordinates of a sector. */
  function SctY(s: Sector): int {
    s / (WORLD_X / 2)
  }

  function SctX(s: Sector): int {
    2 * (s % (WORLD_X / 2)) + SctY(s) % 2
  }

  lemma DivModUnique(a: int, b: int, q: int, r: int)
    requires b > 0 && a == q * b + r && 0 <= r < b
    ensures a / b == q && a % b == r
  {
    assert a == (a / b) * b + a % b;
    MulMonotonic(q + 1, a / b, b);
    MulMonotonic(a / b + 1, q, b);
  }

  lemma {:induction false} SectorHasCoordinates(s: Sector)
    ensures Normal(SctX(s), SctY(s))
    ensures XYOffset(SctX(s), SctY(s)) == s
  {
    var h := WORLD_X / 2;
    var y, r := s / h, s % h;
    assert s == y * h + r;
    WorldSzAre(h);
    hide WorldSz;
    RowInRange(s, h, y, r);
    NormalInRow(h, y, r);
    OffsetInRange(2 * r + y % 2, y);
  }

  lemma RowInRange(s: nat, h: nat, y: int, r: nat)
    requires s == y * h + r && r < h && s < WORLD_Y * h
    ensures 0 <= y < WORLD_Y
  {
    MulMonotonic(WORLD_Y, y, h);
    MulMonotonic(y, -1, h);
  }

  lemma NormalInRow(h: nat, y: nat, r: nat)
    requires WORLD_X == 2 * h && r < h && y < WORLD_Y
    ensures Normal(2 * r + y % 2, y) && (2 * r + y % 2) / 2 == r
  {
  }

  lemma CoordinatesOfOffset(x: int, y: int)
    requires Normal(x, y)
    ensures SctX(XYOffset(x, y)) == x && SctY(XYOffset(x, y)) == y
  {
    OffsetInRange(x, y);
    DivModUnique(XYOffset(x, y), WORLD_X / 2, y, x / 2);
  }

  // Wrap-around

  /** The remainder new_x and new_y compute repairs one wrap in either direction. */
  function Wrapped(n: int, dim: WorldDim): (r: int)
    requires 0 <= n + dim && n < dim + dim
    ensures r == if n < 0 then n + dim else if n < dim then n else n - dim
  {
    DivModUnique(n + dim, dim, if n < 0 then 0 else if n < dim then 1 else 2,
                 if n < 0 then n + dim else if n < dim then n else n - dim);
    (n + dim) % dim
  }

  lemma WrappedParity(n: int, dim: WorldDim)
    requires 0 <= n + dim && n < dim + dim
    ensures Wrapped(n, dim) % 2 == n % 2
  {
    hide Wrapped;
    EvenMinus(dim, -n);
    EvenMinus(dim, n);
  }

  lemma EvenMinus(even: int, d: int)
    requires even % 2 == 0
    ensures (even - d) % 2 == d % 2 == (d - even) % 2
  {
  }

  lemma StepNormal(x: int, y: int, d: Dir)
    requires Normal(x, y)
    ensures Normal(Wrapped(x + DirX(d), WORLD_X), Wrapped(y + DirY(d), WORLD_Y))
  {
    hide Wrapped, DirX, DirY;
    DirRange(d);
    StepKeepsParity(x, y, DirX(d), DirY(d));
    WrappedParity(x + DirX(d), WORLD_X);
    WrappedParity(y + DirY(d), WORLD_Y);
  }

  lemma StepKeepsParity(x: int, y: int, dx: int, dy: int)
    requires x % 2 == y % 2 && Abs(dx) + Abs(dy) == 2
    ensures (x + dx) % 2 == (y + dy) % 2
  {
    var p, q := x / 2, y / 2;
    assert x == 2 * p + x % 2 && y == 2 * q + y % 2;
    ParityOfSum(p, x % 2, dx);
    ParityOfSum(q, y % 2, dy);
  }

  lemma ParityOfSum(p: int, r: int, d: int)
    requires 0 <= r <= 1 && -2 <= d <= 2
    ensures (2 * p + r + d) % 2 == (if d == 1 || d == -1 then 1 - r else r)
  {
  }

  /** The sector next to s in direction d. */
  function Neighbor(s: Sector, d: Dir): Sector {
    hide XYOffset, SctX, SctY, WorldSz, Wrapped, Delta;
    SectorHasCoordinates(s);
    StepNormal(SctX(s), SctY(s), d);
    XYOffset(Wrapped(SctX(s) + DirX(d), WORLD_X), Wrapped(SctY(s) + DirY(d), WORLD_Y))
  }

  lemma NeighborCoordinates(s: Sector, d: Dir)
    ensures Normal(SctX(s), SctY(s))
    ensures SctX(Neighbor(s, d)) == Wrapped(SctX(s) + DirX(d), WORLD_X)
    ensures SctY(Neighbor(s, d)) == Wrapped(SctY(s) + DirY(d), WORLD_Y)
  {
    hide XYOffset, SctX, SctY, WorldSz, Wrapped, Delta;
    SectorHasCoordinates(s);
    StepNormal(SctX(s), SctY(s), d);
    CoordinatesOfOffset(Wrapped(SctX(s) + DirX(d), WORLD_X), Wrapped(SctY(s) + DirY(d), WORLD_Y));
  }

  /** The six neighbours' coordinates, clockwise from the upper right, where x and y wrap around. */
  lemma NeighborsAre(s: Sector, d: Dir)
    ensures var (dx, dy) := [(1, -1), (2, 0), (1, 1), (-1, 1), (-2, 0), (-1, -1)][d - 1];
            var (x, y) := (SctX(s) + dx, SctY(s) + dy);
            && SctX(Neighbor(s, d)) == (if x < 0 then x + WORLD_X else if x < WORLD_X then x else x - WORLD_X)
            && SctY(Neighbor(s, d)) == (if y < 0 then y + WORLD_Y else if y < WORLD_Y then y else y - WORLD_Y)
  {
    hide XYOffset, SctX, SctY, WorldSz, Wrapped, Delta, Neighbor;
    NeighborCoordinates(s, d);
  }

  /** Going back undoes a step. */
  lemma {:induction false} BackAndForth(s: Sector, d: Dir)
    ensures Neighbor(Neighbor(s, d), DirBack(d)) == s
  {
    hide XYOffset, SctX, SctY, WorldSz, Wrapped, Delta;
    SectorHasCoordinates(s);
    NeighborCoordinates(s, d);
    NeighborCoordinates(Neighbor(s, d), DirBack(d));
    SectorHasCoordinates(Neighbor(Neighbor(s, d), DirBack(d)));
  }

  // Distance

  /** deltax, deltay: the distance on a circle of dim positions, the shorter way round. */
  function Delta(a: int, b: int, dim: WorldDim): (r: nat)
    requires 0 <= a < dim && 0 <= b < dim
    ensures r == Min(Abs(a - b), dim - Abs(a - b))
  {
    DivModUnique(Abs(a - b), dim, 0, Abs(a - b));
    var d := Abs(a - b) % dim;
    if d > dim / 2 then dim - d else d
  }

  /** mapdist, given the column and row distance. */
  function HexNorm(dx: nat, dy: nat): nat {
    if dx > dy then (dx - dy) / 2 + dy else dy
  }

  function Dist(a: Sector, b: Sector): nat {
    hide XYOffset, SctX, SctY, WorldSz, Wrapped, Delta;
    SectorHasCoordinates(a);
    SectorHasCoordinates(b);
    HexNorm(Delta(SctX(a), SctX(b), WORLD_X), Delta(SctY(a), SctY(b), WORLD_Y))
  }

  /** Distances fit into the unsigned short the distance array holds. */
  lemma {:induction false} DistBounded(a: Sector, b: Sector)
    ensures Dist(a, b) <= 32766
  {
    hide XYOffset, SctX, SctY, WorldSz, Wrapped, Delta;
    SectorHasCoordinates(a);
    SectorHasCoordinates(b);
  }

  lemma {:induction false} DistSymmetric(a: Sector, b: Sector)
    ensures Dist(a, b) == Dist(b, a)
  {
    hide XYOffset, SctX, SctY, WorldSz, Wrapped, Delta;
    SectorHasCoordinates(a);
    SectorHasCoordinates(b);
    DeltaSymmetric(SctX(a), SctX(b), WORLD_X);
    DeltaSymmetric(SctY(a), SctY(b), WORLD_Y);
    hide Min, Abs;
  }

  lemma DeltaSymmetric(a: int, b: int, dim: WorldDim)
    requires 0 <= a < dim && 0 <= b < dim
    ensures Delta(a, b, dim) == Delta(b, a, dim)
  {
  }

  lemma {:induction false} DistZero(a: Sector, b: Sector)
    ensures Dist(a, b) == 0 <==> a == b
  {
    hide XYOffset, SctX, SctY, WorldSz, Wrapped, Delta, Min, Abs;
    SectorHasCoordinates(a);
    SectorHasCoordinates(b);
    DeltaZero(SctX(a), SctX(b), WORLD_X);
    DeltaZero(SctY(a), SctY(b), WORLD_Y);
    DeltaParity(SctX(a), SctX(b), WORLD_X);
  }

  lemma DeltaZero(a: int, b: int, dim: WorldDim)
    requires 0 <= a < dim && 0 <= b < dim
    ensures Delta(a, b, dim) == 0 <==> a == b
  {
    hide Delta;
  }

  /** Moving k positions on a circle changes distances by at most k. */
  lemma CircleStep(a: int, b: int, k: int, dim: WorldDim)
    requires 0 <= a < dim && 0 <= b < dim && -2 <= k <= 2
    ensures Delta(a, b, dim) - Abs(k) <= Delta(Wrapped(a + k, dim), b, dim) <= Delta(a, b, dim) + Abs(k)
  {
    hide Wrapped, Delta;
  }

  lemma DifferenceParity(a: int, b: int)
    ensures Abs(a - b) % 2 == 0 <==> a % 2 == b % 2
  {
    var p, q := a / 2, b / 2;
    assert a == 2 * p + a % 2 && b == 2 * q + b % 2;
    assert a - b == 2 * (p - q) + (a % 2 - b % 2);
  }

  lemma DeltaParity(a: int, b: int, dim: WorldDim)
    requires 0 <= a < dim && 0 <= b < dim
    ensures Delta(a, b, dim) % 2 == 0 <==> a % 2 == b % 2
  {
    hide Delta;
    DifferenceParity(a, b);
    EvenMinus(dim, Abs(a - b));
    hide Abs;
  }

  /** Moving k positions the right way round brings us closer by k. */
  lemma CircleDescent(a: int, b: int, k: nat, dim: WorldDim)
    requires 0 <= a < dim && 0 <= b < dim && k <= 2 && k <= Delta(a, b, dim)
    ensures Delta(Wrapped(a + k, dim), b, dim) == Delta(a, b, dim) - k
         || Delta(Wrapped(a - k, dim), b, dim) == Delta(a, b, dim) - k
  {
    hide Wrapped, Delta;
  }

  /** The column and row distance of two sectors; they have the same parity. */
  function Gap(s: Sector, t: Sector): (g: (nat, nat))
    ensures g.0 % 2 == g.1 % 2 && Dist(s, t) == HexNorm(g.0, g.1)
  {
    hide XYOffset, SctX, SctY, WorldSz, Wrapped, Delta;
    SectorHasCoordinates(s);
    SectorHasCoordinates(t);
    DeltaParity(SctX(s), SctX(t), WORLD_X);
    DeltaParity(SctY(s), SctY(t), WORLD_Y);
    (Delta(SctX(s), SctX(t), WORLD_X), Delta(SctY(s), SctY(t), WORLD_Y))
  }

  lemma GapStep(s: Sector, d: Dir, t: Sector)
    ensures var g, h := Gap(s, t), Gap(Neighbor(s, d), t);
            && g.0 - Abs(DirX(d)) <= h.0 <= g.0 + Abs(DirX(d))
            && g.1 - Abs(DirY(d)) <= h.1 <= g.1 + Abs(DirY(d))
  {
    hide XYOffset, SctX, SctY, WorldSz, Wrapped, Delta, DirX, DirY, Neighbor, Dist;
    SectorHasCoordinates(t);
    NeighborCoordinates(s, d);
    DirRange(d);
    CircleStep(SctX(s), SctX(t), DirX(d), WORLD_X);
    CircleStep(SctY(s), SctY(t), DirY(d), WORLD_Y);
  }

  lemma DirRange(d: Dir)
    ensures -2 <= DirX(d) <= 2 && -1 <= DirY(d) <= 1
    ensures Abs(DirX(d)) + Abs(DirY(d)) == 2
  {
  }

  /** One step changes the distance to any sector by at most one. */
  lemma {:induction false} DistStep(s: Sector, d: Dir, t: Sector)
    ensures Dist(s, t) - 1 <= Dist(Neighbor(s, d), t) <= Dist(s, t) + 1
  {
    hide Gap, Dist, Neighbor, DirX, DirY, WorldSz;
    GapStep(s, d, t);
    DirRange(d);
  }

  lemma RowDescent(s: Sector, t: Sector) returns (d: Dir)
    requires Gap(s, t).0 >= 2
    ensures Gap(Neighbor(s, d), t) == (Gap(s, t).0 - 2, Gap(s, t).1)
  {
    hide XYOffset, SctX, SctY, WorldSz, Wrapped, Delta, Neighbor, Dist;
    SectorHasCoordinates(s);
    SectorHasCoordinates(t);
    CircleDescent(SctX(s), SctX(t), 2, WORLD_X);
    d := if Delta(Wrapped(SctX(s) + 2, WORLD_X), SctX(t), WORLD_X) == Gap(s, t).0 - 2 then 2 else 5;
    NeighborCoordinates(s, d);
  }

  /** Which way round is the shorter one? */
  lemma ShorterWay(a: int, b: int, dim: WorldDim) returns (forth: bool)
    requires 0 <= a < dim && 0 <= b < dim && Delta(a, b, dim) >= 1
    ensures Delta(Wrapped(a + (if forth then 1 else -1), dim), b, dim) == Delta(a, b, dim) - 1
  {
    hide Wrapped, Delta, Min, Abs;
    CircleDescent(a, b, 1, dim);
    forth := Delta(Wrapped(a + 1, dim), b, dim) == Delta(a, b, dim) - 1;
  }

  /** Which of up and down leads towards t, and which of left and right, if any. */
  lemma DiagonalWays(s: Sector, t: Sector) returns (right: bool, down: bool)
    requires Gap(s, t).1 >= 1
    ensures Normal(SctX(s), SctY(s)) && Normal(SctX(t), SctY(t))
    ensures Delta(Wrapped(SctY(s) + (if down then 1 else -1), WORLD_Y), SctY(t), WORLD_Y) == Gap(s, t).1 - 1
    ensures Gap(s, t).0 == 0 ||
            Delta(Wrapped(SctX(s) + (if right then 1 else -1), WORLD_X), SctX(t), WORLD_X) == Gap(s, t).0 - 1
  {
    hide XYOffset, SctX, SctY, WorldSz, Wrapped, Delta, Dist, Min, Abs;
    SectorHasCoordinates(s);
    SectorHasCoordinates(t);
    right := true;
    down := ShorterWay(SctY(s), SctY(t), WORLD_Y);
    if Gap(s, t).0 != 0 {
      right := ShorterWay(SctX(s), SctX(t), WORLD_X);
    }
  }

  lemma DiagonalDescent(s: Sector, t: Sector) returns (d: Dir)
    requires Gap(s, t).1 >= 1
    ensures var g, h := Gap(s, t), Gap(Neighbor(s, d), t);
            h.1 == g.1 - 1 && (h.0 == g.0 - 1 || g.0 == 0) && h.0 <= g.0 + 1
  {
    hide XYOffset, SctX, SctY, WorldSz, Wrapped, Delta, Neighbor, Dist, DirX, DirY;
    var right, down := DiagonalWays(s, t);
    d := Diagonal(right, down);
    hide Diagonal;
    NeighborCoordinates(s, d);
    GapStep(s, d, t);
    DirRange(d);
  }

  function Diagonal(right: bool, down: bool): (d: Dir)
    ensures DirX(d) == (if right then 1 else -1) && DirY(d) == (if down then 1 else -1)
  {
    if down then (if right then 3 else 4) else if right then 1 else 6
  }

  /** Some step brings s closer to t unless it is there already. */
  lemma {:induction false} DistDescent(s: Sector, t: Sector) returns (d: Dir)
    requires s != t
    ensures Dist(Neighbor(s, d), t) == Dist(s, t) - 1
  {
    hide WorldSz, Gap, Dist, Neighbor;
    DistZero(s, t);
    var g := Gap(s, t);
    if g.0 > g.1 {
      d := RowDescent(s, t);
    } else {
      d := DiagonalDescent(s, t);
    }
  }
}
