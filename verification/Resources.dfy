/**
 Sector resources as piecewise linear functions of elevation (elev_to_resource).
 */
module Resources {
  import opened Arith
  import opened HexTorus

  datatype ResourcePoint = ResourcePoint(elev: int, res: int)

  const IRON_CONF := [ResourcePoint(-127, 0), ResourcePoint(21, 0), ResourcePoint(85, 100),
                      ResourcePoint(97, 100), ResourcePoint(98, 0), ResourcePoint(127, 0)]
  const GOLD_CONF := [ResourcePoint(-127, 0), ResourcePoint(35, 0), ResourcePoint(97, 80),
                      ResourcePoint(98, 80), ResourcePoint(127, 85)]
  const FERT_CONF := [ResourcePoint(-127, 100), ResourcePoint(-59, 100), ResourcePoint(0, 41), ResourcePoint(1, 100),
                      ResourcePoint(10, 100), ResourcePoint(56, 0), ResourcePoint(127, 0)]
  const OIL_CONF := [ResourcePoint(-127, 100), ResourcePoint(-49, 100), ResourcePoint(0, 2), ResourcePoint(1, 100),
                     ResourcePoint(6, 100), ResourcePoint(34, 0), ResourcePoint(127, 0)]
  const URAN_CONF := [ResourcePoint(-127, 0), ResourcePoint(55, 0), ResourcePoint(90, 100),
                      ResourcePoint(97, 100), ResourcePoint(98, 0), ResourcePoint(127, 0)]

  /** Data points cover all elevations in ascending order, with resources between 0 and 100. */
  ghost predicate ConfOk(conf: seq<ResourcePoint>) {
    && |conf| >= 2 && conf[0].elev == -127 && conf[|conf| - 1].elev == 127
    && (forall i :: 0 < i < |conf| ==> conf[i - 1].elev < conf[i].elev)
    && (forall i :: 0 <= i < |conf| ==> 0 <= conf[i].res <= 100)
  }

  lemma IronOk()
    ensures ConfOk(IRON_CONF)
  {
  }

  lemma GoldOk()
    ensures ConfOk(GOLD_CONF)
  {
  }

  lemma FertOk()
    ensures ConfOk(FERT_CONF)
  {
  }

  lemma OilOk()
    ensures ConfOk(OIL_CONF)
  {
  }

  lemma UranOk()
    ensures ConfOk(URAN_CONF)
  {
  }

  lemma ConfsOk()
    ensures ConfOk(IRON_CONF) && ConfOk(GOLD_CONF) && ConfOk(FERT_CONF) && ConfOk(OIL_CONF) && ConfOk(URAN_CONF)
  {
    hide ConfOk;
    IronOk();
    GoldOk();
    FertOk();
    OilOk();
    UranOk();
  }

  /** Part e of delev of the way from 0 to dres. */
  function Part(e: int, delev: int, dres: int): real
    requires delev > 0
  {
    (e * dres) as real / delev as real
  }

  lemma PartOfRise(e: int, delev: int, dres: nat)
    requires 0 <= e <= delev && delev > 0
    ensures 0.0 <= Part(e, delev, dres) <= dres as real
  {
    var q := Part(e, delev, dres);
    assert q * delev as real == (e * dres) as real;
    MulMonotonic(e, delev, dres);
    MulMonotonic(0, e, dres);
    Quotient(q, delev, e * dres, dres);
  }

  lemma PartNegated(e: int, delev: int, dres: int)
    requires delev > 0
    ensures Part(e, delev, -dres) == -Part(e, delev, dres)
  {
    var q, p := Part(e, delev, dres), Part(e, delev, -dres);
    assert e * -dres == -(e * dres);
    assert q * delev as real == (e * dres) as real;
    assert p * delev as real == (e * -dres) as real;
    assert (p + q) * delev as real == 0.0;
  }

  lemma WholePart(delev: int, dres: int)
    requires delev > 0
    ensures Part(delev, delev, dres) == dres as real && Part(0, delev, dres) == 0.0
  {
    var q := Part(delev, delev, dres);
    assert q * delev as real == (delev * dres) as real;
    Exact(q, delev, dres);
  }

  /** A point on the line from res1 to res2 is between them. */
  lemma Between(e: int, delev: int, res1: int, res2: int)
    requires 0 <= e <= delev && delev > 0
    ensures Min(res1, res2) as real <= res1 as real + Part(e, delev, res2 - res1) <= Max(res1, res2) as real
    ensures e == 0 ==> res1 as real + Part(e, delev, res2 - res1) == res1 as real
    ensures e == delev ==> res1 as real + Part(e, delev, res2 - res1) == res2 as real
  {
    hide Part;
    WholePart(delev, res2 - res1);
    if res1 <= res2 {
      PartOfRise(e, delev, res2 - res1);
    } else {
      PartOfRise(e, delev, res1 - res2);
      PartNegated(e, delev, res1 - res2);
      assert -(res1 - res2) == res2 - res1;
    }
  }

  lemma Quotient(q: real, d: int, n: int, bound: int)
    requires d > 0 && q * d as real == n as real && 0 <= n <= d * bound
    ensures 0.0 <= q <= bound as real
  {
    assert (d * bound) as real == d as real * bound as real;
    SignOfProduct(-q, d as real);
    SignOfProduct(q - bound as real, d as real);
  }

  lemma SignOfProduct(x: real, d: real)
    requires d > 0.0
    ensures x > 0.0 ==> x * d > 0.0
  {
  }

  lemma Exact(q: real, d: int, n: int)
    requires d > 0 && q * d as real == (d * n) as real
    ensures q == n as real
  {
    assert (d * n) as real == d as real * n as real;
    assert (q - n as real) * d as real == 0.0;
  }

  /** The value at elev of the line through two data points, rounded down. */
  function Interpolated(elev: int, a: ResourcePoint, b: ResourcePoint): int
    requires a.elev < b.elev
  {
    (a.res as real + Part(elev - a.elev, b.elev - a.elev, b.res - a.res)).Floor
  }

  /** Elevation elev is between these data points, and res is between their resources, on the line. */
  ghost predicate OnLine(elev: int, a: ResourcePoint, b: ResourcePoint, res: int) {
    && a.elev <= elev <= b.elev && a.elev < b.elev
    && res == Interpolated(elev, a, b) && Min(a.res, b.res) <= res <= Max(a.res, b.res)
    && (elev == a.elev ==> res == a.res)
    && (elev == b.elev ==> res == b.res)
  }

  /** The resource value for an elevation. */
  ghost predicate ResourceIs(elev: int, conf: seq<ResourcePoint>, res: int) {
    0 <= res <= 100 && exists i: nat :: OnSegment(elev, conf, i, res)
  }

  ghost predicate OnSegment(elev: int, conf: seq<ResourcePoint>, i: nat, res: int) {
    0 < i < |conf| && OnLine(elev, conf[i - 1], conf[i], res)
  }

  lemma InterpolatedOnLine(elev: int, a: ResourcePoint, b: ResourcePoint)
    requires a.elev <= elev <= b.elev && a.elev < b.elev
    ensures OnLine(elev, a, b, Interpolated(elev, a, b))
  {
    hide Part;
    Between(elev - a.elev, b.elev - a.elev, a.res, b.res);
  }

  lemma LinesAgree(elev: int, a: ResourcePoint, b: ResourcePoint, c: ResourcePoint, d: ResourcePoint, res: int,
                   res': int)
    requires OnLine(elev, a, b, res) && OnLine(elev, c, d, res')
    requires (a == c && b == d) || b.elev < c.elev || b == c
    ensures res == res'
  {
    hide Interpolated;
  }

  lemma {:induction false} ConfAscends(conf: seq<ResourcePoint>, i: nat, j: nat)
    requires ConfOk(conf) && i < j < |conf|
    ensures conf[i].elev < conf[j].elev
  {
    if i + 1 < j {
      ConfAscends(conf, i, j - 1);
    }
  }

  lemma LinesMeet(elev: int, conf: seq<ResourcePoint>, i: nat, j: nat, res: int, res': int)
    requires ConfOk(conf) && i <= j && OnSegment(elev, conf, i, res) && OnSegment(elev, conf, j, res')
    ensures res == res'
  {
    hide OnLine, ConfOk;
    if i < j - 1 {
      ConfAscends(conf, i, j - 1);
    }
    LinesAgree(elev, conf[i - 1], conf[i], conf[j - 1], conf[j], res, res');
  }

  /** There is only one. */
  lemma ResourceIsUnique(elev: int, conf: seq<ResourcePoint>, res: int, res': int)
    requires ConfOk(conf) && ResourceIs(elev, conf, res) && ResourceIs(elev, conf, res')
    ensures res == res'
  {
    hide OnSegment, ConfOk;
    var i: nat :| OnSegment(elev, conf, i, res);
    var j: nat :| OnSegment(elev, conf, j, res');
    if i <= j {
      LinesMeet(elev, conf, i, j, res, res');
    } else {
      LinesMeet(elev, conf, j, i, res', res);
    }
  }

  /** elev_to_resource, with reals */
  method ElevToResource(elev: int, conf: seq<ResourcePoint>) returns (res: int)
    requires ConfOk(conf) && -127 <= elev <= 127
    ensures ResourceIs(elev, conf, res)
  {
    hide OnLine;
    var i := 1;
    while elev > conf[i].elev
      invariant 1 <= i < |conf| && conf[i - 1].elev <= elev
      decreases |conf| - i
    {
      i := i + 1;
    }
    assert conf[i - 1].elev <= elev;
    var elev1, elev2 := conf[i - 1].elev, conf[i].elev;
    var delev := elev2 - elev1;
    var res1, res2 := conf[i - 1].res, conf[i].res;
    var dres := res2 - res1;
    InterpolatedOnLine(elev, conf[i - 1], conf[i]);
    InRange(elev, conf[i - 1], conf[i]);
    res := (res1 as real + ((elev - elev1) * dres) as real / delev as real).Floor;
    assert OnSegment(elev, conf, i, res);
  }

  lemma InRange(elev: int, a: ResourcePoint, b: ResourcePoint)
    requires a.elev < b.elev && OnLine(elev, a, b, Interpolated(elev, a, b))
    requires 0 <= a.res <= 100 && 0 <= b.res <= 100
    ensures 0 <= Interpolated(elev, a, b) <= 100
  {
    hide Interpolated;
  }

  /** The resources of a sector. */
  datatype Deposits = Deposits(min: int, gmin: int, fertil: int, oil: int, uran: int)

  ghost predicate DepositsFor(elev: int, d: Deposits) {
    && ResourceIs(elev, IRON_CONF, d.min)
    && ResourceIs(elev, GOLD_CONF, d.gmin)
    && ResourceIs(elev, FERT_CONF, d.fertil)
    && ResourceIs(elev, OIL_CONF, d.oil)
    && ResourceIs(elev, URAN_CONF, d.uran)
  }

  /** add_resources */
  method AddResources(elev: int) returns (d: Deposits)
    requires -127 <= elev <= 127
    ensures DepositsFor(elev, d)
  {
    hide ConfOk, ResourceIs;
    ConfsOk();
    var min := ElevToResource(elev, IRON_CONF);
    var gmin := ElevToResource(elev, GOLD_CONF);
    var fertil := ElevToResource(elev, FERT_CONF);
    var oil := ElevToResource(elev, OIL_CONF);
    var uran := ElevToResource(elev, URAN_CONF);
    d := Deposits(min, gmin, fertil, oil, uran);
  }
}
