/**
 Exclusive zones (xzone): each island claims the sectors around its own.  Per
 sector, the array compresses the set of islands that claim it into one number.

 Marks are the calls of xzone_around_sector since the last xzone_init.
 */
module Zones {
  import opened HexTorus
  import opened Hexagon
  import opened Land

  datatype Mark = Mark(c: nat, s: Sector, width: nat)

  /** The islands that claim p. */
  ghost function Claimants(marks: seq<Mark>, p: Sector): set<nat> {
    set m | m in marks && Dist(p, m.s) <= m.width :: m.c
  }

  /** -1: nobody, c: only c, -2: several. */
  ghost function Compress(islands: set<nat>): int {
    if islands == {} then -1
    else var c :| c in islands; if islands == {c} then c else -2
  }

  /** What one more claim by island c does to an entry. */
  function Blend(zone: int, c: nat): int {
    if zone == -1 then c else if zone != c then -2 else zone
  }

  lemma CompressMeaning(islands: set<nat>, c: nat)
    ensures Compress(islands) == -1 <==> islands == {}
    ensures Compress(islands) == c <==> islands == {c}
  {
    if Compress(islands) == c {
      assert islands == {c};
    }
  }

  lemma CompressOneMore(islands: set<nat>, c: nat)
    ensures Compress(islands + {c}) == Blend(Compress(islands), c)
  {
    CompressMeaning(islands, c);
    CompressMeaning(islands + {c}, c);
    if islands != {} && islands != {c} {
      var d :| d in islands && d != c;
      assert d in islands + {c} && c in islands + {c};
    } else {
      assert islands + {c} == {c};
    }
  }

  /** xzone records the claims of all marks. */
  ghost predicate ZonesOk(xzone: seq<int>, marks: seq<Mark>)
    requires |xzone| == WorldSz()
  {
    forall p: Sector :: xzone[p] == Compress(Claimants(marks, p))
  }

  /** xzone' is what xzone_around_sector makes of xzone. */
  ghost predicate ZoneAdded(xzone: seq<int>, xzone': seq<int>, c: nat, s: Sector, width: nat) {
    && |xzone| == |xzone'| == WorldSz()
    && forall p: Sector :: xzone'[p] == if p in Ball(s, width) then Blend(xzone[p], c) else xzone[p]
  }

  lemma OneMoreMark(marks: seq<Mark>, m: Mark, p: Sector)
    ensures Claimants(marks + [m], p) == Claimants(marks, p) + if Dist(p, m.s) <= m.width then {m.c} else {}
  {
    hide Dist;
    assert forall x :: x in marks + [m] <==> x in marks || x == m;
  }

  lemma {:induction false} AddingKeepsZones(xzone: seq<int>, xzone': seq<int>, marks: seq<Mark>, c: nat,
                                            s: Sector, width: nat)
    requires |xzone| == WorldSz() && ZonesOk(xzone, marks) && ZoneAdded(xzone, xzone', c, s, width)
    ensures ZonesOk(xzone', marks + [Mark(c, s, width)])
  {
    hide Dist, Compress, Claimants, Blend;
    forall p: Sector
      ensures xzone'[p] == Compress(Claimants(marks + [Mark(c, s, width)], p))
    {
      OneMoreMark(marks, Mark(c, s, width), p);
      CompressOneMore(Claimants(marks, p), c);
      assert Claimants(marks, p) + {} == Claimants(marks, p);
    }
  }

  // Islands keep their distance

  /** Every sector of the first n islands has been marked with this width. */
  ghost predicate Marked(sect: seq<seq<Sector>>, n: nat, marks: seq<Mark>, width: nat)
    requires n <= |sect|
  {
    forall c: nat, s: Sector | c < n && s in sect[c] :: Mark(c, s, width) in marks
  }

  /** Every mark belongs to an island below n. */
  ghost predicate MarksBelow(marks: seq<Mark>, n: nat) {
    forall m | m in marks :: m.c < n
  }

  /** Any two sectors of different islands below n are more than their required distance apart. */
  ghost predicate Separated(sect: seq<seq<Sector>>, n: nat, nc: nat, di: nat, id: nat)
    requires n <= |sect|
  {
    forall c: nat, e: nat, s: Sector, t: Sector | c < e < n && s in sect[c] && t in sect[e] ::
      Dist(s, t) > if e < nc then di else id
  }

  /** A sector that is in no other island's zone is out of its reach. */
  lemma {:induction false} OutOfReach(xzone: seq<int>, marks: seq<Mark>, m: Mark, c: nat, s: Sector)
    requires |xzone| == WorldSz() && ZonesOk(xzone, marks) && m in marks && m.c != c
    requires xzone[s] == c || xzone[s] == -1
    ensures Dist(s, m.s) > m.width
  {
    hide Dist;
    CompressMeaning(Claimants(marks, s), c);
    assert m.c !in Claimants(marks, s);
  }

  /** xzone_ok means just that: no other island's zone reaches the sector. */
  lemma ZoneAllows(xzone: seq<int>, marks: seq<Mark>, c: nat, s: Sector)
    requires |xzone| == WorldSz() && ZonesOk(xzone, marks)
    ensures (xzone[s] == c || xzone[s] == -1) <==> forall m | m in marks && m.c != c :: Dist(s, m.s) > m.width
  {
    hide Dist, Compress;
    var claimants := Claimants(marks, s);
    CompressMeaning(claimants, c);
    if xzone[s] == c || xzone[s] == -1 {
      forall m | m in marks && m.c != c
        ensures Dist(s, m.s) > m.width
      {
        OutOfReach(xzone, marks, m, c, s);
      }
    }
    if forall m | m in marks && m.c != c :: Dist(s, m.s) > m.width {
      assert claimants <= {c};
      assert claimants == {} || claimants == {c};
    }
  }

  // Where islands may grow

  /** Sector t is nobody's, out of reach of all zones but island c's own, and in the sphere island c belongs to. */
  ghost predicate OpenTo(own: seq<int>, marks: seq<Mark>, closest: seq<int>, nc: nat, c: nat, t: Sector)
    requires |own| == |closest| == WorldSz() && nc > 0
  {
    && own[t] == -1
    && (forall m | m in marks && m.c != c :: Dist(t, m.s) > m.width)
    && (c < nc || closest[t] == c % nc)
  }

  ghost predicate NextTo(sect: seq<Sector>, t: Sector) {
    exists s :: s in sect && Adjacent(s, t)
  }

  /** Sector n is land, or has been since zones were drawn. */
  ghost predicate Settled(own: seq<int>, marks: seq<Mark>, n: Sector)
    requires |own| == WorldSz()
  {
    own[n] != -1 || exists m :: m in marks && m.s == n
  }

  /** Island c with these sectors cannot grow, except perhaps into gaps with land all around. */
  ghost predicate Stuck(own: seq<int>, marks: seq<Mark>, closest: seq<int>, nc: nat, c: nat, sect: seq<Sector>)
    requires |own| == |closest| == WorldSz() && nc > 0
  {
    forall t: Sector, d: Dir | NextTo(sect, t) && OpenTo(own, marks, closest, nc, c, t) ::
      Settled(own, marks, Neighbor(t, d))
  }

  /** Another island's growing does not help. */
  lemma StuckWhenOthersGrow(own: seq<int>, marks: seq<Mark>, closest: seq<int>, nc: nat, c: nat, sect: seq<Sector>,
                            s: Sector, m: Mark)
    requires |own| == |closest| == WorldSz() && nc > 0 && Stuck(own, marks, closest, nc, c, sect)
    requires own[s] == -1
    ensures Stuck(own[s := m.c], marks + [m], closest, nc, c, sect)
  {
    hide Dist, Neighbor, NextTo, WorldSz;
    var own', marks' := own[s := m.c], marks + [m];
    assert forall x :: x in marks ==> x in marks';
    forall t: Sector, d: Dir | NextTo(sect, t) && OpenTo(own', marks', closest, nc, c, t)
      ensures Settled(own', marks', Neighbor(t, d))
    {
      assert OpenTo(own, marks, closest, nc, c, t);
      assert Settled(own, marks, Neighbor(t, d));
    }
  }

  /** Taking back another island's sector does not help either, as its zone stays. */
  lemma StuckWhenOthersShrink(own: seq<int>, marks: seq<Mark>, closest: seq<int>, nc: nat, c: nat, sect: seq<Sector>,
                              m: Mark)
    requires |own| == |closest| == WorldSz() && nc > 0 && Stuck(own, marks, closest, nc, c, sect)
    requires m in marks && m.c != c
    ensures Stuck(own[m.s := -1], marks, closest, nc, c, sect)
  {
    hide Dist, Neighbor, NextTo, WorldSz;
    var own' := own[m.s := -1];
    DistZero(m.s, m.s);
    forall t: Sector, d: Dir | NextTo(sect, t) && OpenTo(own', marks, closest, nc, c, t)
      ensures Settled(own', marks, Neighbor(t, d))
    {
      assert t != m.s;
      assert OpenTo(own, marks, closest, nc, c, t);
      assert Settled(own, marks, Neighbor(t, d));
    }
  }

  lemma {:induction false} AddingKeepsSeparation(sect: seq<seq<Sector>>, n: nat, xzone: seq<int>, marks: seq<Mark>,
                                                 c: nat, s: Sector, width: nat, nc: nat, di: nat, id: nat)
    requires c < n <= |sect| && Separated(sect, n, nc, di, id) && Marked(sect, n, marks, width)
    requires |xzone| == WorldSz() && ZonesOk(xzone, marks) && (xzone[s] == c || xzone[s] == -1)
    requires forall e: nat | e < n && e != c && sect[e] != [] :: width >= if e < nc && c < nc then di else id
    ensures Separated(sect[c := sect[c] + [s]], n, nc, di, id)
  {
    hide Dist, Compress, Claimants, ZonesOk;
    var sect' := sect[c := sect[c] + [s]];
    forall a: nat, b: nat, t: Sector, u: Sector | a < b < n && t in sect'[a] && u in sect'[b]
      ensures Dist(t, u) > if b < nc then di else id
    {
      if a == c && t == s {
        assert u in sect[b];
        OutOfReach(xzone, marks, Mark(b, u, width), c, s);
      } else if b == c && u == s {
        assert t in sect[a];
        OutOfReach(xzone, marks, Mark(a, t, width), c, s);
        DistSymmetric(s, t);
      } else {
        assert t in sect[a] && u in sect[b];
      }
    }
  }

  // Rebuilding zones (xzone_init)

  ghost function IslandMarks(c: nat, sect: seq<Sector>, width: nat): seq<Mark> {
    seq(|sect|, i requires 0 <= i < |sect| => Mark(c, sect[i], width))
  }

  /** The marks xzone_init(n) makes, in order. */
  ghost function RebuildMarks(sect: seq<seq<Sector>>, n: nat, width: nat): seq<Mark>
    requires n <= |sect|
  {
    if n == 0 then [] else RebuildMarks(sect, n - 1, width) + IslandMarks(n - 1, sect[n - 1], width)
  }

  /** The assertion in xzone_around_sector holds for the k-th mark. */
  ghost predicate AssertionHolds(marks: seq<Mark>, k: nat)
    requires k < |marks|
  {
    Claimants(marks[..k], marks[k].s) <= {marks[k].c}
  }

  ghost predicate FarApart(sect: seq<seq<Sector>>, n: nat, width: nat)
    requires n <= |sect|
  {
    forall c: nat, e: nat, s: Sector, t: Sector | c < e < n && s in sect[c] && t in sect[e] :: Dist(s, t) > width
  }

  lemma {:induction false} RebuildMarksAre(sect: seq<seq<Sector>>, n: nat, width: nat)
    requires n <= |sect|
    ensures forall m :: m in RebuildMarks(sect, n, width) <==> m.c < n && m.s in sect[m.c] && m.width == width
    ensures forall i, j :: 0 <= i <= j < |RebuildMarks(sect, n, width)| ==>
              RebuildMarks(sect, n, width)[i].c <= RebuildMarks(sect, n, width)[j].c
  {
    if n > 0 {
      RebuildMarksAre(sect, n - 1, width);
      var marks, more := RebuildMarks(sect, n - 1, width), IslandMarks(n - 1, sect[n - 1], width);
      forall m ensures m in more <==> m.c == n - 1 && m.s in sect[n - 1] && m.width == width {
        if m.c == n - 1 && m.s in sect[n - 1] && m.width == width {
          var i :| 0 <= i < |sect[n - 1]| && sect[n - 1][i] == m.s;
          assert more[i] == m;
        }
      }
      forall i | 0 <= i < |marks| ensures marks[i].c < n - 1 {
        assert marks[i] in marks;
      }
    }
  }

  /** Rebuilding zones never trips over the assertion exactly when the islands are far enough apart. */
  lemma {:induction false} RebuildAssertionsHold(sect: seq<seq<Sector>>, n: nat, width: nat)
    requires n <= |sect|
    ensures FarApart(sect, n, width) <==>
              forall k :: 0 <= k < |RebuildMarks(sect, n, width)| ==> AssertionHolds(RebuildMarks(sect, n, width), k)
  {
    hide Dist, AssertionHolds;
    var marks := RebuildMarks(sect, n, width);
    RebuildMarksAre(sect, n, width);
    if FarApart(sect, n, width) {
      forall k | 0 <= k < |marks|
        ensures AssertionHolds(marks, k)
      {
        RebuildAssertionHolds(sect, n, width, marks, k);
      }
    }
    if forall k :: 0 <= k < |marks| ==> AssertionHolds(marks, k) {
      forall c: nat, e: nat, s: Sector, t: Sector | c < e < n && s in sect[c] && t in sect[e]
        ensures Dist(s, t) > width
      {
        RebuildAssertionNeeded(sect, n, width, marks, Mark(c, s, width), Mark(e, t, width));
      }
    }
  }

  lemma RebuildAssertionNeeded(sect: seq<seq<Sector>>, n: nat, width: nat, marks: seq<Mark>, m: Mark, m': Mark)
    requires n <= |sect| && marks == RebuildMarks(sect, n, width)
    requires m in marks && m' in marks && m.c < m'.c && m.width == width
    requires forall k :: 0 <= k < |marks| ==> AssertionHolds(marks, k)
    ensures Dist(m.s, m'.s) > width
  {
    hide Dist, RebuildMarks;
    RebuildMarksAre(sect, n, width);
    var i :| 0 <= i < |marks| && marks[i] == m;
    var k :| 0 <= k < |marks| && marks[k] == m';
    assert AssertionHolds(marks, k);
    assert marks[..k][i] == m;
    assert m.c !in Claimants(marks[..k], m'.s);
    DistSymmetric(m.s, m'.s);
  }

  lemma RebuildAssertionHolds(sect: seq<seq<Sector>>, n: nat, width: nat, marks: seq<Mark>, k: nat)
    requires n <= |sect| && marks == RebuildMarks(sect, n, width) && k < |marks| && FarApart(sect, n, width)
    ensures AssertionHolds(marks, k)
  {
    hide Dist;
    RebuildMarksAre(sect, n, width);
    assert marks[k] in marks;
    forall m | m in marks[..k] && Dist(marks[k].s, m.s) <= m.width
      ensures m.c == marks[k].c
    {
      DistSymmetric(marks[k].s, m.s);
      assert m in marks;
      var i :| 0 <= i < k && marks[..k][i] == m;
      assert marks[i].c <= marks[k].c;
    }
  }
}
