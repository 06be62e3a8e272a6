/**
 Moving commodities between sectors (c_move).

 Goods leave their sector before the player chooses the path, and are then in
 flight: no sector holds them while other commands run.  MOVE_IN_PROGRESS keeps a
 sector emptied that way from being abandoned.  What is in flight has to arrive
 somewhere, or be accounted for as destroyed.
 */
module Move {

  import opened Arith
  import opened GameTypes
  import opened HexTorus

  /** units: whether the owner has units here; inProgress: MOVE_IN_PROGRESS. */
  datatype Sect = Sect(own: nat, oldown: nat, items: Items, inProgress: bool, units: bool,
                       pstage: Plague, loyal: nat, work: nat)

  const WILDERNESS := Sect(0, 0, seq(I_COUNT, i => 0), false, false, Healthy, 0, 100)

  type Sectors = w: seq<Sect> | |w| == WorldSz() witness seq(WorldSz(), i => WILDERNESS)

  /** sct_prewrite: a sector without civilians, military and units reverts to nobody, unless a move is in progress. */
  function Prewrite(s: Sect): Sect {
    var s := s.(items := ItemPrewrite(s.items));
    var s := if s.items[I_CIVIL] == 0 then s.(work := 100, loyal := 0, oldown := s.own) else s;
    if s.own != 0 && s.items[I_CIVIL] == 0 && s.items[I_MILIT] == 0 && !s.units && !s.inProgress then
      s.(own := 0, oldown := 0)
    else s
  }

  /** When a sector that is written keeps its owner, and what a sector without civilians forgets. */
  lemma PrewriteMeans(s: Sect)
    requires forall i :: 0 <= i < I_COUNT ==> 0 <= s.items[i] <= ITEM_MAX
    ensures var s' := Prewrite(s);
            && s' == s.(own := s'.own, oldown := s'.oldown, loyal := s'.loyal, work := s'.work)
            && s'.own == (if s.items[I_CIVIL] > 0 || s.items[I_MILIT] > 0 || s.units || s.inProgress then s.own else 0)
            && (s.items[I_CIVIL] > 0 ==> s' == s)
            && (s.items[I_CIVIL] == 0 ==> s'.oldown == s'.own && s'.work == 100 && s'.loyal == 0)
  {
    PrewriteKeeps(s.items);
  }

  /** What is on the move; loyal and work are those of the civilians' home. */
  datatype Load = Load(item: nat, amount: int, infected: bool, loyal: nat, work: nat)

  // Where goods end up

  /** The end sector is the player's, its people don't mind, and there is room (lines 235-255). */
  predicate Accepts(s: Sect, cnum: nat, item: nat, amount: int)
    requires item < I_COUNT
  {
    && s.own == cnum
    && (item == I_CIVIL && s.items[I_CIVIL] != 0 ==> s.oldown == cnum)
    && amount <= ITEM_MAX - s.items[item]
  }

  function Destination(w: Sectors, cnum: nat, x: Sector, end: Sector, aborted: bool, item: nat, amount: int): Sector
    requires item < I_COUNT
  {
    if !aborted && Accepts(w[end], cnum, item, amount) then end else x
  }

  datatype Where = At(s: Sector) | Nowhere

  predicate DumpOk(s: Sect, cnum: nat, item: nat, amount: int, roomy: bool)
    requires item < I_COUNT
  {
    s.own == cnum && (roomy ==> amount <= ITEM_MAX - s.items[item])
  }

  /** The first neighbour from direction d on that will do. */
  function FirstNeighbor(w: Sectors, cnum: nat, x: Sector, item: nat, amount: int, roomy: bool, d: int): Where
    requires item < I_COUNT && 1 <= d <= 7
    decreases 7 - d
  {
    if d == 7 then Nowhere
    else if DumpOk(w[Neighbor(x, d)], cnum, item, amount, roomy) then At(Neighbor(x, d))
    else FirstNeighbor(w, cnum, x, item, amount, roomy, d + 1)
  }

  function DumpSite(w: Sectors, cnum: nat, x: Sector, item: nat, amount: int): Where
    requires item < I_COUNT
  {
    var roomy := FirstNeighbor(w, cnum, x, item, amount, true, 1);
    if roomy.At? then roomy else FirstNeighbor(w, cnum, x, item, amount, false, 1)
  }

  lemma {:induction false} FirstNeighborFinds(w: Sectors, cnum: nat, x: Sector, item: nat, amount: int,
                                              roomy: bool, d: int)
    requires item < I_COUNT && 1 <= d <= 7
    ensures var r := FirstNeighbor(w, cnum, x, item, amount, roomy, d);
            && (r.At? <==> exists n: Dir :: d <= n && DumpOk(w[Neighbor(x, n)], cnum, item, amount, roomy))
            && (r.At? ==> DumpOk(w[r.s], cnum, item, amount, roomy) && exists n: Dir :: r.s == Neighbor(x, n))
    decreases 7 - d
  {
    hide Neighbor, DumpOk;
    if d < 7 && !DumpOk(w[Neighbor(x, d)], cnum, item, amount, roomy) {
      FirstNeighborFinds(w, cnum, x, item, amount, roomy, d + 1);
    }
  }

  ghost predicate SomeNeighbor(w: Sectors, cnum: nat, x: Sector, item: nat, amount: int, roomy: bool)
    requires item < I_COUNT
  {
    exists n: Dir :: DumpOk(w[Neighbor(x, n)], cnum, item, amount, roomy)
  }

  /** Goods are dumped whenever a neighbour is the player's, and where there is room if any of them has room. */
  lemma DumpsWellIfAtAll(w: Sectors, cnum: nat, x: Sector, item: nat, amount: int)
    requires item < I_COUNT
    ensures var r := DumpSite(w, cnum, x, item, amount);
            && (r.At? <==> SomeNeighbor(w, cnum, x, item, amount, false))
            && (r.At? ==> w[r.s].own == cnum)
            && (r.At? ==> (amount <= ITEM_MAX - w[r.s].items[item] <==> SomeNeighbor(w, cnum, x, item, amount, true)))
  {
    hide Neighbor, FirstNeighbor;
    FirstNeighborFinds(w, cnum, x, item, amount, true, 1);
    FirstNeighborFinds(w, cnum, x, item, amount, false, 1);
    var r := DumpSite(w, cnum, x, item, amount);
    if r.At? && amount <= ITEM_MAX - w[r.s].items[item] {
      var n: Dir :| r.s == Neighbor(x, n);
      assert DumpOk(w[Neighbor(x, n)], cnum, item, amount, true);
    }
  }

  /** Where the goods land: where they were sent, back home, or around a home that is lost. */
  function Landing(w: Sectors, cnum: nat, x: Sector, end: Sector, aborted: bool, item: nat, amount: int): Where
    requires item < I_COUNT
  {
    var d := Destination(w, cnum, x, end, aborted, item, amount);
    if w[d].own != cnum then DumpSite(w, cnum, x, item, amount) else At(d)
  }

  // The sector file

  /** r is the average of n times a and m times b, rounded down. */
  ghost predicate IsAverage(r: nat, n: int, a: nat, m: int, b: nat) {
    r * (n + m) <= n * a + m * b < (r + 1) * (n + m)
  }

  /** The average of two groups' loyalty or work, weighted by size. */
  function Mixed(n: int, a: nat, m: int, b: nat): (r: nat)
    requires n >= 0 && m >= 0 && n + m > 0
    ensures Min(a, b) <= r <= Max(a, b)
    ensures IsAverage(r, n, a, m, b)
  {
    MixedBetween(n, a, m, b);
    RoundedDown(n * a + m * b, n + m);
    (n * a + m * b) / (n + m)
  }

  lemma RoundedDown(sum: int, total: int)
    requires total > 0
    ensures sum / total * total <= sum < (sum / total + 1) * total
  {
    var q, r := sum / total, sum % total;
    assert q * total + r == sum;
  }

  lemma MixedBetween(n: int, a: nat, m: int, b: nat)
    requires n >= 0 && m >= 0 && n + m > 0
    ensures Min(a, b) <= (n * a + m * b) / (n + m) <= Max(a, b)
  {
    WeightedAtLeast(n, a, m, b, Min(a, b));
    WeightedAtMost(n, a, m, b, Max(a, b));
    QuotientBetween(n * a + m * b, n + m, Min(a, b), Max(a, b));
  }

  lemma WeightedAtLeast(n: nat, a: nat, m: nat, b: nat, low: nat)
    requires low <= a && low <= b
    ensures low * (n + m) <= n * a + m * b
  {
    MulMonotonic(low, a, n);
    MulMonotonic(low, b, m);
  }

  lemma WeightedAtMost(n: nat, a: nat, m: nat, b: nat, high: nat)
    requires a <= high && b <= high
    ensures n * a + m * b <= high * (n + m)
  {
    MulMonotonic(a, high, n);
    MulMonotonic(b, high, m);
  }

  lemma QuotientBetween(sum: int, total: nat, low: int, high: int)
    requires total > 0 && low * total <= sum <= high * total
    ensures low <= sum / total <= high
  {
    var q, r := sum / total, sum % total;
    assert q * total + r == sum;
    MulMonotonic(q + 1, low, total);
    MulMonotonic(high + 1, q, total);
  }

  /** A sector after as much of the load as fits was added (lines 311-329). */
  function Added(s: Sect, load: Load): Sect
    requires load.item < I_COUNT && 0 <= s.items[load.item] <= ITEM_MAX && load.amount > 0
  {
    var there := s.items[load.item];
    var amount := Min(load.amount, ITEM_MAX - there);
    var s := s.(items := s.items[load.item := amount + there],
                pstage := if load.infected && s.pstage == Healthy then Exposed else s.pstage);
    if load.item == I_CIVIL then
      s.(loyal := Mixed(there, s.loyal, amount, load.loyal), work := Mixed(there, s.work, amount, load.work))
    else s
  }

  predicate ItemOk(n: int) {
    0 <= n <= ITEM_MAX
  }

  predicate SectOk(s: Sect) {
    forall i :: 0 <= i < I_COUNT ==> ItemOk(s.items[i])
  }

  ghost predicate AmountsOk(w: Sectors) {
    forall s :: 0 <= s < |w| ==> SectOk(w[s])
  }

  function Cleared(w: Sectors, x: Sector): Sectors {
    w[x := Prewrite(w[x].(inProgress := false))]
  }

  /** Lines 263-334: the goods that are left arrive. */
  function Arrived(w: Sectors, cnum: nat, x: Sector, end: Sector, aborted: bool, load: Load): Sectors
    requires AmountsOk(w) && load.item < I_COUNT
  {
    if load.amount <= 0 then Cleared(w, x)
    else
      match Landing(w, cnum, x, end, aborted, load.item, load.amount)
      case Nowhere => Cleared(w, x)
      case At(s) =>
        assert SectOk(w[s]);
        Cleared(w[s := Prewrite(Added(w[s], load))], x)
  }

  /** Lines 211-233: only a move that is not aborted costs the start sector mobility, so only then is it written. */
  function Charged(w: Sectors, x: Sector, aborted: bool): Sectors {
    if aborted then w else w[x := Prewrite(w[x])]
  }

  /** How much is destroyed by having nowhere to go, or by lack of room. */
  function Lost(w: Sectors, cnum: nat, x: Sector, end: Sector, aborted: bool, load: Load): int
    requires load.item < I_COUNT
  {
    if load.amount <= 0 then 0
    else
      match Landing(w, cnum, x, end, aborted, load.item, load.amount)
      case Nowhere => load.amount
      case At(s) => load.amount - Min(load.amount, ITEM_MAX - w[s].items[load.item])
  }

  /**
   Goods that made it through are destroyed exactly when they do not get to the end sector, and home has no room for
   them, or is lost and no neighbour has room.
   */
  lemma LostExactlyWhen(w: Sectors, cnum: nat, x: Sector, end: Sector, aborted: bool, load: Load)
    requires AmountsOk(w) && load.item < I_COUNT && load.amount > 0
    ensures Lost(w, cnum, x, end, aborted, load) > 0
            <==> (aborted || !Accepts(w[end], cnum, load.item, load.amount))
                 && (if w[x].own == cnum then load.amount > ITEM_MAX - w[x].items[load.item]
                     else !SomeNeighbor(w, cnum, x, load.item, load.amount, true))
    ensures 0 <= Lost(w, cnum, x, end, aborted, load) <= load.amount
  {
    hide Neighbor, DumpSite, SomeNeighbor;
    DumpsWellIfAtAll(w, cnum, x, load.item, load.amount);
    RoomyIsSome(w, cnum, x, load.item, load.amount);
    var r := Landing(w, cnum, x, end, aborted, load.item, load.amount);
    if r.At? {
      assert SectOk(w[r.s]) && ItemOk(w[r.s].items[load.item]);
    }
  }

  lemma RoomyIsSome(w: Sectors, cnum: nat, x: Sector, item: nat, amount: int)
    requires item < I_COUNT
    ensures SomeNeighbor(w, cnum, x, item, amount, true) ==> SomeNeighbor(w, cnum, x, item, amount, false)
  {
    hide Neighbor;
    if SomeNeighbor(w, cnum, x, item, amount, true) {
      var n: Dir :| DumpOk(w[Neighbor(x, n)], cnum, item, amount, true);
      assert DumpOk(w[Neighbor(x, n)], cnum, item, amount, false);
    }
  }

  /** Lines 160-177: amount of an item leaves sector x. */
  function Removed(w: Sectors, x: Sector, item: nat, amount: int): Sectors
    requires item < I_COUNT
  {
    w[x := Prewrite(w[x].(items := w[x].items[item := w[x].items[item] - amount], inProgress := true))]
  }

  lemma PutOk(w: Sectors, x: Sector, s: Sect)
    requires AmountsOk(w)
    ensures SectOk(Prewrite(s)) && AmountsOk(w[x := Prewrite(s)])
  {
  }

  /** The sector file, and how c_move reads and writes it. */
  class SectorFile {
    var w: Sectors

    /** Lines 159-178: remove the goods from the start sector, unless this is a test. */
    method Remove(test: bool, cnum: nat, x: Sector, item: nat, asked: int) returns (ok: bool, amount: int)
      requires item < I_COUNT
      modifies this
      ensures ok <==> test || old(w)[x].own == cnum
      ensures ok && !test ==> amount == Min(asked, old(w)[x].items[item]) && w == Removed(old(w), x, item, amount)
      ensures test ==> amount == asked
      ensures !ok || test ==> w == old(w)
    {
      if test {
        return true, asked;
      }
      var start := w[x];
      if start.own != cnum {
        return false, 0;
      }
      ok, amount := true, asked;
      var amtSrc := start.items[item];
      if amtSrc < amount {
        amount := amtSrc;
        amtSrc := 0;
      } else {
        amtSrc := amtSrc - amount;
      }
      start := start.(items := start.items[item := amtSrc], inProgress := true);
      w := w[x := Prewrite(start)];
    }

    /** Lines 280-289, or 292-298: the first neighbour that will do; n is negative when there is one. */
    method FindNeighbor(cnum: nat, x: Sector, item: nat, amount: int, roomy: bool) returns (n: int, tsct: Sector)
      requires item < I_COUNT
      ensures (if n > -1 then Nowhere else At(tsct)) == FirstNeighbor(w, cnum, x, item, amount, roomy, 1)
    {
      hide Neighbor;
      n, tsct := 1, x;
      while n <= 6
        invariant 1 <= n <= 7
        invariant FirstNeighbor(w, cnum, x, item, amount, roomy, 1) == FirstNeighbor(w, cnum, x, item, amount, roomy, n)
      {
        tsct := Neighbor(x, n);
        if w[tsct].own == cnum && (!roomy || !(amount > ITEM_MAX - w[tsct].items[item])) {
          n := -1;
          return;
        }
        n := n + 1;
      }
    }

    /** Lines 211-255: charge the start sector, and read the sector the goods go to. */
    method ReadDestination(test: bool, cnum: nat, x: Sector, end: Sector, aborted: bool, item: nat, amount: int)
      returns (at: Sector, sect: Sect)
      requires item < I_COUNT
      modifies this
      ensures w == if test then old(w) else Charged(old(w), x, aborted)
      ensures at == Destination(w, cnum, x, end, aborted, item, amount) && sect == w[at]
    {
      hide Prewrite;
      at := x;
      if !aborted {
        if !test {
          w := w[x := Prewrite(w[x])];
        }
        at := end;
      }
      sect := w[at];
      if sect.own != cnum {
        at, sect := x, w[x];
      }
      if item == I_CIVIL && sect.items[I_CIVIL] != 0 && sect.oldown != cnum {
        at, sect := x, w[x];
      }
      if amount > ITEM_MAX - sect.items[item] {
        at, sect := x, w[x];
      }
    }

    /** Lines 279-305: a neighbour with room, else any neighbour, that the player owns. */
    method FindDump(cnum: nat, x: Sector, item: nat, amount: int) returns (n: int, tsct: Sector)
      requires item < I_COUNT
      ensures (if n > -1 then Nowhere else At(tsct)) == DumpSite(w, cnum, x, item, amount)
    {
      hide FirstNeighbor;
      n, tsct := FindNeighbor(cnum, x, item, amount, true);
      if n > -1 {
        n, tsct := FindNeighbor(cnum, x, item, amount, false);
      }
    }

    /** Lines 210-334, once the goods have been damaged on the way; a test goes through the checks only. */
    method Arrive(test: bool, cnum: nat, x: Sector, end: Sector, aborted: bool, load: Load)
      requires AmountsOk(w) && load.item < I_COUNT
      modifies this
      ensures AmountsOk(Charged(old(w), x, aborted))
      ensures w == if test then old(w) else Arrived(Charged(old(w), x, aborted), cnum, x, end, aborted, load)
    {
      hide AmountsOk, Prewrite, Added, DumpSite, ItemOk;
      PutOk(w, x, w[x]);
      var at, sect := ReadDestination(test, cnum, x, end, aborted, load.item, load.amount);
      if test {
        return;
      }
      if load.amount <= 0 {
        w := w[x := Prewrite(w[x].(inProgress := false))];
        return;
      }
      if sect.own != cnum && at == x {
        var n, tsct := FindDump(cnum, x, load.item, load.amount);
        if n > -1 {
          sect := sect.(inProgress := false);
          w := w[x := Prewrite(sect)];
          return;
        }
        at, sect := tsct, w[tsct];
      }
      SectHasItems(w, at, load.item);
      sect := Fill(sect, load);
      w := w[at := Prewrite(sect)];
      w := w[x := Prewrite(w[x].(inProgress := false))];
    }

    /**
     Lines 311-329: the sector takes what it can, catches the plague if it is
     healthy, and its people's loyalty and work move towards those of new civilians.
     */
    static method Fill(s: Sect, load: Load) returns (sect: Sect)
      requires load.item < I_COUNT && ItemOk(s.items[load.item]) && load.amount > 0
      ensures sect == Added(s, load)
      ensures sect.items == s.items[load.item := Min(s.items[load.item] + load.amount, ITEM_MAX)]
      ensures sect == s.(items := sect.items, pstage := sect.pstage, loyal := sect.loyal, work := sect.work)
      ensures sect.pstage != s.pstage <==> load.infected && s.pstage == Healthy
      ensures sect.pstage != s.pstage ==> sect.pstage == Exposed
      ensures load.item != I_CIVIL ==> sect.loyal == s.loyal && sect.work == s.work
      ensures Min(s.loyal, load.loyal) <= sect.loyal <= Max(s.loyal, load.loyal) || load.item != I_CIVIL
      ensures Min(s.work, load.work) <= sect.work <= Max(s.work, load.work) || load.item != I_CIVIL
      ensures var there := s.items[load.item];
              var amount := sect.items[load.item] - there;
              load.item == I_CIVIL ==>
                && IsAverage(sect.loyal, there, s.loyal, amount, load.loyal)
                && IsAverage(sect.work, there, s.work, amount, load.work)
    {
      hide Mixed, IsAverage;
      sect := s;
      var amount := load.amount;
      var amtDst := sect.items[load.item];
      if amount > ITEM_MAX - amtDst {
        amount := ITEM_MAX - amtDst;
      }
      sect := sect.(items := sect.items[load.item := amount + amtDst]);
      if load.infected && sect.pstage == Healthy {
        sect := sect.(pstage := Exposed);
      }
      if load.item == I_CIVIL {
        sect := sect.(loyal := Mixed(amtDst, sect.loyal, amount, load.loyal),
                      work := Mixed(amtDst, sect.work, amount, load.work));
      }
    }
  }

  lemma SectHasItems(w: Sectors, s: Sector, item: nat)
    requires AmountsOk(w) && item < I_COUNT
    ensures ItemOk(w[s].items[item])
  {
    assert SectOk(w[s]);
  }

  // Accounting

  function Amount(item: nat): Sect -> int
    requires item < I_COUNT
  {
    (s: Sect) => s.items[item]
  }

  function InSectors(w: seq<Sect>, item: nat): int
    requires item < I_COUNT
  {
    SumOf(w, Amount(item))
  }

  lemma SectorUpdate(w: seq<Sect>, x: nat, s: Sect, item: nat)
    requires x < |w| && item < I_COUNT
    ensures InSectors(w[x := s], item) == InSectors(w, item) - w[x].items[item] + s.items[item]
  {
    SumUpdate(w, x, s, Amount(item));
  }

  /** Writing a record whose amounts are in range writes just these amounts. */
  lemma PutCounts(w: Sectors, x: Sector, s: Sect, item: nat)
    requires AmountsOk(w) && SectOk(s) && item < I_COUNT
    ensures AmountsOk(w[x := Prewrite(s)])
    ensures InSectors(w[x := Prewrite(s)], item) == InSectors(w, item) - w[x].items[item] + s.items[item]
  {
    PrewriteKeeps(s.items);
    SectorUpdate(w, x, Prewrite(s), item);
    PutOk(w, x, s);
  }

  function OnlyIf(b: bool, n: int): int {
    if b then n else 0
  }

  lemma RemovedCounts(w: Sectors, x: Sector, item: nat, amount: int, i: nat)
    requires AmountsOk(w) && item < I_COUNT && i < I_COUNT && 0 <= amount <= w[x].items[item]
    ensures AmountsOk(Removed(w, x, item, amount))
    ensures InSectors(Removed(w, x, item, amount), i) == InSectors(w, i) - OnlyIf(i == item, amount)
  {
    assert SectOk(w[x]) && ItemOk(w[x].items[item]);
    PutCounts(w, x, w[x].(items := w[x].items[item := w[x].items[item] - amount], inProgress := true), i);
  }

  lemma ClearedCounts(w: Sectors, x: Sector, i: nat)
    requires AmountsOk(w) && i < I_COUNT
    ensures AmountsOk(Cleared(w, x)) && InSectors(Cleared(w, x), i) == InSectors(w, i)
  {
    assert SectOk(w[x]);
    PutCounts(w, x, w[x].(inProgress := false), i);
  }

  lemma ChargedCounts(w: Sectors, x: Sector, aborted: bool, i: nat)
    requires AmountsOk(w) && i < I_COUNT
    ensures AmountsOk(Charged(w, x, aborted)) && InSectors(Charged(w, x, aborted), i) == InSectors(w, i)
  {
    assert SectOk(w[x]);
    PutCounts(w, x, w[x], i);
  }

  lemma AddedOk(s: Sect, load: Load)
    requires SectOk(s) && load.item < I_COUNT && load.amount > 0
    ensures ItemOk(s.items[load.item]) && SectOk(Added(s, load))
    ensures var there := s.items[load.item];
            Added(s, load).items == s.items[load.item := there + Min(load.amount, ITEM_MAX - there)]
  {
    hide Mixed;
    assert ItemOk(s.items[load.item]);
  }

  /** What arrives is what was on the move less what is lost, in one place, and no sector holds too much. */
  lemma ArrivedCounts(w: Sectors, cnum: nat, x: Sector, end: Sector, aborted: bool, load: Load, i: nat)
    requires AmountsOk(w) && load.item < I_COUNT && load.amount >= 0 && i < I_COUNT
    ensures AmountsOk(Arrived(w, cnum, x, end, aborted, load))
    ensures InSectors(Arrived(w, cnum, x, end, aborted, load), i)
            == InSectors(w, i) + OnlyIf(i == load.item, load.amount - Lost(w, cnum, x, end, aborted, load))
  {
    hide Landing, AmountsOk, Prewrite, Added, Cleared;
    ClearedCounts(w, x, i);
    if load.amount > 0 && Landing(w, cnum, x, end, aborted, load.item, load.amount).At? {
      var s := Landing(w, cnum, x, end, aborted, load.item, load.amount).s;
      SectHasItems(w, s, load.item);
      SectIsOk(w, s);
      AddedOk(w[s], load);
      PutCounts(w, s, Added(w[s], load), i);
      ClearedCounts(w[s := Prewrite(Added(w[s], load))], x, i);
    }
  }

  lemma SectIsOk(w: Sectors, s: Sector)
    requires AmountsOk(w)
    ensures SectOk(w[s])
  {
  }

  // Commands as steps between prompts

  /** Where a command waits: for an amount, for confirmation that a sector may be abandoned, or for the path. */
  datatype Session =
    | Idle
    | AskNumber(who: Player, test: bool, x: Sector, item: nat, sect: Sect)
    | AskAbandon(who: Player, x: Sector, item: nat, sect: Sect, amount: int)
    | InFlight(who: Player, test: bool, x: Sector, load: Load)

  datatype Action =
    | Begin(t: nat, who: Player, test: bool, x: Sector, item: nat, control: bool, mobile: bool)
    | Number(t: nat, amount: int, asks: bool)
    | Confirm(t: nat, yes: bool)
    | Arrive(t: nat, end: Sector, aborted: bool, left: nat)
      // Other commands may do anything to sectors that keeps amounts in range, except set the mark
    | Meanwhile(w: Sectors)

  /** lost: what moves have destroyed; made: what other commands have made, less what they have used up. */
  datatype State = State(w: Sectors, sessions: seq<Session>, lost: Items, made: Items)

  /** Lines 69-116 */
  function BeginStep(w: Sectors, who: Player, test: bool, x: Sector, item: nat, control: bool, mobile: bool): Session {
    var sect := w[x];
    if item >= I_COUNT || !(who.god || sect.own == who.cnum) then Idle
    else if !test && sect.oldown != who.cnum && item != I_MILIT && !control then Idle
    else if !test && sect.items[item] <= 0 then Idle
    else if !test && item == I_CIVIL && sect.oldown != sect.own then Idle
    else if !mobile then Idle
    else AskNumber(who, test, x, item, sect)
  }

  /** Lines 151-178: sect is the copy that has just been checked. */
  function TakeOff(w: Sectors, who: Player, test: bool, x: Sector, item: nat, sect: Sect, asked: int): (Sectors,
                   Session)
    requires item < I_COUNT
  {
    var load := Load(item, asked, sect.pstage == Infect, sect.loyal, sect.work);
    if asked <= 0 then (w, Idle)
    else if test then (w, InFlight(who, true, x, load))
    else if w[x].own != who.cnum then (w, Idle)
    else
      var amount := Min(asked, w[x].items[item]);
      (Removed(w, x, item, amount), InFlight(who, false, x, load.(amount := amount)))
  }

  /** Lines 126-149 */
  function NumberStep(w: Sectors, session: Session, amount: int, asks: bool): (Sectors, Session)
    requires session.AskNumber? && session.item < I_COUNT
  {
    var AskNumber(who, test, x, item, sect) := session;
    if amount < 0 || w[x] != sect then (w, Idle)
    else
      var amount := if test then amount else Min(amount, sect.items[item]);
      if !test && asks then (w, AskAbandon(who, x, item, sect, amount))
      else TakeOff(w, who, test, x, item, sect, amount)
  }

  function ConfirmStep(w: Sectors, session: Session, yes: bool): (Sectors, Session)
    requires session.AskAbandon? && session.item < I_COUNT
  {
    if !yes || w[session.x] != session.sect then (w, Idle)
    else TakeOff(w, session.who, false, session.x, session.item, session.sect, session.amount)
  }

  /** What the damage on the way leaves. */
  function Damaged(load: Load, left: nat): Load {
    load.(amount := Min(left, load.amount))
  }

  function ArriveStep(w: Sectors, session: Session, end: Sector, aborted: bool, left: nat): (Sectors, int)
    requires session.InFlight? && session.load.item < I_COUNT && AmountsOk(w)
  {
    if session.test then (w, 0)
    else
      ChargedCounts(w, session.x, aborted, 0);
      var w := Charged(w, session.x, aborted);
      var load := Damaged(session.load, left);
      (Arrived(w, session.who.cnum, session.x, end, aborted, load),
       session.load.amount - load.amount + Lost(w, session.who.cnum, session.x, end, aborted, load))
  }

  predicate SessionOk(session: Session) {
    match session
    case Idle => true
    case AskNumber(_, _, _, item, _) => item < I_COUNT
    case AskAbandon(_, _, item, sect, amount) => item < I_COUNT && amount <= sect.items[item]
    case InFlight(_, _, _, load) => load.item < I_COUNT && load.amount >= 0
  }

  predicate OnTheMove(session: Session, x: Sector) {
    session.InFlight? && !session.test && session.x == x
  }

  /** A sector is marked only while goods that left it are on the move. */
  ghost predicate MarksOk(w: Sectors, sessions: seq<Session>) {
    forall x: Sector :: w[x].inProgress ==> exists t :: 0 <= t < |sessions| && OnTheMove(sessions[t], x)
  }

  ghost predicate SessionsOk(sessions: seq<Session>) {
    forall t :: 0 <= t < |sessions| ==> SessionOk(sessions[t])
  }

  ghost predicate StateOk(st: State) {
    AmountsOk(st.w) && SessionsOk(st.sessions) && MarksOk(st.w, st.sessions)
  }

  function Plus(a: Items, item: nat, n: int): Items
    requires item < I_COUNT
  {
    a[item := a[item] + n]
  }

  function MadeBetween(made: Items, w: Sectors, w': Sectors): Items {
    seq(I_COUNT, i requires 0 <= i < I_COUNT => made[i] + InSectors(w', i) - InSectors(w, i))
  }

  ghost function Step(st: State, a: Action): State
    requires StateOk(st)
  {
    if a.Meanwhile? then
      if AmountsOk(a.w) && (forall x: Sector :: a.w[x].inProgress ==> st.w[x].inProgress) then
        st.(w := a.w, made := MadeBetween(st.made, st.w, a.w))
      else st
    else if a.t >= |st.sessions| then st
    else
      var session := st.sessions[a.t];
      assert SessionOk(session);
      if a.Begin? && session.Idle? then
        st.(sessions := st.sessions[a.t := BeginStep(st.w, a.who, a.test, a.x, a.item, a.control, a.mobile)])
      else if a.Number? && session.AskNumber? then
        var (w, session') := NumberStep(st.w, session, a.amount, a.asks);
        st.(w := w, sessions := st.sessions[a.t := session'])
      else if a.Confirm? && session.AskAbandon? then
        var (w, session') := ConfirmStep(st.w, session, a.yes);
        st.(w := w, sessions := st.sessions[a.t := session'])
      else if a.Arrive? && session.InFlight? then
        var (w, lost) := ArriveStep(st.w, session, a.end, a.aborted, a.left);
        st.(w := w, sessions := st.sessions[a.t := Idle], lost := Plus(st.lost, session.load.item, lost))
      else st
  }

  // The books balance

  /** What a command has on the move. */
  function Held(session: Session, i: nat): int {
    if session.InFlight? && !session.test && session.load.item == i then session.load.amount else 0
  }

  function HeldOf(i: nat): Session -> int {
    (session: Session) => Held(session, i)
  }

  function OnMoves(sessions: seq<Session>, i: nat): int {
    SumOf(sessions, HeldOf(i))
  }

  lemma SessionUpdate(sessions: seq<Session>, t: nat, session: Session, i: nat)
    requires t < |sessions|
    ensures OnMoves(sessions[t := session], i) == OnMoves(sessions, i) - Held(sessions[t], i) + Held(session, i)
  {
    SumUpdate(sessions, t, session, HeldOf(i));
  }

  /** A command's step from w to w', when it goes from one session state to another and destroys lost of item. */
  ghost predicate Books(w: Sectors, session: Session, w': Sectors, session': Session, item: nat, lost: int) {
    && AmountsOk(w') && SessionOk(session')
    && (forall i: nat :: i < I_COUNT ==>
          InSectors(w', i) + Held(session', i) + OnlyIf(i == item, lost) == InSectors(w, i) + Held(session, i))
    && (forall y: Sector :: w'[y].inProgress ==> OnTheMove(session', y) || (w[y].inProgress && !OnTheMove(session, y)))
  }

  lemma TakeOffBooks(w: Sectors, session: Session, who: Player, test: bool, x: Sector, item: nat, sect: Sect,
                     asked: int)
    requires AmountsOk(w) && item < I_COUNT && !session.InFlight?
    ensures var (w', session') := TakeOff(w, who, test, x, item, sect, asked); Books(w, session, w', session', 0, 0)
  {
    hide AmountsOk, Removed, InSectors;
    if asked > 0 {
      SectHasItems(w, x, item);
      RemovedBooks(w, x, item, Min(asked, w[x].items[item]));
    }
  }

  lemma RemovedBooks(w: Sectors, x: Sector, item: nat, amount: int)
    requires AmountsOk(w) && item < I_COUNT && 0 <= amount <= w[x].items[item]
    ensures var w' := Removed(w, x, item, amount);
            && AmountsOk(w')
            && (forall i: nat | i < I_COUNT :: InSectors(w', i) == InSectors(w, i) - OnlyIf(i == item, amount))
            && (forall y: Sector | y != x :: w'[y] == w[y])
  {
    hide AmountsOk, InSectors;
    forall i: nat | i < I_COUNT
      ensures InSectors(Removed(w, x, item, amount), i) == InSectors(w, i) - OnlyIf(i == item, amount)
    {
      RemovedCounts(w, x, item, amount, i);
    }
    RemovedCounts(w, x, item, amount, 0);
  }

  lemma ArrivedMarks(w: Sectors, cnum: nat, x: Sector, end: Sector, aborted: bool, load: Load)
    requires AmountsOk(w) && load.item < I_COUNT
    ensures var w' := Arrived(w, cnum, x, end, aborted, load);
            !w'[x].inProgress && forall y: Sector :: w'[y].inProgress ==> w[y].inProgress
  {
    hide Landing, ItemPrewrite, Mixed, SectOk;
    if load.amount > 0 && Landing(w, cnum, x, end, aborted, load.item, load.amount).At? {
      SectHasItems(w, Landing(w, cnum, x, end, aborted, load.item, load.amount).s, load.item);
    }
  }

  /** Whatever happened meanwhile, arriving clears the mark on the start sector, and counts everything that took off. */
  lemma ArriveBooks(w: Sectors, session: Session, end: Sector, aborted: bool, left: nat)
    requires AmountsOk(w) && session.InFlight? && SessionOk(session)
    ensures var (w', lost) := ArriveStep(w, session, end, aborted, left);
            && Books(w, session, w', Idle, session.load.item, lost)
            && (!session.test ==> !w'[session.x].inProgress)
  {
    hide AmountsOk, Arrived, Lost, ItemPrewrite;
    var x, cnum := session.x, session.who.cnum;
    var charged := Charged(w, x, aborted);
    var load := Damaged(session.load, left);
    ChargedCounts(w, x, aborted, 0);
    var w' := Arrived(charged, cnum, x, end, aborted, load);
    ArrivedMarks(charged, cnum, x, end, aborted, load);
    forall i: nat | i < I_COUNT
      ensures AmountsOk(w')
      ensures InSectors(w', i)
              == InSectors(w, i) + OnlyIf(i == load.item, load.amount - Lost(charged, cnum, x, end, aborted, load))
    {
      ChargedCounts(w, x, aborted, i);
      ArrivedCounts(charged, cnum, x, end, aborted, load, i);
    }
    ArrivedCounts(charged, cnum, x, end, aborted, load, 0);
  }

  lemma NothingHappens(w: Sectors, session: Session, session': Session)
    requires AmountsOk(w) && SessionOk(session') && !session.InFlight? && !session'.InFlight?
    ensures Books(w, session, w, session', 0, 0)
  {
  }

  lemma NumberBooks(w: Sectors, session: Session, amount: int, asks: bool)
    requires AmountsOk(w) && session.AskNumber? && SessionOk(session)
    ensures var (w', session') := NumberStep(w, session, amount, asks); Books(w, session, w', session', 0, 0)
  {
    hide TakeOff, Books, AmountsOk;
    var AskNumber(who, test, x, item, sect) := session;
    var moved := if test then amount else Min(amount, sect.items[item]);
    TakeOffBooks(w, session, who, test, x, item, sect, moved);
    NothingHappens(w, session, Idle);
    if !test {
      NothingHappens(w, session, AskAbandon(who, x, item, sect, moved));
    }
  }

  lemma ConfirmBooks(w: Sectors, session: Session, yes: bool)
    requires AmountsOk(w) && session.AskAbandon? && SessionOk(session)
    ensures var (w', session') := ConfirmStep(w, session, yes); Books(w, session, w', session', 0, 0)
  {
    hide TakeOff, Books, AmountsOk;
    TakeOffBooks(w, session, session.who, false, session.x, session.item, session.sect, session.amount);
    NothingHappens(w, session, Idle);
  }

  /** Everything there was, wherever it is now: in sectors, on the move or destroyed, less what others made. */
  function Balance(st: State, i: nat): int
    requires i < I_COUNT
  {
    InSectors(st.w, i) + OnMoves(st.sessions, i) + st.lost[i] - st.made[i]
  }

  lemma MarksKept(w: Sectors, sessions: seq<Session>, t: nat, w': Sectors, session': Session, item: nat, lost: int)
    requires t < |sessions| && MarksOk(w, sessions) && Books(w, sessions[t], w', session', item, lost)
    ensures MarksOk(w', sessions[t := session'])
  {
    hide InSectors, AmountsOk, SessionOk, OnTheMove;
    var sessions' := sessions[t := session'];
    forall x: Sector | w'[x].inProgress
      ensures exists k :: 0 <= k < |sessions'| && OnTheMove(sessions'[k], x)
    {
      if OnTheMove(session', x) {
        assert OnTheMove(sessions'[t], x);
      } else {
        var k :| 0 <= k < |sessions| && OnTheMove(sessions[k], x);
        assert OnTheMove(sessions'[k], x);
      }
    }
  }

  /** A step that keeps the books of one command keeps those of all. */
  lemma BooksBalance(st: State, st': State, t: nat, item: nat, lost: int, i: nat)
    requires StateOk(st) && t < |st.sessions| && t < |st'.sessions| && item < I_COUNT && i < I_COUNT
    requires st'.sessions == st.sessions[t := st'.sessions[t]] && st'.made == st.made
    requires st'.lost == Plus(st.lost, item, lost) || (lost == 0 && st'.lost == st.lost)
    requires Books(st.w, st.sessions[t], st'.w, st'.sessions[t], item, lost)
    ensures StateOk(st') && Balance(st', i) == Balance(st, i)
  {
    hide AmountsOk, MarksOk, SessionOk, InSectors, OnMoves, Held;
    SessionUpdate(st.sessions, t, st'.sessions[t], i);
    MarksKept(st.w, st.sessions, t, st'.w, st'.sessions[t], item, lost);
  }

  lemma MeanwhileBalances(st: State, w: Sectors, i: nat)
    requires StateOk(st) && i < I_COUNT && AmountsOk(w)
    requires forall x: Sector :: w[x].inProgress ==> st.w[x].inProgress
    ensures var st' := st.(w := w, made := MadeBetween(st.made, st.w, w));
            StateOk(st') && Balance(st', i) == Balance(st, i)
  {
    hide AmountsOk, SessionOk, InSectors, OnMoves, OnTheMove;
  }

  lemma StepBalances(st: State, a: Action, i: nat)
    requires StateOk(st) && i < I_COUNT
    ensures StateOk(Step(st, a)) && Balance(Step(st, a), i) == Balance(st, i)
  {
    hide MarksOk, AmountsOk, Books, Balance, NumberStep, ConfirmStep, ArriveStep, BeginStep;
    if a.Meanwhile? {
      if AmountsOk(a.w) && (forall x: Sector :: a.w[x].inProgress ==> st.w[x].inProgress) {
        MeanwhileBalances(st, a.w, i);
      }
    } else if a.t < |st.sessions| {
      var session := st.sessions[a.t];
      assert SessionOk(session);
      if a.Begin? && session.Idle? {
        BeginIsOk(st.w, a.who, a.test, a.x, a.item, a.control, a.mobile);
        NothingHappens(st.w, session, BeginStep(st.w, a.who, a.test, a.x, a.item, a.control, a.mobile));
        BooksBalance(st, Step(st, a), a.t, 0, 0, i);
      } else if a.Number? && session.AskNumber? {
        NumberBooks(st.w, session, a.amount, a.asks);
        BooksBalance(st, Step(st, a), a.t, 0, 0, i);
      } else if a.Confirm? && session.AskAbandon? {
        ConfirmBooks(st.w, session, a.yes);
        BooksBalance(st, Step(st, a), a.t, 0, 0, i);
      } else if a.Arrive? && session.InFlight? {
        ArriveBooks(st.w, session, a.end, a.aborted, a.left);
        BooksBalance(st, Step(st, a), a.t, session.load.item, ArriveStep(st.w, session, a.end, a.aborted, a.left).1, i);
      }
    }
  }

  lemma BeginIsOk(w: Sectors, who: Player, test: bool, x: Sector, item: nat, control: bool, mobile: bool)
    ensures var session := BeginStep(w, who, test, x, item, control, mobile); SessionOk(session) && !session.InFlight?
  {
  }

  ghost function Run(st: State, actions: seq<Action>): (st': State)
    requires StateOk(st)
    ensures StateOk(st')
    decreases |actions|
  {
    if actions == [] then st
    else
      StepBalances(st, actions[0], 0);
      Run(Step(st, actions[0]), actions[1..])
  }

  /** Over every interleaving of moves with each other and with other commands, nothing disappears unaccounted for. */
  lemma {:induction false} RunBalances(st: State, actions: seq<Action>, i: nat)
    requires StateOk(st) && i < I_COUNT
    ensures Balance(Run(st, actions), i) == Balance(st, i)
    decreases |actions|
  {
    hide Step, StateOk, Balance;
    if actions != [] {
      StepBalances(st, actions[0], i);
      RunBalances(Step(st, actions[0]), actions[1..], i);
    }
  }

  // Single commands

  /** A test move writes nothing itself, neither when it takes off nor when it arrives. */
  lemma TestMoveWritesNothing(w: Sectors, session: Session, amount: int, asks: bool, end: Sector, aborted: bool,
                              left: nat)
    requires AmountsOk(w) && SessionOk(session) && (session.AskNumber? || session.InFlight?) && session.test
    ensures session.AskNumber? ==>
              var (w', session') := NumberStep(w, session, amount, asks);
              w' == w && (session'.Idle? || (session'.InFlight? && session'.test))
    ensures session.InFlight? ==> ArriveStep(w, session, end, aborted, left) == (w, 0)
  {
  }

  /** Neither does any step of the command a test move belongs to. */
  lemma TestStepWritesNothing(st: State, a: Action)
    requires StateOk(st) && !a.Meanwhile? && a.t < |st.sessions|
    requires (st.sessions[a.t].AskNumber? || st.sessions[a.t].InFlight?) && st.sessions[a.t].test
    ensures Step(st, a).w == st.w && (forall i :: 0 <= i < I_COUNT ==> Step(st, a).lost[i] == st.lost[i])
    ensures forall t :: 0 <= t < |st.sessions| && t != a.t ==> Step(st, a).sessions[t] == st.sessions[t]
  {
    hide NumberStep, ArriveStep, AmountsOk;
    var session := st.sessions[a.t];
    assert SessionOk(session);
    TestMoveWritesNothing(st.w, session, if a.Number? then a.amount else 0, a.Number? && a.asks,
                          if a.Arrive? then a.end else 0, a.Arrive? && a.aborted, if a.Arrive? then a.left else 0);
  }

  /** Taking off moves exactly what the check let through: the sector cannot have less by then. */
  lemma TakesWhatWasAsked(w: Sectors, session: Session, amount: int, asks: bool)
    requires session.AskNumber? && SessionOk(session) && !session.test
    ensures var session' := NumberStep(w, session, amount, asks).1;
            session'.InFlight? ==> session'.load.amount == Min(amount, session.sect.items[session.item])
  {
  }

  /** A command gets as far as asking for an amount exactly when the player may move these goods. */
  lemma BeginsExactlyWhen(w: Sectors, who: Player, test: bool, x: Sector, item: nat, control: bool, mobile: bool)
    ensures var session' := BeginStep(w, who, test, x, item, control, mobile);
            && (session'.AskNumber? <==>
                  && item < I_COUNT && (who.god || w[x].own == who.cnum) && mobile
                  && (!test ==> && (w[x].oldown == who.cnum || item == I_MILIT || control)
                                && w[x].items[item] > 0
                                && (item == I_CIVIL ==> w[x].oldown == w[x].own)))
            && (if session'.AskNumber? then session' == AskNumber(who, test, x, item, w[x]) else session' == Idle)
  {
  }

  /** What it takes for goods to leave sector x, as it was checked: from, and how it looks then. */
  ghost predicate TookOff(w: Sectors, who: Player, x: Sector, item: nat, amount: int, w': Sectors, session': Session)
    requires item < I_COUNT
  {
    && 0 < amount <= w[x].items[item] && w[x].own == who.cnum
    && session' == InFlight(who, false, x, Load(item, amount, w[x].pstage == Infect, w[x].loyal, w[x].work))
    && w'[x].items == w[x].items[item := w[x].items[item] - amount]
    && w'[x].own == who.cnum && w'[x].inProgress
    && (w'[x].items[I_CIVIL] > 0 ==> w'[x] == w[x].(items := w'[x].items, inProgress := true))
    && forall y: Sector :: y != x ==> w'[y] == w[y]
  }

  lemma TakeOffIs(w: Sectors, who: Player, x: Sector, item: nat, asked: int)
    requires AmountsOk(w) && item < I_COUNT && 0 < asked <= w[x].items[item] && w[x].own == who.cnum
    ensures var (w', session') := TakeOff(w, who, false, x, item, w[x], asked);
            TookOff(w, who, x, item, asked, w', session')
  {
    hide Prewrite;
    SectIsOk(w, x);
    var left := w[x].(items := w[x].items[item := w[x].items[item] - asked], inProgress := true);
    LessIsOk(w[x], item, asked);
    PrewriteMeans(left);
    PutIs(left);
  }

  lemma LessIsOk(s: Sect, item: nat, amount: int)
    requires SectOk(s) && item < I_COUNT && 0 <= amount <= s.items[item]
    ensures var left := s.(items := s.items[item := s.items[item] - amount], inProgress := true);
            SectOk(left) && forall i :: 0 <= i < I_COUNT ==> 0 <= left.items[i] <= ITEM_MAX
  {
    assert ItemOk(s.items[item]);
    var left := s.(items := s.items[item := s.items[item] - amount], inProgress := true);
    forall i | 0 <= i < I_COUNT ensures ItemOk(left.items[i]) {
      assert ItemOk(s.items[i]);
    }
    forall i | 0 <= i < I_COUNT ensures 0 <= left.items[i] <= ITEM_MAX {
      assert ItemOk(left.items[i]);
    }
  }

  /**
   Goods take off exactly when the sector is as it was checked, is the player's and has some, when some are asked for,
   and the sector would not be abandoned.  Then as many leave as were asked for, or all there are.  A test takes off
   with any positive amount, and changes no sector; neither does anything else.
   */
  lemma TakesOffExactlyWhen(w: Sectors, session: Session, amount: int, asks: bool)
    requires AmountsOk(w) && session.AskNumber? && session.item < I_COUNT
    ensures var AskNumber(who, test, x, item, sect) := session;
            var (w', session') := NumberStep(w, session, amount, asks);
            var there := w[x].items[item];
            && (session'.InFlight? <==>
                  && w[x] == sect && amount > 0
                  && (!test ==> !asks && there > 0 && w[x].own == who.cnum))
            && (session'.InFlight? && test ==> session' == InFlight(who, true, x, Load(item, amount,
                                                 sect.pstage == Infect, sect.loyal, sect.work)))
            && (session'.InFlight? && !test ==> TookOff(w, who, x, item, Min(amount, there), w', session'))
            && (session'.AskAbandon? <==> !test && asks && w[x] == sect && amount >= 0)
            && (session'.AskAbandon? ==> session' == AskAbandon(who, x, item, sect, Min(amount, there)))
            && (!session'.InFlight? && !session'.AskAbandon? ==> session' == Idle)
            && (!session'.InFlight? || test ==> w' == w)
  {
    hide Removed, AmountsOk, TookOff;
    SectHasItems(w, session.x, session.item);
    var asked := Min(amount, w[session.x].items[session.item]);
    if asked > 0 && w[session.x].own == session.who.cnum {
      TakeOffIs(w, session.who, session.x, session.item, asked);
    }
  }

  /** The same once the player has agreed to abandon the sector; anything else ends the command. */
  lemma AbandonsExactlyWhen(w: Sectors, session: Session, yes: bool)
    requires AmountsOk(w) && session.AskAbandon? && SessionOk(session)
    ensures var AskAbandon(who, x, item, sect, amount) := session;
            var (w', session') := ConfirmStep(w, session, yes);
            && (session'.InFlight? <==> yes && w[x] == sect && amount > 0 && w[x].own == who.cnum)
            && (if session'.InFlight? then TookOff(w, who, x, item, amount, w', session')
                else session' == Idle && w' == w)
  {
    hide Removed, AmountsOk, TookOff;
    SectHasItems(w, session.x, session.item);
    var amount := session.amount;
    if yes && w[session.x] == session.sect && amount > 0 && w[session.x].own == session.who.cnum {
      TakeOffIs(w, session.who, session.x, session.item, amount);
    }
  }

  /**
   What has not been destroyed on the way is added where it lands, as far as there is room, and all the rest is lost.
   No other goods change.
   */
  lemma ArrivesThere(w: Sectors, session: Session, end: Sector, aborted: bool, left: nat)
    requires AmountsOk(w) && session.InFlight? && SessionOk(session) && !session.test
    ensures var (w', lost) := ArriveStep(w, session, end, aborted, left);
            var (x, cnum, item) := (session.x, session.who.cnum, session.load.item);
            var amount := Min(left, session.load.amount);
            var land := Landing(Charged(w, x, aborted), cnum, x, end, aborted, item, amount);
            if amount == 0 || land == Nowhere then
              lost == session.load.amount && forall y: Sector :: w'[y].items == w[y].items
            else
              var room := ITEM_MAX - w[land.s].items[item];
              && lost == session.load.amount - Min(amount, room)
              && w'[land.s].items == w[land.s].items[item := w[land.s].items[item] + Min(amount, room)]
              && forall y: Sector :: y != land.s ==> w'[y].items == w[y].items
  {
    hide AmountsOk, Landing, Prewrite, Arrived, Charged;
    var (x, cnum, load) := (session.x, session.who.cnum, Damaged(session.load, left));
    ChargedCounts(w, x, aborted, 0);
    var charged := Charged(w, x, aborted);
    ChargedKeeps(w, x, aborted);
    var land := Landing(charged, cnum, x, end, aborted, load.item, load.amount);
    if load.amount == 0 || land == Nowhere {
      NothingLands(charged, cnum, x, end, aborted, load);
    } else {
      LandsThere(charged, cnum, x, end, aborted, load, land.s);
    }
  }

  lemma ChargedKeeps(w: Sectors, x: Sector, aborted: bool)
    requires AmountsOk(w)
    ensures forall y: Sector :: Charged(w, x, aborted)[y].items == w[y].items
  {
    hide Prewrite;
    SectIsOk(w, x);
    PutIs(w[x]);
  }

  lemma NothingLands(w: Sectors, cnum: nat, x: Sector, end: Sector, aborted: bool, load: Load)
    requires AmountsOk(w) && load.item < I_COUNT
    requires load.amount <= 0 || Landing(w, cnum, x, end, aborted, load.item, load.amount) == Nowhere
    ensures forall y: Sector :: Arrived(w, cnum, x, end, aborted, load)[y].items == w[y].items
  {
    hide Prewrite, Landing;
    SectIsOk(w, x);
    PutIs(w[x].(inProgress := false));
  }

  /** An action that a command is waiting for does what the command's step says, and no other command notices. */
  lemma CommandGoesOn(st: State, a: Action)
    requires StateOk(st) && !a.Meanwhile? && a.t < |st.sessions|
    ensures var (st', session) := (Step(st, a), st.sessions[a.t]);
            && SessionOk(session)
            && st'.sessions == st.sessions[a.t := st'.sessions[a.t]] && st'.made == st.made
            && (a.Begin? && session.Idle? ==>
                  && st'.sessions[a.t] == BeginStep(st.w, a.who, a.test, a.x, a.item, a.control, a.mobile)
                  && st'.w == st.w)
            && (a.Number? && session.AskNumber? ==>
                  (st'.w, st'.sessions[a.t]) == NumberStep(st.w, session, a.amount, a.asks))
            && (a.Confirm? && session.AskAbandon? ==>
                  (st'.w, st'.sessions[a.t]) == ConfirmStep(st.w, session, a.yes))
            && (a.Arrive? && session.InFlight? ==>
                  && st'.sessions[a.t] == Idle
                  && (st'.w, st'.lost[session.load.item] - st.lost[session.load.item])
                     == ArriveStep(st.w, session, a.end, a.aborted, a.left))
            && (!(a.Arrive? && session.InFlight?) ==> st'.lost == st.lost)
  {
    hide AmountsOk, MarksOk, NumberStep, ConfirmStep, ArriveStep, BeginStep;
    assert SessionOk(st.sessions[a.t]);
  }

  /** A marked sector is not abandoned, even when the last civilians leave it. */
  lemma TakeOffKeepsOwner(w: Sectors, x: Sector, item: nat, amount: int)
    requires item < I_COUNT
    ensures Removed(w, x, item, amount)[x].own == w[x].own && Removed(w, x, item, amount)[x].inProgress
  {
  }

  /** Where goods land they are added, as far as there is room, and no other sector's goods change. */
  lemma LandsThere(w: Sectors, cnum: nat, x: Sector, end: Sector, aborted: bool, load: Load, s: Sector)
    requires AmountsOk(w) && load.item < I_COUNT && load.amount > 0
    requires Landing(w, cnum, x, end, aborted, load.item, load.amount) == At(s)
    ensures var w' := Arrived(w, cnum, x, end, aborted, load);
            var there := w[s].items[load.item];
            && w'[s].items == w[s].items[load.item := there + Min(load.amount, ITEM_MAX - there)]
            && forall y: Sector :: y != s ==> w'[y].items == w[y].items && (y != x ==> w'[y] == w[y])
  {
    hide Prewrite, Added, AmountsOk, Landing;
    SectIsOk(w, s);
    AddedOk(w[s], load);
    PutIs(Added(w[s], load));
    SectIsOk(w, x);
    var mid := w[s := Prewrite(Added(w[s], load))];
    PutIs(mid[x].(inProgress := false));
  }

  /** Goods that the end sector accepts all get there, and no other sector's goods change. */
  lemma DeliversInFull(w: Sectors, cnum: nat, x: Sector, end: Sector, load: Load)
    requires AmountsOk(w) && load.item < I_COUNT && load.amount > 0 && Accepts(w[end], cnum, load.item, load.amount)
    ensures var w' := Arrived(w, cnum, x, end, false, load);
            && w'[end].items == w[end].items[load.item := w[end].items[load.item] + load.amount]
            && forall y: Sector :: y != end ==> w'[y].items == w[y].items && (y != x ==> w'[y] == w[y])
  {
    hide Arrived;
    LandsThere(w, cnum, x, end, false, load, end);
  }

  lemma PutIs(s: Sect)
    requires SectOk(s)
    ensures Prewrite(s).items == s.items && SectOk(Prewrite(s))
  {
    PrewriteKeeps(s.items);
  }

  /** There and back again: an aborted move without damage puts everything back. */
  lemma AbortedMoveReturnsGoods(w: Sectors, cnum: nat, x: Sector, end: Sector, load: Load)
    requires AmountsOk(w) && load.item < I_COUNT && 0 < load.amount <= w[x].items[load.item] && w[x].own == cnum
    ensures AmountsOk(Removed(w, x, load.item, load.amount))
    ensures var w' := Arrived(Removed(w, x, load.item, load.amount), cnum, x, end, true, load);
            && w'[x].items == w[x].items
            && forall y: Sector :: y != x ==> w'[y] == w[y]
  {
    hide Prewrite, Added, AmountsOk;
    var left := w[x].(items := w[x].items[load.item := w[x].items[load.item] - load.amount], inProgress := true);
    SectIsOk(w, x);
    assert ItemOk(w[x].items[load.item]);
    RemovedCounts(w, x, load.item, load.amount, 0);
    TakeOffKeepsOwner(w, x, load.item, load.amount);
    PutIs(left);
    var removed := Removed(w, x, load.item, load.amount);
    AddedOk(removed[x], load);
    PutIs(Added(removed[x], load));
    PutIs(Prewrite(Added(removed[x], load)).(inProgress := false));
    assert left.items[load.item := left.items[load.item] + load.amount] == w[x].items;
  }
}
