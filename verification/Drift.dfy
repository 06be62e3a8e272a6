/**
 Placing the capitals: they start in a row and drift apart until stable (iso,
 drift, stable, drift_capital).
 */
module Drift {
  import opened HexTorus
  import opened Chance

  const INT_MAX: int := 0x7fffffff
  const STABLE_CYCLE: int := 4
  const DIR_LAST: int := 6

  function DriftBeforeCheck(): int {
    (WORLD_X + WORLD_Y) / 2
  }

  function DriftMax(): int {
    (WORLD_X + WORLD_Y) * 2
  }

  // How isolated a place is

  /** The distance of s to the closest of the first n capitals other than j, INT_MAX if there is none. */
  ghost function Isolation(cap: seq<Sector>, j: nat, s: Sector, n: nat): int
    requires n <= |cap|
  {
    if n == 0 then INT_MAX
    else
      var d := Isolation(cap, j, s, n - 1);
      if n - 1 != j && Dist(cap[n - 1], s) < d then Dist(cap[n - 1], s) else d
  }

  lemma {:induction false} IsolationIsMinimum(cap: seq<Sector>, j: nat, s: Sector, n: nat, m: int)
    requires n <= |cap| && m <= INT_MAX
    ensures Isolation(cap, j, s, n) >= m <==> forall i :: 0 <= i < n && i != j ==> Dist(cap[i], s) >= m
  {
    hide Dist;
    if n > 0 {
      IsolationIsMinimum(cap, j, s, n - 1, m);
    }
  }

  lemma {:induction false} IsolationIgnores(cap: seq<Sector>, cap': seq<Sector>, j: nat, s: Sector, n: nat)
    requires n <= |cap| == |cap'| && forall i :: 0 <= i < n && i != j ==> cap[i] == cap'[i]
    ensures Isolation(cap, j, s, n) == Isolation(cap', j, s, n)
  {
    hide Dist;
    if n > 0 {
      IsolationIgnores(cap, cap', j, s, n - 1);
    }
  }

  /** Any two capitals are at least m apart. */
  ghost predicate Spread(cap: seq<Sector>, m: int) {
    forall i, j :: 0 <= i < j < |cap| ==> Dist(cap[i], cap[j]) >= m
  }

  /** Moving a capital to a place where it is no less isolated never lowers the minimum distance. */
  lemma {:induction false} MovingKeepsSpread(cap: seq<Sector>, j: nat, s: Sector, m: int)
    requires j < |cap| && m <= INT_MAX
    requires Isolation(cap, j, s, |cap|) >= Isolation(cap, j, cap[j], |cap|)
    requires Spread(cap, m)
    ensures Spread(cap[j := s], m)
  {
    hide Dist, Isolation;
    forall i | 0 <= i < |cap| && i != j ensures Dist(cap[i], cap[j]) >= m {
      DistSymmetric(cap[i], cap[j]);
    }
    IsolationIsMinimum(cap, j, cap[j], |cap|, m);
    IsolationIsMinimum(cap, j, s, |cap|, m);
    forall i | 0 <= i < |cap| && i != j ensures Dist(cap[i], s) >= m && Dist(s, cap[i]) >= m {
      DistSymmetric(cap[i], s);
    }
  }

  /** Where drift_capital may leave capital j: next door and no less isolated, or nowhere is better. */
  ghost predicate Drifted(cap: seq<Sector>, j: nat, s: Sector)
    requires j < |cap|
  {
    var isolation := Isolation(cap, j, cap[j], |cap|);
    || (exists d: Dir :: s == Neighbor(cap[j], d) && Isolation(cap, j, s, |cap|) >= isolation)
    || (s == cap[j] && forall d: Dir :: Isolation(cap, j, Neighbor(cap[j], d), |cap|) < isolation)
  }

  /** A turn, up to the n-th capital: each of them in turn may drift. */
  ghost predicate TurnTaken(cap: seq<Sector>, cap': seq<Sector>, n: nat)
    requires n <= |cap|
    decreases n
  {
    && |cap'| == |cap|
    && if n == 0 then cap' == cap
       else var j := n - 1; exists mid :: OneDrifted(mid, cap', j) && TurnTaken(cap, mid, j)
  }

  /** Capital j drifts, and no other. */
  ghost predicate OneDrifted(cap: seq<Sector>, cap': seq<Sector>, j: nat) {
    |cap| == |cap'| && j < |cap| && Drifted(cap, j, cap'[j]) && cap' == cap[j := cap'[j]]
  }

  lemma TurnStarts(cap: seq<Sector>)
    ensures TurnTaken(cap, cap, 0)
  {
  }

  lemma TurnGoesOn(cap: seq<Sector>, mid: seq<Sector>, cap': seq<Sector>, j: nat)
    requires j < |cap| && TurnTaken(cap, mid, j) && OneDrifted(mid, cap', j)
    ensures TurnTaken(cap, cap', j + 1)
  {
    hide OneDrifted;
    SameNumber(mid, cap', j);
  }

  lemma SameNumber(cap: seq<Sector>, cap': seq<Sector>, j: nat)
    requires OneDrifted(cap, cap', j)
    ensures |cap'| == |cap|
  {
  }

  /** d is how isolated the most isolated capital is, or zero. */
  ghost predicate MostIsolatedIs(cap: seq<Sector>, d: int) {
    && d >= 0 && (forall i :: 0 <= i < |cap| ==> Isolation(cap, i, cap[i], |cap|) <= d)
    && (d == 0 || exists i :: 0 <= i < |cap| && Isolation(cap, i, cap[i], |cap|) == d)
  }

  /** caps are the capitals before each turn, and after the last one. */
  ghost predicate DriftTrace(caps: seq<seq<Sector>>, nc: nat) {
    && caps != [] && (forall t :: 0 <= t < |caps| ==> |caps[t]| == nc)
    && (forall i :: 0 <= i < nc ==> caps[0][i] == i)
    && forall t :: 0 <= t < |caps| - 1 ==> TurnAt(caps, t, nc)
  }

  ghost predicate TurnAt(caps: seq<seq<Sector>>, t: nat, nc: nat)
    requires t < |caps| - 1 && |caps[t]| == nc
  {
    TurnTaken(caps[t], caps[t + 1], nc)
  }

  /** From turn start on, history holds how isolated the most isolated capital was. */
  ghost predicate HistoryTells(history: seq<int>, caps: seq<seq<Sector>>, start: nat) {
    && (history != [] ==> start + |history| <= |caps|)
    && forall u :: 0 <= u < |history| ==> MostIsolatedIs(caps[start + u], history[u])
  }

  lemma {:induction false} DriftingKeepsSpread(cap: seq<Sector>, j: nat, s: Sector, m: int)
    requires j < |cap| && m <= INT_MAX && Drifted(cap, j, s) && Spread(cap, m)
    ensures Spread(cap[j := s], m)
  {
    hide Dist, Isolation, Neighbor;
    if s == cap[j] {
      assert cap[j := s] == cap;
    } else {
      MovingKeepsSpread(cap, j, s, m);
    }
  }

  /** Initially, capital i is at the i-th sector. */
  lemma StartingPlace(i: nat)
    requires i < WorldSz()
    ensures 0 <= 2 * i / WORLD_X < WORLD_Y
    ensures var y := 2 * i / WORLD_X; Normal(2 * i % WORLD_X + y % 2, y) && XYOffset(2 * i % WORLD_X + y % 2, y) == i
  {
    hide XYOffset;
    SectorHasCoordinates(i);
    var h := WORLD_X / 2;
    var y, r := i / h, i % h;
    assert i == y * h + r;
    assert SctY(i) == y && SctX(i) == 2 * r + y % 2;
    hide SctX, SctY, WorldSz;
    RowOf(i, h, y, r);
  }

  lemma RowOf(i: nat, h: nat, y: nat, r: nat)
    requires WORLD_X == 2 * h && i == y * h + r && r < h
    ensures 2 * i / WORLD_X == y && 2 * i % WORLD_X == 2 * r
  {
    HalfOfDouble(y, WORLD_X, h);
    DivModUnique(2 * i, WORLD_X, y, 2 * r);
  }

  /** The world is too small for the i-th capital. */
  lemma NoRoomForCapital(i: nat)
    requires i >= WorldSz()
    ensures 2 * i / WORLD_X >= WORLD_Y
  {
    assert 2 * i == (2 * i / WORLD_X) * WORLD_X + 2 * i % WORLD_X;
    OffsetInRange(0, 0);
    HalfOfDouble(WORLD_Y, WORLD_X, WORLD_X / 2);
    MulMonotonic(2 * i / WORLD_X + 1, WORLD_Y, WORLD_X);
  }

  lemma DistinctPlaces(cap: seq<Sector>)
    requires forall i :: 0 <= i < |cap| ==> cap[i] == i
    ensures Spread(cap, 1)
  {
    hide Dist;
    forall i, j | 0 <= i < j < |cap| ensures Dist(cap[i], cap[j]) >= 1 {
      DistZero(cap[i], cap[j]);
    }
  }

  class Capitals {
    const cap: array<Sector>
    /** How isolated the most isolated capital was in recent turns. */
    const mc: array<int>
    /** The same for all turns since checks began. */
    ghost var history: seq<int>

    ghost predicate Valid()
    {
      mc.Length == STABLE_CYCLE && cap as object != mc && cap.Length > 0
    }

    constructor (nc: nat)
      requires nc > 0
      ensures Valid() && cap.Length == nc && fresh(cap) && fresh(mc)
    {
      cap := new Sector[nc];
      mc := new int[STABLE_CYCLE];
      history := [];
    }

    /** iso */
    method Iso(j: nat, s: Sector) returns (d: int)
      requires j < cap.Length
      ensures d == Isolation(cap[..], j, s, cap.Length)
    {
      hide Dist;
      d := INT_MAX;
      var i := 0;
      while i < cap.Length
        invariant 0 <= i <= cap.Length
        invariant d == Isolation(cap[..], j, s, i)
      {
        if i != j {
          var md := Dist(cap[i], s);
          if md < d {
            d := md;
          }
        }
        i := i + 1;
      }
    }

    /** drift_capital */
    method DriftCapital(j: nat) returns (ghost s: Sector)
      requires Valid() && j < cap.Length
      modifies cap
      ensures Drifted(old(cap[..]), j, s) && cap[..] == old(cap[..])[j := s]
    {
      hide Dist, Isolation, Neighbor, WorldSz, Turned, Attempt, Drifted;
      ghost var cap0 := cap[..];
      var roll := Roll0(6);
      var dir := 5 + roll;
      s := cap[j];
      FirstTurn(roll);
      var i := 0;
      while i < 6
        invariant 0 <= i <= 6
        invariant Turned(dir) == Attempt(roll, i) && 1 <= dir <= if i == 0 then 10 else 7
        invariant cap[..] == cap0
        invariant forall t :: 0 <= t < i ==>
                    Isolation(cap0, j, Neighbor(cap0[j], Attempt(roll, t)), |cap0|)
                    < Isolation(cap0, j, cap0[j], |cap0|)
      {
        TurnIs(dir);
        if dir > DIR_LAST {
          dir := dir - 6;
        }
        NextTurn(roll, i, dir);
        var next := Neighbor(cap[j], dir);
        dir := dir + 1;
        var there := Iso(j, next);
        var here := Iso(j, cap[j]);
        if there >= here {
          DriftsThere(cap0, j, dir - 1);
          cap[j] := next;
          s := next;
          return;
        }
        i := i + 1;
      }
      AllTried(cap0, j, roll);
    }

    ghost predicate HistoryOk(turns: nat)
      reads this, mc
      requires Valid()
    {
      HistoryFits(mc[..], history, turns)
    }

    /** stable */
    method Stable(turns: nat) returns (stab: bool)
      requires Valid() && HistoryOk(turns)
      modifies mc, this`history
      ensures HistoryOk(turns + 1)
      ensures turns <= DriftBeforeCheck() ==> !stab && history == old(history)
      ensures turns > DriftBeforeCheck() ==> |history| == |old(history)| + 1 && old(history) <= history
                                             && (stab <==> Unchanged(history))
                                             && MostIsolatedIs(cap[..], history[|history| - 1])
    {
      hide MostIsolatedIs;
      if turns == 0 {
        mc[0], mc[1], mc[2], mc[3] := 0, 1, 2, 3;
      }
      if turns <= DriftBeforeCheck() {
        assert mc[..] == [0, 1, 2, 3];
        return false;
      }
      var d := MostIsolated();
      stab := mc[0] == d && mc[1] == d && mc[2] == d && mc[3] == d;
      StableExactly(mc[..], history, turns, d);
      Recording(mc[..], history, turns, d);
      mc[turns % STABLE_CYCLE] := d;
      history := history + [d];
    }

    /** Lines 704-708: how isolated is the most isolated capital? */
    method MostIsolated() returns (d: int)
      ensures MostIsolatedIs(cap[..], d)
    {
      hide Dist, Isolation;
      d := 0;
      var i := 0;
      while i < cap.Length
        invariant 0 <= i <= cap.Length
        invariant d >= 0 && forall k :: 0 <= k < i ==> Isolation(cap[..], k, cap[k], cap.Length) <= d
        invariant d == 0 || exists k :: 0 <= k < i && Isolation(cap[..], k, cap[k], cap.Length) == d
      {
        var isod := Iso(i, cap[i]);
        if isod > d {
          d := isod;
        }
        i := i + 1;
      }
    }

    /** Lines 666-675: initially, capitals are next to each other, in the order of offsets. */
    method StartTogether() returns (big: bool)
      requires Valid()
      modifies cap
      ensures big <==> cap.Length <= WorldSz()
      ensures big ==> Spread(cap[..], 1) && forall i :: 0 <= i < cap.Length ==> cap[i] == i
    {
      hide Dist, XYOffset, WorldSz;
      var i := 0;
      while i < cap.Length
        invariant 0 <= i <= cap.Length && i <= WorldSz()
        invariant forall k :: 0 <= k < i ==> cap[k] == k
      {
        var y := 2 * i / WORLD_X;
        if i >= WorldSz() {
          NoRoomForCapital(i);
        } else {
          StartingPlace(i);
        }
        if y >= WORLD_Y {
          return false;
        }
        cap[i] := XYOffset(2 * i % WORLD_X + y % 2, y);
        i := i + 1;
      }
      DistinctPlaces(cap[..]);
      return true;
    }

    /** Lines 680-681: let each capital drift once. */
    method DriftAll()
      requires Valid()
      modifies cap
      ensures old(Spread(cap[..], 1)) ==> Spread(cap[..], 1)
      ensures TurnTaken(old(cap[..]), cap[..], cap.Length)
    {
      hide Dist, Drifted, Spread, TurnTaken;
      TurnStarts(cap[..]);
      var j := 0;
      while j < cap.Length
        invariant 0 <= j <= cap.Length
        invariant old(Spread(cap[..], 1)) ==> Spread(cap[..], 1)
        invariant TurnTaken(old(cap[..]), cap[..], j)
      {
        ghost var before := cap[..];
        var s := DriftCapital(j);
        if Spread(before, 1) {
          DriftingKeepsSpread(before, j, s, 1);
        }
        assert OneDrifted(before, cap[..], j);
        TurnGoesOn(old(cap[..]), before, cap[..], j);
        j := j + 1;
      }
    }

    /**
     drift; big says that there is a sector for each capital.  It stops as soon as
     isolation is unchanged, or after as many turns as DRIFT_MAX says.
     */
    method Drift() returns (big: bool, stab: bool, ghost caps: seq<seq<Sector>>)
      requires Valid()
      modifies cap, mc, this`history
      ensures big <==> cap.Length <= WorldSz()
      ensures big ==> Spread(cap[..], 1)
      // In each turn, each capital drifts
      ensures big ==> DriftTrace(caps, cap.Length) && cap[..] == caps[|caps| - 1]
      ensures big ==> HistoryTells(history, caps, (WORLD_X + WORLD_Y) / 2 + 1)
      ensures big && !stab ==> |caps| - 1 == (WORLD_X + WORLD_Y) * 2 && StableAt(history) == -1
                               && |history| == |caps| - 1 - ((WORLD_X + WORLD_Y) / 2 + 1)
      ensures big && stab ==> |caps| - 1 <= (WORLD_X + WORLD_Y) * 2 && StableAt(history) == |history| - 1 >= 3
                              && |history| == |caps| - ((WORLD_X + WORLD_Y) / 2 + 1)
    {
      hide Spread, WorldSz, Unchanged, HistoryFits, HistoryTells, DriftTrace, MostIsolatedIs, TurnTaken;
      stab, caps := false, [];
      big := StartTogether();
      if !big {
        return;
      }
      history := [];
      caps := [cap[..]];
      NoHistory(mc[..]);
      TraceStarts(cap[..]);
      var turns := 0;
      while turns < DriftMax()
        invariant 0 <= turns <= DriftMax() && !stab
        invariant Spread(cap[..], 1) && HistoryOk(turns)
        invariant |caps| == turns + 1 && DriftTrace(caps, cap.Length) && cap[..] == caps[turns]
        invariant HistoryTells(history, caps, DriftBeforeCheck() + 1) && StableAt(history) == -1
      {
        ghost var before := history;
        stab := Stable(turns);
        Recorded(mc[..], before, history, caps, turns);
        if stab {
          ChecksBefore(mc[..], history, turns);
          return;
        }
        DriftAll();
        TraceGoesOn(caps, cap[..]);
        TellsStill(history, caps, cap[..], DriftBeforeCheck() + 1);
        caps := caps + [cap[..]];
        turns := turns + 1;
      }
      ChecksMade(mc[..], history, turns);
    }
  }

  lemma TraceStarts(cap: seq<Sector>)
    requires forall i :: 0 <= i < |cap| ==> cap[i] == i
    ensures DriftTrace([cap], |cap|) && HistoryTells([], [cap], DriftBeforeCheck() + 1) && StableAt([]) == -1
  {
  }

  lemma TraceGoesOn(caps: seq<seq<Sector>>, cap: seq<Sector>)
    requires caps != [] && DriftTrace(caps, |cap|) && TurnTaken(caps[|caps| - 1], cap, |cap|)
    ensures DriftTrace(caps + [cap], |cap|)
  {
    hide TurnTaken;
    var more := caps + [cap];
    forall t | 0 <= t < |caps|
      ensures TurnAt(more, t, |cap|)
    {
      if t < |caps| - 1 {
        assert TurnAt(caps, t, |cap|);
      }
    }
  }

  lemma TellsStill(history: seq<int>, caps: seq<seq<Sector>>, cap: seq<Sector>, start: nat)
    requires HistoryTells(history, caps, start)
    ensures HistoryTells(history, caps + [cap], start)
  {
    hide MostIsolatedIs;
  }

  ghost predicate UnchangedAt(history: seq<int>, u: int)
    requires 0 <= u < |history|
  {
    Unchanged(history[..u + 1])
  }

  /** The first entry of history after which isolation is unchanged, -1 if there is none. */
  ghost function StableAt(history: seq<int>): (u: int)
    ensures u == -1 || (0 <= u < |history| && UnchangedAt(history, u))
    ensures forall v :: 0 <= v < |history| && (u == -1 || v < u) ==> !UnchangedAt(history, v)
  {
    if history == [] then -1
    else
      var front := history[..|history| - 1];
      var u := StableAt(front);
      assert forall v {:trigger UnchangedAt(history, v)} :: 0 <= v < |front| ==>
                      front[..v + 1] == history[..v + 1] && UnchangedAt(front, v) == UnchangedAt(history, v);
      assert history[..|history|] == history;
      if u != -1 then u else if Unchanged(history) then |history| - 1 else -1
  }

  /** What a turn adds to history. */
  lemma Recorded(mc: seq<int>, before: seq<int>, history: seq<int>, caps: seq<seq<Sector>>, turns: nat)
    requires |caps| == turns + 1 && HistoryTells(before, caps, DriftBeforeCheck() + 1) && StableAt(before) == -1
    requires HistoryFits(mc, history, turns + 1)
    requires if turns <= DriftBeforeCheck() then history == before
             else |history| == |before| + 1 && before <= history
                  && MostIsolatedIs(caps[turns], history[|history| - 1])
    ensures HistoryTells(history, caps, DriftBeforeCheck() + 1)
    ensures StableAt(history) ==
            if turns > DriftBeforeCheck() && Unchanged(history) then |history| - 1 else -1
  {
    hide MostIsolatedIs, Unchanged;
    if turns > DriftBeforeCheck() {
      assert history[..|history| - 1] == before;
    }
  }

  lemma ChecksMade(mc: seq<int>, history: seq<int>, turns: nat)
    requires HistoryFits(mc, history, turns) && turns >= DriftMax()
    ensures |history| == turns - (DriftBeforeCheck() + 1)
  {
  }

  lemma NoHistory(mc: seq<int>)
    requires |mc| == 4
    ensures HistoryFits(mc, [], 0)
  {
  }

  /** Stability takes four turns with checks. */
  lemma ChecksBefore(mc: seq<int>, history: seq<int>, turns: nat)
    requires HistoryFits(mc, history, turns + 1) && Unchanged(history)
    ensures turns > DriftBeforeCheck() + 3 && |history| >= 4 && |history| == turns + 1 - (DriftBeforeCheck() + 1)
  {
  }

  /** Where the u-th turn checked is recorded. */
  function Slot(u: nat): (k: nat)
    ensures k < 4
  {
    (DriftBeforeCheck() + 1 + u) % STABLE_CYCLE
  }

  /** Before turn turns, mc holds the last entries of history, and the initial values where there are none yet. */
  ghost predicate HistoryFits(mc: seq<int>, history: seq<int>, turns: nat) {
    && |mc| == 4
    && |history| == (if turns <= DriftBeforeCheck() + 1 then 0 else turns - DriftBeforeCheck() - 1)
    && (forall u :: 0 <= u < |history| && u >= |history| - 4 ==> mc[Slot(u)] == history[u])
    && (turns > 0 && |history| < 4 ==> forall k :: |history| <= k < 4 ==> mc[Slot(k)] == Slot(k))
    && (0 < turns <= DriftBeforeCheck() + 1 ==> mc == [0, 1, 2, 3])
  }

  lemma SlotsDiffer(u: nat, v: nat)
    requires u < v < u + 4
    ensures Slot(u) != Slot(v) && Slot(u + 4) == Slot(u)
  {
  }

  lemma Recording(mc: seq<int>, history: seq<int>, turns: nat, d: int)
    requires HistoryFits(mc, history, turns) && turns > DriftBeforeCheck()
    ensures turns % STABLE_CYCLE == Slot(|history|)
    ensures HistoryFits(mc[Slot(|history|) := d], history + [d], turns + 1)
  {
    hide Slot;
    var mc', history' := mc[Slot(|history|) := d], history + [d];
    assert turns % STABLE_CYCLE == Slot(|history|) by { SlotOfTurn(turns, |history|); }
    forall u | 0 <= u < |history| && u >= |history| - 3
      ensures mc'[Slot(u)] == history'[u]
    {
      SlotsDiffer(u, |history|);
    }
    forall k | |history| + 1 <= k < 4
      ensures mc'[Slot(k)] == Slot(k)
    {
      SlotsDiffer(|history|, k);
    }
  }

  lemma SlotOfTurn(turns: nat, u: nat)
    requires turns == DriftBeforeCheck() + 1 + u
    ensures turns % STABLE_CYCLE == Slot(u)
  {
  }

  /**
   Isolation has been the same for the last five turns, the current one included.
   The first four turns do as well, when they agree with the initial value of mc
   that has not been overwritten yet.
   */
  ghost predicate Unchanged(history: seq<int>) {
    var n := |history| - 1;
    && n >= 3 && history[n - 3] == history[n - 2] == history[n - 1] == history[n]
    && (if n == 3 then history[n] == Slot(3) else history[n - 4] == history[n])
  }

  /** Four places in mc are all there are. */
  lemma AllSlots(mc: seq<int>, first: nat, d: int)
    requires |mc| == 4
    ensures mc[0] == d && mc[1] == d && mc[2] == d && mc[3] == d <==>
            mc[Slot(first)] == d && mc[Slot(first + 1)] == d && mc[Slot(first + 2)] == d && mc[Slot(first + 3)] == d
  {
    hide Slot;
    SlotsDiffer(first, first + 1);
    SlotsDiffer(first, first + 2);
    SlotsDiffer(first, first + 3);
    SlotsDiffer(first + 1, first + 2);
    SlotsDiffer(first + 1, first + 3);
    SlotsDiffer(first + 2, first + 3);
  }

  lemma StableExactly(mc: seq<int>, history: seq<int>, turns: nat, d: int)
    requires HistoryFits(mc, history, turns) && turns > DriftBeforeCheck()
    ensures mc[0] == d && mc[1] == d && mc[2] == d && mc[3] == d <==> Unchanged(history + [d])
  {
    hide Slot;
    var n := |history|;
    var first: nat := if n >= 4 then n - 4 else 0;
    AllSlots(mc, first, d);
    SlotsDiffer(2, 3);
  }

  /** Directions repeat every six. */
  function Turned(d: int): int {
    if d <= 6 then d else if d <= 12 then d - 6 else d - 12
  }

  /** The direction tried in step t. */
  function Attempt(roll: nat, t: nat): (d: int)
    ensures roll < 6 && t <= 6 ==> 1 <= d <= 6
  {
    Turned(5 + roll + t)
  }

  /** The step in which direction d is tried. */
  function StepOf(roll: nat, d: Dir): int {
    if d >= 5 + roll then d - 5 - roll else if d + 6 >= 5 + roll then d + 1 - roll else d + 7 - roll
  }

  lemma FirstTurn(roll: nat)
    requires roll < 6
    ensures Turned(5 + roll) == Attempt(roll, 0)
  {
  }

  lemma TurnIs(dir: nat)
    ensures 1 <= dir <= 10 ==> Turned(dir) == if dir > DIR_LAST then dir - 6 else dir
  {
  }

  lemma NextTurn(roll: nat, t: nat, dir: Dir)
    requires roll < 6 && t < 6 && dir == Attempt(roll, t)
    ensures Turned(dir + 1) == Attempt(roll, t + 1)
  {
  }

  lemma DriftsThere(cap: seq<Sector>, j: nat, d: Dir)
    requires j < |cap| && Isolation(cap, j, Neighbor(cap[j], d), |cap|) >= Isolation(cap, j, cap[j], |cap|)
    ensures Drifted(cap, j, Neighbor(cap[j], d))
  {
    hide Isolation, Neighbor;
  }

  /** When no attempt was any good, no direction is, and the capital stays where it is. */
  lemma AllTried(cap: seq<Sector>, j: nat, roll: nat)
    requires j < |cap| && roll < 6
    requires forall t :: 0 <= t < 6 ==>
               Isolation(cap, j, Neighbor(cap[j], Attempt(roll, t)), |cap|) < Isolation(cap, j, cap[j], |cap|)
    ensures Drifted(cap, j, cap[j]) && cap[j := cap[j]] == cap
  {
    hide Isolation, Neighbor;
    forall d: Dir
      ensures Isolation(cap, j, Neighbor(cap[j], d), |cap|) < Isolation(cap, j, cap[j], |cap|)
    {
      EveryDirection(roll, d);
      assert Attempt(roll, StepOf(roll, d)) == d;
    }
  }

  lemma EveryDirection(roll: nat, d: Dir)
    requires roll < 6
    ensures 0 <= StepOf(roll, d) < 6 && Attempt(roll, StepOf(roll, d)) == d
  {
  }
}
