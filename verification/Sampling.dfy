/**
 Weighted random sampling in one pass, as grow_one_sector does it: keep the
 latest candidate whose roll, below the sum of weights so far, is below its own
 weight.

 The roll vectors that end on a candidate are counted: they are proportional to
 its weight, whatever the order of candidates.
 */
module Sampling {
  import opened Finite
  import opened Chance

  function Sum(ws: seq<nat>): nat {
    if ws == [] then 0 else Sum(ws[..|ws| - 1]) + ws[|ws| - 1]
  }

  /** rolls has one roll for each weight, each below the sum of weights so far. */
  predicate RollsOk(ws: seq<nat>, rolls: seq<int>) {
    && |ws| == |rolls|
    && (ws != [] ==> RollOk(Sum(ws), rolls[|ws| - 1]) && RollsOk(ws[..|ws| - 1], rolls[..|ws| - 1]))
  }

  /** The candidate left at the end, -1 if there is none. */
  function Choose(ws: seq<nat>, rolls: seq<int>): (i: int)
    requires |ws| == |rolls|
    ensures -1 <= i < |ws|
  {
    if ws == [] then -1
    else if rolls[|ws| - 1] < ws[|ws| - 1] then |ws| - 1
    else Choose(ws[..|ws| - 1], rolls[..|ws| - 1])
  }

  /** When weights are not all zero, a candidate with non-zero weight is chosen. */
  lemma {:induction false} ChoosesPositive(ws: seq<nat>, rolls: seq<int>)
    requires RollsOk(ws, rolls) && Sum(ws) > 0
    ensures Choose(ws, rolls) >= 0 && ws[Choose(ws, rolls)] > 0
  {
    var last := |ws| - 1;
    if rolls[last] >= ws[last] {
      ChoosesPositive(ws[..last], rolls[..last]);
    }
  }

  // Counting outcomes

  /** The rolls roll0(n) can return; how negative it is for n == 0 does not matter. */
  ghost function RollRange(n: nat): set<int> {
    if n == 0 then {-1} else Range(n)
  }

  ghost function Extend(vs: set<seq<int>>, rs: set<int>): set<seq<int>> {
    set v, r | v in vs && r in rs :: v + [r]
  }

  /** All roll vectors. */
  ghost function Rolls(ws: seq<nat>): set<seq<int>> {
    if ws == [] then {[]} else Extend(Rolls(ws[..|ws| - 1]), RollRange(Sum(ws)))
  }

  /** The roll vectors that end on candidate i. */
  ghost function Winning(ws: seq<nat>, i: nat): set<seq<int>> {
    set v | v in Rolls(ws) && |v| == |ws| && Choose(ws, v) == i
  }

  lemma InExtend(vs: set<seq<int>>, rs: set<int>, v: seq<int>)
    ensures v in Extend(vs, rs) <==> v != [] && v[..|v| - 1] in vs && v[|v| - 1] in rs
  {
    if v in Extend(vs, rs) {
      var u, r :| u in vs && r in rs && v == u + [r];
      assert v[..|v| - 1] == u;
    }
    if v != [] && v[..|v| - 1] in vs && v[|v| - 1] in rs {
      var u, r := v[..|v| - 1], v[|v| - 1];
      assert v == u + [r];
    }
  }

  lemma {:induction false} RollsAreOk(ws: seq<nat>, v: seq<int>)
    requires v in Rolls(ws)
    ensures RollsOk(ws, v)
  {
    hide Extend;
    if ws != [] {
      InExtend(Rolls(ws[..|ws| - 1]), RollRange(Sum(ws)), v);
      RollsAreOk(ws[..|ws| - 1], v[..|v| - 1]);
    }
  }

  lemma ExtendNothing(vs: set<seq<int>>)
    ensures Extend(vs, {}) == {}
  {
  }

  lemma ExtendMore(v: seq<int>, rs: set<int>, r: int)
    requires r in rs
    ensures Extend({v}, rs) == Extend({v}, rs - {r}) + {v + [r]}
    ensures v + [r] !in Extend({v}, rs - {r})
  {
    hide Extend;
    forall u
      ensures u in Extend({v}, rs) <==> u in Extend({v}, rs - {r}) + {v + [r]}
      ensures u == v + [r] ==> u !in Extend({v}, rs - {r})
    {
      InExtend({v}, rs, u);
      InExtend({v}, rs - {r}, u);
      assert u != [] ==> u == u[..|u| - 1] + [u[|u| - 1]];
    }
  }

  lemma {:induction false} ExtendOne(v: seq<int>, rs: set<int>)
    ensures |Extend({v}, rs)| == |rs|
    decreases rs
  {

    if rs == {} {
      ExtendNothing({v});
    } else {
      var r := Element(rs);
      ExtendOne(v, rs - {r});
      ExtendMore(v, rs, r);
    }
  }

  lemma ExtendSplit(vs: set<seq<int>>, rs: set<int>, v: seq<int>)
    requires v in vs
    ensures Extend(vs, rs) == Extend(vs - {v}, rs) + Extend({v}, rs)
    ensures Extend(vs - {v}, rs) !! Extend({v}, rs)
  {
    hide Extend;
    forall u
      ensures u in Extend(vs, rs) <==> u in Extend(vs - {v}, rs) + Extend({v}, rs)
      ensures !(u in Extend(vs - {v}, rs) && u in Extend({v}, rs))
    {
      InExtend(vs, rs, u);
      InExtend(vs - {v}, rs, u);
      InExtend({v}, rs, u);
    }
  }

  lemma {:induction false} ExtendCardinality(vs: set<seq<int>>, rs: set<int>)
    ensures |Extend(vs, rs)| == |vs| * |rs|
    decreases vs
  {
    hide Extend;
    if vs == {} {
      NothingExtended(rs);
    } else {
      var v :| v in vs;
      ExtendCardinality(vs - {v}, rs);
      ExtendOne(v, rs);
      ExtendSplit(vs, rs, v);
      assert (|vs| - 1) * |rs| + |rs| == |vs| * |rs|;
    }
  }

  lemma NothingExtended(rs: set<int>)
    ensures Extend({}, rs) == {}
  {
  }

  ghost function Interval(a: nat, b: nat): (r: set<int>)
    requires a <= b
    ensures |r| == b - a && forall k :: k in r <==> a <= k < b
  {
    if a == b then {} else Interval(a, b - 1) + {b - 1}
  }

  lemma InWinning(ws: seq<nat>, i: nat, v: seq<int>)
    requires ws != []
    ensures v in Winning(ws, i) <==>
              && v != [] && v[..|v| - 1] in Rolls(ws[..|ws| - 1]) && v[|v| - 1] in RollRange(Sum(ws))
              && |v| == |ws| && Choose(ws, v) == i
  {
    hide Extend, RollRange, Choose, Sum;
    InExtend(Rolls(ws[..|ws| - 1]), RollRange(Sum(ws)), v);
  }

  lemma WinningLast(ws: seq<nat>)
    requires Sum(ws) > 0
    ensures Winning(ws, |ws| - 1) == Extend(Rolls(ws[..|ws| - 1]), Interval(0, ws[|ws| - 1]))
  {
    hide Extend, Rolls, Winning;
    var last := |ws| - 1;
    forall v
      ensures v in Winning(ws, last) <==> v in Extend(Rolls(ws[..last]), Interval(0, ws[last]))
    {
      InWinning(ws, last, v);
      InExtend(Rolls(ws[..last]), Interval(0, ws[last]), v);
      if v != [] && v[..|v| - 1] in Rolls(ws[..last]) {
        RollsAreOk(ws[..last], v[..|v| - 1]);
      }
    }
  }

  lemma WinningEarlier(ws: seq<nat>, i: nat)
    requires Sum(ws) > 0 && i < |ws| - 1
    ensures Winning(ws, i) == Extend(Winning(ws[..|ws| - 1], i), Interval(ws[|ws| - 1], Sum(ws)))
  {
    hide Extend, Rolls, Winning;
    var last := |ws| - 1;
    forall v
      ensures v in Winning(ws, i) <==> v in Extend(Winning(ws[..last], i), Interval(ws[last], Sum(ws)))
    {
      InWinning(ws, i, v);
      InExtend(Winning(ws[..last], i), Interval(ws[last], Sum(ws)), v);
      if v != [] {
        WinningAreRolls(ws[..last], i, v[..|v| - 1]);
      }
    }
  }

  lemma WinningAreRolls(ws: seq<nat>, i: nat, v: seq<int>)
    ensures v in Winning(ws, i) <==> v in Rolls(ws) && |v| == |ws| && Choose(ws, v) == i
  {
  }

  lemma MulAssociative(a: int, b: int, c: int)
    ensures (a * b) * c == a * (b * c)
  {
  }

  /** The number of roll vectors that end on candidate i is its weight times the ways to roll for all but the last. */
  lemma {:induction false} CountWinning(ws: seq<nat>, i: nat)
    requires i < |ws| && Sum(ws) > 0
    ensures |Winning(ws, i)| == ws[i] * |Rolls(ws[..|ws| - 1])|
  {
    hide Extend, Winning, Rolls;
    var front := ws[..|ws| - 1];
    if i == |front| {
      CountLast(ws);
    } else {
      CountEarlier(ws, i);
      if Sum(front) > 0 {
        CountWinning(front, i);
        ReplaceLast(ws, front, i);
      } else {
        SumZero(front, i);
      }
    }
  }

  lemma CountLast(ws: seq<nat>)
    requires Sum(ws) > 0
    ensures |Winning(ws, |ws| - 1)| == ws[|ws| - 1] * |Rolls(ws[..|ws| - 1])|
  {
    hide Extend, Winning, Rolls;
    WinningLast(ws);
    ExtendCardinality(Rolls(ws[..|ws| - 1]), Interval(0, ws[|ws| - 1]));
  }

  lemma ReplaceLast(ws: seq<nat>, front: seq<nat>, i: nat)
    requires i < |front| < |ws| && ws[i] == front[i] && Sum(front) > 0
    requires |Winning(front, i)| == front[i] * |Rolls(front[..|front| - 1])|
    ensures |Winning(front, i)| * Sum(front) == ws[i] * |Rolls(front)|
  {
    hide Extend, Winning, Rolls;
    AllRolls(front);
    MulAssociative(ws[i], |Rolls(front[..|front| - 1])|, Sum(front));
  }

  lemma CountEarlier(ws: seq<nat>, i: nat)
    requires Sum(ws) > 0 && i < |ws| - 1
    ensures |Winning(ws, i)| == |Winning(ws[..|ws| - 1], i)| * Sum(ws[..|ws| - 1])
  {
    hide Extend, Winning;
    WinningEarlier(ws, i);
    ExtendCardinality(Winning(ws[..|ws| - 1], i), Interval(ws[|ws| - 1], Sum(ws)));
  }

  lemma AllRolls(ws: seq<nat>)
    requires Sum(ws) > 0
    ensures |Rolls(ws)| == |Rolls(ws[..|ws| - 1])| * Sum(ws)
  {
    hide Extend;
    ExtendCardinality(Rolls(ws[..|ws| - 1]), RollRange(Sum(ws)));
  }

  lemma {:induction false} SumZero(ws: seq<nat>, i: nat)
    requires Sum(ws) == 0 && i < |ws|
    ensures ws[i] == 0
  {
    if i < |ws| - 1 {
      SumZero(ws[..|ws| - 1], i);
    }
  }

  /** Every candidate is chosen with a chance exactly proportional to its weight. */
  lemma {:induction false} ExactlyProportional(ws: seq<nat>, i: nat)
    requires i < |ws| && Sum(ws) > 0
    ensures |Winning(ws, i)| * Sum(ws) == ws[i] * |Rolls(ws)|
  {
    hide Winning, Rolls;
    CountWinning(ws, i);
    AllRolls(ws);
    MulAssociative(ws[i], |Rolls(ws[..|ws| - 1])|, Sum(ws));
  }
}
