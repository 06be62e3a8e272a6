/**
 Sampling as place_island does it: a candidate's weight is cut off at some limit
 when weights are added up, but rolls are compared with the whole weight.

 So chances are not proportional to the weights that are added up, except when
 no candidate after the first has its weight cut off.
 */
module Placing {
  import opened Arith
  import opened Finite
  import opened Chance
  import opened Sampling

  /** What the candidates add to the sum. */
  function Cut(ws: seq<nat>, limit: nat): (ms: seq<nat>)
    ensures |ms| == |ws| && forall i :: 0 <= i < |ws| ==> ms[i] == Min(ws[i], limit)
  {
    if ws == [] then [] else Cut(ws[..|ws| - 1], limit) + [Min(ws[|ws| - 1], limit)]
  }

  /** The roll vectors that end on candidate i. */
  ghost function Taking(ws: seq<nat>, limit: nat, i: nat): set<seq<int>> {
    set v | v in Rolls(Cut(ws, limit)) && |v| == |ws| && Choose(ws, v) == i
  }

  /** One more candidate. */
  lemma CutMore(ws: seq<nat>, limit: nat, rolls: seq<int>, weight: nat, roll: int)
    requires RollsOk(Cut(ws, limit), rolls) && RollOk(Sum(Cut(ws, limit)) + Min(weight, limit), roll)
    ensures RollsOk(Cut(ws + [weight], limit), rolls + [roll])
    ensures Sum(Cut(ws + [weight], limit)) == Sum(Cut(ws, limit)) + Min(weight, limit)
    ensures Choose(ws + [weight], rolls + [roll]) == if roll < weight then |ws| else Choose(ws, rolls)
  {
    hide RollsOk, Sum, Choose;
    CutOneMore(ws, limit, weight);
    RollMore(Cut(ws, limit), rolls, Min(weight, limit), roll);
    RollsLength(Cut(ws, limit), rolls);
    ChooseMore(ws, rolls, weight, roll);
  }

  lemma CutOneMore(ws: seq<nat>, limit: nat, weight: nat)
    ensures Cut(ws + [weight], limit) == Cut(ws, limit) + [Min(weight, limit)]
  {
  }

  lemma RollMore(ms: seq<nat>, rolls: seq<int>, m: nat, roll: int)
    requires RollsOk(ms, rolls) && RollOk(Sum(ms) + m, roll)
    ensures RollsOk(ms + [m], rolls + [roll]) && Sum(ms + [m]) == Sum(ms) + m
  {
    assert (ms + [m])[..|ms|] == ms;
    assert (rolls + [roll])[..|rolls|] == rolls;
  }

  lemma RollsLength(ms: seq<nat>, rolls: seq<int>)
    requires RollsOk(ms, rolls)
    ensures |ms| == |rolls|
  {
  }

  lemma ChooseMore(ws: seq<nat>, rolls: seq<int>, weight: nat, roll: int)
    requires |ws| == |rolls|
    ensures Choose(ws + [weight], rolls + [roll]) == if roll < weight then |ws| else Choose(ws, rolls)
  {
    assert (ws + [weight])[..|ws|] == ws;
    assert (rolls + [roll])[..|rolls|] == rolls;
  }

  /** Some candidate is chosen, if only the first. */
  lemma {:induction false} SomethingChosen(ws: seq<nat>, limit: nat, rolls: seq<int>)
    requires AllPositive(ws) && ws != [] && limit > 0 && RollsOk(Cut(ws, limit), rolls)
    ensures |rolls| == |ws| && Choose(ws, rolls) >= 0
  {
    CutFront(ws, limit);
    if |ws| > 1 {
      SomethingChosen(ws[..|ws| - 1], limit, rolls[..|ws| - 1]);
    }
  }

  lemma NothingCut(limit: nat)
    ensures Sum(Cut([], limit)) == 0
  {
  }

  /** Every candidate is chosen with a chance proportional to what it adds to the sum. */
  ghost predicate Proportional(ws: seq<nat>, limit: nat) {
    var ms := Cut(ws, limit);
    forall i: nat | i < |ws| :: |Taking(ws, limit, i)| * Sum(ms) == ms[i] * |Rolls(ms)|
  }

  ghost predicate AllPositive(ws: seq<nat>) {
    forall i :: 0 <= i < |ws| ==> ws[i] > 0
  }

  lemma CutFront(ws: seq<nat>, limit: nat)
    requires ws != []
    ensures var ms := Cut(ws, limit);
            && ms[..|ws| - 1] == Cut(ws[..|ws| - 1], limit) && ms[|ws| - 1] == Min(ws[|ws| - 1], limit)
            && Sum(ms) == Sum(Cut(ws[..|ws| - 1], limit)) + Min(ws[|ws| - 1], limit)
  {
  }

  lemma {:induction false} CutPositive(ws: seq<nat>, limit: nat)
    requires AllPositive(ws) && limit > 0 && ws != []
    ensures Sum(Cut(ws, limit)) > 0
  {
    CutFront(ws, limit);
  }

  lemma {:induction false} SomeRolls(ms: seq<nat>)
    ensures |Rolls(ms)| > 0
  {
    hide Extend;
    if ms != [] {
      SomeRolls(ms[..|ms| - 1]);
      ExtendCardinality(Rolls(ms[..|ms| - 1]), RollRange(Sum(ms)));
      RangeNotEmpty(Sum(ms));
      ProductPositive(|Rolls(ms[..|ms| - 1])|, |RollRange(Sum(ms))|);
    }
  }

  lemma ProductPositive(a: nat, b: nat)
    requires a > 0 && b > 0
    ensures a * b > 0
  {
  }

  lemma RangeNotEmpty(n: nat)
    ensures |RollRange(n)| > 0
  {
  }

  // When no weight after the first is cut off

  /** Only the first weight may be cut off. */
  ghost predicate OnlyFirstCut(ws: seq<nat>, limit: nat) {
    forall i :: 1 <= i < |ws| ==> ws[i] <= limit
  }

  /** The first candidate is chosen anyway. */
  lemma {:induction false} SameChoice(ws: seq<nat>, limit: nat, v: seq<int>)
    requires OnlyFirstCut(ws, limit) && RollsOk(Cut(ws, limit), v) && AllPositive(ws) && limit > 0
    ensures |v| == |ws| && Choose(ws, v) == Choose(Cut(ws, limit), v)
  {
    if ws != [] {
      CutFront(ws, limit);
      SameChoice(ws[..|ws| - 1], limit, v[..|v| - 1]);
    }
  }

  lemma FairWhenUncut(ws: seq<nat>, limit: nat)
    requires OnlyFirstCut(ws, limit) && AllPositive(ws) && limit > 0
    ensures Proportional(ws, limit)
  {
    hide Rolls, RollsOk;
    var ms := Cut(ws, limit);
    forall i: nat | i < |ws|
      ensures |Taking(ws, limit, i)| * Sum(ms) == ms[i] * |Rolls(ms)|
    {
      forall v | v in Rolls(ms)
        ensures |v| == |ws| && Choose(ws, v) == Choose(ms, v)
      {
        RollsAreOk(ms, v);
        SameChoice(ws, limit, v);
      }
      assert Taking(ws, limit, i) == Winning(ms, i);
      CutPositive(ws, limit);
      ExactlyProportional(ms, i);
    }
  }

  // When one is

  lemma InTaking(ws: seq<nat>, limit: nat, i: nat, v: seq<int>)
    requires ws != []
    ensures v in Taking(ws, limit, i) <==>
              && v != [] && v[..|v| - 1] in Rolls(Cut(ws[..|ws| - 1], limit))
              && v[|v| - 1] in RollRange(Sum(Cut(ws, limit))) && |v| == |ws| && Choose(ws, v) == i
  {
    hide Extend, RollRange, Choose, Sum;
    CutFront(ws, limit);
    InExtend(Rolls(Cut(ws[..|ws| - 1], limit)), RollRange(Sum(Cut(ws, limit))), v);
  }

  lemma TakingLast(ws: seq<nat>, limit: nat)
    requires ws != [] && Sum(Cut(ws, limit)) > 0
    ensures Taking(ws, limit, |ws| - 1) ==
            Extend(Rolls(Cut(ws[..|ws| - 1], limit)), Interval(0, Min(ws[|ws| - 1], Sum(Cut(ws, limit)))))
  {
    hide Extend, Rolls, Taking, Cut;
    var last := |ws| - 1;
    var front, rolls := Cut(ws[..last], limit), Interval(0, Min(ws[last], Sum(Cut(ws, limit))));
    forall v
      ensures v in Taking(ws, limit, last) <==> v in Extend(Rolls(front), rolls)
    {
      InTaking(ws, limit, last, v);
      InExtend(Rolls(front), rolls, v);
      if v != [] && v[..|v| - 1] in Rolls(front) {
        RollsAreOk(front, v[..|v| - 1]);
        CutLength(ws[..last], limit);
      }
    }
  }

  lemma CutLength(ws: seq<nat>, limit: nat)
    ensures |Cut(ws, limit)| == |ws|
  {
  }

  lemma TakingEarlier(ws: seq<nat>, limit: nat, i: nat)
    requires i < |ws| - 1 && ws[|ws| - 1] <= limit && Sum(Cut(ws, limit)) > 0
    ensures ws[|ws| - 1] <= Sum(Cut(ws, limit))
    ensures Taking(ws, limit, i)
            == Extend(Taking(ws[..|ws| - 1], limit, i), Interval(ws[|ws| - 1], Sum(Cut(ws, limit))))
  {
    CutFront(ws, limit);
    hide Extend, Rolls, Taking, Cut;
    var last := |ws| - 1;
    var rolls := Interval(ws[last], Sum(Cut(ws, limit)));
    forall v
      ensures v in Taking(ws, limit, i) <==> v in Extend(Taking(ws[..last], limit, i), rolls)
    {
      InTaking(ws, limit, i, v);
      InExtend(Taking(ws[..last], limit, i), rolls, v);
      if v != [] {
        TakingMeans(ws[..last], limit, i, v[..|v| - 1]);
      }
    }
  }

  lemma TakingMeans(ws: seq<nat>, limit: nat, i: nat, v: seq<int>)
    ensures v in Taking(ws, limit, i) <==> v in Rolls(Cut(ws, limit)) && |v| == |ws| && Choose(ws, v) == i
  {
  }

  /** The last candidate whose weight is cut off is chosen too often. */
  lemma {:induction false} CutIsFavoured(ws: seq<nat>, limit: nat, j: nat)
    requires AllPositive(ws) && limit > 0 && 1 <= j < |ws| && ws[j] > limit
    requires forall k :: j < k < |ws| ==> ws[k] <= limit
    ensures |Taking(ws, limit, j)| * Sum(Cut(ws, limit)) > limit * |Rolls(Cut(ws, limit))|
  {
    hide Extend, Taking, Rolls, Cut, Sum;
    var last := |ws| - 1;
    var front := ws[..last];
    var n, n' := Sum(Cut(ws, limit)), Sum(Cut(front, limit));
    CutFront(ws, limit);
    CutPositive(ws, limit);
    CutPositive(front, limit);
    AllRolls(Cut(ws, limit));
    if j == last {
      TakingLast(ws, limit);
      var few := Min(ws[last], n);
      ExtendCardinality(Rolls(Cut(front, limit)), Interval(0, few));
      SomeRolls(Cut(front, limit));
      Favoured(|Rolls(Cut(front, limit))|, few, limit, n);
    } else {
      CutIsFavoured(front, limit, j);
      TakingEarlier(ws, limit, j);
      ExtendCardinality(Taking(front, limit, j), Interval(ws[last], n));
      StillFavoured(|Taking(front, limit, j)|, n', n, limit, |Rolls(Cut(front, limit))|);
    }
  }

  lemma Favoured(rolls: nat, few: nat, limit: nat, n: nat)
    requires rolls > 0 && few > limit && n > 0
    ensures (rolls * few) * n > limit * (rolls * n)
  {
    assert (rolls * few) * n == few * (rolls * n);
    assert rolls * n > 0;
    assert few * (rolls * n) >= (limit + 1) * (rolls * n);
  }

  lemma StillFavoured(taking: nat, n': nat, n: nat, limit: nat, rolls: nat)
    requires taking * n' > limit * rolls && n > 0
    ensures (taking * n') * n > limit * (rolls * n)
  {
    assert limit * (rolls * n) == (limit * rolls) * n;
    assert (taking * n' - limit * rolls) * n > 0;
  }

  lemma {:induction false} LastCut(ws: seq<nat>, limit: nat) returns (j: nat)
    requires !OnlyFirstCut(ws, limit)
    ensures 1 <= j < |ws| && ws[j] > limit && forall k :: j < k < |ws| ==> ws[k] <= limit
  {
    j := |ws| - 1;
    if ws[j] <= limit {
      j := LastCut(ws[..j], limit);
    }
  }

  /** Chances are proportional to what is added to the sum exactly when no weight after the first is cut off. */
  lemma ProportionalExactlyWhen(ws: seq<nat>, limit: nat)
    requires AllPositive(ws) && limit > 0
    ensures Proportional(ws, limit) <==> OnlyFirstCut(ws, limit)
  {
    hide Taking, Rolls, Cut;
    if OnlyFirstCut(ws, limit) {
      FairWhenUncut(ws, limit);
    } else {
      var j := LastCut(ws, limit);
      CutIsFavoured(ws, limit, j);
      CutIs(ws, limit, j);
    }
  }

  lemma CutIs(ws: seq<nat>, limit: nat, j: nat)
    requires j < |ws|
    ensures |Cut(ws, limit)| == |ws| && Cut(ws, limit)[j] == Min(ws[j], limit)
  {
  }

  /** The second of two candidates is always chosen here, though both add the same to the sum. */
  lemma NotAlwaysProportional()
    ensures AllPositive([1, 4]) && !Proportional([1, 4], 1)
  {
    hide Proportional;
    ProportionalExactlyWhen([1, 4], 1);
    assert !OnlyFirstCut([1, 4], 1) by {
      assert [1, 4][1] == 4;
    }
  }
}
