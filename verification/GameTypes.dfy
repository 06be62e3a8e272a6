/** What the server's commands share: commodities, players and the plague. */
module GameTypes {
  import opened Arith

  const ITEM_MAX: int := 9999
  const I_CIVIL: nat := 0
  const I_MILIT: nat := 1
  const I_COUNT: nat := 14

  /** An amount for every item type. */
  type Items = s: seq<int> | |s| == I_COUNT witness seq(I_COUNT, i => 0)

  datatype Plague = Healthy | Dying | Infect | Incubate | Exposed

  datatype Player = Player(cnum: nat, god: bool)

  /** Add up what a function says of records. */
  function SumOf<T>(records: seq<T>, f: T -> int): int {
    if records == [] then 0 else SumOf(records[..|records| - 1], f) + f(records[|records| - 1])
  }

  lemma {:induction false} SumOfConcat<T>(a: seq<T>, b: seq<T>, f: T -> int)
    ensures SumOf(a + b, f) == SumOf(a, f) + SumOf(b, f)
  {
    if b == [] {
      assert a + b == a;
    } else {
      var last := |b| - 1;
      assert (a + b)[..|a| + last] == a + b[..last];
      SumOfConcat(a, b[..last], f);
    }
  }

  /** Replacing one record changes a sum by what that record contributes. */
  lemma {:induction false} SumUpdate<T>(records: seq<T>, i: nat, r: T, f: T -> int)
    requires i < |records|
    ensures SumOf(records[i := r], f) == SumOf(records, f) - f(records[i]) + f(r)
  {
    var last := |records| - 1;
    if i == last {
      assert records[i := r][..last] == records[..last];
    } else {
      SumUpdate(records[..last], i, r, f);
      assert records[i := r][..last] == records[..last][i := r];
    }
  }

  /** item_prewrite: what is written to a record is forced into its range. */
  function ItemPrewrite(items: Items): Items {
    seq(I_COUNT, i requires 0 <= i < I_COUNT => LimitTo(items[i], 0, ITEM_MAX))
  }

  lemma PrewriteKeeps(items: Items)
    requires forall i :: 0 <= i < I_COUNT ==> 0 <= items[i] <= ITEM_MAX
    ensures ItemPrewrite(items) == items
  {
  }
}
