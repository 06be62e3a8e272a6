/**
 Random numbers (chance.c).  The generator delivers 32-bit words; a roll masks
 them to the next power of two and rejects what is out of range.
 */
module Chance {

  const SIGN_BIT: bv32 := 0x8000_0000

  /** round_up_to_pow2: fill all bits below the highest one set. */
  function RoundUpToPow2(val: bv32): bv32 {
    var v := val - 1;
    var v := v | (v >> 1);
    var v := v | (v >> 2);
    var v := v | (v >> 4);
    var v := v | (v >> 8);
    var v := v | (v >> 16);
    v + 1
  }

  /** roll0(n) masks words with this. */
  predicate MaskFor(n: bv32, mask: bv32) {
    mask == RoundUpToPow2(n) - 1
  }

  /** r < n as signed integers, for n not negative. */
  predicate Accepted(n: bv32, r: bv32) {
    r >= SIGN_BIT || r < n
  }

  /** In [0,n), or negative for n == 0. */
  predicate InRange(n: bv32, r: bv32) {
    if n == 0 then r >= SIGN_BIT else r < n
  }

  /** It is the least power of two that is no less than n; so words are accepted more often than not. */
  lemma LeastPowerOfTwo(n: bv32)
    requires 1 <= n <= SIGN_BIT
    ensures var p := RoundUpToPow2(n); p & (p - 1) == 0 && n <= p && (p >> 1) < n
  {
  }

  /** Exactly the words that are in range when masked are accepted; for n == 0, nothing is masked. */
  lemma AcceptedInRange(n: bv32, mask: bv32, word: bv32)
    requires n < SIGN_BIT && MaskFor(n, mask)
    ensures Accepted(n, word & mask) <==> InRange(n, word & mask)
    ensures n == 0 ==> word & mask == word
  {
  }

  lemma BelowPower(p: bv32, a: bv32)
    requires p & (p - 1) == 0 && a < p
    ensures a & (p - 1) == a
  {
  }

  lemma RangeFits(n: bv32, mask: bv32, a: bv32)
    requires 1 <= n < SIGN_BIT && MaskFor(n, mask) && a < n
    ensures a & mask == a && Accepted(n, a)
  {
    hide RoundUpToPow2;
    LeastPowerOfTwo(n);
    BelowPower(RoundUpToPow2(n), a);
  }

  lemma XorKeepsMask(mask: bv32, a: bv32, b: bv32)
    ensures (a ^ b) & mask == (a & mask) ^ (b & mask)
  {
  }

  lemma XorTwice(a: bv32, b: bv32)
    ensures a ^ (a ^ b) == b
  {
  }

  lemma XorBack(a: bv32, b: bv32)
    ensures (a ^ b) ^ b == a
  {
  }

  lemma Exchange(mask: bv32, a: bv32, b: bv32, word: bv32)
    requires a & mask == a && b & mask == b && word & mask == a
    ensures (word ^ (a ^ b)) & mask == b
  {
    XorKeepsMask(mask, a, b);
    XorKeepsMask(mask, word, a ^ b);
    XorTwice(a, b);
  }

  /**
   Every number in range is rolled for some word, and all are equally likely:
   w ^ (a ^ b) takes the words for a to words for b, and takes them back, so there
   are no more of the former than of the latter, for all a and b.
   */
  lemma RollsAreUniform(n: bv32, mask: bv32, a: bv32, b: bv32, word: bv32)
    requires 1 <= n < SIGN_BIT && MaskFor(n, mask) && a < n && b < n
    ensures a & mask == a && Accepted(n, a)
    ensures word & mask == a ==> (word ^ (a ^ b)) & mask == b
    ensures (word ^ (a ^ b)) ^ (a ^ b) == word
  {
    hide *;
    RangeFits(n, mask, a);
    RangeFits(n, mask, b);
    if word & mask == a {
      Exchange(mask, a, b, word);
    }
    XorBack(word, a ^ b);
  }

  /** A word that ends roll0(n). */
  predicate Delivers(n: bv32, mask: bv32, word: bv32) {
    InRange(n, word & mask)
  }

  /** What it ends with. */
  predicate Rolled(mask: bv32, word: bv32, r: bv32) {
    r == word & mask
  }

  /** The loop body of roll0. */
  method RollOnce(n: bv32, mask: bv32, word: bv32) returns (r: bv32, accepted: bool)
    requires n < SIGN_BIT && MaskFor(n, mask)
    ensures Rolled(mask, word, r) && (accepted <==> Delivers(n, mask, word))
  {
    hide MaskFor, Accepted, InRange;
    AcceptedInRange(n, mask, word);
    r := word & mask;
    accepted := Accepted(n, r);
  }

  /**
   roll0 while the generator delivers these words: the roll is the first that is
   in range, and used the number of words up to it.
   */
  method Roll0From(n: bv32, words: seq<bv32>) returns (found: bool, ghost mask: bv32, r: bv32, used: nat)
    requires n < SIGN_BIT
    ensures MaskFor(n, mask) && used <= |words|
    ensures forall k :: 0 <= k < (if found then used - 1 else |words|) ==> !Delivers(n, mask, words[k])
    ensures found ==> used > 0 && Delivers(n, mask, words[used - 1]) && Rolled(mask, words[used - 1], r)
  {
    var m := RoundUpToPow2(n) - 1;
    assert MaskFor(n, m);
    hide *;
    mask, found, r, used := m, false, 0, 0;
    while !found && used < |words|
      invariant used <= |words|
      invariant forall k :: 0 <= k < (if found then used - 1 else used) ==> !Delivers(n, m, words[k])
      invariant found ==> used > 0 && Delivers(n, m, words[used - 1]) && Rolled(m, words[used - 1], r)
      decreases |words| - used, !found
    {
      r, found := RollOnce(n, m, words[used]);
      used := used + 1;
    }
  }

  // Rolls as integers

  /**
   roll0(n) returns a number in [0,n).  For n == 0, it keeps rolling until the
   number is negative.
   */
  predicate RollOk(n: nat, r: int) {
    if n == 0 then r < 0 else 0 <= r < n
  }

  /** roll0, with any words */
  method Roll0(n: nat) returns (r: int)
    ensures RollOk(n, r)
  {
    assert RollOk(n, if n == 0 then -1 else 0);
    r :| RollOk(n, r);
  }

  /** roll */
  method Roll(n: nat) returns (r: int)
    ensures RollOk(n, r - 1)
  {
    r := Roll0(n);
    r := r + 1;
  }
}
