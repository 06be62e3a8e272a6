/**
 The ring buffer of the client (ringbuf.c).  Consumer and producer positions are
 32-bit counters that wrap around; the buffer size divides 2^32.
 */
module RingBuf {

  type Byte = b: int | 0 <= b < 256

  const RING_SIZE: int := 4096
  const EOF: int := -1
  const NEWLINE: Byte := 10

  /** Values of an unsigned int. */
  const UINT_SIZE: nat := 0x1_0000_0000
  type Unsigned = n: int | 0 <= n < UINT_SIZE

  /** Unsigned subtraction. */
  function Minus(a: Unsigned, b: Unsigned): Unsigned {
    (a - b) % UINT_SIZE
  }

  /** Unsigned addition. */
  function Plus(a: Unsigned, n: nat): Unsigned {
    (a + n) % UINT_SIZE
  }

  /** The place of a position in the buffer. */
  function Slot(pos: nat): (slot: nat)
    ensures slot < RING_SIZE
  {
    pos % RING_SIZE
  }

  lemma MinusIs(a: Unsigned, b: Unsigned)
    ensures Minus(a, b) == if a >= b then a - b else a - b + UINT_SIZE
  {
  }

  lemma PlusIs(a: Unsigned, n: nat)
    requires n < UINT_SIZE
    ensures Plus(a, n) == if a + n < UINT_SIZE then a + n else a + n - UINT_SIZE
  {
  }

  /** Wrap-around of counters makes no difference to slots. */
  lemma SameSlot(a: nat, b: nat, wraps: int)
    requires a - b == wraps * RING_SIZE
    ensures Slot(a) == Slot(b)
  {
  }

  lemma Advance(cons: Unsigned, n: nat, i: nat)
    ensures Slot(Plus(cons, n) + i) == Slot(cons + (n + i))
  {
    var q := (cons + n) / UINT_SIZE;
    assert cons + n == q * UINT_SIZE + Plus(cons, n);
    SameSlot(Plus(cons, n) + i, cons + (n + i), -(q * 0x10_0000));
  }

  /** Where positions are in the buffer, and how far apart they are. */
  lemma SlotOf(cons: Unsigned, prod: Unsigned, n: nat)
    ensures Slot(Plus(cons, n)) == Slot(cons + n)
    ensures n <= Minus(prod, cons) ==>
              Minus(Plus(cons, n), cons) == n && Minus(prod, Plus(cons, n)) == Minus(prod, cons) - n
  {
    hide Slot, Minus, Plus;
    Advance(cons, n, 0);
    if n <= Minus(prod, cons) {
      MinusIs(prod, cons);
      PlusIs(cons, n);
      MinusIs(Plus(cons, n), cons);
      MinusIs(prod, Plus(cons, n));
    }
  }

  lemma SlotFromEnd(cons: Unsigned, prod: Unsigned, m: nat)
    requires m <= Minus(prod, cons)
    ensures Slot(Minus(prod, m)) == Slot(cons + (Minus(prod, cons) - m))
  {
    hide Minus;
    MinusIs(prod, cons);
    MinusIs(prod, m);
    var a, b := Minus(prod, m), cons + (Minus(prod, cons) - m);
    SameSlot(a, b, if a == b then 0 else if a < b then -0x10_0000 else 0x10_0000);
  }

  /** Raw comparison of a position n beyond cons with prod. */
  lemma ComparePositions(cons: Unsigned, prod: Unsigned, n: nat)
    requires n <= RING_SIZE + 1 && Minus(prod, cons) <= RING_SIZE
    ensures (Plus(cons, n) >= prod <==> n >= Minus(prod, cons)) <==> (cons <= prod <==> cons + n < UINT_SIZE)
    ensures (prod < Plus(cons, n) <==> n > Minus(prod, cons)) <==> (cons <= prod <==> cons + n < UINT_SIZE)
  {
    hide Slot, Minus, Plus;
    MinusIs(prod, cons);
    PlusIs(cons, n);
  }

  /** s occurs in q at position k. */
  predicate OccursAt(q: seq<Byte>, s: seq<Byte>, k: int) {
    0 <= k && k + |s| <= |q| && q[k..k + |s|] == s
  }

  /** The leftmost position from n on where s occurs in q, -1 if there is none. */
  function Find(q: seq<Byte>, s: seq<Byte>, n: nat): (r: int)
    ensures r == -1 || (n <= r && OccursAt(q, s, r))
    ensures forall k :: n <= k && (r == -1 || k < r) ==> !OccursAt(q, s, k)
    decreases |q| - n
  {
    if n + |s| > |q| then -1
    else if OccursAt(q, s, n) then n
    else Find(q, s, n + 1)
  }

  /** A stretch of the buffer, as in struct iovec. */
  datatype Iov = Iov(base: nat, len: nat)

  /** The positions from start on, as slots of the buffer. */
  ghost predicate Covers(iov: seq<Iov>, start: nat, n: nat) {
    |Slots(iov)| == n && forall k :: 0 <= k < n ==> Slots(iov)[k] == Slot(start + k)
  }

  /** Two segments cover a stretch that wraps around. */
  lemma Wrapping(start: Unsigned, n: nat)
    requires n <= RING_SIZE
    ensures var first := Slot(start);
            && (first + n <= RING_SIZE ==> Covers([Iov(first, n)], start, n))
            && (first + n >= RING_SIZE ==>
                  Covers([Iov(first, RING_SIZE - first), Iov(0, first + n - RING_SIZE)], start, n))
  {
    hide Slots;
    var first := Slot(start);
    if first + n <= RING_SIZE {
      SlotsOf(Iov(first, n), Iov(0, 0));
    }
    if first + n >= RING_SIZE {
      SlotsOf(Iov(first, RING_SIZE - first), Iov(0, first + n - RING_SIZE));
    }
  }

  /** The indexes of the buffer that segments cover, in order. */
  function Slots(iov: seq<Iov>): seq<nat> {
    if iov == [] then [] else seq(iov[0].len, i requires 0 <= i => iov[0].base + i) + Slots(iov[1..])
  }

  lemma SlotsOf(a: Iov, b: Iov)
    ensures |Slots([a])| == a.len && |Slots([a, b])| == a.len + b.len
    ensures forall k :: 0 <= k < a.len ==> Slots([a])[k] == Slots([a, b])[k] == a.base + k
    ensures forall k :: a.len <= k < a.len + b.len ==> Slots([a, b])[k] == b.base + (k - a.len)
  {
    assert [a][1..] == [] && [a, b][1..] == [b] && [b][1..] == [];
  }

  class Ring {
    var cons: Unsigned
    var prod: Unsigned
    const buf: array<Byte>

    /** prod - cons <= RING_SIZE */
    ghost predicate Valid()
      reads this
    {
      buf.Length == RING_SIZE && Minus(prod, cons) <= RING_SIZE
    }

    /** The bytes put in and not yet gotten, oldest first. */
    ghost function Contents(): (q: seq<Byte>)
      reads this, buf
      requires Valid()
      ensures |q| == Minus(prod, cons)
    {
      seq(Minus(prod, cons), i requires 0 <= i < Minus(prod, cons) reads this, buf => buf[Slot(cons + i)])
    }

    /** ring_init */
    constructor ()
      ensures Valid() && Contents() == [] && fresh(buf) && cons == prod == 0
    {
      cons, prod := 0, 0;
      buf := new Byte[RING_SIZE];
    }

    /** ring_len */
    method Len() returns (n: nat)
      requires Valid()
      ensures n == |Contents()|
    {
      n := Minus(prod, cons);
      assert n <= RING_SIZE;
    }

    /** ring_space */
    method Space() returns (n: nat)
      requires Valid()
      ensures n == RING_SIZE - |Contents()|
    {
      n := RING_SIZE - Minus(prod, cons);
    }

    /** Comparing positions that are n apart works: either nothing has wrapped around, or both have. */
    ghost predicate Comparable(n: nat)
      reads this
    {
      cons <= prod <==> cons + n < UINT_SIZE
    }

    /** The byte ring_peek(n) promises. */
    ghost function Peeked(n: int): int
      reads this, buf
      requires Valid()
    {
      if 0 <= n < |Contents()| then Contents()[n]
      else if n < 0 && -n <= |Contents()| then Contents()[|Contents()| + n]
      else EOF
    }

    /** ring_peek; it delivers what it promises exactly when the positions compared are comparable. */
    method Peek(n: int) returns (ch: int)
      requires Valid() && -RING_SIZE - 1 <= n <= RING_SIZE
      ensures ch == Peeked(n) <==> Comparable(if n < 0 then -n else n)
    {
      hide Slot, Minus, Plus;
      var idx: Unsigned;
      if n >= 0 {
        ComparePositions(cons, prod, n);
        SlotOf(cons, prod, n);
        idx := Plus(cons, n);
        if idx >= prod {
          return EOF;
        }
      } else {
        ComparePositions(cons, prod, -n);
        if prod < Plus(cons, -n) {
          return EOF;
        }
        idx := Minus(prod, -n);
        if -n <= Minus(prod, cons) {
          SlotFromEnd(cons, prod, -n);
        }
      }
      ch := buf[Slot(idx)];
    }

    /** ring_getc */
    method Getc() returns (ch: int)
      requires Valid()
      modifies this`cons
      ensures Valid()
      ensures old(Contents()) == [] ==> ch == EOF && Contents() == []
      ensures old(Contents()) != [] ==> ch == old(Contents())[0] && Contents() == old(Contents())[1..]
      ensures cons == if ch == EOF then old(cons) else Plus(old(cons), 1)
    {
      hide Slot, Minus, Plus;
      NotEmpty(cons, prod);
      if cons == prod {
        return EOF;
      }
      ch := buf[Slot(cons)];
      ghost var q, before := Contents(), cons;
      SlotOf(cons, prod, 1);
      cons := Plus(cons, 1);
      forall i | 0 <= i < |q| - 1
        ensures Contents()[i] == q[1..][i]
      {
        Advance(before, 1, i);
      }
      assert Contents() == q[1..];
    }

    /** ring_putc */
    method Putc(c: Byte) returns (ch: int)
      requires Valid()
      modifies this`prod, buf
      ensures Valid()
      ensures |old(Contents())| == RING_SIZE ==> ch == EOF && Contents() == old(Contents())
      ensures |old(Contents())| < RING_SIZE ==> ch == c && Contents() == old(Contents()) + [c]
      ensures prod == if ch == EOF then old(prod) else Plus(old(prod), 1)
    {
      hide Slot, Minus, Plus;
      if Minus(prod, cons) == RING_SIZE {
        return EOF;
      }
      ghost var q := Contents();
      buf[Slot(prod)] := c;
      ch := c;
      Produce(cons, prod, 1);
      SlotAfter(cons, prod, 0);
      prod := Plus(prod, 1);
      forall k | 0 <= k < |q| + 1
        ensures Contents()[k] == (q + [c])[k]
      {
        if k < |q| {
          SlotsApart(cons + k, |q| - k);
        }
      }
      assert Contents() == q + [c];
    }

    /** ring_putm: all or nothing */
    method Putm(bytes: seq<Byte>) returns (left: int)
      requires Valid()
      modifies this`prod, buf
      ensures Valid()
      ensures left == RING_SIZE - |old(Contents())| - |bytes|
      ensures Contents() == if left >= 0 then old(Contents()) + bytes else old(Contents())
      ensures prod == if left >= 0 then Plus(old(prod), |bytes|) else old(prod)
    {
      hide Slot, Minus, Plus, Contents;
      PlusTwice(prod, 0);
      var space := Space();
      left := space - |bytes|;
      if left >= 0 {
        var res := 0;
        var i := 0;
        while i < |bytes|
          invariant 0 <= i <= |bytes| && res != EOF
          invariant Valid() && Contents() == old(Contents()) + bytes[..i]
          invariant prod == Plus(old(prod), i)
        {
          PlusTwice(old(prod), i);
          assert bytes[..i + 1] == bytes[..i] + [bytes[i]];
          res := Putc(bytes[i]);
          i := i + 1;
        }
        assert bytes[..i] == bytes;
      }
    }

    /** The byte in the i-th free slot. */
    ghost function FreeByte(i: nat): Byte
      reads this, buf
      requires buf.Length == RING_SIZE
    {
      buf[Slot(prod + i)]
    }

    /** Put a byte where the i-th free slot is. */
    method Store(slot: nat, ghost i: nat, byte: Byte)
      requires Valid() && i < RING_SIZE - |Contents()| && slot == Slot(prod + i)
      modifies buf
      ensures Contents() == old(Contents())
      ensures forall k: nat :: k < i ==> FreeByte(k) == old(FreeByte(k))
      ensures FreeByte(i) == byte
    {
      hide Slot, Minus, Plus;
      ghost var q := Contents();
      buf[slot] := byte;
      forall k | 0 <= k < |q|
        ensures Contents()[k] == q[k]
      {
        SlotAfter(cons, prod, i);
        SlotsApart(cons + k, |q| + i - k);
      }
      forall k: nat | k < i
        ensures FreeByte(k) == old(FreeByte(k))
      {
        SlotsApart(prod + k, i - k);
      }
    }

    /** readv: fill the segments in order. */
    method ReadV(iov: seq<Iov>, data: seq<Byte>)
      requires Valid() && Covers(iov, prod, RING_SIZE - |Contents()|) && |data| <= RING_SIZE - |Contents()|
      modifies buf
      ensures Contents() == old(Contents())
      ensures Window(prod, |data|) == data
    {
      hide Slot, Minus, Plus, Slots, Contents, Slot;
      var i := 0;
      while i < |data|
        invariant 0 <= i <= |data|
        invariant Contents() == old(Contents())
        invariant forall k: nat :: k < i ==> FreeByte(k) == data[k]
      {
        Store(Slots(iov)[i], i, data[i]);
        i := i + 1;
      }
      assert forall k: nat :: k < |data| ==> Window(prod, |data|)[k] == FreeByte(k);
    }

    /**
     ring_from_file, where readv fails (count < 0) or delivers the next count
     bytes of the file.
     */
    method FromFile(file: seq<Byte>, count: int) returns (res: int)
      requires Valid() && count <= |file| && count <= RING_SIZE - |Contents()|
      modifies this`prod, buf
      ensures Valid()
      ensures |old(Contents())| == RING_SIZE ==> res == 0
      ensures |old(Contents())| < RING_SIZE ==> res == count
      ensures Contents() == if res > 0 then old(Contents()) + file[..res] else old(Contents())
      ensures prod == if res > 0 then Plus(old(prod), res) else old(prod)
    {
      hide Slot, Minus, Plus, Slots;
      ghost var q := Contents();
      FreeSegments(cons, prod);
      var c, p := Slot(cons), Slot(prod);
      if prod == Plus(cons, RING_SIZE) {
        return 0;
      }
      var iov;
      if c <= p {
        iov := [Iov(p, RING_SIZE - p), Iov(0, c)];
      } else {
        iov := [Iov(p, c - p)];
      }
      res := count;
      if res < 0 {
        return;
      }
      ReadV(iov, file[..res]);
      ghost var data := Window(prod, res);
      Produce(cons, prod, res);
      PlusTwice(prod, 0);
      prod := Plus(prod, res);
      forall k | 0 <= k < |q| + res
        ensures Contents()[k] == (q + data)[k]
      {
        if k >= |q| {
          SlotAfter(cons, old(prod), k - |q|);
        }
      }
      assert Contents() == q + data;
    }

    /** ring_to_iovec */
    method ToIovec() returns (iov: seq<Iov>)
      requires Valid()
      ensures |iov| <= 2 && |Slots(iov)| == |Contents()|
      ensures forall k :: 0 <= k < |Contents()| ==>
                0 <= Slots(iov)[k] < RING_SIZE && buf[Slots(iov)[k]] == Contents()[k]
    {
      hide Slot, Minus, Plus, Slots;
      UsedSegments(cons, prod);
      var c, p := Slot(cons), Slot(prod);
      if cons == prod {
        NoSlots();
        return [];
      }
      if p > c {
        return [Iov(c, p - c)];
      }
      return [Iov(c, RING_SIZE - c), Iov(0, p)];
    }

    /** ring_discard */
    method Discard(n: nat)
      requires Valid() && n <= |Contents()|
      modifies this`cons
      ensures Valid() && Contents() == old(Contents())[n..]
      ensures cons == Plus(old(cons), n)
    {
      hide Slot, Minus, Plus;
      ghost var q := Contents();
      SlotOf(cons, prod, n);
      ghost var before := cons;
      cons := Plus(cons, n);
      forall i | 0 <= i < |q| - n
        ensures Contents()[i] == q[n..][i]
      {
        Advance(before, n, i);
      }
      assert Contents() == q[n..];
    }

    /** The n bytes from position i on, whatever they are. */
    ghost function Window(i: nat, n: nat): (w: seq<Byte>)
      reads this, buf
      requires buf.Length == RING_SIZE
      ensures |w| == n
    {
      seq(n, j requires 0 <= j < n reads this, buf => buf[Slot(i + j)])
    }

    /** The inner loop of ring_search: is s in the buffer at position i? */
    method MatchAt(s: seq<Byte>, i: nat) returns (matched: bool)
      requires Valid()
      ensures matched <==> Window(i, |s|) == s
    {
      var j := 0;
      while j < |s| && s[j] == buf[Slot(i + j)]
        invariant 0 <= j <= |s|
        invariant Window(i, |s|)[..j] == s[..j]
      {
        j := j + 1;
      }
      matched := j == |s|;
      assert j < |s| ==> Window(i, |s|)[j] != s[j];
      assert j == |s| ==> Window(i, |s|)[..j] == Window(i, |s|) && s[..j] == s;
    }

    /** Position i is the k-th byte to be gotten. */
    lemma MatchIsOccurrence(s: seq<Byte>, n: nat, i: nat, k: nat)
      requires Valid() && k >= n && i == Plus(cons, n) + (k - n) && k + |s| <= |Contents()|
      ensures Window(i, |s|) == s <==> OccursAt(Contents(), s, k)
    {
      hide Slot, Minus, Plus;
      var w, v := Window(i, |s|), Contents()[k..k + |s|];
      forall j | 0 <= j < |s|
        ensures w[j] == v[j]
      {
        Advance(cons, n, k - n + j);
      }
      assert w == v;
    }

    /** s is nowhere between position i and prod, taken as numbers. */
    ghost predicate NoMatchFrom(s: seq<Byte>, i: nat)
      reads this, buf
      requires buf.Length == RING_SIZE
    {
      forall j :: i <= j && j + |s| <= prod ==> Window(j, |s|) != s
    }

    /**
     ring_search for a string without zero bytes.  It finds the leftmost match
     when its start and prod are comparable.  When only the contents have wrapped
     around, it finds nothing.  When only its start has, it scans the buffer from
     its first slot on, and may find what is not among the contents.
     */
    method Search(s: seq<Byte>, n: nat) returns (r: int)
      requires Valid() && n <= RING_SIZE
      ensures Comparable(n) ==> r == Find(Contents(), s, n)
      ensures cons > prod && !Comparable(n) ==> r == -1
      // It delivers what it promises exactly when
      ensures r == Find(Contents(), s, n) <==>
                || Comparable(n)
                || (cons > prod && Find(Contents(), s, n) == -1)
                || (cons <= prod && NoMatchFrom(s, Plus(cons, n)))
    {
      hide Slot, Minus, Plus, Find, OccursAt;
      ghost var q := Contents();
      StartPosition(cons, prod, n);
      FindStep(q, s, n);
      var i: nat := Plus(cons, n);
      ghost var k := n;
      while i + |s| <= prod
        invariant k >= n && i == Plus(cons, n) + (k - n)
        invariant cons > prod && !Comparable(n) ==> i > prod
        invariant Comparable(n) ==> Find(q, s, n) == Find(q, s, k)
        invariant forall j :: Plus(cons, n) <= j < i ==> Window(j, |s|) != s
      {
        var matched := MatchAt(s, i);
        if Comparable(n) {
          MatchIsOccurrence(s, n, i, k);
          FindStep(q, s, k);
          FoundAt(cons, prod, n, i, k);
        }
        if matched {
          assert Window(i, |s|) == s;
          // a size_t difference, converted to int
          return (i - cons) % UINT_SIZE;
        }
        i := i + 1;
        k := k + 1;
      }
      FindStep(q, s, k);
      r := -1;
    }
  }

  /** The difference returned is right even when the counters have wrapped around. */
  lemma FoundAt(cons: Unsigned, prod: Unsigned, n: nat, i: nat, k: nat)
    requires n <= k && i == Plus(cons, n) + (k - n) && i <= prod && n <= RING_SIZE
    requires cons <= prod <==> cons + n < UINT_SIZE
    requires k <= Minus(prod, cons) <= RING_SIZE
    ensures (i - cons) % UINT_SIZE == k
  {
    hide Slot, Minus, Plus;
    MinusIs(prod, cons);
    PlusIs(cons, n);
  }

  lemma NoSlots()
    ensures Slots([]) == []
  {
  }

  /** Positions less than a whole buffer apart have different slots. */
  lemma SlotsApart(pos: nat, d: nat)
    requires 0 < d < RING_SIZE
    ensures Slot(pos) != Slot(pos + d)
  {
  }

  lemma PlusTwice(a: Unsigned, n: nat)
    ensures Plus(a, 0) == a && Plus(Plus(a, n), 1) == Plus(a, n + 1)
  {
    var q := (a + n) / UINT_SIZE;
    assert a + n == q * UINT_SIZE + Plus(a, n);
    hide Plus;
    PlusWraps(a, n, q, Plus(a, n));
    PlusIs(a, 0);
  }

  lemma PlusWraps(a: Unsigned, n: nat, q: nat, r: Unsigned)
    requires a + n == q * UINT_SIZE + r
    ensures Plus(a, n + 1) == Plus(r, 1)
  {
    assert a + (n + 1) == q * UINT_SIZE + (r + 1);
  }

  lemma NotEmpty(cons: Unsigned, prod: Unsigned)
    ensures Minus(prod, cons) == 0 <==> cons == prod
  {
  }

  lemma Produce(cons: Unsigned, prod: Unsigned, n: nat)
    requires Minus(prod, cons) + n <= RING_SIZE
    ensures Minus(Plus(prod, n), cons) == Minus(prod, cons) + n
  {
    hide Slot, Minus, Plus;
    MinusIs(prod, cons);
    PlusIs(prod, n);
    MinusIs(Plus(prod, n), cons);
  }

  lemma SlotAfter(cons: Unsigned, prod: Unsigned, k: nat)
    ensures Slot(cons + (Minus(prod, cons) + k)) == Slot(prod + k)
  {
    hide Minus;
    MinusIs(prod, cons);
    SameSlot(cons + (Minus(prod, cons) + k), prod + k, if prod >= cons then 0 else 0x10_0000);
  }

  /** The slot of prod, given that of cons and how far apart they are. */
  lemma SlotOfProd(cons: Unsigned, prod: Unsigned)
    requires Minus(prod, cons) <= RING_SIZE
    ensures var c, n := Slot(cons), Minus(prod, cons);
            Slot(prod) == if c + n < RING_SIZE then c + n else c + n - RING_SIZE
  {
    hide Minus;
    var c, n := Slot(cons), Minus(prod, cons);
    SlotAfter(cons, prod, 0);
    SameSlot(cons + n, c + n, cons / RING_SIZE);
    SmallRemainder(c + n);
  }

  lemma SmallRemainder(k: nat)
    requires k < 2 * RING_SIZE
    ensures Slot(k) == if k < RING_SIZE then k else k - RING_SIZE
  {
  }

  lemma FullMeans(cons: Unsigned, prod: Unsigned)
    ensures prod == Plus(cons, RING_SIZE) <==> Minus(prod, cons) == RING_SIZE
  {
    hide Slot, Minus, Plus;
    MinusIs(prod, cons);
    PlusIs(cons, RING_SIZE);
  }

  /** Lines 187-208: the segments are exactly the free slots, in order. */
  lemma FreeSegments(cons: Unsigned, prod: Unsigned)
    requires Minus(prod, cons) <= RING_SIZE
    ensures prod == Plus(cons, RING_SIZE) <==> Minus(prod, cons) == RING_SIZE
    ensures Minus(prod, cons) < RING_SIZE ==>
              var c, p := Slot(cons), Slot(prod);
              Covers(if c <= p then [Iov(p, RING_SIZE - p), Iov(0, c)] else [Iov(p, c - p)],
                     prod, RING_SIZE - Minus(prod, cons))
  {
    hide Covers, Slot, Minus, Plus;
    FullMeans(cons, prod);
    SlotOfProd(cons, prod);
    if Minus(prod, cons) < RING_SIZE {
      Wrapping(prod, RING_SIZE - Minus(prod, cons));
    }
  }

  /** Lines 224-241: the segments are exactly the bytes in the buffer, in order. */
  lemma UsedSegments(cons: Unsigned, prod: Unsigned)
    requires Minus(prod, cons) <= RING_SIZE
    ensures cons == prod <==> Minus(prod, cons) == 0
    ensures cons != prod ==>
              var c, p := Slot(cons), Slot(prod);
              Covers(if p > c then [Iov(c, p - c)] else [Iov(c, RING_SIZE - c), Iov(0, p)], cons, Minus(prod, cons))
  {
    hide Covers, Slot, Minus;
    NotEmpty(cons, prod);
    SlotOfProd(cons, prod);
    Wrapping(cons, Minus(prod, cons));
  }

  /** Where a search from n starts, compared with where it ends. */
  lemma StartPosition(cons: Unsigned, prod: Unsigned, n: nat)
    requires n <= RING_SIZE && Minus(prod, cons) <= RING_SIZE
    ensures (cons <= prod <==> cons + n < UINT_SIZE) ==> prod - Plus(cons, n) == Minus(prod, cons) - n
    ensures cons > prod && cons + n < UINT_SIZE ==> Plus(cons, n) > prod
    ensures cons <= prod && cons + n >= UINT_SIZE ==> n > Minus(prod, cons)
  {
    hide Slot, Minus, Plus;
    MinusIs(prod, cons);
    PlusIs(cons, n);
  }

  lemma FindStep(q: seq<Byte>, s: seq<Byte>, k: nat)
    ensures k + |s| > |q| ==> Find(q, s, k) == -1
    ensures k + |s| <= |q| ==> Find(q, s, k) == if OccursAt(q, s, k) then k else Find(q, s, k + 1)
  {
  }
}
