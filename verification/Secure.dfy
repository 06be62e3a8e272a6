/**
 The client's memory of recent player input (secure.c).  It forgets whole lines,
 oldest first, and only when it has to.
 */
module Secure {
  import opened RingBuf

  // What is remembered

  /** A line starts at position i of the input. */
  predicate Boundary(h: seq<Byte>, i: int) {
    0 <= i <= |h| && (i == 0 || h[i - 1] == NEWLINE)
  }

  /** The longest suffix that starts with a line and fits into the ring starts at i. */
  ghost predicate MemoryStart(h: seq<Byte>, i: nat) {
    && Boundary(h, i) && |h| - i <= RING_SIZE
    && forall j :: 0 <= j < i && Boundary(h, j) ==> |h| - j > RING_SIZE
  }

  lemma MemoryStartUnique(h: seq<Byte>, i: nat, j: nat)
    requires MemoryStart(h, i) && MemoryStart(h, j)
    ensures i == j
  {
  }

  /** No line is longer than the ring, newline included. */
  ghost predicate LinesFit(h: seq<Byte>) {
    forall a, b | OnOneLine(h, a, b) :: b - a <= RING_SIZE
  }

  ghost predicate OnOneLine(h: seq<Byte>, a: int, b: int) {
    0 <= a < b <= |h| && NEWLINE !in h[a..b - 1]
  }

  /** The memory is full of one incomplete line when byte k is saved: the assertion in save_input fails. */
  ghost predicate Trips(h: seq<Byte>, k: nat) {
    RING_SIZE <= k < |h| && MemoryStart(h[..k], k - RING_SIZE) && NEWLINE !in h[k - RING_SIZE..k]
  }

  /** Where the line that position a is on starts. */
  lemma {:induction false} LineStart(h: seq<Byte>, a: nat) returns (s: nat)
    requires a <= |h|
    ensures s <= a && Boundary(h, s) && NEWLINE !in h[s..a]
    decreases a
  {
    if a == 0 || h[a - 1] == NEWLINE {
      s := a;
    } else {
      s := LineStart(h, a - 1);
      assert h[s..a] == h[s..a - 1] + [h[a - 1]];
    }
  }

  lemma LongLineTrips(h: seq<Byte>, a: int, b: int) returns (k: nat)
    requires OnOneLine(h, a, b) && b - a > RING_SIZE
    ensures Trips(h, k)
  {
    var s := LineStart(h, a);
    k := s + RING_SIZE;
    assert h[s..b - 1] == h[s..a] + h[a..b - 1];
    assert h[s..k] == h[s..b - 1][..RING_SIZE];
  }

  /** It fails for some byte exactly when lines do not fit. */
  lemma AssertionFailsExactlyWhen(h: seq<Byte>)
    ensures (exists k: nat :: Trips(h, k)) <==> !LinesFit(h)
  {
    if k: nat :| Trips(h, k) {
      assert h[k - RING_SIZE..k + 1 - 1] == h[k - RING_SIZE..k];
      assert OnOneLine(h, k - RING_SIZE, k + 1);
    }
    if !LinesFit(h) {
      var a, b :| OnOneLine(h, a, b) && b - a > RING_SIZE;
      var k := LongLineTrips(h, a, b);
    }
  }

  lemma NewlineToForget(h: seq<Byte>, start: nat, c: Byte)
    requires MemoryStart(h, start) && start <= |h|
    ensures !Trips(h + [c], |h|) <==> (|h| - start == RING_SIZE ==> NEWLINE in h[start..])
  {
    var h' := h + [c];
    assert h'[..|h|] == h;
    if |h| >= RING_SIZE {
      assert h'[|h| - RING_SIZE..|h|] == h[|h| - RING_SIZE..];
    }
  }

  /** One more byte fits without forgetting anything. */
  lemma StartStays(h: seq<Byte>, i: nat, c: Byte)
    requires MemoryStart(h, i) && |h| - i < RING_SIZE
    ensures MemoryStart(h + [c], i)
  {
    forall j | 0 <= j <= |h| ensures Boundary(h + [c], j) == Boundary(h, j) {}
  }

  /** Forgetting the oldest line makes room for one more byte. */
  lemma StartMoves(h: seq<Byte>, i: nat, c: Byte, eol: nat)
    requires MemoryStart(h, i) && |h| - i == RING_SIZE
    requires eol < RING_SIZE && h[i + eol] == NEWLINE && NEWLINE !in h[i..i + eol]
    ensures MemoryStart(h + [c], i + eol + 1)
  {
    var h' := h + [c];
    assert forall k | i <= k < i + eol :: h[k] == h[i..i + eol][k - i] != NEWLINE;
    forall j | 0 <= j < i + eol + 1 && Boundary(h', j)
      ensures |h'| - j > RING_SIZE
    {
      assert j <= i;
    }
  }

  /** Where the first newline is. */
  lemma FirstNewline(q: seq<Byte>)
    ensures var r := Find(q, [NEWLINE], 0);
            if NEWLINE in q then 0 <= r < |q| && q[r] == NEWLINE && NEWLINE !in q[..r] else r == -1
  {
    hide Find;
    var r := Find(q, [NEWLINE], 0);
    forall k | 0 <= k < |q| ensures OccursAt(q, [NEWLINE], k) <==> q[k] == NEWLINE {
      assert q[k..k + 1] == [q[k]];
    }
  }

  /** buf ends with the part of q from after i to last, which has no newline, and a terminating zero. */
  ghost predicate CopiedDown(buf: seq<Byte>, q: seq<Byte>, i: int, last: nat) {
    && |buf| == RING_SIZE + 1 && -1 <= i <= last < |q| <= RING_SIZE
    && NEWLINE !in q[i + 1..last + 1]
    && buf[RING_SIZE - (last - i)..] == q[i + 1..last + 1] + [0]
  }

  lemma NothingCopied(buf: seq<Byte>, q: seq<Byte>, last: nat)
    requires |buf| == RING_SIZE + 1 && last < |q| <= RING_SIZE && buf[RING_SIZE] == 0
    ensures CopiedDown(buf, q, last, last)
  {
  }

  lemma CopyOne(buf: seq<Byte>, q: seq<Byte>, i: nat, last: nat)
    requires CopiedDown(buf, q, i, last) && q[i] != NEWLINE
    ensures CopiedDown(buf[RING_SIZE - (last - i) - 1 := q[i]], q, i - 1, last)
  {
    var j := RING_SIZE - (last - i);
    assert q[i..last + 1] == [q[i]] + q[i + 1..last + 1];
    assert buf[j - 1 := q[i]][j - 1..] == [q[i]] + buf[j..];
  }

  lemma AllCopied(buf: seq<Byte>, q: seq<Byte>, i: int, last: nat)
    requires CopiedDown(buf, q, i, last)
    ensures var text := q[..last + 1];
            && buf[RING_SIZE - (last - i)..] == text[i + 1..] + [0] && NEWLINE !in text[i + 1..]
            && (i >= 0 ==> text[i] == q[i])
  {
    assert q[..last + 1][i + 1..] == q[i + 1..last + 1];
  }

  /** One more byte of a word. */
  lemma NextOfWord(buf: seq<Byte>, j: nat, i: nat, text: seq<Byte>)
    requires j <= i < |buf| && i - j <= |text| && buf[i..] == text[i - j..] + [0]
    requires buf[i] != 0 && !IsSpace(buf[i])
    ensures i - j < |text| && buf[i + 1..] == text[i + 1 - j..] + [0]
    ensures buf[j..i] + Word(text[i - j..]) == buf[j..i + 1] + Word(text[i + 1 - j..])
  {
    hide IsSpace;
    var rest := text[i - j..];
    assert buf[i] == buf[i..][0] && buf[i..][1..] == buf[i + 1..];
    assert rest != [];
    assert rest[1..] == text[i + 1 - j..];
    WordSplit(rest);
    assert buf[j..i + 1] == buf[j..i] + [rest[0]];
  }

  lemma WordSplit(rest: seq<Byte>)
    requires rest != [] && rest[0] != 0 && !IsSpace(rest[0])
    ensures Word(rest) == [rest[0]] + Word(rest[1..])
  {
  }

  lemma WordEnds(buf: seq<Byte>, i: nat, rest: seq<Byte>)
    requires i < |buf| && buf[i..] == rest + [0] && (buf[i] == 0 || IsSpace(buf[i]))
    ensures Word(rest) == []
  {
    assert buf[i] == buf[i..][0];
  }

  lemma SplitAt(history: seq<Byte>, start: nat, eol: nat)
    requires start + eol < |history|
    ensures history[start..start + eol] == history[start..][..eol]
    ensures history[start..][eol] == history[start + eol] && history[start..][eol + 1..] == history[start + eol + 1..]
  {
  }

  class Memory {
    const recent: Ring
    /** All input saved so far, and where the remembered part starts. */
    ghost var history: seq<Byte>
    ghost var start: nat

    /** The ring holds the memory; its counters have not wrapped around. */
    ghost predicate Valid()
      reads this, recent, recent.buf
    {
      && recent.Valid() && |history| + RING_SIZE < UINT_SIZE
      && MemoryStart(history, start)
      && recent.cons == start && recent.prod == |history|
      && recent.Contents() == history[start..]
    }

    ghost function Remembered(): seq<Byte>
      reads this
      requires start <= |history|
    {
      history[start..]
    }

    lemma Fits()
      requires Valid()
      ensures start <= |history| && |Remembered()| <= RING_SIZE
    {
      MemoryFits(history, start);
    }

    constructor ()
      ensures Valid() && history == [] && fresh(recent) && fresh(recent.buf)
    {
      recent := new Ring();
      history, start := [], 0;
    }

    /** Lines 53-55: forget the oldest line. */
    method ForgetLine()
      requires Valid() && NEWLINE in Remembered()
      modifies recent, this`start
      ensures recent.Valid() && recent.prod == old(recent.prod)
      ensures old(start) < start <= |history| && recent.cons == start
      ensures history[start - 1] == NEWLINE && NEWLINE !in history[old(start)..start - 1]
      ensures recent.Contents() == history[start..]
    {
      hide MemoryStart, Find, OccursAt, Minus, Plus, Ring.Contents, Ring.NoMatchFrom;
      MemoryFits(history, start);
      var eol := recent.Search([NEWLINE], 0);
      FirstNewline(Remembered());
      assert eol >= 0;
      SplitAt(history, start, eol);
      NoWrap(start, eol + 1);
      recent.Discard(eol + 1);
      start := start + eol + 1;
    }

    /**
     save_input.  Its assertion holds because there is a line to forget whenever
     the ring is full.
     */
    method SaveInput(inp: Byte)
      requires Valid() && |history| + 1 + RING_SIZE < UINT_SIZE
      requires !Trips(history + [inp], |history|)
      modifies this, recent, recent.buf
      ensures Valid() && history == old(history) + [inp]
    {
      hide MemoryStart, Find, OccursAt, Minus, Plus, Ring.Contents, Trips;
      MemoryFits(history, start);
      NewlineToForget(history, start, inp);
      Appended(history, start, inp);
      NoWrap(|history|, 1);
      var res := recent.Putc(inp);
      while res < 0
        invariant recent.Valid() && history == old(history) && start <= |history|
        invariant res < 0 ==> Valid() && start == old(start) && |history| - start == RING_SIZE
        invariant res >= 0 ==> MemoryStart(history + [inp], start)
        invariant res >= 0 ==> recent.cons == start && recent.prod == |history| + 1
        invariant res >= 0 ==> recent.Contents() == history[start..] + [inp]
        decreases if res < 0 then 1 else 0
      {
        ForgetLine();
        StartMoves(history, old(start), inp, start - 1 - old(start));
        res := recent.Putc(inp);
      }
      assert (history + [inp])[start..] == history[start..] + [inp];
      history := history + [inp];
    }

    /** seen_input: is there a remembered line that ends with tail? */
    method SeenInput(tail: seq<Byte>) returns (seen: bool)
      requires Valid() && tail != [] && tail[|tail| - 1] == NEWLINE
      ensures seen <==> exists k :: OccursAt(Remembered(), tail, k)
    {
      hide Find, OccursAt;
      MemoryFits(history, start);
      var r := recent.Search(tail, 0);
      FindMeans(Remembered(), tail);
      seen := r >= 0;
    }

    /** ring_peek for bytes that are there. */
    method PeekAt(i: nat) returns (ch: Byte)
      requires Valid() && i < |Remembered()|
      ensures ch == Remembered()[i]
    {
      hide Minus, Plus;
      MemoryFits(history, start);
      var c := recent.Peek(i);
      assert recent.Peeked(i) == Remembered()[i];
      ch := c;
    }

    /** Lines 93-99: fill buf from its end with the text before position n; j is where it starts. */
    method ExtractText(n: nat, buf: array<Byte>) returns (j: nat)
      requires Valid() && 2 <= n <= |Remembered()| && buf.Length == RING_SIZE + 1 && buf != recent.buf
      modifies buf
      ensures j <= RING_SIZE && buf[j..] == TextBefore(Remembered(), n) + [0]
    {
      hide MemoryStart, Minus, Plus, Ring.Valid, Ring.Contents;
      MemoryFits(history, start);
      var i: int := n - 1;
      var ch := PeekAt(i);
      if ch == NEWLINE {
        i := i - 1;
      }
      ghost var text := Remembered()[..i + 1];
      i, j := FillBack(i, buf);
      LastLineIs(text, i);
    }

    /** Copy backwards from position last up to a newline or the start of the memory. */
    method FillBack(last: int, buf: array<Byte>) returns (i: int, j: nat)
      requires Valid() && 0 <= last < |Remembered()| && buf.Length == RING_SIZE + 1 && buf != recent.buf
      modifies buf
      ensures var text := Remembered()[..last + 1];
              && -1 <= i <= last && j == RING_SIZE - (last - i) && 0 <= j && buf[j..] == text[i + 1..] + [0]
              && NEWLINE !in text[i + 1..] && (i >= 0 ==> text[i] == NEWLINE)
    {
      Fits();
      hide *;
      ghost var q := Remembered();
      i, j := last, RING_SIZE;
      buf[j] := 0;
      NothingCopied(buf[..], q, last);
      while i >= 0
        invariant Valid() && start <= |history| && Remembered() == q
        invariant -1 <= i <= last && j == RING_SIZE - (last - i) && CopiedDown(buf[..], q, i, last)
      {
        var ch := PeekAt(i);
        if ch == NEWLINE {
          break;
        }
        CopyOne(buf[..], q, i, last);
        j := j - 1;
        buf[j] := ch;
        i := i - 1;
      }
      AllCopied(buf[..], q, i, last);
    }

    /** Skip the spaces at buf[j0..]. */
    method SkipSpace(buf: array<Byte>, j0: nat, ghost text: seq<Byte>) returns (j: nat)
      requires buf.Length == RING_SIZE + 1 && j0 <= RING_SIZE && buf[j0..] == text + [0]
      ensures j0 <= j <= RING_SIZE && buf[j..] == text[j - j0..] + [0]
      ensures text[j - j0..] == SkipSpaces(text)
    {
      j := j0;
      while IsSpace(buf[j])
        invariant j0 <= j <= RING_SIZE
        invariant buf[j..] == text[j - j0..] + [0]
        invariant SkipSpaces(text) == SkipSpaces(text[j - j0..])
        decreases RING_SIZE - j
      {
        assert buf[j] == buf[j..][0] && buf[j..][1..] == buf[j + 1..];
        assert text[j - j0..][1..] == text[j + 1 - j0..];
        j := j + 1;
      }
      assert buf[j] == buf[j..][0];
    }

    /** Find the end of the word at buf[j..]. */
    method WordEnd(buf: array<Byte>, j: nat, ghost text: seq<Byte>) returns (i: nat)
      requires buf.Length == RING_SIZE + 1 && j <= RING_SIZE && buf[j..] == text + [0]
      ensures j <= i <= RING_SIZE && buf[j..i] == Word(text)
    {
      hide Word;
      i := j;
      while buf[i] != 0 && !IsSpace(buf[i])
        invariant j <= i <= RING_SIZE
        invariant buf[i..] == text[i - j..] + [0]
        invariant Word(text) == buf[j..i] + Word(text[i - j..])
        decreases RING_SIZE - i
      {
        NextOfWord(buf[..], j, i, text);
        i := i + 1;
      }
      WordEnds(buf[..], i, text[i - j..]);
    }

    /** Lines 102-105: is the first word of the text at buf[j..] an abbreviation of execute? */
    method IsExecute(buf: array<Byte>, j0: nat, ghost text: seq<Byte>) returns (yes: bool)
      requires buf.Length == RING_SIZE + 1 && j0 <= RING_SIZE && buf[j0..] == text + [0]
      ensures yes <==> AbbreviatesExecute(FirstWord(text))
    {
      hide SkipSpaces, Word;
      var j := SkipSpace(buf, j0, text);
      var i := WordEnd(buf, j, text[j - j0..]);
      yes := i - j >= 2 && buf[j..i] <= EXECUTE;
    }

    /** seen_exec_input: is there a remembered execute command with argument arg? */
    method SeenExecInput(arg: seq<Byte>) returns (seen: bool)
      requires Valid() && arg != [] && arg[|arg| - 1] == NEWLINE
      ensures seen <==> HasExecute(Remembered(), arg)
    {
      hide Find, MemoryStart, TextBefore, FirstWord, AbbreviatesExecute, Minus, Plus;
      MemoryFits(history, start);
      ghost var q := Remembered();
      var buf := new Byte[RING_SIZE + 1];
      var n := 1;
      while true
        invariant 1 <= n < RING_SIZE && (n == 1 || n < |q|)
        invariant forall k :: 2 <= k <= n ==> !(OccursAt(q, arg, k) && ExecutesAt(q, k))
        decreases RING_SIZE - n
      {
        var r := recent.Search(arg, n + 1);
        if r <= 0 {
          return false;
        }
        n := r;
        var j := ExtractText(n, buf);
        seen := IsExecute(buf, j, TextBefore(q, n));
        if seen {
          assert n >= 2 && OccursAt(q, arg, n) && ExecutesAt(q, n);
          assert Remembered() == q;
          assert HasExecute(q, arg);
          return true;
        }
      }
    }
  }

  // Execute commands

  const EXECUTE: seq<Byte> := [101, 120, 101, 99, 117, 116, 101]

  /** isspace in the C locale. */
  predicate IsSpace(ch: Byte) {
    ch == 32 || 9 <= ch <= 13
  }

  /** What follows the last newline. */
  function LastLine(t: seq<Byte>): seq<Byte> {
    if t == [] || t[|t| - 1] == NEWLINE then [] else LastLine(t[..|t| - 1]) + [t[|t| - 1]]
  }

  lemma {:induction false} LastLineIs(t: seq<Byte>, i: int)
    requires -1 <= i < |t| && NEWLINE !in t[i + 1..] && (i == -1 || t[i] == NEWLINE)
    ensures LastLine(t) == t[i + 1..]
  {
    if i < |t| - 1 {
      var front := t[..|t| - 1];
      assert t[i + 1..] == front[i + 1..] + [t[|t| - 1]];
      LastLineIs(front, i);
    }
  }

  /** The text before position k on its line, or the previous line if k is at the start of one. */
  function TextBefore(q: seq<Byte>, k: int): seq<Byte>
    requires 1 <= k <= |q|
  {
    LastLine(if q[k - 1] == NEWLINE then q[..k - 1] else q[..k])
  }

  function SkipSpaces(t: seq<Byte>): seq<Byte> {
    if t != [] && IsSpace(t[0]) then SkipSpaces(t[1..]) else t
  }

  function Word(t: seq<Byte>): seq<Byte> {
    if t == [] || t[0] == 0 || IsSpace(t[0]) then [] else [t[0]] + Word(t[1..])
  }

  function FirstWord(t: seq<Byte>): seq<Byte> {
    Word(SkipSpaces(t))
  }

  /** At least two letters of execute. */
  predicate AbbreviatesExecute(w: seq<Byte>) {
    |w| >= 2 && w <= EXECUTE
  }

  /** Some occurrence of arg that is not at the very start follows an execute command. */
  ghost predicate HasExecute(q: seq<Byte>, arg: seq<Byte>) {
    exists k :: k >= 2 && OccursAt(q, arg, k) && ExecutesAt(q, k)
  }

  /** The command before position k is execute. */
  predicate ExecutesAt(q: seq<Byte>, k: int) {
    1 <= k <= |q| && AbbreviatesExecute(FirstWord(TextBefore(q, k)))
  }

  // What an execute command is, spelled out

  ghost function Chars(s: string): seq<int> {
    seq(|s|, i requires 0 <= i < |s| => s[i] as int)
  }

  /** A blank, tab, newline, vertical tab, form feed or carriage return. */
  ghost predicate Blank(ch: Byte) {
    ch in Chars(" \t\n\U{b}\U{c}\r")
  }

  lemma BlankIsSpace(ch: Byte)
    ensures Blank(ch) <==> IsSpace(ch)
  {
    var blanks := Chars(" \t\n\U{b}\U{c}\r");
    assert blanks == [32, 9, 10, 11, 12, 13];
  }

  /** A word, perhaps after blanks, and what ends it. */
  ghost predicate FirstWordOf(line: seq<Byte>, blanks: seq<Byte>, word: seq<Byte>, rest: seq<Byte>) {
    && line == blanks + word + rest
    && (forall i :: 0 <= i < |blanks| ==> Blank(blanks[i]))
    && (forall i :: 0 <= i < |word| ==> word[i] != 0 && !Blank(word[i]))
    && (rest == [] || rest[0] == 0 || (word != [] && Blank(rest[0])))
  }

  lemma {:induction false} FirstWordIs(line: seq<Byte>, blanks: seq<Byte>, word: seq<Byte>, rest: seq<Byte>)
    requires FirstWordOf(line, blanks, word, rest)
    ensures FirstWord(line) == word
  {
    hide Blank, IsSpace;
    if blanks != [] {
      BlankIsSpace(blanks[0]);
      assert line[1..] == blanks[1..] + word + rest;
      FirstWordIs(line[1..], blanks[1..], word, rest);
    } else {
      assert line == word + rest;
      WordIs(word, rest);
      if line != [] {
        BlankIsSpace(line[0]);
        BlankIsSpace(0);
        ZeroIsNotBlank();
      }
    }
  }

  lemma ZeroIsNotBlank()
    ensures !IsSpace(0)
  {
  }

  lemma {:induction false} WordIs(word: seq<Byte>, rest: seq<Byte>)
    requires forall i :: 0 <= i < |word| ==> word[i] != 0 && !Blank(word[i])
    requires rest == [] || rest[0] == 0 || Blank(rest[0])
    ensures Word(word + rest) == word
  {
    hide Blank, IsSpace;
    var t := word + rest;
    if t != [] {
      BlankIsSpace(t[0]);
    }
    if word != [] {
      assert t[1..] == word[1..] + rest;
      WordIs(word[1..], rest);
    }
  }

  /**
   After other lines, arg follows an execute command on its line, or alone on the
   next line, exactly when the line's first word is execute, cut off after two
   characters or more.
   */
  lemma ExecutesExactlyWhen(before: seq<Byte>, line: seq<Byte>, ownLine: bool, arg: seq<Byte>,
                            blanks: seq<Byte>, word: seq<Byte>, rest: seq<Byte>)
    requires before == [] || before[|before| - 1] == NEWLINE
    requires NEWLINE !in line && (ownLine || line != []) && FirstWordOf(line, blanks, word, rest)
    ensures var typed := before + line + if ownLine then [NEWLINE] else [];
            && OccursAt(typed + arg, arg, |typed|)
            && (ExecutesAt(typed + arg, |typed|) <==> |word| >= 2 && word <= Chars("execute"))
  {
    var typed := before + line + if ownLine then [NEWLINE] else [];
    hide FirstWord, LastLine, Blank, Chars, TextBefore;
    var q := typed + arg;
    assert q[|typed|..|typed| + |arg|] == arg;
    ExecuteIs();
    FirstWordIs(line, blanks, word, rest);
    TextBeforeIs(q, before, line, ownLine, arg);
  }

  lemma ExecuteIs()
    ensures EXECUTE == Chars("execute")
  {
  }

  lemma TextBeforeIs(q: seq<Byte>, before: seq<Byte>, line: seq<Byte>, ownLine: bool, arg: seq<Byte>)
    requires before == [] || before[|before| - 1] == NEWLINE
    requires NEWLINE !in line && (ownLine || line != [])
    requires q == before + line + (if ownLine then [NEWLINE] else []) + arg
    ensures var k := |before| + |line| + if ownLine then 1 else 0;
            1 <= k <= |q| && TextBefore(q, k) == line
  {
    hide LastLine;
    var front := before + line;
    var k := |front| + if ownLine then 1 else 0;
    assert q[..k] == front + if ownLine then [NEWLINE] else [];
    assert q[..|front|] == front;
    if !ownLine {
      assert q[k - 1] == line[|line| - 1];
    }
    assert front[|before|..] == line;
    LastLineIs(front, |before| - 1);
  }

  lemma MemoryFits(h: seq<Byte>, i: nat)
    requires MemoryStart(h, i)
    ensures i <= |h| && |h| - i <= RING_SIZE
  {
  }

  lemma NoWrap(n: nat, k: nat)
    requires n + k < UINT_SIZE
    ensures Plus(n, k) == n + k
  {
  }

  lemma Appended(h: seq<Byte>, i: nat, c: Byte)
    requires MemoryStart(h, i)
    ensures |h| - i < RING_SIZE ==> MemoryStart(h + [c], i)
  {
    if |h| - i < RING_SIZE {
      StartStays(h, i, c);
    }
  }

  lemma FindMeans(q: seq<Byte>, s: seq<Byte>)
    ensures Find(q, s, 0) >= 0 <==> exists k :: OccursAt(q, s, k)
  {
    hide Find;
  }
}
