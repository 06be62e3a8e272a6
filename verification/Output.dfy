/**
 Parsing server output (recv_output in play.c, linebuf.c).  Output arrives in
 chunks of any size; what the parser does with it does not depend on how it is
 cut.
 */
module Output {
  import opened RingBuf

  const LBUF_LEN_MAX: nat := 4096
  const SPACE: Byte := 32

  // Line buffer

  class LineBuf {
    const line: array<Byte>
    var len: nat
    var full: bool

    ghost predicate Valid()
      reads this
    {
      line.Length == LBUF_LEN_MAX && len < LBUF_LEN_MAX && (!full ==> len + 1 < LBUF_LEN_MAX)
    }

    ghost function Text(): seq<Byte>
      reads this, line
      requires Valid()
    {
      line[..len]
    }

    constructor ()
      ensures Valid() && Text() == [] && !full && fresh(line)
    {
      line := new Byte[LBUF_LEN_MAX];
      len, full := 0, false;
    }

    /** lbuf_init */
    method Init()
      requires Valid()
      modifies this
      ensures Valid() && Text() == [] && !full
    {
      len, full := 0, false;
    }

    /** lbuf_line */
    method Line() returns (s: seq<Byte>)
      requires Valid()
      modifies line
      ensures Valid() && s == Text() == old(Text())
      // It ends there
      ensures len < line.Length && line[len] == 0
    {
      assert len < LBUF_LEN_MAX;
      line[len] := 0;
      s := line[..len];
    }

    /** lbuf_putc */
    method Putc(ch: Byte) returns (n: int)
      requires Valid() && !full
      modifies this, line
      ensures Valid() && (Text(), n) == PutLine(old(Text()), ch)
      ensures full <==> ch == NEWLINE
      ensures full ==> len < line.Length && line[len] == 0
    {
      assert !full;
      if ch == NEWLINE {
        assert len + 1 < LBUF_LEN_MAX;
        line[len] := ch;
        len := len + 1;
        line[len] := 0;
        full := true;
        assert line[..len] == old(line[..len]) + [ch];
        return len;
      }
      if len + 2 >= LBUF_LEN_MAX {
        return -1;
      }
      line[len] := ch;
      len := len + 1;
      assert line[..len] == old(line[..len]) + [ch];
      return 0;
    }
  }

  /** lbuf_putc as a function of the line: the new line, and the result. */
  function PutLine(line: seq<Byte>, ch: Byte): (seq<Byte>, int) {
    if ch == NEWLINE then (line + [ch], |line| + 1)
    else if |line| + 2 >= LBUF_LEN_MAX then (line, -1)
    else (line + [ch], 0)
  }

  // IDs

  const C_EXIT: int := 3
  const C_FLUSH: int := 4
  const C_PROMPT: int := 6
  const C_REDIR: int := 8
  const C_PIPE: int := 9
  const C_EXECUTE: int := 12
  const C_FLASH: int := 13
  const C_INFORM: int := 14
  const C_LAST: int := 14

  /** The value of a digit in base 36, 36 for anything else. */
  function Digit(ch: Byte): nat {
    if 48 <= ch <= 57 then ch - 48
    else if 97 <= ch <= 122 then ch - 87
    else if 65 <= ch <= 90 then ch - 55
    else 36
  }

  /** The number of leading digits. */
  function Digits(s: seq<Byte>): (n: nat)
    ensures n <= |s|
  {
    if s == [] || Digit(s[0]) == 36 then 0 else 1 + Digits(s[1..])
  }

  function Value(s: seq<Byte>): nat {
    if s == [] then 0 else 36 * Value(s[..|s| - 1]) + Digit(s[|s| - 1])
  }

  function SkipBlanks(s: seq<Byte>): (t: seq<Byte>)
    ensures |t| <= |s|
  {
    if s != [] && (s[0] == SPACE || 9 <= s[0] <= 13) then SkipBlanks(s[1..]) else s
  }

  /** parseid: a number in base 36 followed by a space, -1 if malformed or too large. */
  function ParseId(line: seq<Byte>): int {
    var s := SkipBlanks(line);
    var sign := if s != [] && (s[0] == 43 || s[0] == 45) then 1 else 0;
    var n := Digits(s[sign..]);
    if n == 0 || sign + n >= |s| || s[sign + n] != SPACE then -1
    else
      var v := Value(s[sign..sign + n]);
      var id := if sign == 1 && s[0] == 45 then 0 - v else v;
      if id > C_LAST then -1 else id
  }

  /** Lines with these IDs are buffered and passed to servercmd, all others are copied. */
  predicate IsCommand(id: int) {
    id in {C_PROMPT, C_FLUSH, C_EXECUTE, C_EXIT, C_FLASH, C_INFORM, C_PIPE, C_REDIR}
  }

  // The state machine as a function

  datatype Event = Outch(ch: Byte) | ServerCmd(id: int, line: seq<Byte>, len: int)

  datatype Parser = Scanning(line: seq<Byte>) | Buffering(id: int, line: seq<Byte>) | Copying

  /** What one byte does, and the calls it causes. */
  function Step(p: Parser, ch: Byte): (Parser, seq<Event>) {
    match p
    case Scanning(line) =>
      if ch == NEWLINE then (Scanning([]), [])
      else
        var line' := PutLine(line, ch).0;
        if ch != SPACE then (Scanning(line'), [])
        else
          var id := ParseId(line');
          (if IsCommand(id) then Buffering(id, []) else Copying, [])
    case Buffering(id, line) =>
      var (line', len) := PutLine(line, ch);
      if len != 0 then (Scanning([]), [ServerCmd(id, line', len)]) else (Buffering(id, line'), [])
    case Copying =>
      (if ch == NEWLINE then Scanning([]) else Copying, [Outch(ch)])
  }

  function Run(p: Parser, s: seq<Byte>): (Parser, seq<Event>) {
    if s == [] then (p, [])
    else
      var (q, events) := Run(p, s[..|s| - 1]);
      var (r, more) := Step(q, s[|s| - 1]);
      (r, events + more)
  }

  /** Cutting the input in two makes no difference. */
  lemma {:induction false} RunInTwo(p: Parser, s: seq<Byte>, t: seq<Byte>)
    ensures var (q, events) := Run(p, s);
            var (r, more) := Run(q, t);
            Run(p, s + t) == (r, events + more)
  {
    hide Step;
    if t == [] {
      assert s + t == s;
      assert Run(p, s).1 + [] == Run(p, s).1;
    } else {
      var front := t[..|t| - 1];
      RunInTwo(p, s, front);
      assert (s + t)[..|s + t| - 1] == s + front;
      var (q, events) := Run(p, s);
      var (r, more) := Run(q, front);
      var last := Step(r, t[|t| - 1]).1;
      assert (events + more) + last == events + (more + last);
    }
  }

  // A parser that works line by line

  /** Where the first space is, -1 if there is none. */
  function FindSpace(l: seq<Byte>): (k: int)
    ensures k == -1 ==> SPACE !in l
    ensures k != -1 ==> 0 <= k < |l| && l[k] == SPACE && SPACE !in l[..k]
  {
    if l == [] then -1
    else
      var k := FindSpace(l[..|l| - 1]);
      if k >= 0 then
        assert l[..|l| - 1][..k] == l[..k];
        k
      else if l[|l| - 1] == SPACE then |l| - 1
      else -1
  }

  /** What fits into the line buffer. */
  function Truncated(text: seq<Byte>): seq<Byte> {
    if |text| + 2 > LBUF_LEN_MAX then text[..LBUF_LEN_MAX - 2] else text
  }

  /** The ID of a line with a space at k. */
  function LineId(l: seq<Byte>, k: nat): int
    requires k < |l|
  {
    ParseId(Truncated(l[..k + 1]))
  }

  function Outchs(s: seq<Byte>): seq<Event> {
    seq(|s|, i requires 0 <= i < |s| => Outch(s[i]))
  }

  /** What to do with the text of a line that is not complete yet. */
  function ParsePart(l: seq<Byte>): seq<Event> {
    var k := FindSpace(l);
    if k < 0 || IsCommand(LineId(l, k)) then [] else Outchs(l[k + 1..])
  }

  /** What to do with a line, given without its newline. */
  function ParseLine(l: seq<Byte>): seq<Event> {
    var k := FindSpace(l);
    if k < 0 then []
    else if IsCommand(LineId(l, k)) then [ServerCmd(LineId(l, k), l[k + 1..] + [NEWLINE], |l| - k)]
    else Outchs(l[k + 1..] + [NEWLINE])
  }

  /** The buffered text of this line fits into the line buffer. */
  predicate Fits(l: seq<Byte>) {
    var k := FindSpace(l);
    k >= 0 && IsCommand(LineId(l, k)) ==> |l[k + 1..]| <= LBUF_LEN_MAX - 2
  }

  /** The state after the text of a line so far. */
  function PartState(l: seq<Byte>): Parser {
    var k := FindSpace(l);
    if k < 0 then Scanning(Truncated(l))
    else if IsCommand(LineId(l, k)) then Buffering(LineId(l, k), l[k + 1..])
    else Copying
  }

  /** A space found stays where it is. */
  lemma SpaceStays(l: seq<Byte>, ch: Byte)
    ensures FindSpace(l + [ch]) == if FindSpace(l) >= 0 then FindSpace(l) else if ch == SPACE then |l| else -1
    ensures FindSpace(l) >= 0 ==> LineId(l + [ch], FindSpace(l)) == LineId(l, FindSpace(l))
  {
    hide LineId;
    assert (l + [ch])[..|l|] == l;
    if FindSpace(l) >= 0 {
      IdStays(l, ch, FindSpace(l));
    }
  }

  lemma IdStays(l: seq<Byte>, ch: Byte, k: nat)
    requires k < |l|
    ensures LineId(l + [ch], k) == LineId(l, k)
  {
    hide ParseId;
    assert (l + [ch])[..k + 1] == l[..k + 1];
  }

  lemma OutchsMore(s: seq<Byte>, ch: Byte)
    ensures Outchs(s + [ch]) == Outchs(s) + [Outch(ch)]
  {
  }

  /** The state machine on part of a line. */
  lemma {:induction false} RunPart(l: seq<Byte>)
    requires NEWLINE !in l && Fits(l)
    ensures Run(Scanning([]), l) == (PartState(l), ParsePart(l))
  {
    hide ParseId, IsCommand, FindSpace;
    if l == [] {
      NoSpace();
    } else {
      var front, ch := l[..|l| - 1], l[|l| - 1];
      assert l == front + [ch];
      SpaceStays(front, ch);
      FitsBefore(front, ch);
      RunPart(front);
      StepPart(front, ch);
    }
  }

  lemma NoSpace()
    ensures FindSpace([]) == -1
  {
  }

  lemma FitsBefore(l: seq<Byte>, ch: Byte)
    requires Fits(l + [ch])
    ensures Fits(l)
  {
    hide ParseId, IsCommand, FindSpace;
    SpaceStays(l, ch);
  }

  /** One more byte of a line. */
  lemma StepPart(l: seq<Byte>, ch: Byte)
    requires ch != NEWLINE && Fits(l + [ch])
    ensures var (p, more) := Step(PartState(l), ch);
            p == PartState(l + [ch]) && ParsePart(l + [ch]) == ParsePart(l) + more
  {
    hide ParseId, IsCommand, FindSpace;
    SpaceStays(l, ch);
    var k := FindSpace(l);
    if k >= 0 {
      assert (l + [ch])[k + 1..] == l[k + 1..] + [ch];
      OutchsMore(l[k + 1..], ch);
    } else {
      assert Truncated(l + [ch]) == PutLine(Truncated(l), ch).0;
      assert (l + [ch])[..|l| + 1] == l + [ch];
      assert (l + [ch])[|l| + 1..] == [];
    }
  }

  /** The end of a line. */
  lemma EndLine(l: seq<Byte>)
    requires Fits(l)
    ensures Step(PartState(l), NEWLINE).0 == Scanning([])
    ensures ParsePart(l) + Step(PartState(l), NEWLINE).1 == ParseLine(l)
  {
    hide ParseId, IsCommand, FindSpace;
    var k := FindSpace(l);
    if k >= 0 {
      OutchsMore(l[k + 1..], NEWLINE);
    }
  }

  /** The state machine on a whole line. */
  lemma {:induction false} RunLine(l: seq<Byte>)
    requires NEWLINE !in l && Fits(l)
    ensures Run(Scanning([]), l + [NEWLINE]) == (Scanning([]), ParseLine(l))
  {
    hide PartState, ParsePart, ParseLine, Step;
    RunPart(l);
    EndLine(l);
    assert (l + [NEWLINE])[..|l|] == l;
  }

  /** Where the first line ends, -1 if it does not. */
  function LineEnd(s: seq<Byte>): (m: int)
    ensures m == -1 ==> NEWLINE !in s
    ensures m != -1 ==> 0 <= m < |s| && s[m] == NEWLINE && NEWLINE !in s[..m]
  {
    if s == [] then -1
    else
      var m := LineEnd(s[..|s| - 1]);
      if m >= 0 then
        assert s[..|s| - 1][..m] == s[..m];
        m
      else if s[|s| - 1] == NEWLINE then |s| - 1
      else -1
  }

  /** Parse all of the output, line by line. */
  function Parse(s: seq<Byte>): seq<Event> {
    var m := LineEnd(s);
    if m < 0 then ParsePart(s) else ParseLine(s[..m]) + Parse(s[m + 1..])
  }

  predicate AllFit(s: seq<Byte>) {
    var m := LineEnd(s);
    if m < 0 then Fits(s) else Fits(s[..m]) && AllFit(s[m + 1..])
  }

  /** The state machine does what the line parser does, as long as buffered lines fit. */
  lemma {:induction false} RunIsParse(s: seq<Byte>)
    requires AllFit(s)
    ensures Run(Scanning([]), s).1 == Parse(s)
  {
    hide Run, Fits, ParseLine, ParsePart;
    var m := LineEnd(s);
    if m < 0 {
      RunPart(s);
    } else {
      RunLine(s[..m]);
      RunIsParse(s[m + 1..]);
      RunInTwo(Scanning([]), s[..m] + [NEWLINE], s[m + 1..]);
      assert s == (s[..m] + [NEWLINE]) + s[m + 1..];
    }
  }

  // Overlong lines

  /** Some call of servercmd passes on a line that was cut off. */
  ghost predicate HasCut(events: seq<Event>) {
    exists i :: 0 <= i < |events| && IsCut(events[i])
  }

  ghost predicate IsCut(e: Event) {
    e.ServerCmd? && e.len < 0
  }

  lemma CutStays(events: seq<Event>, more: seq<Event>)
    ensures HasCut(events + more) <==> HasCut(events) || HasCut(more)
  {
    var all := events + more;
    if i :| 0 <= i < |events| && IsCut(events[i]) {
      assert IsCut(all[i]);
    }
    if i :| 0 <= i < |more| && IsCut(more[i]) {
      assert IsCut(all[|events| + i]);
    }
  }

  lemma {:induction false} LineParserNeverCuts(s: seq<Byte>)
    ensures !HasCut(Parse(s))
  {
    hide FindSpace, ParseId, IsCommand;
    var m := LineEnd(s);
    if m >= 0 {
      LineParserNeverCuts(s[m + 1..]);
      CutStays(ParseLine(s[..m]), Parse(s[m + 1..]));
    }
  }

  lemma SpaceInPrefix(l: seq<Byte>, j: nat)
    requires 0 <= FindSpace(l) < j <= |l|
    ensures FindSpace(l[..j]) == FindSpace(l) && LineId(l[..j], FindSpace(l)) == LineId(l, FindSpace(l))
  {
    hide FindSpace, ParseId;
    var k, k' := FindSpace(l), FindSpace(l[..j]);
    assert l[..j][k] == SPACE;
    assert k' >= 0 && l[..j][k'] == SPACE;
    assert k <= k' by { assert forall i | 0 <= i < k :: l[i] == l[..k][i] != SPACE; }
    assert k' <= k by { assert forall i | 0 <= i < k' :: l[i] == l[..j][..k'][i] != SPACE; }
    assert l[..j][..k + 1] == l[..k + 1];
  }

  /** A buffered line that does not fit is cut off. */
  lemma {:induction false} OverlongIsCut(l: seq<Byte>)
    requires NEWLINE !in l && !Fits(l)
    ensures HasCut(Run(Scanning([]), l).1)
  {
    hide FindSpace, ParseId, IsCommand, Run;
    var k := FindSpace(l);
    var j := k + 1 + (LBUF_LEN_MAX - 2);
    var front := l[..j];
    SpaceInPrefix(l, j);
    assert front[k + 1..] == l[k + 1..j];
    RunPart(front);
    StepOver(front, l[j]);
    assert l == front + l[j..] && l[j..] == [l[j]] + l[j + 1..];
    RunInTwo(Scanning([]), front, l[j..]);
    RunInTwo(PartState(front), [l[j]], l[j + 1..]);
    RunOne(PartState(front), l[j]);
    CutStays(ParsePart(front), Run(PartState(front), l[j..]).1);
    CutStays(Step(PartState(front), l[j]).1, Run(Run(PartState(front), [l[j]]).0, l[j + 1..]).1);
  }

  lemma RunOne(p: Parser, ch: Byte)
    ensures Run(p, [ch]) == Step(p, ch)
  {
    hide Step;
    assert [ch][..0] == [];
    assert [] + Step(p, ch).1 == Step(p, ch).1;
  }

  /** One byte too many. */
  lemma StepOver(l: seq<Byte>, ch: Byte)
    requires ch != NEWLINE && FindSpace(l) >= 0 && IsCommand(LineId(l, FindSpace(l)))
    requires |l[FindSpace(l) + 1..]| == LBUF_LEN_MAX - 2
    ensures HasCut(Step(PartState(l), ch).1)
  {
    hide FindSpace, ParseId, IsCommand;
    assert IsCut(Step(PartState(l), ch).1[0]);
  }

  lemma {:induction false} NotFittingIsCut(s: seq<Byte>)
    requires !AllFit(s)
    ensures HasCut(Run(Scanning([]), s).1)
  {
    hide Run, Fits, ParseLine, HasCut;
    var m := LineEnd(s);
    if m < 0 {
      OverlongIsCut(s);
    } else {
      var line := s[..m] + [NEWLINE];
      assert s == line + s[m + 1..];
      RunInTwo(Scanning([]), line, s[m + 1..]);
      var (q, events) := Run(Scanning([]), line);
      CutStays(events, Run(q, s[m + 1..]).1);
      if Fits(s[..m]) {
        RunLine(s[..m]);
        NotFittingIsCut(s[m + 1..]);
      } else {
        OverlongIsCut(s[..m]);
        RunInTwo(Scanning([]), s[..m], [NEWLINE]);
        CutStays(Run(Scanning([]), s[..m]).1, Run(Run(Scanning([]), s[..m]).0, [NEWLINE]).1);
      }
    }
  }

  /** The state machine does what the line parser does exactly when buffered lines fit the line buffer. */
  lemma {:induction false} RunIsParseExactly(s: seq<Byte>)
    ensures Run(Scanning([]), s).1 == Parse(s) <==> AllFit(s)
  {
    hide Run, Parse, AllFit;
    if AllFit(s) {
      RunIsParse(s);
    } else {
      NotFittingIsCut(s);
      LineParserNeverCuts(s);
    }
  }

  // recv_output

  datatype State = SCANNING_ID | BUFFERING | COPYING

  /** The parser's static variables, and where player input comes from. */
  class Receiver {
    var state: State
    var id: int
    const lbuf: LineBuf
    /** 0 while reading interactive input, positive while reading a batch file. */
    var inputFd: int
    var sendIntr: bool
    /** All calls of outch and servercmd so far, and what the latter returned. */
    ghost var events: seq<Event>
    ghost var results: seq<int>

    ghost predicate Valid()
      reads this, lbuf
    {
      && lbuf.Valid() && !lbuf.full && inputFd >= 0
      && (state == BUFFERING ==> IsCommand(id))
      && (state == COPYING ==> lbuf.len == 0)
    }

    ghost function Value(): Parser
      reads this, lbuf, lbuf.line
      requires Valid()
    {
      match state
      case SCANNING_ID => Scanning(lbuf.Text())
      case BUFFERING => Buffering(id, lbuf.Text())
      case COPYING => Copying
    }

    constructor ()
      ensures Valid() && Value() == Scanning([]) && events == [] && results == [] && inputFd == 0 && !sendIntr
      ensures fresh(lbuf) && fresh(lbuf.line)
    {
      state, id, inputFd, sendIntr, events, results := SCANNING_ID, 0, 0, false, [], [];
      lbuf := new LineBuf();
    }

    /** What servercmd returns: -1 for a failed execute, a file for a successful one, else 0. */
    method ServerCmdResult(id: int) returns (fd: int)
      requires inputFd >= 0
      ensures fd > 0 ==> inputFd == 0
      ensures id != C_EXECUTE ==> fd == 0
    {
      fd := 0;
      if id == C_EXECUTE {
        if * {
          fd := -1;
        } else if inputFd == 0 {
          fd :| fd >= 0;
        }
      }
    }

    /** Line 361-391 */
    method ScanId(ch: Byte)
      requires Valid() && state == SCANNING_ID
      modifies this`state, this`id, lbuf, lbuf.line
      ensures Valid() && (Value(), []) == Step(old(Value()), ch)
    {
      hide ParseId, IsCommand;
      if ch == NEWLINE {
        lbuf.Init();
        return;
      }
      var n := lbuf.Putc(ch);
      if ch != SPACE {
        return;
      }
      var line := lbuf.Line();
      id := ParseId(line);
      lbuf.Init();
      state := if IsCommand(id) then BUFFERING else COPYING;
    }

    /** Lines 393-412 */
    method Buffer(ch: Byte)
      requires Valid() && state == BUFFERING
      modifies this, lbuf, lbuf.line
      ensures Valid() && (Value(), events) == (Step(old(Value()), ch).0, old(events) + Step(old(Value()), ch).1)
      // A failed execute aborts the batch file, a successful one opens it; nothing else does
      ensures old(results) <= results && ResultsFit(Step(old(Value()), ch).1, results[|old(results)|..])
      ensures (inputFd, sendIntr) == AfterCalls(old(inputFd), old(sendIntr), results[|old(results)|..])
    {
      hide ParseId, IsCommand;
      var len := lbuf.Putc(ch);
      if len != 0 {
        var line := lbuf.Line();
        events := events + [ServerCmd(id, line, len)];
        var fd := ServerCmdResult(id);
        results := results + [fd];
        OneCall(inputFd, sendIntr, ServerCmd(id, line, len), fd);
        assert results[|old(results)|..] == [fd];
        if fd < 0 {
          inputFd := 0;
          sendIntr := true;
        } else if fd > 0 {
          assert inputFd == 0;
          inputFd := fd;
        }
        lbuf.Init();
        state := SCANNING_ID;
      } else {
        assert events + [] == events;
        assert results[|results|..] == [];
      }
    }

    /** recv_output on one chunk of server output */
    method RecvOutput(chunk: seq<Byte>)
      requires Valid()
      modifies this, lbuf, lbuf.line
      ensures Valid()
      ensures var (p, more) := Run(old(Value()), chunk); Value() == p && events == old(events) + more
      // Where input comes from, and whether an interrupt is due, depends on what servercmd returned
      ensures old(results) <= results && ResultsFit(Run(old(Value()), chunk).1, results[|old(results)|..])
      ensures (inputFd, sendIntr) == AfterCalls(old(inputFd), old(sendIntr), results[|old(results)|..])
    {
      hide Run, Step, ParseId, IsCommand, ResultsFit, AfterCalls;
      ghost var p0 := Value();
      RunNothing(p0);
      NoCalls(inputFd, sendIntr);
      assert old(events) + [] == old(events) && results[|results|..] == [];
      var i := 0;
      while i < |chunk|
        invariant 0 <= i <= |chunk| && Valid()
        invariant Value() == Run(p0, chunk[..i]).0 && events == old(events) + Run(p0, chunk[..i]).1
        invariant old(results) <= results && ResultsFit(Run(p0, chunk[..i]).1, results[|old(results)|..])
        invariant (inputFd, sendIntr) == AfterCalls(old(inputFd), old(sendIntr), results[|old(results)|..])
      {
        var ch := chunk[i];
        ghost var p, before, calls := Value(), events, results;
        ghost var fd, intr := inputFd, sendIntr;
        RunMore(p0, chunk, i);
        assert calls[|calls|..] == [];
        match state {
          case SCANNING_ID =>
            ScanId(ch);
            assert events + [] == events;
            NoCalls(fd, intr);
          case BUFFERING =>
            Buffer(ch);
          case COPYING =>
            StepCopying(ch);
            NoCallFor(ch);
            NoCalls(fd, intr);
            events := events + [Outch(ch)];
            if ch == NEWLINE {
              state := SCANNING_ID;
            }
        }
        assert events == before + Step(p, ch).1;
        assert old(events) + (Run(p0, chunk[..i]).1 + Step(p, ch).1) == before + Step(p, ch).1;
        assert results[|old(results)|..] == calls[|old(results)|..] + results[|calls|..];
        CallsInTwo(Run(p0, chunk[..i]).1, Step(p, ch).1, calls[|old(results)|..], results[|calls|..],
                   old(inputFd), old(sendIntr));
        i := i + 1;
      }
      assert chunk[..i] == chunk;
    }
  }

  /** Calls of servercmd among some events. */
  ghost function Calls(events: seq<Event>): (calls: seq<Event>) {
    if events == [] then []
    else Calls(events[..|events| - 1]) + if events[|events| - 1].ServerCmd? then [events[|events| - 1]] else []
  }

  /** One result per call of servercmd; only C_EXECUTE has one other than zero. */
  ghost predicate ResultsFit(events: seq<Event>, results: seq<int>) {
    && |results| == |Calls(events)|
    && forall i :: 0 <= i < |results| && results[i] != 0 ==>
                     Calls(events)[i].ServerCmd? && Calls(events)[i].id == C_EXECUTE
  }

  /** A failed execute aborts the batch file and makes an interrupt due; a successful one opens a batch file. */
  ghost function AfterCalls(fd: int, intr: bool, results: seq<int>): (int, bool) {
    if results == [] then (fd, intr)
    else
      var (fd, intr) := AfterCalls(fd, intr, results[..|results| - 1]);
      var r := results[|results| - 1];
      if r < 0 then (0, true) else if r > 0 then (r, intr) else (fd, intr)
  }

  lemma NoCalls(fd: int, intr: bool)
    ensures ResultsFit([], []) && AfterCalls(fd, intr, []) == (fd, intr)
  {
  }

  lemma NoCallFor(ch: Byte)
    ensures ResultsFit([Outch(ch)], [])
  {
  }

  lemma OneCall(fd: int, intr: bool, call: Event, r: int)
    requires call.ServerCmd? && (r == 0 || call.id == C_EXECUTE)
    ensures ResultsFit([call], [r])
    ensures AfterCalls(fd, intr, [r]) == if r < 0 then (0, true) else if r > 0 then (r, intr) else (fd, intr)
  {
    assert [call][..0] == [] && [r][..0] == [];
  }

  lemma {:induction false} CallsOfConcat(events: seq<Event>, more: seq<Event>)
    ensures Calls(events + more) == Calls(events) + Calls(more)
  {
    if more == [] {
      assert events + more == events;
    } else {
      CallsOfConcat(events, more[..|more| - 1]);
      assert (events + more)[..|events + more| - 1] == events + more[..|more| - 1];
    }
  }

  lemma {:induction false} AfterCallsInTwo(fd: int, intr: bool, results: seq<int>, more: seq<int>)
    ensures AfterCalls(fd, intr, results + more) ==
            AfterCalls(AfterCalls(fd, intr, results).0, AfterCalls(fd, intr, results).1, more)
  {
    if more == [] {
      assert results + more == results;
    } else {
      AfterCallsInTwo(fd, intr, results, more[..|more| - 1]);
      assert (results + more)[..|results + more| - 1] == results + more[..|more| - 1];
    }
  }

  lemma CallsInTwo(events: seq<Event>, more: seq<Event>, results: seq<int>, others: seq<int>, fd: int, intr: bool)
    requires ResultsFit(events, results) && ResultsFit(more, others)
    ensures ResultsFit(events + more, results + others)
    ensures AfterCalls(fd, intr, results + others) ==
            AfterCalls(AfterCalls(fd, intr, results).0, AfterCalls(fd, intr, results).1, others)
  {
    CallsOfConcat(events, more);
    AfterCallsInTwo(fd, intr, results, others);
    hide Calls, AfterCalls;
  }

  lemma RunNothing(p: Parser)
    ensures Run(p, []) == (p, [])
  {
  }

  lemma RunMore(p: Parser, s: seq<Byte>, i: nat)
    requires i < |s|
    ensures Run(p, s[..i + 1]).0 == Step(Run(p, s[..i]).0, s[i]).0
    ensures Run(p, s[..i + 1]).1 == Run(p, s[..i]).1 + Step(Run(p, s[..i]).0, s[i]).1
  {
    hide Step;
    assert s[..i + 1][..i] == s[..i];
  }

  lemma StepCopying(ch: Byte)
    ensures Step(Copying, ch) == (if ch == NEWLINE then Scanning([]) else Copying, [Outch(ch)])
  {
  }

  function Concat(chunks: seq<seq<Byte>>): seq<Byte> {
    if chunks == [] then [] else Concat(chunks[..|chunks| - 1]) + chunks[|chunks| - 1]
  }

  /** However output is cut into chunks, and provided buffered lines fit, the calls are those of the line parser. */
  method RecvAll(r: Receiver, chunks: seq<seq<Byte>>)
    requires r.Valid() && r.Value() == Scanning([]) && r.events == []
    modifies r, r.lbuf, r.lbuf.line
    ensures r.Valid() && r.events == Run(Scanning([]), Concat(chunks)).1
    ensures r.events == Parse(Concat(chunks)) <==> AllFit(Concat(chunks))
  {
    hide Run, Parse, AllFit;
    RunNothing(Scanning([]));
    var i := 0;
    while i < |chunks|
      invariant 0 <= i <= |chunks| && r.Valid()
      invariant Run(Scanning([]), Concat(chunks[..i])) == (r.Value(), r.events)
    {
      assert chunks[..i + 1][..i] == chunks[..i];
      RunInTwo(Scanning([]), Concat(chunks[..i]), chunks[i]);
      r.RecvOutput(chunks[i]);
      i := i + 1;
    }
    assert chunks[..i] == chunks;
    RunIsParseExactly(Concat(chunks));
  }
}
