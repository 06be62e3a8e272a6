/**
 The client's main loop (play, send_input, recv_input in play.c, without
 readline): player input flows into a ring buffer and on to the server; cookies
 that report end of file and interrupts are injected into it.
 */
module PlayLoop {
  import opened Arith
  import opened RingBuf
  import opened Secure
  import opened Output

  /** "ctld\n" and "aborted\n" */
  const EOF_COOKIE: seq<Byte> := [99, 116, 108, 100, 10]
  const INTR_COOKIE: seq<Byte> := [97, 98, 111, 114, 116, 101, 100, 10]
  const CR: Byte := 13

  lemma CookiesAre()
    ensures EOF_COOKIE == Chars("ctld\n") && INTR_COOKIE == Chars("aborted\n")
  {
  }

  // The input stream

  /** What has been put into the input stream, in order. */
  datatype Item = Data(bytes: seq<Byte>) | Newline | EofCookie | IntrCookie {
    function Bytes(): seq<Byte> {
      match this
      case Data(bytes) => bytes
      case Newline => [NEWLINE]
      case EofCookie => EOF_COOKIE
      case IntrCookie => INTR_COOKIE
    }
  }

  function Flatten(log: seq<Item>): seq<Byte> {
    if log == [] then [] else Flatten(log[..|log| - 1]) + log[|log| - 1].Bytes()
  }

  /** The last line is not complete. */
  predicate EndsPartial(s: seq<Byte>) {
    s != [] && s[|s| - 1] != NEWLINE
  }

  /** Every cookie is at the start of a line. */
  ghost predicate CookiesOnOwnLine(log: seq<Item>) {
    forall k :: 0 <= k < |log| && (log[k].EofCookie? || log[k].IntrCookie?) ==> !EndsPartial(Flatten(log[..k]))
  }

  function EofCookies(log: seq<Item>): nat {
    if log == [] then 0 else EofCookies(log[..|log| - 1]) + if log[|log| - 1].EofCookie? then 1 else 0
  }

  lemma LogMore(log: seq<Item>, item: Item)
    ensures Flatten(log + [item]) == Flatten(log) + item.Bytes()
    ensures EofCookies(log + [item]) == EofCookies(log) + if item.EofCookie? then 1 else 0
    ensures CookiesOnOwnLine(log) && (item.EofCookie? || item.IntrCookie? ==> !EndsPartial(Flatten(log))) ==>
              CookiesOnOwnLine(log + [item])
  {
    hide EndsPartial, Flatten;
    FlattenMore(log, item);
    assert (log + [item])[..|log|] == log;
    forall k | 0 <= k < |log| ensures (log + [item])[..k] == log[..k] {}
  }

  lemma FlattenMore(log: seq<Item>, item: Item)
    ensures Flatten(log + [item]) == Flatten(log) + item.Bytes()
  {
    assert (log + [item])[..|log|] == log;
  }

  /** Input without carriage returns. */
  function NoCr(s: seq<Byte>): (t: seq<Byte>)
    ensures |t| <= |s|
  {
    if s == [] then [] else NoCr(s[..|s| - 1]) + if s[|s| - 1] == CR then [] else [s[|s| - 1]]
  }

  lemma {:induction false} NoCrOfConcat(s: seq<Byte>, t: seq<Byte>)
    ensures NoCr(s + t) == NoCr(s) + NoCr(t)
  {
    if t == [] {
      assert s + t == s;
    } else {
      NoCrOfConcat(s, t[..|t| - 1]);
      assert (s + t)[..|s + t| - 1] == s + t[..|t| - 1];
    }
  }

  lemma NoCrOne(c: Byte)
    ensures NoCr([c]) == if c == CR then [] else [c]
  {
    assert [c][..0] == [];
  }

  /** Lines fit into the memory of recent input, even once the last one has been completed. */
  ghost predicate LinesShort(s: seq<Byte>) {
    LinesFit(NoCr(s) + [NEWLINE])
  }

  /** Lines of a prefix fit, too. */
  lemma PrefixFits(h: seq<Byte>, t: seq<Byte>)
    requires LinesFit(h + t)
    ensures LinesFit(h)
  {
    forall a, b | OnOneLine(h, a, b) ensures b - a <= RING_SIZE {
      assert (h + t)[a..b - 1] == h[a..b - 1];
      assert OnOneLine(h + t, a, b);
    }
  }

  /** A short line on its own does not make lines too long. */
  lemma CompleteLineFits(h: seq<Byte>, line: seq<Byte>)
    requires LinesFit(h) && !EndsPartial(h) && |line| < RING_SIZE
    ensures LinesFit(h + line + [NEWLINE])
  {
    var s := h + line + [NEWLINE];
    forall a, b | OnOneLine(s, a, b) ensures b - a <= RING_SIZE {
      if b <= |h| {
        assert s[a..b - 1] == h[a..b - 1];
        assert OnOneLine(h, a, b);
      } else {
        assert forall k | a <= k < b - 1 :: s[k] == s[a..b - 1][k - a] != NEWLINE;
        assert h != [] ==> s[|h| - 1] == NEWLINE;
        assert a >= |h|;
      }
    }
  }

  lemma NoCrKeepsLines(s: seq<Byte>)
    requires !EndsPartial(s)
    ensures !EndsPartial(NoCr(s))
  {
  }

  /** Completing the last line, or adding a cookie to complete lines, keeps lines short. */
  lemma NewlineKeepsShort(s: seq<Byte>)
    requires LinesShort(s)
    ensures LinesShort(s + [NEWLINE])
  {
    hide LinesFit, NoCr;
    NoCrOfConcat(s, [NEWLINE]);
    NoCrOne(NEWLINE);
    CompleteLineFits(NoCr(s) + [NEWLINE], []);
    assert NoCr(s) + [NEWLINE] + [] == NoCr(s) + [NEWLINE];
  }

  lemma CookieKeepsShort(s: seq<Byte>, cookie: seq<Byte>)
    requires LinesShort(s) && !EndsPartial(s) && (cookie == EOF_COOKIE || cookie == INTR_COOKIE)
    ensures LinesShort(s + cookie)
  {
    hide LinesFit, NoCr;
    PrefixFits(NoCr(s), [NEWLINE]);
    NoCrKeepsLines(s);
    var line := cookie[..|cookie| - 1];
    assert cookie == line + [NEWLINE];
    CompleteLineFits(NoCr(s), line);
    CookieHasNoCr();
    NoCrOfConcat(s, cookie);
    assert NoCr(s) + line + [NEWLINE] == NoCr(s) + cookie;
    CompleteLineFits(NoCr(s) + cookie, []);
    assert NoCr(s) + cookie + [] == NoCr(s) + cookie;
  }

  lemma CookieHasNoCr()
    ensures NoCr(EOF_COOKIE) == EOF_COOKIE && NoCr(INTR_COOKIE) == INTR_COOKIE
  {
    var e, i := EOF_COOKIE, INTR_COOKIE;
    assert e[..4] == [99, 116, 108, 100] && e[..4][..3] == [99, 116, 108];
    assert e[..3][..2] == [99, 116] && e[..2][..1] == [99];
    NoCrUnchanged(e);
    NoCrUnchanged(i);
  }

  lemma {:induction false} NoCrUnchanged(s: seq<Byte>)
    requires CR !in s
    ensures NoCr(s) == s
  {
    if s != [] {
      NoCrUnchanged(s[..|s| - 1]);
    }
  }

  // What the flags of play() say about the stream

  ghost predicate LogOk(log: seq<Item>, partial: bool, sendEof: bool, eofs: nat) {
    && LinesShort(Flatten(log))
    && (partial <==> EndsPartial(Flatten(log)))
    && CookiesOnOwnLine(log)
    && eofs == EofCookies(log) + (if sendEof then 1 else 0)
  }

  lemma EmptyLog()
    ensures LogOk([], false, false, 0) && NoCr([]) == [] && Flatten([]) == []
  {
  }

  lemma EndsComplete(s: seq<Byte>, t: seq<Byte>)
    requires t != []
    ensures EndsPartial(s + t) <==> t[|t| - 1] != NEWLINE
  {
  }

  lemma LogNewline(log: seq<Item>, partial: bool, sendEof: bool, eofs: nat)
    requires LogOk(log, partial, sendEof, eofs)
    ensures LogOk(log + [Newline], false, sendEof, eofs)
  {
    hide LinesShort, CookiesOnOwnLine, Flatten, EofCookies, EndsPartial;
    LogMore(log, Newline);
    NewlineKeepsShort(Flatten(log));
    EndsComplete(Flatten(log), [NEWLINE]);
  }

  lemma LogEofCookie(log: seq<Item>, eofs: nat)
    requires LogOk(log, false, true, eofs)
    ensures LogOk(log + [EofCookie], false, false, eofs)
  {
    hide LinesShort, CookiesOnOwnLine, Flatten, EofCookies, EndsPartial;
    LogMore(log, EofCookie);
    CookieKeepsShort(Flatten(log), EOF_COOKIE);
    EndsComplete(Flatten(log), EOF_COOKIE);
  }

  lemma LogIntrCookie(log: seq<Item>, sendEof: bool, eofs: nat)
    requires LogOk(log, false, sendEof, eofs)
    ensures LogOk(log + [IntrCookie], false, sendEof, eofs)
  {
    hide LinesShort, CookiesOnOwnLine, Flatten, EofCookies, EndsPartial;
    LogMore(log, IntrCookie);
    CookieKeepsShort(Flatten(log), INTR_COOKIE);
    EndsComplete(Flatten(log), INTR_COOKIE);
  }

  lemma LogData(log: seq<Item>, partial: bool, sendEof: bool, eofs: nat, bytes: seq<Byte>)
    requires LogOk(log, partial, sendEof, eofs) && bytes != [] && LinesShort(Flatten(log) + bytes)
    ensures LogOk(log + [Data(bytes)], bytes[|bytes| - 1] != NEWLINE, sendEof, eofs)
  {
    hide LinesShort, CookiesOnOwnLine, Flatten, EofCookies, EndsPartial;
    LogMore(log, Data(bytes));
    EndsComplete(Flatten(log), bytes);
  }

  lemma LogEnd(log: seq<Item>, partial: bool, eofs: nat)
    requires LogOk(log, partial, false, eofs)
    ensures LogOk(log, partial, true, eofs + 1)
  {
  }

  lemma Associative(w: seq<Byte>, q: seq<Byte>, more: seq<Byte>)
    ensures (w + q) + more == w + (q + more)
  {
  }

  lemma FileEnds(q: seq<Byte>, file: seq<Byte>, n: int)
    requires n <= |file|
    ensures n > 0 ==> var more := q + file[..n]; more != [] && more[|more| - 1] == file[n - 1]
  {
  }

  lemma FirstMoved(w: seq<Byte>, q: seq<Byte>)
    requires q != []
    ensures w + q == (w + [q[0]]) + q[1..]
  {
  }

  lemma OneMoreSent(w: seq<Byte>, q: seq<Byte>, i: nat)
    requires i < |q|
    ensures w + q[..i] + [q[i..][0]] == w + q[..i + 1] && q[i..][1..] == q[i + 1..]
  {
  }

  // What a round of play() does, phase by phase

  /**
   The input stream as it has been put and written, what is due, where input
   comes from, and what output has been made of.
   */
  datatype View = View(log: seq<Item>, written: seq<Byte>, sendEof: bool, partial: bool, eofFd0: bool, inputFd: int,
                       sendIntr: bool, parser: Parser, events: seq<Event>, results: seq<int>)
  {
    /** What has been put, but not written yet. */
    ghost function Unsent(): seq<Byte> {
      if |written| <= |Flatten(log)| then Flatten(log)[|written|..] else []
    }

    ghost function Room(): int {
      RING_SIZE - |Unsent()|
    }

    /** No cookie is due, there is input to come, and room for it. */
    ghost predicate WantsInput() {
      !sendIntr && !sendEof && (inputFd != 0 || !eofFd0) && Room() > 0
    }

    ghost predicate WantsOutput() {
      sendIntr || sendEof || Unsent() != []
    }
  }

  /** A signal makes an interrupt due, unless standard input has ended. */
  ghost function AfterSignal(v: View, signal: bool): View {
    v.(sendIntr := v.sendIntr || (signal && !v.eofFd0))
  }

  /** What is due is put; an interrupt aborts the batch file. */
  ghost function AfterCookies(v: View): View {
    var put := Cookies(v.partial, v.sendEof, v.sendIntr, v.Room());
    v.(log := v.log + put, sendEof := v.sendEof && EofCookie !in put, partial := v.partial && Newline !in put,
       sendIntr := v.sendIntr && IntrCookie !in put, inputFd := if IntrCookie in put then 0 else v.inputFd)
  }

  /**
   A read yields the next count bytes of the file, as far as there is room for
   them, its end (0), or an error (less).  The end of a batch file makes an EOF
   cookie due, an error in it an interrupt; the end of standard input an EOF cookie.
   */
  ghost function AfterRead(v: View, file: seq<Byte>, count: int): View
    requires count <= |file| && v.Room() >= 0
  {
    var n := Min(count, v.Room());
    if n > 0 then v.(log := v.log + [Data(file[..n])], partial := file[n - 1] != NEWLINE)
    else AfterEnd(v, n < 0)
  }

  ghost function AfterEnd(v: View, failed: bool): View {
    if v.inputFd == 0 then v.(sendEof := true, eofFd0 := true, sendIntr := false)
    else if failed then v.(sendIntr := true, inputFd := 0)
    else v.(sendEof := true, inputFd := 0)
  }

  /** The server takes some bytes. */
  ghost function AfterSend(v: View, wanted: bool, taken: nat): View {
    if wanted then v.(written := v.written + v.Unsent()[..Min(taken, |v.Unsent()|)]) else v
  }

  /** Output goes through the parser; failed and successful executes change where input comes from. */
  ghost predicate Receives(v: View, chunk: seq<Byte>, v': View) {
    var (parser, more) := Run(v.parser, chunk);
    && v.results <= v'.results && ResultsFit(more, v'.results[|v.results|..])
    && var (inputFd, sendIntr) := AfterCalls(v.inputFd, v.sendIntr, v'.results[|v.results|..]);
    v' == v.(parser := parser, events := v.events + more, results := v'.results, inputFd := inputFd,
             sendIntr := sendIntr)
  }

  /**
   A round: cookies are put; unless select failed, input is read if it was wanted,
   is there, and comes from where it came from; then input is sent, if there was
   anything to send, and output received.
   */
  ghost predicate RoundTaken(v: View, env: Env, v': View) {
    var cookies := AfterCookies(AfterSignal(v, env.signal));
    if env.failed then v' == cookies
    else
      && env.count <= |env.file| && cookies.Room() >= 0
      && var ready := v.WantsInput() && env.inputReady && cookies.inputFd == v.inputFd && cookies.Room() > 0;
      var read := if ready then AfterRead(cookies, env.file, env.count) else cookies;
      Receives(AfterSend(read, v.WantsOutput(), env.taken), env.chunk, v')
  }

  lemma SendIs(v: View, wanted: bool, taken: nat)
    ensures AfterSend(v, wanted, taken) ==
            if !wanted then v
            else v.(written := v.written + v.Unsent()[..if taken > |v.Unsent()| then |v.Unsent()| else taken])
  {
  }

  lemma ReadIs(v: View, file: seq<Byte>, count: int, n: int)
    requires count <= |file| && v.Room() > 0 && n == if count > v.Room() then v.Room() else count
    ensures AfterRead(v, file, count) ==
            if n > 0 then v.(log := v.log + [Data(file[..n])], partial := file[n - 1] != NEWLINE)
            else AfterEnd(v, n < 0)
  {
  }

  lemma CookiesIs(v: View)
    ensures var put := Cookies(v.partial, v.sendEof, v.sendIntr, v.Room());
            AfterCookies(v) ==
            v.(log := v.log + put, sendEof := v.sendEof && EofCookie !in put, partial := v.partial && Newline !in put,
               sendIntr := v.sendIntr && IntrCookie !in put, inputFd := if IntrCookie in put then 0 else v.inputFd)
  {
  }

  lemma SignalIs(v: View, signal: bool)
    ensures AfterSignal(v, signal) == v.(sendIntr := v.sendIntr || (signal && !v.eofFd0))
  {
  }

  lemma RoundIs(v: View, env: Env, cookies: View)
    requires cookies == AfterCookies(AfterSignal(v, env.signal)) && env.count <= |env.file|
    ensures env.failed ==> RoundTaken(v, env, cookies)
    ensures !env.failed && cookies.Room() >= 0 ==>
              var ready := v.WantsInput() && env.inputReady && cookies.inputFd == v.inputFd && cookies.Room() > 0;
              var read := if ready then AfterRead(cookies, env.file, env.count) else cookies;
              forall v' | Receives(AfterSend(read, v.WantsOutput(), env.taken), env.chunk, v') :: RoundTaken(v, env, v')
  {
    hide AfterCookies, AfterSignal, AfterRead, AfterSend, Receives, View.WantsInput, View.WantsOutput, View.Room;
  }

  // The state of play()

  class Player {
    const inbuf: Ring
    const memory: Memory
    const receiver: Receiver
    var sendEof: bool
    var partialLineSent: bool
    var eofFd0: bool
    /** What has been put into inbuf, and what of it has been written to the server. */
    ghost var log: seq<Item>
    ghost var written: seq<Byte>
    /** How often player input has ended. */
    ghost var eofs: nat

    ghost function Stream(): seq<Byte>
      reads this
    {
      Flatten(log)
    }

    /** The ring holds what is still to be written, and the memory what has been. */
    ghost predicate FlowOk()
      reads this, inbuf, inbuf.buf, memory, memory.recent, memory.recent.buf
    {
      && inbuf.Valid() && memory.Valid()
      && inbuf != memory.recent && inbuf.buf != memory.recent.buf
      && receiver.lbuf.line != inbuf.buf && receiver.lbuf.line != memory.recent.buf
      && Stream() == written + inbuf.Contents()
      && |Stream()| + RING_SIZE < UINT_SIZE && inbuf.prod == |Stream()| && inbuf.cons == |written|
      && memory.history == NoCr(written)
    }

    ghost predicate Valid()
      reads this, inbuf, inbuf.buf, memory, memory.recent, memory.recent.buf, receiver, receiver.lbuf
    {
      inbuf.Valid() && FlowOk() && receiver.Valid() && LogOk(log, partialLineSent, sendEof, eofs)
    }

    /** All there is to see of it; the memory holds what has been written, without carriage returns. */
    ghost function Look(): View
      reads this, receiver, receiver.lbuf, receiver.lbuf.line
      requires receiver.Valid()
    {
      View(log, written, sendEof, partialLineSent, eofFd0, receiver.inputFd, receiver.sendIntr, receiver.Value(),
           receiver.events, receiver.results)
    }

    /** Lines 579-581 */
    constructor ()
      ensures Valid() && Look() == View([], [], false, false, false, 0, false, Scanning([]), [], [])
      ensures fresh(inbuf) && fresh(inbuf.buf) && fresh(memory) && fresh(memory.recent) && fresh(memory.recent.buf)
      ensures fresh(receiver) && fresh(receiver.lbuf) && fresh(receiver.lbuf.line)
    {
      inbuf := new Ring();
      memory := new Memory();
      receiver := new Receiver();
      sendEof, partialLineSent, eofFd0 := false, false, false;
      log, written, eofs := [], [], 0;
      new;
      EmptyLog();
    }

    /** Room to count k more bytes. */
    ghost predicate MayPut(k: nat)
      reads this
    {
      |Stream()| + k + RING_SIZE < UINT_SIZE
    }

    /** How much more the ring can take. */
    ghost function Room(): int
      reads this
    {
      RING_SIZE - (|Stream()| - |written|)
    }

    /** The ring holds what is unsent. */
    lemma InView()
      requires Valid()
      ensures Look().Unsent() == inbuf.Contents() && Look().Room() == Room() == RING_SIZE - |inbuf.Contents()| >= 0
      ensures inbuf.Valid() && receiver.Valid() && memory.history == NoCr(written)
    {
    }

    /** Lines 610-612: complete the last line before a cookie. */
    method CompleteLine()
      requires Valid() && MayPut(1)
      modifies this`partialLineSent, this`log, inbuf, inbuf.buf
      ensures Valid()
      ensures var put := (sendEof || receiver.sendIntr) && old(partialLineSent) && old(Room()) >= 1;
              && log == (if put then old(log) + [Newline] else old(log))
              && partialLineSent == (old(partialLineSent) && !put)
              && Stream() == (if put then old(Stream()) + [NEWLINE] else old(Stream()))
              && Room() == old(Room()) - (if put then 1 else 0)
      ensures receiver.Value() == old(receiver.Value())
    {
      hide LogOk, Flatten, Minus, Plus, Ring.Contents, Memory.Valid, NoCr;
      if (sendEof || receiver.sendIntr) && partialLineSent {
        NoWrap(|Stream()|, 1);
        var res := inbuf.Putc(NEWLINE);
        if res != EOF {
          FlattenMore(log, Newline);
          LogNewline(log, partialLineSent, sendEof, eofs);
          log := log + [Newline];
          partialLineSent := false;
        }
      }
    }

    /** Put a whole cookie, or nothing when it does not fit. */
    method PutCookie(cookie: seq<Byte>, ghost item: Item) returns (put: bool)
      requires FlowOk() && MayPut(|cookie|) && item.Bytes() == cookie
      modifies this`log, inbuf, inbuf.buf
      ensures FlowOk() && put == (old(Room()) >= |cookie|)
      ensures log == if put then old(log) + [item] else old(log)
      ensures Stream() == if put then old(Stream()) + cookie else old(Stream())
    {
      hide Flatten, Minus, Plus, Ring.Contents, NoCr, Ring.Valid, Memory.Valid;
      assert Room() == RING_SIZE - |inbuf.Contents()|;
      NoWrap(|Stream()|, |cookie|);
      var left := inbuf.Putm(cookie);
      put := left >= 0;
      if put {
        Associative(written, old(inbuf.Contents()), cookie);
        FlattenMore(log, item);
        log := log + [item];
      }
    }

    /** Lines 613-615: put the EOF cookie. */
    method PutEofCookie()
      requires Valid() && MayPut(|EOF_COOKIE|)
      modifies this`sendEof, this`log, inbuf, inbuf.buf
      ensures Valid()
      ensures var put := old(sendEof) && !partialLineSent && old(Room()) >= |EOF_COOKIE|;
              && log == (if put then old(log) + [EofCookie] else old(log)) && sendEof == (old(sendEof) && !put)
              && Stream() == (if put then old(Stream()) + EOF_COOKIE else old(Stream()))
              && Room() == old(Room()) - (if put then |EOF_COOKIE| else 0)
      ensures receiver.Value() == old(receiver.Value())
    {
      hide LogOk, Flatten, Ring.Contents, Ring.Valid, Memory.Valid;
      if sendEof && !partialLineSent {
        var put := PutCookie(EOF_COOKIE, EofCookie);
        if put {
          LogEofCookie(old(log), eofs);
          sendEof := false;
        }
      }
    }

    /** Lines 616-624: put the interrupt cookie. */
    method PutIntrCookie()
      requires Valid() && MayPut(|INTR_COOKIE|)
      modifies this`log, inbuf, inbuf.buf, receiver`sendIntr, receiver`inputFd
      ensures Valid()
      // With the cookie, a batch file is aborted
      ensures var put := old(receiver.sendIntr) && !partialLineSent && old(Room()) >= |INTR_COOKIE|;
              && log == (if put then old(log) + [IntrCookie] else old(log))
              && receiver.sendIntr == (old(receiver.sendIntr) && !put)
              && receiver.inputFd == (if put then 0 else old(receiver.inputFd))
              && Stream() == (if put then old(Stream()) + INTR_COOKIE else old(Stream()))
              && receiver.Value() == old(receiver.Value())
    {
      hide LogOk, Flatten, Ring.Contents, Ring.Valid, Memory.Valid;
      if receiver.sendIntr && !partialLineSent {
        var put := PutCookie(INTR_COOKIE, IntrCookie);
        if put {
          LogIntrCookie(old(log), sendEof, eofs);
          receiver.sendIntr := false;
          if receiver.inputFd != 0 {
            receiver.inputFd := 0;
          }
        }
      }
    }

    /** Lines 651-652: remember whether the last byte put completes a line. */
    method UpdatePartial()
      requires FlowOk() && receiver.Valid() && inbuf.Contents() != []
      requires LogOk(log, inbuf.Contents()[|inbuf.Contents()| - 1] != NEWLINE, sendEof, eofs)
      modifies this`partialLineSent
      ensures Valid() && partialLineSent == (inbuf.Contents()[|inbuf.Contents()| - 1] != NEWLINE)
    {
      hide Flatten, Minus, Plus, Ring.Contents, Memory.Valid, NoCr, LogOk;
      var len := inbuf.Len();
      if len > 0 {
        var ch := inbuf.Peek(-1);
        assert ch == inbuf.Peeked(-1);
        partialLineSent := ch != NEWLINE;
      }
    }

    /** recv_input: afterwards, only partial_line_sent may be wrong. */
    method Receive(file: seq<Byte>, count: int) returns (n: int)
      requires Valid() && MayPut(RING_SIZE)
      requires count <= |file| && count <= RING_SIZE - |inbuf.Contents()| && |inbuf.Contents()| < RING_SIZE
      requires count > 0 ==> LinesShort(Stream() + file[..count])
      modifies this`log, inbuf, inbuf.buf
      ensures n == count && FlowOk() && receiver.Valid() && receiver.Value() == old(receiver.Value())
      ensures n <= 0 ==> log == old(log) && Valid()
      ensures |Stream()| <= old(|Stream()|) + RING_SIZE
      ensures n > 0 ==> log == old(log) + [Data(file[..n])] && inbuf.Contents() == old(inbuf.Contents()) + file[..n]
      ensures n > 0 ==> LogOk(log, file[n - 1] != NEWLINE, sendEof, eofs)
    {
      hide LogOk, Flatten, Minus, Plus, Ring.Contents, Ring.Valid, Memory.Valid, NoCr, LinesShort;
      n := inbuf.FromFile(file, count);
      if n > 0 {
        FlattenMore(log, Data(file[..n]));
        LogData(log, partialLineSent, sendEof, eofs, file[..n]);
        NoWrap(|Stream()|, n);
        log := log + [Data(file[..n])];
      }
    }

    /** Lines 632-650: there is no more to read. */
    method EndOfInput(failed: bool)
      requires Valid() && !sendEof
      modifies this`sendEof, this`eofFd0, this`eofs, receiver`sendIntr, receiver`inputFd
      ensures Valid() && (sendEof ==> eofs == old(eofs) + 1)
      ensures Look() == AfterEnd(old(Look()), failed)
    {
      hide LogOk, Flatten, Minus, Plus, Ring.Contents, Ring.Valid, Memory.Valid, NoCr;
      LogEnd(log, partialLineSent, eofs);
      if receiver.inputFd != 0 {
        if failed {
          receiver.sendIntr := true;
        } else {
          sendEof := true;
          eofs := eofs + 1;
        }
        receiver.inputFd := 0;
      } else {
        sendEof := true;
        eofs := eofs + 1;
        eofFd0 := true;
        receiver.sendIntr := false;
      }
    }

    /** recv_output, which may end the batch file or switch to another one. */
    method ReceiveOutput(chunk: seq<Byte>)
      requires Valid()
      modifies receiver, receiver.lbuf, receiver.lbuf.line
      ensures Valid() && log == old(log) && written == old(written)
      ensures var (p, more) := Run(old(receiver.Value()), chunk);
              receiver.Value() == p && receiver.events == old(receiver.events) + more
      ensures Receives(old(Look()), chunk, Look())
    {
      hide LogOk, Flatten, Minus, Plus, Ring.Contents, Run, ResultsFit, AfterCalls;
      receiver.RecvOutput(chunk);
    }

    /** Line 515: take one byte from the ring. */
    method TakeByte() returns (ch: Byte)
      requires Valid() && inbuf.Contents() != []
      modifies this`written, inbuf`cons
      ensures ch == old(inbuf.Contents()[0]) && written == old(written) + [ch]
      ensures inbuf.Valid() && inbuf.Contents() == old(inbuf.Contents())[1..] && inbuf.cons == |written|
      ensures Stream() == written + inbuf.Contents()
      ensures NoCr(written) == memory.history + (if ch == CR then [] else [ch])
    {
      hide LogOk, Flatten, Minus, Plus, Ring.Contents, Ring.Valid, Memory.Valid, NoCr;
      ghost var q := inbuf.Contents();
      NoWrap(|written|, 1);
      var c := inbuf.Getc();
      assert c != EOF;
      ch := c;
      FirstMoved(written, q);
      NoCrOfConcat(written, [ch]);
      NoCrOne(ch);
      written := written + [ch];
    }

    /** Lines 515-518: take one byte from the ring, and remember it unless it is a carriage return. */
    method SendByte()
      requires Valid() && inbuf.Contents() != []
      modifies this`written, inbuf`cons, memory, memory.recent, memory.recent.buf
      ensures Valid()
      ensures written == old(written) + [old(inbuf.Contents()[0])]
      ensures inbuf.Contents() == old(inbuf.Contents())[1..]
    {
      hide LogOk, Flatten, Minus, Plus, Ring.Contents, MemoryStart, NoCr, Memory.Valid;
      var ch := TakeByte();
      if ch != CR {
        MayRemember(log, partialLineSent, sendEof, eofs, written, inbuf.Contents(), memory.history, ch);
        Remember(ch);
      } else {
        assert memory.history + [] == memory.history;
      }
    }

    /** Lines that fit leave something to forget. */
    method Remember(ch: Byte)
      requires memory.Valid() && LinesFit(memory.history + [ch]) && |memory.history| + 1 + RING_SIZE < UINT_SIZE
      modifies memory, memory.recent, memory.recent.buf
      ensures memory.Valid() && memory.history == old(memory.history) + [ch]
    {
      hide LinesFit, Trips, Memory.Valid;
      AssertionFailsExactlyWhen(memory.history + [ch]);
      memory.SaveInput(ch);
    }

    /** writev writes res bytes. */
    method SendBytes(res: nat)
      requires Valid() && inbuf.Valid() && res <= |inbuf.Contents()|
      modifies this`written, inbuf`cons, memory, memory.recent, memory.recent.buf
      ensures Valid() && inbuf.Valid()
      ensures written == old(written) + old(inbuf.Contents())[..res]
      ensures inbuf.Contents() == old(inbuf.Contents())[res..]
    {
      hide *;
      ghost var q, w := inbuf.Contents(), written;
      assert q[0..] == q && w + q[..0] == w;
      var i := 0;
      while i < res
        invariant 0 <= i <= res && Valid() && inbuf.Valid()
        invariant written == w + q[..i] && inbuf.Contents() == q[i..]
      {
        SendByte();
        RingIsValid();
        OneMoreSent(w, q, i);
        i := i + 1;
      }
    }

    lemma Remembers()
      requires Valid()
      ensures memory.history == NoCr(written) && inbuf.Valid()
    {
    }

    /** send_input, where writev writes res bytes. */
    method SendInput(res: nat)
      requires Valid() && res <= |inbuf.Contents()|
      modifies this`written, inbuf`cons, memory, memory.recent, memory.recent.buf
      ensures Valid()
      ensures written == old(written) + old(inbuf.Contents())[..res]
      ensures inbuf.Contents() == old(inbuf.Contents())[res..]
      // Exactly the bytes written are remembered, minus carriage returns
      ensures memory.history == old(memory.history) + NoCr(old(inbuf.Contents())[..res])
    {
      Remembers();
      hide *;
      NoCrOfConcat(written, inbuf.Contents()[..res]);
      var iov := inbuf.ToIovec();
      SendBytes(res);
      Remembers();
    }

    /** Lines 593-595: is player input wanted? */
    method WantsInput() returns (wanted: bool)
      requires Valid()
      ensures wanted <==> !receiver.sendIntr && !sendEof && !(receiver.inputFd == 0 && eofFd0) && Room() > 0
    {
      var space := inbuf.Space();
      wanted := !receiver.sendIntr && !sendEof && (receiver.inputFd != 0 || !eofFd0) && space > 0;
    }

    /** What the environment decides in a round. */
    method NextEnv() returns (env: Env)
      requires Valid()
      ensures InputFits(env, Stream())
    {
      env := Env(true, false, false, [], -1, 0, []);
    }

    /** Lines 610-624: put what cookies there are to put. */
    method PutCookies() returns (ghost tail: seq<Byte>)
      requires Valid() && MayPut(RING_SIZE)
      modifies this`sendEof, this`partialLineSent, this`log, inbuf, inbuf.buf, receiver`sendIntr, receiver`inputFd
      ensures Valid() && |Stream()| <= old(|Stream()|) + 16
      ensures log == old(log) + Cookies(old(partialLineSent), old(sendEof), old(receiver.sendIntr), old(Room()))
      ensures sendEof == (old(sendEof) && EofCookie !in log[|old(log)|..])
      ensures receiver.sendIntr == (old(receiver.sendIntr) && IntrCookie !in log[|old(log)|..])
      ensures !old(sendEof) ==> tail in TAILS && Stream() == old(Stream()) + tail
      ensures partialLineSent == (old(partialLineSent) && Newline !in log[|old(log)|..])
      ensures receiver.inputFd == if IntrCookie in log[|old(log)|..] then 0 else old(receiver.inputFd)
      ensures receiver.Value() == old(receiver.Value())
    {
      hide *;
      ghost var log0, eof0, intr0 := log, sendEof, receiver.sendIntr;
      ghost var newline, eof, intr;
      newline, eof, intr, tail := PutDue();
      assert log[|log0|..] == Put(newline, eof, intr);
      InPut(newline, eof, intr);
    }

    /** A signal may come; then cookies are put. */
    method FirstHalf(signal: bool)
      returns (wanted: bool, fd: int, wantsOutput: bool, ghost tail: seq<Byte>)
      requires Valid() && MayPut(RING_SIZE)
      modifies this`sendEof, this`partialLineSent, this`log, inbuf, inbuf.buf, receiver`sendIntr, receiver`inputFd
      ensures Valid() && |Stream()| <= old(|Stream()|) + 16
      ensures wanted == old(Look().WantsInput()) && wantsOutput == old(Look().WantsOutput())
      ensures fd == old(receiver.inputFd) && Look() == AfterCookies(AfterSignal(old(Look()), signal))
      ensures wanted ==> !sendEof && tail in TAILS && Stream() == old(Stream()) + tail
    {
      LookIs();
      WantsAre();
      SignalIs(Look(), signal);
      hide *;
      StreamIs();
      wanted, fd, wantsOutput := StartRound(signal);
      StreamIs();
      LookIs();
      tail := DoCookies();
    }

    /** The same as PutCookies. */
    method DoCookies() returns (ghost tail: seq<Byte>)
      requires Valid() && MayPut(RING_SIZE)
      modifies this`sendEof, this`partialLineSent, this`log, inbuf, inbuf.buf, receiver`sendIntr, receiver`inputFd
      ensures Valid() && |Stream()| <= old(|Stream()|) + 16 && Look() == AfterCookies(old(Look()))
      ensures !old(sendEof) ==> !sendEof && tail in TAILS && Stream() == old(Stream()) + tail
    {
      InView();
      LookIs();
      CookiesIs(Look());
      hide *;
      tail := PutCookies();
      LookIs();
    }

    lemma StreamIs()
      ensures Stream() == Flatten(log) && (forall k: nat :: MayPut(k) <==> |Stream()| + k + RING_SIZE < UINT_SIZE)
    {
    }

    /** The same, cookie by cookie. */
    method PutDue() returns (ghost newline: bool, ghost eof: bool, ghost intr: bool, ghost tail: seq<Byte>)
      requires Valid() && MayPut(RING_SIZE)
      modifies this`sendEof, this`partialLineSent, this`log, inbuf, inbuf.buf, receiver`sendIntr, receiver`inputFd
      ensures Valid() && |Stream()| <= old(|Stream()|) + 16
      ensures Due(old(partialLineSent), old(sendEof), old(receiver.sendIntr), old(Room())) == (newline, eof, intr)
      ensures Put(newline, eof, intr)
              == Cookies(old(partialLineSent), old(sendEof), old(receiver.sendIntr), old(Room()))
      ensures log == old(log) + Put(newline, eof, intr)
      ensures sendEof == (old(sendEof) && !eof) && receiver.sendIntr == (old(receiver.sendIntr) && !intr)
      ensures !old(sendEof) ==> tail in TAILS && Stream() == old(Stream()) + tail
      ensures partialLineSent == (old(partialLineSent) && !newline)
      ensures receiver.inputFd == if intr then 0 else old(receiver.inputFd)
      ensures receiver.Value() == old(receiver.Value())
    {
      hide Player.Valid, Stream, Room, Cookies, Receiver.Value;
      ghost var s0, log0 := Stream(), log;
      ghost var due := Due(partialLineSent, sendEof, receiver.sendIntr, Room());
      newline, eof, intr := due.0, due.1, due.2;
      CookiesAreDue(partialLineSent, sendEof, receiver.sendIntr, Room());
      CompleteLine();
      ghost var s1 := Stream();
      PutEofCookie();
      PutIntrCookie();
      PutInTurn(log0, newline, eof, intr);
      tail := [];
      if !eof {
        tail := Tail(s0, s1, Stream());
      }
    }

    /**
     Lines 630-652: read player input.  The read fails (count < 0), meets the end
     of the file (0), or delivers the next count bytes of it, as far as there is room.
     */
    method ReadInput(file: seq<Byte>, count: int)
      // Input is read only while no EOF cookie is to be sent
      requires Valid() && MayPut(RING_SIZE) && !sendEof && Room() > 0 && count <= |file|
      requires count > 0 ==> LinesShort(Stream() + file[..if count > Room() then Room() else count])
      modifies this`sendEof, this`partialLineSent, this`eofFd0, this`log, this`eofs
      modifies inbuf, inbuf.buf, receiver`sendIntr, receiver`inputFd
      ensures Valid() && |Stream()| <= old(|Stream()|) + RING_SIZE
      ensures Look() == AfterRead(old(Look()), file, count)
    {
      hide *;
      RoomIs();
      ghost var v := Look();
      var space := inbuf.Space();
      var n := if count > space then space else count;
      ReadIs(v, file, count, n);
      var res := ReceiveData(file, n);
      Received(file, res);
    }

    /** The same as Receive, and what it means for the view. */
    method ReceiveData(file: seq<Byte>, count: int) returns (n: int)
      requires Valid() && MayPut(RING_SIZE) && !sendEof
      requires count <= |file| && count <= RING_SIZE - |inbuf.Contents()| && |inbuf.Contents()| < RING_SIZE
      requires count > 0 ==> LinesShort(Stream() + file[..count])
      modifies this`log, inbuf, inbuf.buf
      ensures n == count && FlowOk() && receiver.Valid() && |Stream()| <= old(|Stream()|) + RING_SIZE
      ensures n <= 0 ==> Valid()
      ensures n > 0 ==> inbuf.Contents() != [] && inbuf.Contents()[|inbuf.Contents()| - 1] == file[n - 1]
                        && LogOk(log, file[n - 1] != NEWLINE, sendEof, eofs)
      ensures var v := old(Look()); Look() == if n > 0 then v.(log := v.log + [Data(file[..n])]) else v
    {
      LookIs();
      FileEnds(inbuf.Contents(), file, count);
      hide *;
      n := Receive(file, count);
      LookIsSo();
    }

    /** Lines 631-652: what the result of a read leads to. */
    method Received(file: seq<Byte>, res: int)
      requires FlowOk() && receiver.Valid() && res <= |file|
      requires res <= 0 ==> Valid() && !sendEof
      requires res > 0 ==> inbuf.Contents() != [] && inbuf.Contents()[|inbuf.Contents()| - 1] == file[res - 1]
                           && LogOk(log, file[res - 1] != NEWLINE, sendEof, eofs)
      modifies this`sendEof, this`partialLineSent, this`eofFd0, this`eofs, receiver`sendIntr, receiver`inputFd
      ensures Valid() && Stream() == old(Stream())
      ensures Look() == if res > 0 then old(Look()).(partial := file[res - 1] != NEWLINE)
                        else AfterEnd(old(Look()), res < 0)
    {
      LookIsSo();
      StreamIs();
      hide *;
      if res <= 0 {
        EndOfInput(res < 0);
      } else {
        UpdatePartial();
      }
      LookIs();
      StreamIs();
    }

    lemma RoomIs()
      requires Valid()
      ensures receiver.Valid() && inbuf.Valid() && Look().Room() == Room() == RING_SIZE - |inbuf.Contents()| >= 0
    {
    }

    lemma StillOk()
      requires FlowOk()
      ensures inbuf.Valid()
    {
    }

    lemma LookIsSo()
      requires receiver.Valid()
      ensures Look() == View(log, written, sendEof, partialLineSent, eofFd0, receiver.inputFd, receiver.sendIntr,
                             receiver.Value(), receiver.events, receiver.results)
    {
    }

    lemma LookIs()
      requires Valid()
      ensures receiver.Valid()
      ensures Look() == View(log, written, sendEof, partialLineSent, eofFd0, receiver.inputFd, receiver.sendIntr,
                             receiver.Value(), receiver.events, receiver.results)
    {
    }

    /** Lines 628-653: read player input if it was wanted and is there. */
    method ReadIfReady(env: Env, wanted: bool, fd: int, ghost s0: seq<Byte>, ghost tail: seq<Byte>)
      requires Valid() && MayPut(RING_SIZE) && env.count <= |env.file|
      requires wanted ==> !sendEof && tail in TAILS && Stream() == s0 + tail && InputFits(env, s0)
      modifies this`sendEof, this`partialLineSent, this`eofFd0, this`log, this`eofs
      modifies inbuf, inbuf.buf, receiver`sendIntr, receiver`inputFd
      ensures Valid() && |Stream()| <= old(|Stream()|) + RING_SIZE && old(Room()) >= 0
      ensures var ready := wanted && env.inputReady && old(receiver.inputFd) == fd && old(Room()) > 0;
              Look() == if ready then AfterRead(old(Look()), env.file, env.count) else old(Look())
    {
      InView();
      hide LogOk, Flatten, Minus, Plus, Ring.Contents, FlowOk, LinesShort, View.Unsent, View.Room, AfterRead;
      if wanted && env.inputReady && receiver.inputFd == fd {
        var space := inbuf.Space();
        if space > 0 {
          ReadInput(env.file, env.count);
        }
      }
    }

    /** Lines 585-609: what to wait for, and a signal that may come meanwhile. */
    method StartRound(signal: bool) returns (wanted: bool, fd: int, wantsOutput: bool)
      requires Valid()
      modifies receiver`sendIntr
      ensures Valid() && receiver.sendIntr == (old(receiver.sendIntr) || (signal && !eofFd0))
      ensures wanted == old(Look().WantsInput()) && wantsOutput == old(Look().WantsOutput())
      ensures fd == old(receiver.inputFd) && Look() == AfterSignal(old(Look()), signal)
    {
      InView();
      WantsAre();
      hide *;
      wanted := WantsInput();
      fd := receiver.inputFd;
      var len := inbuf.Len();
      wantsOutput := receiver.sendIntr || sendEof || len > 0;
      Signal(signal);
    }

    lemma WantsAre()
      requires Valid()
      ensures Look().WantsInput() <==>
                !receiver.sendIntr && !sendEof && !(receiver.inputFd == 0 && eofFd0) && Room() > 0
      ensures Look().WantsOutput() <==> receiver.sendIntr || sendEof || |inbuf.Contents()| > 0
    {
      InView();
      hide Player.Valid, Stream, Flatten, View.Unsent, View.Room;
    }

    /** intr */
    method Signal(signal: bool)
      requires Valid()
      modifies receiver`sendIntr
      ensures Valid() && Look() == AfterSignal(old(Look()), signal)
    {
      hide LogOk, FlowOk;
      if signal && !eofFd0 {
        receiver.sendIntr := true;
      }
    }

    /** One round of the loop (lines 585-675). */
    method Round(env: Env)
      requires Valid() && MayPut(2 * RING_SIZE) && InputFits(env, Stream())
      modifies this, inbuf, inbuf.buf, memory, memory.recent, memory.recent.buf
      modifies receiver, receiver.lbuf, receiver.lbuf.line
      ensures Valid()
      ensures |Stream()| <= old(|Stream()|) + 2 * RING_SIZE
      // Everything is as the phases say, and what has been written is remembered
      ensures RoundTaken(old(Look()), env, Look())
      ensures memory.history == NoCr(written)
    {
      Remembers();
      hide *;
      StreamIs();
      FitsCount(env, Stream());
      ghost var s0, v := Stream(), Look();
      LookIs();
      var wanted, fd, wantsOutput;
      ghost var tail;
      wanted, fd, wantsOutput, tail := FirstHalf(env.signal);
      ghost var cookies := Look();
      RoundIs(v, env, cookies);
      if env.failed {
        Remembers();
        return;
      }
      SecondHalf(env, wanted, fd, wantsOutput, s0, tail);
      Remembers();
    }

    /** Input is read if it was wanted and is there, then sent; and output is received. */
    method SecondHalf(env: Env, wanted: bool, fd: int, wantsOutput: bool, ghost s0: seq<Byte>, ghost tail: seq<Byte>)
      requires Valid() && MayPut(RING_SIZE) && env.count <= |env.file|
      requires wanted ==> !sendEof && tail in TAILS && Stream() == s0 + tail && InputFits(env, s0)
      modifies this, inbuf, inbuf.buf, memory, memory.recent, memory.recent.buf
      modifies receiver, receiver.lbuf, receiver.lbuf.line
      ensures Valid() && |Stream()| <= old(|Stream()|) + RING_SIZE && old(Look().Room()) >= 0
      ensures var c := old(Look());
              var ready := wanted && env.inputReady && c.inputFd == fd && c.Room() > 0;
              Receives(AfterSend(if ready then AfterRead(c, env.file, env.count) else c, wantsOutput, env.taken),
                       env.chunk, Look())
    {
      InView();
      LookIs();
      hide *;
      ReadIfReady(env, wanted, fd, s0, tail);
      StreamIs();
      ghost var read := Look();
      Exchange(env, wantsOutput);
      StreamIs();
    }

    lemma RingIsValid()
      requires Valid()
      ensures inbuf.Valid()
    {
    }

    lemma NotShared()
      requires Valid()
      ensures receiver.lbuf.line != inbuf.buf && receiver.lbuf.line != memory.recent.buf
    {
    }

    /** Lines 655-663: send input to the server. */
    method SendIfWanted(wantsOutput: bool, taken: nat)
      requires Valid()
      modifies this`written, inbuf`cons, memory, memory.recent, memory.recent.buf
      ensures Valid() && log == old(log)
      ensures written == old(written) + Taken(wantsOutput, taken, old(inbuf.Contents()))
      ensures receiver.Value() == old(receiver.Value()) && receiver.events == old(receiver.events)
      ensures Look() == AfterSend(old(Look()), wantsOutput, taken)
    {
      InView();
      NotShared();
      LookIs();
      ghost var v := Look();
      SendIs(v, wantsOutput, taken);
      TakenIs(wantsOutput, taken, inbuf.Contents());
      hide *;
      if wantsOutput {
        var len := inbuf.Len();
        SendInput(if taken > len then len else taken);
      }
      LookIs();
    }

    /** Lines 655-675: send input to the server, and receive output. */
    method Exchange(env: Env, wantsOutput: bool)
      requires Valid()
      modifies this`written, inbuf`cons, memory, memory.recent, memory.recent.buf
      modifies receiver, receiver.lbuf, receiver.lbuf.line
      ensures Valid() && log == old(log)
      ensures written == old(written) + Taken(wantsOutput, env.taken, old(inbuf.Contents()))
      ensures var (p, more) := Run(old(receiver.Value()), env.chunk);
              receiver.Value() == p && receiver.events == old(receiver.events) + more
      ensures Receives(AfterSend(old(Look()), wantsOutput, env.taken), env.chunk, Look())
    {
      hide *;
      SendIfWanted(wantsOutput, env.taken);
      ReceiveOutput(env.chunk);
    }
  }

  lemma TakenIs(wantsOutput: bool, taken: nat, unsent: seq<Byte>)
    ensures Taken(wantsOutput, taken, unsent) ==
            if wantsOutput then unsent[..if taken > |unsent| then |unsent| else taken] else []
  {
  }

  /** What a server that takes some bytes of what there is gets of it. */
  function Taken(wantsOutput: bool, taken: nat, unsent: seq<Byte>): seq<Byte> {
    if wantsOutput then unsent[..Min(taken, |unsent|)] else []
  }

  /** Whether newline, EOF cookie and interrupt cookie are put in a round, given what is due and the room there is. */
  function Due(partial: bool, eof: bool, intr: bool, room: int): (bool, bool, bool) {
    var newline := (eof || intr) && partial && room >= 1;
    var room := if newline then room - 1 else room;
    var complete := newline || !partial;
    var eof := eof && complete && room >= |EOF_COOKIE|;
    var room := if eof then room - |EOF_COOKIE| else room;
    var intr := intr && complete && room >= |INTR_COOKIE|;
    (newline, eof, intr)
  }

  function Put(newline: bool, eof: bool, intr: bool): seq<Item> {
    if newline then [Newline] + CookiesPut(eof, intr) else CookiesPut(eof, intr)
  }

  function CookiesPut(eof: bool, intr: bool): seq<Item> {
    if eof && intr then [EofCookie, IntrCookie] else if eof then [EofCookie] else if intr then [IntrCookie] else []
  }

  /** The cookies put in a round. */
  function Cookies(partial: bool, eof: bool, intr: bool, room: int): seq<Item> {
    var (newline, eof, intr) := Due(partial, eof, intr, room);
    Put(newline, eof, intr)
  }

  lemma CookiesAreDue(partial: bool, eof: bool, intr: bool, room: int)
    ensures var d := Due(partial, eof, intr, room); Cookies(partial, eof, intr, room) == Put(d.0, d.1, d.2)
  {
  }

  lemma PutInTurn(log: seq<Item>, newline: bool, eof: bool, intr: bool)
    ensures var a := if newline then log + [Newline] else log;
            var b := if eof then a + [EofCookie] else a;
            log + Put(newline, eof, intr) == if intr then b + [IntrCookie] else b
  {
    var a := if newline then log + [Newline] else log;
    assert a + CookiesPut(eof, intr) == log + Put(newline, eof, intr);
    if eof && intr {
      assert a + [EofCookie] + [IntrCookie] == a + [EofCookie, IntrCookie];
    }
  }

  lemma InPut(newline: bool, eof: bool, intr: bool)
    ensures var put := Put(newline, eof, intr);
            (EofCookie in put <==> eof) && (IntrCookie in put <==> intr) && (Newline in put <==> newline)
  {
  }

  /** No item more than once. */
  ghost predicate Once(items: seq<Item>) {
    forall i, j :: 0 <= i < j < |items| ==> items[i] != items[j]
  }

  lemma OnceMore(item: Item, items: seq<Item>)
    requires Once(items) && item !in items
    ensures Once([item] + items) && ([item] + items)[0] == item && ([item] + items)[1..] == items
  {
  }

  lemma CookiesInOrder(eof: bool, intr: bool)
    ensures var put := CookiesPut(eof, intr); Once(put) && Newline !in put
    ensures eof && intr ==> CookiesPut(eof, intr) == [EofCookie, IntrCookie]
  {
  }

  /** Each cookie is put once, EOF first, after the newline. */
  lemma PutInOrder(newline: bool, eof: bool, intr: bool)
    ensures var put := Put(newline, eof, intr);
            && Once(put)
            && (newline ==> put[0] == Newline && put[1..] == CookiesPut(eof, intr))
            && (!newline ==> put == CookiesPut(eof, intr))
            && (eof && intr ==> CookiesPut(eof, intr) == [EofCookie, IntrCookie])
  {
    hide Once, CookiesPut;
    CookiesInOrder(eof, intr);
    if newline {
      OnceMore(Newline, CookiesPut(eof, intr));
    }
  }

  lemma NothingLacking(partial: bool, eof: bool, intr: bool, room: int)
    requires room >= 1 + |EOF_COOKIE| + |INTR_COOKIE|
    ensures Cookies(partial, eof, intr, room) == Put((eof || intr) && partial, eof, intr)
  {
    hide Put;
  }

  /** Cookies that are due are put as soon as there is room for all of them, each once, on a new line, EOF first. */
  lemma DueCookiesArePut(partial: bool, eof: bool, intr: bool, room: int)
    requires room >= 1 + |EOF_COOKIE| + |INTR_COOKIE|
    ensures var put := Cookies(partial, eof, intr, room);
            && (EofCookie in put <==> eof) && (IntrCookie in put <==> intr)
            && (Newline in put <==> partial && (eof || intr))
            && Once(put)
            && (Newline in put ==> put[0] == Newline)
            && (eof && intr ==> put[if Newline in put then 1 else 0..] == [EofCookie, IntrCookie])
  {
    NothingLacking(partial, eof, intr, room);
    hide Put, Cookies, Once;
    InPut((eof || intr) && partial, eof, intr);
    PutInOrder((eof || intr) && partial, eof, intr);
  }

  /** Whatever cookie may come before it, input read in a round keeps the stream's lines short. */
  ghost predicate InputFits(env: Env, stream: seq<Byte>) {
    && env.count <= |env.file|
    && forall k, tail | 0 < k <= env.count && tail in TAILS :: LinesShort(stream + tail + env.file[..k])
  }

  lemma FitsCount(env: Env, stream: seq<Byte>)
    requires InputFits(env, stream)
    ensures env.count <= |env.file|
  {
  }

  /** From the start, each round leads from one view to the next. */
  ghost predicate PlayTrace(views: seq<View>, envs: seq<Env>) {
    && |views| == |envs| + 1 && views[0] == View([], [], false, false, false, 0, false, Scanning([]), [], [])
    && forall t :: 0 <= t < |envs| ==> RoundTaken(views[t], envs[t], views[t + 1])
  }

  /**
   play(), for any number of rounds, and whatever the environment does, until so
   much has been put that the ring's counters might wrap around.
   */
  method Play(rounds: nat) returns (p: Player, done: nat, ghost views: seq<View>, ghost envs: seq<Env>)
    ensures p.Valid() && done <= rounds && (done == rounds || !p.MayPut(2 * RING_SIZE))
    ensures |envs| == done && PlayTrace(views, envs) && p.Look() == views[done]
    ensures p.memory.history == NoCr(p.written)
  {
    hide Player.Valid, Flatten, Player.Look, RoundTaken, PlayTrace;
    p := new Player();
    done := 0;
    views, envs := [p.Look()], [];
    TraceStarts(p.Look());
    p.LookIs();
    p.Remembers();
    while done < rounds
      invariant 0 <= done <= rounds && p.Valid() && p.memory.history == NoCr(p.written)
      invariant |envs| == done && |views| == done + 1 && PlayTrace(views, envs)
      invariant p.receiver.Valid() && p.Look() == views[done]
    {
      PutIsCounted(p);
      if p.inbuf.prod + 3 * RING_SIZE >= UINT_SIZE {
        return;
      }
      var env := p.NextEnv();
      p.Round(env);
      p.LookIs();
      TraceGoesOn(views, envs, env, p.Look());
      views, envs := views + [p.Look()], envs + [env];
      done := done + 1;
    }
  }

  lemma TraceStarts(v: View)
    requires v == View([], [], false, false, false, 0, false, Scanning([]), [], [])
    ensures PlayTrace([v], [])
  {
  }

  lemma TraceGoesOn(views: seq<View>, envs: seq<Env>, env: Env, v: View)
    requires PlayTrace(views, envs) && RoundTaken(views[|envs|], env, v)
    ensures PlayTrace(views + [v], envs + [env])
  {
    hide RoundTaken;
  }

  lemma PutIsCounted(p: Player)
    requires p.Valid()
    ensures p.inbuf.prod == |p.Stream()|
  {
  }

  /** What cookies have added to the stream. */
  lemma Tail(s0: seq<Byte>, s1: seq<Byte>, s2: seq<Byte>) returns (tail: seq<Byte>)
    requires s1 == s0 || s1 == s0 + [NEWLINE]
    requires s2 == s1 || s2 == s1 + INTR_COOKIE
    ensures tail in TAILS && s2 == s0 + tail
  {
    if s1 == s0 {
      tail := if s2 == s1 then [] else INTR_COOKIE;
    } else {
      tail := if s2 == s1 then [NEWLINE] else [NEWLINE] + INTR_COOKIE;
      assert s0 + [NEWLINE] + INTR_COOKIE == s0 + ([NEWLINE] + INTR_COOKIE);
    }
    assert s0 + [] == s0;
  }

  const TAILS: set<seq<Byte>> := {[], [NEWLINE], INTR_COOKIE, [NEWLINE] + INTR_COOKIE}

  /**
   What the environment decides in a round: whether select is interrupted and by
   a signal, whether input is ready and what a read of it yields, how many bytes
   the server takes, and what output it has sent.
   */
  datatype Env = Env(failed: bool, signal: bool, inputReady: bool, file: seq<Byte>, count: int, taken: nat,
                     chunk: seq<Byte>)

  /** The next byte to be remembered does not make a line too long. */
  lemma MayRemember(log: seq<Item>, partial: bool, sendEof: bool, eofs: nat,
                    written: seq<Byte>, rest: seq<Byte>, h: seq<Byte>, ch: Byte)
    requires LogOk(log, partial, sendEof, eofs) && Flatten(log) == written + rest && NoCr(written) == h + [ch]
    ensures LinesFit(h + [ch])
  {
    hide LinesFit, Flatten, CookiesOnOwnLine, EofCookies;
    NoCrOfConcat(written, rest);
    assert NoCr(written + rest) + [NEWLINE] == (h + [ch]) + (NoCr(rest) + [NEWLINE]);
    PrefixFits(h + [ch], NoCr(rest) + [NEWLINE]);
  }
}
