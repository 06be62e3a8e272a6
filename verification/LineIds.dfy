/**
 What IDs of output lines mean: numbers in base 36, as the server writes them,
 and as parseid reads them.  The IDs themselves are those of proto.h.
 */
module LineIds {
  import opened RingBuf
  import opened Output

  /** The character ch stands for digit d in base 36. */
  ghost predicate StandsFor(ch: Byte, d: int) {
    if 0 <= d < 10 then ch == '0' as int + d
    else 10 <= d < 36 && (ch == 'a' as int + (d - 10) || ch == 'A' as int + (d - 10))
  }

  /** The number with these digits in base 36. */
  ghost function Number(digits: seq<nat>): nat {
    if digits == [] then 0 else 36 * Number(digits[..|digits| - 1]) + digits[|digits| - 1]
  }

  /** A number's digits. */
  ghost function DigitsOf(n: nat): (digits: seq<nat>)
    ensures digits != [] && forall i :: 0 <= i < |digits| ==> digits[i] < 36
  {
    if n < 36 then [n] else DigitsOf(n / 36) + [n % 36]
  }

  lemma {:induction false} NumberOfDigits(n: nat)
    ensures Number(DigitsOf(n)) == n
  {
    if n < 36 {
      assert [n][..0] == [];
    } else {
      NumberOfDigits(n / 36);
      assert (DigitsOf(n / 36) + [n % 36])[..|DigitsOf(n / 36)|] == DigitsOf(n / 36);
    }
  }

  /** The text is these digits, in lower or upper case. */
  ghost predicate Spells(text: seq<Byte>, digits: seq<nat>) {
    |text| == |digits| && forall i :: 0 <= i < |text| ==> StandsFor(text[i], digits[i])
  }

  lemma DigitMeans(ch: Byte, d: int)
    ensures StandsFor(ch, d) <==> Digit(ch) == d < 36
  {
  }

  lemma {:induction false} ValueIsNumber(text: seq<Byte>, digits: seq<nat>)
    requires Spells(text, digits)
    ensures Value(text) == Number(digits)
  {
    hide Digit, StandsFor;
    if text != [] {
      var last := |text| - 1;
      DigitMeans(text[last], digits[last]);
      ValueIsNumber(text[..last], digits[..last]);
    }
  }

  /** There are no more leading digits than up to the first other character. */
  lemma {:induction false} DigitsEnd(s: seq<Byte>, k: nat)
    requires k <= |s| && (forall i :: 0 <= i < k ==> Digit(s[i]) < 36) && (k < |s| ==> Digit(s[k]) == 36)
    ensures Digits(s) == k
  {
    hide Digit;
    if k > 0 {
      DigitsEnd(s[1..], k - 1);
    }
  }

  /** The text starts with neither blanks nor a sign. */
  ghost predicate Plain(text: seq<Byte>) {
    text != [] ==> text[0] != ' ' as int && !(9 <= text[0] <= 13) && text[0] != '+' as int && text[0] != '-' as int
  }

  lemma PlainUnchanged(line: seq<Byte>)
    requires Plain(line) && line != []
    ensures SkipBlanks(line) == line && line[0] != 43 && line[0] != 45
  {
  }

  lemma SpellsPlain(text: seq<Byte>, digits: seq<nat>)
    requires Spells(text, digits)
    ensures Plain(text) && SPACE !in text && NEWLINE !in text
  {
    assert forall i :: 0 <= i < |text| ==> text[i] >= 48;
  }

  /** A number followed by a space is the ID, if it is not too large. */
  lemma ParseIdOfNumber(text: seq<Byte>, digits: seq<nat>)
    requires Spells(text, digits) && text != []
    ensures ParseId(text + [SPACE]) == if Number(digits) <= 0xE then Number(digits) else -1
  {
    var line := text + [SPACE];
    SpellsPlain(text, digits);
    hide Digit, Digits, StandsFor, SkipBlanks, Value;
    PlainUnchanged(line);
    forall i | 0 <= i < |text|
      ensures Digit(line[i]) < 36
    {
      DigitMeans(text[i], digits[i]);
    }
    DigitMeans(SPACE, Digit(SPACE));
    SpaceIsNoDigit();
    DigitsEnd(line, |text|);
    assert line[0..] == line && line[0..|text|] == text;
    ValueIsNumber(text, digits);
  }

  lemma SpaceIsNoDigit()
    ensures Digit(SPACE) == 36
  {
  }

  /** Any number n, in either case, is read back as itself if there is such an ID. */
  lemma IdRoundTrip(n: nat, text: seq<Byte>)
    requires Spells(text, DigitsOf(n))
    ensures ParseId(text + [SPACE]) == if n <= 0xE then n else -1
  {
    NumberOfDigits(n);
    ParseIdOfNumber(text, DigitsOf(n));
  }

  /** Anything else before the space is malformed: nothing, or a character that is no digit. */
  lemma MalformedId(text: seq<Byte>)
    requires Plain(text) && SPACE !in text && (text == [] || exists i :: 0 <= i < |text| && NoDigit(text[i]))
    ensures ParseId(text + [SPACE]) == -1
  {
    var line := text + [SPACE];
    hide Digit, Digits, SkipBlanks, Value, NoDigit;
    SpaceIsNoDigit();
    if text == [] {
      OnlySpace();
      DigitsEnd([], 0);
    } else {
      PlainUnchanged(line);
      var i :| 0 <= i < |text| && NoDigit(text[i]);
      NoDigitMeans(text[i]);
      var k := FirstOther(text);
      DigitsEnd(line, k);
      assert line[0..] == line;
    }
  }

  ghost predicate NoDigit(ch: Byte) {
    forall d | 0 <= d < 36 :: !StandsFor(ch, d)
  }

  lemma NoDigitMeans(ch: Byte)
    ensures NoDigit(ch) <==> Digit(ch) == 36
  {
    hide Digit, StandsFor;
    DigitMeans(ch, Digit(ch));
    DigitRange(ch);
    forall d | 0 <= d < 36
      ensures StandsFor(ch, d) <==> Digit(ch) == d
    {
      DigitMeans(ch, d);
    }
  }

  lemma DigitRange(ch: Byte)
    ensures 0 <= Digit(ch) <= 36
  {
  }

  lemma OnlySpace()
    ensures SkipBlanks([] + [SPACE]) == []
  {
    assert ([] + [SPACE])[1..] == [];
  }

  /** The first character that is no digit. */
  lemma {:induction false} FirstOther(text: seq<Byte>) returns (k: nat)
    requires exists i :: 0 <= i < |text| && Digit(text[i]) == 36
    ensures k < |text| && Digit(text[k]) == 36 && forall i :: 0 <= i < k ==> Digit(text[i]) < 36
  {
    hide Digit;
    k := 0;
    if Digit(text[0]) != 36 {
      DigitRange(text[0]);
      var i :| 0 <= i < |text| && Digit(text[i]) == 36;
      assert text[1..][i - 1] == text[i];
      var j := FirstOther(text[1..]);
      k := j + 1;
    }
  }

  /** Blanks other than spaces before the ID are skipped. */
  lemma BlankSkipped(ch: Byte, line: seq<Byte>)
    requires 9 <= ch <= 13
    ensures ParseId([ch] + line) == ParseId(line)
  {
    assert ([ch] + line)[1..] == line;
  }

  /** A sign is read as such; a negative number is no ID of a command. */
  lemma SignedId(text: seq<Byte>, digits: seq<nat>)
    requires Spells(text, digits) && text != []
    ensures ParseId(['+' as int] + text + [SPACE]) == ParseId(text + [SPACE])
    ensures ParseId(['-' as int] + text + [SPACE]) == 0 - Number(digits)
  {
    ParseIdOfNumber(text, digits);
    ValueIsNumber(text, digits);
    hide *;
    AllDigits(text, digits);
    AfterSign('+' as int, text);
    AfterSign('-' as int, text);
  }

  lemma AllDigits(text: seq<Byte>, digits: seq<nat>)
    requires Spells(text, digits)
    ensures Digits(text + [SPACE]) == |text|
  {
    var line := text + [SPACE];
    hide StandsFor, Digit, Digits;
    forall i | 0 <= i < |text|
      ensures Digit(line[i]) < 36
    {
      DigitMeans(text[i], digits[i]);
    }
    SpaceIsNoDigit();
    DigitsEnd(line, |text|);
  }

  lemma AfterSign(sign: Byte, text: seq<Byte>)
    requires sign == '+' as int || sign == '-' as int
    requires text != [] && Digits(text + [SPACE]) == |text|
    ensures var id := if sign == '-' as int then 0 - Value(text) else Value(text);
            ParseId([sign] + text + [SPACE]) == if id > C_LAST then -1 else id
  {
    SignSplit(sign, text);
    hide Digits, Value, SkipBlanks, ParseId;
    SignRead([sign] + text + [SPACE], |text|);
  }

  lemma SignRead(s: seq<Byte>, n: nat)
    requires 0 < n < |s| - 1 && SkipBlanks(s) == s && (s[0] == '+' as int || s[0] == '-' as int)
    requires Digits(s[1..]) == n && s[1 + n] == SPACE
    ensures var v := Value(s[1..1 + n]);
            var id := if s[0] == '-' as int then 0 - v else v;
            ParseId(s) == if id > C_LAST then -1 else id
  {
    hide Digits, Value, SkipBlanks;
  }

  lemma SignSplit(sign: Byte, text: seq<Byte>)
    requires sign == '+' as int || sign == '-' as int
    ensures var s := [sign] + text + [SPACE];
            && s[1..] == text + [SPACE] && s[1..1 + |text|] == text && s[1 + |text|] == SPACE && |s| == |text| + 2
            && SkipBlanks(s) == s && s[0] == sign
  {
  }

  /** IDs whose lines are passed to servercmd: exit, flush, prompt, redir, pipe, execute, flash and inform. */
  lemma CommandIds(id: int)
    ensures IsCommand(id) <==> id == 0x3 || id == 0x4 || id == 0x6 || 0x8 <= id <= 0x9 || 0xC <= id <= 0xE
  {
  }

  /**
   A line that starts with a number and a space is passed to servercmd with just
   that number, or copied to the screen.
   */
  lemma LineWithId(n: nat, id: seq<Byte>, text: seq<Byte>)
    requires Spells(id, DigitsOf(n))
    ensures ParseLine(id + [SPACE] + text) ==
            if n in {0x3, 0x4, 0x6, 0x8, 0x9, 0xC, 0xD, 0xE}
            then [ServerCmd(n, text + [NEWLINE], |text| + 1)] else Outchs(text + [NEWLINE])
  {
    var l := id + [SPACE] + text;
    SpellsPlain(id, DigitsOf(n));
    hide ParseId, IsCommand, Outchs, StandsFor, FindSpace;
    FirstSpace(l, |id|);
    assert l[..|id| + 1] == id + [SPACE] && l[|id| + 1..] == text;
    if |id| + 1 <= LBUF_LEN_MAX - 2 {
      IdRoundTrip(n, id);
      assert LineId(l, |id|) == ParseId(id + [SPACE]);
    } else {
      TruncatedId(n, id);
      SmallIsShort(n);
    }
    CommandIds(LineId(l, |id|));
  }

  lemma FirstSpace(l: seq<Byte>, k: nat)
    requires k < |l| && l[k] == SPACE && SPACE !in l[..k]
    ensures FindSpace(l) == k
  {
    hide FindSpace;
    var j := FindSpace(l);
    assert forall i | 0 <= i < k :: l[i] == l[..k][i] != SPACE;
    assert forall i | 0 <= i < j :: l[i] == l[..j][i] != SPACE;
  }

  lemma SmallIsShort(n: nat)
    ensures n <= 0xE ==> |DigitsOf(n)| == 1
  {
  }

  /** An ID too long for the line buffer loses its space. */
  lemma TruncatedId(n: nat, id: seq<Byte>)
    requires Spells(id, DigitsOf(n)) && |id| + 1 > LBUF_LEN_MAX - 2
    ensures ParseId(Truncated(id + [SPACE])) == -1
  {
    var s := id[..LBUF_LEN_MAX - 2];
    SpellsPlain(id, DigitsOf(n));
    hide Digit, Digits, StandsFor, SkipBlanks, Value;
    assert Truncated(id + [SPACE]) == s;
    PlainUnchanged(s);
    forall i | 0 <= i < |s|
      ensures Digit(s[i]) < 36
    {
      DigitMeans(id[i], DigitsOf(n)[i]);
    }
    DigitsEnd(s, |s|);
    assert s[0..] == s;
  }
}
