/** The transparency filters for DATA content (internal/smtpwire/dotstuff.go,
section 4.5.2 of RFC 5321).

A character stands for one octet.  `Wire` says what the writer must emit for a
whole message and `Unstuff` what the reader must make of a whole octet stream;
the filters are proved to agree with them however the octets are divided among
`Write` and `Read` calls.
*/
module DotStuffing {
  import opened Prelude

  const CRLF := "\r\n"
  const TERMINATOR := ".\r\n"

  // ------------------------------------------------------------ what is sent

  /** The octets that the first unit of `s` takes: two for a CRLF, one otherwise. */
  function Unit(s: string): (n: nat)
    requires s != []
    ensures 1 <= n <= |s|
  {
    if s[0] == '\r' && |s| > 1 && s[1] == '\n' then 2 else 1
  }

  /** What the first unit of a text becomes. */
  function Piece(c: char): string {
    if c == '\r' || c == '\n' then CRLF else [c]
  }

  /** Every line ending (CRLF, bare CR or bare LF) becomes CRLF. */
  function Normalized(s: string): string {
    if s == [] then [] else Piece(s[0]) + Normalized(s[Unit(s)..])
  }

  /** A missing final line ending is supplied. */
  function Closed(s: string): string {
    if s == [] || s[|s| - 1] == '\n' then s else s + CRLF
  }

  function Stuff(c: char, atLineStart: bool): string {
    if atLineStart && c == '.' then ".." else [c]
  }

  /** Doubles the dot that begins a line. */
  function Stuffed(s: string, atLineStart: bool): string {
    if s == [] then [] else Stuff(s[0], atLineStart) + Stuffed(s[1..], s[0] == '\n')
  }

  function Wire(content: string): string {
    Stuffed(Closed(Normalized(content)), true) + TERMINATOR
  }

  /** CR and LF occur only as CRLF; `afterCR` tells whether a CR precedes `s`. */
  predicate OnlyCrlf(s: string, afterCR: bool) {
    if s == [] then !afterCR
    else if s[0] == '\n' then afterCR && OnlyCrlf(s[1..], false)
    else !afterCR && OnlyCrlf(s[1..], s[0] == '\r')
  }

  /** Every CR is followed by LF and every LF preceded by CR. */
  ghost predicate NoBareLineEnding(s: string) {
    && (forall i :: 0 <= i < |s| && s[i] == '\r' ==> i + 1 < |s| && s[i + 1] == '\n')
    && (forall i :: 0 <= i < |s| && s[i] == '\n' ==> 0 < i && s[i - 1] == '\r')
  }

  /** Every dot that begins a line is followed by another. */
  predicate DotsDoubled(s: string, atLineStart: bool) {
    if s == [] then true
    else
      && (atLineStart && s[0] == '.' ==> |s| > 1 && s[1] == '.')
      && DotsDoubled(s[1..], s[0] == '\n')
  }

  /** The line starting at `i` is a lone dot. */
  ghost predicate LoneDotAt(s: string, i: int) {
    && 0 <= i && i + 2 < |s| && (i == 0 || s[i - 1] == '\n')
    && s[i] == '.' && s[i + 1] == '\r' && s[i + 2] == '\n'
  }

  lemma {:induction false} NormalizedAppend(a: string, b: string)
    requires a == [] || a[|a| - 1] != '\r' || b == [] || b[0] != '\n'
    ensures Normalized(a + b) == Normalized(a) + Normalized(b)
  {
    if a == [] {
      assert a + b == b;
    } else {
      var k := Unit(a);
      NormalizedAppend(a[k..], b);
      DropAppend(a, b, k);
      Assoc(Piece(a[0]), Normalized(a[k..]), Normalized(b));
    }
  }

  lemma {:induction false} NormalizedOnlyCrlf(s: string)
    ensures OnlyCrlf(Normalized(s), false)
  {
    if s != [] {
      var rest := Normalized(s[Unit(s)..]);
      NormalizedOnlyCrlf(s[Unit(s)..]);
      if s[0] == '\r' || s[0] == '\n' {
        assert (CRLF + rest)[1..] == "\n" + rest && ("\n" + rest)[1..] == rest;
      } else {
        assert ([s[0]] + rest)[1..] == rest;
      }
    }
  }

  /** Text that already ends its lines with CRLF is sent as it is. */
  lemma {:induction false} NormalizedKeepsCrlfText(s: string)
    requires OnlyCrlf(s, false)
    ensures Normalized(s) == s
  {
    if s != [] {
      if s[0] == '\r' {
        assert s[1..] != [] && s[1..][0] == s[1] && s[1..][1..] == s[2..];
        assert s == CRLF + s[2..];
      }
      NormalizedKeepsCrlfText(s[Unit(s)..]);
    }
  }

  // -------------------------------------------------------- what is received

  datatype Ending = EndOfData | BareLF | Malformed | Truncated

  datatype Unstuffed = Unstuffed(content: string, ending: Ending, rest: string)

  /** What the reader makes of the octets `src` before the peer's end of stream. */
  function Unstuff(src: string, atLineStart: bool, previousCR: bool): Unstuffed
    decreases |src|
  {
    if src == [] then Unstuffed([], Truncated, [])
    else if atLineStart && src[0] == '.' then
      if |src| == 1 then Unstuffed([], Truncated, [])
      else if src[1] == '\r' then
        if |src| == 2 then Unstuffed([], Truncated, [])
        else Unstuffed([], if src[2] == '\n' then EndOfData else Malformed, src[3..])
      else if src[1] == '\n' then Unstuffed([], BareLF, src[1..])
      else Unstuff(src[1..], false, previousCR)
    else if !atLineStart && previousCR && src[0] == '.' && AmbiguousAfterDot(src).Some? then
      Unstuffed([], AmbiguousAfterDot(src).value, src[1..])
    else
      Prepend(src[0], Unstuff(src[1..], src[0] == '\n', src[0] == '\r'))
  }

  function Prepend(c: char, u: Unstuffed): Unstuffed { u.(content := [c] + u.content) }

  /** A dot after a bare CR that another implementation could take for the terminator. */
  function AmbiguousAfterDot(src: string): Option<Ending>
    requires src != []
  {
    if |src| == 1 then Some(Truncated)
    else if src[1] == '\n' then Some(Malformed)
    else if src[1] == '\r' && |src| == 2 then Some(Truncated)
    else if src[1] == '\r' && src[2] == '\n' then Some(Malformed)
    else None
  }

  lemma UnstuffTerminator(suffix: string)
    ensures Unstuff(TERMINATOR + suffix, true, false) == Unstuffed([], EndOfData, suffix)
  {
    var w := TERMINATOR + suffix;
    assert w[0] == '.' && w[1] == '\r' && w[2] == '\n' && w[3..] == suffix;
  }

  lemma {:induction false} UnstuffStuffed(s: string, atLineStart: bool, previousCR: bool, suffix: string)
    requires OnlyCrlf(s, previousCR)
    requires if s == [] then atLineStart else s[|s| - 1] == '\n'
    requires previousCR ==> !atLineStart
    ensures Unstuff(Stuffed(s, atLineStart) + (TERMINATOR + suffix), atLineStart, previousCR)
         == Unstuffed(s, EndOfData, suffix)
  {
    var tail := TERMINATOR + suffix;
    if s == [] {
      UnstuffTerminator(suffix);
      AppendEmpty(tail);
    } else {
      var head, rest := Stuff(s[0], atLineStart), Stuffed(s[1..], s[0] == '\n');
      UnstuffStuffed(s[1..], s[0] == '\n', s[0] == '\r', suffix);
      Assoc(head, rest, tail);
      UnstuffHead(s[0], rest + tail, atLineStart, previousCR);
      HeadTail(s);
    }
  }

  /** One octet of content, stuffed or not, is passed on. */
  lemma UnstuffHead(c: char, rest: string, atLineStart: bool, previousCR: bool)
    requires previousCR ==> !atLineStart && c == '\n'
    ensures Unstuff(Stuff(c, atLineStart) + rest, atLineStart, previousCR)
         == Prepend(c, Unstuff(rest, c == '\n', c == '\r'))
  {
    var w := Stuff(c, atLineStart) + rest;
    if atLineStart && c == '.' {
      assert w[1..] == ['.'] + rest && (['.'] + rest)[1..] == rest;
    } else {
      assert w[1..] == rest;
    }
  }

  lemma ClosedText(content: string)
    ensures var s := Closed(Normalized(content));
            OnlyCrlf(s, false) && (s == [] || s[|s| - 1] == '\n')
  {
    NormalizedOnlyCrlf(content);
    var s := Normalized(content);
    if Closed(s) != s {
      assert OnlyCrlf(CRLF, false) by {
        assert CRLF[1..] == "\n" && "\n"[1..] == "";
      }
      OnlyCrlfAppend(s, false, CRLF);
    }
  }

  lemma {:induction false} OnlyCrlfAppend(a: string, afterCR: bool, b: string)
    requires OnlyCrlf(a, afterCR) && OnlyCrlf(b, false)
    ensures OnlyCrlf(a + b, afterCR)
  {
    if a == [] {
      assert a + b == b;
    } else {
      assert (a + b)[1..] == a[1..] + b;
      OnlyCrlfAppend(a[1..], a[0] == '\r', b);
    }
  }

  /** The reader recovers the CRLF-normalised content and leaves the next command unread. */
  lemma UnstuffWire(content: string, suffix: string)
    ensures Unstuff(Wire(content) + suffix, true, false) == Unstuffed(Closed(Normalized(content)), EndOfData, suffix)
  {
    ClosedText(content);
    var s := Closed(Normalized(content));
    UnstuffStuffed(s, true, false, suffix);
    Assoc(Stuffed(s, true), TERMINATOR, suffix);
  }

  /** An end of data, once seen, is not affected by what follows. */
  lemma {:induction false} EndIsStable(w: string, extra: string, atLineStart: bool, previousCR: bool)
    requires Unstuff(w, atLineStart, previousCR).ending == EndOfData
    ensures var u := Unstuff(w, atLineStart, previousCR);
            Unstuff(w + extra, atLineStart, previousCR) == u.(rest := u.rest + extra)
  {
    DropAppend(w, extra, 1);
    if atLineStart && w[0] == '.' {
      if w[1] == '\r' {
        DropAppend(w, extra, 3);
      } else {
        EndIsStable(w[1..], extra, false, previousCR);
      }
    } else {
      EndIsStable(w[1..], extra, w[0] == '\n', w[0] == '\r');
    }
  }

  /** No proper part of a message is ever taken for the whole. */
  lemma IncompleteNeverEnds(content: string, sent: string)
    requires sent < Wire(content)
    ensures Unstuff(sent, true, false).ending != EndOfData
  {
    if Unstuff(sent, true, false).ending == EndOfData {
      var extra := Wire(content)[|sent|..];
      assert sent + extra == Wire(content) && Wire(content) + [] == Wire(content);
      EndIsStable(sent, extra, true, false);
      UnstuffWire(content, []);
    }
  }

  // ------------------------------------------------------ shape of the wire

  lemma {:induction false} StuffedShape(s: string, atLineStart: bool, afterCR: bool)
    requires OnlyCrlf(s, afterCR)
    requires s == [] || s[|s| - 1] == '\n'
    ensures OnlyCrlf(Stuffed(s, atLineStart), afterCR)
    ensures DotsDoubled(Stuffed(s, atLineStart), atLineStart)
    ensures var w := Stuffed(s, atLineStart); if s == [] then w == [] else w != [] && w[|w| - 1] == '\n'
  {
    if s != [] {
      StuffedShape(s[1..], s[0] == '\n', s[0] == '\r');
      var w, rest := Stuffed(s, atLineStart), Stuffed(s[1..], s[0] == '\n');
      if atLineStart && s[0] == '.' {
        assert w[1..] == "." + rest && w[1..][1..] == rest;
      } else {
        assert w[1..] == rest;
      }
    }
  }

  lemma {:induction false} OnlyCrlfMeans(s: string, afterCR: bool)
    requires OnlyCrlf(s, afterCR)
    ensures forall i :: 0 <= i < |s| && s[i] == '\r' ==> i + 1 < |s| && s[i + 1] == '\n'
    ensures forall i :: 0 <= i < |s| && s[i] == '\n' ==> if i == 0 then afterCR else s[i - 1] == '\r'
  {
    if s != [] {
      OnlyCrlfMeans(s[1..], s[0] == '\r');
      assert s == [s[0]] + s[1..];
    }
  }

  lemma {:induction false} DotsDoubledMeans(s: string, atLineStart: bool, i: nat)
    requires DotsDoubled(s, atLineStart)
    requires i < |s| && s[i] == '.' && if i == 0 then atLineStart else s[i - 1] == '\n'
    ensures i + 1 < |s| && s[i + 1] == '.'
  {
    if i != 0 {
      DotsDoubledMeans(s[1..], s[0] == '\n', i - 1);
    }
  }

  lemma TerminatorShape()
    ensures OnlyCrlf(TERMINATOR, false)
  {
    assert TERMINATOR[1..] == CRLF && CRLF[1..] == "\n" && "\n"[1..] == "";
  }

  lemma LoneDots(w: string)
    requires DotsDoubled(w, true) && (w == [] || w[|w| - 1] == '\n')
    ensures forall i :: LoneDotAt(w + TERMINATOR, i) <==> i == |w|
  {
    var all := w + TERMINATOR;
    assert all[|w|] == '.' && all[|w| + 1] == '\r' && all[|w| + 2] == '\n';
    forall i | LoneDotAt(all, i) ensures i == |w| {
      if i < |w| {
        DotsDoubledMeans(w, true, i);
      }
    }
  }

  /** What is sent has no bare CR or LF, and the only line that is a lone dot is the last. */
  lemma WireIsSafe(content: string)
    ensures NoBareLineEnding(Wire(content))
    ensures forall i :: LoneDotAt(Wire(content), i) <==> i == |Wire(content)| - 3
  {
    ClosedText(content);
    var s := Closed(Normalized(content));
    StuffedShape(s, true, false);
    var w := Stuffed(s, true);
    TerminatorShape();
    OnlyCrlfAppend(w, false, TERMINATOR);
    OnlyCrlfMeans(w + TERMINATOR, false);
    LoneDots(w);
  }

  // ------------------------------------------------------------- the writer

  predicate LineStartAfter(s: string, atLineStart: bool) {
    if s == [] then atLineStart else s[|s| - 1] == '\n'
  }

  lemma {:induction false} StuffedAppend(a: string, b: string, atLineStart: bool)
    ensures Stuffed(a + b, atLineStart) == Stuffed(a, atLineStart) + Stuffed(b, LineStartAfter(a, atLineStart))
  {
    if a == [] {
      assert a + b == b;
    } else {
      StuffedAppend(a[1..], b, a[0] == '\n');
      DropAppend(a, b, 1);
      Assoc(Stuff(a[0], atLineStart), Stuffed(a[1..], a[0] == '\n'), Stuffed(b, LineStartAfter(a, atLineStart)));
    }
  }

  lemma {:induction false} StuffedLast(s: string, atLineStart: bool)
    requires s != []
    ensures var w := Stuffed(s, atLineStart); w != [] && w[|w| - 1] == s[|s| - 1]
  {
    if |s| > 1 {
      StuffedLast(s[1..], s[0] == '\n');
    }
  }

  ghost predicate IsLiteral(s: string) {
    forall i :: 0 <= i < |s| ==> s[i] != '\r' && s[i] != '\n'
  }

  lemma {:induction false} NormalizedLiteral(s: string)
    requires IsLiteral(s)
    ensures Normalized(s) == s
  {
    if s != [] {
      NormalizedLiteral(s[1..]);
    }
  }

  lemma {:induction false} StuffedLiteral(s: string)
    requires IsLiteral(s)
    ensures Stuffed(s, false) == s
  {
    if s != [] {
      StuffedLiteral(s[1..]);
    }
  }

  lemma SentAfterEnding(body: string, ending: string)
    requires ending in {"\r", "\n", "\r\n"}
    requires ending == "\n" ==> body == [] || body[|body| - 1] != '\r'
    ensures Normalized(body + ending) == Normalized(body) + CRLF
    ensures Stuffed(Normalized(body + ending), true) == Stuffed(Normalized(body), true) + CRLF
  {
    NormalizedAppend(body, ending);
    assert Normalized(ending) == CRLF;
    StuffedCrlf(LineStartAfter(Normalized(body), true));
    StuffedAppend(Normalized(body), CRLF, true);
  }

  lemma StuffedCrlf(atLineStart: bool)
    ensures Stuffed(CRLF, atLineStart) == CRLF
  {
    assert CRLF[1..] == "\n" && "\n"[1..] == "";
    assert Stuffed("\n", false) == "\n";
  }

  lemma StuffedRun(run: string, atLineStart: bool)
    requires IsLiteral(run) && run != []
    ensures Stuffed(run, atLineStart) == if atLineStart && run[0] == '.' then ".." + run[1..] else run
  {
    if atLineStart && run[0] == '.' {
      StuffedLiteral(run[1..]);
    } else {
      StuffedLiteral(run);
    }
  }

  lemma SentAfterLiteral(body: string, chunk: string)
    requires IsLiteral(chunk) && chunk != []
    ensures Normalized(body + chunk) == Normalized(body) + chunk
    ensures Stuffed(Normalized(body + chunk), true)
         == Stuffed(Normalized(body), true)
            + if LineStartAfter(Normalized(body), true) && chunk[0] == '.' then ".." + chunk[1..] else chunk
  {
    NormalizedAppend(body, chunk);
    NormalizedLiteral(chunk);
    StuffedAppend(Normalized(body), chunk, true);
    StuffedRun(chunk, LineStartAfter(Normalized(body), true));
  }

  datatype WriterState = WriterState(
    out: string, pendingCR: bool, atLineStart: bool, wroteAny: bool, lastByte: char)

  /** The state of a writer that has emitted exactly the lines of `body`. */
  function After(body: string): WriterState {
    var w := Stuffed(Normalized(body), true);
    WriterState(w, false, LineStartAfter(Normalized(body), true), w != [], if w == [] then '\0' else w[|w| - 1])
  }

  /** The state of a writer that has accepted `done`; a CR that ends it is held back. */
  function Holding(done: string): WriterState {
    if EndsInCR(done) then After(done[..|done| - 1]).(pendingCR := true) else After(done)
  }

  predicate EndsInCR(s: string) { s != [] && s[|s| - 1] == '\r' }

  lemma AfterEnding(body: string, ending: string)
    requires ending in {"\r", "\n", "\r\n"}
    requires ending == "\n" ==> !EndsInCR(body)
    ensures After(body + ending) == WriterState(After(body).out + CRLF, false, true, true, '\n')
  {
    SentAfterEnding(body, ending);
  }

  lemma AfterPlain(body: string, chunk: string)
    requires IsLiteral(chunk) && chunk != [] && !(After(body).atLineStart && chunk[0] == '.')
    ensures After(body + chunk) == WriterState(After(body).out + chunk, false, false, true, chunk[|chunk| - 1])
  {
    SentAfterLiteral(body, chunk);
    LastOfPlain(After(body).out, chunk);
  }

  lemma LastOfPlain(out: string, chunk: string)
    requires chunk != []
    ensures var w := out + chunk; w != [] && w[|w| - 1] == chunk[|chunk| - 1]
  {
  }

  lemma AfterDotted(body: string, chunk: string)
    requires IsLiteral(chunk) && chunk != [] && After(body).atLineStart && chunk[0] == '.'
    ensures After(body + chunk)
         == WriterState((After(body).out + "..") + chunk[1..], false, false, true, chunk[|chunk| - 1])
  {
    SentAfterLiteral(body, chunk);
    Assoc(After(body).out, "..", chunk[1..]);
    LastOfDotted(After(body).out, chunk);
  }

  lemma LastOfDotted(out: string, chunk: string)
    requires chunk != [] && chunk[0] == '.'
    ensures var w := (out + "..") + chunk[1..]; w != [] && w[|w| - 1] == chunk[|chunk| - 1]
  {
  }

  lemma WireAfter(content: string)
    ensures var w := After(content);
            Wire(content) == (if w.wroteAny && w.lastByte != '\n' then w.out + CRLF else w.out) + TERMINATOR
  {
    var s := Normalized(content);
    if s != [] {
      StuffedLast(s, true);
      StuffedAppend(s, CRLF, true);
      StuffedCrlf(false);
    }
  }

  /** What has been sent before the end is never the whole message. */
  lemma HoldingIsIncomplete(content: string)
    ensures Holding(content).out < Wire(content)
  {
    WireAfter(content);
    if EndsInCR(content) {
      AfterEnding(content[..|content| - 1], "\r");
      MostLast(content);
    }
  }

  /** No part of what is sent before the end is read as a whole message. */
  lemma HoldingNeverEnds(content: string, received: string)
    requires received <= Holding(content).out
    ensures Unstuff(received, true, false).ending != EndOfData
  {
    HoldingIsIncomplete(content);
    IncompleteNeverEnds(content, received);
  }

  /** The line ending that a held CR and the octet after it make. */
  lemma HeldEnding(done: string, c: char)
    requires EndsInCR(done)
    ensures done[..|done| - 1] + (if c == '\n' then "\r\n" else "\r") == if c == '\n' then done + [c] else done
  {
  }

  lemma FirstOf(done: string, q: string)
    requires q != []
    ensures done + q[..0] == done && done + q[..1] == done + [q[0]] <= done + q
  {
  }

  lemma RunWithin(done: string, q: string, i: nat)
    requires i <= |q|
    ensures done + q[..0] == done && done + q[..i] <= done + q
  {
  }

  lemma PrefixOfBoth(a: string, b: string, c: string, k: nat)
    requires k <= |b|
    ensures a <= a + b[..k] <= (a + b) + c
  {
  }

  /** A CR that is held back has not been sent. */
  lemma HoldingBelowAfter(done: string)
    ensures Holding(done).out <= After(done).out
  {
    if EndsInCR(done) {
      MostLast(done);
      AfterEnding(done[..|done| - 1], "\r");
    }
  }

  /** What follows a resolved CR comes after its line ending. */
  lemma AfterBelowHolding(done: string, c: char)
    requires !(EndsInCR(done) && c == '\n')
    ensures After(done).out <= Holding(done + [c]).out
  {
    if c == '\r' {
      TakeMost(done, c);
    } else if c == '\n' {
      AfterEnding(done, "\n");
    } else if After(done).atLineStart && c == '.' {
      AfterDotted(done, [c]);
    } else {
      AfterPlain(done, [c]);
    }
  }

  lemma HoldingGrowsByOne(done: string, c: char)
    ensures Holding(done).out <= Holding(done + [c]).out
  {
    HoldingBelowAfter(done);
    if EndsInCR(done) && c == '\n' {
      AfterEnding(done[..|done| - 1], "\r\n");
      HeldEnding(done, c);
    } else {
      AfterBelowHolding(done, c);
    }
  }

  /** Accepting more only adds to what was sent. */
  lemma {:induction false} HoldingGrows(done: string, more: string)
    ensures Holding(done).out <= Holding(done + more).out
    decreases |more|
  {
    if more == [] {
      AppendEmpty(done);
    } else {
      var most, c := more[..|more| - 1], more[|more| - 1];
      HoldingGrows(done, most);
      HoldingGrowsByOne(done + most, c);
      MostLast(more);
      Assoc(done, most, [c]);
    }
  }

  /** The writer failed while `text` was written: part of what all of it makes the filter send went
      out, and at least what its first `low` octets make it send. */
  ghost predicate CutShort(text: string, low: nat, out: string) {
    low <= |text| && Holding(text[..low]).out <= out <= Holding(text).out
  }

  /** Two texts between which a writer failed. */
  datatype Cut = Cut(base: string, aim: string)

  ghost predicate Between(cut: Cut, out: string) { Holding(cut.base).out <= out <= Holding(cut.aim).out }

  lemma BetweenIsShort(cut: Cut, text: string, low: nat, out: string)
    requires Between(cut, out) && low <= |text| && cut.base == text[..low] && cut.aim <= text
    ensures CutShort(text, low, out)
  {
    HoldingGrows(cut.aim, text[|cut.aim|..]);
    assert cut.aim + text[|cut.aim|..] == text;
  }

  lemma TakeThrough(a: string, b: string, k: nat)
    requires k <= |b|
    ensures (a + b)[..|a| + k] == a + b[..k]
  {
  }

  method IndexCROrLF(p: string) returns (i: int)
    ensures -1 <= i < |p|
    ensures i == -1 ==> IsLiteral(p)
    ensures i >= 0 ==> IsLiteral(p[..i]) && (p[i] == '\r' || p[i] == '\n')
  {
    i := 0;
    while i < |p|
      invariant 0 <= i <= |p| && IsLiteral(p[..i])
    {
      if p[i] == '\r' || p[i] == '\n' {
        return;
      }
      assert p[..i + 1] == p[..i] + [p[i]];
      i := i + 1;
    }
    assert p[..i] == p;
    i := -1;
  }

  class DotStuffWriter {
    /** What the underlying writer has received. */
    var out: string
    /** What it will take before it fails; none if it never does. */
    var room: Option<nat>
    var pendingCR: bool
    var atLineStart: bool
    var wroteAny: bool
    var lastByte: char
    var closed: bool
    /** Everything given to `Write` so far. */
    ghost var content: string

    ghost function State(): WriterState
      reads this
    {
      WriterState(out, pendingCR, atLineStart, wroteAny, lastByte)
    }

    ghost predicate Open()
      reads this
    {
      !closed && State() == Holding(content)
    }

    ghost predicate Finished()
      reads this
    {
      closed && out == Wire(content)
    }

    ghost predicate Valid()
      reads this
    {
      Open() || Finished()
    }

    constructor (room: Option<nat>)
      ensures Open() && content == [] && this.room == room
    {
      this.room, out, content := room, [], [];
      pendingCR, atLineStart, wroteAny, closed := false, true, false, false;
      lastByte := '\0';
    }

    /** The underlying writer takes all of `octets`, or what it has room for and fails. */
    method Send(octets: string) returns (ok: bool)
      modifies `out, `room
      ensures ok <==> old(room).None? || |octets| <= old(room).value
      ensures out == old(out) + if ok then octets else octets[..old(room).value]
      ensures old(room).None? ==> room.None?
    {
      if room.None? {
        out := out + octets;
        return true;
      }
      if |octets| <= room.value {
        out, room := out + octets, Some(room.value - |octets|);
        return true;
      }
      out, room := out + octets[..room.value], Some(0);
      return false;
    }

    method EmitCRLF(ghost body: string, ghost ending: string) returns (ok: bool)
      requires State() == After(body) && ending in {"\r", "\n", "\r\n"}
      requires ending == "\n" ==> !EndsInCR(body)
      modifies `out, `room, `atLineStart, `wroteAny, `lastByte
      ensures ok ==> State() == After(body + ending)
      ensures !ok ==> old(out) <= out <= After(body + ending).out
      ensures old(room).None? ==> ok && room.None?
    {
      AfterEnding(body, ending);
      ok := Send(CRLF);
      if ok {
        atLineStart, wroteAny, lastByte := true, true, '\n';
      }
    }

    /** A run that begins with a dot at a line start: the dot is doubled. */
    method EmitDotted(chunk: string, ghost body: string) returns (ok: bool)
      requires State() == After(body) && IsLiteral(chunk) && chunk != [] && atLineStart && chunk[0] == '.'
      modifies `out, `room, `atLineStart, `wroteAny, `lastByte
      ensures ok ==> State() == After(body + chunk)
      ensures !ok ==> old(out) <= out <= After(body + chunk).out
      ensures old(room).None? ==> ok && room.None?
    {
      AfterDotted(body, chunk);
      var rest := chunk[1..];
      ghost var before, left := out, room;
      ok := Send("..");
      if !ok {
        PrefixOfBoth(before, "..", rest, left.value);
        return;
      }
      atLineStart, wroteAny, lastByte := false, true, '.';
      ok := SendRest(rest);
    }

    /** What follows the doubled dot. */
    method SendRest(rest: string) returns (ok: bool)
      modifies `out, `room, `lastByte
      ensures ok ==> out == old(out) + rest
      ensures ok ==> lastByte == if rest == [] then old(lastByte) else rest[|rest| - 1]
      ensures !ok ==> old(out) <= out <= old(out) + rest
      ensures old(room).None? ==> ok && room.None?
    {
      AppendEmpty(out);
      ok := true;
      if |rest| != 0 {
        ok := Send(rest);
        if ok {
          lastByte := rest[|rest| - 1];
        }
      }
    }

    method EmitPlain(chunk: string, ghost body: string) returns (ok: bool)
      requires State() == After(body) && IsLiteral(chunk) && chunk != [] && !(atLineStart && chunk[0] == '.')
      modifies `out, `room, `atLineStart, `wroteAny, `lastByte
      ensures ok ==> State() == After(body + chunk)
      ensures !ok ==> old(out) <= out <= After(body + chunk).out
      ensures old(room).None? ==> ok && room.None?
    {
      AfterPlain(body, chunk);
      ok := Send(chunk);
      if ok {
        atLineStart, wroteAny, lastByte := false, true, chunk[|chunk| - 1];
      }
    }

    method EmitLiteral(chunk: string, ghost body: string) returns (ok: bool)
      requires State() == After(body) && IsLiteral(chunk)
      modifies `out, `room, `atLineStart, `wroteAny, `lastByte
      ensures ok ==> State() == After(body + chunk)
      ensures !ok ==> chunk != [] && old(out) <= out <= After(body + chunk).out
      ensures old(room).None? ==> ok && room.None?
    {
      if |chunk| == 0 {
        AppendEmpty(body);
        ok := true;
      } else if atLineStart && chunk[0] == '.' {
        ok := EmitDotted(chunk, body);
      } else {
        ok := EmitPlain(chunk, body);
      }
    }

    /** A run without line endings. */
    method TakeLiteral(run: string, ghost done: string) returns (ok: bool, ghost cut: Cut)
      requires State() == After(done) && IsLiteral(run)
      modifies `out, `room, `atLineStart, `wroteAny, `lastByte
      ensures cut == Cut(done, done + run) && (old(room).None? ==> ok && room.None?)
      ensures ok ==> State() == After(done + run)
      ensures !ok ==> Between(cut, out)
    {
      cut := Cut(done, done + run);
      ok := EmitLiteral(run, done);
      if !ok {
        LiteralCut(done, run, old(out), out);
      }
    }

    /** Takes a run of content octets from `q` and the CR or LF that ends it, if there is one. */
    method TakeRun(q: string, ghost done: string) returns (k: nat, ok: bool, ghost cut: Cut)
      requires q != [] && State() == After(done) && (EndsInCR(done) ==> q[0] != '\n')
      modifies `out, `room, `atLineStart, `wroteAny, `lastByte, `pendingCR
      ensures ok ==> 0 < k <= |q| && State() == Holding(done + q[..k])
      ensures !ok ==> k <= |q| && Between(cut, out) && cut.base == done + q[..k] && cut.aim <= done + q
      ensures old(room).None? ==> ok && room.None?
    {
      var i := IndexCROrLF(q);
      RunWithin(done, q, if i == -1 then |q| else i);
      if i == -1 {
        TakeWhole(q);
        ok, cut := TakeLiteral(q, done);
        return if ok then |q| else 0, ok, cut;
      }
      ok, cut := TakeLiteral(q[..i], done);
      if !ok {
        return 0, false, cut;
      }
      k, ok, cut := TakeEnding(q, i, done);
    }

    /** The run up to `i` was sent: a LF ends a line, a CR is held back. */
    method TakeEnding(q: string, i: nat, ghost done: string) returns (k: nat, ok: bool, ghost cut: Cut)
      requires i < |q| && IsLiteral(q[..i]) && (q[i] == '\r' || q[i] == '\n')
      requires State() == After(done + q[..i]) && (EndsInCR(done) ==> q[0] != '\n')
      modifies `out, `room, `atLineStart, `wroteAny, `lastByte, `pendingCR
      ensures ok ==> 0 < k <= |q| && State() == Holding(done + q[..k])
      ensures !ok ==> k <= |q| && Between(cut, out) && cut.base == done + q[..k] && cut.aim <= done + q
      ensures old(room).None? ==> ok && room.None?
    {
      ghost var now := done + q[..i];
      TakeNext(done, q, i);
      cut := Cut(now, now + [q[i]]);
      if q[i] == '\r' {
        pendingCR := true;
        TakeMost(now, q[i]);
        return i + 1, true, cut;
      }
      HoldingBelowAfter(now);
      ok := EmitCRLF(now, "\n");
      k := if ok then i + 1 else i;
    }

    /** The CR held back ends a line; `c` follows it, and is part of the line ending if it is a LF. */
    method ResolveCR(c: char, ghost done: string) returns (ok: bool)
      requires State() == Holding(done) && pendingCR
      modifies `out, `room, `atLineStart, `wroteAny, `lastByte, `pendingCR
      ensures ok ==> State() == After(if c == '\n' then done + [c] else done)
      ensures !ok ==> Between(Cut(done, done + [c]), out)
      ensures old(room).None? ==> ok && room.None?
    {
      pendingCR := false;
      HeldEnding(done, c);
      ok := EmitCRLF(done[..|done| - 1], if c == '\n' then "\r\n" else "\r");
      if !ok {
        HeldCut(done, c, old(out), out);
      }
    }

    /** One turn of the loop of `Write`: takes the first `k` octets of `q`. */
    method Take(q: string, ghost done: string) returns (k: nat, ok: bool, ghost cut: Cut)
      requires q != [] && State() == Holding(done)
      modifies `out, `room, `atLineStart, `wroteAny, `lastByte, `pendingCR
      ensures ok ==> 0 < k <= |q| && State() == Holding(done + q[..k])
      ensures !ok ==> k <= |q| && Between(cut, out) && cut.base == done + q[..k] && cut.aim <= done + q
      ensures old(room).None? ==> ok && room.None?
    {
      if pendingCR {
        ok := ResolveCR(q[0], done);
        FirstOf(done, q);
        if !ok || q[0] == '\n' {
          return if ok then 1 else 0, ok, Cut(done, done + [q[0]]);
        }
      }
      k, ok, cut := TakeRun(q, done);
    }

    method Absorb(p: string, ghost given: string) returns (n: nat, ok: bool, ghost cut: Cut)
      requires State() == Holding(given)
      modifies `out, `room, `atLineStart, `wroteAny, `lastByte, `pendingCR
      ensures ok ==> n == |p| && State() == Holding(given + p)
      ensures !ok ==> n <= |p| && Between(cut, out) && cut.base == (given + p)[..|given| + n] && cut.aim <= given + p
      ensures old(room).None? ==> ok && room.None?
    {
      var q := p;
      ghost var done := given;
      n, ok, cut := 0, true, Cut(given, given);
      while |q| > 0
        invariant done + q == given + p && |done| == |given| + n && State() == Holding(done)
        invariant ok && (old(room).None? ==> room.None?)
        decreases |q|
      {
        var k;
        k, ok, cut := Take(q, done);
        if !ok {
          TakeThrough(done, q, k);
          return n + k, false, cut;
        }
        MoveFront(done, q, k);
        done, n, q := done + q[..k], n + k, q[k..];
      }
      AppendEmpty(done);
    }

    /** Takes `p`; the octets sent depend only on all that was taken. When the underlying writer
        fails, part of what `p` was to add has been sent, and at least what its first `n` octets
        were to add. */
    method Write(p: string) returns (n: nat, ok: bool)
      requires Valid()
      modifies this
      ensures old(closed) ==> !ok && n == 0 && unchanged(this)
      ensures !old(closed) ==> content == old(content) + p && !closed
      ensures ok ==> Open() && n == |p|
      ensures !old(closed) && !ok ==> CutShort(content, |old(content)| + n, out)
      ensures !old(closed) && old(room).None? ==> ok && room.None?
    {
      if closed {
        return 0, false;
      }
      ghost var cut;
      n, ok, cut := Absorb(p, content);
      content := content + p;
      if !ok {
        BetweenIsShort(cut, content, |content| - |p| + n, out);
      }
    }

    /** Sends whatever completes the message; a second call does nothing. When the underlying
        writer fails, the message is not complete. */
    method Close() returns (ok: bool)
      requires Valid()
      modifies this
      ensures old(closed) ==> !ok && unchanged(this)
      ensures closed && content == old(content)
      ensures ok ==> Finished()
      ensures !old(closed) && !ok ==> old(out) <= out < Wire(content)
      ensures !old(closed) && old(room).None? ==> ok
    {
      if closed {
        return false;
      }
      closed := true;
      HoldingBelowAfter(content);
      ok := FlushCR();
      if ok {
        ok := Terminate();
      } else {
        WireAfter(content);
      }
    }

    /** A CR held back at the end of the content was a line ending. */
    method FlushCR() returns (ok: bool)
      requires State() == Holding(content)
      modifies `out, `room, `atLineStart, `wroteAny, `lastByte, `pendingCR
      ensures ok ==> State() == After(content)
      ensures !ok ==> old(out) <= out <= After(content).out
      ensures old(room).None? ==> ok && room.None?
    {
      ok := true;
      if pendingCR {
        pendingCR := false;
        MostLast(content);
        ok := EmitCRLF(content[..|content| - 1], "\r");
      }
    }

    method Terminate() returns (ok: bool)
      requires State() == After(content)
      modifies `out, `room
      ensures ok ==> out == Wire(content)
      ensures !ok ==> old(out) <= out < Wire(content)
      ensures old(room).None? ==> ok
    {
      WireAfter(content);
      ok := true;
      if wroteAny && lastByte != '\n' {
        ok := Send(CRLF);
      }
      if ok {
        ok := Send(TERMINATOR);
      }
    }
  }

  /** The writer failed while the line ending of a held CR was sent; `c` follows the CR. */
  lemma HeldCut(done: string, c: char, before: string, out: string)
    requires EndsInCR(done) && before == Holding(done).out
    requires before <= out <= (if c == '\n' then After(done + [c]) else After(done)).out
    ensures Between(Cut(done, done + [c]), out)
  {
    if c != '\n' {
      AfterBelowHolding(done, c);
    }
  }

  /** The writer failed while a run without line endings was sent. */
  lemma LiteralCut(done: string, run: string, before: string, out: string)
    requires run != [] && IsLiteral(run) && before == After(done).out && before <= out <= After(done + run).out
    ensures Between(Cut(done, done + run), out)
  {
    HoldingBelowAfter(done);
    assert (done + run)[|done + run| - 1] == run[|run| - 1];
  }

  // ------------------------------------------------------------- the reader

  /** `data` followed by what `u` still holds. */
  function Deliver(data: string, u: Unstuffed): Unstuffed { u.(content := data + u.content) }

  lemma DeliverMore(data: string, c: char, u: Unstuffed)
    ensures Deliver(data, Prepend(c, u)) == Deliver(data + [c], u)
  {
    Assoc(data, [c], u.content);
  }

  class DotUnstuffReader {
    /** The octets the peer has yet to be read, up to its end of stream. */
    var src: string
    var atLineStart: bool
    var previousCR: bool
    var done: bool
    var ending: Ending

    /** All that is still to be delivered. */
    function Pending(): Unstuffed
      reads this
    {
      if done then Unstuffed([], ending, src) else Unstuff(src, atLineStart, previousCR)
    }

    constructor (src: string)
      ensures Pending() == Unstuff(src, true, false)
    {
      this.src := src;
      atLineStart, previousCR, done, ending := true, false, false, Truncated;
    }

    /** Reads up to the next octet of content, or to the end. */
    method NextOctet() returns (octet: Option<char>)
      requires !done
      modifies this
      ensures match octet
              case Some(c) => !done && old(Pending()) == Prepend(c, Pending())
              case None => done && old(Pending()) == Pending()
    {
      if |src| == 0 {
        octet := Finish(Truncated);
        return;
      }
      var b := src[0];
      src := src[1..];
      if atLineStart && b == '.' {
        if |src| == 0 {
          octet := Finish(Truncated);
          return;
        }
        if src[0] == '\r' {
          octet := ConsumeTerminatorTail();
          return;
        }
        if src[0] == '\n' {
          octet := Finish(BareLF);
          return;
        }
        atLineStart := false;
        assert old(Pending()) == Unstuff(src, false, previousCR);
        b := src[0];
        src := src[1..];
      }
      if !atLineStart && previousCR && b == '.' {
        if |src| == 0 || (src[0] == '\r' && |src| == 1) {
          octet := Finish(Truncated);
          return;
        }
        if src[0] == '\n' || (src[0] == '\r' && src[1] == '\n') {
          octet := Finish(Malformed);
          return;
        }
      }
      atLineStart, previousCR := b == '\n', b == '\r';
      octet := Some(b);
    }

    method Finish(e: Ending) returns (octet: Option<char>)
      modifies `done, `ending
      ensures done && ending == e && octet == None
    {
      done, ending := true, e;
      octet := None;
    }

    /** The dot and then a CR have been seen at a line start. */
    method ConsumeTerminatorTail() returns (octet: Option<char>)
      requires src != []
      modifies this
      ensures done && octet == None
      ensures ending == if |old(src)| == 1 then Truncated else if old(src)[1] == '\n' then EndOfData else Malformed
      ensures src == if |old(src)| == 1 then [] else old(src)[2..]
    {
      src := src[1..];
      if |src| == 0 {
        octet := Finish(Truncated);
        return;
      }
      var b := src[0];
      src := src[1..];
      octet := Finish(if b == '\n' then EndOfData else Malformed);
    }

    /** Delivers the next octets of content; the end is reported only when none are left. */
    method Read(size: nat) returns (data: string, err: Option<Ending>)
      modifies this
      ensures |data| <= size && old(Pending()) == Deliver(data, Pending())
      ensures err.Some? ==> data == [] && Pending() == Unstuffed([], err.value, src)
      ensures err.None? && size > 0 ==> data != []
    {
      data, err := [], None;
      if done {
        err := Some(ending);
        return;
      }
      ghost var all := Pending();
      AppendEmpty(all.content);
      while |data| < size
        invariant !done && |data| <= size
        invariant all == Deliver(data, Pending())
      {
        var octet := NextOctet();
        if octet.None? {
          err := if |data| > 0 then None else Some(ending);
          return;
        }
        DeliverMore(data, octet.value, Pending());
        data := data + [octet.value];
      }
    }
  }

  // ---------------------------------------------------- the two filters joined

  method WriteAll(writes: seq<string>) returns (wire: string)
    ensures wire == Wire(Concat(writes))
  {
    var w := new DotStuffWriter(None);
    var i := 0;
    while i < |writes|
      invariant 0 <= i <= |writes|
      invariant w.Open() && fresh(w) && w.room.None? && w.content == Concat(writes[..i])
    {
      ConcatTake(writes, i);
      var n, ok := w.Write(writes[i]);
      i := i + 1;
    }
    TakeWhole(writes);
    var ok := w.Close();
    wire := w.out;
  }

  method ReadAll(wire: string, sizes: seq<nat>) returns (data: string, end: Option<Ending>, rest: string)
    ensures var u := Unstuff(wire, true, false);
            && data <= u.content
            && (end.Some? ==> u == Unstuffed(data, end.value, rest))
            && ((forall k :: k in sizes ==> k > 0) && |sizes| > |u.content| ==> end.Some?)
  {
    var r := new DotUnstuffReader(wire);
    ghost var u := Unstuff(wire, true, false);
    data, end := [], None;
    var i := 0;
    while i < |sizes| && end.None?
      invariant 0 <= i <= |sizes| && fresh(r)
      invariant u == Deliver(data, r.Pending())
      invariant end.Some? ==> r.Pending() == Unstuffed([], end.value, r.src)
      invariant end.None? && (forall k :: k in sizes ==> k > 0) ==> |data| >= i
    {
      var chunk;
      assert sizes[i] in sizes;
      chunk, end := r.Read(sizes[i]);
      Assoc(data, chunk, r.Pending().content);
      data := data + chunk;
      i := i + 1;
    }
    rest := r.src;
  }

  /** However content is split into writes and reads, the far side gets exactly
      the normalised content and then the end of data, and `suffix` stays unread. */
  method Transfer(writes: seq<string>, suffix: string, sizes: seq<nat>)
    returns (data: string, end: Option<Ending>, rest: string)
    ensures var content := Closed(Normalized(Concat(writes)));
            && data <= content
            && (end.Some? ==> data == content && end.value == EndOfData && rest == suffix)
            && ((forall k :: k in sizes ==> k > 0) && |sizes| > |content| ==> end.Some?)
  {
    var wire := WriteAll(writes);
    UnstuffWire(Concat(writes), suffix);
    data, end, rest := ReadAll(wire + suffix, sizes);
  }
}
