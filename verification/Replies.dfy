/** Reply framing in both directions (internal/smtpwire/reply.go, reply_encoder.go). */
module Replies {
  import opened Prelude
  import opened Decimal
  import opened Commands

  datatype Limits = Limits(lineLength: nat, lines: nat, size: nat)

  datatype ReplyError =
    | EndOfReplies | TruncatedReply | ReplyLineTooLong | TooManyLines | ReplyTooLarge
    | LineTooShort | CodeSyntax | CodeMismatch

  datatype Reply = Reply(code: nat, lines: seq<string>)

  /** A raw line and the octets left unread, or an error. */
  datatype RawLine = RawLine(text: string, rest: string) | NoLine(error: ReplyError)

  /** A reply and the octets left unread, or an error. */
  datatype Received = Complete(reply: Reply, rest: string) | Broken(error: ReplyError)

  // ----------------------------------------------------------------- encoding

  predicate ValidCode(code: nat) { 200 <= code <= 559 && (code / 10) % 10 <= 5 }

  predicate ValidText(s: string) { forall i :: 0 <= i < |s| ==> s[i] !in "\r\n\0" }

  /** One line after the text of the code; the last is marked by a space. */
  function EncodedLine(code: string, last: bool, text: string): string {
    code + (if last then " " else "-") + text + "\r\n"
  }

  function EncodedLines(code: string, lines: seq<string>): string {
    if lines == [] then []
    else EncodedLine(code, |lines| == 1, lines[0]) + EncodedLines(code, lines[1..])
  }

  /** The octets of a reply, if every line can be sent. */
  function Encoded(reply: Reply): Option<string> {
    if ValidCode(reply.code) && reply.lines != [] && forall i :: 0 <= i < |reply.lines| ==> ValidText(reply.lines[i])
    then Some(EncodedLines(Digits(reply.code), reply.lines))
    else None
  }

  method ValidLines(lines: seq<string>) returns (ok: bool)
    ensures ok <==> forall i :: 0 <= i < |lines| ==> ValidText(lines[i])
  {
    for i := 0 to |lines|
      invariant forall k :: 0 <= k < i ==> ValidText(lines[k])
    {
      for j := 0 to |lines[i]|
        invariant forall k :: 0 <= k < j ==> lines[i][k] !in "\r\n\0"
      {
        if lines[i][j] in "\r\n\0" {
          return false;
        }
      }
    }
    return true;
  }

  /** Validates the whole reply before writing any of it; a reply without lines sends its text. */
  method EncodeReply(reply: Reply, text: string) returns (out: Option<string>)
    ensures out == Encoded(if reply.lines == [] then reply.(lines := [text]) else reply)
  {
    if !ValidCode(reply.code) {
      return None;
    }
    var lines := if reply.lines == [] then [text] else reply.lines;
    var ok := ValidLines(lines);
    if !ok {
      return None;
    }
    var b, code := [], Digits(reply.code);
    AppendEmpty(EncodedLines(code, lines));
    for i := 0 to |lines|
      invariant EncodedLines(code, lines) == b + EncodedLines(code, lines[i..])
    {
      assert lines[i..][1..] == lines[i + 1..];
      var line := EncodedLine(code, i + 1 == |lines|, lines[i]);
      Assoc(b, line, EncodedLines(code, lines[i + 1..]));
      b := b + line;
    }
    AppendEmpty(b);
    return Some(b);
  }

  // ------------------------------------------------------------- reading lines

  /** A line up to LF, less one CR before it, of at most `max` octets. */
  function ReplyLine(src: string, max: nat): (r: RawLine)
    ensures r.RawLine? ==> |r.rest| < |src|
  {
    var k := IndexOf(src, '\n');
    if k > max then NoLine(ReplyLineTooLong)
    else if k == |src| then NoLine(if k == 0 then EndOfReplies else TruncatedReply)
    else RawLine(if k > 0 && src[k - 1] == '\r' then src[..k - 1] else src[..k], src[k + 1..])
  }

  method ReadLine(src: string, max: nat) returns (r: RawLine)
    ensures r == ReplyLine(src, max)
  {
    var n := 0;
    while true
      invariant n <= |src| && n <= max
      invariant forall k :: 0 <= k < n ==> src[k] != '\n'
      decreases |src| - n
    {
      if n == |src| {
        IndexOfUnique(src, '\n', n);
        return NoLine(if n == 0 then EndOfReplies else TruncatedReply);
      }
      if src[n] == '\n' {
        IndexOfUnique(src, '\n', n);
        return RawLine(if n > 0 && src[n - 1] == '\r' then src[..n - 1] else src[..n], src[n + 1..]);
      }
      if n >= max {
        IndexOfBeyond(src, '\n', n);
        return NoLine(ReplyLineTooLong);
      }
      n := n + 1;
    }
  }

  /** A reply line taken apart, or why it cannot be. */
  datatype Parsed = Parsed(code: nat, continuation: bool, text: string) | Rejected(error: ReplyError)

  function ParseReplyLine(line: string): Parsed {
    if |line| < 3 then Rejected(LineTooShort)
    else if !('2' <= line[0] <= '5' && '0' <= line[1] <= '5' && '0' <= line[2] <= '9') then Rejected(CodeSyntax)
    else
      var code := DigitValue(line[0]) * 100 + DigitValue(line[1]) * 10 + DigitValue(line[2]);
      if |line| == 3 then Parsed(code, false, [])
      else if line[3] == '-' then Parsed(code, true, line[4..])
      else if line[3] == ' ' then Parsed(code, false, line[4..])
      else Parsed(code, false, line[3..])
  }

  // ------------------------------------------------------------ whole replies

  /** What a reply has taken in so far. */
  datatype Partial = Partial(code: nat, lines: seq<string>, size: nat)

  const NOTHING := Partial(0, [], 0)

  /** A parsed line judged against the lines before it. */
  function Judge(p: Parsed, limits: Limits, before: Partial): Parsed {
    if p.Rejected? then p
    else if |p.text| > limits.lineLength then Rejected(ReplyLineTooLong)
    else if before.lines != [] && p.code != before.code then Rejected(CodeMismatch)
    else if before.size + |p.text| > limits.size then Rejected(ReplyTooLarge)
    else if |before.lines| + 1 > limits.lines then Rejected(TooManyLines)
    else p
  }

  function With(before: Partial, p: Parsed): Partial
    requires p.Parsed?
  {
    Partial(p.code, before.lines + [p.text], before.size + |p.text|)
  }

  /** The reply that continues `before`. */
  function ReplyFrom(src: string, limits: Limits, before: Partial): Received
    decreases |src|
  {
    match ReplyLine(src, limits.lineLength + 5)
    case NoLine(e) => Broken(if e == EndOfReplies && before.lines != [] then TruncatedReply else e)
    case RawLine(raw, rest) =>
      var p := Judge(ParseReplyLine(raw), limits, before);
      if p.Rejected? then Broken(p.error)
      else if p.continuation then ReplyFrom(rest, limits, With(before, p))
      else Complete(Reply(p.code, before.lines + [p.text]), rest)
  }

  function ReadReply(src: string, limits: Limits): Received { ReplyFrom(src, limits, NOTHING) }

  method CheckLine(raw: string, limits: Limits, before: Partial) returns (r: Parsed)
    ensures r == Judge(ParseReplyLine(raw), limits, before)
  {
    r := ParseReplyLine(raw);
    if r.Rejected? {
      return;
    }
    if |r.text| > limits.lineLength {
      return Rejected(ReplyLineTooLong);
    }
    if before.lines != [] && r.code != before.code {
      return Rejected(CodeMismatch);
    }
    if before.size + |r.text| > limits.size {
      return Rejected(ReplyTooLarge);
    }
    if |before.lines| + 1 > limits.lines {
      return Rejected(TooManyLines);
    }
  }

  method ReadReplyLoop(src: string, limits: Limits) returns (r: Received)
    ensures r == ReadReply(src, limits)
  {
    var before := NOTHING;
    var rest := src;
    while true
      invariant ReadReply(src, limits) == ReplyFrom(rest, limits, before)
      decreases |rest|
    {
      var line := ReadLine(rest, limits.lineLength + 5);
      if line.NoLine? {
        return Broken(if line.error == EndOfReplies && before.lines != [] then TruncatedReply else line.error);
      }
      var p := CheckLine(line.text, limits, before);
      if p.Rejected? {
        return Broken(p.error);
      }
      if !p.continuation {
        return Complete(Reply(p.code, before.lines + [p.text]), line.rest);
      }
      before, rest := With(before, p), line.rest;
    }
  }

  // --------------------------------------------------------------- round trip

  /** `text` is the three digits of a valid code. */
  predicate IsCode(text: string, code: nat) {
    && |text| == 3 && '2' <= text[0] <= '5' && '0' <= text[1] <= '5' && '0' <= text[2] <= '9'
    && DigitValue(text[0]) * 100 + DigitValue(text[1]) * 10 + DigitValue(text[2]) == code
  }

  lemma DigitsOfCode(code: nat)
    requires ValidCode(code)
    ensures IsCode(Digits(code), code)
  {
    assert code / 10 / 10 == code / 100;
    assert Digits(code / 100) == [Digit(code / 100)];
    assert Digits(code / 10) == [Digit(code / 100), Digit((code / 10) % 10)];
    assert Digits(code) == [Digit(code / 100), Digit((code / 10) % 10), Digit(code % 10)];
  }

  lemma ParseEncoded(codeText: string, code: nat, last: bool, text: string)
    requires IsCode(codeText, code)
    ensures ParseReplyLine(codeText + (if last then " " else "-") + text) == Parsed(code, !last, text)
  {
    var line := codeText + (if last then " " else "-") + text;
    assert line[4..] == text;
  }

  lemma LineAtStart(line: string, rest: string, max: nat)
    requires '\n' !in line && |line| + 1 <= max
    ensures ReplyLine(line + "\r\n" + rest, max) == RawLine(line, rest)
  {
    var src := line + "\r\n" + rest;
    IndexOfUnique(src, '\n', |line| + 1);
    assert src[..|line|] == line && src[|line| + 2..] == rest;
  }

  lemma ReadEncodedLine(codeText: string, code: nat, last: bool, text: string, rest: string, limits: Limits)
    requires IsCode(codeText, code) && ValidText(text) && |text| <= limits.lineLength
    ensures var r := ReplyLine(EncodedLine(codeText, last, text) + rest, limits.lineLength + 5);
            r.RawLine? && r.rest == rest && ParseReplyLine(r.text) == Parsed(code, !last, text)
  {
    ParseEncoded(codeText, code, last, text);
    LineAtStart(codeText + (if last then " " else "-") + text, rest, limits.lineLength + 5);
  }

  function Size(lines: seq<string>): nat {
    if lines == [] then 0 else |lines[0]| + Size(lines[1..])
  }

  /** `lines` may follow `before` without exceeding the limits. */
  predicate Within(lines: seq<string>, limits: Limits, before: Partial) {
    && |before.lines| + |lines| <= limits.lines && before.size + Size(lines) <= limits.size
    && forall i :: 0 <= i < |lines| ==> ValidText(lines[i]) && |lines[i]| <= limits.lineLength
  }

  lemma ReadFirstLine(src: string, codeText: string, code: nat, last: bool, text: string, rest: string,
                      limits: Limits, before: Partial)
    requires src == EncodedLine(codeText, last, text) + rest
    requires IsCode(codeText, code) && Within([text], limits, before)
    requires before.lines != [] ==> before.code == code
    ensures ReplyFrom(src, limits, before)
         == if last then Complete(Reply(code, before.lines + [text]), rest)
            else ReplyFrom(rest, limits, With(before, Parsed(code, true, text)))
  {
    assert [text][0] == text && Size([text]) == |text|;
    ReadEncodedLine(codeText, code, last, text, rest, limits);
  }

  lemma WithinTail(lines: seq<string>, limits: Limits, before: Partial, code: nat)
    requires lines != [] && Within(lines, limits, before)
    ensures Within([lines[0]], limits, before)
    ensures Within(lines[1..], limits, With(before, Parsed(code, true, lines[0])))
  {
    assert Size([lines[0]]) == |lines[0]|;
  }

  lemma {:induction false} ReadEncodedLines(codeText: string, code: nat, lines: seq<string>, rest: string,
                                            limits: Limits, before: Partial)
    requires IsCode(codeText, code) && lines != [] && Within(lines, limits, before)
    requires before.lines != [] ==> before.code == code
    ensures ReplyFrom(EncodedLines(codeText, lines) + rest, limits, before)
         == Complete(Reply(code, before.lines + lines), rest)
    decreases |lines|
  {
    var text, tail := lines[0], EncodedLines(codeText, lines[1..]);
    var head := EncodedLine(codeText, |lines| == 1, text);
    WithinTail(lines, limits, before, code);
    Assoc(head, tail, rest);
    ReadFirstLine(head + (tail + rest), codeText, code, |lines| == 1, text, tail + rest, limits, before);
    HeadTail(lines);
    Assoc(before.lines, [text], lines[1..]);
    if |lines| == 1 {
      OneLine(codeText, lines, rest);
    } else {
      ReadEncodedLines(codeText, code, lines[1..], rest, limits, With(before, Parsed(code, true, text)));
    }
  }

  lemma OneLine(codeText: string, lines: seq<string>, rest: string)
    requires |lines| == 1
    ensures lines == [lines[0]] && EncodedLines(codeText, lines[1..]) + rest == rest
  {
    assert lines[1..] == [];
    AppendEmpty(rest);
  }

  /** Decoding an encoded reply gives it back and leaves what follows unread. */
  lemma ReplyRoundTrip(reply: Reply, rest: string, limits: Limits)
    requires Encoded(reply).Some? && Within(reply.lines, limits, NOTHING)
    ensures ReadReply(Encoded(reply).value + rest, limits) == Complete(reply, rest)
  {
    DigitsOfCode(reply.code);
    ReadEncodedLines(Digits(reply.code), reply.code, reply.lines, rest, limits, NOTHING);
    AppendEmpty(reply.lines);
  }

  function EncodedAll(replies: seq<Reply>): string
    requires forall i :: 0 <= i < |replies| ==> Encoded(replies[i]).Some?
  {
    if replies == [] then [] else Encoded(replies[0]).value + EncodedAll(replies[1..])
  }

  /** `src` is read as exactly these replies, one after another, and then `rest`. */
  predicate ReadsAs(src: string, replies: seq<Reply>, rest: string, limits: Limits)
    decreases |replies|
  {
    if replies == [] then src == rest
    else
      var first := ReadReply(src, limits);
      first.Complete? && first.reply == replies[0] && ReadsAs(first.rest, replies[1..], rest, limits)
  }

  /** A stream of replies is read back reply by reply. */
  lemma {:induction false} ReplyStreamRoundTrip(replies: seq<Reply>, suffix: string, limits: Limits)
    requires forall i :: 0 <= i < |replies| ==> Encoded(replies[i]).Some? && Within(replies[i].lines, limits, NOTHING)
    ensures ReadsAs(EncodedAll(replies) + suffix, replies, suffix, limits)
  {
    if replies == [] {
      AppendEmpty(suffix);
    } else {
      var first, later := Encoded(replies[0]).value, EncodedAll(replies[1..]);
      Assoc(first, later, suffix);
      ReplyRoundTrip(replies[0], later + suffix, limits);
      ReplyStreamRoundTrip(replies[1..], suffix, limits);
    }
  }
}
