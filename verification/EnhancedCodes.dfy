/** Enhanced status codes in reply text (internal/smtpwire/reply_encoder.go, enhanced.go). */
module EnhancedCodes {
  import opened Prelude
  import opened Decimal
  import Replies

  datatype EnhancedCode = EnhancedCode(kind: int, subject: int, detail: int)

  /** The prefix of a reply line, if the code is well formed and agrees with the reply. */
  function Format(reply: nat, e: EnhancedCode): Option<string> {
    if e.kind !in {2, 4, 5} || !(0 <= e.subject <= 999) || !(0 <= e.detail <= 999) then None
    else if reply / 100 != e.kind then None
    else Some(Digits(e.kind) + "." + Digits(e.subject) + "." + Digits(e.detail))
  }

  function Prefixed(prefix: string, line: string): string {
    if line == [] then prefix else prefix + " " + line
  }

  /** How many digits begin `s`. */
  function LeadingDigits(s: string): (n: nat)
    ensures n <= |s|
  {
    if s == [] || !IsDigit(s[0]) then 0 else 1 + LeadingDigits(s[1..])
  }

  lemma {:induction false} LeadingDigitsOf(digits: string, rest: string)
    requires AllDigits(digits) && (rest == [] || !IsDigit(rest[0]))
    ensures LeadingDigits(digits + rest) == |digits|
  {
    if digits == [] {
      AppendEmpty(rest);
    } else {
      DropAppend(digits, rest, 1);
      LeadingDigitsOf(digits[1..], rest);
    }
  }

  lemma {:induction false} LeadingAreDigits(s: string)
    ensures AllDigits(s[..LeadingDigits(s)])
    ensures LeadingDigits(s) < |s| ==> !IsDigit(s[LeadingDigits(s)])
  {
    if s != [] && IsDigit(s[0]) {
      LeadingAreDigits(s[1..]);
      assert forall i :: 0 < i < LeadingDigits(s) ==> s[i] == s[1..][..LeadingDigits(s[1..])][i - 1];
    }
  }

  datatype Scanned = Number(value: nat, length: nat) | NotANumber

  /** One to three digits, and no fourth. */
  function ScanNumber(s: string): Scanned {
    LeadingAreDigits(s);
    var n := LeadingDigits(s);
    if 1 <= n <= 3 then Number(Value(s[..n]), n) else NotANumber
  }

  method ScanUpTo3Digits(s: string) returns (r: Scanned)
    ensures r == ScanNumber(s)
  {
    var i, value := 0, 0;
    while i < |s| && i < 3 && IsDigit(s[i])
      invariant 0 <= i <= |s| && i <= 3 && AllDigits(s[..i]) && value == Value(s[..i])
    {
      value := value * 10 + DigitValue(s[i]);
      TakeMost(s[..i], s[i]);
      assert s[..i + 1] == s[..i] + [s[i]];
      i := i + 1;
    }
    assert s == s[..i] + s[i..];
    if i < |s| && IsDigit(s[i]) {
      MoreDigits(s, i);
      return NotANumber;
    }
    LeadingDigitsOf(s[..i], s[i..]);
    return if i == 0 then NotANumber else Number(value, i);
  }

  lemma {:induction false} MoreDigits(s: string, i: nat)
    requires i < |s| && AllDigits(s[..i]) && IsDigit(s[i])
    ensures LeadingDigits(s) > i
  {
    assert i > 0 ==> IsDigit(s[..i][0]);
    if i > 0 {
      assert s[1..][..i - 1] == s[..i][1..];
      MoreDigits(s[1..], i - 1);
    }
  }

  datatype Extracted = Found(code: EnhancedCode, raw: string, rest: string) | Absent

  /** The enhanced code that begins `text`, and the text after the separating space. */
  function Extract(text: string): Extracted {
    if |text| < 2 || text[0] !in {'2', '4', '5'} || text[1] != '.' then Absent
    else
      match ScanNumber(text[2..])
      case NotANumber => Absent
      case Number(subject, n) =>
        if 2 + n >= |text| || text[2 + n] != '.' then Absent
        else
          match ScanNumber(text[3 + n..])
          case NotANumber => Absent
          case Number(detail, m) =>
            var end := 3 + n + m;
            var code := EnhancedCode(DigitValue(text[0]), subject, detail);
            if end == |text| then Found(code, text, [])
            else if end < |text| && text[end] == ' ' then Found(code, text[..end], text[end + 1..])
            else Absent
  }

  lemma ScanDigits(n: nat, rest: string)
    requires n <= 999 && (rest == [] || !IsDigit(rest[0]))
    ensures ScanNumber(Digits(n) + rest) == Number(n, |Digits(n)|)
  {
    ValueOfDigits(n);
    AtMostThree(n);
    LeadingDigitsOf(Digits(n), rest);
    assert (Digits(n) + rest)[..|Digits(n)|] == Digits(n);
  }

  lemma AtMostThree(n: nat)
    requires n <= 999
    ensures 1 <= |Digits(n)| <= 3
  {
    assert n >= 100 ==> |Digits(n / 10 / 10)| == 1 && |Digits(n / 10)| == 2;
    assert 10 <= n < 100 ==> |Digits(n / 10)| == 1;
  }

  /** A prefix written by the encoder is found again together with the original text. */
  lemma EnhancedRoundTrip(reply: nat, e: EnhancedCode, line: string)
    requires Format(reply, e).Some?
    ensures Extract(Prefixed(Format(reply, e).value, line)) == Found(e, Format(reply, e).value, line)
  {
    var kind, subject, detail := Digits(e.kind), Digits(e.subject), Digits(e.detail);
    var tail := if line == [] then [] else " " + line;
    var prefix := kind + "." + subject + "." + detail;
    if line == [] {
      AppendEmpty(prefix);
    } else {
      Assoc(prefix, " ", line);
    }
    ScanDigits(e.subject, "." + detail + tail);
    ScanDigits(e.detail, tail);
    ExtractParts(kind, subject, detail, tail, e.subject, e.detail);
  }

  lemma ExtractParts(kind: string, subject: string, detail: string, tail: string, s: nat, d: nat)
    requires |kind| == 1 && kind[0] in {'2', '4', '5'} && (tail == [] || tail[0] == ' ')
    requires ScanNumber(subject + ("." + detail + tail)) == Number(s, |subject|)
    requires ScanNumber(detail + tail) == Number(d, |detail|)
    ensures var prefix := kind + "." + subject + "." + detail;
            Extract(prefix + tail)
            == Found(EnhancedCode(DigitValue(kind[0]), s, d), prefix, if tail == [] then [] else tail[1..])
  {
    TextParts(kind, subject, detail, tail);
    ExtractAt(kind + "." + subject + "." + detail + tail, |subject|, |detail|, s, d);
  }

  lemma ExtractAt(text: string, n: nat, m: nat, s: nat, d: nat)
    requires 3 + n + m <= |text| && text[0] in {'2', '4', '5'} && text[1] == '.' && text[2 + n] == '.'
    requires ScanNumber(text[2..]) == Number(s, n) && ScanNumber(text[3 + n..]) == Number(d, m)
    requires 3 + n + m < |text| ==> text[3 + n + m] == ' '
    ensures var end := 3 + n + m;
            Extract(text) == Found(EnhancedCode(DigitValue(text[0]), s, d), text[..end],
                                   if end == |text| then [] else text[end + 1..])
  {
    TakeWhole(text);
  }

  lemma TextParts(c: string, subject: string, detail: string, tail: string)
    requires |c| == 1
    ensures var text := c + "." + subject + "." + detail + tail;
            var n, m := |subject|, |detail|;
            && text[0] == c[0] && text[1] == '.' && text[2..] == subject + ("." + detail + tail)
            && text[2 + n] == '.' && text[3 + n..] == detail + tail
            && text[..3 + n + m] == c + "." + subject + "." + detail
            && (tail != [] ==> text[3 + n + m] == tail[0] && text[4 + n + m..] == tail[1..])
  {
  }

  /** Over the wire: the client of a one-line reply recovers its enhanced code and its text. */
  lemma EnhancedReplyRoundTrip(code: nat, e: EnhancedCode, line: string, rest: string, limits: Replies.Limits)
    requires Format(code, e).Some?
    requires var reply := Replies.Reply(code, [Prefixed(Format(code, e).value, line)]);
             Replies.Encoded(reply).Some? && Replies.Within(reply.lines, limits, Replies.NOTHING)
    ensures var reply := Replies.Reply(code, [Prefixed(Format(code, e).value, line)]);
            var read := Replies.ReadReply(Replies.Encoded(reply).value + rest, limits);
            && read.Complete? && read.reply.code == code && read.rest == rest
            && |read.reply.lines| == 1 && Extract(read.reply.lines[0]) == Found(e, Format(code, e).value, line)
  {
    Replies.ReplyRoundTrip(Replies.Reply(code, [Prefixed(Format(code, e).value, line)]), rest, limits);
    EnhancedRoundTrip(code, e, line);
  }

  // ------------------------------------------------------------------ encoding

  function PrefixAll(prefix: string, lines: seq<string>): (r: seq<string>)
    ensures |r| == |lines|
  {
    seq(|lines|, i requires 0 <= i < |lines| => Prefixed(prefix, lines[i]))
  }

  /** The lines that are sent: with the code before each, inside a session that uses codes. */
  function SentLines(code: nat, lines: seq<string>, enhanced: Option<EnhancedCode>, inCommand: bool)
    : Option<seq<string>>
  {
    if enhanced.None? || !inCommand then Some(lines)
    else if Format(code, enhanced.value).None? then None
    else Some(PrefixAll(Format(code, enhanced.value).value, lines))
  }

  /** Every line of a list can be sent. */
  predicate Sendable(lines: seq<string>) { forall i :: 0 <= i < |lines| ==> Replies.ValidText(lines[i]) }

  lemma FormatIsText(code: nat, e: EnhancedCode)
    requires Format(code, e).Some?
    ensures Replies.ValidText(Format(code, e).value)
  {
    DigitsAreDigits(e.kind);
    DigitsAreDigits(e.subject);
    DigitsAreDigits(e.detail);
  }

  lemma PrefixedIsText(prefix: string, lines: seq<string>)
    requires Replies.ValidText(prefix) && Sendable(lines)
    ensures Sendable(PrefixAll(prefix, lines))
  {
  }

  /** The whole encoder: a reply is sent exactly when its code, its texts and its enhanced code
      are valid, with the enhanced code before every line. */
  method EncodeReply(reply: Replies.Reply, text: string, enhanced: Option<EnhancedCode>, inCommand: bool)
    returns (out: Option<string>)
    ensures var lines := if reply.lines == [] then [text] else reply.lines;
      var sent := SentLines(reply.code, lines, enhanced, inCommand);
      && (out.Some? <==> Replies.ValidCode(reply.code) && Sendable(lines) && sent.Some?)
      && (out.Some? ==> out == Replies.Encoded(Replies.Reply(reply.code, sent.value)))
  {
    if !Replies.ValidCode(reply.code) {
      return None;
    }
    var lines := if reply.lines == [] then [text] else reply.lines;
    var ok := Replies.ValidLines(lines);
    if !ok {
      return None;
    }
    if enhanced.Some? && inCommand {
      var prefix := Format(reply.code, enhanced.value);
      if prefix.None? {
        return None;
      }
      FormatIsText(reply.code, enhanced.value);
      PrefixedIsText(prefix.value, lines);
      lines := WithPrefix(prefix.value, lines);
    }
    out := Replies.EncodeReply(Replies.Reply(reply.code, lines), text);
  }

  method WithPrefix(prefix: string, given: seq<string>) returns (lines: seq<string>)
    ensures lines == PrefixAll(prefix, given)
  {
    lines := given;
    for i := 0 to |lines|
      invariant |lines| == |given|
      invariant forall k :: 0 <= k < i ==> lines[k] == Prefixed(prefix, given[k])
      invariant forall k :: i <= k < |given| ==> lines[k] == given[k]
    {
      lines := lines[i := if lines[i] == "" then prefix else prefix + " " + lines[i]];
    }
  }
}
