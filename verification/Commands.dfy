/** Command framing in both directions (internal/smtpwire/encoder.go, command_decoder.go). */
module Commands {
  import opened Prelude

  datatype CommandError =
    | EndOfStream | UnexpectedEnd | LineTooLong | BareLF | EmptyCommand | VerbSyntax | ArgumentControl

  /** A value, or an error, and the octets left unread. */
  datatype Read<+T> = Got(value: T, rest: string) | Failed(error: CommandError, rest: string)

  datatype Command = Command(verb: string, argument: string)

  // ---------------------------------------------------------------- searching

  /** The position of the first `c` in `s`, or its length. */
  function IndexOf(s: string, c: char): (i: nat)
    ensures i <= |s|
  {
    if s == [] || s[0] == c then 0 else 1 + IndexOf(s[1..], c)
  }

  lemma {:induction false} IndexOfUnique(s: string, c: char, i: nat)
    requires i <= |s| && (i < |s| ==> s[i] == c) && forall k :: 0 <= k < i ==> s[k] != c
    ensures IndexOf(s, c) == i
  {
    if i != 0 {
      IndexOfUnique(s[1..], c, i - 1);
    }
  }

  lemma {:induction false} IndexOfBeyond(s: string, c: char, i: nat)
    requires i < |s| && forall k :: 0 <= k <= i ==> s[k] != c
    ensures IndexOf(s, c) > i
  {
    if i != 0 {
      IndexOfBeyond(s[1..], c, i - 1);
    }
  }

  /** The pieces of `s` between occurrences of `c`; always at least one. */
  function SplitOn(s: string, c: char): seq<string>
    decreases |s|
  {
    var k := IndexOf(s, c);
    if k == |s| then [s] else [s[..k]] + SplitOn(s[k + 1..], c)
  }

  lemma SplitOnOne(s: string, c: char)
    requires c !in s
    ensures SplitOn(s, c) == [s]
  {
    IndexOfUnique(s, c, |s|);
  }

  lemma SplitOnFirst(a: string, b: string, c: char)
    requires c !in a
    ensures SplitOn(a + [c] + b, c) == [a] + SplitOn(b, c)
  {
    var s := a + [c] + b;
    IndexOfUnique(s, c, |a|);
    assert s[..|a|] == a && s[|a| + 1..] == b;
  }

  // -------------------------------------------------------------- line reading

  /** One CRLF-terminated line of at most `max` octets, line ending included. */
  function ReadLine(src: string, max: nat): (r: Read<string>)
    ensures r.Got? ==> |r.rest| < |src|
  {
    var k := IndexOf(src, '\n');
    if k == |src| then Failed(if k == 0 || k > max then EndOfStream else UnexpectedEnd, [])
    else if k + 1 > max then Failed(LineTooLong, src[k + 1..])
    else if k == 0 || src[k - 1] != '\r' then Failed(BareLF, src[k + 1..])
    else Got(src[..k - 1], src[k + 1..])
  }

  /** The octet loop of the decoder, with the drain of an oversized line. */
  method ReadCommandLine(src: string, max: nat) returns (r: Read<string>)
    ensures r == ReadLine(src, max)
  {
    var consumed := 0;
    while true
      invariant consumed <= |src| && consumed <= max
      invariant forall k :: 0 <= k < consumed ==> src[k] != '\n'
      decreases |src| - consumed
    {
      if consumed == |src| {
        IndexOfUnique(src, '\n', consumed);
        return Failed(if consumed == 0 then EndOfStream else UnexpectedEnd, []);
      }
      if consumed + 1 > max {
        var at := consumed;
        while at < |src| && src[at] != '\n'
          invariant consumed <= at <= |src|
          invariant forall k :: 0 <= k < at ==> src[k] != '\n'
        {
          at := at + 1;
        }
        IndexOfUnique(src, '\n', at);
        if at == |src| {
          return Failed(EndOfStream, []);
        }
        return Failed(LineTooLong, src[at + 1..]);
      }
      if src[consumed] == '\n' {
        IndexOfUnique(src, '\n', consumed);
        if consumed == 0 || src[consumed - 1] != '\r' {
          return Failed(BareLF, src[consumed + 1..]);
        }
        return Got(src[..consumed - 1], src[consumed + 1..]);
      }
      consumed := consumed + 1;
    }
  }

  lemma ReadLineOfText(text: string, rest: string, max: nat)
    requires '\n' !in text && |text| + 2 <= max
    ensures ReadLine(text + "\r\n" + rest, max) == Got(text, rest)
  {
    var src := text + "\r\n" + rest;
    IndexOfUnique(src, '\n', |text| + 1);
    assert src[..|text|] == text && src[|text| + 2..] == rest;
  }

  // ----------------------------------------------------------------- encoding

  predicate IsControl(c: char) { c < ' ' || c == 0x7f as char }

  predicate ControlFree(s: string) { forall i :: 0 <= i < |s| ==> !IsControl(s[i]) }

  /** Every argument after a single space. */
  function Join(args: seq<string>): string {
    if args == [] then [] else " " + args[0] + Join(args[1..])
  }

  /** The command line for a verb and its arguments, if no token can break the framing. */
  function Encoded(verb: string, args: seq<string>): Option<string> {
    if ControlFree(verb) && forall i :: 0 <= i < |args| ==> ControlFree(args[i])
    then Some(verb + Join(args) + "\r\n")
    else None
  }

  method ValidToken(s: string) returns (ok: bool)
    ensures ok <==> ControlFree(s)
  {
    for i := 0 to |s|
      invariant forall k :: 0 <= k < i ==> !IsControl(s[k])
    {
      if IsControl(s[i]) {
        return false;
      }
    }
    return true;
  }

  method EncodeCommand(verb: string, args: seq<string>) returns (line: Option<string>)
    ensures line == Encoded(verb, args)
  {
    var ok := ValidToken(verb);
    if !ok {
      return None;
    }
    var b := verb;
    AppendEmpty(verb);
    for i := 0 to |args|
      invariant forall k :: 0 <= k < i ==> ControlFree(args[k])
      invariant b == verb + Join(args[..i])
    {
      ok := ValidToken(args[i]);
      if !ok {
        return None;
      }
      JoinAppend(args[..i], args[i]);
      assert args[..i + 1] == args[..i] + [args[i]];
      Assoc(verb, Join(args[..i]), " " + args[i]);
      Assoc(b, " ", args[i]);
      b := b + " " + args[i];
    }
    TakeWhole(args);
    return Some(b + "\r\n");
  }

  lemma {:induction false} JoinAppend(args: seq<string>, last: string)
    ensures Join(args + [last]) == Join(args) + (" " + last)
  {
    if args == [] {
      assert [last][1..] == [] && args + [last] == [last];
      AppendEmpty(" " + last);
    } else {
      DropAppend(args, [last], 1);
      JoinAppend(args[1..], last);
      Assoc(" " + args[0], Join(args[1..]), " " + last);
    }
  }

  // ----------------------------------------------------------------- decoding

  predicate IsAlnum(c: char) { 'A' <= c <= 'Z' || 'a' <= c <= 'z' || '0' <= c <= '9' }

  predicate ValidVerb(s: string) {
    s != [] && forall i :: 0 <= i < |s| ==> IsAlnum(s[i]) || s[i] == '-'
  }

  function TrimLeft(s: string): string {
    if s != [] && s[0] == ' ' then TrimLeft(s[1..]) else s
  }

  /** Verb and argument of a line; the argument is what follows the run of spaces. */
  function Split(line: string): Command {
    var sep := IndexOf(line, ' ');
    if sep == |line| then Command(line, []) else Command(line[..sep], TrimLeft(line[sep + 1..]))
  }

  function ReadCommand(src: string, max: nat): (r: Read<Command>)
    ensures r.Got? ==> |r.rest| < |src|
  {
    match ReadLine(src, max)
    case Failed(e, rest) => Failed(e, rest)
    case Got(line, rest) =>
      var c := Split(line);
      if line == [] then Failed(EmptyCommand, rest)
      else if !ValidVerb(c.verb) then Failed(VerbSyntax, rest)
      else if !ControlFree(c.argument) then Failed(ArgumentControl, rest)
      else Got(c, rest)
  }

  lemma ControlFreeAppend(a: string, b: string)
    requires ControlFree(a) && ControlFree(b)
    ensures ControlFree(a + b)
  {
  }

  lemma {:induction false} JoinIsControlFree(args: seq<string>)
    requires forall i :: 0 <= i < |args| ==> ControlFree(args[i])
    ensures ControlFree(Join(args))
  {
    if args != [] {
      JoinIsControlFree(args[1..]);
      ControlFreeAppend(" ", args[0]);
      ControlFreeAppend(" " + args[0], Join(args[1..]));
    }
  }

  lemma SplitJoined(verb: string, args: seq<string>)
    requires ValidVerb(verb) && (args != [] ==> args[0] != [] && args[0][0] != ' ')
    ensures Split(verb + Join(args)) == Command(verb, if args == [] then [] else Join(args)[1..])
  {
    IndexOfUnique(verb + Join(args), ' ', |verb|);
    if args == [] {
      AppendEmpty(verb);
    } else {
      var tail := Join(args);
      assert (verb + tail)[..|verb|] == verb && (verb + tail)[|verb| + 1..] == tail[1..];
      assert tail[1] == args[0][0];
    }
  }

  /** What the client encodes the server reads back, leaving the following octets alone. */
  lemma CommandRoundTrip(verb: string, args: seq<string>, rest: string, max: nat)
    requires ValidVerb(verb) && (args != [] ==> args[0] != [] && args[0][0] != ' ')
    requires Encoded(verb, args).Some? && |Encoded(verb, args).value| <= max
    ensures ReadCommand(Encoded(verb, args).value + rest, max)
         == Got(Command(verb, if args == [] then [] else Join(args)[1..]), rest)
  {
    var line := verb + Join(args);
    JoinIsControlFree(args);
    ControlFreeAppend(verb, Join(args));
    ReadLineOfText(line, rest, max);
    SplitJoined(verb, args);
  }
}
