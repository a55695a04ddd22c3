/** BDAT framing, the client's chunking and the server's collection of chunks
(internal/smtpwire/bdat.go, smtpclient/ext_a_transport.go, smtpserver/cmd_data.go). */
module Bdat {
  import opened Prelude
  import opened Decimal
  import opened Commands
  import opened Params
  import Paths
  import S = Spool

  const MAX_UINT64 := 0xFFFF_FFFF_FFFF_FFFF

  datatype BdatCommand = BdatCommand(size: nat, last: bool)

  datatype BdatError = CommandSyntax | SizeOverflow | ChunkTooLarge

  function CheckSize(size: nat, limit: nat): Option<BdatError> {
    if size > MAX_INT64 then Some(SizeOverflow) else if size > limit then Some(ChunkTooLarge) else None
  }

  /** `<size>` or `<size> LAST`. */
  function ParseArgument(argument: string, limit: nat): Result<BdatCommand, BdatError> {
    if exists i :: 0 <= i < |argument| && argument[i] != ' ' && (argument[i] < '!' || argument[i] > '~')
    then Err(CommandSyntax)
    else
      var fields := Fields(argument);
      if |fields| < 1 || |fields| > 2 || (|fields| == 2 && !Paths.EqualFold(fields[1], "LAST")) then Err(CommandSyntax)
      else
        match Parse(fields[0], MAX_UINT64)
        case None => Err(CommandSyntax)
        case Some(size) =>
          match CheckSize(size, limit)
          case Some(e) => Err(e)
          case None => Ok(BdatCommand(size, |fields| == 2))
  }

  function Arguments(size: nat, last: bool): seq<string> {
    if last then [Digits(size), "LAST"] else [Digits(size)]
  }

  /** What is sent for one chunk: the command line, then the octets themselves. */
  function Frame(chunk: string, last: bool): string {
    "BDAT" + Join(Arguments(|chunk|, last)) + "\r\n" + chunk
  }

  // --------------------------------------------------------- parsing back

  lemma DigitsToken(n: nat)
    ensures IsToken(Digits(n)) && ControlFree(Digits(n)) && Digits(n)[0] != ' '
    ensures forall i :: 0 <= i < |Digits(n)| ==> '!' <= Digits(n)[i] <= '~'
  {
    DigitsAreDigits(n);
  }

  lemma LastToken()
    ensures IsToken("LAST") && ControlFree("LAST")
  {
  }

  lemma ArgumentText(size: nat, last: bool)
    ensures var text := Join(Arguments(size, last));
            text != [] && text[0] == ' ' && text[1..] == if last then Digits(size) + " LAST" else Digits(size)
  {
    var d := Digits(size);
    if last {
      assert [d, "LAST"][1..] == ["LAST"] && ["LAST"][1..] == [];
      assert Join(["LAST"]) == " LAST" + [];
      AppendEmpty(" LAST");
      Assoc(" ", d, " LAST");
    } else {
      assert [d][1..] == [];
      AppendEmpty(" " + d);
    }
  }

  lemma FieldsOfArgument(digits: string, last: bool)
    requires IsToken(digits)
    ensures Fields(if last then digits + " LAST" else digits) == if last then [digits, "LAST"] else [digits]
  {
    LastToken();
    if last {
      FieldsOfFirst(digits, " LAST");
      FieldsOfNext("LAST", []);
      AppendEmpty(" " + "LAST");
      assert [digits] + ["LAST"] == [digits, "LAST"];
    } else {
      FieldsOfFirst(digits, []);
      AppendEmpty(digits);
    }
  }

  lemma ParseFields(argument: string, digits: string, size: nat, last: bool, limit: nat)
    requires forall i :: 0 <= i < |argument| ==> argument[i] == ' ' || '!' <= argument[i] <= '~'
    requires Fields(argument) == if last then [digits, "LAST"] else [digits]
    requires Parse(digits, MAX_UINT64) == Some(size) && CheckSize(size, limit) == None
    ensures ParseArgument(argument, limit) == Ok(BdatCommand(size, last))
  {
  }

  /** The argument the encoder writes parses to the same size and marker. */
  lemma ArgumentRoundTrip(size: nat, last: bool, limit: nat)
    requires CheckSize(size, limit) == None
    ensures ParseArgument(Join(Arguments(size, last))[1..], limit) == Ok(BdatCommand(size, last))
  {
    ArgumentText(size, last);
    DigitsToken(size);
    ParseDigits(size, MAX_UINT64);
    ParseWritten(Digits(size), size, last, limit);
  }

  lemma ParseWritten(digits: string, size: nat, last: bool, limit: nat)
    requires IsToken(digits) && forall i :: 0 <= i < |digits| ==> '!' <= digits[i] <= '~'
    requires Parse(digits, MAX_UINT64) == Some(size) && CheckSize(size, limit) == None
    ensures ParseArgument(if last then digits + " LAST" else digits, limit) == Ok(BdatCommand(size, last))
  {
    FieldsOfArgument(digits, last);
    ParseFields(if last then digits + " LAST" else digits, digits, size, last, limit);
  }

  datatype Received = Chunk(chunk: string, last: bool, rest: string) | Refused

  /** One BDAT command and the octets it announces, however they may be stored. */
  function ReadFrame(src: string, maxLine: nat, limit: nat): (r: Received)
    ensures r.Chunk? ==> |r.rest| < |src|
  {
    match ReadCommand(src, maxLine)
    case Failed(_, _) => Refused
    case Got(command, rest) =>
      if command.verb != "BDAT" then Refused
      else
        match ParseArgument(command.argument, limit)
        case Err(_) => Refused
        case Ok(b) => if b.size > |rest| then Refused else Chunk(rest[..b.size], b.last, rest[b.size..])
  }

  /** The chunk is within the limit and its command line, LAST or not, fits `maxLine`. */
  predicate Sendable(chunk: string, maxLine: nat, limit: nat) {
    CheckSize(|chunk|, limit) == None && |Digits(|chunk|)| + 12 <= maxLine
  }

  lemma FrameRoundTrip(chunk: string, last: bool, rest: string, maxLine: nat, limit: nat)
    requires Sendable(chunk, maxLine, limit)
    ensures ReadFrame(Frame(chunk, last) + rest, maxLine, limit) == Chunk(chunk, last, rest)
  {
    var args := Arguments(|chunk|, last);
    var line := "BDAT" + Join(args) + "\r\n";
    ArgumentText(|chunk|, last);
    DigitsToken(|chunk|);
    LastToken();
    assert Encoded("BDAT", args) == Some(line);
    Assoc(line, chunk, rest);
    CommandRoundTrip("BDAT", args, chunk + rest, maxLine);
    ArgumentRoundTrip(|chunk|, last, limit);
    TakeDrop(chunk, rest);
  }

  lemma TakeDrop<T>(a: seq<T>, b: seq<T>)
    ensures (a + b)[..|a|] == a && (a + b)[|a|..] == b
  {
  }

  // ---------------------------------------------------------- client chunking

  /** Full chunks of `size` octets while there are that many, then the remainder, possibly empty. */
  function Chunks(content: string, size: nat): (chunks: seq<string>)
    requires size > 0
    ensures chunks != []
  {
    if |content| < size then [content] else [content[..size]] + Chunks(content[size..], size)
  }

  /** Every chunk but the last is full and the last is not; together they are the content. */
  lemma {:induction false} ChunksPartition(content: string, size: nat)
    requires size > 0
    ensures var c := Chunks(content, size);
            && Concat(c) == content && |c[|c| - 1]| < size
            && forall i :: 0 <= i < |c| - 1 ==> |c[i]| == size
  {
    if |content| < size {
      assert [content][1..] == [];
      AppendEmpty(content);
    } else {
      ChunksPartition(content[size..], size);
      var c, later := Chunks(content, size), Chunks(content[size..], size);
      assert c[1..] == later && content == content[..size] + content[size..];
      assert forall i :: 0 < i < |c| ==> c[i] == later[i - 1];
    }
  }

  /** The frames of all chunks, only the last of them marked LAST. */
  function WireOf(chunks: seq<string>): string {
    if chunks == [] then [] else Frame(chunks[0], |chunks| == 1) + WireOf(chunks[1..])
  }

  /** The client's loop: fill a buffer, send it, and stop after the chunk that came up short. */
  method SendContent(content: string, size: nat) returns (wire: string)
    requires size > 0
    ensures wire == WireOf(Chunks(content, size))
  {
    wire := [];
    ghost var chunks := Chunks(content, size);
    var left := content;
    AppendEmpty(WireOf(chunks));
    while true
      invariant WireOf(chunks) == wire + WireOf(Chunks(left, size))
      decreases |left|
    {
      var n := Min(size, |left|);
      var last := n < size;
      ghost var now := Chunks(left, size);
      assert now[0] == left[..n] && (|now| == 1 <==> last);
      Assoc(wire, Frame(left[..n], last), WireOf(now[1..]));
      wire := wire + Frame(left[..n], last);
      if last {
        assert now[1..] == [];
        AppendEmpty(wire);
        return;
      }
      assert now[1..] == Chunks(left[n..], size);
      left := left[n..];
    }
  }

  // --------------------------------------------------------- server reception

  datatype Message = Message(content: string, rest: string) | NoMessage

  /** All chunks up to the one marked LAST. */
  function ReadMessage(src: string, maxLine: nat, limit: nat, before: string): Message
    decreases |src|
  {
    match ReadFrame(src, maxLine, limit)
    case Refused => NoMessage
    case Chunk(chunk, last, rest) =>
      if last then Message(before + chunk, rest)
      else ReadMessage(rest, maxLine, limit, before + chunk)
  }

  lemma {:induction false} ReadWire(chunks: seq<string>, suffix: string, maxLine: nat, limit: nat, before: string)
    requires chunks != []
    requires forall i :: 0 <= i < |chunks| ==> Sendable(chunks[i], maxLine, limit)
    ensures ReadMessage(WireOf(chunks) + suffix, maxLine, limit, before) == Message(before + Concat(chunks), suffix)
    decreases |chunks|
  {
    ReadFirst(chunks, suffix, maxLine, limit, before);
    Assoc(before, chunks[0], Concat(chunks[1..]));
    if |chunks| == 1 {
      assert chunks[1..] == [];
      AppendEmpty(suffix);
      AppendEmpty(chunks[0]);
    } else {
      ReadWire(chunks[1..], suffix, maxLine, limit, before + chunks[0]);
    }
  }

  lemma ReadFirst(chunks: seq<string>, suffix: string, maxLine: nat, limit: nat, before: string)
    requires chunks != [] && Sendable(chunks[0], maxLine, limit)
    ensures var left := WireOf(chunks[1..]) + suffix;
            ReadMessage(WireOf(chunks) + suffix, maxLine, limit, before)
            == if |chunks| == 1 then Message(before + chunks[0], left)
               else ReadMessage(left, maxLine, limit, before + chunks[0])
  {
    var last, left := |chunks| == 1, WireOf(chunks[1..]) + suffix;
    Assoc(Frame(chunks[0], last), WireOf(chunks[1..]), suffix);
    FrameRoundTrip(chunks[0], last, left, maxLine, limit);
  }

  /** What the client sends for any content and chunk size, the server reads back whole. */
  lemma ContentRoundTrip(content: string, size: nat, suffix: string, maxLine: nat, limit: nat)
    requires 0 < size <= limit && limit <= MAX_INT64 && maxLine >= |Digits(size)| + 12
    ensures ReadMessage(WireOf(Chunks(content, size)) + suffix, maxLine, limit, []) == Message(content, suffix)
  {
    var chunks := Chunks(content, size);
    ChunksPartition(content, size);
    forall i | 0 <= i < |chunks| ensures Sendable(chunks[i], maxLine, limit) {
      DigitsMonotone(|chunks[i]|, size);
    }
    ReadWire(chunks, suffix, maxLine, limit, []);
    AppendEmpty(content);
  }

  lemma {:induction false} DigitsMonotone(a: nat, b: nat)
    requires a <= b
    ensures |Digits(a)| <= |Digits(b)|
  {
    if a >= 10 {
      DigitsMonotone(a / 10, b / 10);
    }
  }

  /** How storage behaves while one piece is written, and what other sessions do before it. */
  datatype Fault = Fault(spillOk: bool, short: Option<nat>, others: seq<S.Act>)

  const NO_FAULT := Fault(true, None, [])

  /** How many spools others may open while these pieces are written. */
  function Opened(faults: seq<Fault>): nat {
    if faults == [] then 0 else Opened(faults[1..]) + S.Opened(faults[0].others)
  }

  /** No other session acts. */
  predicate Undisturbed(faults: seq<Fault>) { forall i :: 0 <= i < |faults| ==> faults[i].others == [] }

  function FirstFault(faults: seq<Fault>): Fault { if faults == [] then NO_FAULT else faults[0] }

  function LaterFaults(faults: seq<Fault>): seq<Fault> { if faults == [] then [] else faults[1..] }

  lemma FaultsLeft(faults: seq<Fault>)
    ensures Opened(faults) == S.Opened(FirstFault(faults).others) + Opened(LaterFaults(faults))
    ensures Undisturbed(faults) ==> FirstFault(faults).others == [] && Undisturbed(LaterFaults(faults))
  {
  }

  /** From `before` to `after` spool `id` got `text`, unless storage `failed`; the session's other
      spools are as they were, other sessions opened at most `others` spools, and when they were
      `quiet` nothing but spool `id` changed. */
  ghost predicate Appended(before: seq<S.Spool>, after: seq<S.Spool>, id: nat, mine: set<nat>, text: string,
                           failed: bool, others: nat, quiet: bool) {
    && id < |before| <= |after| <= |before| + others
    && after[id].activity.Idle? && !after[id].closed
    && (!failed ==> after[id].Content() == before[id].Content() + text)
    && (forall i :: i in mine && i != id ==> i < |before| && after[i] == before[i])
    && (quiet ==> after == before[id := after[id]])
  }

  lemma AppendedMore(a: seq<S.Spool>, b: seq<S.Spool>, c: seq<S.Spool>, id: nat, mine: set<nat>, x: string, y: string,
                     failed: bool, fails: bool, m: nat, n: nat, quiet: bool, still: bool)
    requires Appended(a, b, id, mine, x, failed, m, quiet) && Appended(b, c, id, mine, y, fails, n, still)
    requires failed ==> fails
    ensures Appended(a, c, id, mine, x + y, fails, m + n, quiet && still)
  {
    if !fails {
      Assoc(a[id].Content(), x, y);
    }
  }

  /** How much of the `left` octets the `i`-th piece takes. */
  function PieceSize(pieces: seq<nat>, i: nat, left: nat): (n: nat)
    requires left > 0
    ensures 0 < n <= left
  {
    if i < |pieces| && 0 < pieces[i] < left then pieces[i] else left
  }

  lemma AppendedNothing(spools: seq<S.Spool>, id: nat, mine: set<nat>, src: string, quiet: bool)
    requires id < |spools| && spools[id].activity.Idle? && !spools[id].closed && forall i :: i in mine ==> i < |spools|
    ensures Appended(spools, spools, id, mine, src[..0], false, 0, quiet)
  {
    AppendEmpty(spools[id].Content());
  }

  lemma AppendedAtMost(before: seq<S.Spool>, after: seq<S.Spool>, id: nat, mine: set<nat>, text: string, failed: bool,
                       others: nat, most: nat, quiet: bool)
    requires Appended(before, after, id, mine, text, failed, others, quiet) && others <= most
    ensures Appended(before, after, id, mine, text, failed, most, quiet)
  {
  }

  /** The chunk writer: after the first storage failure octets are taken but not stored. */
  method StorePiece(m: S.SpoolManager, id: nat, mine: set<nat>, piece: string, fault: Fault, failed: Option<S.Error>,
                    ghost spare: nat)
    returns (err: Option<S.Error>)
    requires m.Valid() && id in mine && forall i :: i in mine ==> i < |m.spools|
    requires m.spools[id].activity.Idle? && !m.spools[id].closed
    modifies m
    ensures m.Valid() && (failed.Some? ==> err == failed)
    ensures Appended(old(m.spools), m.spools, id, mine, piece, err.Some?, S.Opened(fault.others), fault.others == [])
    ensures failed == None && fault == NO_FAULT && old(m.HasRoom(id, |piece| + spare)) ==>
      err == None && m.HasRoom(id, spare)
  {
    S.OthersAct(m, mine, fault.others);
    err := failed;
    if failed == None {
      var n;
      n, err := m.Write(id, piece, fault.spillOk, fault.short);
      TakeWhole(piece);
    }
  }

  /** One turn of the copy: the `n` octets of `src` from `at` on. */
  method CopyPiece(m: S.SpoolManager, id: nat, mine: set<nat>, src: string, at: nat, n: nat, left: seq<Fault>,
                   failed: Option<S.Error>, ghost before: seq<S.Spool>, ghost others: nat, ghost quiet: bool,
                   ghost spare: nat)
    returns (err: Option<S.Error>, later: seq<Fault>, ghost more: nat)
    requires m.Valid() && id in mine && at + n <= |src| && (quiet ==> Undisturbed(left))
    requires Appended(before, m.spools, id, mine, src[..at], failed.Some?, others, quiet)
    modifies m
    ensures m.Valid() && (failed.Some? ==> err == failed)
    ensures more + Opened(later) == others + Opened(left) && (quiet ==> Undisturbed(later))
    ensures Appended(before, m.spools, id, mine, src[..at + n], err.Some?, more, quiet)
    ensures failed == None && left == [] && old(m.HasRoom(id, n + spare)) ==>
      err == None && later == [] && m.HasRoom(id, spare)
  {
    FaultsLeft(left);
    var fault := FirstFault(left);
    later, more := LaterFaults(left), others + S.Opened(fault.others);
    ghost var spools := m.spools;
    err := StorePiece(m, id, mine, src[at..at + n], fault, failed, spare);
    PieceAppended(src, at, n);
    AppendedMore(before, spools, m.spools, id, mine, src[..at], src[at..at + n], failed.Some?, err.Some?,
                 others, S.Opened(fault.others), quiet, fault.others == []);
  }

  /** The copy loop: the first `end` octets of `src`, in pieces of any sizes. */
  method CopyPieces(m: S.SpoolManager, id: nat, mine: set<nat>, src: string, end: nat, pieces: seq<nat>,
                    faults: seq<Fault>, ghost spare: nat)
    returns (at: nat, err: Option<S.Error>)
    requires m.Valid() && id in mine && end <= |src| && forall i :: i in mine ==> i < |m.spools|
    requires m.spools[id].activity.Idle? && !m.spools[id].closed
    modifies m
    ensures m.Valid() && at == end
    ensures Appended(old(m.spools), m.spools, id, mine, src[..at], err.Some?, Opened(faults), Undisturbed(faults))
    ensures faults == [] && old(m.HasRoom(id, end + spare)) ==> err == None && m.HasRoom(id, spare)
  {
    at, err := 0, None;
    var i, left := 0, faults;
    ghost var others: nat, quiet := 0, Undisturbed(faults);
    ghost var sure := faults == [] && m.HasRoom(id, end + spare);
    AppendedNothing(m.spools, id, mine, src, quiet);
    while at < end
      invariant 0 <= at <= end && m.Valid()
      invariant others + Opened(left) == Opened(faults) && (quiet ==> Undisturbed(left))
      invariant Appended(old(m.spools), m.spools, id, mine, src[..at], err.Some?, others, quiet)
      invariant sure ==> left == [] && err == None && m.HasRoom(id, end - at + spare)
    {
      var n := PieceSize(pieces, i, end - at);
      err, left, others := CopyPiece(m, id, mine, src, at, n, left, err, old(m.spools), others, quiet,
                                     end - at - n + spare);
      at, i := at + n, i + 1;
    }
    AppendedAtMost(old(m.spools), m.spools, id, mine, src[..at], err.Some?, others, Opened(faults), quiet);
  }

  /** Copies the `size` announced octets of `src` to the spool in pieces of any sizes. The first
      storage failure is remembered, yet every announced octet is still taken. */
  method CopyChunk(m: S.SpoolManager, id: nat, mine: set<nat>, src: string, size: nat, pieces: seq<nat>,
                   faults: seq<Fault>, ghost spare: nat)
    returns (rest: string, err: Option<S.Error>, complete: bool)
    requires m.Valid() && id in mine && forall i :: i in mine ==> i < |m.spools|
    requires m.spools[id].activity.Idle? && !m.spools[id].closed
    modifies m
    ensures m.Valid() && (complete <==> size <= |src|)
    ensures rest == if complete then src[size..] else []
    ensures Appended(old(m.spools), m.spools, id, mine, src[..Min(size, |src|)], err.Some?, Opened(faults),
                     Undisturbed(faults))
    ensures complete && faults == [] && old(m.HasRoom(id, size + spare)) ==> err == None && m.HasRoom(id, spare)
  {
    var at;
    at, err := CopyPieces(m, id, mine, src, Min(size, |src|), pieces, faults, spare);
    rest := src[at..];
    complete := at == size;
  }

  lemma PieceAppended(src: string, at: nat, n: nat)
    requires at + n <= |src|
    ensures src[..at] + src[at..at + n] == src[..at + n]
  {
  }

  /** Takes the announced octets off the connection and throws them away. */
  method DiscardChunk(src: string, size: nat, pieces: seq<nat>) returns (rest: string, complete: bool)
    ensures complete <==> size <= |src|
    ensures rest == if complete then src[size..] else []
  {
    var end := Min(size, |src|);
    var at, i := 0, 0;
    while at < end
      invariant 0 <= at <= end
    {
      var n := PieceSize(pieces, i, end - at);
      at, i := at + n, i + 1;
    }
    return src[at..], at == size;
  }

  /** The message can be read and what is still missing of it fits the spool. */
  ghost predicate Fits(m: S.SpoolManager, id: nat, whole: Message)
    reads m
  {
    && whole.Message? && id < |m.spools| && |m.spools[id].Content()| <= |whole.content|
    && m.HasRoom(id, |whole.content| - |m.spools[id].Content()|)
  }

  /** How many octets of the message are still to come. */
  ghost function Missing(whole: Message, content: string): nat {
    if whole.Message? && |content| <= |whole.content| then |whole.content| - |content| else 0
  }

  lemma {:induction false} MessageGrows(src: string, maxLine: nat, limit: nat, before: string)
    ensures var r := ReadMessage(src, maxLine, limit, before); r.Message? ==> |before| <= |r.content|
    decreases |src|
  {
    var frame := ReadFrame(src, maxLine, limit);
    if frame.Chunk? && !frame.last {
      MessageGrows(frame.rest, maxLine, limit, before + frame.chunk);
    }
  }

  /** The chunk of a frame goes to the spool; `rest` follows it on the connection. */
  method StoreFrame(m: S.SpoolManager, id: nat, chunk: string, rest: string, pieces: seq<nat>, faults: seq<Fault>,
                    ghost spare: nat)
    returns (left: string, ok: bool)
    requires m.Valid() && id < |m.spools| && m.spools[id].activity.Idle? && !m.spools[id].closed
    modifies m
    ensures m.Valid() && id < |m.spools| && m.spools[id].activity.Idle? && !m.spools[id].closed && left == rest
    ensures ok ==> m.spools[id].Content() == old(m.spools)[id].Content() + chunk
    ensures faults == [] && old(m.HasRoom(id, |chunk| + spare)) ==> ok && m.HasRoom(id, spare)
  {
    TakeDrop(chunk, rest);
    var err, complete;
    left, err, complete := CopyChunk(m, id, {id}, chunk + rest, |chunk|, pieces, faults, spare);
    ok := err.None?;
  }

  /** The server's side of a chunked message: frames are read and stored until LAST. */
  method CollectMessage(m: S.SpoolManager, id: nat, wire: string, maxLine: nat, limit: nat,
                        plan: seq<(seq<nat>, seq<Fault>)>)
    returns (stored: Message)
    requires m.Valid() && id < |m.spools| && m.spools[id].activity.Idle? && !m.spools[id].closed
    modifies m
    ensures m.Valid() && id < |m.spools|
    ensures stored.Message? ==> stored == ReadMessage(wire, maxLine, limit, old(m.spools)[id].Content())
    ensures stored.Message? ==> m.spools[id].Content() == stored.content
    ensures plan == [] && old(Fits(m, id, ReadMessage(wire, maxLine, limit, m.spools[id].Content()))) ==>
      stored.Message?
  {
    var rest, i := wire, 0;
    ghost var whole := ReadMessage(wire, maxLine, limit, m.spools[id].Content());
    while true
      invariant m.Valid() && id < |m.spools| && m.spools[id].activity.Idle? && !m.spools[id].closed
      invariant whole == ReadMessage(rest, maxLine, limit, m.spools[id].Content())
      invariant plan == [] && old(Fits(m, id, whole)) ==> Fits(m, id, whole)
      decreases |rest|
    {
      var frame := ReadFrame(rest, maxLine, limit);
      if frame.Refused? {
        return NoMessage;
      }
      var pieces, faults := [], [];
      if i < |plan| {
        pieces, faults := plan[i].0, plan[i].1;
      }
      if !frame.last {
        MessageGrows(frame.rest, maxLine, limit, m.spools[id].Content() + frame.chunk);
      }
      var left, ok := StoreFrame(m, id, frame.chunk, frame.rest, pieces, faults,
                                 Missing(whole, m.spools[id].Content() + frame.chunk));
      if !ok {
        return NoMessage;
      }
      if frame.last {
        return Message(m.spools[id].Content(), left);
      }
      rest, i := left, i + 1;
    }
  }

  /** From the client's chunk loop to the backend's reader, other sessions acting in between:
      when storage does not fail, the spool holds exactly the content, the backend reads the
      trace header followed by it, and `suffix` stays unread. */
  method Relay(m: S.SpoolManager, id: nat, header: string, content: string, size: nat, suffix: string,
               maxLine: nat, limit: nat, plan: seq<(seq<nat>, seq<Fault>)>)
    returns (delivered: Message)
    requires m.Valid() && id < |m.spools| && m.spools[id].activity.Idle? && !m.spools[id].closed
    requires m.spools[id].Content() == []
    requires 0 < size <= limit <= MAX_INT64 && maxLine >= |Digits(size)| + 12
    modifies m
    ensures m.Valid() && id < |m.spools|
    ensures delivered.Message? ==> m.spools[id].Content() == content && delivered == Message(header + content, suffix)
    ensures plan == [] && old(m.HasRoom(id, |content|)) ==> delivered.Message?
  {
    var wire := SendContent(content, size);
    ContentRoundTrip(content, size, suffix, maxLine, limit);
    var stored := CollectMessage(m, id, wire + suffix, maxLine, limit, plan);
    if stored.NoMessage? {
      return NoMessage;
    }
    return Message(header + m.spools[id].Content(), stored.rest);
  }
}
