/** How a client classifies failures once the server may have accepted a message
    (smtpclient/finalstatus.go), and the calls that complete a transaction
    (smtpclient/data.go, ext_a_transport.go, lmtp.go). */
module FinalStatus {
  import opened Prelude
  import opened Delivery
  import opened DotStuffing

  /** An error value: a context error, a local one, or an SMTP error with the code of a
      received reply (0 when none was) and possibly the unknown-status mark. */
  datatype Error = Context | Local | Smtp(code: int, marked: bool)

  predicate Marked(e: Error) { e.Smtp? && e.marked }

  const TRANSPORT := Smtp(0, false)

  function UnknownStream(e: Error): Error {
    if Marked(e) then e else if e.Smtp? then e.(marked := true) else Smtp(0, true)
  }

  function Unknown(e: Error): Error {
    if e.Smtp? && e.code != 0 then e else UnknownStream(e)
  }

  // ----------------------------------------------------------------- the peer

  /** What reading a reply meets. */
  datatype Event = Reply(code: int) | Lost | Cancelled

  /** The pipeline's read: a 421 ends the session and is an error. */
  function ReadReply(events: seq<Event>, i: nat): Result<int, Error> {
    if i >= |events| || events[i].Lost? then Err(TRANSPORT)
    else if events[i].Cancelled? then Err(Context)
    else if events[i].code == 421 then Err(Smtp(421, false))
    else Ok(events[i].code)
  }

  /** What the server decided for each recipient, against the replies it sends: nothing
      without the completing octets; in SMTP one reply decides for all, 250 accepting; in
      LMTP a reply other than 421 decides for the recipient it answers. A server that falls
      silent may have decided anything. */
  ghost predicate Truth(lmtp: bool, completed: bool, events: seq<Event>, accepted: seq<bool>) {
    if !completed then forall i :: 0 <= i < |accepted| ==> !accepted[i]
    else if lmtp then
      forall i :: 0 <= i < |accepted| && (forall k :: 0 <= k <= i ==> ReadReply(events, k).Ok?) ==>
        (accepted[i] <==> RecipientResult("", ReadReply(events, i).value).Accepted())
    else
      events != [] && events[0].Reply? ==> forall i :: 0 <= i < |accepted| ==> (accepted[i] <==> events[0].code == 250)
  }

  /** The check for a reply beyond the last recipient's. */
  datatype Probe = Quiet | Buffered | Extra | ProbeLost

  datatype ClientState = Base | Transaction | Closed

  /** A result and an error, as the calls return them. */
  datatype Completion = Completion(result: seq<RecipientResult>, error: Option<Error>)

  /** The results carry the replies received, for the recipients in order. */
  predicate Attributed(recipients: seq<string>, events: seq<Event>, result: seq<RecipientResult>) {
    && |result| <= |recipients|
    && forall i :: 0 <= i < |result| ==>
      ReadReply(events, i).Ok? && result[i] == RecipientResult(recipients[i], ReadReply(events, i).value)
  }

  /** Every recipient got the one final reply. */
  predicate Shared(recipients: seq<string>, code: int, result: seq<RecipientResult>) {
    |result| == |recipients| && forall i :: 0 <= i < |result| ==> result[i] == RecipientResult(recipients[i], code)
  }

  /** The three-way contract, for one set of decisions of the server. */
  ghost predicate Contract(lmtp: bool, events: seq<Event>, recipients: seq<string>, accepted: seq<bool>, c: Completion)
    requires |accepted| == |recipients|
  {
    match c.error
    case None =>
      && |c.result| == |recipients|
      && (if lmtp then Attributed(recipients, events, c.result) else Shared(recipients, 250, c.result))
      && (forall i :: 0 <= i < |recipients| ==> (accepted[i] <==> c.result[i].Accepted()))
    case Some(e) =>
      if Marked(e) then
        && Attributed(recipients, events, c.result)
        && (c.result != [] ==> lmtp && |c.result| < |recipients| && ReadReply(events, |c.result|).Err?)
        && (forall i :: 0 <= i < |c.result| ==> (accepted[i] <==> c.result[i].Accepted()))
      else c.result == [] && (forall i :: 0 <= i < |accepted| ==> !accepted[i])
  }

  /** The contract holds whatever the server decided. */
  ghost predicate ThreeWay(lmtp: bool, completed: bool, events: seq<Event>, recipients: seq<string>, c: Completion) {
    forall accepted: seq<bool> :: |accepted| == |recipients| && Truth(lmtp, completed, events, accepted) ==>
      Contract(lmtp, events, recipients, accepted, c)
  }

  /** The replies decide for every recipient: all came, and no other; or the one came. */
  predicate Decided(lmtp: bool, events: seq<Event>, count: nat, probe: Probe) {
    if lmtp then probe == Quiet && forall i :: 0 <= i < count ==> ReadReply(events, i).Ok?
    else events != [] && events[0].Reply?
  }

  predicate Unsure(c: Completion) { c.error.Some? && Marked(c.error.value) }

  /** What an uncertain LMTP call keeps of the replies: exactly those before the first that could
      not be read; none of them when all were read but another followed. */
  predicate Received(recipients: seq<string>, events: seq<Event>, result: seq<RecipientResult>) {
    && Attributed(recipients, events, result)
    && if forall i :: 0 <= i < |recipients| ==> ReadReply(events, i).Ok? then result == []
       else |result| < |recipients| && ReadReply(events, |result|).Err?
  }

  /** The error of an SMTP server's final reply. */
  function ReplyError(code: int): Option<Error> { if code == 250 then None else Some(Smtp(code, false)) }

  // ------------------------------------------------------- the ways a call can end

  lemma NeverSent(lmtp: bool, events: seq<Event>, recipients: seq<string>, e: Error)
    requires !Marked(e)
    ensures ThreeWay(lmtp, false, events, recipients, Completion([], Some(e)))
  {
  }

  lemma StatusUnknown(lmtp: bool, completed: bool, events: seq<Event>, recipients: seq<string>, e: Error)
    requires Marked(e)
    ensures ThreeWay(lmtp, completed, events, recipients, Completion([], Some(e)))
  {
  }

  /** In SMTP a reply received that is not 250 settles the matter. */
  lemma Refused(events: seq<Event>, recipients: seq<string>, e: Error)
    requires events != [] && events[0].Reply? && events[0].code != 250 && !Marked(e)
    ensures ThreeWay(false, true, events, recipients, Completion([], Some(e)))
  {
  }

  lemma SharedReply(events: seq<Event>, recipients: seq<string>, result: seq<RecipientResult>)
    requires events != [] && events[0] == Reply(250) && Shared(recipients, 250, result)
    ensures ThreeWay(false, true, events, recipients, Completion(result, None))
  {
  }

  /** In LMTP the replies received are authoritative for the recipients they answer. */
  lemma RepliesSettle(events: seq<Event>, recipients: seq<string>, accepted: seq<bool>, result: seq<RecipientResult>)
    requires |accepted| == |recipients| && Truth(true, true, events, accepted) && Attributed(recipients, events, result)
    ensures forall i :: 0 <= i < |result| ==> (accepted[i] <==> result[i].Accepted())
  {
    forall i | 0 <= i < |result| ensures accepted[i] <==> result[i].Accepted() {
      assert ReadReply(events, i).Ok?;
      assert forall k :: 0 <= k < i ==> ReadReply(events, k).Ok?;
    }
  }

  lemma StreamOutcome(events: seq<Event>, recipients: seq<string>, result: seq<RecipientResult>, error: Option<Error>)
    requires Attributed(recipients, events, result)
    requires error.None? ==> |result| == |recipients|
    requires error.Some? ==> Marked(error.value) && |result| < |recipients| && ReadReply(events, |result|).Err?
    ensures ThreeWay(true, true, events, recipients, Completion(result, error))
  {
    forall accepted: seq<bool> | |accepted| == |recipients| && Truth(true, true, events, accepted)
      ensures Contract(true, events, recipients, accepted, Completion(result, error))
    {
      RepliesSettle(events, recipients, accepted, result);
    }
  }

  /** A failed read of the SMTP final reply stays unmarked only for a received 421. */
  lemma FailedRead(events: seq<Event>, recipients: seq<string>, e: Error)
    requires ReadReply(events, 0) == Err(e)
    ensures ThreeWay(false, true, events, recipients, Completion([], Some(Unknown(e))))
  {
    if e == Smtp(421, false) {
      Refused(events, recipients, e);
    } else {
      StatusUnknown(false, true, events, recipients, Unknown(e));
    }
  }

  /** The failure of a command that had to be answered with `want`. */
  function CommandError(answer: Event, want: int): (e: Option<Error>)
    ensures e.Some? ==> !Marked(e.value)
    ensures want != 421 ==> (e.None? <==> answer == Reply(want))
  {
    var reply := ReadReply([answer], 0);
    if reply.Err? then Some(reply.error) else if reply.value == want then None else Some(Smtp(reply.value, false))
  }

  /** A piece of content on its way through the copy loop of DATA. */
  datatype Upload = Upload(octets: string, turn: Turn)

  predicate AllWritten(uploads: seq<Upload>) { forall i :: 0 <= i < |uploads| ==> uploads[i].turn == Written }

  /** The content handed to the stuffing writer: up to the first piece that fails, and that
      piece too when it was its write that failed. */
  function HandedOver(uploads: seq<Upload>): string {
    if uploads == [] then ""
    else if uploads[0].turn == Written then uploads[0].octets + HandedOver(uploads[1..])
    else if uploads[0].turn == WriteFails then uploads[0].octets
    else ""
  }

  /** What the stuffing writer gets of one piece. */
  function Given(u: Upload): string { if u.turn == Written || u.turn == WriteFails then u.octets else "" }

  /** The copy loop at piece `i`: all before it were written, and `content` is what was handed over. */
  ghost predicate Copied(uploads: seq<Upload>, i: nat, content: string, stopped: bool) {
    && i <= |uploads| && AllWritten(uploads[..i])
    && if stopped then i < |uploads| && uploads[i].turn != Written && content == HandedOver(uploads)
       else content + HandedOver(uploads[i..]) == HandedOver(uploads)
  }

  lemma CopyBegins(uploads: seq<Upload>)
    ensures Copied(uploads, 0, "", false)
  {
    assert uploads[0..] == uploads;
    AppendEmpty(HandedOver(uploads));
  }

  /** One more piece, of which the writer got the octets unless the piece failed before. */
  lemma CopyGoesOn(uploads: seq<Upload>, i: nat, before: string, after: string)
    requires i < |uploads| && Copied(uploads, i, before, false)
    requires after == before + Given(uploads[i])
    ensures if uploads[i].turn == Written then Copied(uploads, i + 1, after, false) else Copied(uploads, i, after, true)
  {
    var tail := uploads[i..];
    assert tail[0] == uploads[i] && tail[1..] == uploads[i + 1..];
    assert uploads[..i + 1] == uploads[..i] + [uploads[i]];
    Assoc(before, uploads[i].octets, HandedOver(uploads[i + 1..]));
    AppendEmpty(before);
  }

  lemma CopyEnds(uploads: seq<Upload>, content: string, stopped: bool, i: nat)
    requires Copied(uploads, i, content, stopped) && (stopped || i == |uploads|)
    ensures content == HandedOver(uploads) && (AllWritten(uploads) <==> !stopped)
  {
    if !stopped {
      TakeWhole(uploads);
      assert uploads[i..] == [];
      AppendEmpty(content);
    }
  }

  /** The answer to the `i`-th chunk; a server that says nothing is lost. */
  function AnswerTo(answers: seq<Event>, i: nat): Event { if i < |answers| then answers[i] else Lost }

  /** Every chunk before the last was written and answered with 250. */
  predicate ChunksTaken(turns: seq<Turn>, answers: seq<Event>) {
    forall i :: 0 <= i < |turns| ==> turns[i] == Written && AnswerTo(answers, i) == Reply(250)
  }

  // ----------------------------------------------------------------- the calls

  /** One turn of an upload loop: how the source, the context and the connection behave. */
  datatype Turn = Written | ContextDone | SourceFails | WriteFails

  class Client {
    const lmtp: bool
    var state: ClientState
    var recipients: seq<string>

    constructor (lmtp: bool, recipients: seq<string>)
      ensures this.lmtp == lmtp && state == Transaction && this.recipients == recipients
    {
      this.lmtp, state, this.recipients := lmtp, Transaction, recipients;
    }

    method Poison()
      modifies `state
      ensures state == Closed
    {
      state := Closed;
    }

    /** The transaction is over on a connection that is still open. */
    method Settle()
      modifies this
      ensures old(state) == Closed ==> unchanged(this)
      ensures old(state) != Closed ==> state == Base && recipients == []
    {
      if state != Closed {
        state, recipients := Base, [];
      }
    }

    /** The replies of an LMTP server from recipient `from` on, then the probe. */
    method ReadStream(names: seq<string>, events: seq<Event>, probe: Probe, given: seq<RecipientResult>)
      returns (c: Completion)
      requires Attributed(names, events, given)
      modifies `state
      ensures ThreeWay(true, true, events, names, c)
      ensures c.error.None? <==> Decided(true, events, |names|, probe)
      ensures c.error.Some? ==> Unsure(c) && Received(names, events, c.result)
      ensures state == if c.error.Some? then Closed else old(state)
    {
      var result := given;
      while |result| < |names|
        invariant Attributed(names, events, result)
        invariant state == old(state)
        decreases |names| - |result|
      {
        var reply := ReadReply(events, |result|);
        if reply.Err? {
          Poison();
          StreamOutcome(events, names, result, Some(UnknownStream(reply.error)));
          return Completion(result, Some(UnknownStream(reply.error)));
        }
        result := result + [RecipientResult(names[|result|], reply.value)];
      }
      if probe != Quiet {
        Poison();
        StatusUnknown(true, true, events, names, UnknownStream(TRANSPORT));
        return Completion([], Some(UnknownStream(TRANSPORT)));
      }
      StreamOutcome(events, names, result, None);
      return Completion(result, None);
    }

    /** The single final reply of an SMTP server, copied to every recipient. */
    method ShareReply(names: seq<string>, events: seq<Event>, code: int) returns (c: Completion)
      requires events != [] && events[0] == Reply(code)
      ensures ThreeWay(false, true, events, names, c)
      ensures c.error == ReplyError(code)
    {
      if code != 250 {
        Refused(events, names, Smtp(code, false));
        return Completion([], Some(Smtp(code, false)));
      }
      var result := [];
      for i := 0 to |names|
        invariant |result| == i && forall k :: 0 <= k < i ==> result[k] == RecipientResult(names[k], code)
      {
        result := result + [RecipientResult(names[i], code)];
      }
      SharedReply(events, names, result);
      return Completion(result, None);
    }

    /** The single final reply, or the per-recipient stream. */
    method FinalReplies(names: seq<string>, events: seq<Event>, probe: Probe) returns (c: Completion)
      modifies this
      ensures ThreeWay(lmtp, true, events, names, c)
      ensures Unsure(c) <==> !Decided(lmtp, events, |names|, probe)
      ensures Unsure(c) ==> if lmtp then Received(names, events, c.result) else c.result == []
      ensures !lmtp && !Unsure(c) ==> c.error == ReplyError(events[0].code)
      ensures c.error.None? && old(state) != Closed ==> state == Base && recipients == []
    {
      if lmtp {
        c := ReadStream(names, events, probe, []);
        if c.error.None? {
          Settle();
        }
        return;
      }
      var reply := ReadReply(events, 0);
      if reply.Err? {
        Poison();
        FailedRead(events, names, reply.error);
        return Completion([], Some(Unknown(reply.error)));
      }
      Settle();
      c := ShareReply(names, events, reply.value);
    }

    /** The copy loop up to the end of the source; any failure closes the connection. */
    method Copy(w: DotStuffWriter, uploads: seq<Upload>) returns (stopped: Option<Error>)
      requires w.Open() && w.room.None? && w.content == ""
      modifies w, `state
      ensures w.Open() && w.room.None? && w.content == HandedOver(uploads)
      ensures stopped.None? <==> AllWritten(uploads)
      ensures state == if stopped.None? then old(state) else Closed
      ensures stopped.Some? ==> !Marked(stopped.value)
    {
      CopyBegins(uploads);
      stopped := None;
      var i := 0;
      while i < |uploads| && stopped.None?
        invariant w.Open() && w.room.None? && Copied(uploads, i, w.content, stopped.Some?)
        invariant stopped.Some? ==> !Marked(stopped.value)
        invariant state == if stopped.None? then old(state) else Closed
        decreases |uploads| - i, stopped.None?
      {
        ghost var before := w.content;
        stopped := CopyOne(w, uploads[i]);
        CopyGoesOn(uploads, i, before, w.content);
        if stopped.None? {
          i := i + 1;
        }
      }
      CopyEnds(uploads, w.content, stopped.Some?, i);
    }

    /** One piece: read from the source, stuffed and written. */
    method CopyOne(w: DotStuffWriter, u: Upload) returns (stopped: Option<Error>)
      requires w.Open() && w.room.None?
      modifies w, `state
      ensures w.Open() && w.room.None?
      ensures w.content == old(w.content) + Given(u)
      ensures stopped.None? <==> u.turn == Written
      ensures state == if stopped.None? then old(state) else Closed
      ensures stopped.Some? ==> !Marked(stopped.value)
    {
      if u.turn == Written || u.turn == WriteFails {
        var n, ok := w.Write(u.octets);
      }
      if u.turn == Written {
        return None;
      }
      Poison();
      return Some(if u.turn == ContextDone then Context else TRANSPORT);
    }

    /** DATA: `go` answers the command, `uploads` is the copy loop, `closed` the write of the
        terminator, `cancelled` the context after it. Some part of `sent` reaches the server;
        without the terminator no part of it is read as a message. */
    method Data(go: Event, uploads: seq<Upload>, closed: bool, cancelled: bool, events: seq<Event>, probe: Probe)
      returns (c: Completion, ghost completed: bool, ghost sent: string)
      modifies this
      ensures ThreeWay(lmtp, completed, events, old(recipients), c)
      ensures Unsure(c) <==> completed && (!closed || cancelled || !Decided(lmtp, events, |old(recipients)|, probe))
      ensures Unsure(c) ==>
        if lmtp && closed && !cancelled then Received(old(recipients), events, c.result) else c.result == []
      ensures completed && !lmtp && !Unsure(c) ==> c.error == ReplyError(events[0].code)
      ensures c.error.None? ==> completed && state == Base && recipients == []
      ensures completed <==> old(state) == Transaction && (lmtp || old(recipients) != []) && go == Reply(354)
                             && AllWritten(uploads)
      ensures completed ==> sent == Wire(HandedOver(uploads))
      ensures !completed ==> forall received :: received <= sent ==> Unstuff(received, true, false).ending != EndOfData
    {
      completed, sent := false, "";
      var names := recipients;
      var stopped := Some(Local);
      var w := new DotStuffWriter(None);
      if state == Transaction && (lmtp || names != []) {
        stopped := CommandError(go, 354);
        if stopped.None? {
          stopped := Copy(w, uploads);
          sent := w.out;
        }
      }
      if stopped.Some? {
        NeverSent(lmtp, events, names, stopped.value);
        forall received | received <= sent ensures Unstuff(received, true, false).ending != EndOfData {
          HoldingNeverEnds(w.content, received);
        }
        return Completion([], stopped), false, sent;
      }
      completed := true;
      var ended := w.Close();
      sent := w.out;
      if !closed || cancelled {
        Poison();
        var e := Unknown(if closed then Context else TRANSPORT);
        StatusUnknown(lmtp, true, events, names, e);
        return Completion([], Some(e)), true, sent;
      }
      c := FinalReplies(names, events, probe);
    }

    /** A BDAT chunk that is not the last: written, answered, and answered with 250. */
    method Chunks(turns: seq<Turn>, answers: seq<Event>) returns (stopped: Option<Error>)
      modifies `state
      ensures stopped.Some? ==> !Marked(stopped.value)
      ensures stopped.None? ==> state == old(state)
      ensures stopped.None? <==> ChunksTaken(turns, answers)
    {
      for i := 0 to |turns|
        invariant state == old(state)
        invariant forall k :: 0 <= k < i ==> turns[k] == Written && AnswerTo(answers, k) == Reply(250)
      {
        if turns[i] == SourceFails {
          return Some(Local);
        }
        if turns[i] != Written {
          Poison();
          return Some(if turns[i] == ContextDone then Context else TRANSPORT);
        }
        var answer := AnswerTo(answers, i);
        if CommandError(answer, 250).Some? {
          if ReadReply([answer], 0).Err? {
            Poison();
          }
          return CommandError(answer, 250);
        }
      }
      return None;
    }

    /** BDAT: the chunks before the last, then the last one and its replies. */
    method Bdat(turns: seq<Turn>, answers: seq<Event>, last: Turn, events: seq<Event>, probe: Probe)
      returns (c: Completion, ghost completed: bool)
      modifies this
      ensures ThreeWay(lmtp, completed, events, old(recipients), c)
      ensures Unsure(c) <==> completed && (last == WriteFails || !Decided(lmtp, events, |old(recipients)|, probe))
      ensures Unsure(c) ==>
        if lmtp && last == Written then Received(old(recipients), events, c.result) else c.result == []
      ensures completed && !lmtp && !Unsure(c) ==> c.error == ReplyError(events[0].code)
      ensures c.error.None? ==> completed && state == Base && recipients == []
      ensures completed <==> old(state) == Transaction && old(recipients) != []
                             && ChunksTaken(turns, answers) && (last == Written || last == WriteFails)
    {
      completed := false;
      var names := recipients;
      var stopped := Some(Local);
      if state == Transaction && names != [] {
        stopped := Chunks(turns, answers);
        if stopped.None? && last == ContextDone {
          Poison();
          stopped := Some(Context);
        } else if stopped.None? && last == SourceFails {
          stopped := Some(Local);
        }
      }
      if stopped.Some? {
        NeverSent(lmtp, events, names, stopped.value);
        return Completion([], stopped), false;
      }
      completed := true;
      if last == WriteFails {
        Poison();
        StatusUnknown(lmtp, true, events, names, Unknown(TRANSPORT));
        return Completion([], Some(Unknown(TRANSPORT))), true;
      }
      c := LastReplies(names, events, probe);
    }

    /** The first reply to BDAT LAST closes the transaction before the others are read. */
    method LastReplies(names: seq<string>, events: seq<Event>, probe: Probe) returns (c: Completion)
      requires names != [] && state == Transaction
      modifies this
      ensures ThreeWay(lmtp, true, events, names, c)
      ensures Unsure(c) <==> !Decided(lmtp, events, |names|, probe)
      ensures Unsure(c) ==> if lmtp then Received(names, events, c.result) else c.result == []
      ensures !lmtp && !Unsure(c) ==> c.error == ReplyError(events[0].code)
      ensures c.error.None? ==> state == Base && recipients == []
    {
      var first := ReadReply(events, 0);
      if first.Err? {
        Poison();
        FailedRead(events, names, first.error);
        var e := if lmtp then UnknownStream(first.error) else Unknown(first.error);
        if lmtp {
          StatusUnknown(true, true, events, names, e);
        }
        return Completion([], Some(e));
      }
      Settle();
      if lmtp {
        c := ReadStream(names, events, probe, [RecipientResult(names[0], first.value)]);
      } else {
        c := ShareReply(names, events, first.value);
      }
    }
  }
}
