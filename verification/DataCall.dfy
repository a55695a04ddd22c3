/** Message content on its way to the backend: the size limiter, the incomplete-reader
    defence and DATA itself (smtpserver/data.go, smtpserver/cmd_data.go). */
module DataCall {
  import opened Prelude
  import opened Delivery

  datatype ReadError = NoError | Eof | TooLarge | Broken

  /** How the transport meets one read: a fault, or at most `size` octets, with the end of
      the content reported at once when `eager`. */
  datatype Turn = Fault | Give(size: nat, eager: bool)

  /** A framing reader over `left`; after the script it gives whatever it is asked for. */
  datatype Stream = Stream(left: string, script: seq<Turn>)

  datatype Chunk = Chunk(data: string, err: ReadError, next: Stream)

  function Pull(s: Stream, room: nat): (r: Chunk)
    ensures r.data + r.next.left == s.left && |r.data| <= room
    ensures r.err == Eof ==> r.next.left == []
    ensures r.err != TooLarge
    ensures room > 0 && r.err == NoError ==> |r.next.left| + |r.next.script| < |s.left| + |s.script|
  {
    if s.script == [] then
      var n := Min(room, |s.left|);
      Chunk(s.left[..n], if s.left == [] then Eof else NoError, Stream(s.left[n..], []))
    else if s.script[0].Fault? then
      Chunk("", Broken, s.(script := s.script[1..]))
    else
      var n := Min(room, Min(s.script[0].size, |s.left|));
      var err := if n == |s.left| && s.script[0].eager then Eof else NoError;
      Chunk(s.left[..n], err, Stream(s.left[n..], s.script[1..]))
  }

  // --------------------------------------------------------------- the limiter

  const BUFFER := 32768

  /** The fields of the limiter. */
  datatype Limit = Limit(source: Stream, remain: int, exceeded: bool, reported: bool) {
    function Left(): nat { |source.left| + |source.script| }
  }

  /** What one read through the limiter yields. */
  datatype LimitedRead = LimitedRead(next: Limit, data: string, err: ReadError)

  function ReadLimited(l: Limit, room: nat): (r: LimitedRead)
    requires l.remain >= 0
    ensures r.next.remain >= 0
    ensures room > 0 && r.err == NoError ==> r.next.Left() < l.Left()
  {
    if l.exceeded then
      var c := Pull(l.source, room);
      LimitedRead(l.(source := c.next), c.data, c.err)
    else
      var c := Pull(l.source, Min(room, l.remain + 1));
      PassedOn(l, c)
  }

  /** What a read within the limit makes of the octets that came: one more than allowed crosses it. */
  function PassedOn(l: Limit, c: Chunk): LimitedRead
    requires l.remain >= 0
  {
    if |c.data| <= l.remain then LimitedRead(l.(source := c.next, remain := l.remain - |c.data|), c.data, c.err)
    else LimitedRead(Limit(c.next, 0, true, true), c.data[..l.remain], TooLarge)
  }

  /** The reads of a copy to nowhere, up to the first error. */
  function Drained(l: Limit): (r: LimitedRead)
    requires l.remain >= 0
    ensures r.next.remain >= 0 && r.err != NoError
    decreases l.Left()
  {
    var r := ReadLimited(l, BUFFER);
    if r.err == NoError then Drained(r.next) else r
  }

  /** The reads of the incomplete-reader defence: a second copy follows the limit report. */
  function Finished(l: Limit): LimitedRead
    requires l.remain >= 0
  {
    var r := Drained(l);
    if r.err == TooLarge then Drained(r.next) else r
  }

  /** Either everything read so far was passed on and fits, or the content is longer than
      the limit, exactly `max` octets of it were passed on, and that was reported. */
  predicate Keeps(l: Limit, content: string, max: nat, passed: string) {
    if !l.exceeded then content == passed + l.source.left && !l.reported && l.remain == max - |passed| && l.remain >= 0
    else l.reported && l.remain == 0 && |content| > max && passed == content[..max]
  }

  class SizeEnforcingReader {
    const content: string
    const max: nat
    var limit: Limit
    /** The octets passed on before the limit was reported. */
    ghost var passed: string

    ghost predicate Valid()
      reads this
    {
      max < MAX_INT64 && Keeps(limit, content, max, passed)
    }

    constructor (source: Stream, max: nat)
      requires max < MAX_INT64
      ensures Valid() && content == source.left && this.max == max
      ensures limit == Limit(source, max, false, false) && passed == ""
    {
      this.content, this.max := source.left, max;
      limit, passed := Limit(source, max, false, false), "";
    }

    method Read(room: nat) returns (data: string, err: ReadError)
      requires Valid()
      modifies this
      ensures Valid()
      ensures LimitedRead(limit, data, err) == ReadLimited(old(limit), room)
      ensures passed == if old(limit.exceeded) then old(passed) else old(passed) + data
    {
      ReadKeeps(limit, content, max, passed, room);
      if limit.exceeded {
        data, err := Advance(room);
      } else {
        data, err := PassOn(Pull(limit.source, Min(room, limit.remain + 1)));
        passed := passed + data;
      }
    }

    /** Beyond the limit everything passes. */
    method Advance(room: nat) returns (data: string, err: ReadError)
      requires limit.remain >= 0 && limit.exceeded
      modifies `limit
      ensures LimitedRead(limit, data, err) == ReadLimited(old(limit), room)
    {
      var c := Pull(limit.source, room);
      limit := limit.(source := c.next);
      return c.data, c.err;
    }

    /** One octet more than allowed was asked for, to see the limit crossed. */
    method PassOn(c: Chunk) returns (data: string, err: ReadError)
      requires limit.remain >= 0
      modifies `limit
      ensures LimitedRead(limit, data, err) == PassedOn(old(limit), c)
    {
      var was := limit;
      if |c.data| <= was.remain {
        limit := was.(source := c.next, remain := was.remain - |c.data|);
        return c.data, c.err;
      }
      limit := Limit(c.next, 0, true, true);
      return c.data[..was.remain], TooLarge;
    }
  }

  /** A read passes on at most what is asked for, reports the limit exactly when it is
      crossed, and reaches the end of the content only at its end. */
  lemma ReadFacts(l: Limit, room: nat)
    requires l.remain >= 0
    ensures var r := ReadLimited(l, room);
      && |r.data| <= room
      && (r.err == TooLarge <==> !l.exceeded && r.next.exceeded) && (l.exceeded ==> r.next.exceeded)
      && (r.err == Eof ==> r.next.source.left == []) && |r.next.source.left| <= |l.source.left|
  {
  }

  lemma ReadKeeps(l: Limit, content: string, max: nat, passed: string, room: nat)
    requires Keeps(l, content, max, passed) && l.remain >= 0
    ensures var r := ReadLimited(l, room);
      Keeps(r.next, content, max, if l.exceeded then passed else passed + r.data)
  {
    if !l.exceeded {
      var c := Pull(l.source, Min(room, l.remain + 1));
      PassedKeeps(l, content, max, passed, c.data, c.next);
    }
  }

  /** What is kept when `data` came from the source and `next` is what it has left. */
  lemma PassedKeeps(l: Limit, content: string, max: nat, passed: string, data: string, next: Stream)
    requires Keeps(l, content, max, passed) && !l.exceeded && l.source.left == data + next.left
    ensures if |data| <= l.remain then
        Keeps(l.(source := next, remain := l.remain - |data|), content, max, passed + data)
      else Keeps(Limit(next, 0, true, true), content, max, passed + data[..l.remain])
  {
    if |data| <= l.remain {
      Assoc(passed, data, next.left);
    } else {
      PassedIsPrefix(content, passed, l.source.left, data, next.left, l.remain);
    }
  }

  lemma PassedIsPrefix(content: string, passed: string, left: string, data: string, rest: string, allowed: nat)
    requires content == passed + left && left == data + rest && allowed < |data|
    ensures passed + data[..allowed] == content[..|passed| + allowed] && |content| > |passed| + allowed
  {
  }

  // --------------------------------------------------------- the tracked reader

  /** Where a reader stands: what is left of the trace header, the limiter, and whether the
      end of the content was seen. */
  datatype View = View(header: string, limit: Limit, ended: bool)

  datatype ViewRead = ViewRead(next: View, data: string, err: ReadError)

  /** One read: of the header while there is any, then of the content. */
  function ReadView(v: View, room: nat): (r: ViewRead)
    requires v.limit.remain >= 0
    ensures r.next.limit.remain >= 0
  {
    if v.header != "" then
      var n := Min(room, |v.header|);
      ViewRead(v.(header := v.header[n..]), v.header[..n], NoError)
    else
      var r := ReadLimited(v.limit, room);
      ViewRead(v.(limit := r.next, ended := v.ended || r.err == Eof), r.data, r.err)
  }

  datatype Consumption = Consumption(view: View, octets: string)

  /** What a backend that makes these reads obtains, and where it leaves the reader. */
  function Consumed(v: View, rooms: seq<nat>): (r: Consumption)
    requires v.limit.remain >= 0
    ensures r.view.limit.remain >= 0
  {
    if rooms == [] then Consumption(v, "")
    else
      var before := Consumed(v, rooms[..|rooms| - 1]);
      var r := ReadView(before.view, rooms[|rooms| - 1]);
      Consumption(r.next, before.octets + r.data)
  }

  /** How the content ends: read to its end by the backend, or drained after it returned. */
  function Ended(v: View): View
    requires v.limit.remain >= 0
  {
    if v.ended then v else var r := Finished(v.limit); View("", r.next, r.err == Eof)
  }

  /** The trace header followed by the limited content, remembering whether the end was seen. */
  class TrackedReader {
    const limiter: SizeEnforcingReader
    const whole: string
    /** The part of the trace header still to be read. */
    var header: string
    var exhausted: bool
    /** Everything handed out before the limit was reported. */
    ghost var given: string

    ghost predicate Valid()
      reads this, limiter
    {
      && limiter.Valid()
      && (exhausted ==> header == "" && limiter.limit.source.left == [])
      && (header != "" ==> limiter.passed == "" && !limiter.limit.exceeded)
      && given + header == whole + limiter.passed
    }

    ghost function Now(): View
      reads this, limiter
    {
      View(header, limiter.limit, exhausted)
    }

    constructor (limiter: SizeEnforcingReader, header: string)
      requires limiter.Valid() && !limiter.limit.exceeded && limiter.passed == ""
      ensures Valid() && !exhausted && this.limiter == limiter && whole == this.header == header && given == ""
    {
      this.limiter, whole, this.header, exhausted, given := limiter, header, header, false, "";
    }

    method Read(room: nat) returns (data: string, err: ReadError)
      requires Valid()
      modifies this, limiter
      ensures Valid() && |data| <= room
      ensures exhausted <==> old(exhausted) || err == Eof
      ensures err == TooLarge <==> !old(limiter.limit.exceeded) && limiter.limit.exceeded
      ensures old(limiter.limit.exceeded) ==> limiter.limit.exceeded
      ensures !old(limiter.limit.exceeded) ==> given == old(given) + data
      ensures room > 0 && err == NoError ==> |header| + limiter.limit.Left() < old(|header| + limiter.limit.Left())
      ensures ViewRead(Now(), data, err) == ReadView(old(Now()), room)
    {
      if header != "" {
        var n := Min(room, |header|);
        data, err := header[..n], NoError;
        MoveFront(given, header, n);
        header := header[n..];
        given := given + data;
      } else {
        data, err := TakeContent(room);
      }
    }

    /** The header is behind: the limiter delivers. */
    method TakeContent(room: nat) returns (data: string, err: ReadError)
      requires Valid() && header == ""
      modifies this, limiter
      ensures Valid() && |data| <= room && header == ""
      ensures exhausted <==> old(exhausted) || err == Eof
      ensures err == TooLarge <==> !old(limiter.limit.exceeded) && limiter.limit.exceeded
      ensures old(limiter.limit.exceeded) ==> limiter.limit.exceeded
      ensures !old(limiter.limit.exceeded) ==> given == old(given) + data
      ensures room > 0 && err == NoError ==> limiter.limit.Left() < old(limiter.limit.Left())
      ensures LimitedRead(limiter.limit, data, err) == ReadLimited(old(limiter.limit), room)
    {
      ghost var before, over := limiter.passed, limiter.limit.exceeded;
      ReadFacts(limiter.limit, room);
      AppendEmpty(given);
      data, err := limiter.Read(room);
      if err == Eof {
        exhausted := true;
      }
      if !over {
        Assoc(whole, before, data);
        given := given + data;
      }
      AppendEmpty(given);
    }

    /** Copies to nowhere until a read ends it; the end of the content is no error. */
    method Drain() returns (err: ReadError)
      requires Valid() && !exhausted
      modifies this, limiter
      ensures Valid() && err != Eof
      ensures err == NoError <==> exhausted
      ensures err == TooLarge <==> !old(limiter.limit.exceeded) && limiter.limit.exceeded
      ensures old(limiter.limit.exceeded) ==> limiter.limit.exceeded
      ensures var r := Drained(old(limiter.limit));
        limiter.limit == r.next && err == if r.err == Eof then NoError else r.err
    {
      var data;
      err := NoError;
      while err == NoError
        invariant Valid()
        invariant err == Eof <==> exhausted
        invariant var r := Drained(old(limiter.limit));
          if err == NoError then r == Drained(limiter.limit) else r.next == limiter.limit && r.err == err
        invariant err != TooLarge ==> limiter.limit.exceeded == old(limiter.limit.exceeded)
        invariant err == TooLarge ==> !old(limiter.limit.exceeded) && limiter.limit.exceeded
        decreases err == NoError, |header| + limiter.limit.Left()
      {
        data, err := Read(BUFFER);
      }
      if err == Eof {
        err := NoError;
      }
    }

    /** The defence against a backend that returned early; false means the stream broke. */
    method Finish() returns (ok: bool)
      requires Valid() && !exhausted
      modifies this, limiter
      ensures Valid()
      ensures ok <==> exhausted
      ensures old(limiter.limit.exceeded) ==> limiter.limit.exceeded
      ensures limiter.limit == Ended(old(Now())).limit && exhausted == Ended(old(Now())).ended
    {
      var err := Drain();
      if err == TooLarge {
        err := Drain();
      }
      return err == NoError;
    }
  }

  // ------------------------------------------------------------------- results

  datatype Evaluation = Evaluation(result: seq<RecipientResult>, completed: bool, closeConnection: bool)

  const CLOSE := Evaluation([], false, true)

  /** One result, or one per recipient in the order of acceptance (section 4.2 of RFC 2033). */
  predicate Answers(mode: Mode, recipients: seq<string>, result: seq<RecipientResult>) {
    if mode == SMTP then |result| == 1
    else |result| == |recipients| && forall i :: 0 <= i < |result| ==> result[i].recipient == recipients[i]
  }

  predicate NoneAccepted(result: seq<RecipientResult>) {
    forall i :: 0 <= i < |result| ==> !result[i].Accepted()
  }

  /** The same reply for everyone: the temporary and the oversize result. */
  method UniformResult(mode: Mode, recipients: seq<string>, code: int) returns (result: seq<RecipientResult>)
    requires code >= 300
    ensures Answers(mode, recipients, result) && NoneAccepted(result)
    ensures forall i :: 0 <= i < |result| ==> result[i].code == code
  {
    var count := if mode == LMTP then |recipients| else 1;
    result := [];
    for i := 0 to count
      invariant |result| == i
      invariant forall k :: 0 <= k < i ==>
        result[k] == RecipientResult(if mode == LMTP then recipients[k] else "", code)
    {
      result := result + [RecipientResult(if mode == LMTP then recipients[i] else "", code)];
    }
  }

  /** What the backend returned: results, or an error. */
  datatype Returned = Returned(result: seq<RecipientResult>, failed: bool)

  /** The backend kept its contract: no error, and as many results as are owed. */
  predicate Contractual(mode: Mode, recipients: seq<string>, r: Returned) {
    recipients != [] && !r.failed && Answers(mode, recipients, r.result)
  }

  /** What the contract leaves of the backend's answer: a temporary failure when it was broken; the
      answer itself, without the successes claimed before the end of the content was seen. */
  predicate Held(mode: Mode, recipients: seq<string>, r: Returned, finished: bool, e: Evaluation) {
    && !e.closeConnection && Answers(mode, recipients, e.result)
    && (e.completed <==> Contractual(mode, recipients, r) && (finished || NoneAccepted(r.result)))
    && if Contractual(mode, recipients, r) then
         && |e.result| == |r.result|
         && forall i :: 0 <= i < |r.result| ==>
           e.result[i] == if finished || !r.result[i].Accepted() then r.result[i] else r.result[i].(code := 451)
       else forall i :: 0 <= i < |e.result| ==> e.result[i].code == 451
  }

  method ValidateOutcome(mode: Mode, recipients: seq<string>, r: Returned) returns (e: Evaluation)
    ensures Held(mode, recipients, r, true, e)
    ensures e.completed ==> e.result == r.result
    ensures !e.completed ==> NoneAccepted(e.result)
  {
    var temporary := UniformResult(mode, recipients, 451);
    e := Evaluation(temporary, false, false);
    if recipients == [] || r.failed {
      return;
    }
    var want := if mode == LMTP then |recipients| else 1;
    if |r.result| != want {
      return;
    }
    if mode == LMTP {
      for i := 0 to |r.result|
        invariant forall k :: 0 <= k < i ==> r.result[k].recipient == recipients[k]
      {
        if r.result[i].recipient != recipients[i] {
          return;
        }
      }
    }
    e := Evaluation(r.result, true, false);
  }

  /** A success claimed before the content was read becomes a temporary failure. */
  method Downgrade(e: Evaluation) returns (d: Evaluation)
    ensures NoneAccepted(d.result) && d.closeConnection == e.closeConnection && |d.result| == |e.result|
    ensures forall i :: 0 <= i < |e.result| ==>
      d.result[i] == if e.result[i].Accepted() then e.result[i].(code := 451) else e.result[i]
    ensures d.completed <==> e.completed && NoneAccepted(e.result)
  {
    var result, replaced := e.result, false;
    for i := 0 to |result|
      invariant |result| == |e.result|
      invariant forall k :: i <= k < |result| ==> result[k] == e.result[k]
      invariant forall k :: 0 <= k < i ==>
        result[k] == if e.result[k].Accepted() then e.result[k].(code := 451) else e.result[k]
      invariant replaced <==> exists k :: 0 <= k < i && e.result[k].Accepted()
    {
      if result[i].Accepted() {
        result := result[i := result[i].(code := 451)];
        replaced := true;
      }
    }
    return Evaluation(result, e.completed && !replaced, e.closeConnection);
  }

  /** The backend's answer, held to the contract. */
  method HoldToContract(mode: Mode, recipients: seq<string>, r: Returned, finished: bool) returns (e: Evaluation)
    ensures Held(mode, recipients, r, finished, e)
    ensures !NoneAccepted(e.result) ==> finished && e.completed && e.result == r.result
  {
    e := ValidateOutcome(mode, recipients, r);
    if !finished {
      e := Downgrade(e);
    }
  }

  /** The backend reads as it likes, one entry of `rooms` per read. */
  method Consume(reader: TrackedReader, rooms: seq<nat>) returns (received: string)
    requires reader.Valid() && reader.given == "" && !reader.exhausted
    modifies reader, reader.limiter
    ensures reader.Valid()
    ensures !reader.limiter.limit.exceeded ==> received == reader.given
    ensures Consumption(reader.Now(), received) == Consumed(old(reader.Now()), rooms)
  {
    received := "";
    for i := 0 to |rooms|
      invariant reader.Valid()
      invariant !reader.limiter.limit.exceeded ==> received == reader.given
      invariant Consumption(reader.Now(), received) == Consumed(old(reader.Now()), rooms[..i])
    {
      assert rooms[..i + 1][..i] == rooms[..i];
      var data, err := reader.Read(rooms[i]);
      received := received + data;
    }
    TakeWhole(rooms);
  }

  /** The backend makes the reads `rooms`, returns `r`, and is held to the contract: what it
      claims before the end was seen is no success. */
  method EvaluateDataCall(reader: TrackedReader, mode: Mode, recipients: seq<string>, rooms: seq<nat>, r: Returned)
    returns (e: Evaluation, received: string)
    requires reader.Valid() && !reader.exhausted && reader.given == ""
    modifies reader, reader.limiter
    ensures reader.Valid()
    ensures received == Consumed(old(reader.Now()), rooms).octets
    ensures var end := Ended(Consumed(old(reader.Now()), rooms).view);
      reader.limiter.limit == end.limit && reader.exhausted == end.ended
    ensures e.closeConnection <==> !reader.exhausted
    ensures e.closeConnection ==> e == CLOSE
    ensures var finished := Consumed(old(reader.Now()), rooms).view.ended;
      && (reader.exhausted ==> Held(mode, recipients, r, finished, e))
      && (!NoneAccepted(e.result) ==> finished && e.completed && e.result == r.result)
      && (finished && !reader.limiter.limit.exceeded ==> received == reader.whole + reader.limiter.content)
  {
    received := Consume(reader, rooms);
    var finished := reader.exhausted;
    if finished {
      AppendEmpty(reader.given);
      AppendEmpty(reader.limiter.passed);
    } else {
      var ok := reader.Finish();
      if !ok {
        return CLOSE, received;
      }
    }
    e := HoldToContract(mode, recipients, r, finished);
  }

  /** The reader a DATA command starts with. */
  function Opening(stream: Stream, max: nat, header: string): View {
    View(header, Limit(stream, max, false, false), false)
  }

  /** The limit was exceeded and then the stream broke before the content ended: the case in
      which a session goes on unsynchronised. */
  predicate BreaksBeyondLimit(stream: Stream, max: nat, header: string, rooms: seq<nat>) {
    var end := Ended(Consumed(Opening(stream, max, header), rooms).view);
    end.limit.exceeded && !end.ended
  }

  // ------------------------------------------- when the stream breaks beyond the limit

  /** The octets that have left a stream of `length` after these turns of a copy that may pass on
      `allowed` more; -1 once the limit was crossed. */
  function Taken(script: seq<Turn>, allowed: int, length: nat): (t: nat)
    ensures t <= length
  {
    if script == [] then 0
    else TakenAfter(script[|script| - 1], Taken(script[..|script| - 1], allowed, length), allowed, length)
  }

  /** The same after one turn more, when `before` octets had left. */
  function TakenAfter(turn: Turn, before: nat, allowed: int, length: nat): (t: nat)
    ensures before <= length ==> t <= length
  {
    var room := if before <= allowed then Min(BUFFER, allowed + 1 - before) else BUFFER;
    if turn.Fault? then before else Min(length, before + Min(turn.size, room))
  }

  /** Counting from `n` octets on. */
  lemma TakenAfterShift(turn: Turn, before: nat, allowed: int, length: nat, n: nat, later: int)
    requires allowed >= -1 && n <= length && later == if n > allowed then -1 else allowed - n
    ensures TakenAfter(turn, n + before, allowed, length) == n + TakenAfter(turn, before, later, length - n)
  {
  }

  /** Turn `j` shows the end: it takes the last octet eagerly and does not cross the limit. */
  predicate ShowsEnd(s: Stream, allowed: int, j: nat)
    requires j < |s.script|
  {
    var before, after := Taken(s.script[..j], allowed, |s.left|), Taken(s.script[..j + 1], allowed, |s.left|);
    s.script[j].Give? && s.script[j].eager && after == |s.left| && !(before <= allowed < after)
  }

  /** Turn `k` is the first fault, the limit is crossed before it, and the end is not shown. */
  predicate FaultAt(s: Stream, allowed: int, k: nat)
    requires k < |s.script|
  {
    && s.script[k].Fault? && Taken(s.script[..k], allowed, |s.left|) > allowed
    && forall j :: 0 <= j < k ==> s.script[j].Give? && !ShowsEnd(s, allowed, j)
  }

  ghost predicate FaultFollows(s: Stream, allowed: int) {
    exists k :: 0 <= k < |s.script| && FaultAt(s, allowed, k)
  }

  function Allowed(l: Limit): int { if l.exceeded then -1 else l.remain }

  /** The copies of the incomplete-reader defence end beyond the limit and not at the end. */
  predicate Breaks(l: Limit)
    requires l.remain >= 0
  {
    Finished(l).next.exceeded && Finished(l).err != Eof
  }

  lemma BreaksStep(l: Limit)
    requires l.remain >= 0
    ensures var r := ReadLimited(l, BUFFER);
      Breaks(l) <==> r.err != Eof && if r.err == Broken then l.exceeded else Breaks(r.next)
  {
    var r := ReadLimited(l, BUFFER);
    if r.err == TooLarge {
      BeyondStays(r.next);
    }
  }

  /** Once the limit was crossed it is not reported again. */
  lemma {:induction false} BeyondStays(l: Limit)
    requires l.remain >= 0 && l.exceeded
    ensures Drained(l).err != TooLarge
    decreases l.Left()
  {
    var r := ReadLimited(l, BUFFER);
    if r.err == NoError {
      BeyondStays(r.next);
    }
  }

  /** The first turn shifts the count of those that follow. */
  lemma {:induction false} TakenShift(script: seq<Turn>, allowed: int, length: nat, n: nat, later: int)
    requires allowed >= -1 && script != [] && script[0].Give? && n == Taken(script[..1], allowed, length)
    requires later == if n > allowed then -1 else allowed - n
    ensures Taken(script, allowed, length) == n + Taken(script[1..], later, length - n)
  {
    if |script| == 1 {
      TakeWhole(script);
    } else {
      var most := script[..|script| - 1];
      assert most[..1] == script[..1] && script[1..][..|script| - 2] == most[1..];
      TakenShift(most, allowed, length, n, later);
      TakenAfterShift(script[|script| - 1], Taken(most[1..], later, length - n), allowed, length, n, later);
    }
  }

  /** What a first turn takes. */
  lemma TakenFirst(s: Stream, allowed: int)
    requires allowed >= -1 && s.script != [] && s.script[0].Give?
    ensures var room := if allowed >= 0 then Min(BUFFER, allowed + 1) else BUFFER;
      var c := Pull(s, room);
      && Taken(s.script[..1], allowed, |s.left|) == |c.data|
      && c.next == Stream(s.left[|c.data|..], s.script[1..])
      && (ShowsEnd(s, allowed, 0) <==> c.err == Eof && !(0 <= allowed < |c.data|))
  {
    assert s.script[..1][..0] == [] && s.script[..0] == [];
  }

  /** One turn of the copy: how much it takes, what it shows and what may follow. */
  lemma GiveStep(l: Limit)
    requires l.remain >= 0 && l.source.script != [] && l.source.script[0].Give?
    ensures var r := ReadLimited(l, BUFFER);
      && Shifted(l.source, Allowed(l), r.next.source, Allowed(r.next))
      && r.err != Broken && (r.err == Eof <==> ShowsEnd(l.source, Allowed(l), 0))
  {
    TakenFirst(l.source, Allowed(l));
  }

  /** What is left of a copy after its first turn, and what may then pass. */
  predicate Shifted(s: Stream, allowed: int, next: Stream, later: int) {
    && allowed >= -1 && s.script != [] && s.script[0].Give?
    && var n := Taken(s.script[..1], allowed, |s.left|);
    && next == Stream(s.left[n..], s.script[1..]) && later == if n > allowed then -1 else allowed - n
  }

  lemma TakenShifts(s: Stream, allowed: int, next: Stream, later: int, j: nat)
    requires Shifted(s, allowed, next, later) && 0 < j <= |s.script|
    ensures Taken(s.script[..j], allowed, |s.left|)
         == Taken(s.script[..1], allowed, |s.left|) + Taken(next.script[..j - 1], later, |next.left|)
  {
    assert s.script[..j][..1] == s.script[..1] && s.script[..j][1..] == next.script[..j - 1];
    TakenShift(s.script[..j], allowed, |s.left|, Taken(s.script[..1], allowed, |s.left|), later);
  }

  lemma ShowsEndShifts(s: Stream, allowed: int, next: Stream, later: int, j: nat)
    requires Shifted(s, allowed, next, later) && 0 < j < |s.script|
    ensures ShowsEnd(s, allowed, j) <==> ShowsEnd(next, later, j - 1)
  {
    TakenShifts(s, allowed, next, later, j);
    TakenShifts(s, allowed, next, later, j + 1);
  }

  lemma FaultAtComesLater(s: Stream, allowed: int, next: Stream, later: int, k: nat)
    requires Shifted(s, allowed, next, later) && 0 < k < |s.script| && FaultAt(s, allowed, k)
    ensures !ShowsEnd(s, allowed, 0) && FaultAt(next, later, k - 1)
  {
    TakenShifts(s, allowed, next, later, k);
    forall j | 0 <= j < k - 1 ensures next.script[j].Give? && !ShowsEnd(next, later, j) {
      ShowsEndShifts(s, allowed, next, later, j + 1);
    }
  }

  lemma FaultAtCameLater(s: Stream, allowed: int, next: Stream, later: int, k: nat)
    requires Shifted(s, allowed, next, later) && 0 < k < |s.script|
    requires !ShowsEnd(s, allowed, 0) && FaultAt(next, later, k - 1)
    ensures FaultAt(s, allowed, k)
  {
    TakenShifts(s, allowed, next, later, k);
    forall j | 0 <= j < k ensures s.script[j].Give? && !ShowsEnd(s, allowed, j) {
      if j > 0 {
        ShowsEndShifts(s, allowed, next, later, j);
        assert next.script[j - 1] == s.script[j];
      }
    }
  }

  lemma FaultFollowsShifts(s: Stream, allowed: int, next: Stream, later: int)
    requires Shifted(s, allowed, next, later)
    ensures FaultFollows(s, allowed) <==> !ShowsEnd(s, allowed, 0) && FaultFollows(next, later)
  {
    if FaultFollows(s, allowed) {
      FaultComesLater(s, allowed, next, later);
    }
    if !ShowsEnd(s, allowed, 0) && FaultFollows(next, later) {
      FaultCameLater(s, allowed, next, later);
    }
  }

  lemma FaultComesLater(s: Stream, allowed: int, next: Stream, later: int)
    requires Shifted(s, allowed, next, later) && FaultFollows(s, allowed)
    ensures !ShowsEnd(s, allowed, 0) && FaultFollows(next, later)
  {
    var k :| 0 <= k < |s.script| && FaultAt(s, allowed, k);
    FaultAtComesLater(s, allowed, next, later, k);
  }

  lemma FaultCameLater(s: Stream, allowed: int, next: Stream, later: int)
    requires Shifted(s, allowed, next, later) && !ShowsEnd(s, allowed, 0) && FaultFollows(next, later)
    ensures FaultFollows(s, allowed)
  {
    var k :| 0 <= k < |next.script| && FaultAt(next, later, k);
    FaultAtCameLater(s, allowed, next, later, k + 1);
  }

  /** The copies break beyond the limit exactly when the script holds such a fault. */
  lemma {:induction false} BreaksExactly(l: Limit)
    requires l.remain >= 0
    ensures Breaks(l) <==> FaultFollows(l.source, Allowed(l))
    decreases l.Left()
  {
    BreaksStep(l);
    var r := ReadLimited(l, BUFFER);
    if l.source.script == [] {
      if r.err != Eof {
        BreaksExactly(r.next);
      }
    } else if l.source.script[0].Fault? {
      assert Taken([], Allowed(l), |l.source.left|) == 0 && l.source.script[..0] == [];
      assert l.exceeded ==> FaultAt(l.source, Allowed(l), 0);
    } else {
      GiveStep(l);
      FaultFollowsShifts(l.source, Allowed(l), r.next.source, Allowed(r.next));
      if r.err != Eof {
        BreaksExactly(r.next);
      }
    }
  }

  /** A session goes on unsynchronised after DATA exactly when the backend returned before the end
      of the content and what the transport then does has a fault beyond the limit. For a backend
      that reads nothing that is a condition on the transport and the limit alone. */
  lemma BreaksBeyondLimitExactly(stream: Stream, max: nat, header: string, rooms: seq<nat>)
    ensures var v := Consumed(Opening(stream, max, header), rooms).view;
      BreaksBeyondLimit(stream, max, header, rooms) <==> !v.ended && FaultFollows(v.limit.source, Allowed(v.limit))
    ensures BreaksBeyondLimit(stream, max, header, []) <==> FaultFollows(stream, max)
  {
    BreaksExactly(Consumed(Opening(stream, max, header), rooms).view.limit);
    BreaksExactly(Opening(stream, max, header).limit);
  }

  // ---------------------------------------------------------------------- DATA

  /** DATA after the 354 reply. Content over the limit is never accepted, and what is
      accepted was read by the backend to its end. Afterwards the connection is closed or the
      content was read to its end, except exactly when the stream breaks beyond the limit. */
  method HandleData(stream: Stream, max: nat, header: string, mode: Mode, recipients: seq<string>,
                    rooms: seq<nat>, r: Returned)
    returns (e: Evaluation, exceeded: bool, ended: bool, received: string)
    requires max < MAX_INT64
    ensures var consumed := Consumed(Opening(stream, max, header), rooms);
      && received == consumed.octets
      && exceeded == Ended(consumed.view).limit.exceeded && ended == Ended(consumed.view).ended
      && (!NoneAccepted(e.result) ==> consumed.view.ended && received == header + stream.left && e.result == r.result)
    ensures var finished := Consumed(Opening(stream, max, header), rooms).view.ended;
      ended && !exceeded ==> Held(mode, recipients, r, finished, e)
    ensures e.closeConnection || ended <==> !BreaksBeyondLimit(stream, max, header, rooms)
    ensures rooms == [] ==> (e.closeConnection || ended <==> !FaultFollows(stream, max))
    ensures e.closeConnection <==> !ended && !exceeded
    ensures exceeded ==> |stream.left| > max
    ensures ended && |stream.left| > max ==> exceeded
    ensures !e.closeConnection ==> Answers(mode, recipients, e.result)
    ensures exceeded ==> forall i :: 0 <= i < |e.result| ==> e.result[i].code == 552
    ensures |stream.left| > max ==> NoneAccepted(e.result)
  {
    var limiter := new SizeEnforcingReader(stream, max);
    var reader := new TrackedReader(limiter, header);
    e, received := EvaluateDataCall(reader, mode, recipients, rooms, r);
    exceeded, ended := limiter.limit.exceeded, reader.exhausted;
    BreaksBeyondLimitExactly(stream, max, header, rooms);
    if exceeded {
      var result := UniformResult(mode, recipients, 552);
      e := Evaluation(result, false, false);
    }
  }

  predicate FaultFree(s: Stream) { forall i :: 0 <= i < |s.script| ==> !s.script[i].Fault? }

  lemma {:induction false} DrainedFaultFree(l: Limit)
    requires l.remain >= 0 && FaultFree(l.source)
    ensures var r := Drained(l);
      && FaultFree(r.next.source) && (r.err == Eof || (r.err == TooLarge && !l.exceeded && r.next.exceeded))
    decreases l.Left()
  {
    var r := ReadLimited(l, BUFFER);
    if r.err == NoError {
      DrainedFaultFree(r.next);
    }
  }

  lemma {:induction false} ConsumedFaultFree(v: View, rooms: seq<nat>)
    requires v.limit.remain >= 0 && FaultFree(v.limit.source)
    ensures FaultFree(Consumed(v, rooms).view.limit.source)
    decreases |rooms|
  {
    if rooms != [] {
      ConsumedFaultFree(v, rooms[..|rooms| - 1]);
    }
  }

  /** A stream without faults is always read to its end, however little the backend reads. */
  lemma FaultFreeEnds(stream: Stream, max: nat, header: string, rooms: seq<nat>)
    requires FaultFree(stream)
    ensures Ended(Consumed(Opening(stream, max, header), rooms).view).ended
    ensures !BreaksBeyondLimit(stream, max, header, rooms)
  {
    var v := Consumed(Opening(stream, max, header), rooms).view;
    ConsumedFaultFree(Opening(stream, max, header), rooms);
    DrainedFaultFree(v.limit);
    if Drained(v.limit).err == TooLarge {
      DrainedFaultFree(Drained(v.limit).next);
    }
  }

  /** Two octets against a limit of one, then a fault: the limit is reported, the drain breaks. */
  lemma OversizeThenFault()
    ensures BreaksBeyondLimit(Stream("ab", [Give(2, false), Fault]), 1, "", [])
  {
    var s := Stream("ab", [Give(2, false), Fault]);
    var first := Drained(Limit(s, 1, false, false));
    assert Pull(s, 2).data == "ab";
    assert first == LimitedRead(Limit(Stream("", [Fault]), 0, true, true), "a", TooLarge);
  }

  /** So a session can go on after DATA although the end of the content was never seen. */
  method ContinuesUnsynchronised() returns (e: Evaluation, ended: bool)
    ensures !e.closeConnection && !ended
  {
    OversizeThenFault();
    var exceeded, received;
    e, exceeded, ended, received :=
      HandleData(Stream("ab", [Give(2, false), Fault]), 1, "", SMTP, ["a@b.c"], [], Returned([], true));
  }
}
