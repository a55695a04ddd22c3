/** Command groups over a pipelining connection (smtpclient/pipeline.go, smtpclient/rcpt.go). */
module Pipeline {
  import opened Prelude
  import opened Delivery
  import opened FinalStatus

  const MAX_DEPTH := 16
  const MAX_BYTES := 65536

  /** A verb in upper case; those named here are sync points of their own. */
  datatype Verb = EHLO | DATA | VRFY | EXPN | TURN | QUIT | NOOP | Other(name: string) {
    function Width(): nat { if Other? then |name| else 4 }
  }

  datatype Queued = Queued(verb: Verb, args: seq<string>, syncPoint: bool, completes: bool)

  function ArgsLength(args: seq<string>): nat {
    if args == [] then 0 else ArgsLength(args[..|args| - 1]) + |args[|args| - 1]| + 1
  }

  function CommandLength(c: Queued): nat { c.verb.Width() + 2 + ArgsLength(c.args) }

  function TotalLength(cs: seq<Queued>): nat {
    if cs == [] then 0 else TotalLength(cs[..|cs| - 1]) + CommandLength(cs[|cs| - 1])
  }

  // ---------------------------------------------------------------- the server

  /** Any server that sends one reply, here its code, per command. */
  datatype Server<!S> = Server(step: (S, Queued) -> (S, int)) {
    /** The state after the commands, taken one at a time. */
    function After(s: S, cs: seq<Queued>): S {
      if cs == [] then s else step(After(s, cs[..|cs| - 1]), cs[|cs| - 1]).0
    }

    /** The replies of a client that waits for each before sending the next command. */
    function Replies(s: S, cs: seq<Queued>): (r: seq<int>)
      ensures |r| == |cs|
    {
      if cs == [] then []
      else Replies(s, cs[..|cs| - 1]) + [step(After(s, cs[..|cs| - 1]), cs[|cs| - 1]).1]
    }
  }

  lemma {:induction false} AfterFirst<S>(m: Server<S>, s: S, cs: seq<Queued>)
    requires cs != []
    ensures m.After(s, cs) == m.After(m.step(s, cs[0]).0, cs[1..])
    ensures m.Replies(s, cs) == [m.step(s, cs[0]).1] + m.Replies(m.step(s, cs[0]).0, cs[1..])
  {
    if |cs| == 1 {
      assert cs[..0] == [] && cs[1..] == [];
    } else {
      var most := cs[..|cs| - 1];
      AfterFirst(m, s, most);
      assert cs[1..][..|cs| - 2] == most[1..];
    }
  }

  lemma AfterMore<S>(m: Server<S>, s: S, cs: seq<Queued>, c: Queued)
    ensures m.After(s, cs + [c]) == m.step(m.After(s, cs), c).0
    ensures m.Replies(s, cs + [c]) == m.Replies(s, cs) + [m.step(m.After(s, cs), c).1]
  {
    TakeMost(cs, c);
  }

  // ----------------------------------------------------------- the connection

  predicate Sync(c: Queued) { c.syncPoint || !c.verb.Other? }

  /** Commands that may be on their way together. */
  predicate Outstanding(cs: seq<Queued>, depth: nat) {
    && |cs| <= depth && TotalLength(cs) <= MAX_BYTES
    && forall i :: 0 <= i < |cs| - 1 ==> !Sync(cs[i])
  }

  /** Both ends of a connection. The server works off `inbox` at its own pace. */
  class Wire<S> {
    const server: Server<S>
    /** 16 when the server offers PIPELINING, otherwise 1. */
    const depth: nat
    var state: S
    var inbox: seq<Queued>
    var outbox: seq<int>
    var closed: bool
    /** The commands written whose replies have not been read. */
    ghost var unread: seq<Queued>

    /** The replies still to come, in order, whenever the server gets to them. */
    ghost function Due(): seq<int>
      reads this
    {
      outbox + server.Replies(state, inbox)
    }

    /** The state the server will be in. */
    ghost function Final(): S
      reads this
    {
      server.After(state, inbox)
    }

    ghost predicate Valid()
      reads this
    {
      |unread| == |outbox| + |inbox| && Outstanding(unread, depth)
    }

    constructor (server: Server<S>, state: S, pipelining: bool)
      ensures depth == (if pipelining then MAX_DEPTH else 1)
      ensures Valid() && this.server == server && Final() == state && unread == [] && Due() == [] && !closed
    {
      this.server, depth := server, if pipelining then MAX_DEPTH else 1;
      this.state, inbox, outbox, closed, unread := state, [], [], false, [];
    }

    /** The server handles one command. */
    method Work()
      requires Valid() && inbox != []
      modifies `state, `inbox, `outbox
      ensures Valid() && Due() == old(Due()) && Final() == old(Final())
      ensures |inbox| == |old(inbox)| - 1 && |outbox| == |old(outbox)| + 1
    {
      AfterFirst(server, state, inbox);
      var next := server.step(state, inbox[0]);
      ghost var later := server.Replies(next.0, inbox[1..]);
      Assoc(outbox, [next.1], later);
      state, inbox, outbox := next.0, inbox[1..], outbox + [next.1];
    }

    /** The server handles up to `pace` commands. */
    method Serve(pace: nat)
      requires Valid()
      modifies `state, `inbox, `outbox
      ensures Valid() && Due() == old(Due()) && Final() == old(Final())
    {
      var left := pace;
      while left > 0 && inbox != []
        invariant Valid() && Due() == old(Due()) && Final() == old(Final())
        decreases left
      {
        Work();
        left := left - 1;
      }
    }

    method Send(c: Queued)
      requires Valid() && Outstanding(unread + [c], depth)
      modifies `inbox, `unread
      ensures Valid() && unread == old(unread) + [c]
      ensures Due() == old(Due()) + [server.step(old(Final()), c).1] && Final() == server.step(old(Final()), c).0
    {
      AfterMore(server, state, inbox, c);
      Assoc(outbox, server.Replies(state, inbox), [server.step(Final(), c).1]);
      inbox, unread := inbox + [c], unread + [c];
    }

    /** Waits for the next reply. */
    method Receive() returns (code: int)
      requires Valid() && unread != []
      modifies this
      ensures Valid() && unread == old(unread)[1..] && closed == old(closed)
      ensures old(Due()) == [code] + Due() && Final() == old(Final())
    {
      while outbox == []
        invariant Valid() && Due() == old(Due()) && Final() == old(Final())
        invariant unread == old(unread) && closed == old(closed)
        decreases |inbox|
      {
        Work();
      }
      code := outbox[0];
      ghost var later := server.Replies(state, inbox);
      HeadTail(outbox);
      Assoc([code], outbox[1..], later);
      TailOutstanding(unread, depth);
      outbox, unread := outbox[1..], unread[1..];
    }
  }

  lemma {:induction false} TailLength(cs: seq<Queued>)
    requires cs != []
    ensures TotalLength(cs[1..]) <= TotalLength(cs)
  {
    if |cs| > 1 {
      var most := cs[..|cs| - 1];
      TailLength(most);
      assert cs[1..][..|cs| - 2] == most[1..];
    }
  }

  lemma TailOutstanding(cs: seq<Queued>, depth: nat)
    requires cs != [] && Outstanding(cs, depth)
    ensures Outstanding(cs[1..], depth)
  {
    TailLength(cs);
  }

  // ------------------------------------------------------------------ a group

  /** One write or read: it works, the context is done before it or during it, or it breaks. */
  datatype Luck = Fine | Halted | Interrupted | Breaks

  /** What happens around command `i`: its write, its read, and the server's pace. */
  datatype Weather = Weather(write: nat -> Luck, read: nat -> Luck, pace: nat -> nat)

  /** Only the last command of a group is a sync point. */
  predicate SyncLast(cs: seq<Queued>) { forall i :: 0 <= i < |cs| - 1 ==> !Sync(cs[i]) }

  method ValidateGroup(commands: seq<Queued>) returns (ok: bool)
    ensures ok <==> SyncLast(commands)
  {
    for i := 0 to |commands|
      invariant forall k :: 0 <= k < i && k < |commands| - 1 ==> !Sync(commands[k])
    {
      if Sync(commands[i]) && i != |commands| - 1 {
        return false;
      }
    }
    return true;
  }

  method MeasureCommand(c: Queued) returns (n: nat)
    ensures n == CommandLength(c)
  {
    n := c.verb.Width() + 2;
    for i := 0 to |c.args|
      invariant n == c.verb.Width() + 2 + ArgsLength(c.args[..i])
    {
      assert c.args[..i + 1][..i] == c.args[..i];
      n := n + |c.args[i]| + 1;
    }
    TakeWhole(c.args);
  }

  /** Nothing interferes. */
  ghost predicate Fair(weather: Weather) { forall i :: weather.write(i) == Fine && weather.read(i) == Fine }

  predicate Short(commands: seq<Queued>) { forall i :: 0 <= i < |commands| ==> CommandLength(commands[i]) <= MAX_BYTES }

  lemma {:induction false} RepliesPrefix<S>(m: Server<S>, s: S, cs: seq<Queued>, n: nat)
    requires n <= |cs|
    ensures m.Replies(s, cs[..n]) <= m.Replies(s, cs)
  {
    if n == |cs| {
      TakeWhole(cs);
    } else {
      var most := cs[..|cs| - 1];
      RepliesPrefix(m, s, most, n);
      assert most[..n] == cs[..n];
    }
  }

  /** The failure of a command, classified when the command completes a transaction. */
  function Classify(c: Queued, e: Error): Error { if c.completes then Unknown(e) else e }

  // ------------------------------------------------- what becomes of a group

  /** The failure of a write, if it fails. */
  function WriteError(c: Queued, luck: Luck): Option<Error> {
    match luck
    case Fine => None
    case Halted => Some(Context)
    case Interrupted => Some(Classify(c, Context))
    case Breaks => Some(Classify(c, TRANSPORT))
  }

  /** The failure of a read, if it fails; `code` is the reply that would come. */
  function ReadError(c: Queued, luck: Luck, code: int): Option<Error> {
    match luck
    case Fine => if code == 421 then Some(Classify(c, Smtp(421, false))) else None
    case Breaks => Some(Classify(c, TRANSPORT))
    case _ => Some(Classify(c, Context))
  }

  /** One more command for a window: how many have been written, or begun, and why it stops. */
  datatype Extension = Extension(more: bool, end: nat, begun: nat, error: Option<Error>)

  function Extend(cs: seq<Queued>, w: Weather, from: nat, was: nat): (x: Extension)
    requires from <= was < |cs|
    ensures was <= x.end <= x.begun <= was + 1 && (x.error.None? ==> x.begun == x.end && from < x.end)
    ensures x.more ==> x.end == was + 1 && x.error.None?
    ensures x.error.Some? ==> x.end == was
  {
    if CommandLength(cs[was]) > MAX_BYTES then Extension(false, was, was, Some(Local))
    else if was == from || TotalLength(cs[from..was]) + CommandLength(cs[was]) <= MAX_BYTES then
      var e := WriteError(cs[was], w.write(was));
      if e.None? then Extension(!cs[was].syncPoint, was + 1, was + 1, None)
      else Extension(false, was, if w.write(was) == Halted then was else was + 1, e)
    else Extension(false, was, was, None)
  }

  /** Whether the window that began at `from` takes another command. */
  predicate Goes(cs: seq<Queued>, depth: nat, from: nat, x: Extension) {
    x.error.None? && x.more && x.end < |cs| && x.end - from < depth
  }

  /** The window that begins at `from`, written from `was` on. */
  function Filled(cs: seq<Queued>, w: Weather, depth: nat, from: nat, was: nat): (x: Extension)
    requires from <= was < |cs|
    ensures was <= x.end <= x.begun <= x.end + 1 && x.begun <= |cs|
    ensures if x.error.None? then x.begun == x.end && from < x.end else x.end < |cs|
    decreases |cs| - was
  {
    var x := Extend(cs, w, from, was);
    if Goes(cs, depth, from, x) then Filled(cs, w, depth, from, x.end) else x
  }

  /** The first reply from `i` to `end` that fails to come. */
  datatype Reading = AllRead | Fails(at: nat, error: Error)

  function ReadRange(cs: seq<Queued>, w: Weather, codes: seq<int>, i: nat, end: nat): (r: Reading)
    requires i <= end <= |cs| == |codes|
    ensures r.Fails? ==> i <= r.at < end && ReadError(cs[r.at], w.read(r.at), codes[r.at]) == Some(r.error)
    decreases end - i
  {
    if i == end then AllRead
    else if ReadError(cs[i], w.read(i), codes[i]).Some? then Fails(i, ReadError(cs[i], w.read(i), codes[i]).value)
    else ReadRange(cs, w, codes, i + 1, end)
  }

  lemma ReadRangeStep(cs: seq<Queued>, w: Weather, codes: seq<int>, i: nat, end: nat)
    requires i < end <= |cs| == |codes|
    ensures var e := ReadError(cs[i], w.read(i), codes[i]);
      ReadRange(cs, w, codes, i, end) == if e.Some? then Fails(i, e.value) else ReadRange(cs, w, codes, i + 1, end)
  {
  }

  /** What becomes of the commands from `from` on: all are answered, or command `at` fails when
      those before `answered` were answered and the writes of those before `begun` had begun. */
  datatype Fate = Succeeds | Stops(at: nat, begun: nat, answered: nat, error: Error)

  function FateOf(cs: seq<Queued>, w: Weather, codes: seq<int>, depth: nat, from: nat): (f: Fate)
    requires from <= |cs| == |codes|
    ensures f.Stops? ==> from <= f.answered <= f.at < |cs| && f.at <= f.begun <= |cs|
    decreases |cs| - from
  {
    if from == |cs| then Succeeds
    else
      var x := Filled(cs, w, depth, from, from);
      if x.error.Some? then Stops(x.end, x.begun, from, x.error.value)
      else
        match ReadRange(cs, w, codes, from, x.end)
        case Fails(at, e) => Stops(at, x.end, at, e)
        case AllRead => FateOf(cs, w, codes, depth, x.end)
  }

  /** The group so far: `results` were read, the rest of the first `sent` replies are due. */
  ghost predicate Follows<S>(wire: Wire<S>, start: S, commands: seq<Queued>, results: seq<int>, sent: nat)
    reads wire
  {
    && wire.Valid() && |results| <= sent <= |commands|
    && wire.unread == commands[|results|..sent]
    && results + wire.Due() == wire.server.Replies(start, commands[..sent])
    && wire.Final() == wire.server.After(start, commands[..sent])
  }

  lemma WindowGrows(commands: seq<Queued>, from: nat, sent: nat)
    requires from <= sent < |commands|
    ensures commands[from..sent] + [commands[sent]] == commands[from..sent + 1]
    ensures commands[..sent] + [commands[sent]] == commands[..sent + 1]
    ensures TotalLength(commands[from..sent + 1]) == TotalLength(commands[from..sent]) + CommandLength(commands[sent])
  {
    TakeMost(commands[from..sent], commands[sent]);
  }

  lemma WindowFits(commands: seq<Queued>, from: nat, sent: nat, depth: nat)
    requires from <= sent < |commands| && SyncLast(commands)
    requires sent - from < depth && TotalLength(commands[from..sent]) + CommandLength(commands[sent]) <= MAX_BYTES
    ensures Outstanding(commands[from..sent + 1], depth)
  {
    WindowGrows(commands, from, sent);
    var w := commands[from..sent + 1];
    forall i | 0 <= i < |w| - 1 ensures !Sync(w[i]) {
      assert w[i] == commands[from + i];
    }
  }

  /** The command is on its way, after the server did some of its work. */
  method Put<S>(wire: Wire<S>, ghost start: S, commands: seq<Queued>, ghost results: seq<int>, sent: nat, pace: nat)
    requires Follows(wire, start, commands, results, sent) && sent < |commands|
    requires Outstanding(commands[|results|..sent + 1], wire.depth)
    modifies wire
    ensures Follows(wire, start, commands, results, sent + 1)
  {
    var c := commands[sent];
    WindowGrows(commands, |results|, sent);
    AfterMore(wire.server, start, commands[..sent], c);
    wire.Serve(pace);
    ghost var due, code := wire.Due(), wire.server.step(wire.Final(), c).1;
    wire.Send(c);
    Assoc(results, due, [code]);
  }

  /** Writes one command of the window. */
  method WriteOne<S>(wire: Wire<S>, ghost start: S, commands: seq<Queued>, ghost results: seq<int>, sent: nat,
                     weather: Weather)
    returns (error: Option<Error>)
    requires Follows(wire, start, commands, results, sent) && sent < |commands| && SyncLast(commands)
    requires sent - |results| < wire.depth
    requires TotalLength(wire.unread) + CommandLength(commands[sent]) <= MAX_BYTES
    modifies wire
    ensures error == WriteError(commands[sent], weather.write(sent))
    ensures error.None? ==> Follows(wire, start, commands, results, sent + 1)
    ensures error.None? ==> TotalLength(wire.unread) == TotalLength(old(wire.unread)) + CommandLength(commands[sent])
  {
    var c := commands[sent];
    WindowGrows(commands, |results|, sent);
    match weather.write(sent)
    case Halted =>
      return Some(Context);
    case Interrupted =>
      wire.closed := true;
      return Some(Classify(c, Context));
    case Breaks =>
      wire.closed := true;
      return Some(Classify(c, TRANSPORT));
    case Fine =>
      WindowFits(commands, |results|, sent, wire.depth);
      Put(wire, start, commands, results, sent, weather.pace(sent));
      return None;
  }

  /** Reads one reply; a 421 ends the session. */
  method ReadOne<S>(wire: Wire<S>, ghost start: S, commands: seq<Queued>, results: seq<int>, ghost sent: nat,
                    weather: Weather)
    returns (r: Result<int, Error>)
    requires Follows(wire, start, commands, results, sent) && |results| < sent
    modifies wire
    ensures var code := wire.server.Replies(start, commands)[|results|];
      var e := ReadError(commands[|results|], weather.read(|results|), code);
      r == if e.Some? then Err(e.value) else Ok(code)
    ensures r.Ok? ==> Follows(wire, start, commands, results + [r.value], sent) && r.value != 421
  {
    var i := |results|;
    var luck := weather.read(i);
    if luck != Fine {
      if luck != Halted {
        wire.closed := true;
      }
      return Err(Classify(commands[i], if luck == Breaks then TRANSPORT else Context));
    }
    var code := TakeReply(wire, start, commands, results, sent);
    if code == 421 {
      wire.closed := true;
      return Err(Classify(commands[i], Smtp(421, false)));
    }
    return Ok(code);
  }

  /** The oldest reply due is the one of the lock-step client. */
  method TakeReply<S>(wire: Wire<S>, ghost start: S, commands: seq<Queued>, results: seq<int>, ghost sent: nat)
    returns (code: int)
    requires Follows(wire, start, commands, results, sent) && |results| < sent
    modifies wire
    ensures code == wire.server.Replies(start, commands)[|results|]
    ensures Follows(wire, start, commands, results + [code], sent)
  {
    var i := |results|;
    RepliesPrefix(wire.server, start, commands, sent);
    ghost var due := wire.Due();
    code := wire.Receive();
    Assoc(results, [code], wire.Due());
    assert commands[i..sent][1..] == commands[i + 1..sent];
    assert (results + due)[i] == code;
  }

  /** One turn of the window loop: the next command is written, or the window is full. */
  method ExtendWindow<S>(wire: Wire<S>, ghost start: S, commands: seq<Queued>, results: seq<int>, was: nat, size: nat,
                         weather: Weather)
    returns (more: bool, end: nat, bytes: nat, error: Option<Error>)
    requires Follows(wire, start, commands, results, was) && was < |commands| && SyncLast(commands)
    requires was - |results| < wire.depth && size == TotalLength(wire.unread)
    modifies wire
    ensures var x := Extend(commands, weather, |results|, was); more == x.more && end == x.end && error == x.error
    ensures error.None? ==> Follows(wire, start, commands, results, end) && bytes == TotalLength(wire.unread)
  {
    var c := commands[was];
    var encoded := MeasureCommand(c);
    more, end, bytes, error := false, was, size, None;
    if encoded > MAX_BYTES {
      error := Some(Local);
    } else if was == |results| || size + encoded <= MAX_BYTES {
      assert was == |results| ==> wire.unread == [];
      error := WriteOne(wire, start, commands, results, was, weather);
      if error.None? {
        more, end, bytes := !c.syncPoint, was + 1, size + encoded;
      }
    }
  }

  /** Writes a window: as many commands as depth, size and sync points allow. */
  method FillWindow<S>(wire: Wire<S>, ghost start: S, commands: seq<Queued>, results: seq<int>, weather: Weather)
    returns (end: nat, error: Option<Error>)
    requires Follows(wire, start, commands, results, |results|) && |results| < |commands| && SyncLast(commands)
    requires wire.depth > 0
    modifies wire
    ensures var x := Filled(commands, weather, wire.depth, |results|, |results|); end == x.end && error == x.error
    ensures error.None? ==> Follows(wire, start, commands, results, end)
  {
    var bytes, more;
    assert commands[|results|..|results|] == [];
    ghost var x := Extend(commands, weather, |results|, |results|);
    more, end, bytes, error := ExtendWindow(wire, start, commands, results, |results|, 0, weather);
    while error.None? && more && end < |commands| && end - |results| < wire.depth
      invariant more == x.more && end == x.end && error == x.error && end <= |commands|
      invariant Filled(commands, weather, wire.depth, |results|, |results|) ==
                if Goes(commands, wire.depth, |results|, x)
                then Filled(commands, weather, wire.depth, |results|, end)
                else x
      invariant error.None? ==> |results| < end && bytes == TotalLength(wire.unread)
      invariant error.None? ==> Follows(wire, start, commands, results, end)
      decreases error.None?, more, |commands| - end
    {
      x := Extend(commands, weather, |results|, end);
      more, end, bytes, error := ExtendWindow(wire, start, commands, results, end, bytes, weather);
    }
  }

  /** Reads the replies to the window in issue order. */
  method ReadWindow<S>(wire: Wire<S>, ghost start: S, commands: seq<Queued>, given: seq<int>, end: nat,
                       weather: Weather)
    returns (r: Result<seq<int>, Error>)
    requires Follows(wire, start, commands, given, end) && 421 !in given
    modifies wire
    ensures var reading := ReadRange(commands, weather, wire.server.Replies(start, commands), |given|, end);
      if reading.Fails? then r == Err(reading.error) else r.Ok?
    ensures r.Ok? ==> |r.value| == end && Follows(wire, start, commands, r.value, end) && 421 !in r.value
  {
    var results := given;
    ghost var codes := wire.server.Replies(start, commands);
    while |results| < end
      invariant |results| <= end && Follows(wire, start, commands, results, end) && 421 !in results
      invariant ReadRange(commands, weather, codes, |given|, end) == ReadRange(commands, weather, codes, |results|, end)
      decreases end - |results|
    {
      ReadRangeStep(commands, weather, codes, |results|, end);
      var one := ReadOne(wire, start, commands, results, end, weather);
      if one.Err? {
        return Err(one.error);
      }
      results := results + [one.value];
    }
    return Ok(results);
  }

  /** A group through the FIFO. Success gives what a lock-step client would have got; every
      failure is the one that `FateOf` foretells. */
  method ExecuteLocked<S>(wire: Wire<S>, commands: seq<Queued>, weather: Weather) returns (r: Result<seq<int>, Error>)
    requires wire.Valid() && wire.unread == [] && wire.depth > 0
    modifies wire
    ensures var codes := wire.server.Replies(old(wire.Final()), commands);
      if commands != [] && (!SyncLast(commands) || old(wire.closed)) then r == Err(Local)
      else
        match FateOf(commands, weather, codes, wire.depth, 0)
        case Succeeds => r == Ok(codes) && 421 !in codes
        case Stops(_, _, _, e) => r == Err(e)
    ensures r.Ok? ==> wire.Final() == wire.server.After(old(wire.Final()), commands)
    ensures r.Ok? ==> wire.Valid() && wire.unread == [] && wire.Due() == []
  {
    if commands == [] {
      return Ok([]);
    }
    var ok := ValidateGroup(commands);
    if !ok || wire.closed {
      return Err(Local);
    }
    ghost var start := wire.Final();
    ghost var codes := wire.server.Replies(start, commands);
    var results := [];
    while |results| < |commands|
      invariant |results| <= |commands| && Follows(wire, start, commands, results, |results|) && 421 !in results
      invariant FateOf(commands, weather, codes, wire.depth, 0)
             == FateOf(commands, weather, codes, wire.depth, |results|)
      decreases |commands| - |results|
    {
      var end, error := FillWindow(wire, start, commands, results, weather);
      if error.Some? {
        return Err(error.value);
      }
      r := ReadWindow(wire, start, commands, results, end, weather);
      if r.Err? {
        return;
      }
      results := r.value;
    }
    TakeWhole(commands);
    AppendEmpty(results);
    return Ok(results);
  }

  // ------------------------------------------------------- completing commands

  const CALM := Weather(_ => Fine, _ => Fine, _ => 0)

  /** The window a group forms from `from` on when nothing interferes; one that would take a
      command over the size limit ends in an error. */
  function Calm(cs: seq<Queued>, depth: nat, from: nat): Extension
    requires from < |cs|
  {
    Filled(cs, CALM, depth, from, from)
  }

  /** Window `x` under `w` is `calm` or was cut short by a write that failed. */
  predicate Within(cs: seq<Queued>, w: Weather, x: Extension, calm: Extension) {
    && x.begun <= calm.end
    && (x != calm ==>
      && x.error.Some? && x.end < calm.end && x.end < |cs| && WriteError(cs[x.end], w.write(x.end)) == x.error
      && x.begun == if w.write(x.end) == Halted then x.end else x.end + 1)
    && (calm.error.Some? ==> calm.error.value == Local && calm.end < |cs| && CommandLength(cs[calm.end]) > MAX_BYTES)
  }

  lemma ExtendWithin(cs: seq<Queued>, w: Weather, from: nat, was: nat)
    requires from <= was < |cs|
    ensures Within(cs, w, Extend(cs, w, from, was), Extend(cs, CALM, from, was))
  {
  }

  /** Interference only cuts a window short. */
  lemma {:induction false} FilledWithin(cs: seq<Queued>, w: Weather, depth: nat, from: nat, was: nat)
    requires from <= was < |cs|
    ensures Within(cs, w, Filled(cs, w, depth, from, was), Filled(cs, CALM, depth, from, was))
    decreases |cs| - was
  {
    ExtendWithin(cs, w, from, was);
    var calm := Extend(cs, CALM, from, was);
    if Goes(cs, depth, from, calm) {
      FilledWithin(cs, w, depth, from, calm.end);
    }
  }

  /** Without interference, 421 and oversize commands a group succeeds. */
  lemma {:induction false} FairSucceeds(cs: seq<Queued>, w: Weather, codes: seq<int>, depth: nat, from: nat)
    requires from <= |cs| == |codes| && Short(cs) && Fair(w) && 421 !in codes
    ensures FateOf(cs, w, codes, depth, from) == Succeeds
    decreases |cs| - from
  {
    if from < |cs| {
      FilledWithin(cs, w, depth, from, from);
      var x := Filled(cs, w, depth, from, from);
      if x.error.None? {
        FairSucceeds(cs, w, codes, depth, x.end);
      }
    }
  }

  /** The write of completing command `i` had begun, no reply to it came, and the group's error
      does not say that its status is unknown. */
  ghost predicate Forgotten(cs: seq<Queued>, f: Fate, i: nat)
    requires f.Stops?
  {
    && f.answered <= i < f.begun && i < |cs| && cs[i].completes && !Marked(f.error)
    && !(i == f.at && f.error == Smtp(421, false))
  }

  ghost predicate Safe(cs: seq<Queued>, f: Fate) { f.Stops? ==> forall i :: !Forgotten(cs, f, i) }

  /** Every completing command from `from` on that gets written has its window to itself, and no
      command over the size limit stands in that window's way. */
  predicate Alone(cs: seq<Queued>, depth: nat, from: nat)
    requires from <= |cs|
    decreases |cs| - from
  {
    from == |cs| ||
    var calm := Calm(cs, depth, from);
    && ((calm.error.None? && calm.end == from + 1) || forall i :: from <= i < calm.end ==> !cs[i].completes)
    && (calm.error.None? ==> Alone(cs, depth, calm.end))
  }

  lemma {:induction false} AloneIsSafe(cs: seq<Queued>, w: Weather, codes: seq<int>, depth: nat, from: nat)
    requires from <= |cs| == |codes| && Alone(cs, depth, from)
    ensures Safe(cs, FateOf(cs, w, codes, depth, from))
    decreases |cs| - from
  {
    if from < |cs| {
      FilledWithin(cs, w, depth, from, from);
      var x := Filled(cs, w, depth, from, from);
      if x.error.None? && ReadRange(cs, w, codes, from, x.end) == AllRead {
        AloneIsSafe(cs, w, codes, depth, x.end);
      }
    }
  }

  lemma {:induction false} FilledCalm(cs: seq<Queued>, w: Weather, depth: nat, from: nat, was: nat)
    requires from <= was < |cs|
    requires forall k :: was <= k < Filled(cs, CALM, depth, from, was).end ==> w.write(k) == Fine
    requires Filled(cs, CALM, depth, from, was).error.None?
    ensures Filled(cs, w, depth, from, was) == Filled(cs, CALM, depth, from, was)
    decreases |cs| - was
  {
    var calm := Extend(cs, CALM, from, was);
    if Goes(cs, depth, from, calm) {
      FilledCalm(cs, w, depth, from, calm.end);
    }
  }

  lemma {:induction false} ReadsCalm(cs: seq<Queued>, w: Weather, codes: seq<int>, i: nat, end: nat)
    requires i <= end <= |cs| == |codes|
    requires forall k :: i <= k < end ==> w.read(k) == Fine && codes[k] != 421
    ensures ReadRange(cs, w, codes, i, end) == AllRead
    decreases end - i
  {
    if i < end {
      ReadsCalm(cs, w, codes, i + 1, end);
    }
  }

  /** Nothing happens before command `n`. */
  ghost predicate CalmBefore(w: Weather, codes: seq<int>, n: nat) {
    n <= |codes| && forall k :: 0 <= k < n ==> w.write(k) == Fine && w.read(k) == Fine && codes[k] != 421
  }

  /** A command over the size limit leaves those written before it in its window forgotten. */
  lemma OversizeForgets(cs: seq<Queued>, depth: nat, from: nat, i: nat) returns (w: Weather, codes: seq<int>)
    requires from <= i < |cs| && i < Calm(cs, depth, from).end && cs[i].completes
    requires Calm(cs, depth, from).error.Some?
    ensures |codes| == |cs| && CalmBefore(w, codes, from) && !Safe(cs, FateOf(cs, w, codes, depth, from))
  {
    w, codes := CALM, seq(|cs|, _ => 250);
    FilledWithin(cs, CALM, depth, from, from);
    assert Forgotten(cs, FateOf(cs, w, codes, depth, from), i);
  }

  /** A reply of 421 to the first command of a window leaves the later ones forgotten. */
  lemma RefusalForgets(cs: seq<Queued>, depth: nat, from: nat, i: nat) returns (w: Weather, codes: seq<int>)
    requires from < i < |cs| && i < Calm(cs, depth, from).end && cs[i].completes
    requires Calm(cs, depth, from).error.None?
    ensures |codes| == |cs| && CalmBefore(w, codes, from) && !Safe(cs, FateOf(cs, w, codes, depth, from))
  {
    w, codes := CALM, seq(|cs|, k => if k == from then 421 else 250);
    var f := FateOf(cs, w, codes, depth, from);
    assert f == Stops(from, Calm(cs, depth, from).end, from, Smtp(421, false));
    assert Forgotten(cs, f, i);
  }

  /** A context done before the second write of a window leaves the first forgotten. */
  lemma HaltForgets(cs: seq<Queued>, depth: nat, from: nat) returns (w: Weather, codes: seq<int>)
    requires from + 1 < |cs| && from + 1 < Calm(cs, depth, from).end && cs[from].completes
    ensures |codes| == |cs| && CalmBefore(w, codes, from) && !Safe(cs, FateOf(cs, w, codes, depth, from))
  {
    w, codes := Weather(k => if k == from + 1 then Halted else Fine, _ => Fine, _ => 0), seq(|cs|, _ => 250);
    var x := Extend(cs, CALM, from, from);
    assert Extend(cs, w, from, from) == x && Goes(cs, depth, from, x);
    assert Calm(cs, depth, from) == Filled(cs, CALM, depth, from, from + 1);
    assert Extend(cs, CALM, from, from + 1).end == from + 2;
    var halted := Extension(false, from + 1, from + 1, Some(Context));
    assert Extend(cs, w, from, from + 1) == halted;
    assert Filled(cs, w, depth, from, from + 1) == halted;
    assert Filled(cs, w, depth, from, from) == halted;
    var f := FateOf(cs, w, codes, depth, from);
    assert f == Stops(from + 1, from + 1, from, Context);
    assert Forgotten(cs, f, from);
  }

  lemma {:induction false} SharedIsUnsafe(cs: seq<Queued>, depth: nat, from: nat) returns (w: Weather, codes: seq<int>)
    requires from <= |cs| && !Alone(cs, depth, from)
    ensures |codes| == |cs| && CalmBefore(w, codes, from) && !Safe(cs, FateOf(cs, w, codes, depth, from))
    decreases |cs| - from
  {
    var calm := Calm(cs, depth, from);
    if (calm.error.None? && calm.end == from + 1) || forall i :: from <= i < calm.end ==> !cs[i].completes {
      w, codes := SharedIsUnsafe(cs, depth, calm.end);
      FilledCalm(cs, w, depth, from, from);
      ReadsCalm(cs, w, codes, from, calm.end);
    } else {
      var i :| from <= i < calm.end && cs[i].completes;
      if calm.error.Some? {
        w, codes := OversizeForgets(cs, depth, from, i);
      } else if i == from {
        w, codes := HaltForgets(cs, depth, from);
      } else {
        w, codes := RefusalForgets(cs, depth, from, i);
      }
    }
  }

  /** A group never leaves the fate of a completing command unsaid, whatever happens, exactly
      when each completing command has its window to itself. */
  lemma SafeExactlyWhenAlone(cs: seq<Queued>, depth: nat)
    ensures Alone(cs, depth, 0) <==>
      forall w, codes :: |codes| == |cs| ==> Safe(cs, FateOf(cs, w, codes, depth, 0))
  {
    if Alone(cs, depth, 0) {
      forall w, codes: seq<int> | |codes| == |cs| ensures Safe(cs, FateOf(cs, w, codes, depth, 0)) {
        AloneIsSafe(cs, w, codes, depth, 0);
      }
    } else {
      var w, codes := SharedIsUnsafe(cs, depth, 0);
    }
  }

  /** A command on its own, as BURL LAST is sent, is safe. */
  lemma SingleIsSafe(c: Queued, w: Weather, codes: seq<int>, depth: nat)
    requires |codes| == 1
    ensures Safe([c], FateOf([c], w, codes, depth, 0))
  {
  }

  // --------------------------------------------------------------------- BURL

  function BurlCommand(url: string, last: bool): Queued {
    Queued(Other("BURL"), if last then [url, "LAST"] else [url], false, last)
  }

  /** The failure of a command sent on its own; `code` is the reply that would come. */
  function SingleError(c: Queued, w: Weather, code: int): Option<Error> {
    if CommandLength(c) > MAX_BYTES then Some(Local)
    else if w.write(0) != Fine then WriteError(c, w.write(0))
    else ReadError(c, w.read(0), code)
  }

  lemma SingleFate(c: Queued, w: Weather, code: int, depth: nat)
    ensures var f := FateOf([c], w, [code], depth, 0);
      if SingleError(c, w, code).None? then f.Succeeds? else f.Stops? && Some(f.error) == SingleError(c, w, code)
  {
  }

  /** What the client meets when it waits for the reply `code` to a command sent on its own. */
  function Met(w: Weather, code: int): seq<Event> {
    if w.write(0) != Fine then []
    else [match w.read(0) case Fine => Reply(code) case Breaks => Lost case _ => Cancelled]
  }

  /** The octets of the command may have reached the server. */
  predicate Begins(c: Queued, w: Weather) { CommandLength(c) <= MAX_BYTES && w.write(0) != Halted }

  /** The failures of a lone completing command keep the three-way contract. */
  lemma LoneFailure(c: Queued, w: Weather, code: int, recipients: seq<string>)
    requires c.completes && SingleError(c, w, code).Some?
    ensures ThreeWay(false, Begins(c, w), Met(w, code), recipients, Completion([], SingleError(c, w, code)))
  {
    var e := SingleError(c, w, code).value;
    if !Begins(c, w) {
      NeverSent(false, Met(w, code), recipients, e);
    } else if Marked(e) {
      StatusUnknown(false, true, Met(w, code), recipients, e);
    } else {
      Refused(Met(w, code), recipients, e);
    }
  }

  lemma BurlFails(url: string, last: bool, w: Weather, code: int, names: seq<string>, completed: bool, e: Error)
    requires var c := BurlCommand(url, last);
      || (!completed && e == Local)
      || (Some(e) == SingleError(c, w, code) && completed == (last && Begins(c, w)))
    ensures last ==> ThreeWay(false, completed, Met(w, code), names, Completion([], Some(e)))
    ensures Marked(e) <==> completed && (w.write(0) != Fine || w.read(0) != Fine)
    ensures completed && !Marked(e) ==> Some(e) == ReplyError(code)
  {
    if !completed && e == Local {
      NeverSent(false, Met(w, code), names, e);
    } else if last {
      LoneFailure(BurlCommand(url, last), w, code, names);
    }
  }

  /** BURL; `acceptable` says that the URL is one argument and that the server offers the
      extension. The server's reply, could it always be read, is `code`. */
  method Burl<S>(client: Client, wire: Wire<S>, url: string, last: bool, acceptable: bool, weather: Weather)
    returns (c: Completion, ghost code: int, ghost completed: bool)
    requires wire.Valid() && wire.unread == [] && wire.depth > 0
    modifies wire, client
    ensures code == wire.server.step(old(wire.Final()), BurlCommand(url, last)).1
    ensures completed <==>
      && last && acceptable && !client.lmtp && old(client.recipients) != [] && old(client.state) == Transaction
      && !old(wire.closed) && Begins(BurlCommand(url, last), weather)
    ensures last ==> ThreeWay(false, completed, Met(weather, code), old(client.recipients), c)
    ensures Unsure(c) <==> completed && (weather.write(0) != Fine || weather.read(0) != Fine)
    ensures completed && !Unsure(c) ==> c.error == ReplyError(code)
    ensures last && c.error.None? ==> completed && client.state == Base && client.recipients == []
    ensures !last && c.error.None? ==> code == 250 && c.result == [] && unchanged(client)
  {
    code, completed := wire.server.step(wire.Final(), BurlCommand(url, last)).1, false;
    var names := client.recipients;
    if !acceptable || client.lmtp || names == [] || client.state != Transaction {
      NeverSent(false, Met(weather, code), names, Local);
      return Completion([], Some(Local)), code, false;
    }
    var command := BurlCommand(url, last);
    SingleFate(command, weather, code, wire.depth);
    completed := last && !wire.closed && Begins(command, weather);
    var replies := ExecuteLocked(wire, [command], weather);
    if replies.Err? {
      if wire.closed {
        client.Poison();
      }
      BurlFails(url, last, weather, code, names, completed, replies.error);
      return Completion([], Some(replies.error)), code, completed;
    }
    if last {
      client.Settle();
    }
    c := client.ShareReply(names, Met(weather, replies.value[0]), replies.value[0]);
    if !last {
      c := c.(result := []);
    }
  }

  // --------------------------------------------------------------- recipients

  /** A recipient as the caller gives it, with its encoded parameters. */
  datatype Recipient = Recipient(address: string, params: seq<string>)

  function RcptCommand(r: Recipient): Queued {
    Queued(Other("RCPT"), ["TO:<" + r.address + ">"] + r.params, false, false)
  }

  function RcptCommands(rs: seq<Recipient>): (cs: seq<Queued>)
    ensures |cs| == |rs|
  {
    seq(|rs|, i requires 0 <= i < |rs| => RcptCommand(rs[i]))
  }

  /** The addresses answered with 250 or 251, in order. */
  function Retained(rs: seq<Recipient>, codes: seq<int>): seq<string>
    requires |rs| == |codes|
  {
    if rs == [] then []
    else
      var n := |rs| - 1;
      Retained(rs[..n], codes[..n]) + (if codes[n] == 250 || codes[n] == 251 then [rs[n].address] else [])
  }

  /** Every recipient has an address and can be encoded. */
  predicate Addressed(rs: seq<Recipient>, valid: Recipient -> bool) {
    forall i :: 0 <= i < |rs| ==> rs[i].address != "" && valid(rs[i])
  }

  /** Builds the group; a missing address or one that cannot be encoded stops it. */
  method BuildRcpt(rs: seq<Recipient>, valid: Recipient -> bool) returns (commands: Option<seq<Queued>>)
    ensures commands.Some? ==> commands.value == RcptCommands(rs)
    ensures commands.Some? <==> Addressed(rs, valid)
  {
    var cs: seq<Queued> := [];
    for i := 0 to |rs|
      invariant |cs| == i && forall k :: 0 <= k < i ==> cs[k] == RcptCommand(rs[k])
      invariant forall k :: 0 <= k < i ==> rs[k].address != "" && valid(rs[k])
    {
      if rs[i].address == "" || !valid(rs[i]) {
        return None;
      }
      cs := cs + [RcptCommand(rs[i])];
    }
    return Some(cs);
  }

  /** Turns replies into results and the addresses kept for DATA. */
  method CollectRcpt(rs: seq<Recipient>, codes: seq<int>) returns (result: seq<RecipientResult>, kept: seq<string>)
    requires |rs| == |codes|
    ensures |result| == |rs| && forall i :: 0 <= i < |rs| ==> result[i] == RecipientResult(rs[i].address, codes[i])
    ensures kept == Retained(rs, codes)
  {
    result, kept := [], [];
    for i := 0 to |rs|
      invariant |result| == i && forall k :: 0 <= k < i ==> result[k] == RecipientResult(rs[k].address, codes[k])
      invariant kept == Retained(rs[..i], codes[..i])
    {
      assert rs[..i + 1][..i] == rs[..i] && codes[..i + 1][..i] == codes[..i];
      result := result + [RecipientResult(rs[i].address, codes[i])];
      if codes[i] == 250 || codes[i] == 251 {
        kept := kept + [rs[i].address];
      }
    }
    TakeWhole(rs);
    TakeWhole(codes);
  }

  method RcptBatch<S>(client: Client, wire: Wire<S>, rs: seq<Recipient>, valid: Recipient -> bool, weather: Weather)
    returns (r: Result<seq<RecipientResult>, Error>)
    requires wire.Valid() && wire.unread == [] && wire.depth > 0
    modifies wire, client
    ensures r.Ok? <==>
      && rs != [] && old(client.state) == Transaction && Addressed(rs, valid) && !old(wire.closed)
      && var codes := wire.server.Replies(old(wire.Final()), RcptCommands(rs));
         FateOf(RcptCommands(rs), weather, codes, wire.depth, 0).Succeeds?
    ensures r.Err? ==> client.recipients == old(client.recipients)
    ensures r.Ok? ==>
      var codes := wire.server.Replies(old(wire.Final()), RcptCommands(rs));
      && client.recipients == old(client.recipients) + Retained(rs, codes)
      && |r.value| == |rs| && forall i :: 0 <= i < |rs| ==> r.value[i] == RecipientResult(rs[i].address, codes[i])
    ensures r.Ok? ==> wire.unread == [] && wire.Final() == wire.server.After(old(wire.Final()), RcptCommands(rs))
  {
    if rs == [] || client.state != Transaction {
      return Err(Local);
    }
    var commands := BuildRcpt(rs, valid);
    if commands.None? {
      return Err(Local);
    }
    var replies := ExecuteLocked(wire, commands.value, weather);
    if replies.Err? {
      return Err(replies.error);
    }
    var result, kept := CollectRcpt(rs, replies.value);
    client.recipients := client.recipients + kept;
    return Ok(result);
  }
}
