/** A session together with the octets and the spool of its BDAT commands
    (smtpserver/cmd_data.go, smtpserver/lifecycle.go, smtpserver/spool.go). */
module ChunkedSession {
  import opened Prelude
  import opened Delivery
  import opened SessionState
  import opened Session
  import Spool
  import Bdat

  /** What reading and keeping one chunk meets. */
  datatype Plan = Plan(pieces: seq<nat>, faults: seq<Bdat.Fault>, rewinds: bool, content: ContentOutcome)

  /** Between `before` and `after` a session that owned `mine` came to own `yours`: every spool
      that appeared is one of its own or one of at most `others` that other sessions opened; and
      when those were `quiet`, the spools that are not its own are as they were. */
  ghost predicate Accounts(before: seq<Spool.Spool>, mine: set<nat>, after: seq<Spool.Spool>, yours: set<nat>,
                           others: nat, quiet: bool) {
    && mine <= yours && |before| <= |after|
    && (forall i :: i in yours && i !in mine ==> |before| <= i < |after|)
    && |after| - |yours| <= |before| - |mine| + others
    && (quiet ==> forall i :: 0 <= i < |before| && i !in yours ==> after[i] == before[i])
  }

  lemma AccountsAdd(a: seq<Spool.Spool>, x: set<nat>, b: seq<Spool.Spool>, y: set<nat>, c: seq<Spool.Spool>,
                    z: set<nat>, n: nat, quiet: bool, m: nat, still: bool)
    requires Accounts(a, x, b, y, n, quiet) && Accounts(b, y, c, z, m, still)
    ensures Accounts(a, x, c, z, n + m, quiet && still)
  {
  }

  /** Of the spools in `owned`, the one of the open transaction is idle and the others were given back. */
  ghost predicate Possesses(spools: seq<Spool.Spool>, owned: set<nat>, spool: Option<nat>) {
    && (forall i :: i in owned ==> i < |spools|)
    && (forall i :: i in owned && spool != Some(i) ==> spools[i].activity.Released?)
    && (spool.Some? ==>
          spool.value in owned && spools[spool.value].activity.Idle? && !spools[spool.value].closed)
  }

  lemma OneMore(before: seq<Spool.Spool>, mine: set<nat>, empty: Spool.Spool)
    requires Possesses(before, mine, None) && empty.activity.Idle? && !empty.closed
    ensures Accounts(before, mine, before + [empty], mine + {|before|}, 0, true)
    ensures Possesses(before + [empty], mine + {|before|}, Some(|before|))
  {
  }

  lemma {:induction false} SetFits(s: set<nat>, low: nat, high: nat)
    requires low <= high && forall i :: i in s ==> low <= i < high
    ensures |s| <= high - low
    decreases high - low
  {
    if low < high {
      SetFits(s - {low}, low + 1, high);
    } else {
      assert s == {};
    }
  }

  /** When no other session opened a spool, all that appeared are the session's own. */
  lemma AllAppearedAreOwn(before: seq<Spool.Spool>, after: seq<Spool.Spool>, yours: set<nat>, i: nat)
    requires Accounts(before, {}, after, yours, 0, true) && |before| <= i < |after|
    ensures i in yours
  {
    if i !in yours {
      var low := set k | k in yours && k < i;
      SetFits(low, |before|, i);
      SetFits(yours - low, i + 1, |after|);
    }
  }

  /** From `before` to `after` the backend was called with DATA, and the call came to `content`. */
  predicate HandsOver(before: Lifecycle, state: ProtocolState, content: ContentOutcome, after: Lifecycle) {
    && content.Evaluated?
    && after == before.(spool := true).Delivering(state.tls, state.authenticated, content)
  }

  /** Making calls leaves a mark. */
  lemma TraceGrows(t: Trace, a: Call, b: Call)
    ensures Then(t, a) != t && Then(Then(t, a), b) != t
    ensures Then(Then(t, a), b) != Then(t, b)
  {
    assert t < Then(t, a) < Then(Then(t, a), b);
  }

  lemma NothingHandedOver(before: Lifecycle, state: ProtocolState, content: ContentOutcome)
    ensures !HandsOver(before, state, content, before)
  {
    TraceGrows(before.trace, DataCall(state.tls, state.authenticated), ResetCall(Completed));
    TraceGrows(before.trace, DataCall(state.tls, state.authenticated), ResetCall(Failed));
  }

  /** A chunk leads to DATA exactly when it is the last, all was stored and can be read again. */
  lemma ChunkHandsOver(before: Lifecycle, state: ProtocolState, content: ContentOutcome, after: Lifecycle,
                       last: bool, free: bool, stored: bool, rewinds: bool, complete: bool)
    requires before.spool ==> free
    requires after == if complete
                      then before.Chunk(last, free, stored, rewinds, state.tls, state.authenticated, content)
                      else before.(spool := free)
    ensures last && HandsOver(before, state, content, after) <==>
      last && free && stored && complete && rewinds && content.Evaluated?
  {
    NothingHandedOver(before, state, content);
    TraceGrows(before.trace, DataCall(state.tls, state.authenticated), ResetCall(Completed));
    TraceGrows(before.trace, DataCall(state.tls, state.authenticated), ResetCall(Failed));
  }

  class SpooledSession {
    const session: CommandSession
    const manager: Spool.SpoolManager
    /** The spool of the open transaction. */
    var spool: Option<nat>
    /** Every spool this session ever owned. */
    var owned: set<nat>

    /** The session has a spool exactly when one is live; all its others were given back. */
    ghost predicate Linked()
      reads this, session, manager
    {
      && manager.Valid()
      && (session.lifecycle.spool <==> spool.Some?)
      && Owned()
    }

    ghost predicate Owned()
      reads this, manager
    {
      Possesses(manager.spools, owned, spool)
    }

    twostate predicate Accounted(others: nat, quiet: bool)
      reads this, manager
    {
      Accounts(old(manager.spools), old(owned), manager.spools, owned, others, quiet)
    }

    /** What the open transaction has collected. */
    ghost function Collected(): string
      reads this, manager
    {
      if spool.Some? && spool.value < |manager.spools| then manager.spools[spool.value].Content() else ""
    }

    /** `n` more octets of the transaction can be kept. */
    ghost predicate HasRoom(n: nat)
      reads this, manager
    {
      if spool.Some? then spool.value < |manager.spools| && manager.HasRoom(spool.value, n)
      else
        && manager.concurrent < manager.options.maxConcurrent
        && n <= manager.options.maxBytes && manager.total + n <= manager.options.maxTotalBytes
    }

    constructor (session: CommandSession, manager: Spool.SpoolManager)
      requires manager.Valid() && !session.lifecycle.spool
      ensures Linked() && this.session == session && this.manager == manager && spool == None && owned == {}
    {
      this.session, this.manager, spool, owned := session, manager, None, {};
    }

    /** A spool that the lifecycle has dropped is closed and its budget returned. */
    method Release()
      requires manager.Valid() && Owned() && (session.lifecycle.spool ==> spool.Some?)
      modifies this, manager
      ensures Linked() && owned == old(owned) && Accounted(0, true)
      ensures session.lifecycle.spool ==> spool == old(spool) && manager.spools == old(manager.spools)
    {
      if spool.Some? && !session.lifecycle.spool {
        manager.BeginClose(spool.value);
        manager.FinishClose(spool.value);
        spool := None;
      }
    }

    /** Other sessions act between two commands of this one. */
    method Others(acts: seq<Spool.Act>)
      requires Linked()
      modifies manager
      ensures Linked() && Collected() == old(Collected()) && Accounted(Spool.Opened(acts), acts == [])
      ensures acts == [] ==> manager.spools == old(manager.spools)
    {
      Spool.OthersAct(manager, owned, acts);
    }

    /** Any command but BDAT. */
    method Execute(command: Command, written: bool) returns (outcome: Outcome)
      requires session.Valid() && Linked() && !command.Bdat?
      modifies this, session, manager
      ensures Linked() && Accounted(0, true) && outcome != BadTransition
      ensures outcome == Continue ==> session.Valid()
      ensures session.Consistent(false) || session.Consistent(true)
    {
      outcome := session.Execute(command, written);
      Release();
    }

    /** A command line that could not be read. */
    method ReadError(framed: bool, written: bool) returns (outcome: Outcome)
      requires session.Valid() && Linked()
      modifies this, session, manager
      ensures Linked() && Accounted(0, true) && outcome != BadTransition
      ensures session.Valid()
    {
      outcome := session.HandleReadError(framed, written);
      Release();
    }

    /** A spool for the transaction, if there is none yet and the limit allows one. */
    method Attach(ghost n: nat) returns (free: bool)
      requires Linked()
      modifies this, manager
      ensures manager.Valid() && Owned() && Accounted(0, true)
      ensures forall i :: |old(manager.spools)| <= i < |manager.spools| ==> i in owned
      ensures free <==> spool.Some?
      ensures old(spool).Some? ==> free && unchanged(this) && unchanged(manager)
      ensures Collected() == old(Collected())
      ensures old(HasRoom(n)) ==> free && HasRoom(n)
    {
      if spool.Some? {
        return true;
      }
      free := Open(n);
    }

    /** The transaction's first chunk asks for a spool. */
    method Open(ghost n: nat) returns (free: bool)
      requires manager.Valid() && Owned() && spool.None?
      modifies this, manager
      ensures manager.Valid() && Owned() && Accounted(0, true)
      ensures forall i :: |old(manager.spools)| <= i < |manager.spools| ==> i in owned
      ensures (free <==> spool.Some?) && Collected() == ""
      ensures old(HasRoom(n)) ==> free && HasRoom(n)
    {
      var id := manager.NewSpool();
      if id.Err? {
        return false;
      }
      OneMore(old(manager.spools), owned, manager.spools[id.value]);
      spool, owned := Some(id.value), owned + {id.value};
      return true;
    }

    /** The announced octets of a chunk are stored, or thrown away when there is no spool. */
    method TakeChunk(src: string, size: nat, plan: Plan)
      returns (rest: string, free: bool, stored: bool, complete: bool)
      requires Linked()
      modifies this, manager
      ensures manager.Valid() && Owned() && Accounted(Bdat.Opened(plan.faults), Bdat.Undisturbed(plan.faults))
      ensures free <==> spool.Some?
      ensures old(spool).Some? ==> spool == old(spool)
      ensures complete <==> size <= |src|
      ensures rest == if complete then src[size..] else []
      ensures free && stored && complete ==> Collected() == old(Collected()) + src[..size]
      ensures plan.faults == [] && old(HasRoom(size)) ==> free && (complete ==> stored)
    {
      free := Attach(size);
      stored := false;
      if !free {
        rest, complete := Bdat.DiscardChunk(src, size, plan.pieces);
        return;
      }
      var err;
      rest, err, complete := Bdat.CopyChunk(manager, spool.value, owned, src, size, plan.pieces, plan.faults, 0);
      stored := err == None;
    }

    /** BDAT is understood here, so its octets follow on the connection. */
    predicate Reads(argument: BdatArgument)
      reads session
    {
      argument.Framing? && session.extended && session.config.chunking && session.state.Legality(BDAT) == Allowed
    }

    /** Octets that cannot be kept are thrown away before the reply. */
    method DiscardBdat(argument: BdatArgument, src: string, plan: Plan, written: bool)
      returns (outcome: Outcome, rest: string)
      requires session.Valid() && Linked() && Reads(argument) && session.state.phase != InRecipients
      modifies session
      ensures session.Valid() && Linked() && outcome != BadTransition && session.lifecycle == old(session.lifecycle)
      ensures rest == if argument.size <= |src| then src[argument.size..] else []
      ensures |src| < argument.size ==> outcome == IoError
    {
      var complete;
      rest, complete := Bdat.DiscardChunk(src, argument.size, plan.pieces);
      outcome := session.HandleBdat(argument, complete, false, false, false, plan.content, written);
    }

    /** A chunk was read: `stored` tells whether it was kept, `complete` whether all of it came. */
    method Conclude(argument: BdatArgument, stored: bool, complete: bool, plan: Plan, written: bool)
      returns (outcome: Outcome, message: Option<string>)
      requires session.Valid() && manager.Valid() && Owned() && Reads(argument) && session.state.phase == InRecipients
      requires session.lifecycle.spool ==> spool.Some?
      modifies this, session, manager
      ensures Linked() && Accounted(0, true) && owned == old(owned) && outcome != BadTransition
      ensures outcome == Continue ==> session.Valid()
      ensures session.Consistent(false) || session.Consistent(true)
      ensures !complete ==> outcome == IoError
      ensures message.Some? <==>
        && argument.last && HandsOver(old(session.lifecycle), old(session.state), plan.content, session.lifecycle)
      ensures message.Some? <==>
        argument.last && old(spool).Some? && stored && complete && plan.rewinds && plan.content.Evaluated?
      ensures message.Some? ==> message.value == old(Collected())
      ensures spool.Some? ==> spool == old(spool) && Collected() == old(Collected()) && (complete ==> stored)
      ensures complete && stored && old(spool).Some? && !argument.last ==> spool.Some?
    {
      message := None;
      if argument.last && spool.Some? && stored && complete && plan.rewinds && plan.content.Evaluated? {
        message := Some(manager.spools[spool.value].Content());
      }
      outcome := session.HandleBdat(argument, complete, spool.Some?, stored, plan.rewinds, plan.content, written);
      ChunkHandsOver(old(session.lifecycle), old(session.state), plan.content, session.lifecycle,
                     argument.last, spool.Some?, stored, plan.rewinds, complete);
      Release();
    }

    /** Octets of an open transaction are kept; after the last chunk all goes to the backend. */
    method KeepBdat(argument: BdatArgument, src: string, plan: Plan, written: bool)
      returns (outcome: Outcome, rest: string, message: Option<string>)
      requires session.Valid() && Linked() && Reads(argument) && session.state.phase == InRecipients
      modifies this, session, manager
      ensures Linked() && outcome != BadTransition
      ensures Accounted(Bdat.Opened(plan.faults), Bdat.Undisturbed(plan.faults))
      ensures outcome == Continue ==> session.Valid()
      ensures session.Consistent(false) || session.Consistent(true)
      ensures rest == if argument.size <= |src| then src[argument.size..] else []
      ensures |src| < argument.size ==> outcome == IoError
      ensures message.Some? <==>
        && argument.last && HandsOver(old(session.lifecycle), old(session.state), plan.content, session.lifecycle)
      ensures message.Some? ==> argument.size <= |src|
      ensures message.Some? ==> message.value == old(Collected()) + src[..argument.size]
      ensures argument.size <= |src| && spool.Some? ==> Collected() == old(Collected()) + src[..argument.size]
      ensures plan.faults == [] && argument.size <= |src| && old(HasRoom(argument.size)) ==>
        if argument.last then plan.rewinds && plan.content.Evaluated? ==> message.Some? else spool.Some?
    {
      var free, stored, complete;
      rest, free, stored, complete := TakeChunk(src, argument.size, plan);
      ghost var spools, mine := manager.spools, owned;
      outcome, message := Conclude(argument, stored, complete, plan, written);
      AccountsAdd(old(manager.spools), old(owned), spools, mine, manager.spools, owned,
                  Bdat.Opened(plan.faults), Bdat.Undisturbed(plan.faults), 0, true);
    }

    /** BDAT with the octets `src` that follow it. All announced octets are taken on every
        branch: discarded, stored, or stored in part before a failure. After the last chunk the
        backend is given `message`, everything collected. */
    method ExecuteBdat(argument: BdatArgument, src: string, plan: Plan, written: bool)
      returns (outcome: Outcome, rest: string, message: Option<string>)
      requires session.Valid() && Linked()
      modifies this, session, manager
      ensures Linked() && outcome != BadTransition
      ensures Accounted(Bdat.Opened(plan.faults), Bdat.Undisturbed(plan.faults))
      ensures outcome == Continue ==> session.Valid()
      ensures session.Consistent(false) || session.Consistent(true)
      ensures rest == if !old(Reads(argument)) then src else if argument.size <= |src| then src[argument.size..] else []
      ensures old(Reads(argument)) && |src| < argument.size ==> outcome == IoError
      ensures message.Some? <==>
        && old(Reads(argument)) && argument.last
        && HandsOver(old(session.lifecycle), old(session.state), plan.content, session.lifecycle)
      ensures message.Some? ==> argument.size <= |src|
      ensures message.Some? ==> message.value == old(Collected()) + src[..argument.size]
      ensures old(Reads(argument)) && old(session.state.phase) == InRecipients && argument.size <= |src| ==>
        && (spool.Some? ==> Collected() == old(Collected()) + src[..argument.size])
        && (plan.faults == [] && old(HasRoom(argument.size)) ==>
              if argument.last then plan.rewinds && plan.content.Evaluated? ==> message.Some? else spool.Some?)
    {
      message := None;
      if !Reads(argument) {
        rest, outcome := src, Replied(written);
        if session.state.Legality(BDAT) == Allowed {
          outcome := session.HandleBdat(argument, true, false, false, false, plan.content, written);
        }
      } else if |session.envelope.recipients| == 0 || session.state.phase == FailedBDAT {
        outcome, rest := DiscardBdat(argument, src, plan, written);
        NothingHandedOver(session.lifecycle, old(session.state), plan.content);
      } else {
        outcome, rest, message := KeepBdat(argument, src, plan, written);
      }
    }

    /** The end of the connection: nothing stays reserved for this session. */
    method Close()
      requires Linked() && (session.closed || session.Consistent(false) || session.Consistent(true))
      requires session.closed ==> !session.lifecycle.spool
      modifies this, session, manager
      ensures Linked() && owned == old(owned) && spool == None && Accounted(0, true)
      ensures !old(session.closed) ==> Completes(session.config, session.lifecycle.Log())
    {
      session.Close();
      Release();
    }
  }

  /** What the command loop meets on one turn, and what other sessions do before it. */
  datatype Input =
    | Line(command: Command)
    | BdatLine(argument: BdatArgument, octets: string, plan: Plan)
    | Unreadable(framed: bool)

  datatype Turn = Turn(input: Input, written: bool, others: seq<Spool.Act>)

  function Faults(input: Input): seq<Bdat.Fault> { if input.BdatLine? then input.plan.faults else [] }

  /** How many spools other sessions may open on a turn. */
  function OpenedOn(turn: Turn): nat { Spool.Opened(turn.others) + Bdat.Opened(Faults(turn.input)) }

  function Opened(turns: seq<Turn>): nat {
    if turns == [] then 0 else Opened(turns[..|turns| - 1]) + OpenedOn(turns[|turns| - 1])
  }

  predicate Still(turn: Turn) { turn.others == [] && Bdat.Undisturbed(Faults(turn.input)) }

  /** No other session acts. */
  predicate Solitary(turns: seq<Turn>) { forall i :: 0 <= i < |turns| ==> Still(turns[i]) }

  /** A whole connection beside any others. At its end every spool it opened has been closed and
      holds nothing of the shared budget, and no other spool appeared but those that others
      opened; the counters of a server with no other session are what they were. */
  method Serve(config: Config, mode: Mode, implicitTLS: bool, manager: Spool.SpoolManager, turns: seq<Turn>)
    returns (served: SpooledSession, outcome: Outcome)
    requires manager.Valid()
    requires forall i :: 0 <= i < |turns| && turns[i].input.Line? ==> !turns[i].input.command.Bdat?
    modifies manager
    ensures outcome != BadTransition && manager.Valid() && served.manager == manager
    ensures Accounts(old(manager.spools), {}, manager.spools, served.owned, Opened(turns), Solitary(turns))
    ensures forall i :: i in served.owned ==> i < |manager.spools| && manager.spools[i].activity.Released?
    ensures forall i :: i in served.owned ==> manager.spools[i].Held() == 0 && manager.spools[i].HeldMemory() == 0
    ensures Solitary(turns) ==>
      && manager.total == old(manager.total) && manager.totalMemory == old(manager.totalMemory)
      && manager.concurrent == old(manager.concurrent)
    ensures var calls := Calls(served.session.lifecycle.trace);
      && Replay(calls) == Ended && MailCalls(calls) <= config.maxTransactions
      && (config.requireTLS ==> Protected(calls, true, false))
      && (config.requireAuth ==> Protected(calls, false, true))
  {
    var session := new CommandSession(config, mode, implicitTLS);
    served := new SpooledSession(session, manager);
    outcome := TakeTurns(served, turns);
    ghost var spools, owned := manager.spools, served.owned;
    served.Close();
    AccountsAdd(old(manager.spools), {}, spools, owned, manager.spools, served.owned,
                Opened(turns), Solitary(turns), 0, true);
    OwnedAreReleased(manager, served.owned);
    CompleteTrace(config, session.lifecycle.trace);
    if Solitary(turns) {
      SolitaryOpens(turns);
      NothingLost(old(manager.spools), manager, served.owned);
    }
  }

  lemma OwnedAreReleased(manager: Spool.SpoolManager, owned: set<nat>)
    requires manager.Valid() && Possesses(manager.spools, owned, None)
    ensures forall i :: i in owned ==> i < |manager.spools| && manager.spools[i].activity.Released?
    ensures forall i :: i in owned ==> manager.spools[i].Held() == 0 && manager.spools[i].HeldMemory() == 0
  {
    forall i | i in owned ensures manager.spools[i].Held() == 0 && manager.spools[i].HeldMemory() == 0 {
      assert manager.spools[i].Ok(manager.options);
    }
  }

  lemma {:induction false} SolitaryOpens(turns: seq<Turn>)
    requires Solitary(turns)
    ensures Opened(turns) == 0
  {
    if turns != [] {
      SolitaryOpens(turns[..|turns| - 1]);
      UndisturbedOpens(Faults(turns[|turns| - 1].input));
    }
  }

  lemma {:induction false} UndisturbedOpens(faults: seq<Bdat.Fault>)
    requires Bdat.Undisturbed(faults)
    ensures Bdat.Opened(faults) == 0
  {
    if faults != [] {
      UndisturbedOpens(faults[1..]);
    }
  }

  /** All that appeared since `before` is owned and released, so the counters are those of `before`. */
  lemma NothingLost(before: seq<Spool.Spool>, manager: Spool.SpoolManager, owned: set<nat>)
    requires manager.Valid() && Accounts(before, {}, manager.spools, owned, 0, true)
    requires forall i :: i in owned ==> i < |manager.spools| && manager.spools[i].activity.Released?
    ensures manager.total == Spool.TotalHeld(before) && manager.totalMemory == Spool.TotalMemory(before)
    ensures manager.concurrent == Spool.CountLive(before)
  {
    forall i | |before| <= i < |manager.spools| ensures manager.spools[i].activity.Released? {
      AllAppearedAreOwn(before, manager.spools, owned, i);
    }
    Spool.GoneAddNothing(before, manager.spools, manager.options);
  }

  method TakeTurns(s: SpooledSession, turns: seq<Turn>) returns (outcome: Outcome)
    requires s.session.Valid() && s.Linked()
    requires forall i :: 0 <= i < |turns| && turns[i].input.Line? ==> !turns[i].input.command.Bdat?
    modifies s, s.session, s.manager
    ensures s.Linked() && outcome != BadTransition && s.Accounted(Opened(turns), Solitary(turns))
    ensures s.session.Consistent(false) || s.session.Consistent(true)
  {
    outcome := Continue;
    var i := 0;
    while i < |turns| && outcome == Continue
      invariant 0 <= i <= |turns| && outcome != BadTransition && s.Linked()
      invariant s.Accounted(Opened(turns[..i]), Solitary(turns[..i]))
      invariant outcome == Continue ==> s.session.Valid()
      invariant s.session.Consistent(false) || s.session.Consistent(true)
    {
      ghost var spools, owned := s.manager.spools, s.owned;
      outcome := OneTurn(s, turns[i]);
      OneTurnMore(turns, i, old(s.manager.spools), old(s.owned), spools, owned, s.manager.spools, s.owned);
      i := i + 1;
    }
    SomeTurns(turns, i, old(s.manager.spools), old(s.owned), s.manager.spools, s.owned);
  }

  lemma OneTurnMore(turns: seq<Turn>, i: nat, a: seq<Spool.Spool>, x: set<nat>, b: seq<Spool.Spool>, y: set<nat>,
                    c: seq<Spool.Spool>, z: set<nat>)
    requires i < |turns| && Accounts(a, x, b, y, Opened(turns[..i]), Solitary(turns[..i]))
    requires Accounts(b, y, c, z, OpenedOn(turns[i]), Still(turns[i]))
    ensures Accounts(a, x, c, z, Opened(turns[..i + 1]), Solitary(turns[..i + 1]))
  {
    assert turns[..i + 1][..i] == turns[..i];
    AccountsAdd(a, x, b, y, c, z, Opened(turns[..i]), Solitary(turns[..i]), OpenedOn(turns[i]), Still(turns[i]));
    assert Solitary(turns[..i + 1]) ==> Solitary(turns[..i]) && Still(turns[..i + 1][i]);
  }

  lemma SomeTurns(turns: seq<Turn>, i: nat, a: seq<Spool.Spool>, x: set<nat>, b: seq<Spool.Spool>, y: set<nat>)
    requires i <= |turns| && Accounts(a, x, b, y, Opened(turns[..i]), Solitary(turns[..i]))
    ensures Accounts(a, x, b, y, Opened(turns), Solitary(turns))
  {
    OpenedPrefix(turns, i);
  }

  lemma {:induction false} OpenedPrefix(turns: seq<Turn>, n: nat)
    requires n <= |turns|
    ensures Opened(turns[..n]) <= Opened(turns)
  {
    if n == |turns| {
      TakeWhole(turns);
    } else {
      OpenedPrefix(turns[..|turns| - 1], n);
      assert turns[..|turns| - 1][..n] == turns[..n];
    }
  }

  method OneTurn(s: SpooledSession, turn: Turn) returns (outcome: Outcome)
    requires s.session.Valid() && s.Linked() && (turn.input.Line? ==> !turn.input.command.Bdat?)
    modifies s, s.session, s.manager
    ensures s.Linked() && outcome != BadTransition && s.Accounted(OpenedOn(turn), Still(turn))
    ensures outcome == Continue ==> s.session.Valid()
    ensures s.session.Consistent(false) || s.session.Consistent(true)
  {
    s.Others(turn.others);
    ghost var spools, owned := s.manager.spools, s.owned;
    match turn.input {
      case Line(command) => outcome := s.Execute(command, turn.written);
      case Unreadable(framed) => outcome := s.ReadError(framed, turn.written);
      case BdatLine(argument, octets, plan) =>
        var rest, message;
        outcome, rest, message := s.ExecuteBdat(argument, octets, plan, turn.written);
    }
    AccountsAdd(old(s.manager.spools), old(s.owned), spools, owned, s.manager.spools, s.owned,
                Spool.Opened(turn.others), turn.others == [],
                Bdat.Opened(Faults(turn.input)), Bdat.Undisturbed(Faults(turn.input)));
  }
}
