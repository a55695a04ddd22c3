/** One server connection: the command handlers and the transaction lifecycle
(smtpserver/cmd_session.go, cmd_data.go, lifecycle.go, floor_extensions.go).

The peer and the backend are arbitrary: what they do at each step comes in as the
argument of the handler.  The lifecycle records every call made into the backend.
*/
module Session {
  import opened Prelude
  import opened Delivery
  import opened SessionState

  /** Server options that steer the handlers. */
  datatype Config = Config(
    requireTLS: bool, requireAuth: bool, tlsAvailable: bool, chunking: bool,
    maxRcpt: nat, maxTransactions: nat)

  /** How a handler leaves the command loop. */
  datatype Outcome = Continue | CloseConnection | IoError | BadTransition

  /** A syntactically valid MAIL argument and the parameters that matter here. */
  datatype MailPath = MailPath(smtpUTF8: bool, binaryMIME: bool, tooLarge: bool)

  /** The argument of BDAT, as its parser classifies it. */
  datatype BdatArgument = BadSyntax | BadSize | Framing(size: nat, last: bool)

  /** What handing the content to the backend comes to. */
  datatype ContentOutcome = NoHeader | Evaluated(closeConnection: bool, completed: bool)

  /** A command together with the answers its handler meets. */
  datatype Command =
    | Hello(verb: Verb, domain: Option<string>, mechanisms: bool)
    | Mail(path: Option<MailPath>, accepts: bool)
    | Rcpt(mailbox: Option<string>, accepts: bool)
    | Data(bare: bool, ready: bool, content: ContentOutcome)
    | Bdat(argument: BdatArgument, readOk: bool, spoolFree: bool, stored: bool, rewinds: bool, content: ContentOutcome)
    | Rset(bare: bool)
    | Quit(bare: bool)
    | StartTLS(bare: bool, ready: bool, handshake: bool)
    | Auth(committed: bool, closes: bool)
    | Passive(verb: Verb, closes: bool)

  function VerbOf(command: Command): Verb {
    match command
    case Hello(verb, _, _) => if verb in {HELO, EHLO, LHLO} then verb else Unrecognized
    case Mail(_, _) => MAIL
    case Rcpt(_, _) => RCPT
    case Data(_, _, _) => DATA
    case Bdat(_, _, _, _, _, _) => BDAT
    case Rset(_) => RSET
    case Quit(_) => QUIT
    case StartTLS(_, _, _) => STARTTLS
    case Auth(_, _) => AUTH
    case Passive(verb, _) => if verb in {NOOP, VRFY, EXPN, HELP, ETRN, ATRN} then verb else Unrecognized
  }

  function Replied(written: bool): Outcome { if written then Continue else IoError }

  /** The backend session: whether a transaction and a spool are live, and every call made so far. */
  datatype Lifecycle = Lifecycle(transactionOpen: bool, spool: bool, trace: Trace) {
    function Calling(call: Call): Lifecycle { this.(trace := Then(trace, call)) }

    /** Drops the spool and the transaction, then tells the backend. */
    function Reset(reason: ResetReason): Lifecycle { Lifecycle(false, false, Then(trace, ResetCall(reason))) }

    function ResetIfOpen(reason: ResetReason): Lifecycle {
      if transactionOpen || spool then Reset(reason) else this
    }

    /** The calls made when content is handed over and comes to `content`. */
    function Delivering(tls: bool, authenticated: bool, content: ContentOutcome): Lifecycle {
      if content.NoHeader? then this
      else
        var called := Calling(DataCall(tls, authenticated));
        if content.closeConnection then called else called.Reset(if content.completed then Completed else Failed)
    }

    /** A chunk was read: kept, handed over when it is the last, or the transaction is lost. */
    function Chunk(last: bool, spoolFree: bool, stored: bool, rewinds: bool, tls: bool, authenticated: bool,
                   content: ContentOutcome): Lifecycle {
      var held := this.(spool := spool || spoolFree);
      if !held.spool || !stored || (last && !rewinds) then held.Reset(Failed)
      else if last then held.Delivering(tls, authenticated, content)
      else held
    }

    function Log(): Summary { Summarize(trace) }
  }

  /** Per-transaction facts that the handlers keep. */
  datatype Envelope = Envelope(smtpUTF8: bool, binaryMIME: bool, recipients: seq<string>)

  const CLEAR := Envelope(false, false, [])

  /** What holds whenever the command loop is about to read or to end; `dataSeen`
      tells whether DATA was already handed over in the open transaction. */
  ghost predicate Coherent(config: Config, state: ProtocolState, lifecycle: Lifecycle, envelope: Envelope,
                           mailAttempts: nat, dataSeen: bool) {
    var log := lifecycle.Log();
    && !state.phase.Closed?
    && (lifecycle.transactionOpen <==> Transacting(state.phase))
    && (state.phase.InRecipients? ==> 1 <= |envelope.recipients| <= config.maxRcpt)
    && (state.phase.InMail? ==> envelope.recipients == [])
    && (state.phase.Connected? || state.phase.Ready? ==> envelope == CLEAR)
    && (state.phase.Connected? ==> state.hello == "")
    && (lifecycle.spool ==> state.phase.InRecipients?)
    && (lifecycle.transactionOpen ==> (config.requireTLS ==> state.tls) && (config.requireAuth ==> state.authenticated))
    && log.stage == (if lifecycle.transactionOpen then Open(dataSeen) else Idle)
    && log.committed == state.authenticated
    && log.mails <= mailAttempts && log.mails <= config.maxTransactions
    && (config.requireTLS ==> !log.plaintext) && (config.requireAuth ==> !log.anonymous)
  }

  /** What the call log of a finished session shows. */
  ghost predicate Completes(config: Config, log: Summary) {
    && log.stage == Ended && log.mails <= config.maxTransactions
    && (config.requireTLS ==> !log.plaintext) && (config.requireAuth ==> !log.anonymous)
  }

  class CommandSession {
    const config: Config

    var state: ProtocolState
    var lifecycle: Lifecycle
    var envelope: Envelope
    var extended: bool
    var mailAttempts: nat
    var closed: bool

    ghost predicate Consistent(dataSeen: bool)
      reads this
    {
      !closed && Coherent(config, state, lifecycle, envelope, mailAttempts, dataSeen)
    }

    ghost predicate Valid()
      reads this
    {
      Consistent(false)
    }

    constructor (config: Config, mode: Mode, implicitTLS: bool)
      ensures Valid() && this.config == config
      ensures state == ProtocolState(mode, Connected, implicitTLS, false, "")
      ensures lifecycle == Lifecycle(false, false, Start)
    {
      this.config := config;
      state := ProtocolState(mode, Connected, implicitTLS, false, "");
      lifecycle := Lifecycle(false, false, Start);
      envelope, extended, mailAttempts, closed := CLEAR, false, 0, false;
    }

    /** Ends the session once: a live transaction is reset, then the backend is closed. */
    method Close()
      requires closed || Consistent(false) || Consistent(true)
      modifies this
      ensures old(closed) ==> unchanged(this)
      ensures !old(closed) ==>
                && closed && state.phase == Closed && !lifecycle.transactionOpen && !lifecycle.spool
                && lifecycle == old(lifecycle).ResetIfOpen(SessionEnd).Calling(CloseCall)
                && Completes(config, lifecycle.Log())
    {
      if closed {
        return;
      }
      lifecycle := lifecycle.ResetIfOpen(SessionEnd);
      assert lifecycle.Log().stage == Idle;
      lifecycle := lifecycle.Calling(CloseCall);
      closed := true;
      state := state.On(OnClose).value;
    }

    // --------------------------------------------------------------- handlers

    method HandleHello(verb: Verb, domain: Option<string>, mechanisms: bool, written: bool) returns (outcome: Outcome)
      requires Valid() && Permits(OnHello, state.phase)
      modifies this
      ensures outcome != BadTransition && Valid()
      ensures if domain.None? then unchanged(this)
              else
                && state == old(state).(phase := Ready, hello := domain.value) && extended == (verb != HELO)
                && lifecycle == old(lifecycle).ResetIfOpen(Explicit)
    {
      if domain.None? {
        return Replied(written);
      }
      outcome := Abandon(Explicit, OnHello);
      if outcome == Continue {
        state := state.(hello := domain.value);
        extended := verb != HELO;
        var stuck := config.requireAuth && state.tls && !state.authenticated && !mechanisms;
        outcome := if stuck && written then CloseConnection else Replied(written);
      }
    }

    /** Resets a live transaction and takes the session to the ready phase by `event`. */
    method Abandon(reason: ResetReason, event: Event) returns (outcome: Outcome)
      requires Valid() && Permits(event, state.phase)
      requires reason in {Explicit, NewMail} && event in {OnHello, OnFailed, OnReset}
      modifies `state, `lifecycle, `envelope
      ensures outcome == Continue && Valid() && envelope == CLEAR
      ensures state == old(state).(phase := Ready, hello := if event == OnHello then "" else old(state).hello)
      ensures lifecycle == old(lifecycle).ResetIfOpen(reason)
    {
      lifecycle := lifecycle.ResetIfOpen(reason);
      var next := state.On(event);
      outcome := if next.Some? then Continue else BadTransition;
      if next.Some? {
        state, envelope := next.value, CLEAR;
      }
    }

    /** Asks the backend to open a transaction. */
    method OpenTransaction(path: MailPath, accepts: bool, written: bool) returns (outcome: Outcome)
      requires Valid() && state.phase == Ready
      requires (config.requireTLS ==> state.tls) && (config.requireAuth ==> state.authenticated)
      requires lifecycle.Log().mails < mailAttempts <= config.maxTransactions
      modifies `state, `lifecycle, `envelope
      ensures outcome == Replied(written) && Valid()
      ensures lifecycle ==
        old(lifecycle).Calling(MailCall(accepts, state.tls, state.authenticated)).(transactionOpen := accepts)
      ensures state == old(state).(phase := if accepts then InMail else Ready)
      ensures accepts ==> envelope == Envelope(path.smtpUTF8, path.binaryMIME, [])
    {
      lifecycle := lifecycle.Calling(MailCall(accepts, state.tls, state.authenticated));
      outcome := Replied(written);
      if !accepts {
        envelope := CLEAR;
        return;
      }
      lifecycle := lifecycle.(transactionOpen := true);
      var next := state.On(OnMailAccepted);
      if next.Some? {
        state, envelope := next.value, Envelope(path.smtpUTF8, path.binaryMIME, []);
      } else {
        outcome := BadTransition;
      }
    }

    method HandleMail(path: Option<MailPath>, accepts: bool, written: bool) returns (outcome: Outcome)
      requires Valid() && Greeted(state.phase)
      requires lifecycle.Log().mails < mailAttempts <= config.maxTransactions
      modifies this
      ensures outcome == Replied(written) && Valid()
      ensures var refused := path.None? || (config.requireTLS && !old(state.tls))
                             || (config.requireAuth && !old(state.authenticated));
              var cleared := old(lifecycle).ResetIfOpen(NewMail);
              if refused then unchanged(this)
              else if path.value.tooLarge then state == old(state).(phase := Ready) && lifecycle == cleared
              else
                && lifecycle ==
                   cleared.Calling(MailCall(accepts, state.tls, state.authenticated)).(transactionOpen := accepts)
                && state == old(state).(phase := if accepts then InMail else Ready)
                && (accepts ==> envelope == Envelope(path.value.smtpUTF8, path.value.binaryMIME, []))
    {
      outcome := Replied(written);
      if (config.requireTLS && !state.tls) || (config.requireAuth && !state.authenticated) || path.None? {
        return;
      }
      if lifecycle.transactionOpen {
        var abandoned := Abandon(NewMail, OnFailed);
        if abandoned == BadTransition {
          return BadTransition;
        }
      }
      if !path.value.tooLarge {
        outcome := OpenTransaction(path.value, accepts, written);
      }
    }

    method HandleRcpt(mailbox: Option<string>, accepts: bool, written: bool) returns (outcome: Outcome)
      requires Valid() && Transacting(state.phase)
      modifies this
      ensures outcome != BadTransition && Valid()
      ensures if mailbox.None? || |old(envelope.recipients)| >= config.maxRcpt then unchanged(this)
              else
                && lifecycle == old(lifecycle).Calling(RcptCall(state.tls, state.authenticated))
                && envelope == (if !accepts then old(envelope)
                                else old(envelope).(recipients := old(envelope.recipients) + [mailbox.value]))
                && state == old(state).(phase := if accepts then InRecipients else old(state.phase))
    {
      if mailbox.None? || |envelope.recipients| >= config.maxRcpt {
        return Replied(written);
      }
      lifecycle := lifecycle.Calling(RcptCall(state.tls, state.authenticated));
      if !accepts {
        return Replied(written);
      }
      envelope := envelope.(recipients := envelope.recipients + [mailbox.value]);
      if state.phase == InMail {
        var next := state.On(OnRecipientAccepted);
        if next.None? {
          return BadTransition;
        }
        state := next.value;
      }
      return Replied(written);
    }

    /** Replies with the evaluated results; the transaction ends even if a reply cannot be written. */
    method FinishContent(closeConnection: bool, completed: bool, written: bool) returns (outcome: Outcome)
      requires Consistent(true) && state.phase == InRecipients
      modifies this
      ensures outcome != BadTransition
      ensures if closeConnection then outcome == CloseConnection && unchanged(this)
              else
                && Valid() && state == old(state).(phase := Ready)
                && lifecycle == old(lifecycle).Reset(if completed then Completed else Failed)
    {
      if closeConnection {
        return CloseConnection;
      }
      lifecycle := lifecycle.Reset(if completed then Completed else Failed);
      envelope := CLEAR;
      var next := state.On(if completed then OnComplete else OnFailed);
      if next.None? {
        return BadTransition;
      }
      state := next.value;
      return Replied(written);
    }

    /** Hands the content to the backend, unless no trace header can be formed for it. */
    method Deliver(content: ContentOutcome, written: bool) returns (outcome: Outcome)
      requires Valid() && state.phase == InRecipients
      modifies this
      ensures outcome != BadTransition
      ensures outcome == Continue ==> Valid() && state == old(state).(phase := Ready)
      ensures Consistent(false) || Consistent(true)
      ensures content.NoHeader? ==> unchanged(this)
      ensures lifecycle == old(lifecycle).Delivering(old(state.tls), old(state.authenticated), content)
    {
      if content.NoHeader? {
        return IoError;
      }
      lifecycle := lifecycle.Calling(DataCall(state.tls, state.authenticated));
      outcome := FinishContent(content.closeConnection, content.completed, written);
    }

    method HandleData(bare: bool, ready: bool, content: ContentOutcome, written: bool) returns (outcome: Outcome)
      requires Valid() && state.phase == InRecipients
      modifies this
      ensures outcome != BadTransition
      ensures outcome == Continue ==> Valid()
      ensures Consistent(false) || Consistent(true)
      ensures if !bare || old(envelope.binaryMIME) || !ready then unchanged(this)
              else lifecycle == old(lifecycle).Delivering(old(state.tls), old(state.authenticated), content)
    {
      if !bare || |envelope.recipients| == 0 || envelope.binaryMIME {
        return Replied(written);
      }
      if !ready {
        return IoError;
      }
      outcome := Deliver(content, written);
    }

    method FailBdat(written: bool) returns (outcome: Outcome)
      requires Valid() && state.phase == InRecipients
      modifies this
      ensures outcome == Replied(written) && Valid()
      ensures state == old(state).(phase := FailedBDAT) && lifecycle == old(lifecycle).Reset(Failed)
    {
      lifecycle := lifecycle.ResetIfOpen(Failed);
      var next := state.On(OnBDATFailed);
      if next.None? {
        return BadTransition;
      }
      state := next.value;
      return Replied(written);
    }

    /** The session's part of BDAT: `readOk` tells whether the announced octets arrived, `stored`
        whether they were kept. */
    method HandleBdat(argument: BdatArgument, readOk: bool, spoolFree: bool, stored: bool, rewinds: bool,
                      content: ContentOutcome, written: bool) returns (outcome: Outcome)
      requires Valid() && Permits(OnReset, state.phase)
      modifies this
      ensures outcome != BadTransition
      ensures outcome == Continue ==> Valid()
      ensures Consistent(false) || Consistent(true)
      ensures !argument.Framing? || !old(extended) || !config.chunking ==> unchanged(this)
      ensures old(state.phase) == FailedBDAT ==> state == old(state) && lifecycle == old(lifecycle)
      ensures argument.Framing? && old(extended) && config.chunking && !readOk ==> outcome == IoError
      ensures old(state.phase) != InRecipients ==> lifecycle == old(lifecycle)
      ensures argument.Framing? && old(extended) && config.chunking && old(state.phase) == InRecipients ==>
        lifecycle == if readOk then
                       old(lifecycle).Chunk(argument.last, spoolFree, stored, rewinds, old(state.tls),
                                            old(state.authenticated), content)
                     else old(lifecycle).(spool := old(lifecycle.spool) || spoolFree)
    {
      match argument
      case BadSyntax => return Replied(written);
      case BadSize => return if written then CloseConnection else IoError;
      case Framing(size, last) =>
        if !extended || !config.chunking {
          return Replied(written);
        }
        if |envelope.recipients| == 0 || state.phase == FailedBDAT {
          if !readOk {
            return IoError;
          }
          return Replied(written);
        }
        if !lifecycle.spool && spoolFree {
          lifecycle := lifecycle.(spool := true);
        }
        if !readOk {
          return IoError;
        }
        outcome := SettleChunk(last, stored, rewinds, content, written);
    }

    /** A chunk was read: it is kept, handed over when it is the last, or the transaction is lost. */
    method SettleChunk(last: bool, stored: bool, rewinds: bool, content: ContentOutcome, written: bool)
      returns (outcome: Outcome)
      requires Valid() && state.phase == InRecipients
      modifies this
      ensures outcome != BadTransition
      ensures outcome == Continue ==> Valid()
      ensures Consistent(false) || Consistent(true)
      ensures lifecycle == old(lifecycle).Chunk(last, false, stored, rewinds, old(state.tls),
                                                old(state.authenticated), content)
    {
      if !lifecycle.spool || !stored || (last && !rewinds) {
        outcome := FailBdat(written);
      } else if last {
        outcome := Deliver(content, written);
      } else {
        outcome := Replied(written);
      }
    }

    method HandleRset(bare: bool, written: bool) returns (outcome: Outcome)
      requires Valid() && Permits(OnReset, state.phase)
      modifies this
      ensures outcome == Replied(written) && Valid()
      ensures if !bare then unchanged(this)
              else
                && state == old(state).(phase := Ready) && envelope == CLEAR
                && lifecycle == old(lifecycle).ResetIfOpen(Explicit)
    {
      if !bare {
        return Replied(written);
      }
      outcome := Abandon(Explicit, OnReset);
      if outcome == Continue {
        outcome := Replied(written);
      }
    }

    /** A completed handshake forgets the greeting, the extensions and any authentication. */
    method HandleStartTLS(bare: bool, ready: bool, handshake: bool, written: bool) returns (outcome: Outcome)
      requires Valid() && state.phase == Ready && !state.tls
      modifies this
      ensures outcome != BadTransition && Valid()
      ensures if !bare || !old(extended) || !config.tlsAvailable || !ready || !handshake then unchanged(this)
              else
                && state == ProtocolState(old(state.mode), Connected, true, false, "") && !extended
                && lifecycle == old(lifecycle).Reset(ForStartTLS)
    {
      if !bare || !extended || !config.tlsAvailable {
        return Replied(written);
      }
      if !ready || !handshake {
        return IoError;
      }
      lifecycle := lifecycle.Reset(ForStartTLS);
      var next := state.On(OnStartTLS);
      if next.None? {
        return BadTransition;
      }
      state, extended, envelope := next.value, false, CLEAR;
      return Continue;
    }

    /** `committed` is the verdict of the SASL exchange; the backend commits before the state changes. */
    method HandleAuth(committed: bool, closes: bool, written: bool) returns (outcome: Outcome)
      requires Valid() && state.phase == Ready && !state.authenticated
      modifies this
      ensures outcome != BadTransition && Valid()
      ensures if committed then
                state == old(state).(authenticated := true) && lifecycle == old(lifecycle).Calling(CommitAuthCall)
              else unchanged(this)
    {
      if !committed {
        return if closes && written then CloseConnection else Replied(written);
      }
      lifecycle := lifecycle.Calling(CommitAuthCall);
      var next := state.On(OnAuthenticated);
      if next.None? {
        return BadTransition;
      }
      state := next.value;
      return Replied(written);
    }

    /** A malformed command line while chunks are being collected poisons the transaction. */
    method HandleReadError(framed: bool, written: bool) returns (outcome: Outcome)
      requires Valid()
      modifies this
      ensures outcome != BadTransition && Valid()
      ensures if old(lifecycle.spool) && framed then outcome == Replied(written) && state.phase == FailedBDAT
              else outcome == IoError && unchanged(this)
    {
      if !lifecycle.spool || !framed {
        return IoError;
      }
      outcome := FailBdat(written);
    }

    // ------------------------------------------------------------------ loop

    /** MAIL counts against the transaction limit before anything else is looked at. */
    method CountMail(written: bool) returns (outcome: Outcome)
      requires Valid()
      modifies `mailAttempts
      ensures Valid()
      ensures outcome == Continue ==> lifecycle.Log().mails < mailAttempts <= config.maxTransactions
      ensures outcome != BadTransition
    {
      mailAttempts := mailAttempts + 1;
      if mailAttempts > config.maxTransactions {
        return if written then CloseConnection else IoError;
      }
      return Continue;
    }

    method Execute(command: Command, written: bool) returns (outcome: Outcome)
      requires Valid()
      modifies this
      ensures outcome != BadTransition
      ensures outcome == Continue ==> Valid()
      ensures Consistent(false) || Consistent(true)
      ensures old(state.phase) == FailedBDAT && state.phase != FailedBDAT ==> command.Rset?
      ensures old(state.phase) == FailedBDAT ==> lifecycle == old(lifecycle)
      ensures !command.Bdat? && lifecycle.spool ==> old(lifecycle.spool)
    {
      var verb := VerbOf(command);
      if command.Mail? {
        outcome := CountMail(written);
        if outcome != Continue {
          return;
        }
      }
      if state.Legality(verb) != Allowed {
        return Replied(written);
      }
      outcome := Dispatch(command, written);
    }

    method Dispatch(command: Command, written: bool) returns (outcome: Outcome)
      requires Valid() && state.Legality(VerbOf(command)) == Allowed
      requires command.Mail? ==> lifecycle.Log().mails < mailAttempts <= config.maxTransactions
      modifies this
      ensures outcome != BadTransition
      ensures outcome == Continue ==> Valid()
      ensures Consistent(false) || Consistent(true)
      ensures old(state.phase) == FailedBDAT && state.phase != FailedBDAT ==> command.Rset?
      ensures old(state.phase) == FailedBDAT ==> lifecycle == old(lifecycle)
      ensures !command.Bdat? && lifecycle.spool ==> old(lifecycle.spool)
    {
      match command
      case Hello(v, domain, mechanisms) => outcome := HandleHello(v, domain, mechanisms, written);
      case Mail(path, accepts) => outcome := HandleMail(path, accepts, written);
      case Rcpt(mailbox, accepts) => outcome := HandleRcpt(mailbox, accepts, written);
      case Data(bare, ready, content) => outcome := HandleData(bare, ready, content, written);
      case Bdat(argument, readOk, spoolFree, stored, rewinds, content) =>
        outcome := HandleBdat(argument, readOk, spoolFree, stored, rewinds, content, written);
      case Rset(bare) => outcome := HandleRset(bare, written);
      case Quit(bare) => return if bare && written then CloseConnection else Replied(written);
      case StartTLS(bare, ready, handshake) => outcome := HandleStartTLS(bare, ready, handshake, written);
      case Auth(committed, closes) => outcome := HandleAuth(committed, closes, written);
      case Passive(_, closes) => return if closes && written then CloseConnection else Replied(written);
    }
  }

  /** What a complete call log says of the calls themselves. */
  lemma CompleteTrace(config: Config, trace: Trace)
    requires Completes(config, Summarize(trace))
    ensures Replay(Calls(trace)) == Ended
    ensures config.requireTLS ==> Protected(Calls(trace), true, false)
    ensures config.requireAuth ==> Protected(Calls(trace), false, true)
    ensures MailCalls(Calls(trace)) <= config.maxTransactions
  {
    SummaryMeans(trace);
  }

  /** What the command loop meets on one turn. */
  datatype Input = Received(command: Command) | Unreadable(framed: bool)

  /** A whole connection against an arbitrary peer and backend. */
  method Serve(config: Config, mode: Mode, implicitTLS: bool, inputs: seq<(Input, bool)>)
    returns (session: CommandSession, outcome: Outcome)
    ensures outcome != BadTransition && session.config == config && session.closed
    ensures var calls := Calls(session.lifecycle.trace);
      && Replay(calls) == Ended && MailCalls(calls) <= config.maxTransactions
      && (config.requireTLS ==> Protected(calls, true, false))
      && (config.requireAuth ==> Protected(calls, false, true))
  {
    session := new CommandSession(config, mode, implicitTLS);
    outcome := Continue;
    var i := 0;
    while i < |inputs| && outcome == Continue
      invariant 0 <= i <= |inputs| && outcome != BadTransition && fresh(session) && session.config == config
      invariant outcome == Continue ==> session.Valid()
      invariant session.Consistent(false) || session.Consistent(true)
    {
      match inputs[i].0 {
        case Received(command) => outcome := session.Execute(command, inputs[i].1);
        case Unreadable(framed) => outcome := session.HandleReadError(framed, inputs[i].1);
      }
      i := i + 1;
    }
    session.Close();
    CompleteTrace(config, session.lifecycle.trace);
  }
}
