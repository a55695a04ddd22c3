/** The command legality table, the phase transitions and the backend call grammar
(smtpserver/state.go, smtpserver/session.go). */
module SessionState {
  import opened Prelude
  import opened Delivery

  datatype Phase = Connected | Ready | InMail | InRecipients | FailedBDAT | Closed

  datatype Verb =
    | HELO | EHLO | LHLO | MAIL | RCPT | DATA | BDAT | RSET | NOOP | QUIT
    | VRFY | EXPN | HELP | ETRN | STARTTLS | AUTH | ATRN | Unrecognized

  datatype Rule = Rule(modes: set<Mode>, phases: set<Phase>, requirePlaintext: bool, requireUnauthenticated: bool)

  const BOTH := {SMTP, LMTP}
  const ANY_OPEN := {Connected, Ready, InMail, InRecipients, FailedBDAT}
  const GREETED := {Ready, InMail, InRecipients}

  function RuleFor(verb: Verb): Option<Rule> {
    match verb
    case HELO | EHLO => Some(Rule({SMTP}, GREETED + {Connected}, false, false))
    case LHLO => Some(Rule({LMTP}, GREETED + {Connected}, false, false))
    case MAIL => Some(Rule(BOTH, GREETED, false, false))
    case RCPT => Some(Rule(BOTH, {InMail, InRecipients}, false, false))
    case DATA => Some(Rule(BOTH, {InRecipients}, false, false))
    case BDAT | RSET => Some(Rule(BOTH, GREETED + {FailedBDAT}, false, false))
    case NOOP | QUIT => Some(Rule(BOTH, ANY_OPEN, false, false))
    case VRFY | EXPN | HELP => Some(Rule(BOTH, GREETED, false, false))
    case ETRN | ATRN => Some(Rule({SMTP}, {Ready}, false, false))
    case STARTTLS => Some(Rule(BOTH, {Ready}, true, false))
    case AUTH => Some(Rule(BOTH, {Ready}, false, true))
    case Unrecognized => None
  }

  datatype Legality = UnknownCommand | Allowed | WrongMode | WrongState

  datatype Event =
    | OnHello | OnMailAccepted | OnRecipientAccepted | OnComplete | OnFailed
    | OnBDATFailed | OnReset | OnStartTLS | OnAuthenticated | OnClose

  /** The phases an event may occur in. */
  predicate Permits(event: Event, phase: Phase) {
    match event
    case OnHello => phase.Connected? || Greeted(phase)
    case OnMailAccepted => Greeted(phase)
    case OnRecipientAccepted | OnFailed => Transacting(phase)
    case OnComplete | OnBDATFailed => phase.InRecipients?
    case OnReset => Greeted(phase) || phase.FailedBDAT?
    case OnStartTLS | OnAuthenticated => phase.Ready?
    case OnClose => !phase.Closed?
  }

  predicate Transacting(phase: Phase) { phase.InMail? || phase.InRecipients? }

  predicate Greeted(phase: Phase) { phase.Ready? || Transacting(phase) }

  function To(event: Event): Phase {
    match event
    case OnHello | OnComplete | OnFailed | OnReset | OnAuthenticated => Ready
    case OnMailAccepted => InMail
    case OnRecipientAccepted => InRecipients
    case OnBDATFailed => FailedBDAT
    case OnStartTLS => Connected
    case OnClose => Closed
  }

  /** The part of a session that commands are judged by. */
  datatype ProtocolState = ProtocolState(mode: Mode, phase: Phase, tls: bool, authenticated: bool, hello: string) {
    function Legality(verb: Verb): Legality {
      match RuleFor(verb)
      case None => UnknownCommand
      case Some(rule) =>
        if mode !in rule.modes then WrongMode
        else if phase !in rule.phases || (rule.requirePlaintext && tls)
                || (rule.requireUnauthenticated && authenticated)
        then WrongState
        else Allowed
    }

    /** The state after `event`, or none when the phase does not permit it. */
    function On(event: Event): Option<ProtocolState> {
      if !Permits(event, phase) then None
      else
        var next := this.(phase := To(event));
        match event
        case OnHello | OnClose => Some(next.(hello := ""))
        case OnStartTLS => Some(next.(tls := true, authenticated := false, hello := ""))
        case OnAuthenticated => Some(next.(authenticated := true))
        case _ => Some(next)
    }
  }

  // ------------------------------------------------------------ backend calls

  datatype ResetReason = Explicit | NewMail | Completed | Failed | ForStartTLS | SessionEnd

  /** A call into the backend; transaction calls carry the protection they were made under. */
  datatype Call =
    | MailCall(accepted: bool, tls: bool, authenticated: bool)
    | RcptCall(tls: bool, authenticated: bool)
    | DataCall(tls: bool, authenticated: bool)
    | ResetCall(reason: ResetReason)
    | CommitAuthCall
    | CloseCall

  /** Where a backend session stands after a sequence of calls. */
  datatype Stage = Idle | Open(dataSeen: bool) | Ended | Broken

  /** The lifecycle grammar: what each call needs and where it leads. */
  function Advance(stage: Stage, call: Call): Stage {
    match call
    case MailCall(accepted, _, _) => if stage.Idle? then (if accepted then Open(false) else Idle) else Broken
    case RcptCall(_, _) => if stage == Open(false) then stage else Broken
    case DataCall(_, _) => if stage == Open(false) then Open(true) else Broken
    case ResetCall(reason) =>
      if reason == ForStartTLS then (if stage.Idle? then Idle else Broken)
      else if stage.Open? && (reason == Completed ==> stage.dataSeen) then Idle
      else Broken
    case CommitAuthCall => if stage.Idle? then Idle else Broken
    case CloseCall => if stage.Idle? then Ended else Broken
  }

  function Replay(trace: seq<Call>): Stage {
    if trace == [] then Idle else Advance(Replay(trace[..|trace| - 1]), trace[|trace| - 1])
  }

  /** The backend committed an authentication that no TLS handshake has discarded since. */
  function Committed(trace: seq<Call>): bool {
    if trace == [] then false
    else
      match trace[|trace| - 1]
      case CommitAuthCall => true
      case ResetCall(ForStartTLS) => false
      case _ => Committed(trace[..|trace| - 1])
  }

  function MailCalls(trace: seq<Call>): nat {
    if trace == [] then 0
    else MailCalls(trace[..|trace| - 1]) + if trace[|trace| - 1].MailCall? then 1 else 0
  }

  /** Every transaction call was made under the required protection. */
  ghost predicate Protected(trace: seq<Call>, requireTLS: bool, requireAuth: bool) {
    forall i :: 0 <= i < |trace| && (trace[i].MailCall? || trace[i].RcptCall? || trace[i].DataCall?) ==>
      (requireTLS ==> trace[i].tls) && (requireAuth ==> trace[i].authenticated)
  }

  /** All that the session invariant needs to know of a trace. */
  datatype Summary = Summary(stage: Stage, committed: bool, mails: nat, plaintext: bool, anonymous: bool)

  function Note(s: Summary, call: Call): Summary {
    var guarded := call.MailCall? || call.RcptCall? || call.DataCall?;
    Summary(Advance(s.stage, call),
            call.CommitAuthCall? || (s.committed && call != ResetCall(ForStartTLS)),
            s.mails + (if call.MailCall? then 1 else 0),
            s.plaintext || (guarded && !call.tls),
            s.anonymous || (guarded && !call.authenticated))
  }

  /** The calls made so far, the latest outermost. */
  datatype Trace = Start | Then(earlier: Trace, call: Call)

  function Calls(trace: Trace): seq<Call> {
    match trace
    case Start => []
    case Then(earlier, call) => Calls(earlier) + [call]
  }

  function Summarize(trace: Trace): Summary {
    match trace
    case Start => Summary(Idle, false, 0, false, false)
    case Then(earlier, call) => Note(Summarize(earlier), call)
  }

  lemma {:induction false} SummaryMeans(trace: Trace)
    ensures var s, calls := Summarize(trace), Calls(trace);
            && s.stage == Replay(calls) && s.committed == Committed(calls) && s.mails == MailCalls(calls)
            && s.plaintext == !Protected(calls, true, false)
            && s.anonymous == !Protected(calls, false, true)
  {
    match trace
    case Start =>
    case Then(earlier, call) =>
      SummaryMeans(earlier);
      TakeMost(Calls(earlier), call);
  }

  // ------------------------------------------------ what the grammar entails

  /** An accepted MAIL at `m` is followed, up to `i`, by RCPT calls alone. */
  ghost predicate OnlyRcptSince(trace: seq<Call>, m: int, i: int) {
    && 0 <= m < i <= |trace| && trace[m].MailCall? && trace[m].accepted
    && forall k :: m < k < i ==> trace[k].RcptCall?
  }

  /** An accepted MAIL at `m` is followed, up to `i`, by RCPT calls and then at most one DATA. */
  ghost predicate TransactionSince(trace: seq<Call>, m: int, i: int) {
    && i <= |trace|
    && (OnlyRcptSince(trace, m, i) || (OnlyRcptSince(trace, m, i - 1) && trace[i - 1].DataCall?))
  }

  /** `r` resets the transaction that the MAIL at `m` opened. */
  ghost predicate ClosedBy(trace: seq<Call>, m: int, r: int) {
    && 0 <= r < |trace| && TransactionSince(trace, m, r)
    && trace[r].ResetCall? && trace[r].reason != ForStartTLS
    && (trace[r].reason == Completed ==> trace[r - 1].DataCall?)
  }

  lemma {:induction false} PrefixIsSound(trace: seq<Call>, i: nat)
    requires Replay(trace) != Broken && i <= |trace|
    ensures Replay(trace[..i]) != Broken
    decreases |trace|
  {
    if i < |trace| {
      var n := |trace| - 1;
      PrefixIsSound(trace[..n], i);
      assert trace[..n][..i] == trace[..i];
    } else {
      TakeWhole(trace);
    }
  }

  lemma StepAt(trace: seq<Call>, i: nat)
    requires i < |trace|
    ensures Replay(trace[..i + 1]) == Advance(Replay(trace[..i]), trace[i])
  {
    assert trace[..i + 1][..i] == trace[..i];
  }

  lemma {:induction false} OpenMeansTransaction(trace: seq<Call>, i: nat) returns (m: nat)
    requires i <= |trace| && Replay(trace[..i]).Open?
    ensures TransactionSince(trace, m, i)
    ensures if Replay(trace[..i]).dataSeen then trace[i - 1].DataCall? else OnlyRcptSince(trace, m, i)
  {
    StepAt(trace, i - 1);
    if trace[i - 1].MailCall? {
      m := i - 1;
    } else {
      m := OpenMeansTransaction(trace, i - 1);
    }
  }

  /** RCPT and DATA occur only inside an accepted MAIL, DATA at most once in it; a
      reset either closes such a transaction or is the STARTTLS one with nothing open. */
  lemma CallsAreNested(trace: seq<Call>, i: nat)
    requires Replay(trace) != Broken && i < |trace|
    ensures trace[i].RcptCall? || trace[i].DataCall? ==> exists m :: OnlyRcptSince(trace, m, i)
    ensures trace[i].ResetCall? ==>
              if trace[i].reason == ForStartTLS then Replay(trace[..i]).Idle?
              else exists m :: ClosedBy(trace, m, i)
    ensures trace[i].MailCall? || trace[i].CommitAuthCall? ==> Replay(trace[..i]).Idle?
  {
    PrefixIsSound(trace, i + 1);
    StepAt(trace, i);
    if Replay(trace[..i]).Open? {
      var m := OpenMeansTransaction(trace, i);
      assert trace[i].ResetCall? ==> ClosedBy(trace, m, i);
    }
  }

  lemma {:induction false} TransactionEnds(trace: seq<Call>, m: nat, i: nat) returns (r: nat)
    requires Replay(trace) == Ended && i <= |trace|
    requires Replay(trace[..i]).Open? && TransactionSince(trace, m, i)
    requires if Replay(trace[..i]).dataSeen then trace[i - 1].DataCall? else OnlyRcptSince(trace, m, i)
    ensures i <= r && ClosedBy(trace, m, r)
    decreases |trace| - i
  {
    if i == |trace| {
      TakeWhole(trace);
      assert false;
    }
    PrefixIsSound(trace, i + 1);
    StepAt(trace, i);
    if trace[i].ResetCall? {
      r := i;
    } else {
      r := TransactionEnds(trace, m, i + 1);
    }
  }

  /** A transaction is closed once. */
  lemma ClosedOnce(trace: seq<Call>, m: int, r: int, q: int)
    requires ClosedBy(trace, m, r) && ClosedBy(trace, m, q)
    ensures r == q
  {
  }

  lemma CloseIsLast(trace: seq<Call>)
    requires Replay(trace) == Ended
    ensures trace != [] && forall i :: 0 <= i < |trace| ==> (trace[i].CloseCall? <==> i == |trace| - 1)
  {
    forall i | 0 <= i < |trace| - 1 ensures !trace[i].CloseCall? {
      PrefixIsSound(trace, i + 2);
      StepAt(trace, i);
      StepAt(trace, i + 1);
    }
  }

  /** Over a whole session every accepted MAIL is closed by exactly one reset, before any other
      MAIL, and the session is closed exactly once, last. */
  lemma SessionIsWellBracketed(trace: seq<Call>)
    requires Replay(trace) == Ended
    ensures forall m :: 0 <= m < |trace| && trace[m].MailCall? && trace[m].accepted ==>
              exists r :: ClosedBy(trace, m, r) && forall q :: ClosedBy(trace, m, q) ==> q == r
    ensures trace != [] && forall i :: 0 <= i < |trace| ==> (trace[i].CloseCall? <==> i == |trace| - 1)
  {
    CloseIsLast(trace);
    forall m | 0 <= m < |trace| && trace[m].MailCall? && trace[m].accepted
      ensures exists r :: ClosedBy(trace, m, r) && forall q :: ClosedBy(trace, m, q) ==> q == r
    {
      PrefixIsSound(trace, m + 1);
      StepAt(trace, m);
      var r := TransactionEnds(trace, m, m + 1);
      forall q | ClosedBy(trace, m, q) ensures q == r {
        ClosedOnce(trace, m, r, q);
      }
    }
  }
}
