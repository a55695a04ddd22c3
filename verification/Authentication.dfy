/** The AUTH command: the exchange loop and the single commit point
    (smtpserver/cmd_auth.go, smtpserver/authentication.go). */
module Authentication {
  import opened Prelude
  import opened SaslCrypto
  import opened Scram
  import opened ScramProof
  import opened SaslResponder
  import X = ScramExchange
  import S = Session
  import SS = SessionState

  datatype Failure = Failure(oauth: Option<string>)

  datatype AuthResult = AuthResult(failure: Option<Failure>)

  /** The backend's answer to a verification request: an error or broken contract, or a result. */
  datatype Answer = Unavailable | Answered(result: AuthResult, keys: Keys)

  /** What the connection yields when a response is awaited; a response is already decoded. */
  datatype Input = ReadFails | TooLong | Undecodable | Response(payload: string)

  datatype Verdict =
    | Succeeded | CredentialsInvalid | Temporary | Cancelled | LineTooLong | ConnectionError
    | NoProgress

  function VerificationOf(answer: Answer, scram: bool): Verification
    requires answer.Answered?
  {
    var accepted := answer.result.failure.None?;
    Verification(accepted,
                 if accepted then None else answer.result.failure.value.oauth,
                 if scram && accepted then Some(answer.keys) else None)
  }

  /** How a failed exchange is answered. */
  function ExchangeError(e: ResponderError): Verdict {
    if e == Aborted || e == BadPayload then Cancelled else ConnectionError
  }

  predicate Agrees(result: Option<AuthResult>) { result.Some? && result.value.failure.None? }

  /** What holds between two steps: the step says where the responder is, the backend was
      asked at most once, and nothing goes past its refusal. */
  predicate Tracks(now: Conversation, step: Step, authoritative: Option<AuthResult>, asked: nat) {
    && Sole(step, now.state)
    && (step.verification.Some? ==> now.request == step.verification)
    && asked == (if Rank(now.state) >= 3 then 0 else 1)
    && (Looked(now.state) || step.accepted ==> Agrees(authoritative))
  }

  /** What a mechanism that needs no further round trip asks the backend about `initial`. */
  function Direct(m: Mechanism, initial: Option<string>): Option<Request> {
    if initial.None? || initial.value == "*" || |initial.value| > MAX_PAYLOAD then None
    else if m.Login? || m.CramMD5? || m.ScramHash? then None
    else RequestFor(m, "", "", initial.value)
  }

  predicate Accepts(answer: Answer) { answer.Answered? && answer.result.failure.None? }

  // ------------------------------------------------------- what the client says

  /** The client's messages: the initial response, if any, then its responses in order. */
  function Said(initial: Option<string>, inputs: seq<Input>): seq<string> {
    if inputs == [] then Initially(initial)
    else
      var last := inputs[|inputs| - 1];
      Said(initial, inputs[..|inputs| - 1]) + if last.Response? then [last.payload] else []
  }

  lemma SaidMore(initial: Option<string>, inputs: seq<Input>, i: nat)
    requires i < |inputs| && inputs[i].Response?
    ensures Said(initial, inputs[..i + 1]) == Said(initial, inputs[..i]) + [inputs[i].payload]
  {
    assert inputs[..i + 1][..i] == inputs[..i];
  }

  lemma {:induction false} SaidPrefix(initial: Option<string>, inputs: seq<Input>, i: nat)
    requires i <= |inputs|
    ensures Said(initial, inputs[..i]) <= Said(initial, inputs)
  {
    if i == |inputs| {
      TakeWhole(inputs);
    } else {
      SaidPrefix(initial, inputs[..|inputs| - 1], i);
      assert inputs[..|inputs| - 1][..i] == inputs[..i];
    }
  }

  /** The question was made of what the client said. */
  ghost predicate Sent(r: Responder, initial: Option<string>, inputs: seq<Input>, q: Request) {
    MadeOf(r.mechanism, r.config, Said(initial, inputs), q)
  }

  /** Authentication is granted on the question `q`: the client sent it, the backend accepted
      it and, for SCRAM, a response of the client opens the very key the backend answered with. */
  ghost predicate Granted(r: Responder, initial: Option<string>, inputs: seq<Input>, backend: Request -> Answer,
                          q: Request)
    reads r
  {
    && Sent(r, initial, inputs, q) && Accepts(backend(q))
    && (r.mechanism.ScramHash? ==> Proven(r, inputs, backend(q)))
  }

  ghost predicate Proven(r: Responder, inputs: seq<Input>, answer: Answer)
    requires answer.Answered?
    reads r
  {
    r.ProvenKey() && r.now.scram.keys == Some(answer.keys) && Response(r.proof) in inputs
  }

  // ------------------------------------------------------ when AUTH is accepted

  /** From `o` on the client's `inputs` and the backend's answers lead to acceptance. */
  ghost predicate Accepting(c: Crypto, m: Mechanism, cfg: Config, o: Outcome, inputs: seq<Input>,
                            backend: Request -> Answer)
    requires c.Sound() && Ready(m, o.now)
    decreases Rank(o.now.state)
  {
    if o.err.Some? then false
    else if o.step.done then o.step.accepted
    else if o.step.verification.Some? then
      var q := o.step.verification.value;
      backend(q).Answered? &&
      var next := Continued(c, m, cfg, o.now, VerificationOf(backend(q), q.kind.VerifyScramKeys?));
      ContinueAdvances(c, m, cfg, o.now, VerificationOf(backend(q), q.kind.VerifyScramKeys?));
      next.err.None? && Accepting(c, m, cfg, next, inputs, backend)
    else
      inputs != [] && inputs[0].Response? &&
      var next := Responded(c, m, cfg, o.now, inputs[0].payload);
      ResponseAdvances(c, m, cfg, o.now, inputs[0].payload);
      next.err.None? && Accepting(c, m, cfg, next, inputs[1..], backend)
  }

  /** The client's messages and the backend's answers lead `r` to acceptance from the start. */
  ghost predicate Convinces(r: Responder, initial: Option<string>, inputs: seq<Input>, backend: Request -> Answer)
    requires r.crypto.Sound()
  {
    StartAdvances(r.mechanism, r.config, START, initial);
    Accepting(r.crypto, r.mechanism, r.config, Started(r.mechanism, r.config, START, initial), inputs, backend)
  }

  /** What a mechanism that is settled by its initial response needs to succeed. */
  predicate DirectlyAccepted(m: Mechanism, initial: Option<string>, backend: Request -> Answer) {
    Direct(m, initial).Some? && Accepts(backend(Direct(m, initial).value))
  }

  lemma DirectConvinces(r: Responder, initial: Option<string>, inputs: seq<Input>, backend: Request -> Answer)
    requires r.crypto.Sound() && DirectlyAccepted(r.mechanism, initial, backend)
    ensures Convinces(r, initial, inputs, backend)
  {
    var o := Started(r.mechanism, r.config, START, initial);
    assert o.step.verification == Direct(r.mechanism, initial);
  }

  /** The client's first message comes with AUTH or as its first response; `left` follows it. */
  predicate Opens(first: string, atOnce: bool, initial: Option<string>, inputs: seq<Input>, left: seq<Input>) {
    if atOnce then initial == Some(first) && inputs == left
    else initial == None && inputs == [Response(first)] + left
  }

  /** After the backend's keys the client's proof and its empty message are accepted. */
  lemma ProofConvinces(c: Crypto, m: Mechanism, cfg: Config, offered: Outcome, final: string, signature: string,
                       inputs: seq<Input>, backend: Request -> Answer)
    requires c.Sound() && Ready(m, offered.now) && offered.err.None?
    requires Sole(offered.step, offered.now.state) && offered.step.challenge.Some?
    requires [Response(final), Response("")] <= inputs && X.Settles(c, m, cfg, offered.now, final, signature)
    ensures Accepting(c, m, cfg, offered, inputs, backend)
  {
    var proved := Responded(c, m, cfg, offered.now, final);
    ResponseAdvances(c, m, cfg, offered.now, final);
    ResponseAdvances(c, m, cfg, proved.now, "");
    assert inputs[1..][0] == Response("");
    assert Accepting(c, m, cfg, Responded(c, m, cfg, proved.now, ""), inputs[2..], backend);
    assert inputs[1..][1..] == inputs[2..];
    assert Accepting(c, m, cfg, proved, inputs[1..], backend);
  }

  /** The backend's keys are enough for what follows them. */
  lemma KeysConvince(c: Crypto, m: Mechanism, cfg: Config, o: Outcome, keys: Keys, inputs: seq<Input>,
                     backend: Request -> Answer)
    requires c.Sound() && Ready(m, o.now) && o.err.None? && o.step.verification.Some?
    requires o.step == VerifyStep(o.step.verification.value) && o.step.verification.value.kind == VerifyScramKeys
    requires backend(o.step.verification.value) == Answered(AuthResult(None), keys)
    requires var next := Continued(c, m, cfg, o.now, Verification(true, None, Some(keys)));
      Ready(m, next.now) && next.err.None? && Accepting(c, m, cfg, next, inputs, backend)
    ensures Accepting(c, m, cfg, o, inputs, backend)
  {
  }

  /** The client's first message, however it is sent, is enough for what follows it. */
  lemma FirstConvinces(c: Crypto, m: Mechanism, cfg: Config, first: string, atOnce: bool, initial: Option<string>,
                       inputs: seq<Input>, left: seq<Input>, backend: Request -> Answer)
    requires c.Sound() && m.ScramHash? && Opens(first, atOnce, initial, inputs, left)
    requires var o := X.Hailed(c, m, cfg, first, atOnce);
      o.err.None? && Ready(m, o.now) && Accepting(c, m, cfg, o, left, backend)
    ensures Ready(m, Started(m, cfg, START, initial).now)
    ensures Accepting(c, m, cfg, Started(m, cfg, START, initial), inputs, backend)
  {
    assert !atOnce ==> inputs[1..] == left;
  }

  /** Once its first message was read, a SCRAM client that knows the password is accepted. */
  lemma ExchangeConvinces(c: Crypto, cfg: Config, account: X.Account, keys: Keys, clientNonce: string, asked: Outcome,
                          final: string, inputs: seq<Input>, backend: Request -> Answer)
    requires X.Matching(c, cfg, account, keys) && cfg.nonce.Some?
    requires clientNonce != [] && ',' !in clientNonce + cfg.nonce.value && X.Greeted(account, clientNonce, asked)
    requires final == X.HonestFinal(c, account, keys, clientNonce, clientNonce + cfg.nonce.value).message
    requires |final| <= MAX_PAYLOAD && [Response(final), Response("")] <= inputs
    requires backend(X.KeyRequest(account)) == Answered(AuthResult(None), keys)
    ensures Ready(ScramHash(account.plus), asked.now)
    ensures Accepting(c, ScramHash(account.plus), cfg, asked, inputs, backend)
  {
    var m := ScramHash(account.plus);
    var honest := X.HonestFinal(c, account, keys, clientNonce, clientNonce + cfg.nonce.value);
    var offered := Continued(c, m, cfg, asked.now, Verification(true, None, Some(keys)));
    X.ExchangeSucceeds(c, cfg, account, keys, clientNonce, asked);
    ProofConvinces(c, m, cfg, offered, final, Field('v', c.base64(honest.expected)), inputs, backend);
    KeysConvince(c, m, cfg, asked, keys, inputs, backend);
  }

  /** Where the first message leads: what follows from there decides the exchange. */
  lemma FirstIsHeard(r: Responder, account: X.Account, clientNonce: string, first: string, atOnce: bool,
                     initial: Option<string>, inputs: seq<Input>, left: seq<Input>, backend: Request -> Answer)
    returns (asked: Outcome)
    requires r.crypto.Sound() && r.mechanism == ScramHash(account.plus) && account.user != []
    requires clientNonce != [] && ',' !in clientNonce
    requires first == Gs2(account.plus) + FirstBare(account.user, clientNonce) && |first| <= MAX_PAYLOAD
    requires Opens(first, atOnce, initial, inputs, left)
    ensures X.Greeted(account, clientNonce, asked) && Ready(r.mechanism, asked.now)
    ensures Accepting(r.crypto, r.mechanism, r.config, asked, left, backend) ==> Convinces(r, initial, inputs, backend)
  {
    asked := X.Hailed(r.crypto, r.mechanism, r.config, first, atOnce);
    X.HailedGreets(r.crypto, r.config, account, clientNonce, first, atOnce);
    if Accepting(r.crypto, r.mechanism, r.config, asked, left, backend) {
      FirstConvinces(r.crypto, r.mechanism, r.config, first, atOnce, initial, inputs, left, backend);
    }
  }

  /** A SCRAM client that knows the password convinces a responder whose backend has its keys. */
  lemma HonestConvinces(r: Responder, account: X.Account, keys: Keys, clientNonce: string, first: string,
                        final: string, atOnce: bool, initial: Option<string>, inputs: seq<Input>, left: seq<Input>,
                        backend: Request -> Answer)
    requires X.Matching(r.crypto, r.config, account, keys) && account.user != [] && r.config.nonce.Some?
    requires r.mechanism == ScramHash(account.plus)
    requires clientNonce != [] && ',' !in clientNonce + r.config.nonce.value
    requires first == Gs2(account.plus) + FirstBare(account.user, clientNonce) && |first| <= MAX_PAYLOAD
    requires final == X.HonestFinal(r.crypto, account, keys, clientNonce, clientNonce + r.config.nonce.value).message
    requires |final| <= MAX_PAYLOAD
    requires Opens(first, atOnce, initial, inputs, left) && [Response(final), Response("")] <= left
    requires backend(X.KeyRequest(account)) == Answered(AuthResult(None), keys)
    ensures Convinces(r, initial, inputs, backend)
  {
    var asked := FirstIsHeard(r, account, clientNonce, first, atOnce, initial, inputs, left, backend);
    ExchangeConvinces(r.crypto, r.config, account, keys, clientNonce, asked, final, left, backend);
  }

  // ------------------------------------------------------------------- the loop

  /** The backend verifies what the responder extracted. */
  method Verify(r: Responder, request: Request, answer: Answer)
    returns (step: Step, failure: Option<Verdict>, authoritative: Option<AuthResult>)
    requires r.Valid() && r.now.state == State.Verify && r.now.request == Some(request)
    modifies r
    ensures r.Valid() && failure != Some(Succeeded) && failure != Some(NoProgress)
    ensures failure.None? ==> Tracks(r.now, step, authoritative, 1) && Rank(r.now.state) < 3
    ensures failure.None? && step.accepted ==> !r.mechanism.ScramHash?
    ensures failure.None? ==> answer.Answered? && authoritative == Some(answer.result)
    ensures failure.None? && Looked(r.now.state) ==> r.now.state == AwaitProof && r.now.scram.keys == Some(answer.keys)
    ensures answer.Answered? ==>
      var o := Continued(r.crypto, r.mechanism, r.config, old(r.now),
                         VerificationOf(answer, request.kind.VerifyScramKeys?));
      if failure.None? then Outcome(r.now, step, None) == o else o.err.Some?
  {
    if answer.Unavailable? {
      return NO_STEP, Some(Temporary), None;
    }
    var verification := VerificationOf(answer, request.kind.VerifyScramKeys?);
    LookupNeedsAcceptance(r.crypto, r.mechanism, r.config, r.now, verification);
    var err;
    step, err := r.Continue(verification);
    failure := if err.Some? then Some(ExchangeError(err.value)) else None;
    authoritative := Some(answer.result);
  }

  /** AUTH opens the exchange. */
  method Begin(r: Responder, initial: Option<string>) returns (step: Step, failure: Option<Verdict>)
    requires r.Valid() && r.now == START
    modifies r
    ensures r.Valid() && failure != Some(Succeeded) && failure != Some(NoProgress)
    ensures failure.None? ==> Tracks(r.now, step, None, 0) && r.now.state != New && !step.accepted
    ensures failure.None? ==> Heard(r.mechanism, r.config, r.now, Initially(initial))
    ensures failure.None? && step.verification.Some? ==>
      MadeOf(r.mechanism, r.config, Initially(initial), step.verification.value)
    ensures failure.None? ==> !Looked(r.now.state)
    ensures var o := Started(r.mechanism, r.config, START, initial);
      if failure.None? then Outcome(r.now, step, None) == o else o.err.Some?
  {
    StartComesFromClient(r.mechanism, r.config, initial);
    var err;
    step, err := r.Start(initial);
    failure := if err.Some? then Some(ExchangeError(err.value)) else None;
  }

  /** The client answers a challenge. */
  method Respond(r: Responder, input: Input, ghost was: Step, ghost authoritative: Option<AuthResult>, ghost asked: nat)
    returns (step: Step, failure: Option<Verdict>)
    requires r.Valid() && r.now.state != New && Tracks(r.now, was, authoritative, asked) && was.challenge.Some?
    modifies r
    ensures r.Valid() && failure != Some(Succeeded) && failure != Some(NoProgress)
    ensures failure.None? ==> input.Response?
    ensures failure.None? ==> Tracks(r.now, step, authoritative, asked) && Rank(r.now.state) < Rank(old(r.now).state)
    ensures failure.None? && step.accepted ==> r.ProvenKey() && old(r.now).state == ScramEmpty
    ensures Looked(old(r.now).state) ==> r.now.scram == old(r.now).scram
    ensures failure.None? && r.now.state == ScramEmpty && old(r.now).state != ScramEmpty ==> input == Response(r.proof)
    ensures old(r.now).state == ScramEmpty ==> r.proof == old(r.proof)
    ensures input.Response? ==>
      var o := Responded(r.crypto, r.mechanism, r.config, old(r.now), input.payload);
      if failure.None? then Outcome(r.now, step, None) == o else o.err.Some?
  {
    match input
    case ReadFails => return NO_STEP, Some(ConnectionError);
    case TooLong => return NO_STEP, Some(LineTooLong);
    case Undecodable => return NO_STEP, Some(ConnectionError);
    case Response(payload) =>
      ResponseKeepsStage(r.crypto, r.mechanism, r.config, r.now, payload);
      ResponseAdvances(r.crypto, r.mechanism, r.config, r.now, payload);
      ResponseKeepsKeys(r.crypto, r.mechanism, r.config, r.now, payload);
      var err;
      step, err := r.Next(payload);
      failure := if err.Some? then Some(ExchangeError(err.value)) else None;
  }

  /** The commit point: CommitAuth runs once, for a result without failure. */
  method FinalizeAuthentication(result: Option<AuthResult>, canCommit: bool) returns (ok: bool, commits: nat)
    ensures commits == if Agrees(result) && canCommit then 1 else 0
    ensures ok <==> result.Some? && (result.value.failure.Some? || canCommit)
  {
    if result.None? {
      return false, 0;
    }
    if result.value.failure.Some? {
      return true, 0;
    }
    return canCommit, if canCommit then 1 else 0;
  }

  /** Where the exchange stands with what the client `said`, its proof and the backend's answer. */
  ghost predicate Backed(r: Responder, step: Step, said: seq<string>, inputs: seq<Input>, backend: Request -> Answer,
                         question: Request, asked: nat, authoritative: Option<AuthResult>)
    reads r
  {
    && Heard(r.mechanism, r.config, r.now, said)
    && (step.verification.Some? ==> MadeOf(r.mechanism, r.config, said, step.verification.value))
    && (asked == 1 ==>
          && MadeOf(r.mechanism, r.config, said, question)
          && backend(question).Answered? && authoritative == Some(backend(question).result)
          && (Looked(r.now.state) ==> r.now.scram.keys == Some(backend(question).keys))
          && (step.accepted && r.mechanism.ScramHash? ==> Proven(r, inputs, backend(question))))
    && (r.now.state == ScramEmpty ==> Response(r.proof) in inputs)
  }

  /** One verification: the backend is asked what the step asks. */
  method AskBackend(r: Responder, was: Step, ghost said: seq<string>, ghost inputs: seq<Input>, ghost left: seq<Input>,
                    backend: Request -> Answer)
    returns (step: Step, failure: Option<Verdict>, authoritative: Option<AuthResult>)
    requires r.Valid() && was.verification.Some? && r.now.state == State.Verify && r.now.request == was.verification
    requires MadeOf(r.mechanism, r.config, said, was.verification.value) && !was.done
    modifies r
    ensures r.Valid() && failure != Some(Succeeded) && failure != Some(NoProgress)
    ensures failure.None? ==> Tracks(r.now, step, authoritative, 1) && Rank(r.now.state) < 3
    ensures failure.None? ==> Backed(r, step, said, inputs, backend, was.verification.value, 1, authoritative)
    ensures Accepting(r.crypto, r.mechanism, r.config, Outcome(old(r.now), was, None), left, backend) <==>
      && failure.None?
      && Accepting(r.crypto, r.mechanism, r.config, Outcome(r.now, step, None), left, backend)
  {
    step, failure, authoritative := Verify(r, was.verification.value, backend(was.verification.value));
  }

  /** One round trip with the client, whose `i`-th response is read. */
  method AskClient(r: Responder, was: Step, ghost said: seq<string>, inputs: seq<Input>, i: nat,
                   ghost backend: Request -> Answer,
                   ghost question: Request, ghost asked: nat, ghost authoritative: Option<AuthResult>)
    returns (step: Step, failure: Option<Verdict>)
    requires r.Valid() && r.now.state != New && Tracks(r.now, was, authoritative, asked) && was.challenge.Some?
    requires i <= |inputs| && Backed(r, was, said, inputs, backend, question, asked, authoritative)
    modifies r
    ensures r.Valid() && failure != Some(Succeeded) && failure != Some(NoProgress)
    ensures failure.None? ==> i < |inputs| && inputs[i].Response?
    ensures failure.None? ==> Tracks(r.now, step, authoritative, asked) && Rank(r.now.state) < Rank(old(r.now).state)
    ensures failure.None? ==>
      Backed(r, step, said + [inputs[i].payload], inputs, backend, question, asked, authoritative)
    ensures Accepting(r.crypto, r.mechanism, r.config, Outcome(old(r.now), was, None), inputs[i..], backend) <==>
      && failure.None?
      && Accepting(r.crypto, r.mechanism, r.config, Outcome(r.now, step, None), inputs[i + 1..], backend)
  {
    var input := if i < |inputs| then inputs[i] else ReadFails;
    ghost var now := r.now;
    step, failure := Respond(r, input, was, authoritative, asked);
    assert input.Response? ==> input in inputs && inputs[i..][0] == input && inputs[i..][1..] == inputs[i + 1..];
    if input.Response? {
      RequestsComeFromClient(r.crypto, r.mechanism, r.config, now, said, input.payload);
      if asked == 1 {
        MadeOfPrefix(r.mechanism, r.config, said, said + [input.payload], question);
      }
    }
  }

  /** The loop: steps until the exchange is done or fails. */
  method Converse(r: Responder, initial: Option<string>, inputs: seq<Input>, backend: Request -> Answer)
    returns (step: Step, failure: Option<Verdict>, asked: nat, authoritative: Option<AuthResult>,
             ghost question: Request)
    requires r.Valid() && r.now == START
    modifies r
    ensures asked <= 1 && failure != Some(Succeeded) && failure != Some(NoProgress)
    ensures failure.None? ==> step.done && Tracks(r.now, step, authoritative, asked)
    ensures failure.None? ==>
      Backed(r, step, Said(initial, inputs), inputs, backend, question, asked, authoritative)
    ensures Convinces(r, initial, inputs, backend) <==> failure.None? && step.accepted
  {
    asked, authoritative, question := 0, None, Asking(NO_CREDENTIALS);
    var i := 0;
    step, failure := Begin(r, initial);
    while failure.None? && !step.done
      invariant r.Valid() && asked <= 1 && failure != Some(Succeeded) && failure != Some(NoProgress)
      invariant failure.None? ==> Tracks(r.now, step, authoritative, asked) && r.now.state != New && i <= |inputs|
      invariant failure.None? ==>
        Backed(r, step, Said(initial, inputs[..i]), inputs, backend, question, asked, authoritative)
      invariant Convinces(r, initial, inputs, backend) <==>
        && failure.None?
        && Accepting(r.crypto, r.mechanism, r.config, Outcome(r.now, step, None), inputs[i..], backend)
      decreases failure.None?, Rank(r.now.state)
    {
      if step.verification.Some? {
        asked, question := asked + 1, step.verification.value;
        step, failure, authoritative := AskBackend(r, step, Said(initial, inputs[..i]), inputs, inputs[i..], backend);
      } else if step.challenge.Some? {
        step, failure := AskClient(r, step, Said(initial, inputs[..i]), inputs, i, backend, question, asked,
                                   authoritative);
        if failure.None? {
          SaidMore(initial, inputs, i);
        }
        i := i + 1;
      } else {
        failure := Some(NoProgress);
      }
    }
    if failure.None? {
      SaidPrefix(initial, inputs, i);
      if asked == 1 {
        MadeOfPrefix(r.mechanism, r.config, Said(initial, inputs[..i]), Said(initial, inputs), question);
      }
    }
  }

  /** An exchange that ended in acceptance grants. */
  lemma BackedGrants(r: Responder, step: Step, initial: Option<string>, inputs: seq<Input>, backend: Request -> Answer,
                     question: Request, asked: nat, authoritative: Option<AuthResult>)
    requires Tracks(r.now, step, authoritative, asked) && step.accepted
    requires Backed(r, step, Said(initial, inputs), inputs, backend, question, asked, authoritative)
    ensures asked == 1 && Granted(r, initial, inputs, backend, question)
    ensures authoritative == Some(backend(question).result)
  {
  }

  /** The whole exchange, against any client, backend and random source: it ends in acceptance
      exactly when the client convinces. */
  method HandleAuth(r: Responder, initial: Option<string>, inputs: seq<Input>, backend: Request -> Answer,
                    canCommit: bool)
    returns (verdict: Verdict, commits: nat, asked: nat, accepted: bool, authoritative: Option<AuthResult>,
             ghost question: Request)
    requires r.Valid() && r.now == START
    modifies r
    ensures verdict != NoProgress
    ensures commits <= 1 && asked <= 1
    ensures verdict == Succeeded <==> commits == 1
    ensures commits == 1 <==> accepted && canCommit
    ensures accepted ==> asked == 1
    ensures accepted ==> Granted(r, initial, inputs, backend, question)
    ensures accepted ==> authoritative == Some(backend(question).result)
    ensures accepted <==> Convinces(r, initial, inputs, backend)
  {
    var step, failure;
    step, failure, asked, authoritative, question := Converse(r, initial, inputs, backend);
    accepted, commits := failure.None? && step.accepted, 0;
    if failure.Some? {
      verdict := failure.value;
    } else if !accepted {
      verdict := CredentialsInvalid;
    } else {
      BackedGrants(r, step, initial, inputs, backend, question, asked, authoritative);
      var ok;
      ok, commits := FinalizeAuthentication(authoritative, canCommit);
      verdict := if ok then Succeeded else Temporary;
    }
  }

  /** AUTH as a command of a session: the session is authenticated exactly by a commit. */
  method ExecuteAuth(session: S.CommandSession, r: Responder, initial: Option<string>, inputs: seq<Input>,
                     backend: Request -> Answer, canCommit: bool, written: bool)
    returns (outcome: S.Outcome, ghost question: Request)
    requires r.Valid() && r.now == START
    requires session.Valid() && session.state.phase == SS.Ready && !session.state.authenticated
    modifies r, session
    ensures session.Valid() && outcome != S.BadTransition
    ensures session.state.authenticated <==> canCommit && Convinces(r, initial, inputs, backend)
    ensures session.lifecycle ==
      if session.state.authenticated then old(session.lifecycle).Calling(SS.CommitAuthCall) else old(session.lifecycle)
    ensures session.state.authenticated ==> Granted(r, initial, inputs, backend, question)
  {
    var verdict, commits, asked, accepted, authoritative;
    verdict, commits, asked, accepted, authoritative, question := HandleAuth(r, initial, inputs, backend, canCommit);
    if verdict == ConnectionError {
      return S.IoError, question;
    }
    outcome := session.HandleAuth(commits == 1, verdict == LineTooLong, written);
  }
}
