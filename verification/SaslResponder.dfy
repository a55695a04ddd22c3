/** One server-side SASL conversation (internal/smtpsasl/responder.go). */
module SaslResponder {
  import opened Prelude
  import opened Commands
  import opened SaslCrypto
  import opened Scram
  import opened ScramProof

  const MAX_PAYLOAD := 16384

  datatype Mechanism = Plain | Login | CramMD5 | External | OAuthBearer | XOAuth2 | ScramHash(plus: bool)

  datatype State =
    | New | AwaitPlain | LoginUser | LoginPassword | AwaitCram | AwaitExternal | AwaitOAuth | OAuthDummy
    | ScramFirst | AwaitProof | ScramEmpty | Verify | Done

  datatype Kind = VerifyCredentials | VerifyChallengeResponse | VerifyScramKeys

  datatype Credentials = Credentials(authenticationId: string, authorizationId: string, password: string, token: string)

  datatype Request = Request(kind: Kind, credentials: Credentials, challenge: string, response: string)

  datatype Verification = Verification(accepted: bool, failureChallenge: Option<string>, keys: Option<Keys>)

  datatype Step = Step(challenge: Option<string>, verification: Option<Request>, done: bool, accepted: bool)

  datatype ResponderError = WrongState | BadPayload | Aborted | BadKeys | NoRandom

  /** Transport facts and random inputs; None stands for a failing random source. */
  datatype Config = Config(cramChallenge: Option<string>, channelBinding: string, nonce: Option<string>)

  const NO_STEP := Step(None, None, false, false)
  const NO_CREDENTIALS := Credentials("", "", "", "")

  function ChallengeStep(text: string): Step { Step(Some(text), None, false, false) }

  function FinalStep(accepted: bool): Step { Step(None, None, true, accepted) }

  function VerifyStep(request: Request): Step { Step(None, Some(request), false, false) }

  // ------------------------------------------------------------ reading payloads

  function Asking(credentials: Credentials): Request { Request(VerifyCredentials, credentials, "", "") }

  function PlainRequest(payload: string): Option<Request> {
    var parts := SplitOn(payload, '\0');
    if |parts| != 3 || parts[1] == "" then None
    else Some(Asking(Credentials(parts[1], parts[0], parts[2], "")))
  }

  const BEARER := "auth=Bearer "

  /** The last of `parts` with `prefix`, without it; empty when there is none. */
  function Suffixed(parts: seq<string>, prefix: string): string {
    if parts == [] then ""
    else
      var last := parts[|parts| - 1];
      if prefix <= last then last[|prefix|..] else Suffixed(parts[..|parts| - 1], prefix)
  }

  /** The parts before the two empty ones that end an OAuth payload. */
  function OAuthParts(payload: string): Option<seq<string>> {
    var parts := SplitOn(payload, '\U{1}');
    if |parts| < 3 || parts[|parts| - 1] != "" || parts[|parts| - 2] != "" then None
    else Some(parts[..|parts| - 2])
  }

  function OAuthAuthzid(header: string): Option<string> {
    if !("n," <= header) || header[|header| - 1] != ',' then None
    else
      var middle := if |header| == 2 then "" else header[2..|header| - 1];
      if middle == "" then Some("") else if "a=" <= middle then NameOf(middle[2..]) else None
  }

  function OAuthBearerRequest(payload: string): Option<Request> {
    var parts := OAuthParts(payload);
    if parts.None? then None
    else
      var authzid, token := OAuthAuthzid(parts.value[0]), Suffixed(parts.value[1..], BEARER);
      if authzid.None? || token == "" then None
      else Some(Asking(Credentials("", authzid.value, "", token)))
  }

  function XOAuth2Request(payload: string): Option<Request> {
    var parts := OAuthParts(payload);
    if parts.None? then None
    else
      var user, token := Suffixed(parts.value, "user="), Suffixed(parts.value, BEARER);
      if user == "" || token == "" then None
      else Some(Asking(Credentials(user, "", "", token)))
  }

  function ScramRequest(payload: string, plus: bool): Option<Request> {
    var opening := ReadClientFirst(payload, plus);
    if opening.NoOpening? then None
    else Some(Request(VerifyScramKeys, Credentials(opening.user, opening.authzid, "", ""), "", ""))
  }

  /** What the backend is asked once the client's decisive payload has arrived. */
  function RequestFor(m: Mechanism, user: string, challenge: string, payload: string): Option<Request> {
    match m
    case Plain => PlainRequest(payload)
    case Login => Some(Asking(Credentials(user, "", payload, "")))
    case CramMD5 =>
      if payload == "" then None
      else Some(Request(VerifyChallengeResponse, NO_CREDENTIALS, challenge, payload))
    case External => Some(Asking(Credentials("", payload, "", "")))
    case OAuthBearer => OAuthBearerRequest(payload)
    case XOAuth2 => XOAuth2Request(payload)
    case ScramHash(plus) => ScramRequest(payload, plus)
  }

  // --------------------------------------------------------------- the conversation

  /** The state in which a mechanism awaits its decisive payload. */
  function Decisive(m: Mechanism): State {
    match m
    case Plain => AwaitPlain
    case Login => LoginPassword
    case CramMD5 => AwaitCram
    case External => AwaitExternal
    case OAuthBearer => AwaitOAuth
    case XOAuth2 => AwaitOAuth
    case ScramHash(_) => ScramFirst
  }

  /** Decreases with every successful step. */
  function Rank(s: State): nat {
    match s
    case New => 6
    case LoginUser => 5
    case AwaitPlain => 4
    case LoginPassword => 4
    case AwaitCram => 4
    case AwaitExternal => 4
    case AwaitOAuth => 4
    case ScramFirst => 4
    case Verify => 3
    case AwaitProof => 2
    case OAuthDummy => 1
    case ScramEmpty => 1
    case Done => 0
  }

  /** A step is a challenge, a verification request or the end, and the state says which. */
  predicate Sole(step: Step, s: State) {
    && (step.done <==> s.Done?)
    && (step.verification.Some? <==> s.Verify?)
    && (step.challenge.Some? <==> !s.Done? && !s.Verify?)
    && (step.accepted ==> step.done)
  }

  predicate Fits(m: Mechanism, s: State) {
    match s
    case New => true
    case Verify => true
    case Done => true
    case LoginUser => m.Login?
    case OAuthDummy => m.OAuthBearer? || m.XOAuth2?
    case AwaitProof => m.ScramHash?
    case ScramEmpty => m.ScramHash?
    case _ => s == Decisive(m)
  }

  datatype Transcript = Transcript(gs2Header: string, clientFirst: string, serverFirst: string, nonce: string,
                                   keys: Option<Keys>)

  /** The fields a responder updates as it goes. */
  datatype Conversation = Conversation(state: State, request: Option<Request>, challenge: string, username: string,
                                       scram: Transcript)

  datatype Outcome = Outcome(now: Conversation, step: Step, err: Option<ResponderError>)

  const START := Conversation(New, None, "", "", Transcript("", "", "", "", None))

  function Fail(now: Conversation, e: ResponderError): Outcome { Outcome(now, NO_STEP, Some(e)) }

  function Abort(now: Conversation): Outcome { Fail(now.(state := Done), Aborted) }

  function Finish(now: Conversation, accepted: bool): Outcome {
    Outcome(now.(state := Done), FinalStep(accepted), None)
  }

  function Send(now: Conversation, s: State, text: string): Outcome {
    Outcome(now.(state := s), ChallengeStep(text), None)
  }

  predicate UsableKeys(c: Crypto, keys: Keys) {
    && 1 <= keys.iterations <= MAX_ITERATIONS && keys.salt != []
    && |keys.storedKey| == c.size && |keys.serverKey| == c.size
  }

  /** The data against which a proof is judged. */
  function Known(m: Mechanism, cfg: Config, t: Transcript): Exchange
    requires m.ScramHash? && t.keys.Some?
  {
    var channel := if m.plus then t.gs2Header + cfg.channelBinding else t.gs2Header;
    Exchange(channel, t.nonce, t.clientFirst, t.serverFirst, t.keys.value)
  }

  /** What every step keeps. */
  predicate Ready(m: Mechanism, now: Conversation) {
    && Fits(m, now.state)
    && (now.request.Some? ==> (now.request.value.kind.VerifyScramKeys? <==> m.ScramHash?))
    && (now.state.AwaitProof? || now.state.ScramEmpty? ==> now.scram.keys.Some?)
  }

  // ------------------------------------------------------------------- the steps

  function Opened(t: Transcript, o: Opening): Transcript
    requires o.Opening?
  {
    t.(gs2Header := o.header, clientFirst := o.bare, nonce := o.nonce)
  }

  function Asked(m: Mechanism, now: Conversation, payload: string): Outcome {
    var r := RequestFor(m, now.username, now.challenge, payload);
    if r.None? then Fail(now, BadPayload)
    else
      var t := if m.ScramHash? then Opened(now.scram, ReadClientFirst(payload, m.plus)) else now.scram;
      Outcome(now.(request := r, state := Verify, scram := t), VerifyStep(r.value), None)
  }

  function Prompted(m: Mechanism, cfg: Config, now: Conversation): Outcome {
    match m
    case Login => Send(now, LoginUser, "Username:")
    case CramMD5 =>
      if cfg.cramChallenge.None? then Fail(now, NoRandom)
      else Send(now.(challenge := cfg.cramChallenge.value), AwaitCram, cfg.cramChallenge.value)
    case _ => Send(now, Decisive(m), "")
  }

  function Named(now: Conversation, name: string): Outcome {
    if name == "" then Fail(now.(username := name), BadPayload)
    else Send(now.(username := name), LoginPassword, "Password:")
  }

  function Started(m: Mechanism, cfg: Config, now: Conversation, initial: Option<string>): Outcome {
    if now.state != New then Fail(now, WrongState)
    else if initial.None? then Prompted(m, cfg, now)
    else if |initial.value| > MAX_PAYLOAD then Fail(now, BadPayload)
    else if initial.value == "*" then Abort(now)
    else if m.Login? then Named(now, initial.value)
    else if m.CramMD5? then Fail(now, BadPayload)
    else Asked(m, now, initial.value)
  }

  function Decided(c: Crypto, now: Conversation, verdict: Verdict): Outcome {
    match verdict
    case Malformed => Fail(now, BadPayload)
    case Refused => Finish(now, false)
    case Proven(signature) => Send(now, ScramEmpty, Field('v', c.base64(signature)))
  }

  function Responded(c: Crypto, m: Mechanism, cfg: Config, now: Conversation, response: string): Outcome
    requires c.Sound() && Ready(m, now)
  {
    if response == "*" then Abort(now)
    else if |response| > MAX_PAYLOAD then Fail(now, BadPayload)
    else Dispatched(c, m, cfg, now, response)
  }

  /** The step for the present state. */
  function Dispatched(c: Crypto, m: Mechanism, cfg: Config, now: Conversation, response: string): Outcome
    requires c.Sound() && Ready(m, now)
  {
    match now.state
    case LoginUser => if response == "" then Fail(now, BadPayload) else Named(now, response)
    case OAuthDummy => if response == "\U{1}" then Finish(now, false) else Fail(now, BadPayload)
    case AwaitProof => Decided(c, now, Judge(c, Known(m, cfg, now.scram), response))
    case ScramEmpty => if response == "" then Finish(now, true) else Fail(now, BadPayload)
    case New => Fail(now, WrongState)
    case Verify => Fail(now, WrongState)
    case Done => Fail(now, WrongState)
    case _ => Asked(m, now, response)
  }

  function Offered(c: Crypto, cfg: Config, now: Conversation, keys: Keys): Outcome {
    if !UsableKeys(c, keys) then Fail(now, BadKeys)
    else if cfg.nonce.None? then Fail(now, NoRandom)
    else
      var nonce := now.scram.nonce + cfg.nonce.value;
      var first := ServerFirst(c, nonce, keys.salt, keys.iterations);
      Send(now.(scram := now.scram.(nonce := nonce, keys := Some(keys), serverFirst := first)), AwaitProof, first)
  }

  function Continued(c: Crypto, m: Mechanism, cfg: Config, was: Conversation, result: Verification): Outcome {
    if was.state != Verify || was.request.None? then Fail(was, WrongState)
    else
      var now := was.(request := None);
      if was.request.value.kind.VerifyScramKeys? then
        if !result.accepted then Finish(now, false)
        else if result.keys.None? then Fail(now, BadKeys)
        else Offered(c, cfg, now, result.keys.value)
      else if !result.accepted && (m.OAuthBearer? || m.XOAuth2?) && result.failureChallenge.Some? then
        if |result.failureChallenge.value| > MAX_PAYLOAD then Fail(now.(state := Done), BadPayload)
        else Send(now, OAuthDummy, result.failureChallenge.value)
      else Finish(now, result.accepted)
  }

  // ------------------------------------------------------------- what steps keep

  /** A successful step moves on, is of exactly one sort, and only a proved SCRAM exchange
      or an accepted verification ends in acceptance. */
  predicate Advances(m: Mechanism, was: Conversation, o: Outcome) {
    && Ready(m, o.now)
    && (o.err.Some? ==> o.step == NO_STEP)
    && (o.err.None? ==> Sole(o.step, o.now.state) && Rank(o.now.state) < Rank(was.state))
    && (o.step.verification.Some? ==> o.now.request == o.step.verification)
  }

  /** The challenge CRAM-MD5 was to be answered with. */
  function Posed(cfg: Config): string { if cfg.cramChallenge.Some? then cfg.cramChallenge.value else "" }

  /** The question was made of what the client `said`, in order, and of the challenge it was sent:
      of one message and, for LOGIN, of a user name that was said before it. */
  ghost predicate MadeOf(m: Mechanism, cfg: Config, said: seq<string>, q: Request) {
    exists i, user :: 0 <= i < |said| && MadeOfOne(m, cfg, said, q, i, user)
  }

  predicate MadeOfOne(m: Mechanism, cfg: Config, said: seq<string>, q: Request, i: nat, user: string)
    requires i < |said|
  {
    RequestFor(m, user, Posed(cfg), said[i]) == Some(q) && (m.Login? ==> user in said[..i])
  }

  lemma MadeOfPrefix(m: Mechanism, cfg: Config, said: seq<string>, more: seq<string>, q: Request)
    requires MadeOf(m, cfg, said, q) && said <= more
    ensures MadeOf(m, cfg, more, q)
  {
    var i, user :| 0 <= i < |said| && MadeOfOne(m, cfg, said, q, i, user);
    assert more[..i] == said[..i];
    assert MadeOfOne(m, cfg, more, q, i, user);
  }

  /** The user name kept is one the client said, the challenge kept the one it was sent. */
  predicate Heard(m: Mechanism, cfg: Config, now: Conversation, said: seq<string>) {
    && (m.Login? && now.state == LoginPassword ==> now.username in said)
    && (m.CramMD5? && now.state == AwaitCram ==> cfg.cramChallenge == Some(now.challenge))
  }

  function Initially(initial: Option<string>): seq<string> { if initial.Some? then [initial.value] else [] }

  lemma AskedOfClient(m: Mechanism, cfg: Config, now: Conversation, said: seq<string>, payload: string)
    requires Heard(m, cfg, now, said) && (now.state == Decisive(m) || !(m.Login? || m.CramMD5?))
    ensures var s := Asked(m, now, payload).step.verification;
      s.Some? ==> MadeOf(m, cfg, said + [payload], s.value)
  {
    var s := Asked(m, now, payload).step.verification;
    if s.Some? {
      TakeMost(said, payload);
      assert RequestFor(m, now.username, Posed(cfg), payload) == s;
      assert MadeOfOne(m, cfg, said + [payload], s.value, |said|, now.username);
    }
  }

  lemma StartComesFromClient(m: Mechanism, cfg: Config, initial: Option<string>)
    ensures var o := Started(m, cfg, START, initial);
      && Heard(m, cfg, o.now, Initially(initial))
      && (o.step.verification.Some? ==> MadeOf(m, cfg, Initially(initial), o.step.verification.value))
  {
    if initial.Some? && !m.Login? && !m.CramMD5? {
      AskedOfClient(m, cfg, START, [], initial.value);
      AppendEmpty([initial.value]);
    }
  }

  lemma RequestsComeFromClient(c: Crypto, m: Mechanism, cfg: Config, now: Conversation, said: seq<string>,
                               response: string)
    requires c.Sound() && Ready(m, now) && Heard(m, cfg, now, said)
    ensures var o := Responded(c, m, cfg, now, response);
      && (o.err.None? ==> Heard(m, cfg, o.now, said + [response]))
      && (o.step.verification.Some? ==> MadeOf(m, cfg, said + [response], o.step.verification.value))
  {
    if response != "*" && |response| <= MAX_PAYLOAD {
      if now.state == Decisive(m) {
        DecisiveIsAsked(c, m, cfg, now, response);
        AskedOfClient(m, cfg, now, said, response);
      } else {
        OtherwiseHeard(c, m, cfg, now, said, response);
      }
    }
  }

  lemma OtherwiseHeard(c: Crypto, m: Mechanism, cfg: Config, now: Conversation, said: seq<string>, response: string)
    requires c.Sound() && Ready(m, now) && now.state != Decisive(m)
    ensures var o := Dispatched(c, m, cfg, now, response);
      o.step.verification.None? && (o.err.None? ==> Heard(m, cfg, o.now, said + [response]))
  {
  }

  /** The decisive payload is what the backend is asked about. */
  lemma DecisiveIsAsked(c: Crypto, m: Mechanism, cfg: Config, now: Conversation, response: string)
    requires c.Sound() && Ready(m, now) && now.state == Decisive(m)
    ensures Dispatched(c, m, cfg, now, response) == Asked(m, now, response)
  {
  }

  lemma AskedAdvances(m: Mechanism, now: Conversation, payload: string)
    requires Ready(m, now) && (now.state == New || now.state == Decisive(m))
    ensures Advances(m, now, Asked(m, now, payload))
    ensures Asked(m, now, payload).err.None? ==> Asked(m, now, payload).now.state == Verify
  {
  }

  lemma StartAdvances(m: Mechanism, cfg: Config, now: Conversation, initial: Option<string>)
    requires Ready(m, now)
    ensures Advances(m, now, Started(m, cfg, now, initial))
    ensures !Started(m, cfg, now, initial).step.accepted
  {
    if now.state == New && initial.Some? {
      AskedAdvances(m, now, initial.value);
    }
  }

  lemma DecidedAdvances(c: Crypto, m: Mechanism, now: Conversation, verdict: Verdict)
    requires Ready(m, now) && now.state == AwaitProof
    ensures Advances(m, now, Decided(c, now, verdict)) && !Decided(c, now, verdict).step.accepted
  {
  }

  lemma ResponseAdvances(c: Crypto, m: Mechanism, cfg: Config, now: Conversation, response: string)
    requires c.Sound() && Ready(m, now)
    ensures Advances(m, now, Responded(c, m, cfg, now, response))
    ensures Responded(c, m, cfg, now, response).step.accepted ==> now.state == ScramEmpty
  {
    if response != "*" && |response| <= MAX_PAYLOAD {
      if now.state == Decisive(m) {
        DecisiveIsAsked(c, m, cfg, now, response);
        AskedAdvances(m, now, response);
      } else if now.state == AwaitProof {
        DecidedAdvances(c, m, now, Judge(c, Known(m, cfg, now.scram), response));
      } else {
        OtherwiseAdvances(c, m, cfg, now, response);
      }
    }
  }

  /** Where neither the decisive payload nor a proof is awaited. */
  lemma OtherwiseAdvances(c: Crypto, m: Mechanism, cfg: Config, now: Conversation, response: string)
    requires c.Sound() && Ready(m, now) && now.state != Decisive(m) && now.state != AwaitProof
    ensures Advances(m, now, Dispatched(c, m, cfg, now, response))
    ensures Dispatched(c, m, cfg, now, response).step.accepted ==> now.state == ScramEmpty
  {
  }

  /** The closing round trip of SCRAM is reached only by an authentic proof. */
  lemma OnlyProofReachesEnd(c: Crypto, m: Mechanism, cfg: Config, now: Conversation, response: string)
    requires c.Sound() && Ready(m, now) && now.state != ScramEmpty
    requires Responded(c, m, cfg, now, response).now.state == ScramEmpty
    ensures now.state == AwaitProof && Responded(c, m, cfg, now, response).now.scram == now.scram
    ensures Authentic(c, Known(m, cfg, now.scram), response)
  {
    assert now.state == AwaitProof;
    JudgeIsExact(c, Known(m, cfg, now.scram), response);
  }

  lemma OfferedAdvances(c: Crypto, m: Mechanism, cfg: Config, now: Conversation, keys: Keys)
    requires Ready(m, now) && now.state == Verify && m.ScramHash?
    ensures Advances(m, now, Offered(c, cfg, now, keys)) && !Offered(c, cfg, now, keys).step.accepted
  {
  }

  lemma ContinueAdvances(c: Crypto, m: Mechanism, cfg: Config, now: Conversation, result: Verification)
    requires Ready(m, now)
    ensures Advances(m, now, Continued(c, m, cfg, now, result))
    ensures Continued(c, m, cfg, now, result).step.accepted ==> !m.ScramHash? && result.accepted
  {
    if m.ScramHash? && result.keys.Some? && now.state == Verify {
      OfferedAdvances(c, m, cfg, now.(request := None), result.keys.value);
    }
  }

  /** A lookup the backend answered with keys has been made, and no other state has one. */
  predicate Looked(s: State) { s == AwaitProof || s == ScramEmpty }

  /** A client response neither makes up a lookup nor passes the verification point. */
  lemma ResponseKeepsStage(c: Crypto, m: Mechanism, cfg: Config, now: Conversation, response: string)
    requires c.Sound() && Ready(m, now)
    ensures var o := Responded(c, m, cfg, now, response);
      && (Looked(o.now.state) ==> Looked(now.state))
      && (o.err.None? && Rank(now.state) >= 3 ==> Rank(o.now.state) >= 3)
  {
    if response != "*" && |response| <= MAX_PAYLOAD {
      if now.state == Decisive(m) {
        DecisiveIsAsked(c, m, cfg, now, response);
        AskedAdvances(m, now, response);
      } else {
        OtherwiseKeepsStage(c, m, cfg, now, response);
      }
    }
  }

  lemma OtherwiseKeepsStage(c: Crypto, m: Mechanism, cfg: Config, now: Conversation, response: string)
    requires c.Sound() && Ready(m, now) && now.state != Decisive(m)
    ensures var o := Dispatched(c, m, cfg, now, response);
      && (Looked(o.now.state) ==> Looked(now.state))
      && (o.err.None? && Rank(now.state) >= 3 ==> Rank(o.now.state) >= 3)
  {
  }

  lemma LookupNeedsAcceptance(c: Crypto, m: Mechanism, cfg: Config, now: Conversation, result: Verification)
    requires Ready(m, now)
    ensures var o := Continued(c, m, cfg, now, result);
      Looked(o.now.state) ==>
        Looked(now.state) || (result.accepted && o.now.state == AwaitProof && o.now.scram.keys == result.keys)
  {
  }

  /** The keys a lookup gave stay those it gave. */
  lemma ResponseKeepsKeys(c: Crypto, m: Mechanism, cfg: Config, now: Conversation, response: string)
    requires c.Sound() && Ready(m, now)
    ensures Looked(now.state) ==> Responded(c, m, cfg, now, response).now.scram == now.scram
  {
  }

  // ------------------------------------------------------------------ the object

  class Responder {
    const crypto: Crypto
    const mechanism: Mechanism
    const config: Config
    var now: Conversation
    /** The last client-final-message judged. */
    ghost var proof: string

    /** The client proved knowledge of the key the backend stores. */
    ghost predicate ProvenKey()
      reads this
    {
      && crypto.Sound() && mechanism.ScramHash? && now.scram.keys.Some?
      && Authentic(crypto, Known(mechanism, config, now.scram), proof)
    }

    ghost predicate Valid()
      reads this
    {
      crypto.Sound() && Ready(mechanism, now) && (now.state == ScramEmpty ==> ProvenKey())
    }

    constructor (crypto: Crypto, mechanism: Mechanism, config: Config)
      requires crypto.Sound()
      ensures Valid() && now == START
      ensures this.crypto == crypto && this.mechanism == mechanism && this.config == config
    {
      this.crypto, this.mechanism, this.config := crypto, mechanism, config;
      now, proof := START, "";
    }

    /** The decisive payload has arrived: ask the backend. */
    method Ask(payload: string) returns (step: Step, err: Option<ResponderError>)
      modifies `now
      ensures Outcome(now, step, err) == Asked(mechanism, old(now), payload)
    {
      var r := RequestFor(mechanism, now.username, now.challenge, payload);
      if r.None? {
        return NO_STEP, Some(BadPayload);
      }
      if mechanism.ScramHash? {
        now := now.(scram := Opened(now.scram, ReadClientFirst(payload, mechanism.plus)));
      }
      now := now.(request := r, state := Verify);
      return VerifyStep(r.value), None;
    }

    method Prompt() returns (step: Step, err: Option<ResponderError>)
      modifies `now
      ensures Outcome(now, step, err) == Prompted(mechanism, config, old(now))
    {
      var text := "";
      if mechanism.Login? {
        text := "Username:";
        now := now.(state := LoginUser);
      } else {
        if mechanism.CramMD5? {
          if config.cramChallenge.None? {
            return NO_STEP, Some(NoRandom);
          }
          text := config.cramChallenge.value;
          now := now.(challenge := text);
        }
        now := now.(state := Decisive(mechanism));
      }
      return ChallengeStep(text), None;
    }

    method TakeUser(name: string) returns (step: Step, err: Option<ResponderError>)
      modifies `now
      ensures Outcome(now, step, err) == Named(old(now), name)
    {
      now := now.(username := name);
      if name == "" {
        return NO_STEP, Some(BadPayload);
      }
      now := now.(state := LoginPassword);
      return ChallengeStep("Password:"), None;
    }

    method Start(initial: Option<string>) returns (step: Step, err: Option<ResponderError>)
      requires Valid()
      modifies `now
      ensures Outcome(now, step, err) == Started(mechanism, config, old(now), initial)
      ensures Valid() && Advances(mechanism, old(now), Outcome(now, step, err)) && !step.accepted
    {
      StartAdvances(mechanism, config, now, initial);
      if now.state != New {
        return NO_STEP, Some(WrongState);
      }
      if initial.None? {
        step, err := Prompt();
        return;
      }
      if |initial.value| > MAX_PAYLOAD {
        return NO_STEP, Some(BadPayload);
      }
      if initial.value == "*" {
        now := now.(state := Done);
        return NO_STEP, Some(Aborted);
      }
      if mechanism.Login? {
        step, err := TakeUser(initial.value);
      } else if mechanism.CramMD5? {
        return NO_STEP, Some(BadPayload);
      } else {
        step, err := Ask(initial.value);
      }
    }

    /** The client's proof is judged (scramProof). */
    method TakeProof(payload: string) returns (step: Step, err: Option<ResponderError>)
      requires Valid() && now.state == AwaitProof
      modifies this
      ensures Outcome(now, step, err)
           == Decided(crypto, old(now), Judge(crypto, Known(mechanism, config, old(now).scram), payload))
      ensures now.state == ScramEmpty ==> proof == payload
      ensures proof == old(proof) || proof == payload
    {
      var verdict := Judge(crypto, Known(mechanism, config, now.scram), payload);
      match verdict
      case Malformed =>
        return NO_STEP, Some(BadPayload);
      case Refused =>
        now := now.(state := Done);
        return FinalStep(false), None;
      case Proven(signature) =>
        now, proof := now.(state := ScramEmpty), payload;
        return ChallengeStep(Field('v', crypto.base64(signature))), None;
    }

    /** The last round trip: the exchange ends when the client sent what it had to. */
    method Conclude(expected: bool, accepted: bool) returns (step: Step, err: Option<ResponderError>)
      modifies `now
      ensures Outcome(now, step, err) == if expected then Finish(old(now), accepted) else Fail(old(now), BadPayload)
    {
      if !expected {
        return NO_STEP, Some(BadPayload);
      }
      now := now.(state := Done);
      return FinalStep(accepted), None;
    }

    /** Consumes a client response; only a proved SCRAM exchange is accepted here. */
    method Next(response: string) returns (step: Step, err: Option<ResponderError>)
      requires Valid()
      modifies this
      ensures Outcome(now, step, err) == Responded(crypto, mechanism, config, old(now), response)
      ensures Valid() && Advances(mechanism, old(now), Outcome(now, step, err))
      ensures step.accepted ==> ProvenKey()
      ensures proof == old(proof) || proof == response
      ensures old(now).state == ScramEmpty ==> proof == old(proof)
      ensures now.state == ScramEmpty && old(now).state != ScramEmpty ==> proof == response
    {
      ResponseAdvances(crypto, mechanism, config, now, response);
      ghost var was := now;
      if response == "*" {
        now := now.(state := Done);
        step, err := NO_STEP, Some(Aborted);
      } else if |response| > MAX_PAYLOAD {
        step, err := NO_STEP, Some(BadPayload);
      } else {
        step, err := Dispatch(response);
      }
      if now.state == ScramEmpty && was.state != ScramEmpty {
        OnlyProofReachesEnd(crypto, mechanism, config, was, response);
      }
    }

    /** The step for the present state. */
    method Dispatch(response: string) returns (step: Step, err: Option<ResponderError>)
      requires Valid() && response != "*" && |response| <= MAX_PAYLOAD
      modifies this
      ensures Outcome(now, step, err) == Responded(crypto, mechanism, config, old(now), response)
      ensures old(now).state == ScramEmpty ==> proof == old(proof)
      ensures now.state == ScramEmpty && old(now).state != ScramEmpty ==> proof == response
      ensures proof == old(proof) || proof == response
    {
      match now.state
      case LoginUser =>
        if response == "" {
          return NO_STEP, Some(BadPayload);
        }
        step, err := TakeUser(response);
      case OAuthDummy =>
        step, err := Conclude(response == "\U{1}", false);
      case AwaitProof =>
        step, err := TakeProof(response);
      case ScramEmpty =>
        step, err := Conclude(response == "", true);
      case New =>
        return NO_STEP, Some(WrongState);
      case Verify =>
        return NO_STEP, Some(WrongState);
      case Done =>
        return NO_STEP, Some(WrongState);
      case _ =>
        step, err := Ask(response);
    }

    /** The backend supplied keys: send the server-first-message (scramServerFirst). */
    method OfferKeys(keys: Keys) returns (step: Step, err: Option<ResponderError>)
      modifies `now
      ensures Outcome(now, step, err) == Offered(crypto, config, old(now), keys)
    {
      if !UsableKeys(crypto, keys) {
        return NO_STEP, Some(BadKeys);
      }
      if config.nonce.None? {
        return NO_STEP, Some(NoRandom);
      }
      var nonce := now.scram.nonce + config.nonce.value;
      var first := ServerFirst(crypto, nonce, keys.salt, keys.iterations);
      now := now.(scram := now.scram.(nonce := nonce, keys := Some(keys), serverFirst := first), state := AwaitProof);
      return ChallengeStep(first), None;
    }

    /** Supplies the backend's answer; a SCRAM lookup alone is never an acceptance. */
    method Continue(result: Verification) returns (step: Step, err: Option<ResponderError>)
      requires Valid()
      modifies `now
      ensures Outcome(now, step, err) == Continued(crypto, mechanism, config, old(now), result)
      ensures Valid() && Advances(mechanism, old(now), Outcome(now, step, err))
      ensures step.accepted ==> !mechanism.ScramHash? && result.accepted
    {
      ContinueAdvances(crypto, mechanism, config, now, result);
      if now.state != Verify || now.request.None? {
        return NO_STEP, Some(WrongState);
      }
      var request := now.request.value;
      now := now.(request := None);
      if request.kind.VerifyScramKeys? && result.accepted {
        if result.keys.None? {
          return NO_STEP, Some(BadKeys);
        }
        step, err := OfferKeys(result.keys.value);
      } else if !result.accepted && (mechanism.OAuthBearer? || mechanism.XOAuth2?) && result.failureChallenge.Some? {
        step, err := Diagnose(result.failureChallenge.value);
      } else {
        now := now.(state := Done);
        return FinalStep(result.accepted), None;
      }
    }

    /** An OAuth failure is explained before it is final. */
    method Diagnose(text: string) returns (step: Step, err: Option<ResponderError>)
      modifies `now
      ensures Outcome(now, step, err) ==
              if |text| > MAX_PAYLOAD then Fail(old(now).(state := Done), BadPayload)
              else Send(old(now), OAuthDummy, text)
    {
      now := now.(state := if |text| > MAX_PAYLOAD then Done else OAuthDummy);
      if |text| > MAX_PAYLOAD {
        return NO_STEP, Some(BadPayload);
      }
      return ChallengeStep(text), None;
    }
  }
}
