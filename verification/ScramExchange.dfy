/** The SCRAM client and its exchange with the responder (internal/smtpsasl/sasl.go). */
module ScramExchange {
  import opened Prelude
  import opened Commands
  import opened SaslCrypto
  import opened Scram
  import opened ScramProof
  import opened SaslResponder

  datatype Account = Account(user: string, password: string, plus: bool, binding: string)

  datatype Reply = Reply(response: string, done: bool, failed: bool)

  class ScramClient {
    const crypto: Crypto
    const account: Account
    var nonce: string
    var firstBare: string
    var expected: string
    var step: nat

    constructor (crypto: Crypto, account: Account)
      ensures this.crypto == crypto && this.account == account && step == 0
    {
      this.crypto, this.account := crypto, account;
      nonce, firstBare, expected, step := "", "", "", 0;
    }

    /** `random` is the encoded nonce drawn by the client. */
    method Start(random: string) returns (message: string)
      modifies `nonce, `firstBare
      ensures nonce == random && firstBare == FirstBare(account.user, random)
      ensures message == Gs2(account.plus) + firstBare
    {
      nonce := random;
      firstBare := Field('n', SaslName(account.user)) + "," + Field('r', nonce);
      return Gs2(account.plus) + firstBare;
    }

    /** The challenge read through the lenient field map. */
    method TakeOffer(challenge: string) returns (offer: Offer)
      ensures offer == ReadServerFirst(crypto, nonce, challenge)
    {
      var f := ParseFields(challenge);
      if Get(f, 'r') == "" || !(nonce <= Get(f, 'r')) || Get(f, 's') == "" {
        return NoOffer;
      }
      var iterations := Atoi(Get(f, 'i'));
      if iterations.None? || iterations.value < 1 || iterations.value > MAX_ITERATIONS {
        return NoOffer;
      }
      var salt := crypto.unbase64(Get(f, 's'));
      if salt.None? {
        return NoOffer;
      }
      return Offer(Get(f, 'r'), salt.value, iterations.value);
    }

    method Prove(serverFirst: string) returns (r: Reply)
      requires crypto.Sound()
      modifies `expected
      ensures var offer := ReadServerFirst(crypto, nonce, serverFirst);
        if offer.NoOffer? then r == Reply("", false, true) && expected == old(expected)
        else
          var final := ClientFinal(crypto, account.password, ChannelField(crypto, account.plus, account.binding),
                                   firstBare, serverFirst, offer);
          r == Reply(final.message, false, false) && expected == final.expected
    {
      var offer := TakeOffer(serverFirst);
      if offer.NoOffer? {
        return Reply("", false, true);
      }
      var salted := DeriveKey(crypto, account.password, offer.salt, offer.iterations);
      var clientKey := ClientKey(crypto, salted);
      var withoutProof := WithoutProof(ChannelField(crypto, account.plus, account.binding), offer.nonce);
      var auth := AuthMessage(firstBare, serverFirst, withoutProof);
      var proof := Xor(clientKey, crypto.hmac(crypto.hash(clientKey), auth));
      expected := crypto.hmac(ServerKey(crypto, salted), auth);
      return Reply(withoutProof + ",p=" + crypto.base64(proof), false, false);
    }

    method Next(challenge: string) returns (r: Reply)
      requires crypto.Sound()
      modifies `step, `expected
      ensures step == if old(step) < 2 then old(step) + 1 else old(step)
      ensures old(step) == 0 ==>
        var offer := ReadServerFirst(crypto, nonce, challenge);
        if offer.NoOffer? then r == Reply("", false, true)
        else
          var final := ClientFinal(crypto, account.password, ChannelField(crypto, account.plus, account.binding),
                                   firstBare, challenge, offer);
          r == Reply(final.message, false, false) && expected == final.expected
      ensures old(step) == 1 ==>
        expected == old(expected) &&
        var matched := Lookup(SplitOn(challenge, ','), 'v') == crypto.base64(expected);
        r == Reply("", matched, !matched)
      ensures old(step) > 1 ==> r == Reply("", false, true)
    {
      if step == 0 {
        step := 1;
        r := Prove(challenge);
      } else if step == 1 {
        step := 2;
        var fields := ParseFields(challenge);
        var matched := Get(fields, 'v') == crypto.base64(expected);
        r := Reply("", matched, !matched);
      } else {
        r := Reply("", false, true);
      }
    }
  }

  lemma SignatureRoundTrip(c: Crypto, signature: string)
    requires c.Sound() && signature != []
    ensures Lookup(SplitOn(Field('v', c.base64(signature)), ','), 'v') == c.base64(signature)
  {
    var text := Field('v', c.base64(signature));
    SplitOnOne(text, ',');
    AppendEmpty([text]);
    AddField([], 'v', c.base64(signature), 'v');
  }

  /** The question for the keys of an account. */
  function KeyRequest(account: Account): Request {
    Request(VerifyScramKeys, Credentials(account.user, "", "", ""), "", "")
  }

  /** The responder has read the client's first message and asks for the account's keys. */
  ghost predicate Greeted(account: Account, nonce: string, o: Outcome) {
    && o.err.None? && o.step == VerifyStep(KeyRequest(account))
    && o.now.request == Some(KeyRequest(account)) && o.now.state == Verify
    && o.now.scram == Transcript(Gs2(account.plus), FirstBare(account.user, nonce), "", nonce, None)
  }

  /** What the client's first message makes of a conversation. */
  lemma FirstMessageOpens(account: Account, nonce: string, first: string, now: Conversation)
    requires account.user != [] && nonce != [] && ',' !in nonce
    requires first == Gs2(account.plus) + FirstBare(account.user, nonce) && now.scram == START.scram
    ensures Greeted(account, nonce, Asked(ScramHash(account.plus), now, first))
  {
    ClientFirstRoundTrip(account.user, nonce, account.plus);
    OpeningIsAsked(account.plus, ReadClientFirst(first, account.plus), first, now);
  }

  lemma OpeningIsAsked(plus: bool, o: Opening, first: string, now: Conversation)
    requires o.Opening? && ReadClientFirst(first, plus) == o
    ensures var q := Request(VerifyScramKeys, Credentials(o.user, o.authzid, "", ""), "", "");
      Asked(ScramHash(plus), now, first) ==
      Outcome(now.(request := Some(q), state := Verify, scram := Opened(now.scram, o)), VerifyStep(q), None)
  {
  }

  /** The client's first message, sent with AUTH or after an empty challenge. */
  function Hailed(c: Crypto, m: Mechanism, cfg: Config, first: string, atOnce: bool): Outcome
    requires c.Sound() && m.ScramHash?
  {
    if atOnce then Started(m, cfg, START, Some(first))
    else Responded(c, m, cfg, Started(m, cfg, START, None).now, first)
  }

  /** Both ways lead to the same question. */
  lemma HailedIsAsked(c: Crypto, m: Mechanism, cfg: Config, first: string, atOnce: bool)
    requires c.Sound() && m.ScramHash? && first != "*" && |first| <= MAX_PAYLOAD
    ensures Hailed(c, m, cfg, first, atOnce) ==
            Asked(m, if atOnce then START else START.(state := ScramFirst), first)
  {
  }

  lemma HailedGreets(c: Crypto, cfg: Config, account: Account, nonce: string, first: string, atOnce: bool)
    requires c.Sound() && account.user != [] && nonce != [] && ',' !in nonce
    requires first == Gs2(account.plus) + FirstBare(account.user, nonce) && |first| <= MAX_PAYLOAD
    ensures Greeted(account, nonce, Hailed(c, ScramHash(account.plus), cfg, first, atOnce))
  {
    FirstIsNoAbort(account, nonce, first);
    HailedIsAsked(c, ScramHash(account.plus), cfg, first, atOnce);
    FirstMessageOpens(account, nonce, first, if atOnce then START else START.(state := ScramFirst));
  }

  lemma FirstIsNoAbort(account: Account, nonce: string, first: string)
    requires first == Gs2(account.plus) + FirstBare(account.user, nonce)
    ensures first != "*"
  {
    assert |first| >= |Gs2(account.plus)| >= 3;
  }

  /** The responder has made its offer. */
  ghost predicate Offering(c: Crypto, account: Account, clientNonce: string, nonce: string, keys: Keys,
                           now: Conversation) {
    && keys.iterations >= 1 && Ready(ScramHash(account.plus), now) && now.state == AwaitProof
    && now.scram == Transcript(Gs2(account.plus), FirstBare(account.user, clientNonce),
                               ServerFirst(c, nonce, keys.salt, keys.iterations), nonce, Some(keys))
  }

  /** The responder asks `q`, and the backend's keys lead to `offered`. */
  ghost predicate Reaches(c: Crypto, m: Mechanism, cfg: Config, asked: Outcome, q: Request, keys: Keys,
                          offered: Outcome) {
    && asked.err.None? && asked.step == VerifyStep(q) && Ready(m, asked.now)
    && Continued(c, m, cfg, asked.now, Verification(true, None, Some(keys))) == offered
    && offered.err.None? && offered.step.challenge.Some? && Ready(m, offered.now)
    && Sole(offered.step, offered.now.state)
  }

  lemma OfferIsMade(c: Crypto, cfg: Config, account: Account, clientNonce: string, keys: Keys, o: Outcome)
    requires Greeted(account, clientNonce, o) && UsableKeys(c, keys) && cfg.nonce.Some?
    ensures var nonce := clientNonce + cfg.nonce.value;
      var offered := Continued(c, ScramHash(account.plus), cfg, o.now, Verification(true, None, Some(keys)));
      && Reaches(c, ScramHash(account.plus), cfg, o, KeyRequest(account), keys, offered)
      && Offering(c, account, clientNonce, nonce, keys, offered.now)
      && offered.step == ChallengeStep(ServerFirst(c, nonce, keys.salt, keys.iterations))
  {
  }

  // ------------------------------------------------------------ honest exchanges

  /** The final message of a client that reads the offer made to it. */
  function HonestFinal(c: Crypto, account: Account, keys: Keys, clientNonce: string, nonce: string): Final
    requires c.Sound() && keys.iterations >= 1
  {
    ClientFinal(c, account.password, ChannelField(c, account.plus, account.binding),
                FirstBare(account.user, clientNonce),
                ServerFirst(c, nonce, keys.salt, keys.iterations), Offer(nonce, keys.salt, keys.iterations))
  }

  /** The responder holds the keys of the client's password and the channel binding the client uses. */
  ghost predicate Matching(c: Crypto, cfg: Config, account: Account, keys: Keys) {
    && c.Sound() && Octets(account.binding) && cfg.channelBinding == account.binding
    && keys.salt != [] && Octets(keys.salt) && 1 <= keys.iterations <= MAX_ITERATIONS
    && keys == KeysFor(c, account.password, keys.salt, keys.iterations)
  }

  /** The client reads the offer as it was meant, and its answer proves the key. */
  lemma HonestAnswer(c: Crypto, cfg: Config, account: Account, keys: Keys, clientNonce: string, serverNonce: string,
                     now: Conversation)
    requires Matching(c, cfg, account, keys) && clientNonce != [] && ',' !in clientNonce + serverNonce
    requires Offering(c, account, clientNonce, clientNonce + serverNonce, keys, now)
    ensures var nonce := clientNonce + serverNonce;
      var final := HonestFinal(c, account, keys, clientNonce, nonce);
      && ReadServerFirst(c, clientNonce, ServerFirst(c, nonce, keys.salt, keys.iterations))
         == Offer(nonce, keys.salt, keys.iterations)
      && Judge(c, Known(ScramHash(account.plus), cfg, now.scram), final.message) == Proven(final.expected)
      && final.message != "*" && final.expected != []
  {
    ServerFirstRoundTrip(c, clientNonce, serverNonce, keys.salt, keys.iterations);
    HonestProof(c, account.password, account.plus, account.binding, now.scram.clientFirst, now.scram.serverFirst,
                Offer(clientNonce + serverNonce, keys.salt, keys.iterations));
  }

  /** From `now` on `final` makes the responder send `signature`, and an empty message ends in
      acceptance. */
  ghost predicate Settles(c: Crypto, m: Mechanism, cfg: Config, now: Conversation, final: string, signature: string)
    requires c.Sound() && Ready(m, now)
  {
    var proved := Responded(c, m, cfg, now, final);
    && proved.err.None? && proved.step == ChallengeStep(signature) && Ready(m, proved.now)
    && Responded(c, m, cfg, proved.now, "").err.None?
    && Responded(c, m, cfg, proved.now, "").step == FinalStep(true)
  }

  /** A proof judged authentic is answered with the signature; the empty message after it ends
      the exchange in acceptance. */
  lemma ProofSettles(c: Crypto, m: Mechanism, cfg: Config, now: Conversation, message: string, signature: string)
    requires c.Sound() && m.ScramHash? && Ready(m, now) && now.state == AwaitProof
    requires message != "*" && |message| <= MAX_PAYLOAD && signature != []
    requires Judge(c, Known(m, cfg, now.scram), message) == Proven(signature)
    ensures Settles(c, m, cfg, now, message, Field('v', c.base64(signature)))
    ensures var proved := Responded(c, m, cfg, now, message);
      && proved == Outcome(now.(state := ScramEmpty), ChallengeStep(Field('v', c.base64(signature))), None)
      && Lookup(SplitOn(proved.step.challenge.value, ','), 'v') == c.base64(signature)
      && Responded(c, m, cfg, proved.now, "") == Outcome(now.(state := Done), FinalStep(true), None)
  {
    SignatureRoundTrip(c, signature);
    EmptySettles(c, m, cfg, now.(state := ScramEmpty));
  }

  lemma EmptySettles(c: Crypto, m: Mechanism, cfg: Config, now: Conversation)
    requires c.Sound() && Ready(m, now) && now.state == ScramEmpty
    ensures Responded(c, m, cfg, now, "") == Outcome(now.(state := Done), FinalStep(true), None)
  {
  }

  /** Once the first message was read, the exchange of a client that knows the password goes through. */
  lemma ExchangeSucceeds(c: Crypto, cfg: Config, account: Account, keys: Keys, clientNonce: string, asked: Outcome)
    requires Matching(c, cfg, account, keys) && cfg.nonce.Some?
    requires clientNonce != [] && ',' !in clientNonce + cfg.nonce.value && Greeted(account, clientNonce, asked)
    requires |HonestFinal(c, account, keys, clientNonce, clientNonce + cfg.nonce.value).message| <= MAX_PAYLOAD
    ensures var m, nonce := ScramHash(account.plus), clientNonce + cfg.nonce.value;
      var challenge := ServerFirst(c, nonce, keys.salt, keys.iterations);
      var final := HonestFinal(c, account, keys, clientNonce, nonce);
      var signature := Field('v', c.base64(final.expected));
      var offered := Continued(c, m, cfg, asked.now, Verification(true, None, Some(keys)));
      && Reaches(c, m, cfg, asked, KeyRequest(account), keys, offered)
      && offered.step == ChallengeStep(challenge)
      && ReadServerFirst(c, clientNonce, challenge) == Offer(nonce, keys.salt, keys.iterations)
      && Settles(c, m, cfg, offered.now, final.message, signature)
      && Lookup(SplitOn(signature, ','), 'v') == c.base64(final.expected)
  {
    var m, nonce := ScramHash(account.plus), clientNonce + cfg.nonce.value;
    OfferIsMade(c, cfg, account, clientNonce, keys, asked);
    var now := Continued(c, m, cfg, asked.now, Verification(true, None, Some(keys))).now;
    HonestAnswer(c, cfg, account, keys, clientNonce, cfg.nonce.value, now);
    var final := HonestFinal(c, account, keys, clientNonce, nonce);
    ProofSettles(c, m, cfg, now, final.message, final.expected);
  }

  /** A client that knows the password and a responder that holds its keys accept each other: the
      responder asks for the account's keys, the client reads the offer as it was meant, its proof
      is accepted, and the signature it is sent is the one it looks for. */
  lemma MutualAcceptance(c: Crypto, cfg: Config, account: Account, keys: Keys, clientNonce: string, first: string,
                         atOnce: bool)
    requires Matching(c, cfg, account, keys) && account.user != [] && cfg.nonce.Some?
    requires clientNonce != [] && ',' !in clientNonce + cfg.nonce.value
    requires first == Gs2(account.plus) + FirstBare(account.user, clientNonce) && |first| <= MAX_PAYLOAD
    requires |HonestFinal(c, account, keys, clientNonce, clientNonce + cfg.nonce.value).message| <= MAX_PAYLOAD
    ensures var m, nonce := ScramHash(account.plus), clientNonce + cfg.nonce.value;
      var challenge := ServerFirst(c, nonce, keys.salt, keys.iterations);
      var final := HonestFinal(c, account, keys, clientNonce, nonce);
      var signature := Field('v', c.base64(final.expected));
      var asked := Hailed(c, m, cfg, first, atOnce);
      var offered := Continued(c, m, cfg, asked.now, Verification(true, None, Some(keys)));
      && Reaches(c, m, cfg, asked, KeyRequest(account), keys, offered)
      && offered.step == ChallengeStep(challenge)
      && ReadServerFirst(c, clientNonce, challenge) == Offer(nonce, keys.salt, keys.iterations)
      && Settles(c, m, cfg, offered.now, final.message, signature)
      && Lookup(SplitOn(signature, ','), 'v') == c.base64(final.expected)
  {
    HailedGreets(c, cfg, account, clientNonce, first, atOnce);
    ExchangeSucceeds(c, cfg, account, keys, clientNonce, Hailed(c, ScramHash(account.plus), cfg, first, atOnce));
  }

  // ------------------------------------------------------------- the two objects

  /** The responder receives the client's first message where one may come. */
  method Hail(r: Responder, account: Account, nonce: string, first: string) returns (step: Step)
    requires r.Valid() && r.now.scram == START.scram && (r.now.state == New || r.now.state == ScramFirst)
    requires r.mechanism == ScramHash(account.plus) && account.user != [] && nonce != [] && ',' !in nonce
    requires first == Gs2(account.plus) + FirstBare(account.user, nonce) && |first| <= MAX_PAYLOAD
    modifies r
    ensures r.Valid() && Greeted(account, nonce, Outcome(r.now, step, None))
  {
    FirstIsNoAbort(account, nonce, first);
    FirstMessageOpens(account, nonce, first, r.now);
    var err;
    if r.now.state == New {
      step, err := r.Start(Some(first));
    } else {
      step, err := r.Next(first);
    }
  }

  /** The first message comes with AUTH or after an empty challenge. */
  method Open(r: Responder, account: Account, nonce: string, first: string, atOnce: bool) returns (step: Step)
    requires r.Valid() && r.now == START
    requires r.mechanism == ScramHash(account.plus) && account.user != [] && nonce != [] && ',' !in nonce
    requires first == Gs2(account.plus) + FirstBare(account.user, nonce) && |first| <= MAX_PAYLOAD
    modifies r
    ensures r.Valid() && Greeted(account, nonce, Outcome(r.now, step, None))
  {
    if !atOnce {
      var prompt, err := r.Start(None);
    }
    step := Hail(r, account, nonce, first);
  }

  /** The responder has been sent the proof `final` and closed the exchange. */
  ghost predicate Closed(r: Responder, keys: Keys, final: Final)
    reads r
  {
    r.now.state == Done && r.ProvenKey() && r.now.scram.keys == Some(keys) && r.proof == final.message
  }

  /** Both sides as objects: what each sends is what the other receives, the backend supplies the
      keys, and at the end the responder holds the very proof the client computed. */
  method Authenticate(c: Crypto, cfg: Config, account: Account, keys: Keys, clientNonce: string, atOnce: bool)
    returns (r: Responder, peer: ScramClient, client: bool, server: bool)
    requires Matching(c, cfg, account, keys) && account.user != [] && cfg.nonce.Some?
    requires clientNonce != [] && ',' !in clientNonce + cfg.nonce.value
    requires |Gs2(account.plus) + FirstBare(account.user, clientNonce)| <= MAX_PAYLOAD
    requires |HonestFinal(c, account, keys, clientNonce, clientNonce + cfg.nonce.value).message| <= MAX_PAYLOAD
    ensures client && server
    ensures r.crypto == c && r.mechanism == ScramHash(account.plus) && r.config == cfg
    ensures var final := HonestFinal(c, account, keys, clientNonce, clientNonce + cfg.nonce.value);
      Closed(r, keys, final) && peer.expected == final.expected
  {
    r := new Responder(c, ScramHash(account.plus), cfg);
    peer := new ScramClient(c, account);
    var first := peer.Start(clientNonce);
    var step := Open(r, account, clientNonce, first, atOnce);
    var challenge := SupplyKeys(r, account, clientNonce, keys, step);
    client, server := Settle(r, peer, keys, cfg.nonce.value, challenge,
                             HonestFinal(c, account, keys, clientNonce, clientNonce + cfg.nonce.value));
  }

  /** The backend answers the responder's question with the keys, and the responder makes its offer. */
  method SupplyKeys(r: Responder, account: Account, clientNonce: string, keys: Keys, step: Step)
    returns (challenge: string)
    requires r.Valid() && r.mechanism == ScramHash(account.plus) && r.config.nonce.Some?
    requires Greeted(account, clientNonce, Outcome(r.now, step, None)) && UsableKeys(r.crypto, keys)
    modifies r
    ensures var nonce := clientNonce + r.config.nonce.value;
      && challenge == ServerFirst(r.crypto, nonce, keys.salt, keys.iterations)
      && r.Valid() && Offering(r.crypto, account, clientNonce, nonce, keys, r.now)
  {
    OfferIsMade(r.crypto, r.config, account, clientNonce, keys, Outcome(r.now, step, None));
    var next, err := r.Continue(Verification(true, None, Some(keys)));
    return next.challenge.value;
  }

  /** The client reads the offer and answers with its proof. */
  method Answer(peer: ScramClient, keys: Keys, nonce: string, challenge: string, ghost honest: Final)
    returns (message: string)
    requires peer.crypto.Sound() && peer.step == 0 && keys.iterations >= 1
    requires peer.firstBare == FirstBare(peer.account.user, peer.nonce)
    requires challenge == ServerFirst(peer.crypto, nonce, keys.salt, keys.iterations)
    requires ReadServerFirst(peer.crypto, peer.nonce, challenge) == Offer(nonce, keys.salt, keys.iterations)
    requires honest == HonestFinal(peer.crypto, peer.account, keys, peer.nonce, nonce)
    modifies peer`step, peer`expected
    ensures message == honest.message && peer.expected == honest.expected && peer.step == 1
  {
    var final := peer.Next(challenge);
    return final.response;
  }

  /** The client answers the offer and both sides settle. */
  method Settle(r: Responder, peer: ScramClient, keys: Keys, serverNonce: string, challenge: string,
                ghost honest: Final)
    returns (client: bool, server: bool)
    requires r.Valid() && r.mechanism == ScramHash(peer.account.plus) && peer.crypto == r.crypto && peer.step == 0
    requires Matching(r.crypto, r.config, peer.account, keys) && peer.nonce != [] && ',' !in peer.nonce + serverNonce
    requires peer.firstBare == FirstBare(peer.account.user, peer.nonce)
    requires Offering(r.crypto, peer.account, peer.nonce, peer.nonce + serverNonce, keys, r.now)
    requires challenge == ServerFirst(r.crypto, peer.nonce + serverNonce, keys.salt, keys.iterations)
    requires honest == HonestFinal(r.crypto, peer.account, keys, peer.nonce, peer.nonce + serverNonce)
    requires |honest.message| <= MAX_PAYLOAD
    modifies r, peer`step, peer`expected
    ensures client && server && Closed(r, keys, honest) && peer.expected == honest.expected
  {
    HonestAnswer(r.crypto, r.config, peer.account, keys, peer.nonce, serverNonce, r.now);
    var message := Answer(peer, keys, peer.nonce + serverNonce, challenge, honest);
    client, server := Finish(r, peer, message);
  }

  /** The last two round trips. */
  method Finish(r: Responder, peer: ScramClient, message: string) returns (client: bool, server: bool)
    requires r.Valid() && r.mechanism.ScramHash? && r.now.state == AwaitProof
    requires peer.crypto == r.crypto && peer.step == 1 && peer.expected != []
    requires message != "*" && |message| <= MAX_PAYLOAD
    requires Judge(r.crypto, Known(r.mechanism, r.config, r.now.scram), message) == Proven(peer.expected)
    modifies r, peer`step, peer`expected
    ensures client && server && peer.expected == old(peer.expected)
    ensures r.now == old(r.now).(state := Done) && r.proof == message && r.ProvenKey()
  {
    ProofSettles(r.crypto, r.mechanism, r.config, r.now, message, peer.expected);
    var step, err := r.Next(message);
    var last := peer.Next(step.challenge.value);
    step, err := r.Next(last.response);
    return last.done, step.accepted;
  }
}
