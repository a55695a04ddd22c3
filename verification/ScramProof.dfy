/** The SCRAM proof: what the client computes and what the responder accepts
    (section 3 of RFC 5802; internal/smtpsasl/sasl.go, responder.go). */
module ScramProof {
  import opened Prelude
  import opened Commands
  import opened SaslCrypto
  import opened Scram

  datatype Keys = Keys(salt: string, iterations: int, storedKey: string, serverKey: string)

  function ClientKey(c: Crypto, salted: string): (r: string)
    requires c.Sound()
    ensures Octets(r) && |r| == c.size
  {
    c.hmac(salted, "Client Key")
  }

  function ServerKey(c: Crypto, salted: string): (r: string)
    requires c.Sound()
    ensures Octets(r) && |r| == c.size
  {
    c.hmac(salted, "Server Key")
  }

  /** The verifier material a server stores for a password. */
  function KeysFor(c: Crypto, password: string, salt: string, iterations: nat): (r: Keys)
    requires c.Sound() && iterations >= 1
    ensures |r.storedKey| == c.size && |r.serverKey| == c.size
  {
    var salted := Hi(c, password, salt, iterations);
    Keys(salt, iterations, c.hash(ClientKey(c, salted)), ServerKey(c, salted))
  }

  function AuthMessage(firstBare: string, serverFirst: string, withoutProof: string): string {
    firstBare + "," + serverFirst + "," + withoutProof
  }

  // -------------------------------------------------------- client-final-message

  function ChannelInput(plus: bool, binding: string): string {
    if plus then Gs2(plus) + binding else Gs2(plus)
  }

  function ChannelField(c: Crypto, plus: bool, binding: string): string {
    if plus then c.base64("p=tls-exporter,," + binding) else "biws"
  }

  function WithoutProof(channel: string, nonce: string): string {
    Field('c', channel) + "," + Field('r', nonce)
  }

  datatype Final = Final(message: string, expected: string)

  function ClientFinal(c: Crypto, password: string, channel: string, firstBare: string, serverFirst: string,
                       offer: Offer): Final
    requires c.Sound() && offer.Offer? && offer.iterations >= 1
  {
    var salted := Hi(c, password, offer.salt, offer.iterations);
    var clientKey := ClientKey(c, salted);
    var withoutProof := WithoutProof(channel, offer.nonce);
    var auth := AuthMessage(firstBare, serverFirst, withoutProof);
    var proof := Xor(clientKey, c.hmac(c.hash(clientKey), auth));
    Final(withoutProof + ",p=" + c.base64(proof), c.hmac(ServerKey(c, salted), auth))
  }

  // ------------------------------------------------------------ splitting at ,p=

  /** The last position of ",p=" in the first `n` octets. */
  function LastProofMark(s: string, n: nat): (r: Option<nat>)
    requires n <= |s|
    ensures r.Some? ==> r.value + 3 <= n && s[r.value..r.value + 3] == ",p="
  {
    if n < 3 then None
    else if s[n - 3..n] == ",p=" then Some(n - 3)
    else LastProofMark(s, n - 1)
  }

  datatype Parts = NoParts | Parts(before: string, proof: string)

  function SplitProof(message: string): Parts {
    var at := LastProofMark(message, |message|);
    if at.None? || ',' in message[at.value + 3..] then NoParts
    else Parts(message[..at.value], message[at.value + 3..])
  }

  lemma {:induction false} LastProofMarkAt(s: string, n: nat, at: nat)
    requires at + 3 <= n <= |s| && s[at..at + 3] == ",p=" && forall k :: at + 3 <= k < n ==> s[k] != ','
    ensures LastProofMark(s, n) == Some(at)
  {
    if n > at + 3 {
      assert s[n - 3..n][0] == s[n - 3] && s[at..at + 3][1] == s[at + 1] && s[at..at + 3][2] == s[at + 2];
      LastProofMarkAt(s, n - 1, at);
    }
  }

  /** The split is the only one that leaves a comma-free proof. */
  lemma SplitProofIsUnique(w: string, t: string)
    requires ',' !in t
    ensures SplitProof(w + ",p=" + t) == Parts(w, t)
  {
    var m := w + ",p=" + t;
    assert m[|w|..|w| + 3] == ",p=" && m[..|w|] == w && m[|w| + 3..] == t;
    LastProofMarkAt(m, |m|, |w|);
  }

  lemma SplitProofIsSound(m: string)
    requires SplitProof(m).Parts?
    ensures m == SplitProof(m).before + ",p=" + SplitProof(m).proof && ',' !in SplitProof(m).proof
  {
    var at := LastProofMark(m, |m|).value;
    assert m == m[..at] + m[at..at + 3] + m[at + 3..];
  }

  // --------------------------------------------------------------- the decision

  /** What the responder knows when the client's proof arrives. */
  datatype Exchange = Exchange(channel: string, nonce: string, firstBare: string, serverFirst: string, keys: Keys)

  datatype Verdict = Malformed | Refused | Proven(signature: string)

  /** The client key that `proof` claims under the message `auth`. */
  function ClaimedKey(c: Crypto, x: Exchange, proof: string, withoutProof: string): string
    requires c.Sound() && Octets(proof) && |proof| == c.size
  {
    Xor(proof, c.hmac(x.keys.storedKey, AuthMessage(x.firstBare, x.serverFirst, withoutProof)))
  }

  function Judge(c: Crypto, x: Exchange, message: string): Verdict
    requires c.Sound()
  {
    var parts := SplitProof(message);
    if parts.NoParts? then Malformed
    else
      var fields := SplitOn(parts.before, ',');
      if !Strict(fields) || Lookup(fields, 'c') == "" || Lookup(fields, 'r') != x.nonce then Malformed
      else
        var channel := c.unbase64(Lookup(fields, 'c'));
        if channel.None? then Malformed
        else if channel.value != x.channel then Refused
        else
          var proof := c.unbase64(parts.proof);
          if proof.None? || |proof.value| != c.size then Malformed
          else if c.hash(ClaimedKey(c, x, proof.value, parts.before)) != x.keys.storedKey then Refused
          else Proven(c.hmac(x.keys.serverKey, AuthMessage(x.firstBare, x.serverFirst, parts.before)))
  }

  /** `message` is some fields then a comma-free proof; the fields repeat the nonce and
      the channel data, and the proof opens the stored key. */
  ghost predicate Opens(c: Crypto, x: Exchange, message: string, w: string, t: string)
    requires c.Sound()
  {
    && message == w + ",p=" + t && ',' !in t
    && Strict(SplitOn(w, ','))
    && Lookup(SplitOn(w, ','), 'r') == x.nonce
    && Lookup(SplitOn(w, ','), 'c') != "" && c.unbase64(Lookup(SplitOn(w, ','), 'c')) == Some(x.channel)
    && c.unbase64(t).Some? && |c.unbase64(t).value| == c.size
    && c.hash(ClaimedKey(c, x, c.unbase64(t).value, w)) == x.keys.storedKey
  }

  ghost predicate Authentic(c: Crypto, x: Exchange, message: string)
    requires c.Sound()
  {
    exists w, t :: Opens(c, x, message, w, t)
  }

  /** The responder accepts exactly the authentic messages. */
  lemma JudgeIsExact(c: Crypto, x: Exchange, message: string)
    requires c.Sound()
    ensures Judge(c, x, message).Proven? <==> Authentic(c, x, message)
  {
    if Authentic(c, x, message) {
      var w, t :| Opens(c, x, message, w, t);
      SplitProofIsUnique(w, t);
    }
    if Judge(c, x, message).Proven? {
      SplitProofIsSound(message);
      var parts := SplitProof(message);
      assert Opens(c, x, message, parts.before, parts.proof);
    }
  }

  /** A client that knows the password is accepted, and gets the signature it expects. */
  lemma HonestProof(c: Crypto, password: string, plus: bool, binding: string, firstBare: string, serverFirst: string,
                    offer: Offer)
    requires c.Sound() && Octets(binding) && offer.Offer? && offer.iterations >= 1
    requires offer.nonce != [] && ',' !in offer.nonce
    ensures var final := ClientFinal(c, password, ChannelField(c, plus, binding), firstBare, serverFirst, offer);
      var keys := KeysFor(c, password, offer.salt, offer.iterations);
      Judge(c, Exchange(ChannelInput(plus, binding), offer.nonce, firstBare, serverFirst, keys), final.message)
      == Proven(final.expected)
  {
    var channel := ChannelField(c, plus, binding);
    var withoutProof := WithoutProof(channel, offer.nonce);
    var clientKey := ClientKey(c, Hi(c, password, offer.salt, offer.iterations));
    var signature := c.hmac(c.hash(clientKey), AuthMessage(firstBare, serverFirst, withoutProof));
    ChannelRoundTrip(c, plus, binding);
    SplitProofIsUnique(withoutProof, c.base64(Xor(clientKey, signature)));
    SplitTwo(Field('c', channel), Field('r', offer.nonce));
    TwoFields('c', channel, 'r', offer.nonce, 'c');
    TwoFields('c', channel, 'r', offer.nonce, 'r');
    XorTwice(clientKey, signature);
  }

  lemma ChannelRoundTrip(c: Crypto, plus: bool, binding: string)
    requires c.Sound() && Octets(binding)
    ensures var field := ChannelField(c, plus, binding);
      field != [] && ',' !in field && c.unbase64(field) == Some(ChannelInput(plus, binding))
  {
    if plus {
      assert "p=tls-exporter,," + binding != [];
    } else {
      assert c.base64("n,,") == "biws";
    }
  }
}
