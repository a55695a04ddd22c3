/** What the server extracts is what the client sent, for the mechanisms that carry
    credentials in the clear (internal/smtpsasl/sasl.go, responder.go). */
module SaslCredentials {
  import opened Prelude
  import opened Commands
  import opened Scram
  import opened SaslResponder

  const SEP := "\U{1}"

  function PlainMessage(authzid: string, user: string, password: string): string {
    authzid + "\0" + user + "\0" + password
  }

  lemma PlainRoundTrip(authzid: string, user: string, password: string)
    requires '\0' !in authzid && '\0' !in user && '\0' !in password && user != []
    ensures PlainRequest(PlainMessage(authzid, user, password))
         == Some(Asking(Credentials(user, authzid, password, "")))
  {
    Assoc(authzid + "\0", user + "\0", password);
    Assoc(authzid + "\0", user, "\0");
    SplitOnFirst(authzid, user + "\0" + password, '\0');
    SplitOnFirst(user, password, '\0');
    SplitOnOne(password, '\0');
  }

  /** An OAuth payload: two parts, then two separators. */
  function OAuthMessage(a: string, b: string): string { a + SEP + (b + SEP + SEP) }

  lemma SplitEmptyEnd(c: char)
    ensures SplitOn([c], c) == ["", ""]
  {
    SplitOnFirst("", "", c);
    SplitOnOne("", c);
    assert "" + [c] + "" == [c];
  }

  lemma SplitFour(a: string, b: string, c: char)
    requires c !in a && c !in b
    ensures SplitOn(a + [c] + (b + [c] + [c]), c) == [a, b, "", ""]
  {
    SplitOnFirst(a, b + [c] + [c], c);
    SplitOnFirst(b, [c], c);
    SplitEmptyEnd(c);
  }

  lemma OAuthPartsRoundTrip(a: string, b: string)
    requires '\U{1}' !in a && '\U{1}' !in b
    ensures OAuthParts(OAuthMessage(a, b)) == Some([a, b])
  {
    SplitFour(a, b, '\U{1}');
    assert [a, b, "", ""][..2] == [a, b];
  }

  lemma SuffixedLast(parts: seq<string>, prefix: string, value: string)
    ensures Suffixed(parts + [prefix + value], prefix) == value
  {
    var last := prefix + value;
    assert last[..|prefix|] == prefix && last[|prefix|..] == value;
  }

  lemma {:induction false} NameAvoids(v: string, c: char)
    requires c !in v && c !in "=2C3D"
    ensures c !in SaslName(v)
  {
    if v != [] {
      NameAvoids(v[1..], c);
      assert "=2C3D"[0] == '=' && "=2C3D"[1] == '2' && "=2C3D"[2] == 'C' && "=2C3D"[3] == '3' && "=2C3D"[4] == 'D';
    }
  }

  function OAuthHeader(authzid: string): string { "n,a=" + SaslName(authzid) + "," }

  lemma AuthzidRoundTrip(authzid: string)
    ensures OAuthAuthzid(OAuthHeader(authzid)) == Some(authzid)
    ensures '\U{1}' !in authzid ==> '\U{1}' !in OAuthHeader(authzid)
  {
    var name, header := SaslName(authzid), OAuthHeader(authzid);
    NameRoundTrip(authzid);
    if '\U{1}' !in authzid {
      NameAvoids(authzid, '\U{1}');
    }
    assert header[..2] == "n," && header[2..|header| - 1] == "a=" + name && ("a=" + name)[2..] == name;
  }

  lemma BearerRoundTrip(header: string, authzid: string, token: string)
    requires '\U{1}' !in header && '\U{1}' !in token && token != [] && OAuthAuthzid(header) == Some(authzid)
    ensures OAuthBearerRequest(OAuthMessage(header, BEARER + token))
         == Some(Asking(Credentials("", authzid, "", token)))
  {
    var bearer := BEARER + token;
    OAuthPartsRoundTrip(header, bearer);
    SuffixedLast([], BEARER, token);
    assert [header, bearer][1..] == [bearer] == [] + [bearer];
  }

  lemma OAuthBearerRoundTrip(authzid: string, token: string)
    requires '\U{1}' !in authzid && '\U{1}' !in token && token != []
    ensures OAuthBearerRequest(OAuthMessage(OAuthHeader(authzid), BEARER + token))
            == Some(Asking(Credentials("", authzid, "", token)))
  {
    AuthzidRoundTrip(authzid);
    BearerRoundTrip(OAuthHeader(authzid), authzid, token);
  }

  lemma XOAuth2RoundTrip(user: string, token: string)
    requires '\U{1}' !in user && '\U{1}' !in token && user != [] && token != []
    ensures XOAuth2Request(OAuthMessage("user=" + user, BEARER + token))
         == Some(Asking(Credentials(user, "", "", token)))
  {
    var a, b := "user=" + user, BEARER + token;
    OAuthPartsRoundTrip(a, b);
    SuffixedLast([a], BEARER, token);
    SuffixedLast([], "user=", user);
    assert [a, b] == [a] + [b] && [a] == [] + [a] && [a, b][..1] == [a];
    assert b[0] == 'a' && "user="[0] == 'u';
  }
}
