/** SCRAM messages, built and read by both sides (section 3 of RFC 5802;
    internal/smtpsasl/sasl.go, responder.go). */
module Scram {
  import opened Prelude
  import opened Decimal
  import opened Commands
  import opened SaslCrypto

  const MAX_ITERATIONS := 100000

  // -------------------------------------------------------------- SASL names

  function SaslName(v: string): string {
    if v == [] then []
    else (if v[0] == '=' then "=3D" else if v[0] == ',' then "=2C" else [v[0]]) + SaslName(v[1..])
  }

  function Before(c: char, r: Option<string>): Option<string> {
    if r.None? then None else Some([c] + r.value)
  }

  function NameOf(v: string): Option<string> {
    if v == [] then Some([])
    else if v[0] != '=' then Before(v[0], NameOf(v[1..]))
    else if |v| < 3 then None
    else if v[1..3] == "2C" then Before(',', NameOf(v[3..]))
    else if v[1..3] == "3D" then Before('=', NameOf(v[3..]))
    else None
  }

  function Following(b: string, r: Option<string>): Option<string> {
    if r.None? then None else Some(b + r.value)
  }

  lemma FollowingBefore(b: string, c: char, r: Option<string>)
    ensures Following(b, Before(c, r)) == Following(b + [c], r)
  {
    if r.Some? {
      Assoc(b, [c], r.value);
    }
  }

  lemma FollowingNothing(r: Option<string>)
    ensures Following("", r) == r
  {
    if r.Some? {
      AppendEmpty(r.value);
    }
  }

  method DecodeSaslName(value: string) returns (r: Option<string>)
    ensures r == NameOf(value)
  {
    var b, i := "", 0;
    assert value[0..] == value;
    FollowingNothing(NameOf(value));
    while i < |value|
      invariant i <= |value|
      invariant NameOf(value) == Following(b, NameOf(value[i..]))
    {
      var c, width := value[i], 1;
      if c == '=' {
        if i + 2 >= |value| {
          return None;
        }
        assert value[i..][1..3] == value[i + 1..i + 3];
        if value[i + 1..i + 3] == "2C" {
          c, width := ',', 3;
        } else if value[i + 1..i + 3] == "3D" {
          c, width := '=', 3;
        } else {
          return None;
        }
      }
      assert value[i..][width..] == value[i + width..];
      FollowingBefore(b, c, NameOf(value[i + width..]));
      b, i := b + [c], i + width;
    }
    AppendEmpty(b);
    return Some(b);
  }

  lemma {:induction false} NameRoundTrip(v: string)
    ensures NameOf(SaslName(v)) == Some(v) && ',' !in SaslName(v)
    ensures v != [] ==> SaslName(v) != []
  {
    if v != [] {
      var tail := SaslName(v[1..]);
      NameRoundTrip(v[1..]);
      HeadTail(v);
      if v[0] == '=' {
        assert ("=3D" + tail)[1..3] == "3D" && ("=3D" + tail)[3..] == tail;
      } else if v[0] == ',' {
        assert ("=2C" + tail)[1..3] == "2C" && ("=2C" + tail)[3..] == tail;
      } else {
        assert ([v[0]] + tail)[1..] == tail;
      }
    }
  }

  // ------------------------------------------------------------------ fields

  predicate IsField(x: string) { |x| >= 3 && x[1] == '=' }

  /** The value of the last field called `name`; empty when there is none. */
  function Lookup(parts: seq<string>, name: char): string {
    if parts == [] then ""
    else
      var last := parts[|parts| - 1];
      if IsField(last) && last[0] == name then last[2..] else Lookup(parts[..|parts| - 1], name)
  }

  /** What the responder demands: well-formed fields, none repeating an earlier name. */
  predicate Strict(parts: seq<string>) {
    parts == [] ||
    var most, last := parts[..|parts| - 1], parts[|parts| - 1];
    Strict(most) && IsField(last) && Lookup(most, last[0]) == ""
  }

  lemma {:induction false} StrictPrefix(parts: seq<string>, i: nat)
    requires i <= |parts| && Strict(parts)
    ensures Strict(parts[..i])
  {
    if i == |parts| {
      TakeWhole(parts);
    } else {
      var most := parts[..|parts| - 1];
      StrictPrefix(most, i);
      assert most[..i] == parts[..i];
    }
  }

  /** Reading a Go map: an absent key gives the zero value. */
  function Get(fields: map<char, string>, name: char): string {
    if name in fields then fields[name] else ""
  }

  lemma LookupLast(parts: seq<string>, i: nat, name: char)
    requires i < |parts|
    ensures Lookup(parts[..i + 1], name) ==
            if IsField(parts[i]) && parts[i][0] == name then parts[i][2..] else Lookup(parts[..i], name)
  {
    assert parts[..i + 1][..i] == parts[..i];
  }

  /** The client's lenient reader. */
  method ParseFields(v: string) returns (out: map<char, string>)
    ensures forall name :: Get(out, name) == Lookup(SplitOn(v, ','), name)
  {
    var parts := SplitOn(v, ',');
    out := map[];
    for i := 0 to |parts|
      invariant forall name :: Get(out, name) == Lookup(parts[..i], name)
    {
      var x := parts[i];
      ghost var was := out;
      if IsField(x) {
        out := out[x[0] := x[2..]];
      }
      FieldTaken(parts, i, was, out);
    }
    TakeWhole(parts);
  }

  /** The map after one more part, which may be a field. */
  lemma FieldTaken(parts: seq<string>, i: nat, was: map<char, string>, now: map<char, string>)
    requires i < |parts| && forall name :: Get(was, name) == Lookup(parts[..i], name)
    requires now == if IsField(parts[i]) then was[parts[i][0] := parts[i][2..]] else was
    ensures forall name :: Get(now, name) == Lookup(parts[..i + 1], name)
  {
    forall name ensures Get(now, name) == Lookup(parts[..i + 1], name) {
      assert Get(was, name) == Lookup(parts[..i], name);
      LookupLast(parts, i, name);
    }
  }

  /** The responder's strict reader. */
  method ParseScramFields(message: string) returns (r: Option<map<char, string>>)
    ensures r.Some? <==> Strict(SplitOn(message, ','))
    ensures r.Some? ==> forall name :: Get(r.value, name) == Lookup(SplitOn(message, ','), name)
  {
    var parts := SplitOn(message, ',');
    var fields: map<char, string> := map[];
    for i := 0 to |parts|
      invariant Strict(parts[..i])
      invariant forall name :: Get(fields, name) == Lookup(parts[..i], name)
      invariant forall name :: name in fields ==> Get(fields, name) != ""
    {
      var x := parts[i];
      assert parts[..i + 1][..i] == parts[..i];
      if !IsField(x) || x[0] in fields {
        if Strict(parts) {
          StrictPrefix(parts, i + 1);
        }
        return None;
      }
      ghost var was := fields;
      fields := fields[x[0] := x[2..]];
      FieldTaken(parts, i, was, fields);
    }
    TakeWhole(parts);
    return Some(fields);
  }

  lemma SplitTwo(a: string, b: string)
    requires ',' !in a && ',' !in b
    ensures SplitOn(a + "," + b, ',') == [a, b]
  {
    SplitOnFirst(a, b, ',');
    SplitOnOne(b, ',');
  }

  lemma SplitThree(a: string, b: string, d: string)
    requires ',' !in a && ',' !in b && ',' !in d
    ensures SplitOn(a + "," + b + "," + d, ',') == [a, b, d]
  {
    SplitOnFirst(a, b + "," + d, ',');
    SplitTwo(b, d);
    Assoc(a + ",", b + ",", d);
    Assoc(a + ",", b, ",");
  }

  function Field(name: char, value: string): (r: string)
    ensures |r| == |value| + 2 && r[0] == name && r[1] == '=' && r[2..] == value
    ensures ',' !in value && name != ',' ==> ',' !in r
  {
    [name, '='] + value
  }

  /** Fields as they are looked up, last one first. */
  lemma AddField(parts: seq<string>, x: char, v: string, name: char)
    requires v != []
    ensures Lookup(parts + [Field(x, v)], name) == if name == x then v else Lookup(parts, name)
    ensures Strict(parts) && Lookup(parts, x) == "" ==> Strict(parts + [Field(x, v)])
  {
    TakeMost(parts, Field(x, v));
  }

  lemma TwoFields(x: char, v: string, y: char, w: string, name: char)
    requires v != [] && w != [] && x != y
    ensures Strict([Field(x, v), Field(y, w)])
    ensures Lookup([Field(x, v), Field(y, w)], name) == if name == y then w else if name == x then v else ""
  {
    var f, g := Field(x, v), Field(y, w);
    AppendEmpty([f]);
    AddField([], x, v, name);
    AddField([], x, v, y);
    AddField([f], y, w, name);
    assert [f] + [g] == [f, g];
  }

  lemma ThreeFields(x: char, v: string, y: char, w: string, z: char, u: string, name: char)
    requires v != [] && w != [] && u != [] && x != y
    ensures Lookup([Field(x, v), Field(y, w), Field(z, u)], name)
            == if name == z then u else if name == y then w else if name == x then v else ""
  {
    TwoFields(x, v, y, w, name);
    var f, g, h := Field(x, v), Field(y, w), Field(z, u);
    AddField([f, g], z, u, name);
    assert [f, g] + [h] == [f, g, h];
  }

  // ------------------------------------------------------- client-first-message

  function Gs2(plus: bool): string { if plus then "p=tls-exporter,," else "n,," }

  function FirstBare(user: string, nonce: string): string { Field('n', SaslName(user)) + "," + Field('r', nonce) }

  datatype Header = NoHeader | Header(text: string, bare: string, authzid: string)

  datatype Opening = NoOpening | Opening(header: string, bare: string, authzid: string, user: string, nonce: string)

  function ReadHeader(message: string, plus: bool): Header {
    var first := IndexOf(message, ',');
    if first == |message| then NoHeader
    else
      var second := first + 1 + IndexOf(message[first + 1..], ',');
      if second == |message| then NoHeader
      else
        var flag, authz, bare := message[..first], message[first + 1..second], message[second + 1..];
        if (if plus then flag != "p=tls-exporter" else flag != "n" && flag != "y") then NoHeader
        else if authz != "" && !("a=" <= authz) then NoHeader
        else
          var authzid := if authz == "" then Some("") else NameOf(authz[2..]);
          if authzid.None? || bare == "" then NoHeader
          else Header(message[..second + 1], bare, authzid.value)
  }

  function ReadClientFirst(message: string, plus: bool): Opening {
    var header := ReadHeader(message, plus);
    if header.NoHeader? then NoOpening
    else
      var parts := SplitOn(header.bare, ',');
      if !Strict(parts) || Lookup(parts, 'n') == "" || Lookup(parts, 'r') == "" then NoOpening
      else if Lookup(parts, 'm') != "" then NoOpening
      else
        var user := NameOf(Lookup(parts, 'n'));
        if user.None? then NoOpening
        else Opening(header.text, header.bare, header.authzid, user.value, Lookup(parts, 'r'))
  }

  lemma HeaderPositions(flag: string, bare: string)
    requires ',' !in flag
    ensures var m := flag + ",," + bare;
      && IndexOf(m, ',') == |flag| && IndexOf(m[|flag| + 1..], ',') == 0
      && m[..|flag|] == flag && m[|flag| + 2..] == bare && m[..|flag| + 2] == flag + ",,"
  {
    var m := flag + ",," + bare;
    IndexOfUnique(m, ',', |flag|);
    IndexOfUnique(m[|flag| + 1..], ',', 0);
  }

  lemma HeaderRoundTrip(bare: string, plus: bool)
    requires bare != []
    ensures ReadHeader(Gs2(plus) + bare, plus) == Header(Gs2(plus), bare, "")
  {
    var flag := if plus then "p=tls-exporter" else "n";
    assert Gs2(plus) == flag + ",,";
    HeaderPositions(flag, bare);
  }

  /** The responder reads back the user name and nonce the client sent. */
  lemma ClientFirstRoundTrip(user: string, nonce: string, plus: bool)
    requires user != [] && nonce != [] && ',' !in nonce
    ensures ReadClientFirst(Gs2(plus) + FirstBare(user, nonce), plus)
            == Opening(Gs2(plus), FirstBare(user, nonce), "", user, nonce)
  {
    var name := SaslName(user);
    NameRoundTrip(user);
    HeaderRoundTrip(FirstBare(user, nonce), plus);
    SplitTwo(Field('n', name), Field('r', nonce));
    TwoFields('n', name, 'r', nonce, 'n');
    TwoFields('n', name, 'r', nonce, 'r');
    TwoFields('n', name, 'r', nonce, 'm');
  }

  // ------------------------------------------------------- server-first-message

  function ServerFirst(c: Crypto, nonce: string, salt: string, iterations: nat): string {
    Field('r', nonce) + "," + Field('s', c.base64(salt)) + "," + Field('i', Digits(iterations))
  }

  /** strconv.Atoi with 64-bit integers. */
  function Atoi(s: string): Option<int> {
    if "-" <= s then
      var r := Parse(s[1..], MAX_INT64 + 1);
      var magnitude: int := if r.None? then 0 else r.value;
      if r.None? then None else Some(-magnitude)
    else Parse(if "+" <= s then s[1..] else s, MAX_INT64)
  }

  datatype Offer = NoOffer | Offer(nonce: string, salt: string, iterations: nat)

  function ReadServerFirst(c: Crypto, own: string, message: string): (r: Offer)
    ensures r.Offer? ==> 1 <= r.iterations <= MAX_ITERATIONS && own <= r.nonce && r.nonce != []
  {
    var parts := SplitOn(message, ',');
    var nonce, salt64 := Lookup(parts, 'r'), Lookup(parts, 's');
    if nonce == "" || !(own <= nonce) || salt64 == "" then NoOffer
    else
      var iterations := Atoi(Lookup(parts, 'i'));
      if iterations.None? || iterations.value < 1 || iterations.value > MAX_ITERATIONS then NoOffer
      else
        var salt := c.unbase64(salt64);
        if salt.None? then NoOffer else Offer(nonce, salt.value, iterations.value)
  }

  lemma AtoiDigits(n: nat)
    requires n <= MAX_INT64
    ensures Atoi(Digits(n)) == Some(n) && Digits(n) != [] && ',' !in Digits(n)
  {
    DigitsAreDigits(n);
    ParseDigits(n, MAX_INT64);
  }

  /** The client reads back the nonce, salt and iteration count the responder chose. */
  lemma ServerFirstRoundTrip(c: Crypto, own: string, extra: string, salt: string, iterations: nat)
    requires c.Sound() && Octets(salt) && salt != []
    requires own != [] && ',' !in own + extra && 1 <= iterations <= MAX_ITERATIONS
    ensures ReadServerFirst(c, own, ServerFirst(c, own + extra, salt, iterations))
         == Offer(own + extra, salt, iterations)
  {
    var nonce, salt64, count := own + extra, c.base64(salt), Digits(iterations);
    AtoiDigits(iterations);
    SplitThree(Field('r', nonce), Field('s', salt64), Field('i', count));
    ThreeFields('r', nonce, 's', salt64, 'i', count, 'r');
    ThreeFields('r', nonce, 's', salt64, 'i', count, 's');
    ThreeFields('r', nonce, 's', salt64, 'i', count, 'i');
  }
}
