/** The arithmetic under SCRAM: octet xor and the iterated key derivation, over
    uninterpreted hash, HMAC and base64 functions (internal/smtpsasl/sasl.go). */
module SaslCrypto {
  import opened Prelude

  datatype Crypto = Crypto(
    size: nat,
    hash: string -> string,
    hmac: (string, string) -> string,
    base64: string -> string,
    unbase64: string -> Option<string>)
  {
    /** What the mechanisms rely on: digests of a fixed, positive size, a base64 decoder that
        undoes the encoder, and an alphabet without commas. */
    ghost predicate Sound() {
      && size > 0
      && (forall x :: Octets(hash(x)) && |hash(x)| == size)
      && (forall k, x :: Octets(hmac(k, x)) && |hmac(k, x)| == size)
      && (forall x :: Octets(x) ==> unbase64(base64(x)) == Some(x))
      && (forall x :: ',' !in base64(x) && (x != [] ==> base64(x) != []))
      && (forall x :: unbase64(x).Some? ==> Octets(unbase64(x).value))
      && base64("n,,") == "biws"
    }
  }

  // ------------------------------------------------------- the laws can be met

  function High(c: char): (n: nat)
    ensures n < 16
  {
    c as int % 256 / 16
  }

  function Low(c: char): (n: nat)
    ensures n < 16
  {
    c as int % 16
  }

  function Letter(n: nat): (c: char)
    requires n < 16
    ensures Nibble(c) == n && c != ','
  {
    'a' + n as char
  }

  function Nibble(c: char): (n: nat)
    ensures n < 16
  {
    if 'a' <= c <= 'p' then (c - 'a') as nat else 0
  }

  function Joined(high: nat, low: nat): (c: char)
    requires high < 16 && low < 16
    ensures c as int < 256
  {
    (16 * high + low) as char
  }

  lemma JoinedNibbles(c: char)
    requires c as int < 256
    ensures Joined(High(c), Low(c)) == c
  {
  }

  /** Two letters per octet. */
  function Letters(x: string): string {
    if x == [] then [] else [Letter(High(x[0])), Letter(Low(x[0]))] + Letters(x[1..])
  }

  function FromLetters(y: string): string {
    if |y| < 2 then [] else [Joined(Nibble(y[0]), Nibble(y[1]))] + FromLetters(y[2..])
  }

  lemma {:induction false} LettersRoundTrip(x: string)
    ensures ',' !in Letters(x) && (Octets(x) ==> FromLetters(Letters(x)) == x)
  {
    if x != [] {
      LettersRoundTrip(x[1..]);
      var y := Letters(x);
      assert y[2..] == Letters(x[1..]);
      HeadTail(x);
      if Octets(x) {
        JoinedNibbles(x[0]);
      }
    }
  }

  lemma {:induction false} FromLettersOctets(y: string)
    ensures Octets(FromLetters(y))
  {
    if |y| >= 2 {
      FromLettersOctets(y[2..]);
    }
  }

  function Plain64(x: string): string { if x == "n,," then "biws" else "x" + Letters(x) }

  function Unplain64(y: string): Option<string> {
    if y == "biws" then Some("n,,") else if "x" <= y then Some(FromLetters(y[1..])) else None
  }

  lemma Plain64RoundTrip(x: string)
    ensures ',' !in Plain64(x) && Plain64(x) != [] && (Octets(x) ==> Unplain64(Plain64(x)) == Some(x))
  {
    LettersRoundTrip(x);
    var y := "x" + Letters(x);
    assert y[0] == 'x' && "biws"[0] == 'b' && y[1..] == Letters(x);
    assert "biws"[0] == 'b' && "biws"[1] == 'i' && "biws"[2] == 'w' && "biws"[3] == 's';
  }

  lemma UnplainIsOctets(y: string)
    ensures Unplain64(y).Some? ==> Octets(Unplain64(y).value)
  {
    if y != "biws" && "x" <= y {
      FromLettersOctets(y[1..]);
    }
  }

  /** The laws asked of hash, HMAC and base64 can be met. */
  lemma SoundExists() returns (c: Crypto)
    ensures c.Sound()
  {
    var encode, decode := x => Plain64(x), y => Unplain64(y);
    forall x ensures ',' !in encode(x) && encode(x) != [] && (Octets(x) ==> decode(encode(x)) == Some(x)) {
      Plain64RoundTrip(x);
    }
    forall y ensures decode(y).Some? ==> Octets(decode(y).value) {
      UnplainIsOctets(y);
    }
    var digest := ['h'];
    c := Crypto(1, _ => digest, (_, _) => digest, encode, decode);
  }

  // ---------------------------------------------------------------------- xor

  function Two(w: nat): (n: nat)
    ensures n > 0
  {
    if w == 0 then 1 else 2 * Two(w - 1)
  }

  lemma OctetRange()
    ensures Two(8) == 256
  {
    assert Two(4) == 16 && Two(6) == 64;
  }

  /** The exclusive or of the low `w` bits. */
  function XorBits(a: nat, b: nat, w: nat): (r: nat)
    ensures r < Two(w)
  {
    if w == 0 then 0 else (a + b) % 2 + 2 * XorBits(a / 2, b / 2, w - 1)
  }

  lemma LowBit(a: nat, b: nat, high: nat)
    ensures var r := (a + b) % 2 + 2 * high;
      r / 2 == high && (r + b) % 2 == a % 2
  {
    var bit := (a + b) % 2;
    assert bit + 2 * high + b == a + 2 * (high + b - (a + b) / 2);
  }

  lemma {:induction false} XorBitsTwice(a: nat, b: nat, w: nat)
    requires a < Two(w)
    ensures XorBits(XorBits(a, b, w), b, w) == a
  {
    if w != 0 {
      LowBit(a, b, XorBits(a / 2, b / 2, w - 1));
      XorBitsTwice(a / 2, b / 2, w - 1);
    }
  }

  function XorOctet(a: char, b: char): (r: char)
    requires a as int < 256 && b as int < 256
    ensures r as int < 256
  {
    OctetRange();
    XorBits(a as int, b as int, 8) as char
  }

  function Xor(a: string, b: string): (r: string)
    requires Octets(a) && Octets(b) && |a| <= |b|
    ensures Octets(r) && |r| == |a|
  {
    seq(|a|, i requires 0 <= i < |a| => XorOctet(a[i], b[i]))
  }

  lemma XorTwice(a: string, b: string)
    requires Octets(a) && Octets(b) && |a| <= |b|
    ensures Xor(Xor(a, b), b) == a
  {
    forall i | 0 <= i < |a| ensures Xor(Xor(a, b), b)[i] == a[i] {
      OctetRange();
      XorBitsTwice(a[i] as int, b[i] as int, 8);
    }
  }

  /** out[i] ^= b[i] for every index of `out`. */
  method XorInto(out: array<char>, b: string)
    requires Octets(out[..]) && Octets(b) && out.Length <= |b|
    modifies out
    ensures out[..] == Xor(old(out[..]), b)
  {
    ghost var was := out[..];
    for j := 0 to out.Length
      invariant out[j..] == was[j..]
      invariant forall k :: 0 <= k < j ==> out[k] == Xor(was, b)[k]
    {
      assert out[j] == out[j..][0] == was[j];
      out[j] := XorOctet(out[j], b[j]);
      assert out[j + 1..] == was[j..][1..];
    }
  }

  // --------------------------------------------------------------------- Hi()

  /** The n-th HMAC of the chain that starts at salt + INT(1). */
  function Link(c: Crypto, password: string, salt: string, n: nat): (r: string)
    requires c.Sound() && n >= 1
    ensures Octets(r) && |r| == c.size
  {
    c.hmac(password, if n == 1 then salt + "\0\0\0\U{1}" else Link(c, password, salt, n - 1))
  }

  /** Hi(password, salt, n): the exclusive or of the first n links (section 2.2 of RFC 5802). */
  function Hi(c: Crypto, password: string, salt: string, n: nat): (r: string)
    requires c.Sound() && n >= 1
    ensures Octets(r) && |r| == c.size
  {
    if n == 1 then Link(c, password, salt, 1)
    else Xor(Hi(c, password, salt, n - 1), Link(c, password, salt, n))
  }

  method DeriveKey(c: Crypto, password: string, salt: string, iterations: nat) returns (key: string)
    requires c.Sound() && iterations >= 1
    ensures key == Hi(c, password, salt, iterations)
  {
    var first := c.hmac(password, salt + "\0\0\0\U{1}");
    var out := new char[|first|](i requires 0 <= i < |first| => first[i]);
    var previous := first;
    assert out[..] == first;
    for i := 1 to iterations
      invariant out[..] == Hi(c, password, salt, i)
      invariant previous == Link(c, password, salt, i)
    {
      previous := c.hmac(password, previous);
      XorInto(out, previous);
    }
    return out[..];
  }
}
