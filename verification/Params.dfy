/** ESMTP parameters and the xtext encoding (internal/smtpwire/encoder.go, path.go). */
module Params {
  import opened Prelude
  import opened Commands

  /** `value` is empty for a parameter without one. */
  datatype Param = Param(keyword: string, value: string)

  predicate ValidKeyword(s: string) {
    && s != [] && IsAlnum(s[0])
    && forall i :: 0 <= i < |s| ==> IsAlnum(s[i]) || s[i] == '-'
  }

  predicate ValueChar(c: char) { '!' <= c <= '~' && c != '=' }

  predicate ValidValue(s: string) {
    s != [] && forall i :: 0 <= i < |s| ==> ValueChar(s[i])
  }

  function EncodeParam(p: Param): Option<string> {
    if !ValidKeyword(p.keyword) then None
    else if p.value == [] then Some(p.keyword)
    else if !ValidValue(p.value) then None
    else Some(p.keyword + "=" + p.value)
  }

  /** One field, cut at its first equals sign. */
  function DecodeParam(field: string): Option<Param> {
    var at := IndexOf(field, '=');
    var keyword := field[..at];
    if !ValidKeyword(keyword) then None
    else if at == |field| then Some(Param(keyword, []))
    else if !ValidValue(field[at + 1..]) then None
    else Some(Param(keyword, field[at + 1..]))
  }

  predicate IsSpace(c: char) { c == ' ' || '\t' <= c <= '\r' }

  function SkipSpaces(s: string): string {
    if s != [] && IsSpace(s[0]) then SkipSpaces(s[1..]) else s
  }

  function TokenLength(s: string): (n: nat)
    ensures n <= |s|
  {
    if s == [] || IsSpace(s[0]) then 0 else 1 + TokenLength(s[1..])
  }

  lemma {:induction false} SkipSpacesShortens(s: string)
    ensures |SkipSpaces(s)| <= |s|
    ensures SkipSpaces(s) != [] ==> !IsSpace(SkipSpaces(s)[0])
  {
    if s != [] && IsSpace(s[0]) {
      SkipSpacesShortens(s[1..]);
    }
  }

  /** The maximal runs without white space. */
  function Fields(s: string): seq<string>
    decreases |s|
  {
    SkipSpacesShortens(s);
    var t := SkipSpaces(s);
    if t == [] then [] else [t[..TokenLength(t)]] + Fields(t[TokenLength(t)..])
  }

  predicate IsToken(s: string) {
    s != [] && forall i :: 0 <= i < |s| ==> !IsSpace(s[i])
  }

  lemma {:induction false} TokenLengthOf(token: string, rest: string)
    requires (forall i :: 0 <= i < |token| ==> !IsSpace(token[i])) && (rest == [] || IsSpace(rest[0]))
    ensures TokenLength(token + rest) == |token|
  {
    if token == [] {
      AppendEmpty(rest);
    } else {
      DropAppend(token, rest, 1);
      TokenLengthOf(token[1..], rest);
    }
  }

  lemma FieldsOfFirst(token: string, rest: string)
    requires IsToken(token) && (rest == [] || IsSpace(rest[0]))
    ensures Fields(token + rest) == [token] + Fields(rest)
  {
    var t := token + rest;
    assert SkipSpaces(t) == t;
    TokenLengthOf(token, rest);
    assert t[..|token|] == token && t[|token|..] == rest;
  }

  lemma FieldsOfNext(token: string, rest: string)
    requires IsToken(token) && (rest == [] || IsSpace(rest[0]))
    ensures Fields(" " + token + rest) == [token] + Fields(rest)
  {
    var s, t := " " + token + rest, token + rest;
    assert s[1..] == t && SkipSpaces(s) == SkipSpaces(t) == t;
    FieldsOfFirst(token, rest);
  }

  lemma {:induction false} FieldsOfJoin(tokens: seq<string>)
    requires forall i :: 0 <= i < |tokens| ==> IsToken(tokens[i])
    ensures Fields(Join(tokens)) == tokens
  {
    if tokens != [] {
      FieldsOfJoin(tokens[1..]);
      FieldsOfNext(tokens[0], Join(tokens[1..]));
      HeadTail(tokens);
    }
  }

  function DecodeAll(fields: seq<string>): Option<seq<Param>> {
    if fields == [] then Some([])
    else
      match (DecodeParam(fields[0]), DecodeAll(fields[1..]))
      case (Some(p), Some(ps)) => Some([p] + ps)
      case _ => None
  }

  /** The trailing parameters of a path argument. */
  function ParseParams(suffix: string): Option<seq<Param>> {
    if suffix == [] then Some([])
    else if suffix[0] != ' ' || exists i :: 0 <= i < |suffix| && suffix[i] in "\r\n\0\t" then None
    else DecodeAll(Fields(suffix))
  }

  predicate Encodable(params: seq<Param>) {
    forall i :: 0 <= i < |params| ==> EncodeParam(params[i]).Some?
  }

  function EncodeAll(params: seq<Param>): seq<string>
    requires Encodable(params)
  {
    seq(|params|, i requires 0 <= i < |params| => EncodeParam(params[i]).value)
  }

  lemma ParamRoundTrip(p: Param)
    requires EncodeParam(p).Some?
    ensures DecodeParam(EncodeParam(p).value) == Some(p)
    ensures IsToken(EncodeParam(p).value) && ControlFree(EncodeParam(p).value)
  {
    var k, field := p.keyword, EncodeParam(p).value;
    IndexOfUnique(field, '=', |k|);
    if p.value == [] {
      TakeWhole(k);
    } else {
      assert field[..|k|] == k && field[|k| + 1..] == p.value;
      assert forall i :: 0 <= i < |field| ==>
        IsAlnum(field[i]) || field[i] == '-' || field[i] == '=' || ValueChar(field[i]);
    }
  }

  lemma {:induction false} DecodeEncoded(params: seq<Param>)
    requires Encodable(params)
    ensures DecodeAll(EncodeAll(params)) == Some(params)
  {
    if params != [] {
      ParamRoundTrip(params[0]);
      DecodeEncoded(params[1..]);
      assert EncodeAll(params)[1..] == EncodeAll(params[1..]);
      HeadTail(params);
    }
  }

  /** Every list of parameters the encoder accepts is parsed back, in order. */
  lemma ParamsRoundTrip(params: seq<Param>)
    requires Encodable(params)
    ensures ParseParams(Join(EncodeAll(params))) == Some(params)
    ensures ControlFree(Join(EncodeAll(params)))
  {
    var fields := EncodeAll(params);
    forall i | 0 <= i < |fields| ensures IsToken(fields[i]) && ControlFree(fields[i]) {
      ParamRoundTrip(params[i]);
    }
    JoinIsControlFree(fields);
    FieldsOfJoin(fields);
    DecodeEncoded(params);
  }

  // -------------------------------------------------------------------- xtext

  datatype XtextError = TruncatedEscape | InvalidEscape | InvalidChar

  const HEX := "0123456789ABCDEF"

  predicate NeedsEscape(c: char) { c == '+' || c == '=' || c < '!' || c > '~' }

  function HexVal(c: char): Option<nat> {
    if '0' <= c <= '9' then Some((c - '0') as nat)
    else if 'A' <= c <= 'F' then Some((c - 'A') as nat + 10)
    else if 'a' <= c <= 'f' then Some((c - 'a') as nat + 10)
    else None
  }

  function EncodeOctet(c: char): string
    requires c as int < 256
  {
    if NeedsEscape(c) then ['+', HEX[c as int / 16], HEX[c as int % 16]] else [c]
  }

  function Xtext(raw: string): string
    requires Octets(raw)
  {
    if raw == [] then [] else Xtext(raw[..|raw| - 1]) + EncodeOctet(raw[|raw| - 1])
  }

  method EncodeXtext(raw: string) returns (b: string)
    requires Octets(raw)
    ensures b == Xtext(raw)
  {
    b := [];
    for i := 0 to |raw|
      invariant b == Xtext(raw[..i])
    {
      assert raw[..i + 1][..i] == raw[..i];
      b := b + EncodeOctet(raw[i]);
    }
    TakeWhole(raw);
  }

  /** Reads one octet at a time; an escape takes three. */
  function Unxtext(s: string): Result<string, XtextError> {
    if s == [] then Ok([])
    else if s[0] == '+' then
      if |s| < 3 then Err(TruncatedEscape)
      else
        match (HexVal(s[1]), HexVal(s[2]))
        case (Some(hi), Some(lo)) => Then((hi * 16 + lo) as char, Unxtext(s[3..]))
        case _ => Err(InvalidEscape)
    else if s[0] < '!' || s[0] > '~' then Err(InvalidChar)
    else Then(s[0], Unxtext(s[1..]))
  }

  function Then(c: char, r: Result<string, XtextError>): Result<string, XtextError> {
    match r case Ok(s) => Ok([c] + s) case Err(e) => Err(e)
  }

  method DecodeXtext(s: string) returns (r: Result<string, XtextError>)
    ensures r == Unxtext(s)
  {
    var b, i := [], 0;
    assert s[0..] == s;
    if Unxtext(s).Ok? {
      AppendEmpty(Unxtext(s).value);
    }
    while i < |s|
      invariant 0 <= i <= |s|
      invariant Unxtext(s) == Preceded(b, Unxtext(s[i..]))
    {
      var c := s[i];
      if c == '+' {
        if i + 2 >= |s| {
          return Err(TruncatedEscape);
        }
        var hi, lo := HexVal(s[i + 1]), HexVal(s[i + 2]);
        if hi.None? || lo.None? {
          return Err(InvalidEscape);
        }
        c := (hi.value * 16 + lo.value) as char;
        assert s[i..][3..] == s[i + 3..];
        PrecededThen(b, c, Unxtext(s[i + 3..]));
        b, i := b + [c], i + 3;
      } else {
        if c < '!' || c > '~' {
          return Err(InvalidChar);
        }
        assert s[i..][1..] == s[i + 1..];
        PrecededThen(b, c, Unxtext(s[i + 1..]));
        b, i := b + [c], i + 1;
      }
    }
    AppendEmpty(b);
    return Ok(b);
  }

  function Preceded(b: string, r: Result<string, XtextError>): Result<string, XtextError> {
    match r case Ok(s) => Ok(b + s) case Err(e) => Err(e)
  }

  lemma PrecededThen(b: string, c: char, r: Result<string, XtextError>)
    ensures Preceded(b, Then(c, r)) == Preceded(b + [c], r)
  {
    if r.Ok? {
      Assoc(b, [c], r.value);
    }
  }

  lemma UnxtextOctet(c: char, rest: string)
    requires c as int < 256
    ensures Unxtext(EncodeOctet(c) + rest) == Then(c, Unxtext(rest))
    ensures forall i :: 0 <= i < |EncodeOctet(c)| ==> ValueChar(EncodeOctet(c)[i])
  {
    var s := EncodeOctet(c) + rest;
    if NeedsEscape(c) {
      HexDigits(c as int / 16);
      HexDigits(c as int % 16);
      assert s[3..] == rest;
    } else {
      assert s[1..] == rest;
    }
  }

  lemma HexDigits(n: nat)
    requires n < 16
    ensures HexVal(HEX[n]) == Some(n) && ValueChar(HEX[n])
  {
  }

  lemma {:induction false} UnxtextAppended(raw: string, rest: string)
    requires Octets(raw)
    ensures Unxtext(Xtext(raw) + rest) == Preceded(raw, Unxtext(rest))
  {
    if raw == [] {
      AppendEmpty(rest);
      if Unxtext(rest).Ok? {
        AppendEmpty(Unxtext(rest).value);
      }
    } else {
      var n := |raw| - 1;
      Assoc(Xtext(raw[..n]), EncodeOctet(raw[n]), rest);
      UnxtextAppended(raw[..n], EncodeOctet(raw[n]) + rest);
      UnxtextOctet(raw[n], rest);
      PrecededThen(raw[..n], raw[n], Unxtext(rest));
      MostLast(raw);
    }
  }

  /** Decoding undoes encoding for every octet string. */
  lemma XtextRoundTrip(raw: string)
    requires Octets(raw)
    ensures Unxtext(Xtext(raw)) == Ok(raw)
  {
    UnxtextAppended(raw, []);
    AppendEmpty(Xtext(raw));
    AppendEmpty(raw);
  }

  /** An encoded string is always a valid parameter value. */
  lemma {:induction false} XtextIsValue(raw: string)
    requires Octets(raw)
    ensures forall i :: 0 <= i < |Xtext(raw)| ==> ValueChar(Xtext(raw)[i])
    ensures raw != [] ==> ValidValue(Xtext(raw))
  {
    if raw != [] {
      XtextIsValue(raw[..|raw| - 1]);
      UnxtextOctet(raw[|raw| - 1], []);
    }
  }
}
