/** Reverse-path and forward-path arguments (internal/smtpwire/path.go). */
module Paths {
  import opened Prelude
  import opened Commands
  import opened Params

  datatype PathError =
    | PathPrefix | PathSyntax | PathTooLong | UTF8Required | NullForwardPath | PathParameter

  datatype Path = Path(mailbox: string, local: string, domain: string, isNull: bool, postmaster: bool,
                       params: seq<Param>)

  /** The character-level checks on addresses that this model leaves open. */
  datatype Checks = Checks(
    validUTF8: string -> bool,
    validLocal: (string, bool) -> Option<PathError>,
    validDomain: (string, bool) -> Option<PathError>)

  datatype Options = Options(smtpUTF8: bool, maxLength: nat)

  // -------------------------------------------------------------- closing angle

  /** Where an octet stands with respect to quoted strings. */
  datatype Quoting = Outside | Inside | Escaped

  /** The quoting in force before position `i`. */
  function QuotingAt(text: string, i: nat): Quoting
    requires i <= |text|
  {
    if i == 0 then Outside
    else
      var c := text[i - 1];
      match QuotingAt(text, i - 1)
      case Outside => if c == '"' then Inside else Outside
      case Inside => if c == '\\' then Escaped else if c == '"' then Outside else Inside
      case Escaped => Inside
  }

  /** There is an octet `c` outside quotes at `k`. */
  predicate Bare(text: string, k: nat, c: char) { k < |text| && text[k] == c && QuotingAt(text, k) == Outside }

  /** An opening bracket before `i` has not been closed. */
  ghost predicate InLiteral(text: string, i: nat) {
    exists j: nat :: j < i && Bare(text, j, '[') && forall k: nat :: j < k < i ==> !Bare(text, k, ']')
  }

  /** The angle bracket at `k` ends the path. */
  ghost predicate Ends(text: string, k: nat) { Bare(text, k, '>') && !InLiteral(text, k) }

  /** What finding the closing angle means: the first that ends the path after the opening one. */
  ghost predicate ClosesAt(rest: string, r: Option<nat>) {
    var text := if rest == "" then "" else rest[1..];
    match r
    case None => forall k :: !Ends(text, k)
    case Some(at) => at >= 1 && Ends(text, at - 1) && forall k :: Ends(text, k) ==> at - 1 <= k
  }

  /** What the scanner remembers between two octets. */
  datatype Scan = Scan(quoted: bool, escaped: bool, literal: bool)

  function Step(s: Scan, c: char): Scan {
    if s.escaped then s.(escaped := false)
    else if s.quoted then
      if c == '\\' then s.(escaped := true) else if c == '"' then s.(quoted := false) else s
    else if c == '"' then s.(quoted := true)
    else if c == '[' then s.(literal := true)
    else if c == ']' then s.(literal := false)
    else s
  }

  predicate Closes(s: Scan, c: char) { c == '>' && !s.escaped && !s.quoted && !s.literal }

  /** The first position from `i` on where a closing angle bracket ends the path. */
  function ClosingFrom(rest: string, i: nat, s: Scan): (r: Option<nat>)
    ensures r.Some? ==> i <= r.value < |rest|
    decreases |rest| - i
  {
    if i >= |rest| then None
    else if Closes(s, rest[i]) then Some(i)
    else ClosingFrom(rest, i + 1, Step(s, rest[i]))
  }

  function ClosingAngle(rest: string): Option<nat> { ClosingFrom(rest, 1, Scan(false, false, false)) }

  /** One more octet opens, closes or keeps a literal. */
  lemma LiteralStep(text: string, i: nat)
    requires i < |text|
    ensures InLiteral(text, i + 1) <==> Bare(text, i, '[') || (InLiteral(text, i) && !Bare(text, i, ']'))
  {
    if Bare(text, i, '[') {
      assert InLiteral(text, i + 1);
    } else if InLiteral(text, i) && !Bare(text, i, ']') {
      var j: nat :| j < i && Bare(text, j, '[') && forall k: nat :: j < k < i ==> !Bare(text, k, ']');
      assert forall k: nat :: j < k < i + 1 ==> !Bare(text, k, ']');
    }
  }

  predicate Scanned(text: string, i: nat, s: Scan)
    requires i <= |text|
  {
    && (s.escaped ==> s.quoted)
    && QuotingAt(text, i) == if s.escaped then Escaped else if s.quoted then Inside else Outside
  }

  lemma {:induction false} ClosingMeans(rest: string, i: nat, s: Scan)
    requires 1 <= i <= |rest| && Scanned(rest[1..], i - 1, s) && (s.literal <==> InLiteral(rest[1..], i - 1))
    requires forall k :: Ends(rest[1..], k) ==> i - 1 <= k
    ensures ClosesAt(rest, ClosingFrom(rest, i, s))
    decreases |rest| - i
  {
    if i < |rest| && !Closes(s, rest[i]) {
      assert rest[1..][i - 1] == rest[i];
      LiteralStep(rest[1..], i - 1);
      ClosingMeans(rest, i + 1, Step(s, rest[i]));
    }
  }

  lemma ClosingAngleMeans(rest: string)
    ensures ClosesAt(rest, ClosingAngle(rest))
  {
    if rest == "" {
      assert forall k :: !Ends("", k);
    } else {
      ClosingMeans(rest, 1, Scan(false, false, false));
    }
  }

  method PathClosingAngle(rest: string) returns (r: Option<nat>)
    ensures ClosesAt(rest, r)
    ensures r == ClosingAngle(rest)
  {
    ClosingAngleMeans(rest);
    var quoted, escaped, literal := false, false, false;
    var i := 1;
    while i < |rest|
      invariant 1 <= i && ClosingAngle(rest) == ClosingFrom(rest, i, Scan(quoted, escaped, literal))
    {
      var c := rest[i];
      if escaped {
        escaped := false;
      } else if quoted {
        if c == '\\' {
          escaped := true;
        } else if c == '"' {
          quoted := false;
        }
      } else {
        match c {
          case '"' => quoted := true;
          case '[' => literal := true;
          case ']' => literal := false;
          case '>' =>
            if !literal {
              return Some(i);
            }
          case _ =>
        }
      }
      i := i + 1;
    }
    return None;
  }

  lemma {:induction false} ClosingIgnoresSuffix(rest: string, suffix: string, i: nat, s: Scan)
    requires ClosingFrom(rest, i, s).Some?
    ensures ClosingFrom(rest + suffix, i, s) == ClosingFrom(rest, i, s)
    decreases |rest| - i
  {
    if !Closes(s, rest[i]) {
      ClosingIgnoresSuffix(rest, suffix, i + 1, Step(s, rest[i]));
    }
  }

  // -------------------------------------------------------------- the mailbox

  /** The at sign that separates local part and domain: none, one, or a syntax error. */
  function AtFrom(mailbox: string, i: nat, quoted: bool, escaped: bool, at: Option<nat>)
    : (r: Result<Option<nat>, PathError>)
    requires at.Some? ==> at.value < |mailbox|
    ensures r.Ok? && r.value.Some? ==> r.value.value < |mailbox|
    decreases |mailbox| - i
  {
    if i >= |mailbox| then (if quoted || escaped then Err(PathSyntax) else Ok(at))
    else
      var c := mailbox[i];
      if escaped then AtFrom(mailbox, i + 1, quoted, false, at)
      else if quoted then AtFrom(mailbox, i + 1, c != '"', c == '\\', at)
      else if c == '"' then AtFrom(mailbox, i + 1, true, false, at)
      else if c == '@' then
        if at.Some? then Err(PathSyntax) else AtFrom(mailbox, i + 1, false, false, Some(i))
      else AtFrom(mailbox, i + 1, false, false, at)
  }

  /** There is an at sign outside quotes at `k`. */
  predicate Separates(mailbox: string, k: nat) { Bare(mailbox, k, '@') }

  /** Every quoted string is closed. */
  predicate QuotesClose(mailbox: string) { QuotingAt(mailbox, |mailbox|) == Outside }

  /** What splitting means: the only at sign outside quotes, none, or a fault: an open quoted
      string or two at signs. */
  ghost predicate SplitsAt(mailbox: string, r: Result<Option<nat>, PathError>) {
    match r
    case Ok(Some(k)) => QuotesClose(mailbox) && Separates(mailbox, k) && forall j :: Separates(mailbox, j) ==> j == k
    case Ok(None) => QuotesClose(mailbox) && forall j :: !Separates(mailbox, j)
    case Err(e) =>
      && e == PathSyntax
      && (!QuotesClose(mailbox) || exists j, k :: j < k && Separates(mailbox, j) && Separates(mailbox, k))
  }

  lemma {:induction false} AtFromMeans(mailbox: string, i: nat, quoted: bool, escaped: bool, at: Option<nat>)
    requires i <= |mailbox| && (escaped ==> quoted)
    requires QuotingAt(mailbox, i) == if escaped then Escaped else if quoted then Inside else Outside
    requires forall j: nat :: (j < i && Separates(mailbox, j)) <==> at == Some(j)
    ensures at.Some? ==> at.value < |mailbox|
    ensures SplitsAt(mailbox, AtFrom(mailbox, i, quoted, escaped, at))
    decreases |mailbox| - i
  {
    if at.Some? {
      assert Separates(mailbox, at.value);
    }
    if i < |mailbox| {
      var c := mailbox[i];
      if escaped {
        AtFromMeans(mailbox, i + 1, quoted, false, at);
      } else if quoted {
        AtFromMeans(mailbox, i + 1, c != '"', c == '\\', at);
      } else if c == '"' {
        AtFromMeans(mailbox, i + 1, true, false, at);
      } else if c == '@' {
        assert Separates(mailbox, i);
        if at.None? {
          AtFromMeans(mailbox, i + 1, false, false, Some(i));
        }
      } else {
        AtFromMeans(mailbox, i + 1, false, false, at);
      }
    }
  }

  method SplitMailbox(mailbox: string) returns (r: Result<Option<nat>, PathError>)
    ensures SplitsAt(mailbox, r)
    ensures r == AtFrom(mailbox, 0, false, false, None)
  {
    AtFromMeans(mailbox, 0, false, false, None);
    var quoted, escaped := false, false;
    var at: Option<nat> := None;
    var i := 0;
    while i < |mailbox|
      invariant 0 <= i && (at.Some? ==> at.value < |mailbox|)
      invariant AtFrom(mailbox, 0, false, false, None) == AtFrom(mailbox, i, quoted, escaped, at)
    {
      var c := mailbox[i];
      if escaped {
        escaped := false;
      } else if quoted {
        escaped := c == '\\';
        quoted := c != '"';
      } else if c == '"' {
        quoted := true;
      } else if c == '@' {
        if at.Some? {
          return Err(PathSyntax);
        }
        at := Some(i);
      }
      i := i + 1;
    }
    return if quoted || escaped then Err(PathSyntax) else Ok(at);
  }

  function Upper(c: char): char { if 'a' <= c <= 'z' then c - 'a' + 'A' else c }

  predicate EqualFold(a: string, b: string) {
    |a| == |b| && forall i :: 0 <= i < |a| ==> Upper(a[i]) == Upper(b[i])
  }

  predicate HasHighByte(s: string) { exists i :: 0 <= i < |s| && s[i] as int >= 128 }

  /** The colon that ends a source route, outside any address literal. */
  function RouteColon(s: string, i: nat, literal: bool): (r: Option<nat>)
    ensures r.Some? ==> r.value < |s|
    decreases |s| - i
  {
    if i >= |s| then None
    else if s[i] == ':' && !literal then Some(i)
    else RouteColon(s, i + 1, s[i] == '[' || (literal && s[i] != ']'))
  }

  function CheckHops(hops: seq<string>, utf8: bool, checks: Checks): Option<PathError> {
    if hops == [] then None
    else if |hops[0]| < 2 || hops[0][0] != '@' then Some(PathSyntax)
    else
      match checks.validDomain(hops[0][1..], utf8)
      case Some(e) => Some(e)
      case None => CheckHops(hops[1..], utf8, checks)
  }

  function DiscardSourceRoute(mailbox: string, utf8: bool, checks: Checks): Result<string, PathError>
    requires mailbox != []
  {
    if mailbox[0] != '@' then Ok(mailbox)
    else
      match RouteColon(mailbox, 0, false)
      case None => Err(PathSyntax)
      case Some(colon) =>
        if colon + 1 >= |mailbox| then Err(PathSyntax)
        else
          match CheckHops(SplitOn(mailbox[..colon], ','), utf8, checks)
          case Some(e) => Err(e)
          case None => Ok(mailbox[colon + 1..])
  }

  /** The address between the angle brackets, checked and split. */
  function ParseMailbox(raw: string, params: seq<Param>, allowPostmaster: bool, utf8: bool, checks: Checks)
    : Result<Path, PathError>
    requires raw != []
  {
    match ParseAddress(raw, allowPostmaster, utf8, checks)
    case Err(e) => Err(e)
    case Ok(path) => Ok(path.(params := params))
  }

  /** The same without parameters. */
  function ParseAddress(raw: string, allowPostmaster: bool, utf8: bool, checks: Checks): (r: Result<Path, PathError>)
    requires raw != []
    ensures r.Ok? ==> r.value.params == []
  {
    if !checks.validUTF8(raw) then Err(PathSyntax)
    else if !utf8 && HasHighByte(raw) then Err(UTF8Required)
    else
      match DiscardSourceRoute(raw, utf8, checks)
      case Err(e) => Err(e)
      case Ok(mailbox) =>
        match AtFrom(mailbox, 0, false, false, None)
        case Err(e) => Err(e)
        case Ok(at) =>
          var local := if at.None? then mailbox else mailbox[..at.value];
          var domain := if at.None? then [] else mailbox[at.value + 1..];
          if allowPostmaster && EqualFold(local, "Postmaster") && (at.None? || domain != []) then
            if at.Some? && checks.validDomain(domain, utf8).Some? then Err(checks.validDomain(domain, utf8).value)
            else Ok(Path(mailbox, local, domain, false, true, []))
          else if at.None? || domain == [] then Err(PathSyntax)
          else
            match (checks.validLocal(local, utf8), checks.validDomain(domain, utf8))
            case (Some(e), _) => Err(e)
            case (None, Some(e)) => Err(e)
            case (None, None) => Ok(Path(mailbox, local, domain, false, false, []))
  }

  /** A MAIL (`FROM:`) or RCPT (`TO:`) argument. */
  function ParsePath(argument: string, prefix: string, allowNull: bool, allowPostmaster: bool,
                           options: Options, checks: Checks): Result<Path, PathError> {
    if |argument| < |prefix| || !EqualFold(argument[..|prefix|], prefix) then Err(PathPrefix)
    else
      var rest := TrimLeft(argument[|prefix|..]);
      if rest == [] || rest[0] != '<' then Err(PathSyntax)
      else
        match ClosingAngle(rest)
        case None => Err(PathSyntax)
        case Some(close) =>
          if close + 1 > (if options.maxLength == 0 then 4096 else options.maxLength) then Err(PathTooLong)
          else
            match ParseParams(rest[close + 1..])
            case None => Err(PathParameter)
            case Some(params) =>
              if close == 1 then
                (if allowNull then Ok(Path([], [], [], true, false, params)) else Err(NullForwardPath))
              else ParseMailbox(rest[1..close], params, allowPostmaster, options.smtpUTF8, checks)
  }

  // --------------------------------------------------------------- round trips

  function Bracketed(mailbox: string): string { "<" + mailbox + ">" }

  predicate NoAngles(s: string) { forall i :: 0 <= i < |s| ==> s[i] != '<' && s[i] != '>' }

  lemma {:induction false} ClosesOnlyAtAngle(rest: string, i: nat, s: Scan)
    requires ClosingFrom(rest, i, s).Some?
    ensures rest[ClosingFrom(rest, i, s).value] == '>'
    decreases |rest| - i
  {
    if !Closes(s, rest[i]) {
      ClosesOnlyAtAngle(rest, i + 1, Step(s, rest[i]));
    }
  }

  lemma ClosingOfBracketed(mailbox: string, suffix: string)
    requires NoAngles(mailbox) && ClosingAngle(Bracketed(mailbox)).Some?
    ensures ClosingAngle(Bracketed(mailbox) + suffix) == Some(|mailbox| + 1)
  {
    var b := Bracketed(mailbox);
    ClosesOnlyAtAngle(b, 1, Scan(false, false, false));
    assert forall k :: 1 <= k <= |mailbox| ==> b[k] == mailbox[k - 1];
    ClosingIgnoresSuffix(b, suffix, 1, Scan(false, false, false));
  }

  lemma ParseMailboxKeepsParams(raw: string, params: seq<Param>, allowPostmaster: bool, utf8: bool, checks: Checks)
    requires raw != []
    ensures match ParseMailbox(raw, [], allowPostmaster, utf8, checks)
            case Ok(path) =>
              && ParseMailbox(raw, params, allowPostmaster, utf8, checks) == Ok(path.(params := params))
              && (raw[0] != '@' ==> path.mailbox == raw)
            case Err(e) => ParseMailbox(raw, params, allowPostmaster, utf8, checks) == Err(e)
  {
    AddressIsKept(raw, allowPostmaster, utf8, checks);
  }

  /** Without a source route the mailbox is the address as it was written. */
  lemma AddressIsKept(raw: string, allowPostmaster: bool, utf8: bool, checks: Checks)
    requires raw != []
    ensures var r := ParseAddress(raw, allowPostmaster, utf8, checks);
      r.Ok? && raw[0] != '@' ==> r.value.mailbox == raw
  {
  }

  lemma ParseBracketed(prefix: string, mailbox: string, suffix: string, allowNull: bool, allowPostmaster: bool,
                       options: Options, checks: Checks)
    requires NoAngles(mailbox) && ClosingAngle(Bracketed(mailbox)).Some?
    requires |mailbox| + 2 <= if options.maxLength == 0 then 4096 else options.maxLength
    ensures ParsePath(prefix + Bracketed(mailbox) + suffix, prefix, allowNull, allowPostmaster, options, checks)
         == match ParseParams(suffix)
            case None => Err(PathParameter)
            case Some(params) =>
              if mailbox == [] then
                (if allowNull then Ok(Path([], [], [], true, false, params)) else Err(NullForwardPath))
              else ParseMailbox(mailbox, params, allowPostmaster, options.smtpUTF8, checks)
  {
    ArgumentParts(prefix, mailbox, suffix);
    ClosingOfBracketed(mailbox, suffix);
  }

  lemma ArgumentParts(prefix: string, mailbox: string, suffix: string)
    ensures var rest := Bracketed(mailbox) + suffix;
            var argument := prefix + Bracketed(mailbox) + suffix;
            && argument[..|prefix|] == prefix && argument[|prefix|..] == rest && TrimLeft(rest) == rest
            && rest[0] == '<' && rest[|mailbox| + 2..] == suffix && rest[1..|mailbox| + 1] == mailbox
            && EqualFold(argument[..|prefix|], prefix)
  {
    Assoc(prefix, Bracketed(mailbox), suffix);
    var rest := Bracketed(mailbox) + suffix;
    assert (prefix + rest)[..|prefix|] == prefix && (prefix + rest)[|prefix|..] == rest;
    assert rest[|mailbox| + 2..] == suffix && rest[1..|mailbox| + 1] == mailbox;
  }

  /** Parameters appended to an argument the parser accepts come back with the same path. */
  lemma PathRoundTrip(prefix: string, mailbox: string, params: seq<Param>, allowNull: bool, allowPostmaster: bool,
                      options: Options, checks: Checks)
    requires NoAngles(mailbox) && Encodable(params)
    requires ParsePath(prefix + Bracketed(mailbox), prefix, allowNull, allowPostmaster, options, checks).Ok?
    ensures var bare := ParsePath(prefix + Bracketed(mailbox), prefix, allowNull, allowPostmaster, options,
                                  checks).value;
            && ParsePath(prefix + Bracketed(mailbox) + Join(EncodeAll(params)), prefix, allowNull, allowPostmaster,
                         options, checks)
               == Ok(bare.(params := params))
            && (mailbox == [] || mailbox[0] != '@' ==> bare.mailbox == mailbox)
  {
    BareArgument(prefix, mailbox, allowNull, allowPostmaster, options, checks);
    ParseBracketed(prefix, mailbox, [], allowNull, allowPostmaster, options, checks);
    ParseBracketed(prefix, mailbox, Join(EncodeAll(params)), allowNull, allowPostmaster, options, checks);
    ParamsRoundTrip(params);
    if mailbox != [] {
      ParseMailboxKeepsParams(mailbox, params, allowPostmaster, options.smtpUTF8, checks);
    }
  }

  lemma BareArgument(prefix: string, mailbox: string, allowNull: bool, allowPostmaster: bool,
                     options: Options, checks: Checks)
    requires NoAngles(mailbox)
    requires ParsePath(prefix + Bracketed(mailbox), prefix, allowNull, allowPostmaster, options, checks).Ok?
    ensures prefix + Bracketed(mailbox) + [] == prefix + Bracketed(mailbox)
    ensures ClosingAngle(Bracketed(mailbox)).Some?
    ensures |mailbox| + 2 <= if options.maxLength == 0 then 4096 else options.maxLength
  {
    AppendEmpty(prefix + Bracketed(mailbox));
    AppendEmpty(Bracketed(mailbox));
    ArgumentParts(prefix, mailbox, []);
    ClosingOfBracketed(mailbox, []);
  }

  lemma JoinTail(arg: string, fields: seq<string>)
    ensures Join([arg] + fields)[1..] == arg + Join(fields)
  {
    assert ([arg] + fields)[1..] == fields;
    assert (" " + arg + Join(fields))[1..] == arg + Join(fields);
  }

  /** From the client's MAIL or RCPT call to the server's parsed path, over the wire. */
  lemma EnvelopeRoundTrip(verb: string, prefix: string, mailbox: string, params: seq<Param>,
                          allowNull: bool, allowPostmaster: bool, options: Options, checks: Checks,
                          rest: string, max: nat)
    requires ValidVerb(verb) && prefix != [] && prefix[0] != ' ' && NoAngles(mailbox) && Encodable(params)
    requires ParsePath(prefix + Bracketed(mailbox), prefix, allowNull, allowPostmaster, options, checks).Ok?
    requires Encoded(verb, [prefix + Bracketed(mailbox)] + EncodeAll(params)).Some?
    requires |Encoded(verb, [prefix + Bracketed(mailbox)] + EncodeAll(params)).value| <= max
    ensures var bare := ParsePath(prefix + Bracketed(mailbox), prefix, allowNull, allowPostmaster, options,
                                  checks).value;
            var read := ReadCommand(Encoded(verb, [prefix + Bracketed(mailbox)] + EncodeAll(params)).value + rest, max);
            && read.Got? && read.value.verb == verb && read.rest == rest
            && ParsePath(read.value.argument, prefix, allowNull, allowPostmaster, options,
                         checks) == Ok(bare.(params := params))
            && (mailbox == [] || mailbox[0] != '@' ==> bare.mailbox == mailbox)
  {
    var arg, fields := prefix + Bracketed(mailbox), EncodeAll(params);
    CommandRoundTrip(verb, [arg] + fields, rest, max);
    JoinTail(arg, fields);
    PathRoundTrip(prefix, mailbox, params, allowNull, allowPostmaster, options, checks);
  }
}
