/**
 The endpoint grammar as its documentation tells it (src/FacadeEndpoint.h), a
 relation between texts and endpoints written without the parser: which texts
 are accepted in either mode, and what each of them denotes.
 */
module Grammar {
  import opened Text
  import opened Decimal
  import opened Endpoint

  /** But for the white space around it the text is token:target or token://target. */
  predicate Spells(env: Platform, text: string, token: string, target: string) {
    && token != "" && ':' !in token
    && (|| Trim(env.space, text) == token + "://" + target
        || (Trim(env.space, text) == token + ":" + target && !("//" <= target)))
  }

  /** The family a tcp token names; plain tcp names none and leaves it to the host. */
  predicate NamesFamily(token: string, named: Option<Family>) {
    match named
    case None => EqFold(token, "tcp")
    case Some(IPv4) => EqFold(token, "tcp4") || EqFold(token, "ipv4")
    case Some(IPv6) => EqFold(token, "tcp6") || EqFold(token, "ipv6")
    case Some(Dual) => EqFold(token, "tcp46")
  }

  /** A literal in brackets, or a host that cannot be taken for one. */
  predicate HostPort(target: string, host: string, port: string, bracketed: bool) {
    if bracketed
    then target == "[" + host + "]:" + port && host != "" && ']' !in host
    else target == host + ":" + port && !("[" <= host) && ':' !in host && ']' !in host
  }

  /** Decimal digits, any number of leading zeroes included. */
  predicate Number(text: string, max: nat, num: nat) {
    text != "" && AllDigits(text) && Value(text) == num && 1 <= num <= max
  }

  /** An address, and after a percent sign the zone it is in. */
  predicate Zoned(env: Platform, host: string) {
    exists i :: 0 <= i < |host| - 1 && host[i] == '%' && '%' !in host[..i] && env.v6(host[..i]).Some?
  }

  /**
   A listen picks no interface.  All it may say is which any-address it means:
   an empty host or a star for the family of the token, 0.0.0.0 for IPv4, and the
   all-zeroes literal for IPv6 or, under plain tcp, for every address there is.
   */
  predicate ListensOn(env: Platform, named: Option<Family>, host: string, bracketed: bool, family: Family) {
    if bracketed then
      && '%' !in host && env.v6(host).Some? && (forall byte :: byte in env.v6(host).value ==> byte == 0)
      && family != IPv4 && (if named == None then family == Dual else named == Some(family))
    else
      && (host == "" || host == "*" || (host == "0.0.0.0" && family == IPv4))
      && (if named == None then family == IPv4 else named == Some(family))
  }

  /** A dial needs somewhere to go; brackets hold an IPv6 literal, which IPv4 cannot dial, nor IPv6 a dotted quad. */
  predicate DialsTo(env: Platform, named: Option<Family>, host: string, bracketed: bool, family: Family) {
    && host != ""
    && (bracketed ==> family != IPv4 && (('%' !in host && env.v6(host).Some?) || Zoned(env, host)))
    && (family == IPv6 ==> !env.v4(host))
    && (if named.Some? then named == Some(family) else if bracketed then family == IPv6 else family == IPv4)
  }

  predicate TcpParts(env: Platform, named: Option<Family>, host: string, port: string, bracketed: bool,
                     listen: bool, ep: Endpoint)
  {
    && ep.kind == Tcp && ep.name == "" && Number(port, 65535, ep.num)
    && (if listen then ep.host == "" && ListensOn(env, named, host, bracketed, ep.family)
        else ep.host == host && DialsTo(env, named, host, bracketed, ep.family))
  }

  ghost predicate TcpDenotes(env: Platform, token: string, target: string, listen: bool, ep: Endpoint) {
    exists named, host, port, bracketed ::
      NamesFamily(token, named) && HostPort(target, host, port, bracketed)
      && TcpParts(env, named, host, port, bracketed, listen, ep)
  }

  /** A pipe or a service is named verbatim. */
  predicate NameDenotes(token: string, target: string, ep: Endpoint) {
    && target != ""
    && (|| (EqFold(token, "pipe") && ep == Endpoint(Pipe, "", target, 0, IPv4))
        || (EqFold(token, "dmx") && ep == Endpoint(Dmx, "", target, 0, IPv4)))
  }

  /** A COM port is numbered with or without its prefix. */
  predicate SerialDenotes(token: string, target: string, ep: Endpoint) {
    && (EqFold(token, "serial") || EqFold(token, "com"))
    && ep == Endpoint(Serial, "", "", ep.num, IPv4)
    && (|| Number(target, 255, ep.num)
        || (|target| > 3 && EqFold(target[..3], "com") && Number(target[3..], 255, ep.num)))
  }

  ghost predicate Known(env: Platform, token: string, target: string, listen: bool, ep: Endpoint) {
    TcpDenotes(env, token, target, listen, ep) || NameDenotes(token, target, ep) || SerialDenotes(token, target, ep)
  }

  /** What a text denotes in a mode; whatever denotes nothing is refused. */
  ghost predicate Denotes(env: Platform, text: string, listen: bool, ep: Endpoint) {
    exists token, target :: Spells(env, text, token, target) && Known(env, token, target, listen, ep)
  }

  lemma Apart(token: string, a: string, b: string, i: nat)
    requires EqFold(token, a) && i < |a| && i < |b| && Lower(a[i]) != Lower(b[i])
    ensures !EqFold(token, b)
  {
  }

  /** The tokens by name. */
  lemma TokensOf(token: string)
    ensures NamesFamily(token, None) <==> SchemeOf(token) == TcpAuto
    ensures NamesFamily(token, Some(IPv4)) <==> SchemeOf(token) == Tcp4
    ensures NamesFamily(token, Some(IPv6)) <==> SchemeOf(token) == Tcp6
    ensures NamesFamily(token, Some(Dual)) <==> SchemeOf(token) == Tcp46
    ensures EqFold(token, "pipe") <==> SchemeOf(token) == PipeScheme
    ensures EqFold(token, "dmx") <==> SchemeOf(token) == DmxScheme
    ensures EqFold(token, "serial") || EqFold(token, "com") <==> SchemeOf(token) == SerialScheme
  {
    if EqFold(token, "tcp6") { Apart(token, "tcp6", "tcp4", 3); Apart(token, "tcp6", "ipv4", 0); }
    if EqFold(token, "ipv6") { Apart(token, "ipv6", "tcp4", 0); Apart(token, "ipv6", "ipv4", 3); }
    if EqFold(token, "pipe") {
      Apart(token, "pipe", "tcp4", 0);
      Apart(token, "pipe", "ipv4", 0);
      Apart(token, "pipe", "tcp6", 0);
      Apart(token, "pipe", "ipv6", 0);
    }
    if EqFold(token, "dmx") { Apart(token, "dmx", "tcp", 0); }
    if EqFold(token, "com") { Apart(token, "com", "tcp", 0); Apart(token, "com", "dmx", 0); }
  }

  lemma SlashesIff(rest: string, target: string)
    ensures StripSlashes(rest) == target <==> rest == "//" + target || (rest == target && !("//" <= rest))
  {
    if |rest| >= 2 && rest[0] == '/' && rest[1] == '/' { assert rest == "//" + rest[2..]; }
    assert ("//" + target)[2..] == target;
  }

  lemma ColonJoins(token: string, target: string)
    ensures token + "://" + target == token + ":" + ("//" + target)
  {
  }

  /** A text comes apart at its first colon. */
  lemma ColonIff(all: string, token: string, rest: string)
    ensures ':' !in token && all == token + ":" + rest
       <==> Find(all, ':') == |token| && all[..|token|] == token && all[|token| + 1..] == rest
  {
    if ':' !in token && all == token + ":" + rest { ColonSplits(token, rest); }
    if Find(all, ':') == |token| && all[..|token|] == token && all[|token| + 1..] == rest {
      assert all == all[..|token|] + [all[|token|]] + all[|token| + 1..];
    }
  }

  lemma SplitIff(env: Platform, text: string, token: string, target: string)
    ensures SplitScheme(env, text) == Some(Parts(token, target)) <==> Spells(env, text, token, target)
  {
    hide Trim, StripSlashes;
    var all := Trim(env.space, text);
    if SplitScheme(env, text) == Some(Parts(token, target)) {
      var rest := all[|token| + 1..];
      ColonIff(all, token, rest);
      SlashesIff(rest, target);
      ColonJoins(token, target);
    }
    if Spells(env, text, token, target) {
      var rest := if all == token + "://" + target then "//" + target else target;
      ColonJoins(token, target);
      ColonIff(all, token, rest);
      SlashesIff(rest, target);
    }
  }

  lemma HostPortIff(target: string, host: string, port: string, bracketed: bool)
    requires AllDigits(port)
    ensures SplitAuthority(target) == Some(Authority(host, port, bracketed))
       <==> HostPort(target, host, port, bracketed)
  {
    if SplitAuthority(target) == Some(Authority(host, port, bracketed)) {
      if bracketed {
        var close := Find(target, ']');
        assert target == "[" + target[1..close] + "]:" + target[close + 2..];
      } else {
        var sep := ReverseFind(target, ':');
        assert target == target[..sep] + ":" + target[sep + 1..];
      }
    }
    if HostPort(target, host, port, bracketed) {
      if bracketed { SplitBracketed(host, port); } else { SplitPlain(host, port); }
    }
  }

  lemma ZonedIff(env: Platform, host: string)
    ensures IsIPv6Literal(env, host, true) <==> ('%' !in host && env.v6(host).Some?) || Zoned(env, host)
  {
    var zone := Find(host, '%');
    if zone >= 0 {
      assert '%' !in host[..zone];
      if Zoned(env, host) {
        var i :| 0 <= i < |host| - 1 && host[i] == '%' && '%' !in host[..i] && env.v6(host[..i]).Some?;
        FindIs(host, '%', i) by {
          forall k | 0 <= k < i ensures host[k] != '%' { assert host[..i][k] != '%'; }
        }
      }
    }
  }

  lemma PortIff(port: string, num: nat, max: nat)
    requires max < UINT_MAX
    ensures Scan(port) == Some(num) && 1 <= num <= max <==> Number(port, max, num)
  {
    ScanDecides(port, 1, max);
  }

  lemma ZeroesIff(bytes: seq<int>)
    ensures (forall byte :: byte in bytes ==> byte == 0) <==> forall i :: 0 <= i < |bytes| ==> bytes[i] == 0
  {
    if forall byte :: byte in bytes ==> byte == 0 {
      forall i | 0 <= i < |bytes| ensures bytes[i] == 0 { assert bytes[i] in bytes; }
    }
  }

  /** The scheme the parser makes of a tcp token. */
  function Named(named: Option<Family>): Scheme {
    match named
    case None => TcpAuto
    case Some(IPv4) => Tcp4
    case Some(IPv6) => Tcp6
    case Some(Dual) => Tcp46
  }

  lemma ListenIff(env: Platform, named: Option<Family>, host: string, bracketed: bool, ep: Endpoint)
    ensures
      && (bracketed ==> IsIPv6Literal(env, host, false) && Named(named) != Tcp4)
      && ParseTcpListen(env, Named(named), host, ep.num, bracketed) == Some(ep)
    <==>
      && ep.kind == Tcp && ep.name == "" && ep.host == "" && ListensOn(env, named, host, bracketed, ep.family)
  {
    if bracketed {
      var zone := Find(host, '%');
      assert zone >= 0 <==> '%' in host;
      if env.v6(host).Some? { ZeroesIff(env.v6(host).value); }
    }
  }

  lemma DialIff(env: Platform, named: Option<Family>, host: string, bracketed: bool, ep: Endpoint)
    ensures
      && (bracketed ==> IsIPv6Literal(env, host, true) && Named(named) != Tcp4)
      && ParseTcpDial(env, Named(named), host, ep.num, bracketed) == Some(ep)
    <==>
      && ep.kind == Tcp && ep.name == "" && ep.host == host && DialsTo(env, named, host, bracketed, ep.family)
  {
    if bracketed { ZonedIff(env, host); }
    hide IsIPv6Literal, Zoned;
  }

  lemma PartsIff(env: Platform, named: Option<Family>, target: string, a: Authority, listen: bool, ep: Endpoint)
    requires SplitAuthority(target) == Some(a)
    ensures ParseTcp(env, Named(named), target, listen) == Some(ep)
       <==> TcpParts(env, named, a.host, a.port, a.bracketed, listen, ep)
  {
    PortIff(a.port, ep.num, 65535);
    if listen {
      ListenIff(env, named, a.host, a.bracketed, ep);
    } else {
      DialIff(env, named, a.host, a.bracketed, ep);
    }
    hide Number, Scan, ListensOn, DialsTo, IsIPv6Literal, SplitAuthority;
  }

  lemma TcpIff(env: Platform, token: string, target: string, listen: bool, ep: Endpoint)
    ensures SchemeOf(token) in {TcpAuto, Tcp4, Tcp6, Tcp46}
            && ParseTcp(env, SchemeOf(token), target, listen) == Some(ep)
       <==> TcpDenotes(env, token, target, listen, ep)
  {
    TokensOf(token);
    hide NamesFamily, SchemeOf, ParseTcp, SplitAuthority, HostPort, TcpParts;
    var scheme := SchemeOf(token);
    if scheme in {TcpAuto, Tcp4, Tcp6, Tcp46} && ParseTcp(env, scheme, target, listen) == Some(ep) {
      var named := match scheme
        case TcpAuto => None case Tcp4 => Some(IPv4) case Tcp6 => Some(IPv6) case _ => Some(Dual);
      ParseNeedsAuthority(env, scheme, target, listen);
      var a := SplitAuthority(target).value;
      PartsIff(env, named, target, a, listen, ep);
      PartsHaveDigits(env, named, a, listen, ep);
      HostPortIff(target, a.host, a.port, a.bracketed);
    }
    if TcpDenotes(env, token, target, listen, ep) {
      var named, host, port, bracketed :| NamesFamily(token, named) && HostPort(target, host, port, bracketed)
        && TcpParts(env, named, host, port, bracketed, listen, ep);
      var a := Authority(host, port, bracketed);
      PartsHaveDigits(env, named, a, listen, ep);
      HostPortIff(target, host, port, bracketed);
      PartsIff(env, named, target, a, listen, ep);
    }
  }

  lemma ParseNeedsAuthority(env: Platform, scheme: Scheme, target: string, listen: bool)
    requires ParseTcp(env, scheme, target, listen).Some?
    ensures SplitAuthority(target).Some?
  {
  }

  lemma PartsHaveDigits(env: Platform, named: Option<Family>, a: Authority, listen: bool, ep: Endpoint)
    requires TcpParts(env, named, a.host, a.port, a.bracketed, listen, ep)
    ensures AllDigits(a.port)
  {
  }

  lemma SerialIff(token: string, target: string, ep: Endpoint)
    ensures SchemeOf(token) == SerialScheme && ParseSerial(target) == Some(ep) <==> SerialDenotes(token, target, ep)
  {
    TokensOf(token);
    hide SchemeOf, NamesFamily;
    PortIff(target, ep.num, 255);
    if |target| >= 3 && EqFold(target[..3], "COM") {
      assert Lower("COM"[0]) == 'c' && Lower("COM"[1]) == 'o' && Lower("COM"[2]) == 'm';
      PortIff(target[3..], ep.num, 255);
      assert !IsDigit(target[0]) by { assert Lower(target[..3][0]) == Lower("COM"[0]); }
    }
  }

  /** The parser accepts exactly the texts that denote an endpoint, and answers with what they denote. */
  lemma ParsesIff(env: Platform, text: string, listen: bool, ep: Endpoint)
    ensures Parse(env, text, listen) == Some(ep) <==> Denotes(env, text, listen, ep)
  {
    hide SplitScheme, ParseTcp, ParseSerial, SchemeOf, Spells, TcpDenotes, NameDenotes, SerialDenotes;
    if Parse(env, text, listen) == Some(ep) {
      var parts := SplitScheme(env, text).value;
      SplitIff(env, text, parts.scheme, parts.target);
      KnownIff(env, parts.scheme, parts.target, listen, ep);
    }
    if Denotes(env, text, listen, ep) {
      var token, target :| Spells(env, text, token, target) && Known(env, token, target, listen, ep);
      SplitIff(env, text, token, target);
      KnownIff(env, token, target, listen, ep);
      if text == "" { NothingSplits(env); }
    }
  }

  lemma NothingSplits(env: Platform)
    ensures SplitScheme(env, "") == None
  {
  }

  lemma KnownIff(env: Platform, token: string, target: string, listen: bool, ep: Endpoint)
    ensures ParseTarget(env, SchemeOf(token), target, listen) == Some(ep) <==> Known(env, token, target, listen, ep)
  {
    TokensOf(token);
    TcpIff(env, token, target, listen, ep);
    SerialIff(token, target, ep);
    hide ParseTcp, ParseSerial, SchemeOf, NamesFamily, TcpDenotes, SerialDenotes;
  }

  // ---------------------------------------------------------------------
  // What the documentation promises of particular spellings

  /** A text in its plain form comes apart where it should. */
  lemma PlainTextParses(env: Platform, token: string, target: string, listen: bool)
    requires Sane(env) && token != "" && ':' !in token && '!' <= token[0] <= '~'
    requires target != "" && '!' <= target[|target| - 1] <= '~'
    ensures Parse(env, token + "://" + target, listen) == ParseTarget(env, SchemeOf(token), target, listen)
  {
    assert !env.space(target[|target| - 1]);
    SplitOfParts(env, token, target);
    assert token + "://" + target != "";
    hide Sane, SplitScheme, SchemeOf, ParseTarget;
  }

  lemma PlainTokens()
    ensures SchemeOf("tcp") == TcpAuto && ':' !in "tcp" && '!' <= "tcp"[0] <= '~'
    ensures SchemeOf("serial") == SerialScheme && ':' !in "serial" && '!' <= "serial"[0] <= '~'
  {
  }

  lemma DecIsSolid(front: string, num: nat)
    ensures var text := front + Dec(num); text != "" && '!' <= text[|text| - 1] <= '~'
  {
    assert IsDigit(Dec(num)[|Dec(num)| - 1]);
    hide Dec;
  }

  lemma TcpTextParses(env: Platform, authority: string, num: nat, listen: bool)
    requires Sane(env)
    ensures Parse(env, "tcp" + "://" + (authority + Dec(num)), listen)
         == ParseTcp(env, TcpAuto, authority + Dec(num), listen)
  {
    hide Sane, Parse, ParseTcp, SchemeOf, Dec;
    PlainTokens();
    DecIsSolid(authority, num);
    PlainTextParses(env, "tcp", authority + Dec(num), listen);
  }

  /** A listen on one interface is refused, whatever the port. */
  lemma ListenPicksNoInterface(env: Platform, host: string, num: nat)
    requires Sane(env) && num <= 65535
    requires ':' !in host && ']' !in host && host !in {"", "*", "0.0.0.0"} && host[0] != '['
    ensures Parse(env, "tcp" + "://" + (host + ":" + Dec(num)), true) == None
  {
    TcpTextParses(env, host + ":", num, true);
    ScanOfDec(num);
    SplitPlain(host, Dec(num));
    hide Parse, SplitAuthority, Scan, Dec, Sane;
  }

  /** And so is a listen on any literal but the any-address. */
  lemma LiteralListenIsRefused(env: Platform, literal: string, num: nat)
    requires Sane(env) && num <= 65535 && ']' !in literal && literal != "" && !IsIPv6Any(env, literal)
    ensures Parse(env, "tcp" + "://" + ("[" + literal + "]:" + Dec(num)), true) == None
  {
    TcpTextParses(env, "[" + literal + "]:", num, true);
    ScanOfDec(num);
    SplitBracketed(literal, Dec(num));
    hide Parse, SplitAuthority, Scan, Dec, Sane, IsIPv6Literal, IsIPv6Any;
  }

  /** The any-address in brackets is every address there is, and is printed as that. */
  lemma AnyInBrackets(env: Platform, any: string, num: nat)
    requires Sane(env) && 1 <= num <= 65535 && IsIPv6Any(env, any) && '%' !in any && ']' !in any && any != ""
    ensures var ep := Parse(env, "tcp" + "://" + ("[" + any + "]:" + Dec(num)), true);
      ep == Some(Endpoint(Tcp, "", "", num, Dual)) && Format(ep.value) == "tcp46" + "://" + (":" + Dec(num))
  {
    TcpTextParses(env, "[" + any + "]:", num, true);
    ScanOfDec(num);
    SplitBracketed(any, Dec(num));
    assert Find(any, '%') < 0;
    DualPrints(num);
    hide Parse, SplitAuthority, Scan, Dec, Sane, Format;
  }

  lemma DualPrints(num: nat)
    ensures Format(Endpoint(Tcp, "", "", num, Dual)) == "tcp46" + "://" + (":" + Dec(num))
  {
    hide Dec;
    assert "" + ":" + Dec(num) == ":" + Dec(num);
  }

  /** A literal in brackets is dialed over IPv6, and is printed so. */
  lemma LiteralIsTheFamily(env: Platform, literal: string, num: nat)
    requires Sane(env) && 1 <= num <= 65535 && IsIPv6Literal(env, literal, true) && ']' !in literal && literal != ""
    ensures var ep := Parse(env, "tcp" + "://" + ("[" + literal + "]:" + Dec(num)), false);
      && ep == Some(Endpoint(Tcp, literal, "", num, IPv6))
      && Format(ep.value) == "tcp6" + "://" + ("[" + literal + "]:" + Dec(num))
  {
    TcpTextParses(env, "[" + literal + "]:", num, false);
    ScanOfDec(num);
    SplitBracketed(literal, Dec(num));
    ZonedLiteralHasColon(env, literal, true);
    assert !env.v4(literal);
    hide Parse, SplitAuthority, Scan, Dec, Sane, IsIPv6Literal;
  }

  /** A bare COM number is printed with its prefix. */
  lemma BareNumberIsPrefixed(env: Platform, num: nat, listen: bool)
    requires Sane(env) && 1 <= num <= 255
    ensures var ep := Parse(env, "serial" + "://" + Dec(num), listen);
      ep == Some(Endpoint(Serial, "", "", num, IPv4)) && Format(ep.value) == "serial" + "://" + ("COM" + Dec(num))
  {
    hide SplitScheme, SchemeOf, ParseSerial, Dec, Scan, AllDigits, Trim, Format, Parse;
    SerialTextParses(env, num, listen);
    ScanOfDec(num);
    BareNumberIsSerial(Dec(num), num);
    SerialPrints(num);
  }

  lemma SerialPrints(num: nat)
    ensures Format(Endpoint(Serial, "", "", num, IPv4)) == "serial" + "://" + ("COM" + Dec(num))
  {
    hide Dec;
  }

  lemma SerialTextParses(env: Platform, num: nat, listen: bool)
    requires Sane(env)
    ensures Parse(env, "serial" + "://" + Dec(num), listen) == ParseSerial(Dec(num))
  {
    hide Sane, Parse, ParseSerial, SchemeOf, Dec;
    PlainTokens();
    DecIsSolid("", num);
    assert "" + Dec(num) == Dec(num);
    PlainTextParses(env, "serial", Dec(num), listen);
  }

  lemma BareNumberIsSerial(target: string, num: nat)
    requires target != "" && AllDigits(target) && Scan(target) == Some(num) && 1 <= num <= 255
    ensures ParseSerial(target) == Some(Endpoint(Serial, "", "", num, IPv4))
  {
    assert |target| >= 3 ==> target[..3][0] == target[0] && Lower("COM"[0]) == 'c';
    hide Scan;
  }
}
