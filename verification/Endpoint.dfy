/**
 The endpoint grammar: ParseFacadeEndpoint and FacadeEndpoint::Format of
 src/FacadeEndpoint.cpp, and the conversions the network makes between the
 listening and the dialing form of one endpoint.
 */
module Endpoint {
  import opened Text
  import opened Decimal

  /**
   What the platform decides: which characters CString::Trim strips, and which
   literals InetPtonW reads (the sixteen bytes of an IPv6 one).
   */
  datatype Platform = Platform(
    space: char -> bool,
    v4: string -> bool,
    v6: string -> Option<seq<int>>)

  /**
   The blank is white space and no visible ASCII character is; an IPv6 literal has a colon
   (section 2.2 of RFC 4291) and a dotted quad has none.
   */
  ghost predicate Sane(env: Platform) {
    && env.space(' ') && (forall c | '!' <= c <= '~' :: !env.space(c))
    && (forall s | env.v6(s).Some? :: ':' in s)
    && (forall s | env.v4(s) :: ':' !in s)
    && env.v6("::1").Some?
  }

  datatype Transport = Tcp | Pipe | Dmx | Serial
  datatype Family = IPv4 | IPv6 | Dual

  /**
   A parsed endpoint: host for a tcp dial, name for pipe and dmx, num for the
   tcp port or the COM number.  bDerived is not part of an endpoint's identity
   and is not a field here.
   */
  datatype Endpoint = Endpoint(kind: Transport, host: string, name: string, num: nat, family: Family)

  const PORT_MAX: nat := 65535
  const COM_PORT_MAX: nat := 255

  datatype Scheme = TcpAuto | Tcp4 | Tcp6 | Tcp46 | PipeScheme | DmxScheme | SerialScheme | UnknownScheme

  function SchemeOf(token: string): Scheme {
    if EqFold(token, "tcp") then TcpAuto
    else if EqFold(token, "tcp4") || EqFold(token, "ipv4") then Tcp4
    else if EqFold(token, "tcp6") || EqFold(token, "ipv6") then Tcp6
    else if EqFold(token, "tcp46") then Tcp46
    else if EqFold(token, "pipe") then PipeScheme
    else if EqFold(token, "dmx") then DmxScheme
    else if EqFold(token, "serial") || EqFold(token, "com") then SerialScheme
    else UnknownScheme
  }

  predicate IsAnyHost4(host: string) { host == "" || host == "*" || host == "0.0.0.0" }

  /** A literal, with a %zone after it where one is allowed. */
  predicate IsIPv6Literal(env: Platform, host: string, allowZone: bool) {
    var zone := Find(host, '%');
    if zone >= 0
    then allowZone && zone != |host| - 1 && env.v6(host[..zone]).Some?
    else env.v6(host).Some?
  }

  /** The all-zeroes address, however it is spelled. */
  predicate IsIPv6Any(env: Platform, host: string) {
    match env.v6(host)
    case None => false
    case Some(bytes) => forall i :: 0 <= i < |bytes| ==> bytes[i] == 0
  }

  datatype Authority = Authority(host: string, port: string, bracketed: bool)

  /** "host:port" or "[literal]:port". */
  function SplitAuthority(target: string): Option<Authority> {
    if target != "" && target[0] == '[' then
      var close := Find(target, ']');
      if close < 0 || close + 1 >= |target| || target[close + 1] != ':' then None
      else if close == 1 then None
      else Some(Authority(target[1..close], target[close + 2..], true))
    else
      var sep := ReverseFind(target, ':');
      if sep < 0 then None
      else
        var host := target[..sep];
        if ':' in host || ']' in host then None
        else Some(Authority(host, target[sep + 1..], false))
  }

  function FamilyOf(scheme: Scheme): Family {
    match scheme
    case Tcp6 => IPv6
    case Tcp46 => Dual
    case _ => IPv4
  }

  function ParseTcp(env: Platform, scheme: Scheme, target: string, listen: bool): Option<Endpoint> {
    match SplitAuthority(target)
    case None => None
    case Some(Authority(host, portText, bracketed)) =>
      match Scan(portText)
      case None => None
      case Some(port) =>
        if port < 1 || port > PORT_MAX then None
        else if bracketed && !IsIPv6Literal(env, host, !listen) then None
        else if bracketed && scheme == Tcp4 then None
        else if listen then ParseTcpListen(env, scheme, host, port, bracketed)
        else ParseTcpDial(env, scheme, host, port, bracketed)
  }

  /** A listen never picks a host: only the any-addresses are accepted, and dropped. */
  function ParseTcpListen(env: Platform, scheme: Scheme, host: string, port: nat, bracketed: bool): Option<Endpoint> {
    if bracketed then
      if !IsIPv6Any(env, host) then None
      else Some(Endpoint(Tcp, "", "", port, if scheme == TcpAuto then Dual else FamilyOf(scheme)))
    else if host == "0.0.0.0" && scheme != TcpAuto && scheme != Tcp4 then None
    else if !IsAnyHost4(host) then None
    else Some(Endpoint(Tcp, "", "", port, FamilyOf(scheme)))
  }

  function ParseTcpDial(env: Platform, scheme: Scheme, host: string, port: nat, bracketed: bool): Option<Endpoint> {
    if host == "" then None
    else
      var family := if bracketed && scheme == TcpAuto then IPv6 else FamilyOf(scheme);
      if family == IPv6 && env.v4(host) then None
      else Some(Endpoint(Tcp, host, "", port, family))
  }

  function ParseSerial(target: string): Option<Endpoint> {
    var num := if |target| >= 3 && EqFold(target[..3], "COM") then target[3..] else target;
    match Scan(num)
    case None => None
    case Some(com) =>
      if com < 1 || com > COM_PORT_MAX then None else Some(Endpoint(Serial, "", "", com, IPv4))
  }

  function ParseTarget(env: Platform, scheme: Scheme, target: string, listen: bool): Option<Endpoint> {
    match scheme
    case TcpAuto | Tcp4 | Tcp6 | Tcp46 => ParseTcp(env, scheme, target, listen)
    case PipeScheme => if target == "" then None else Some(Endpoint(Pipe, "", target, 0, IPv4))
    case DmxScheme => if target == "" then None else Some(Endpoint(Dmx, "", target, 0, IPv4))
    case SerialScheme => ParseSerial(target)
    case UnknownScheme => None
  }

  function StripSlashes(s: string): string {
    if |s| >= 2 && s[0] == '/' && s[1] == '/' then s[2..] else s
  }

  datatype Parts = Parts(scheme: string, target: string)

  /** "scheme://target" or "scheme:target", only the outer white space removed. */
  function SplitScheme(env: Platform, text: string): Option<Parts> {
    var all := Trim(env.space, text);
    var colon := Find(all, ':');
    if colon <= 0 then None else Some(Parts(all[..colon], StripSlashes(all[colon + 1..])))
  }

  /** ParseFacadeEndpoint: None is P2PF_E_ENDPOINT. */
  function Parse(env: Platform, text: string, listen: bool): Option<Endpoint> {
    if text == "" then None
    else match SplitScheme(env, text)
      case None => None
      case Some(Parts(scheme, target)) => ParseTarget(env, SchemeOf(scheme), target, listen)
  }

  function FamilyScheme(family: Family): string {
    match family
    case IPv4 => "tcp"
    case IPv6 => "tcp6"
    case Dual => "tcp46"
  }

  function FormatAuthority(host: string, num: nat): string {
    if ':' in host then "[" + host + "]:" + Dec(num) else host + ":" + Dec(num)
  }

  function SchemeText(ep: Endpoint): (s: string)
    ensures s != "" && ':' !in s && '!' <= s[0] <= '~'
  {
    match ep.kind
    case Tcp => FamilyScheme(ep.family)
    case Pipe => "pipe"
    case Dmx => "dmx"
    case Serial => "serial"
  }

  function TargetText(ep: Endpoint): string {
    match ep.kind
    case Tcp => FormatAuthority(ep.host, ep.num)
    case Pipe => ep.name
    case Dmx => ep.name
    case Serial => "COM" + Dec(ep.num)
  }

  /** FacadeEndpoint::Format, the canonical spelling. */
  function Format(ep: Endpoint): string {
    SchemeText(ep) + "://" + TargetText(ep)
  }

  // ---------------------------------------------------------------------
  // Printing and parsing undo each other

  /**
   Endpoints that survive a trip through their own canonical spelling in the
   given mode.  Every accepted text yields one (ParseGivesCanonical), and every
   one is read back unchanged (FormatRoundTrip).
   */
  ghost predicate Canonical(env: Platform, ep: Endpoint, listen: bool) {
    match ep.kind
    case Tcp =>
      && ep.name == "" && 1 <= ep.num <= PORT_MAX
      && (listen ==> ep.host == "")
      && (!listen ==> CanonicalHost(env, ep.host, ep.family))
    case Pipe | Dmx =>
      && ep.host == "" && ep.num == 0 && ep.family == IPv4
      && ep.name != "" && !env.space(ep.name[|ep.name| - 1])
    case Serial =>
      ep.host == "" && ep.name == "" && 1 <= ep.num <= COM_PORT_MAX && ep.family == IPv4
  }

  ghost predicate CanonicalHost(env: Platform, host: string, family: Family) {
    && host != "" && ']' !in host
    && (if ':' in host then IsIPv6Literal(env, host, true) && family != IPv4
        else host[0] != '[')
    && (family == IPv6 ==> !env.v4(host))
  }

  lemma ZonedLiteralHasColon(env: Platform, host: string, allowZone: bool)
    requires Sane(env) && IsIPv6Literal(env, host, allowZone)
    ensures ':' in host
  {
    var zone := Find(host, '%');
    if zone >= 0 {
      var i :| 0 <= i < zone && host[..zone][i] == ':';
      assert host[i] == ':';
    }
  }

  lemma ParseTcpGivesCanonical(env: Platform, scheme: Scheme, target: string, listen: bool)
    requires Sane(env) && scheme in {TcpAuto, Tcp4, Tcp6, Tcp46}
    requires ParseTcp(env, scheme, target, listen).Some?
    ensures Canonical(env, ParseTcp(env, scheme, target, listen).value, listen)
  {
    var a := SplitAuthority(target).value;
    if a.bracketed {
      ZonedLiteralHasColon(env, a.host, !listen);
      assert ']' !in a.host by {
        assert a.host == target[1..Find(target, ']')];
      }
    } else {
      assert a.host != "" ==> a.host[0] == target[0];
    }
  }

  lemma ParseTargetGivesCanonical(env: Platform, scheme: Scheme, target: string, listen: bool)
    requires Sane(env) && ParseTarget(env, scheme, target, listen).Some?
    requires target != "" ==> !env.space(target[|target| - 1])
    ensures Canonical(env, ParseTarget(env, scheme, target, listen).value, listen)
  {
    match scheme
    case TcpAuto | Tcp4 | Tcp6 | Tcp46 => ParseTcpGivesCanonical(env, scheme, target, listen);
    case PipeScheme | DmxScheme | SerialScheme =>
    case UnknownScheme =>
  }

  /** Trimming took the padding off the end of the target as well. */
  lemma TargetIsTrimmed(env: Platform, text: string)
    requires SplitScheme(env, text).Some?
    ensures var t := SplitScheme(env, text).value.target; t != "" ==> !env.space(t[|t| - 1])
  {
    var all := Trim(env.space, text);
    hide Trim;
    var colon := Find(all, ':');
    SuffixEnds(all, colon + 1);
    SuffixEnds(all[colon + 1..], if |all[colon + 1..]| < 2 then 0 else 2);
  }

  lemma SuffixEnds(s: string, i: nat)
    requires i <= |s|
    ensures s[i..] != "" ==> s[i..][|s[i..]| - 1] == s[|s| - 1]
  {
  }

  /** Whatever the parser accepts is canonical in the mode it was read in. */
  lemma ParseGivesCanonical(env: Platform, text: string, listen: bool)
    requires Sane(env) && Parse(env, text, listen).Some?
    ensures Canonical(env, Parse(env, text, listen).value, listen)
  {
    hide SplitScheme, ParseTarget, SchemeOf, Canonical;
    TargetIsTrimmed(env, text);
    var parts := SplitScheme(env, text).value;
    ParseTargetGivesCanonical(env, SchemeOf(parts.scheme), parts.target, listen);
  }

  lemma DifferAt(a: string, b: string, i: nat)
    requires i < |a| && i < |b| && Lower(a[i]) != Lower(b[i])
    ensures !EqFold(a, b)
  {
  }

  lemma SchemeOfText(ep: Endpoint)
    ensures SchemeOf(SchemeText(ep)) == match ep.kind {
        case Tcp => (match ep.family case IPv4 => TcpAuto case IPv6 => Tcp6 case Dual => Tcp46)
        case Pipe => PipeScheme
        case Dmx => DmxScheme
        case Serial => SerialScheme
      }
  {
    match ep.kind
    case Tcp =>
      DifferAt("tcp6", "tcp4", 3);
      DifferAt("tcp6", "ipv4", 0);
    case Pipe =>
      DifferAt("pipe", "tcp4", 0);
      DifferAt("pipe", "ipv4", 0);
      DifferAt("pipe", "tcp6", 0);
      DifferAt("pipe", "ipv6", 0);
    case Dmx =>
      DifferAt("dmx", "tcp", 0);
    case Serial =>
  }

  lemma SplitOfParts(env: Platform, scheme: string, target: string)
    requires Sane(env) && scheme != "" && ':' !in scheme && '!' <= scheme[0] <= '~'
    requires target != "" && !env.space(target[|target| - 1])
    ensures SplitScheme(env, scheme + "://" + target) == Some(Parts(scheme, target))
  {
    var text := scheme + "://" + target;
    assert text[0] == scheme[0] && text[|text| - 1] == target[|target| - 1];
    TrimFixed(env.space, text);
    hide Trim, Sane;
    SchemeSplits(scheme, target);
  }

  lemma SchemeSplits(scheme: string, target: string)
    requires ':' !in scheme
    ensures var text := scheme + "://" + target;
      Find(text, ':') == |scheme| && text[..|scheme|] == scheme && StripSlashes(text[|scheme| + 1..]) == target
  {
    assert scheme + "://" + target == scheme + ":" + ("//" + target);
    ColonSplits(scheme, "//" + target);
    assert ("//" + target)[2..] == target;
  }

  lemma ColonSplits(a: string, b: string)
    requires ':' !in a
    ensures var s := a + ":" + b; Find(s, ':') == |a| && s[..|a|] == a && s[|a| + 1..] == b
  {
    FindIs(a + ":" + b, ':', |a|);
  }

  /** How a "scheme://target" text comes apart when its last character is not padding. */
  lemma ParseOfParts(env: Platform, ep: Endpoint, listen: bool)
    requires Sane(env) && TargetText(ep) != ""
    requires var t := TargetText(ep); !env.space(t[|t| - 1])
    ensures Parse(env, Format(ep), listen)
         == ParseTarget(env, SchemeOf(SchemeText(ep)), TargetText(ep), listen)
  {
    hide SplitScheme, ParseTarget, SchemeOf, SchemeText, TargetText;
    SplitOfParts(env, SchemeText(ep), TargetText(ep));
  }

  lemma SplitBracketed(host: string, port: string)
    requires ']' !in host && host != ""
    ensures SplitAuthority("[" + host + "]:" + port) == Some(Authority(host, port, true))
  {
    var target := "[" + host + "]:" + port;
    assert target[0] == '[' && target[|host| + 2] == ':';
    FindIs(target, ']', |host| + 1);
    assert target[1..|host| + 1] == host && target[|host| + 3..] == port;
  }

  lemma SplitPlain(host: string, port: string)
    requires ']' !in host && ':' !in host && ':' !in port
    requires host == "" || host[0] != '['
    ensures SplitAuthority(host + ":" + port) == Some(Authority(host, port, false))
  {
    var target := host + ":" + port;
    assert target[|host|] == ':' && target[|host| + 1..] == port;
    assert ReverseFind(target, ':') == |host|;
    assert target[..|host|] == host;
    assert target[0] == if host == "" then ':' else host[0];
  }

  lemma SplitOfFormat(host: string, num: nat)
    requires ']' !in host && (':' !in host ==> host == "" || host[0] != '[')
    ensures SplitAuthority(FormatAuthority(host, num)) == Some(Authority(host, Dec(num), ':' in host))
  {
    if ':' in host {
      SplitBracketed(host, Dec(num));
    } else {
      SplitPlain(host, Dec(num));
    }
  }

  lemma TcpRoundTrip(env: Platform, ep: Endpoint, listen: bool)
    requires Sane(env) && ep.kind == Tcp && Canonical(env, ep, listen)
    ensures ParseTcp(env, SchemeOf(SchemeText(ep)), TargetText(ep), listen) == Some(ep)
  {
    SchemeOfText(ep);
    ScanOfDec(ep.num);
    SplitOfFormat(ep.host, ep.num);
    TcpFromParts(env, SchemeOf(SchemeText(ep)), TargetText(ep), ep, listen);
  }

  lemma TcpFromParts(env: Platform, scheme: Scheme, target: string, ep: Endpoint, listen: bool)
    requires ep.kind == Tcp && Canonical(env, ep, listen) && SplitAuthority(target).Some?
    requires var a := SplitAuthority(target).value;
      Scan(a.port) == Some(ep.num) && a.host == ep.host && a.bracketed == (':' in ep.host)
    requires scheme == match ep.family { case IPv4 => TcpAuto case IPv6 => Tcp6 case Dual => Tcp46 }
    ensures ParseTcp(env, scheme, target, listen) == Some(ep)
  {
    assert FamilyOf(scheme) == ep.family;
  }

  lemma SerialRoundTrip(num: nat)
    requires 1 <= num <= COM_PORT_MAX
    ensures ParseSerial("COM" + Dec(num)) == Some(Endpoint(Serial, "", "", num, IPv4))
  {
    var target := "COM" + Dec(num);
    assert target[..3] == "COM" && target[3..] == Dec(num);
    ScanOfDec(num);
  }

  lemma LastOfTarget(env: Platform, ep: Endpoint, listen: bool)
    requires Sane(env) && Canonical(env, ep, listen)
    ensures var t := TargetText(ep); t != "" && !env.space(t[|t| - 1])
  {
    var t, d := TargetText(ep), Dec(ep.num);
    if ep.kind == Tcp || ep.kind == Serial {
      assert t[|t| - 1] == d[|d| - 1] && IsDigit(d[|d| - 1]);
    }
  }

  /** A canonical endpoint is read back from its spelling, family included. */
  lemma FormatRoundTrip(env: Platform, ep: Endpoint, listen: bool)
    requires Sane(env) && Canonical(env, ep, listen)
    ensures Parse(env, Format(ep), listen) == Some(ep)
  {
    hide Parse, Format, SchemeOf, SchemeText, ParseTcp;
    LastOfTarget(env, ep, listen);
    ParseOfParts(env, ep, listen);
    SchemeOfText(ep);
    match ep.kind
    case Tcp => TcpRoundTrip(env, ep, listen);
    case Pipe | Dmx =>
    case Serial => SerialRoundTrip(ep.num);
  }

  /** For every text and either mode: printing what was parsed parses to the same thing. */
  lemma ParsePrintParse(env: Platform, text: string, listen: bool)
    requires Sane(env)
    ensures forall ep :: Parse(env, text, listen) == Some(ep) ==> Parse(env, Format(ep), listen) == Some(ep)
  {
    if Parse(env, text, listen).Some? {
      ParseGivesCanonical(env, text, listen);
      FormatRoundTrip(env, Parse(env, text, listen).value, listen);
    }
  }

  /** The endpoints that survive are exactly the ones some text denotes. */
  lemma CanonicalIffParsed(env: Platform, ep: Endpoint, listen: bool)
    requires Sane(env)
    ensures Canonical(env, ep, listen) <==> exists text :: Parse(env, text, listen) == Some(ep)
  {
    if Canonical(env, ep, listen) {
      FormatRoundTrip(env, ep, listen);
    }
    if text :| Parse(env, text, listen) == Some(ep) {
      ParseGivesCanonical(env, text, listen);
    }
  }

  /** Two endpoints of one mode share a spelling only when they are the same endpoint. */
  lemma FormatInjective(env: Platform, a: Endpoint, b: Endpoint, listen: bool)
    requires Sane(env) && Canonical(env, a, listen) && Canonical(env, b, listen)
    requires Format(a) == Format(b)
    ensures a == b
  {
    FormatRoundTrip(env, a, listen);
    FormatRoundTrip(env, b, listen);
  }

  // ---------------------------------------------------------------------
  // Conversions between the dialing and the listening form

  /** What Link and ResolveEndpoint do to a dial endpoint they listen on. */
  function DropHost(ep: Endpoint): Endpoint { ep.(host := "") }

  /** What ResolveDial does to the listen endpoint a sibling hub recorded. */
  function FillLoopback(ep: Endpoint): Endpoint {
    if ep.kind == Tcp && ep.host == "" then
      ep.(host := if ep.family == IPv6 then "::1" else "127.0.0.1")
    else ep
  }

  /** A dial endpoint without its host is an endpoint the listen grammar accepts. */
  lemma DialDropsToListen(env: Platform, text: string, ep: Endpoint)
    requires Sane(env) && Parse(env, text, false) == Some(ep)
    ensures Parse(env, Format(DropHost(ep)), true) == Some(DropHost(ep))
  {
    ParseGivesCanonical(env, text, false);
    FormatRoundTrip(env, DropHost(ep), true);
  }

  lemma FillIsCanonical(env: Platform, ep: Endpoint)
    requires Sane(env) && Canonical(env, ep, true)
    ensures Canonical(env, FillLoopback(ep), false)
  {
    var d := FillLoopback(ep);
    if ep.kind == Tcp {
      assert "::1"[0] == ':';
      assert '%' !in "::1" && ']' !in "::1" && ':' !in "127.0.0.1" && ']' !in "127.0.0.1";
      assert CanonicalHost(env, d.host, d.family);
    }
  }

  /** A listen endpoint with the loopback of its family is one the dial grammar accepts. */
  lemma ListenFillsToDial(env: Platform, text: string, ep: Endpoint)
    requires Sane(env) && Parse(env, text, true) == Some(ep)
    ensures var d := FillLoopback(ep);
      && Parse(env, Format(d), false) == Some(d)
      && d.family == ep.family && d.num == ep.num && d.kind == ep.kind && d.name == ep.name
      && DropHost(d) == ep
      && (d.kind == Tcp ==> d.host == if d.family == IPv6 then "::1" else "127.0.0.1")
  {
    ParseGivesCanonical(env, text, true);
    FillIsCanonical(env, ep);
    FormatRoundTrip(env, FillLoopback(ep), false);
    hide Parse, Format;
  }
}
