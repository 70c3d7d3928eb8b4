/** The peer endpoint: which text the WireGuard device is given, and which address the routes go around. */
module Endpoint {
  import opened Bytes
  import opened HostPort
  import opened Strings
  import opened Kernel
  import opened Router
  import opened DeviceState

  // ---------- addresses ----------

  ghost predicate TwoColons(s: Text) {
    exists i, j :: 0 <= i < j < |s| && s[i] == COLON && s[j] == COLON
  }

  /** netip.ParseAddr, zones left aside. */
  datatype AddrParser = AddrParser(parse: Text -> Option<Addr>) {
    /** IPv4 text has no colon, IPv6 text has two, and neither starts with a bracket. */
    ghost predicate Lawful() {
      forall s: Text :: parse(s).Some? ==>
        && s != [] && s[0] != OPEN
        && (parse(s).value.fam == V4 ==> COLON !in s)
        && (parse(s).value.fam == V6 ==> TwoColons(s))
    }

    /** The text of an address that needs no trimming. */
    ghost predicate PlainIp(s: Text) {
      parse(s).Some? && NoBrackets(s) && s != [] && !IsSpace(s[0]) && !IsSpace(s[|s| - 1])
    }
  }

  /** strconv.ParseUint(_, 10, 16) succeeds. */
  predicate IsPort(s: Text) {
    s != [] && AllDigits(s) && Value(s) < 65536
  }

  /** netip.ParseAddrPort. */
  function ParseAddrPort(p: AddrParser, s: Text): Option<Addr> {
    var i := LastIndexOf(s, COLON);
    if i <= 0 || !IsPort(s[i + 1..]) then None
    else if s[0] == OPEN then
      if i < 2 || s[i - 1] != CLOSE then None
      else match p.parse(s[1..i - 1])
        case None => None
        case Some(a) => if a.fam == V6 then Some(a) else None
    else match p.parse(s[..i])
      case None => None
      case Some(a) => if a.fam == V4 then Some(a) else None
  }

  function ParseEndpointAddr(p: AddrParser, raw: Text): Option<Addr> {
    var s := TrimSpace(raw);
    if s == [] then None
    else if ParseAddrPort(p, s).Some? then Some(Unmap(ParseAddrPort(p, s).value))
    else if p.parse(s).Some? then Some(Unmap(p.parse(s).value))
    else match SplitHostPort(s)
      case None => None
      case Some(hp) => if p.parse(hp.host).Some? then Some(Unmap(p.parse(hp.host).value)) else None
  }

  // ---------- endpoints ----------

  function EndpointHost(raw: Text): Text {
    var s := TrimSpace(raw);
    if s == [] then []
    else match SplitHostPort(s)
      case Some(hp) => TrimBrackets(hp.host)
      case None => TrimBrackets(s)
  }

  function JoinEndpoint(ip: Text, endpoint: Text): Text {
    if ip == [] || EndpointHost(ip) == [] then []
    else match SplitHostPort(endpoint)
      case None => EndpointHost(ip)
      case Some(hp) => JoinHostPort(EndpointHost(ip), hp.port)
  }

  function EnsurePort(raw: Text, fallback: Text): Text {
    if raw == [] then []
    else if SplitHostPort(raw).Some? then raw
    else JoinEndpoint(raw, fallback)
  }

  /** selectPeerEndpoint. */
  function SelectEndpoint(st: State, stack: Stack): Text {
    var v4 := EnsurePort(st.peerEndpointV4, st.peerEndpoint);
    var v6 := EnsurePort(st.peerEndpointV6, st.peerEndpoint);
    match stack
    case Only4 => if v4 != [] then v4 else st.peerEndpoint
    case Only6 => if v6 != [] then v6 else st.peerEndpoint
    case Dual => if v4 != [] then v4 else if v6 != [] then v6 else st.peerEndpoint
  }

  /** selectPeerEndpointAddress. */
  function SelectAddress(p: AddrParser, st: State, stack: Stack): Option<Addr> {
    var v4 := ParseEndpointAddr(p, st.peerEndpointV4);
    var v6 := ParseEndpointAddr(p, st.peerEndpointV6);
    match stack
    case Only4 => v4
    case Only6 => v6
    case Dual => if v4.Some? then v4 else v6
  }

  // ---------- trimming ----------

  /** Trimming the right end of a joined address only shortens its port. */
  lemma {:induction false} TrimRightOfColon(a: Text, port: Text)
    ensures TrimRight(a + [COLON] + port, IsSpace) == a + [COLON] + TrimRight(port, IsSpace)
  {
    var s := a + [COLON] + port;
    if port != [] && IsSpace(port[|port| - 1]) {
      assert s[..|s| - 1] == a + [COLON] + port[..|port| - 1];
      TrimRightOfColon(a, port[..|port| - 1]);
    } else {
      assert port != [] ==> s[|s| - 1] == port[|port| - 1];
      assert port == [] ==> s[|s| - 1] == COLON;
      assert TrimRight(port, IsSpace) == port && TrimRight(s, IsSpace) == s;
    }
  }

  lemma TrimSpaceOfJoin(ip: Text, port: Text)
    requires ip != [] && !IsSpace(ip[0])
    ensures TrimSpace(JoinHostPort(ip, port)) == JoinHostPort(ip, TrimRight(port, IsSpace))
  {
    JoinIsJoined(ip, port);
    JoinIsJoined(ip, TrimRight(port, IsSpace));
    TrimRightOfColon(Joined(ip), port);
    var s := JoinHostPort(ip, port);
    hide TrimRight, JoinHostPort, Joined;
    assert TrimLeft(s, IsSpace) == s;
  }

  lemma JoinIsJoined(ip: Text, port: Text)
    requires ip != [] && !IsSpace(ip[0])
    ensures JoinHostPort(ip, port) == Joined(ip) + [COLON] + port
    ensures !IsSpace(JoinHostPort(ip, port)[0])
  {
  }

  // ---------- address text ----------

  predicate PlainPort(port: Text) {
    NoBrackets(port) && COLON !in port
  }

  lemma ColonBeforeLast(s: Text)
    requires TwoColons(s)
    ensures 0 <= LastIndexOf(s, COLON) && COLON in s[..LastIndexOf(s, COLON)]
  {
    hide LastIndexOf;
    var j, k :| 0 <= j < k < |s| && s[j] == COLON && s[k] == COLON;
    assert s[..LastIndexOf(s, COLON)][j] == COLON;
  }

  lemma OneColon(a: Text, b: Text)
    requires COLON !in a && COLON !in b
    ensures !TwoColons(a + [COLON] + b)
  {
    var s := a + [COLON] + b;
    forall i | 0 <= i < |s| && s[i] == COLON
      ensures i == |a|
    {
    }
  }

  /** Host text that needs no trimming and does not fall apart into a host and a port. */
  predicate PlainHost(h: Text) {
    h != [] && NoBrackets(h) && !IsSpace(h[0]) && !IsSpace(h[|h| - 1]) && SplitHostPort(h).None?
  }

  lemma PlainIpIsPlainHost(p: AddrParser, ip: Text)
    requires p.Lawful() && p.PlainIp(ip)
    ensures PlainHost(ip)
  {
    if p.parse(ip).value.fam == V6 {
      ColonBeforeLast(ip);
    }
  }

  lemma PlainHostStays(h: Text)
    requires PlainHost(h)
    ensures EndpointHost(h) == h
  {
    TrimKeeps(h, IsSpace);
    TrimBracketsKeeps(h);
  }

  lemma JoinedHost(h: Text, port: Text)
    requires PlainHost(h) && PlainPort(port)
    ensures SplitHostPort(JoinHostPort(h, port)) == Some(HostPort(h, port))
    ensures EndpointHost(JoinHostPort(h, port)) == h
  {
    SplitOfJoin(h, port);
    TrimSpaceOfJoin(h, port);
    var port' := TrimRight(port, IsSpace);
    assert forall c | c in port' :: c in port;
    SplitOfJoin(h, port');
    TrimBracketsKeeps(h);
  }

  lemma FamilyOfPlainIp(p: AddrParser, ip: Text)
    requires p.Lawful() && p.PlainIp(ip)
    ensures ip != [] && ip[0] != OPEN
    ensures p.parse(ip).value.fam == V6 <==> COLON in ip
  {
  }

  lemma ParseAddrPortOfBracketed(p: AddrParser, ip: Text, s: Text, i: nat)
    requires 2 <= i < |s| && s[0] == OPEN && s[i - 1] == CLOSE && s[1..i - 1] == ip && LastIndexOf(s, COLON) == i
    ensures ParseAddrPort(p, s).None? || ParseAddrPort(p, s) == p.parse(ip)
  {
    hide LastIndexOf, IsPort;
  }

  lemma ParseAddrPortOfBare(p: AddrParser, ip: Text, s: Text, i: nat)
    requires 0 < i < |s| && s[0] != OPEN && s[..i] == ip && LastIndexOf(s, COLON) == i
    ensures ParseAddrPort(p, s).None? || ParseAddrPort(p, s) == p.parse(ip)
  {
    hide LastIndexOf, IsPort;
  }

  /** ParseAddrPort on a joined address fails or gives the address of the host part. */
  lemma ParseAddrPortOfJoin(p: AddrParser, ip: Text, port: Text)
    requires p.Lawful() && p.PlainIp(ip) && PlainPort(port)
    ensures var r := ParseAddrPort(p, JoinHostPort(ip, port)); r.None? || r == p.parse(ip)
  {
    FamilyOfPlainIp(p, ip);
    assert NoBrackets(ip) && NoBrackets(port) && COLON !in port;
    hide AddrParser.Lawful, AddrParser.PlainIp, LastIndexOf, IsPort, ParseAddrPort, NoBrackets;
    if COLON in ip {
      var s := [OPEN] + ip + [CLOSE, COLON] + port;
      BracketedIndices(ip, port, s);
      ParseAddrPortOfBracketed(p, ip, s, |ip| + 2);
    } else {
      var s := ip + [COLON] + port;
      LastColon(ip, port);
      ParseAddrPortOfBare(p, ip, s, |ip|);
    }
  }

  lemma JoinIsNoAddr(p: AddrParser, ip: Text, port: Text)
    requires p.Lawful() && p.PlainIp(ip) && PlainPort(port)
    ensures p.parse(JoinHostPort(ip, port)) == None
  {
    var s := JoinHostPort(ip, port);
    if COLON in ip {
      assert s[0] == OPEN;
    } else {
      OneColon(ip, port);
      assert s[|ip|] == COLON;
      assert COLON in s;
    }
  }

  lemma ParseOfJoin(p: AddrParser, ip: Text, port: Text)
    requires p.Lawful() && p.PlainIp(ip) && PlainPort(port)
    ensures ParseEndpointAddr(p, JoinHostPort(ip, port)) == Some(Unmap(p.parse(ip).value))
  {
    TrimSpaceOfJoin(ip, port);
    var port' := TrimRight(port, IsSpace);
    assert forall c | c in port' :: c in port;
    ParseAddrPortOfJoin(p, ip, port');
    JoinIsNoAddr(p, ip, port');
    SplitOfJoin(ip, port');
  }

  lemma ParseOfPlain(p: AddrParser, ip: Text)
    requires p.Lawful() && p.PlainIp(ip)
    ensures ParseEndpointAddr(p, ip) == Some(Unmap(p.parse(ip).value))
  {
    TrimKeeps(ip, IsSpace);
    if p.parse(ip).value.fam == V6 {
      ColonBeforeLast(ip);
    }
  }

  // ---------- the endpoint of a device state ----------

  /** stateFromWarpDevice. */
  function StateFromDevice(
    d: Device, fallbackId: Text, fallbackToken: Text, privateKey: Text, publicKey: Text): Option<State>
  {
    var id := if d.id == [] then fallbackId else d.id;
    var token := if d.token == [] then fallbackToken else d.token;
    if id == [] || token == [] || d.peers == [] then None
    else
      var peer := d.peers[0];
      Some(State(
        1, id, token, privateKey,
        if publicKey == [] then d.key else publicKey,
        d.clientId, d.addressV4, d.addressV6,
        peer.publicKey, peer.host,
        JoinEndpoint(peer.v4, peer.host),
        JoinEndpoint(peer.v6, peer.host),
        d.license, d.warpEnabled, TunnelProtocol(d), d.created, d.updated))
  }

  /** effectiveTunnelProtocol. */
  function TunnelProtocol(d: Device): Text {
    var own := ToLower(TrimSpace(d.tunnelType));
    var policy := ToLower(TrimSpace(d.policyProtocol));
    if own != [] then own
    else if policy == WIREGUARD() || LooksLikeWireGuard(d) then WIREGUARD()
    else policy
  }

  function WIREGUARD(): Text {
    Lit("wireguard")
  }

  function LooksLikeWireGuard(d: Device): bool {
    || ToLower(TrimSpace(d.keyType)) == Lit("curve25519")
    || (d.peers != [] &&
        (var e := d.peers[0];
         || 2408 in e.ports
         || EndpointPort(e.host) == Lit("2408")
         || EndpointPort(e.v4) == Lit("2408")
         || EndpointPort(e.v6) == Lit("2408")))
  }

  function EndpointPort(raw: Text): Text {
    var s := TrimSpace(raw);
    if s == [] then []
    else match SplitHostPort(s)
      case None => []
      case Some(hp) => hp.port
  }

  // ---------- what a field of a device names ----------

  /** A host name: plain text that is no address. */
  ghost predicate PlainName(p: AddrParser, h: Text) {
    h != [] && NoBrackets(h) && !IsSpace(h[0]) && !IsSpace(h[|h| - 1]) && COLON !in h && p.parse(h).None?
  }

  /** A field that is blank, or names an address or a host. */
  ghost predicate Textual(p: AddrParser, v: Text) {
    var h := EndpointHost(v);
    h == [] || p.PlainIp(h) || PlainName(p, h)
  }

  function Bracketed(h: Text): Text {
    [OPEN] + h + [CLOSE]
  }

  /** The ways to write a host in a field: bare or in brackets, with or without a port, between any white space. */
  lemma WrittenHost(v: Text, h: Text, port: Text)
    requires PlainHost(h) && PlainPort(port) && (port == [] || !IsSpace(port[|port| - 1]))
    requires TrimSpace(v) in {h, Bracketed(h), JoinHostPort(h, port), Bracketed(h) + [COLON] + port}
    ensures EndpointHost(v) == h
  {
    var s := TrimSpace(v);
    assert s != [] && JoinHostPort(h, port) != [];
    hide TrimSpace, TrimBrackets, SplitHostPort, JoinHostPort, IsSpace;
    TrimBracketsKeeps(h);
    if s == h {
      assert EndpointHost(v) == TrimBrackets(s);
    } else if s == Bracketed(h) {
      BracketedDoesNotSplit(h);
      TrimOfBracketed(h);
    } else if s == JoinHostPort(h, port) {
      SplitOfJoin(h, port);
    } else {
      SplitOfBracketed(h, port);
    }
  }

  lemma SplitOfBracketed(h: Text, port: Text)
    requires h != [] && NoBrackets(h) && PlainPort(port)
    ensures SplitHostPort(Bracketed(h) + [COLON] + port) == Some(HostPort(h, port))
  {
    hide LastIndexOf, IndexOf, SplitBracketed, SplitPlain, NoBrackets;
    var s := [OPEN] + h + [CLOSE, COLON] + port;
    assert Bracketed(h) + [COLON] + port == s && s[0] == OPEN;
    BracketedIndices(h, port, s);
    BracketedSlices(h, port, s);
  }

  lemma BracketedDoesNotSplit(h: Text)
    requires NoBrackets(h)
    ensures SplitHostPort(Bracketed(h)).None?
  {
    var s := Bracketed(h);
    assert s[|h| + 1] == CLOSE;
    assert forall i | 0 < i <= |h| :: s[i] == h[i - 1];
    assert forall i | 0 <= i <= |h| :: s[i] != CLOSE;
    assert IndexOf(s, CLOSE) == |h| + 1;
  }

  lemma TrimOfBracketed(h: Text)
    requires NoBrackets(h) && h != []
    ensures TrimBrackets(Bracketed(h)) == h
  {
    var s := Bracketed(h);
    assert s[1..] == h + [CLOSE];
    assert h[0] in h && h[|h| - 1] in h;
    assert TrimLeft(s, IsBracket) == TrimLeft(h + [CLOSE], IsBracket) == h + [CLOSE];
    assert (h + [CLOSE])[..|h|] == h;
    assert TrimRight(h + [CLOSE], IsBracket) == TrimRight(h, IsBracket) == h;
  }

  /** The normal form of an endpoint: the host text, with the port of the host endpoint when that has one. */
  function Normal(h: Text, host: Text): Text {
    match SplitHostPort(host)
    case None => h
    case Some(hp) => JoinHostPort(h, hp.port)
  }

  lemma JoinEndpointIsNormal(v: Text, host: Text)
    ensures JoinEndpoint(v, host) == if EndpointHost(v) == [] then [] else Normal(EndpointHost(v), host)
  {
  }

  lemma NormalHost(h: Text, host: Text)
    requires PlainHost(h)
    ensures EndpointHost(Normal(h, host)) == h && Normal(h, host) != []
    ensures EnsurePort(Normal(h, host), host) == Normal(h, host)
  {
    SplitParts(host);
    if SplitHostPort(host).Some? {
      JoinedHost(h, SplitHostPort(host).value.port);
    } else {
      PlainHostStays(h);
    }
  }

  /** Normalising a second time changes nothing, and neither does adding a missing port. */
  lemma NormalisationIsIdempotent(v: Text, host: Text)
    requires EndpointHost(v) == [] || PlainHost(EndpointHost(v))
    ensures JoinEndpoint(JoinEndpoint(v, host), host) == JoinEndpoint(v, host)
    ensures EnsurePort(JoinEndpoint(v, host), host) == JoinEndpoint(v, host)
  {
    JoinEndpointIsNormal(v, host);
    if EndpointHost(v) != [] {
      NormalHost(EndpointHost(v), host);
      JoinEndpointIsNormal(Normal(EndpointHost(v), host), host);
    }
  }

  lemma ParseOfNormal(p: AddrParser, ip: Text, host: Text)
    requires p.Lawful() && p.PlainIp(ip)
    ensures ParseEndpointAddr(p, Normal(ip, host)) == Some(Unmap(p.parse(ip).value))
  {
    SplitParts(host);
    match SplitHostPort(host)
    case None => ParseOfPlain(p, ip);
    case Some(hp) => ParseOfJoin(p, ip, hp.port);
  }

  lemma NoAddrInName(p: AddrParser, name: Text, port: Text)
    requires p.Lawful() && PlainName(p, name) && PlainPort(port)
    ensures ParseEndpointAddr(p, name).None? && ParseEndpointAddr(p, JoinHostPort(name, port)).None?
  {
    TrimKeeps(name, IsSpace);
    TrimSpaceOfJoin(name, port);
    var port' := TrimRight(port, IsSpace);
    assert forall c | c in port' :: c in port;
    assert PlainPort(port') && JoinHostPort(name, port') == name + [COLON] + port';
    NoColonNoAddr(p, name);
    hide LastIndexOf, IsPort, TrimRight, SplitHostPort, ParseAddrPort, AddrParser.Lawful, PlainName;
    NamedPortIsNoAddr(p, name, port');
  }

  lemma NoColonNoAddr(p: AddrParser, name: Text)
    requires p.Lawful() && PlainName(p, name)
    ensures name != [] && COLON !in name && p.parse(name).None?
    ensures ParseAddrPort(p, name).None? && SplitHostPort(name).None?
  {
  }

  lemma NamedPortIsNoAddr(p: AddrParser, name: Text, port: Text)
    requires p.Lawful() && PlainName(p, name) && PlainPort(port)
    ensures var s := name + [COLON] + port;
            ParseAddrPort(p, s).None? && p.parse(s).None? && SplitHostPort(s) == Some(HostPort(name, port))
  {
    hide LastIndexOf, IsPort, SplitHostPort, TwoColons;
    var s := name + [COLON] + port;
    SplitOfJoin(name, port);
    LastColon(name, port);
    OneColon(name, port);
    assert s[0] == name[0] && s[|name|] == COLON && s[..|name|] == name;
  }

  lemma ParseOfNormalName(p: AddrParser, name: Text, host: Text)
    requires p.Lawful() && PlainName(p, name)
    ensures ParseEndpointAddr(p, Normal(name, host)).None?
  {
    SplitParts(host);
    NoAddrInName(p, name, if SplitHostPort(host).Some? then SplitHostPort(host).value.port else []);
  }

  /** Which of the two hosts of a peer a stack uses; empty when it falls back to the host endpoint. */
  function Preferred(h4: Text, h6: Text, stack: Stack): Text {
    match stack
    case Only4 => h4
    case Only6 => h6
    case Dual => if h4 != [] then h4 else h6
  }

  lemma FieldNormalises(p: AddrParser, v: Text, host: Text)
    requires p.Lawful() && Textual(p, v)
    ensures var h, field := EndpointHost(v), JoinEndpoint(v, host);
            && EnsurePort(field, host) == field
            && field == (if h == [] then [] else Normal(h, host))
            && (h != [] ==> field != [])
            && ParseEndpointAddr(p, field) ==
                 if h == [] || p.parse(h).None? then None else Some(Unmap(p.parse(h).value))
  {
    var h := EndpointHost(v);
    JoinEndpointIsNormal(v, host);
    if h != [] {
      if p.PlainIp(h) {
        PlainIpIsPlainHost(p, h);
        ParseOfNormal(p, h, host);
      } else {
        ParseOfNormalName(p, h, host);
      }
      NormalHost(h, host);
    }
  }

  /** The hosts that the two endpoint fields of a device's peer name. */
  function PreferredHost(d: Device, stack: Stack): Text
    requires d.peers != []
  {
    Preferred(EndpointHost(d.peers[0].v4), EndpointHost(d.peers[0].v6), stack)
  }

  /**
   * For a state built from a device whose endpoint fields are blank or name addresses or hosts. The text given to the
   * WireGuard device is the preferred field's host with the port of the host endpoint, or else the host endpoint.
   * The address to route around, when there is one, is the one that this text names, up to IPv4-mapped form, unless a
   * dual stack has a host name in its IPv4 field and an address in its IPv6 field.
   */
  lemma EndpointsAgree(p: AddrParser, d: Device, id: Text, token: Text, privateKey: Text, publicKey: Text, stack: Stack)
    requires p.Lawful() && StateFromDevice(d, id, token, privateKey, publicKey).Some?
    requires Textual(p, d.peers[0].v4) && Textual(p, d.peers[0].v6)
    ensures var st := StateFromDevice(d, id, token, privateKey, publicKey).value;
            var h4, h6 := EndpointHost(d.peers[0].v4), EndpointHost(d.peers[0].v6);
            var h, chosen := PreferredHost(d, stack), SelectAddress(p, st, stack);
            && SelectEndpoint(st, stack) == (if h == [] then d.peers[0].host else Normal(h, d.peers[0].host))
            && (h != [] && p.parse(h).Some? ==> chosen == Some(Unmap(p.parse(h).value)))
            && (h == [] ==> chosen == None)
            && ((chosen.Some? ==> h != [] && p.parse(h).Some?)
                <==> !(stack == Dual && h4 != [] && p.parse(h4).None? && h6 != [] && p.parse(h6).Some?))
  {
    hide JoinEndpoint, EnsurePort, Normal, ParseEndpointAddr, EndpointHost, Textual, TunnelProtocol,
         AddrParser.Lawful, AddrParser.PlainIp, Unmap, TrimSpace;
    var peer := d.peers[0];
    FieldNormalises(p, peer.v4, peer.host);
    FieldNormalises(p, peer.v6, peer.host);
  }

  // ---------- which devices speak WireGuard ----------

  /** An endpoint text whose port is 2408. */
  ghost predicate HasPort2408(v: Text) {
    exists m :: Trimmed(v, m) && SplitHostPort(m).Some? && SplitHostPort(m).value.port == Lit("2408")
  }

  /** In terms of what the API reports: the tunnel type decides if there is one; otherwise any of these signs. */
  ghost predicate SpeaksWireGuard(d: Device) {
    || Says(d.tunnelType, Lit("wireguard"))
    || (Blank(d.tunnelType) &&
        (|| Says(d.policyProtocol, Lit("wireguard"))
         || Says(d.keyType, Lit("curve25519"))
         || (d.peers != [] &&
             (|| 2408 in d.peers[0].ports
              || HasPort2408(d.peers[0].host) || HasPort2408(d.peers[0].v4) || HasPort2408(d.peers[0].v6)))))
  }

  lemma PortIff(v: Text)
    ensures EndpointPort(v) == Lit("2408") <==> HasPort2408(v)
  {
    TrimSpaceIff(v, TrimSpace(v));
    hide TrimSpace, Trimmed, SplitHostPort;
    SplitOfNothing();
    if m :| Trimmed(v, m) && SplitHostPort(m).Some? && SplitHostPort(m).value.port == Lit("2408") {
      TrimSpaceIff(v, m);
    }
  }

  lemma SplitOfNothing()
    ensures SplitHostPort([]).None?
  {
  }

  lemma NoCapitals()
    ensures forall c | c in Lit("wireguard") :: !(65 <= c <= 90)
    ensures forall c | c in Lit("curve25519") :: !(65 <= c <= 90)
    ensures Lit("wireguard") != []
  {
  }

  lemma ProtocolIff(d: Device)
    ensures TunnelProtocol(d) == WIREGUARD() <==> SpeaksWireGuard(d)
  {
    NoCapitals();
    SaysIff(d.tunnelType, Lit("wireguard"));
    SaysIff(d.policyProtocol, Lit("wireguard"));
    SaysIff(d.keyType, Lit("curve25519"));
    BlankIff(d.tunnelType);
    LowerIsEmptyIff(TrimSpace(d.tunnelType));
    if d.peers != [] {
      PortIff(d.peers[0].host);
      PortIff(d.peers[0].v4);
      PortIff(d.peers[0].v6);
    }
    hide TrimSpace, ToLower, EndpointPort, Says, Blank, HasPort2408, Lit;
  }

  lemma LowerIsEmptyIff(s: Text)
    ensures ToLower(s) == [] <==> s == []
  {
  }

  // ---------- the port of the text ----------

  /**
   * The text that is given to the WireGuard device for a field of a state, whoever wrote the state: a field with a
   * port is taken as it is; one that only names a host gets the port of the host endpoint, when that has one; and one
   * that names nothing is passed over.
   */
  lemma PortIsAdded(raw: Text, host: Text)
    ensures SplitHostPort(raw).Some? ==> EnsurePort(raw, host) == raw
    ensures SplitHostPort(raw).None? && PlainHost(EndpointHost(raw)) && SplitHostPort(host).Some? ==>
              SplitHostPort(EnsurePort(raw, host)) == Some(HostPort(EndpointHost(raw), SplitHostPort(host).value.port))
    ensures SplitHostPort(raw).None? && PlainHost(EndpointHost(raw)) && SplitHostPort(host).None? ==>
              EnsurePort(raw, host) == EndpointHost(raw)
    ensures SplitHostPort(raw).None? && EndpointHost(raw) == [] ==> EnsurePort(raw, host) == []
  {
    hide TrimSpace, TrimBrackets, JoinHostPort, SplitHostPort;
    SplitOfNothing();
    NothingNamed();
    SplitParts(host);
    if PlainHost(EndpointHost(raw)) && SplitHostPort(host).Some? {
      JoinedHost(EndpointHost(raw), SplitHostPort(host).value.port);
    }
  }

  lemma NothingNamed()
    ensures EndpointHost([]) == []
  {
  }

  // ---------- the address in a text ----------

  /** The ways to write an address in a field of a state, between any white space. */
  ghost predicate WrittenIp(raw: Text, ip: Text, port: Text) {
    exists m :: Trimmed(raw, m) && m in {ip, JoinHostPort(ip, port), Bracketed(ip) + [COLON] + port}
  }

  /** Whoever wrote the state: the address found in a field is the one written there, up to IPv4-mapped form. */
  lemma WrittenIpIsFound(p: AddrParser, raw: Text, ip: Text, port: Text)
    requires p.Lawful() && p.PlainIp(ip) && PlainPort(port) && WrittenIp(raw, ip, port)
    ensures ParseEndpointAddr(p, raw) == Some(Unmap(p.parse(ip).value))
  {
    hide TrimSpace, Trimmed, ParseAddrPort, SplitHostPort, Unmap, AddrParser.Lawful, AddrParser.PlainIp, JoinHostPort;
    var m :| Trimmed(raw, m) && m in {ip, JoinHostPort(ip, port), Bracketed(ip) + [COLON] + port};
    TrimSpaceIff(raw, m);
    TrimmedStays(raw, m);
    TrimSpaceIff(m, m);
    assert ParseEndpointAddr(p, raw) == ParseEndpointAddr(p, m);
    if m == ip {
      ParseOfPlain(p, ip);
    } else if m == JoinHostPort(ip, port) {
      ParseOfJoin(p, ip, port);
    } else {
      ParseOfBracketed(p, ip, port);
    }
  }

  lemma TrimmedStays(s: Text, m: Text)
    requires Trimmed(s, m)
    ensures Trimmed(m, m)
  {
    var i :| TrimmedAt(s, m, i);
    assert m != [] ==> m[0] == s[i] && m[|m| - 1] == s[i + |m| - 1];
    assert m == m[0..|m|] && m[..0] == [] && m[|m|..] == [];
    assert TrimmedAt(m, m, 0);
  }

  lemma ParseOfBracketed(p: AddrParser, ip: Text, port: Text)
    requires p.Lawful() && p.PlainIp(ip) && PlainPort(port)
    requires TrimSpace(Bracketed(ip) + [COLON] + port) == Bracketed(ip) + [COLON] + port
    ensures ParseEndpointAddr(p, Bracketed(ip) + [COLON] + port) == Some(Unmap(p.parse(ip).value))
  {
    var s := [OPEN] + ip + [CLOSE, COLON] + port;
    assert Bracketed(ip) + [COLON] + port == s && s[0] == OPEN;
    FamilyOfPlainIp(p, ip);
    BracketedIndices(ip, port, s);
    SplitOfBracketed(ip, port);
    StartsWithBracket(p, s);
    hide LastIndexOf, IndexOf, IsPort, SplitHostPort, TrimSpace, AddrParser.Lawful, AddrParser.PlainIp;
    ParseAddrPortOfBracketed(p, ip, s, |ip| + 2);
  }

  lemma StartsWithBracket(p: AddrParser, s: Text)
    requires p.Lawful() && s != [] && s[0] == OPEN
    ensures p.parse(s).None?
  {
  }

  // ---------- the laws can be met ----------

  /** A parser that knows the texts "0.0.0.0" and "::". */
  function ParseTwo(s: Text): Option<Addr> {
    if s == [48, 46, 48, 46, 48, 46, 48] then Some(Zero(V4)) else if s == [COLON, COLON] then Some(Zero(V6)) else None
  }

  function Zero(fam: Family): Addr {
    Prefix(fam, seq(Width(fam), i => false))
  }

  lemma ParserLawsAreConsistent()
    ensures AddrParser(ParseTwo).Lawful()
    ensures AddrParser(ParseTwo).PlainIp([48, 46, 48, 46, 48, 46, 48]) && AddrParser(ParseTwo).PlainIp([COLON, COLON])
  {
    var s: Text := [COLON, COLON];
    assert s[0] == COLON && s[1] == COLON;
    assert TwoColons(s);
  }
}
