/**
 * Servers chained through upstream dialers: runSOCKS5Server sets the server's dial to a Dialer, so a target that one
 * server reads is the address its dialer asks the next server for.
 */
module Chain {
  import opened Bytes
  import opened HostPort
  import opened IpText
  import opened Wire
  import Handshake

  /** One hop: the dialer's request for an address, read by the next server. None when the dialer refuses it. */
  function Hop(codec: Codec, address: Text): Option<Text> {
    match Destination(address)
    case None => None
    case Some((host, port)) =>
      match ReadRequest(codec, RequestMessage(codec, host, port))
      case None => None
      case Some(r) => Some(r.Target())
  }

  /** The target of the last of n further servers. */
  function Hops(codec: Codec, address: Text, n: nat): Option<Text>
    decreases n
  {
    if n == 0 then Some(address)
    else match Hop(codec, address)
      case None => None
      case Some(next) => Hops(codec, next, n - 1)
  }

  lemma DestinationOfTarget(host: Text, port: nat)
    requires port < 65536
    ensures Destination(JoinHostPort(host, Itoa(port))) == Some((host, port)) <==> NoBrackets(host)
  {
    ItoaPlain(port);
    AtoiOfItoa(port);
    SplitOfJoin(host, Itoa(port));
    SplitParts(JoinHostPort(host, Itoa(port)));
  }

  /** A hop for a host without brackets asks for the same port and the same host, up to its canonical IP text. */
  lemma HopCanonical(codec: Codec, host: Text, port: nat)
    requires codec.Lawful() && NoBrackets(host) && port < 65536
    requires codec.parse(host).Some? || |host| < 256
    ensures Hop(codec, JoinHostPort(host, Itoa(port))) == Some(JoinHostPort(codec.Canonical(host), Itoa(port)))
  {
    hide Destination, ReadRequest, RequestMessage, JoinHostPort, Itoa, Codec.Canonical, Codec.Lawful;
    DestinationOfTarget(host, port);
    RequestRoundTrip(codec, host, port, []);
    assert RequestMessage(codec, host, port) + [] == RequestMessage(codec, host, port);
  }

  /** A hop is one dial: the target its server relays to in every completed run is the one computed here. */
  lemma HopIsDialTarget(cl: Handshake.Client, address: Text)
    requires cl.codec.Lawful() && cl.Fits() && Destination(address) == Some((cl.host, cl.port))
    ensures Hop(cl.codec, address) == Some(cl.Target())
  {
    hide ReadRequest, RequestMessage, JoinHostPort, Itoa, Codec.Canonical, Codec.Lawful, Destination;
    RequestRoundTrip(cl.codec, cl.host, cl.port, []);
    assert RequestMessage(cl.codec, cl.host, cl.port) + [] == RequestMessage(cl.codec, cl.host, cl.port);
  }

  lemma {:induction false} HopsFixed(codec: Codec, address: Text, n: nat)
    requires Hop(codec, address) == Some(address)
    ensures Hops(codec, address, n) == Some(address)
    decreases n
  {
    hide Hop;
    if 0 < n {
      HopsFixed(codec, address, n - 1);
    }
  }

  /** What a server reads from the wire is short enough to be sent on. */
  lemma RequestHostFits(codec: Codec, s: seq<Byte>)
    requires codec.Lawful()
    ensures ReadRequest(codec, s).Some? ==>
              var r := ReadRequest(codec, s).value;
              r.port < 65536 && (codec.parse(r.host).Some? || |r.host| < 256)
  {
  }

  /**
   * A chain of any positive length, entered by any client: the last server's target is the host and port the first
   * server read, with an IP literal in canonical text, exactly when that host has no bracket.
   */
  lemma ChainKeepsTarget(codec: Codec, s: seq<Byte>, n: nat)
    requires codec.Lawful() && 0 < n && ReadRequest(codec, s).Some?
    ensures var r := ReadRequest(codec, s).value;
            Hops(codec, r.Target(), n) == Some(JoinHostPort(codec.Canonical(r.host), Itoa(r.port)))
            <==> NoBrackets(r.host)
  {
    hide ReadRequest, Hop, JoinHostPort, Itoa;
    var r := ReadRequest(codec, s).value;
    RequestHostFits(codec, s);
    if NoBrackets(r.host) {
      HopCanonical(codec, r.host, r.port);
      var host := codec.Canonical(r.host);
      HopCanonical(codec, host, r.port);
      HopsFixed(codec, JoinHostPort(host, Itoa(r.port)), n - 1);
    } else {
      BracketsAreLost(codec, r.host, r.port, n);
    }
  }

  /** A target that came through a hop names a host without brackets, so a bracketed host never comes through. */
  lemma HopHasNoBrackets(codec: Codec, address: Text)
    requires codec.Lawful()
    ensures Hop(codec, address).Some? ==>
              exists host: Text, port: nat ::
                port < 65536 && NoBrackets(host) && Hop(codec, address) == Some(JoinHostPort(host, Itoa(port)))
  {
    if Hop(codec, address).Some? {
      var (host, port) := Destination(address).value;
      SplitParts(address);
      var r := ReadRequest(codec, RequestMessage(codec, host, port)).value;
      SentHostHasNoBrackets(codec, host, port);
      assert NoBrackets(r.host) && r.port < 65536;
    }
  }

  lemma SentHostHasNoBrackets(codec: Codec, host: Text, port: int)
    requires codec.Lawful() && NoBrackets(host) && ReadRequest(codec, RequestMessage(codec, host, port)).Some?
    ensures NoBrackets(ReadRequest(codec, RequestMessage(codec, host, port)).value.host)
  {
    var s := RequestMessage(codec, host, port);
    if codec.parse(host).Some? {
      RequestRoundTripPrefix(codec, host, port);
    } else {
      TruncatedName(codec, host, port);
    }
  }

  lemma RequestRoundTripPrefix(codec: Codec, host: Text, port: int)
    requires codec.Lawful() && codec.parse(host).Some? && ReadRequest(codec, RequestMessage(codec, host, port)).Some?
    ensures ReadRequest(codec, RequestMessage(codec, host, port)).value.host == codec.Canonical(host)
  {
    var f := AddressField(codec, host);
    var s := RequestMessage(codec, host, port);
    assert s[4..] == f[1..] + PutUint16(port);
    assert s[3] == f[0];
    ReadIpField(codec, codec.parse(host).value, PutUint16(port));
  }

  /** A name of 256 octets or more is cut off by its one-octet length. */
  lemma TruncatedName(codec: Codec, host: Text, port: int)
    requires codec.parse(host).None? && ReadRequest(codec, RequestMessage(codec, host, port)).Some?
    ensures ReadRequest(codec, RequestMessage(codec, host, port)).value.host == host[..|host| % 256]
  {
    var n: Byte := Low8(|host|);
    var s := RequestMessage(codec, host, port);
    var tail := host + PutUint16(port);
    assert s == [VERSION, CONNECT, 0, ATYP_DOMAIN] + ([n] + tail);
    ExactlyOf([VERSION, CONNECT, 0, ATYP_DOMAIN], [n] + tail);
    ExactlyOf([n], tail);
    assert tail[..n] == host[..n];
    assert ReadCounted([n] + tail) == Exactly(tail, n);
    hide Exactly, PutUint16;
  }

  lemma {:induction false} HopsEndInHop(codec: Codec, address: Text, n: nat) returns (last: Text)
    requires 0 < n && Hops(codec, address, n).Some?
    ensures Hop(codec, last) == Hops(codec, address, n)
    decreases n
  {
    hide Hop;
    if n == 1 {
      last := address;
    } else {
      last := HopsEndInHop(codec, Hop(codec, address).value, n - 1);
    }
  }

  lemma BracketsAreLost(codec: Codec, host: Text, port: nat, n: nat)
    requires codec.Lawful() && !NoBrackets(host) && 0 < n
    ensures Hops(codec, JoinHostPort(host, Itoa(port)), n) != Some(JoinHostPort(codec.Canonical(host), Itoa(port)))
  {
    var target := JoinHostPort(host, Itoa(port));
    if Hops(codec, target, n) == Some(target) {
      var last := HopsEndInHop(codec, target, n);
      HopHasNoBrackets(codec, last);
      var h: Text, p: nat :| p < 65536 && NoBrackets(h) && Hop(codec, last) == Some(JoinHostPort(h, Itoa(p)));
      ItoaPlain(port);
      ItoaPlain(p);
      JoinInjective(h, Itoa(p), host, Itoa(port));
    }
  }
}
