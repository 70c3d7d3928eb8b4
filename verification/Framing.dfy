/** Every message and every datagram in the numbers of RFC 1928 (sections 3 to 7) and RFC 1929 (section 2). */
module Framing {
  import opened Bytes
  import opened HostPort
  import opened IpText
  import opened Wire
  import opened UdpPacket
  import Socks5Client

  // ---------- fields ----------

  /** ATYP and the address: 1 and four octets, 4 and sixteen, or 3, a length octet and a name. */
  ghost predicate Encodes(f: seq<Byte>, a: Address) {
    match a
    case Octets4(b) => |b| == 4 && f == [1] + b
    case Octets16(b) => |b| == 16 && f == [4] + b
    case Name(n) => |n| < 256 && f == [3, |n|] + n
  }

  /** Network byte order. */
  ghost predicate BigEndian(p: seq<Byte>, n: int) {
    |p| == 2 && n == 256 * p[0] as int + p[1] as int
  }

  /** The sixteen octets of an IPv4 address. */
  ghost function FromV4(b: seq<Byte>): seq<Byte> {
    [0, 0, 0, 0, 0, 0, 0, 0, 0, 0, 255, 255] + b
  }

  /** The host text that an address field stands for. */
  ghost predicate ShownAs(codec: Codec, a: Address, host: Text) {
    match a
    case Octets4(b) => |b| == 4 && host == codec.show(FromV4(b))
    case Octets16(b) => |b| == 16 && host == codec.show(b)
    case Name(n) => host == n
  }

  /** The address field that a host is sent as: an IPv4 address, also when it is written as IPv6, has four octets. */
  ghost predicate SentAs(codec: Codec, host: Text, a: Address) {
    match a
    case Octets4(b) => |b| == 4 && codec.parse(host) == Some(FromV4(b))
    case Octets16(b) => codec.parse(host) == Some(b) && b[..12] != FromV4([])
    case Name(n) => codec.parse(host).None? && n == host
  }

  lemma FieldIff(f: seq<Byte>, a: Address)
    ensures Encodes(f, a) <==> a.Valid() && f == a.Field()
  {
  }

  lemma ShownIff(codec: Codec, a: Address, host: Text)
    requires a.Valid()
    ensures ShownAs(codec, a, host) <==> host == a.Host(codec)
  {
  }

  lemma PortIff(p: seq<Byte>, n: int)
    ensures BigEndian(p, n) <==> 0 <= n < 65536 && p == PutUint16(n)
  {
    Uint16RoundTrip(n);
    if |p| == 2 {
      PutUint16OfUint16(p);
    }
  }

  // ---------- what is sent ----------

  lemma SentField(codec: Codec, host: Text, f: seq<Byte>, a: Address)
    requires SentAs(codec, host, a) && Encodes(f, a)
    ensures AddressField(codec, host) == f
    ensures codec.parse(host).Some? ==> IpField(codec.parse(host).value) == f
  {
    if a.Octets4? {
      To4OfMapped(a.v4);
    }
  }

  /** A request for a host and a port, and the reply that carries them. */
  lemma MessageOctets(codec: Codec, host: Text, f: seq<Byte>, a: Address, p: seq<Byte>, port: int, code: Byte)
    requires SentAs(codec, host, a) && Encodes(f, a) && BigEndian(p, port)
    ensures RequestMessage(codec, host, port) == [5, 1, 0] + f + p
    ensures ReplyMessage(codec, code, host, port)
            == [5, code, 0] + (if codec.parse(host).Some? then f else [1, 0, 0, 0, 0]) + p
  {
    SentField(codec, host, f, a);
    PortIff(p, port);
    if codec.parse(host).None? {
      To4OfMapped([0, 0, 0, 0]);
      assert IpField(ANY_V4) == [1, 0, 0, 0, 0];
    }
    hide IpField, PutUint16;
  }

  /** The messages before the request. */
  lemma OpeningOctets(c: Credentials)
    ensures Greeting(None) == [5, 1, 0] && Greeting(Some(c)) == [5, 1, 2]
    ensures Welcome(None) == [5, 0] && Welcome(Some(c)) == [5, 2, 1, 0]
    ensures |c.user| < 256 && |c.pass| < 256 ==> AuthMessage(c) == [1, |c.user|] + c.user + [|c.pass|] + c.pass
  {
  }

  // ---------- what is read ----------

  /** An address, a port and the rest of a stream, as they stand in requests, replies and datagrams. */
  ghost predicate Laid(s: seq<Byte>, head: seq<Byte>, a: Address, port: int, rest: seq<Byte>) {
    exists f, p :: Encodes(f, a) && BigEndian(p, port) && s == head + f + p + rest
  }

  lemma LaidIff(s: seq<Byte>, head: seq<Byte>, a: Address, port: int, rest: seq<Byte>)
    ensures Laid(s, head, a, port, rest)
            <==> a.Valid() && 0 <= port < 65536 && s == head + a.Field() + PutUint16(port) + rest
  {
    hide Encodes, BigEndian, PutUint16, Address.Field;
    if f, p :| Encodes(f, a) && BigEndian(p, port) && s == head + f + p + rest {
      FieldIff(f, a);
      PortIff(p, port);
    }
    if a.Valid() && 0 <= port < 65536 {
      FieldIff(a.Field(), a);
      PortIff(PutUint16(port), port);
    }
  }

  lemma ReadAddressOf(codec: Codec, a: Address, rest: seq<Byte>)
    requires a.Valid()
    ensures var f := a.Field(); ReadAddress(codec, f[0], f[1..] + rest) == Some((a.Host(codec), rest))
  {
    var f := a.Field();
    match a
    case Octets4(b) => assert f[1..] == b; ExactlyOf(b, rest);
    case Octets16(b) => assert f[1..] == b; ExactlyOf(b, rest);
    case Name(n) => assert f[1..] + rest == [|n|] + n + rest; ReadCountedOf(n, rest);
  }

  lemma ReadAddressSound(codec: Codec, atyp: Byte, s: seq<Byte>) returns (a: Address)
    requires ReadAddress(codec, atyp, s).Some?
    ensures a.Valid() && ReadAddress(codec, atyp, s).value.0 == a.Host(codec)
    ensures a.Field()[0] == atyp && s == a.Field()[1..] + ReadAddress(codec, atyp, s).value.1
  {
    if atyp == ATYP_V4 {
      a := Octets4(s[..4]);
    } else if atyp == ATYP_V6 {
      a := Octets16(s[..16]);
    } else {
      a := Name(ReadCounted(s).value.bytes);
      ReadCountedSound(s);
    }
    assert a.Field()[1..] == match a case Octets4(b) => b case Octets16(b) => b case Name(n) => [|n|] + n;
  }

  /** The stream starts with this request, whatever its reserved octet, and the address in it. */
  ghost predicate IsRequest(codec: Codec, s: seq<Byte>, r: Request, reserved: Byte, a: Address) {
    Laid(s, [5, r.command, reserved], a, r.port, r.rest) && ShownAs(codec, a, r.host)
  }

  lemma HeadAndField(s: seq<Byte>, x: Byte, y: Byte, z: Byte, f: seq<Byte>, p: seq<Byte>, rest: seq<Byte>)
    requires f != []
    ensures s == [x, y, z] + f + p + rest <==> s == [x, y, z, f[0]] + (f[1..] + (p + rest))
  {
    assert [x, y, z] + f + p + rest == [x, y, z, f[0]] + (f[1..] + (p + rest));
  }

  lemma RequestComplete(codec: Codec, s: seq<Byte>, r: Request, reserved: Byte, a: Address)
    requires IsRequest(codec, s, r, reserved, a)
    ensures ReadRequest(codec, s) == Some(r)
  {
    hide PutUint16, Uint16, ReadAddress, Exactly;
    LaidIff(s, [5, r.command, reserved], a, r.port, r.rest);
    ShownIff(codec, a, r.host);
    var f, p := a.Field(), PutUint16(r.port);
    hide Address.Field, Laid, ShownAs;
    HeadAndField(s, 5, r.command, reserved, f, p, r.rest);
    ExactlyOf([5, r.command, reserved, f[0]], f[1..] + (p + r.rest));
    ReadAddressOf(codec, a, p + r.rest);
    ExactlyOf(p, r.rest);
    Uint16RoundTrip(r.port);
  }

  lemma RequestSound(codec: Codec, s: seq<Byte>) returns (reserved: Byte, a: Address)
    requires ReadRequest(codec, s).Some?
    ensures IsRequest(codec, s, ReadRequest(codec, s).value, reserved, a)
  {
    hide PutUint16, Uint16, ReadAddress;
    var r := ReadRequest(codec, s).value;
    reserved := s[2];
    var after := s[4..];
    a := ReadAddressSound(codec, s[3], after);
    var tail := ReadAddress(codec, s[3], after).value.1;
    PutUint16OfUint16(tail[..2]);
    var f, p := a.Field(), PutUint16(r.port);
    hide Address.Field;
    assert tail == p + r.rest;
    assert s == [5, r.command, reserved, f[0]] + after;
    HeadAndField(s, 5, r.command, reserved, f, p, r.rest);
    LaidIff(s, [5, r.command, reserved], a, r.port, r.rest);
    ShownIff(codec, a, r.host);
  }

  /** A request is read if and only if the stream starts with one; the reserved octet may be any. */
  lemma ReadRequestIff(codec: Codec, s: seq<Byte>, r: Request)
    ensures ReadRequest(codec, s) == Some(r) <==> exists reserved, a :: IsRequest(codec, s, r, reserved, a)
  {
    hide ReadRequest, IsRequest;
    if ReadRequest(codec, s) == Some(r) {
      var reserved, a := RequestSound(codec, s);
    }
    if reserved, a :| IsRequest(codec, s, r, reserved, a) {
      RequestComplete(codec, s, r, reserved, a);
    }
  }

  ghost predicate IsSuccess(s: seq<Byte>, rest: seq<Byte>, reserved: Byte, a: Address, port: int) {
    Laid(s, [5, 0, reserved], a, port, rest)
  }

  /** A reply is taken for success if and only if its code is 0 and it is whole. */
  lemma ReadReplyIff(s: seq<Byte>, rest: seq<Byte>)
    ensures ReadReply(s) == Some(rest) <==> exists reserved, a, port :: IsSuccess(s, rest, reserved, a, port)
  {
    var codec := Codec(ParseSome, ShowSome);
    ReplyIsRequest(codec, s);
    hide ReadReply, ReadRequest, ParseSome, ShowSome, Laid;
    if ReadReply(s) == Some(rest) {
      var r := ReadRequest(codec, s).value;
      var reserved, a := RequestSound(codec, s);
      assert IsSuccess(s, rest, reserved, a, r.port);
    }
    if reserved, a, port :| IsSuccess(s, rest, reserved, a, port) {
      LaidIff(s, [5, 0, reserved], a, port, rest);
      var r := Request(0, a.Host(codec), port, rest);
      ShownIff(codec, a, r.host);
      RequestComplete(codec, s, r, reserved, a);
    }
  }

  /** A reply has the layout of a request, with the code in the place of the command. */
  lemma ReplyIsRequest(codec: Codec, s: seq<Byte>)
    ensures ReadReply(s) ==
              match ReadRequest(codec, s)
              case None => None
              case Some(r) => if r.command == 0 then Some(r.rest) else None
  {
    hide Uint16;
  }

  // ---------- a whole dial, as the client sees it ----------

  /** The address that a dial is for. */
  ghost predicate Addressed(address: Text, host: Text, port: int) {
    exists text :: SplitHostPort(address) == Some(HostPort(host, text)) && Atoi(text) == Some(port)
  }

  /** What the server has to send, up to its reply: it picks the offered method and then accepts the credentials. */
  function Invitation(auth: Auth): (s: seq<Byte>)
    ensures s == if auth.Some? then [5, 2, 1, 0] else [5, 0]
  {
    Welcome(auth)
  }

  lemma HandshakeAccepts(auth: Auth, s: seq<Byte>, writes: nat, tail: seq<Byte>)
    requires s == Invitation(auth) + tail && (if auth.Some? then 2 else 1) <= writes
    ensures Handshake(auth, s, writes)
            == Accepted(tail, Greeting(auth) + (if auth.Some? then AuthMessage(auth.value) else []),
                        writes - if auth.Some? then 2 else 1)
  {
    if auth.Some? {
      assert s == [5, 2] + ([1, 0] + tail);
      ExactlyOf([5, 2], [1, 0] + tail);
      ExactlyOf([1, 0], tail);
    } else {
      ExactlyOf([5, 0], tail);
      assert Greeting(auth) + [] == Greeting(auth);
    }
    hide AuthMessage;
  }

  lemma HandshakeInvited(auth: Auth, s: seq<Byte>, writes: nat)
    requires Handshake(auth, s, writes).Accepted?
    ensures s == Invitation(auth) + Handshake(auth, s, writes).rest && (if auth.Some? then 2 else 1) <= writes
  {
    hide AuthMessage, Greeting;
    if auth.Some? {
      assert s == s[..2] + s[2..] && s[2..] == s[2..][..2] + s[2..][2..];
    }
  }

  /** The octets of the client's side of a dial. */
  ghost predicate Dialled(codec: Codec, auth: Auth, host: Text, port: int, sent: seq<Byte>) {
    match auth
    case None => sent == [5, 1, 0] + RequestMessage(codec, host, port)
    case Some(c) => sent == [5, 1, 2] + AuthMessage(c) + RequestMessage(codec, host, port)
  }

  /** What the server sends on a dial that succeeds. */
  ghost predicate Accepts(auth: Auth, s: seq<Byte>, rest: seq<Byte>) {
    exists reply, reserved, a, port :: s == Invitation(auth) + reply && IsSuccess(reply, rest, reserved, a, port)
  }

  lemma DestinationIff(address: Text)
    ensures forall host, port :: Addressed(address, host, port) <==> Destination(address) == Some((host, port))
  {
    hide SplitHostPort, Atoi;
  }

  /**
   * A dial succeeds if and only if the address is a host and a port, the server sends an invitation and a success
   * reply, and every message can be written. It has then sent its messages in order, and leaves what follows the reply.
   */
  lemma DialIff(codec: Codec, auth: Auth, address: Text, s: seq<Byte>, writes: nat, rest: seq<Byte>)
    ensures var d := Socks5Client.Dial(codec, auth, address, s, writes);
            && (d.Accepted? && d.rest == rest <==>
                  && (exists host, port :: Addressed(address, host, port))
                  && Accepts(auth, s, rest) && (if auth.Some? then 3 else 2) <= writes)
            && (d.Accepted? ==> forall host, port | Addressed(address, host, port) ::
                  Dialled(codec, auth, host, port, d.sent))
  {
    hide Handshake, ReadReply, SplitHostPort, Atoi, RequestMessage, AuthMessage, IsSuccess, Invitation,
         Destination, Addressed;
    var d := Socks5Client.Dial(codec, auth, address, s, writes);
    var h := Handshake(auth, s, writes);
    DestinationIff(address);
    if h.Accepted? {
      HandshakeInvited(auth, s, writes);
      HandshakeAccepts(auth, s, writes, h.rest);
      ReadReplyIff(h.rest, rest);
      if d.Accepted? {
        ReadReplyIff(h.rest, d.rest);
      }
    }
    if Accepts(auth, s, rest) && (if auth.Some? then 3 else 2) <= writes {
      var reply, reserved, a, port :| s == Invitation(auth) + reply && IsSuccess(reply, rest, reserved, a, port);
      HandshakeAccepts(auth, s, writes, reply);
      ReadReplyIff(reply, rest);
    }
  }

  // ---------- refusals ----------

  ghost predicate Offers(s: seq<Byte>, methods: seq<Byte>, rest: seq<Byte>) {
    |methods| < 256 && s == [5, |methods|] + methods + rest
  }

  ghost predicate Claims(s: seq<Byte>, c: Credentials, rest: seq<Byte>) {
    |c.user| < 256 && |c.pass| < 256 && s == [1, |c.user|] + c.user + [|c.pass|] + c.pass + rest
  }

  /** A client that offers the method of the server and then presents other credentials than those configured. */
  ghost predicate Pretends(auth: Auth, s: seq<Byte>) {
    auth.Some? && exists methods, tail, c, rest ::
      Offers(s, methods, tail) && 2 in methods && Claims(tail, c, rest) && c != auth.value
  }

  /** A client that does not offer the method of the server: 2 with credentials, 0 without. */
  ghost predicate Mismatches(auth: Auth, s: seq<Byte>) {
    exists methods, rest :: Offers(s, methods, rest) && (if auth.Some? then 2 else 0) !in methods
  }

  /** No acceptable method is answered with 255, and wrong credentials with status 1; in both cases the server stops. */
  lemma RefusalIff(auth: Auth, s: seq<Byte>, writes: nat)
    ensures var n := Negotiate(auth, s, writes);
            && (n.Refused? && n.sent == [5, 255] <==> 0 < writes && Mismatches(auth, s))
            && (n.Refused? && n.sent == [5, 2, 1, 1] <==> 1 < writes && Pretends(auth, s))
            && (n.Refused? ==> n.sent in {[], [5, 255], [5, 2], [5, 2, 1, 1]})
  {
    NegotiateSteps(auth, s, writes);
    MethodsIff(s);
    var m := ReadMethods(s);
    if m.Some? {
      ClaimsIff(m.value.rest);
    }
    hide ReadMethods, ReadCredentials, AuthMessage, Offers, Claims, Negotiate;
    assert m.Some? ==> Offers(s, m.value.bytes, m.value.rest);
    assert [5, 2] + [] == [5, 2] && [5, 2] + [1, 1] == [5, 2, 1, 1];
    assert [5, 255][1] == 255 && [5, 2][1] == 2 && [5, 2, 1, 1][1] == 2;
    if m.Some? && auth.Some? && ReadCredentials(m.value.rest).Some? {
      var (c, rest) := ReadCredentials(m.value.rest).value;
      assert Claims(m.value.rest, c, rest);
    }
  }

  lemma MethodsIff(s: seq<Byte>)
    ensures forall methods, rest :: Offers(s, methods, rest) <==> ReadMethods(s) == Some(Chunk(methods, rest))
  {
    OfferSound(s);
    forall methods, rest | Offers(s, methods, rest)
      ensures ReadMethods(s) == Some(Chunk(methods, rest))
    {
      OfferRead(methods, rest);
    }
  }

  lemma ClaimsIff(s: seq<Byte>)
    ensures forall c, rest :: Claims(s, c, rest) <==> ReadCredentials(s) == Some((c, rest))
  {
    CredentialsSound(s);
    hide ReadCredentials;
    forall c, rest | Claims(s, c, rest)
      ensures ReadCredentials(s) == Some((c, rest))
    {
      OpeningOctets(c);
      CredentialsRoundTrip(c, rest);
    }
    if ReadCredentials(s).Some? {
      OpeningOctets(ReadCredentials(s).value.0);
    }
  }

  // ---------- datagrams ----------

  /** A datagram of at least ten octets is parsed if and only if it is reserved octets, fragment 0, and whole. */
  lemma ParseIff(codec: Codec, packet: seq<Byte>, host: Text, port: nat, payload: seq<Byte>)
    ensures Parse(codec, packet) == Parsed(host, port, payload)
            <==> 10 <= |packet| && exists a :: Laid(packet, [0, 0, 0], a, port, payload) && ShownAs(codec, a, host)
  {
    hide Parse, Laid, ShownAs, Address.Field, PutUint16;
    if Parse(codec, packet) == Parsed(host, port, payload) {
      var a := ParseSound(codec, packet);
      EnoughOctets(codec, packet);
      LaidIff(packet, [0, 0, 0], a, port, payload);
      ShownIff(codec, a, host);
    }
    if 10 <= |packet| {
      if a :| Laid(packet, [0, 0, 0], a, port, payload) && ShownAs(codec, a, host) {
        LaidIff(packet, [0, 0, 0], a, port, payload);
        ShownIff(codec, a, host);
        DatagramRoundTrip(codec, a, port, payload);
        assert port % 65536 == port;
      }
    }
  }

  lemma EnoughOctets(codec: Codec, packet: seq<Byte>)
    ensures Parse(codec, packet).Parsed? ==> 10 <= |packet|
  {
    hide Split;
  }

  /** A reply is built if and only if its source has an IPv4 address; the port is cut to sixteen bits. */
  lemma ReplyIff(codec: Codec, host: Text, port: int, payload: seq<Byte>, v4: seq<Byte>, reply: seq<Byte>)
    requires |v4| == 4 && codec.parse(host) == Some(FromV4(v4))
    ensures Reply(codec, host, port, payload) == Some(reply)
            <==> exists p :: BigEndian(p, port % 65536) && reply == [0, 0, 0, 1] + v4 + p + payload
  {
    To4OfMapped(v4);
    var p := PutUint16(port);
    Uint16RoundTrip(port);
    PortIff(p, port % 65536);
    assert forall q :: BigEndian(q, port % 65536) ==> q == p;
    hide PutUint16;
    assert Octets4(v4).Field() == [1] + v4;
    assert [0, 0, 0] + ([1] + v4) + p + payload == [0, 0, 0, 1] + v4 + p + payload;
  }

  lemma NoReply(codec: Codec, host: Text, port: int, payload: seq<Byte>)
    ensures Reply(codec, host, port, payload).None?
            <==> codec.parse(host).None? || codec.parse(host).value[..12] != FromV4([])
  {
  }
}
