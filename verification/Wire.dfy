/** The SOCKS5 messages of RFC 1928 sections 3 to 7 and RFC 1929 section 2, as this program writes and reads them. */
module Wire {
  import opened Bytes
  import opened HostPort
  import opened IpText

  const VERSION: Byte := 5
  const AUTH_VERSION: Byte := 1
  const NO_AUTH: Byte := 0
  const USER_PASS: Byte := 2
  const REJECTED: Byte := 255
  const CONNECT: Byte := 1
  const UDP_ASSOCIATE: Byte := 3
  const ATYP_V4: Byte := 1
  const ATYP_DOMAIN: Byte := 3
  const ATYP_V6: Byte := 4
  const SUCCEEDED: Byte := 0
  const GENERAL_FAILURE: Byte := 1
  const COMMAND_UNSUPPORTED: Byte := 7

  datatype Credentials = Credentials(user: Text, pass: Text)
  type Auth = Option<Credentials>

  // ---------- messages ----------

  function RequiredMethod(auth: Auth): Byte {
    if auth.Some? then USER_PASS else NO_AUTH
  }

  function Greeting(auth: Auth): seq<Byte> {
    [VERSION, 1, RequiredMethod(auth)]
  }

  function AuthMessage(c: Credentials): seq<Byte> {
    [AUTH_VERSION, Low8(|c.user|)] + c.user + [Low8(|c.pass|)] + c.pass
  }

  function IpField(a: Ip): seq<Byte> {
    if IsV4(a) then [ATYP_V4] + To4(a) else [ATYP_V6] + a
  }

  /** ATYP and DST.ADDR: an IP literal as octets, anything else as a name with a one-octet length. */
  function AddressField(codec: Codec, host: Text): seq<Byte> {
    match codec.parse(host)
    case Some(a) => IpField(a)
    case None => [ATYP_DOMAIN, Low8(|host|)] + host
  }

  function RequestMessage(codec: Codec, host: Text, port: int): seq<Byte> {
    [VERSION, CONNECT, 0] + AddressField(codec, host) + PutUint16(port)
  }

  /** A reply always carries an IP address; a host that is not one is replaced by 0.0.0.0. */
  function ReplyMessage(codec: Codec, code: Byte, host: Text, port: int): seq<Byte> {
    var a := match codec.parse(host) case Some(a) => a case None => ANY_V4;
    [VERSION, code, 0] + IpField(a) + PutUint16(port)
  }

  // ---------- reading from a stream ----------

  datatype Chunk = Chunk(bytes: seq<Byte>, rest: seq<Byte>)

  /** io.ReadFull on a stream that holds exactly the octets of s. */
  function Exactly(s: seq<Byte>, n: nat): (c: Option<Chunk>)
    ensures c.Some? <==> n <= |s|
    ensures c.Some? ==> |c.value.bytes| == n
  {
    if |s| < n then None else Some(Chunk(s[..n], s[n..]))
  }

  lemma ExactlyOf(a: seq<Byte>, b: seq<Byte>)
    ensures Exactly(a + b, |a|) == Some(Chunk(a, b))
  {
    assert (a + b)[..|a|] == a && (a + b)[|a|..] == b;
  }

  /** How far a negotiation got: the octets it left unread, those it sent, and the writes it may still do. */
  datatype Negotiation =
    | Accepted(rest: seq<Byte>, sent: seq<Byte>, writes: nat)
    | Refused(sent: seq<Byte>, writes: nat)
  {
    /** The same end, reached after some octets had been sent. */
    function After(before: seq<Byte>): Negotiation {
      this.(sent := before + sent)
    }
  }

  // ---------- the server's side ----------

  /** negotiateAuth over a stream; each successful write uses up one unit of writes. */
  function Negotiate(auth: Auth, s: seq<Byte>, writes: nat): Negotiation {
    match ReadMethods(s)
    case None => Refused([], writes)
    case Some(Chunk(methods, rest)) =>
      if writes == 0 then Refused([], 0)
      else if RequiredMethod(auth) !in methods then Refused([VERSION, REJECTED], writes - 1)
      else
        var answer := [VERSION, RequiredMethod(auth)];
        match auth
        case None => Accepted(rest, answer, writes - 1)
        case Some(c) => Verify(c, rest, writes - 1).After(answer)
  }

  lemma NegotiateSteps(auth: Auth, s: seq<Byte>, writes: nat)
    ensures ReadMethods(s).None? ==> Negotiate(auth, s, writes) == Refused([], writes)
    ensures ReadMethods(s).Some? ==>
              var Chunk(methods, rest) := ReadMethods(s).value;
              var answer := [VERSION, RequiredMethod(auth)];
              Negotiate(auth, s, writes)
              == if writes == 0 then Refused([], 0)
                 else if RequiredMethod(auth) !in methods then Refused([VERSION, REJECTED], writes - 1)
                 else if auth.None? then Accepted(rest, answer, writes - 1)
                 else Verify(auth.value, rest, writes - 1).After(answer)
  {
    hide ReadMethods, Verify;
  }

  /** The methods a greeting offers. */
  function ReadMethods(s: seq<Byte>): Option<Chunk> {
    match Exactly(s, 2)
    case None => None
    case Some(Chunk(head, rest)) =>
      if head[0] != VERSION then None else Exactly(rest, head[1])
  }

  /** verifyUsernamePassword over a stream. */
  function Verify(c: Credentials, s: seq<Byte>, writes: nat): Negotiation {
    match ReadCredentials(s)
    case None => Refused([], writes)
    case Some((got, rest)) =>
      var status: Byte := if got == c then 0 else 1;
      if writes == 0 then Refused([], 0)
      else if status == 0 then Accepted(rest, [AUTH_VERSION, 0], writes - 1)
      else Refused([AUTH_VERSION, 1], writes - 1)
  }

  function ReadCredentials(s: seq<Byte>): Option<(Credentials, seq<Byte>)> {
    match Exactly(s, 1)
    case None => None
    case Some(Chunk(version, s1)) =>
      if version[0] != AUTH_VERSION then None
      else match ReadCounted(s1)
        case None => None
        case Some(Chunk(user, s2)) =>
          match ReadCounted(s2)
          case None => None
          case Some(Chunk(pass, rest)) => Some((Credentials(user, pass), rest))
  }

  /** A one-octet length and that many octets. */
  function ReadCounted(s: seq<Byte>): (c: Option<Chunk>)
    ensures c.Some? ==> |c.value.bytes| < 256
  {
    match Exactly(s, 1)
    case None => None
    case Some(Chunk(size, rest)) => Exactly(rest, size[0])
  }

  lemma ReadCountedSound(s: seq<Byte>)
    ensures ReadCounted(s).Some? ==>
              var c := ReadCounted(s).value;
              s == [|c.bytes|] + c.bytes + c.rest
  {
  }

  lemma ReadCountedOf(a: seq<Byte>, rest: seq<Byte>)
    requires |a| < 256
    ensures ReadCounted([|a|] + a + rest) == Some(Chunk(a, rest))
  {
    assert [|a|] + a + rest == [|a|] + (a + rest);
    ExactlyOf([|a|], a + rest);
    ExactlyOf(a, rest);
  }

  datatype Request = Request(command: Byte, host: Text, port: nat, rest: seq<Byte>) {
    /** The address string that readRequest returns. */
    function Target(): Text {
      JoinHostPort(host, Itoa(port))
    }
  }

  /** readAddress over a stream. */
  function ReadAddress(codec: Codec, atyp: Byte, s: seq<Byte>): Option<(Text, seq<Byte>)> {
    if atyp == ATYP_V4 then
      match Exactly(s, 4)
      case None => None
      case Some(Chunk(b, rest)) => Some((codec.show(Mapped(b)), rest))
    else if atyp == ATYP_V6 then
      match Exactly(s, 16)
      case None => None
      case Some(Chunk(b, rest)) => Some((codec.show(b), rest))
    else if atyp == ATYP_DOMAIN then
      match ReadCounted(s)
      case None => None
      case Some(Chunk(b, rest)) => Some((b, rest))
    else None
  }

  /** readRequest over a stream. */
  function ReadRequest(codec: Codec, s: seq<Byte>): Option<Request> {
    match Exactly(s, 4)
    case None => None
    case Some(Chunk(head, afterHead)) =>
      if head[0] != VERSION then None
      else match ReadAddress(codec, head[3], afterHead)
        case None => None
        case Some((host, afterHost)) =>
          match Exactly(afterHost, 2)
          case None => None
          case Some(Chunk(port, rest)) => Some(Request(head[1], host, Uint16(port), rest))
  }

  // ---------- the client's side ----------

  /** clientHandshake over the stream of the server's answers. */
  function Handshake(auth: Auth, s: seq<Byte>, writes: nat): Negotiation {
    if writes == 0 then Refused([], 0)
    else match Exactly(s, 2)
      case None => Refused(Greeting(auth), writes - 1)
      case Some(Chunk(answer, rest)) =>
        if answer != [VERSION, RequiredMethod(auth)] then Refused(Greeting(auth), writes - 1)
        else match auth
          case None => Accepted(rest, Greeting(auth), writes - 1)
          case Some(c) =>
            if writes == 1 then Refused(Greeting(auth), 0)
            else
              var sent := Greeting(auth) + AuthMessage(c);
              match Exactly(rest, 2)
              case None => Refused(sent, writes - 2)
              case Some(Chunk(status, rest')) =>
                if status == [AUTH_VERSION, 0] then Accepted(rest', sent, writes - 2)
                else Refused(sent, writes - 2)
  }

  /** The CONNECT reply: what follows it in the stream, when it reports success. */
  function ReadReply(s: seq<Byte>): Option<seq<Byte>> {
    match Exactly(s, 4)
    case None => None
    case Some(Chunk(head, afterHead)) =>
      if head[0] != VERSION || head[1] != SUCCEEDED then None
      else
        var address :=
          if head[3] == ATYP_V4 then Exactly(afterHead, 4)
          else if head[3] == ATYP_V6 then Exactly(afterHead, 16)
          else if head[3] == ATYP_DOMAIN then ReadCounted(afterHead)
          else None;
        match address
        case None => None
        case Some(Chunk(_, afterAddress)) =>
          match Exactly(afterAddress, 2)
          case None => None
          case Some(Chunk(_, rest)) => Some(rest)
  }

  /** The host and port that clientConnect takes from the address it is given. */
  function Destination(address: Text): Option<(Text, int)> {
    match SplitHostPort(address)
    case None => None
    case Some(HostPort(host, port)) =>
      match Atoi(port)
      case None => None
      case Some(n) => Some((host, n))
  }

  /** clientConnect over the stream of the server's answers. */
  function Connect(codec: Codec, address: Text, s: seq<Byte>, writes: nat): Negotiation {
    match Destination(address)
    case None => Refused([], writes)
    case Some((host, port)) =>
      if writes == 0 then Refused([], 0)
      else
        var sent := RequestMessage(codec, host, port);
        match ReadReply(s)
        case None => Refused(sent, writes - 1)
        case Some(rest) => Accepted(rest, sent, writes - 1)
  }

  // ---------- both sides agree on every message ----------

  /** A credential message is understood exactly when both parts fit a one-octet length. */
  lemma CredentialsRoundTrip(c: Credentials, rest: seq<Byte>)
    ensures ReadCredentials(AuthMessage(c) + rest) == Some((c, rest)) <==> |c.user| < 256 && |c.pass| < 256
  {
    var s := AuthMessage(c) + rest;
    if |c.user| < 256 && |c.pass| < 256 {
      assert s == [AUTH_VERSION] + ([|c.user|] + c.user + ([|c.pass|] + c.pass + rest));
      ExactlyOf([AUTH_VERSION], [|c.user|] + c.user + ([|c.pass|] + c.pass + rest));
      ReadCountedOf(c.user, [|c.pass|] + c.pass + rest);
      ReadCountedOf(c.pass, rest);
    }
  }

  /** What ReadCredentials accepts is one RFC 1929 message followed by what it leaves. */
  lemma CredentialsSound(s: seq<Byte>)
    ensures ReadCredentials(s).Some? ==>
              var (c, rest) := ReadCredentials(s).value;
              |c.user| < 256 && |c.pass| < 256 && s == AuthMessage(c) + rest
  {
    hide ReadCounted;
    if ReadCredentials(s).Some? {
      var (c, rest) := ReadCredentials(s).value;
      var s1 := s[1..];
      var s2 := ReadCounted(s1).value.rest;
      ReadCountedSound(s1);
      ReadCountedSound(s2);
      assert s == [AUTH_VERSION] + s1;
      assert s1 == [|c.user|] + c.user + s2;
      assert s2 == [|c.pass|] + c.pass + rest;
      assert [AUTH_VERSION] + ([|c.user|] + c.user + ([|c.pass|] + c.pass + rest))
          == [AUTH_VERSION, |c.user|] + c.user + [|c.pass|] + c.pass + rest;
    }
  }

  /** Which address field an IP address is read from. */
  lemma ReadIpField(codec: Codec, a: Ip, rest: seq<Byte>)
    ensures var f := IpField(a);
            ReadAddress(codec, f[0], f[1..] + rest) == Some((codec.show(a), rest))
  {
    ExactlyOf(IpField(a)[1..], rest);
    if IsV4(a) {
      To4OfMapped(To4(a));
      assert IpField(a)[1..] == To4(a);
    } else {
      assert IpField(a)[1..] == a;
    }
  }

  lemma ReadAddressField(codec: Codec, host: Text, rest: seq<Byte>)
    ensures var f := AddressField(codec, host);
            ReadAddress(codec, f[0], f[1..] + rest) == Some((codec.Canonical(host), rest))
            <==> codec.parse(host).Some? || |host| < 256
  {
    var f := AddressField(codec, host);
    if codec.parse(host).Some? {
      ReadIpField(codec, codec.parse(host).value, rest);
    } else {
      assert f[1..] + rest == [Low8(|host|)] + host + rest;
      if |host| < 256 {
        ReadCountedOf(host, rest);
      }
    }
  }

  /**
   * The server reads from a CONNECT request the host, up to its canonical IP text, and the port,
   * and leaves what follows, exactly when the name fits a one-octet length and the port sixteen bits.
   */
  lemma RequestRoundTrip(codec: Codec, host: Text, port: int, rest: seq<Byte>)
    ensures ReadRequest(codec, RequestMessage(codec, host, port) + rest).Some?
            && (var r := ReadRequest(codec, RequestMessage(codec, host, port) + rest).value;
                r.command == CONNECT && r.host == codec.Canonical(host) && r.port == port && r.rest == rest)
            <==> (codec.parse(host).Some? || |host| < 256) && 0 <= port < 65536
  {
    var f := AddressField(codec, host);
    var tail := PutUint16(port) + rest;
    var head := [VERSION, CONNECT, 0, f[0]];
    var s := RequestMessage(codec, host, port) + rest;
    assert s == head + (f[1..] + tail) by {
      hide PutUint16;
    }
    ExactlyOf(head, f[1..] + tail);
    ReadAddressField(codec, host, tail);
    ExactlyOf(PutUint16(port), rest);
    Uint16RoundTrip(port);
    hide PutUint16, Uint16, Codec.Canonical;
    if codec.parse(host).None? && 256 <= |host| {
      var read := ReadCounted(f[1..] + tail);
      if read.Some? {
        assert (f[1..] + tail)[0] == Low8(|host|);
        assert |read.value.bytes| < 256;
      }
    }
  }

  /** The client reads any success reply of the server to its end and no further. */
  lemma ReplyRoundTrip(codec: Codec, code: Byte, host: Text, port: int, rest: seq<Byte>)
    ensures ReadReply(ReplyMessage(codec, code, host, port) + rest)
            == if code == SUCCEEDED then Some(rest) else None
  {
    var a := match codec.parse(host) case Some(a) => a case None => ANY_V4;
    var f := IpField(a);
    var head := [VERSION, code, 0, f[0]];
    var tail := PutUint16(port) + rest;
    assert (f[0] == ATYP_V4 && |f[1..]| == 4) || (f[0] == ATYP_V6 && |f[1..]| == 16);
    ReplyShape(codec, code, host, port, rest);
    hide IpField, PutUint16, ReplyMessage, Exactly;
    ExactlyOf(head, f[1..] + tail);
    ExactlyOf(f[1..], tail);
    ExactlyOf(PutUint16(port), rest);
  }

  lemma ReplyShape(codec: Codec, code: Byte, host: Text, port: int, rest: seq<Byte>)
    ensures var f := IpField(match codec.parse(host) case Some(a) => a case None => ANY_V4);
            f != [] && ReplyMessage(codec, code, host, port) + rest
                       == [VERSION, code, 0, f[0]] + (f[1..] + (PutUint16(port) + rest))
  {
    hide PutUint16;
  }

  // ---------- safety of the server's negotiation, over every client stream ----------

  /** A client greeting that offers the given methods. */
  function Offer(methods: seq<Byte>): seq<Byte>
    requires |methods| < 256
  {
    [VERSION, |methods|] + methods
  }

  /**
   * What RFC 1928 section 3 and RFC 1929 section 2 ask a client to send before its request:
   * an offer of the required method and, when credentials are configured, exactly these credentials.
   */
  ghost predicate Presents(auth: Auth, s: seq<Byte>, methods: seq<Byte>, rest: seq<Byte>) {
    && |methods| < 256
    && RequiredMethod(auth) in methods
    && match auth
       case None => s == Offer(methods) + rest
       case Some(c) => |c.user| < 256 && |c.pass| < 256 && s == Offer(methods) + AuthMessage(c) + rest
  }

  /** The answers that accept a client. */
  function Welcome(auth: Auth): seq<Byte> {
    [VERSION, RequiredMethod(auth)] + if auth.Some? then [AUTH_VERSION, 0] else []
  }

  function WelcomeWrites(auth: Auth): nat {
    if auth.Some? then 2 else 1
  }

  lemma OfferRead(methods: seq<Byte>, tail: seq<Byte>)
    requires |methods| < 256
    ensures Exactly(Offer(methods) + tail, 2) == Some(Chunk([VERSION, |methods|], methods + tail))
    ensures Exactly(methods + tail, |methods|) == Some(Chunk(methods, tail))
  {
    assert Offer(methods) + tail == [VERSION, |methods|] + (methods + tail);
    ExactlyOf([VERSION, |methods|], methods + tail);
    ExactlyOf(methods, tail);
  }

  lemma NegotiateComplete(auth: Auth, s: seq<Byte>, writes: nat, methods: seq<Byte>, rest: seq<Byte>)
    requires Presents(auth, s, methods, rest) && WelcomeWrites(auth) <= writes
    ensures Negotiate(auth, s, writes) == Accepted(rest, Welcome(auth), writes - WelcomeWrites(auth))
  {
    match auth
    case None =>
      OfferRead(methods, rest);
    case Some(c) =>
      OfferRead(methods, AuthMessage(c) + rest);
      assert s == Offer(methods) + (AuthMessage(c) + rest);
      CredentialsRoundTrip(c, rest);
      assert Verify(c, AuthMessage(c) + rest, writes - 1) == Accepted(rest, [AUTH_VERSION, 0], writes - 2);
  }

  lemma OfferSound(s: seq<Byte>)
    ensures ReadMethods(s).Some? ==>
              var c := ReadMethods(s).value;
              |c.bytes| < 256 && s == Offer(c.bytes) + c.rest
  {
  }

  lemma NegotiateSound(auth: Auth, s: seq<Byte>, writes: nat) returns (methods: seq<Byte>)
    requires Negotiate(auth, s, writes).Accepted?
    ensures Presents(auth, s, methods, Negotiate(auth, s, writes).rest) && WelcomeWrites(auth) <= writes
  {
    hide ReadMethods, ReadCredentials, AuthMessage, Offer;
    OfferSound(s);
    var after := Negotiate(auth, s, writes).rest;
    var Chunk(offered, tail) := ReadMethods(s).value;
    methods := offered;
    if auth.Some? {
      CredentialsSound(tail);
      assert s == Offer(methods) + AuthMessage(auth.value) + after;
    }
  }

  /**
   * The server goes on to the request exactly when the client presented what is required of it;
   * it has then answered with the welcome octets and consumed exactly the client's messages.
   */
  lemma NegotiateIff(auth: Auth, s: seq<Byte>, writes: nat, rest: seq<Byte>)
    ensures var n := Negotiate(auth, s, writes);
            && (n.Accepted? && n.rest == rest
                <==> WelcomeWrites(auth) <= writes && exists methods :: Presents(auth, s, methods, rest))
            && (n.Accepted? ==> n.sent == Welcome(auth) && n.writes == writes - WelcomeWrites(auth))
  {
    var n := Negotiate(auth, s, writes);
    if n.Accepted? {
      var methods := NegotiateSound(auth, s, writes);
      NegotiateComplete(auth, s, writes, methods, n.rest);
    }
    if WelcomeWrites(auth) <= writes && exists methods :: Presents(auth, s, methods, rest) {
      var methods :| Presents(auth, s, methods, rest);
      NegotiateComplete(auth, s, writes, methods, rest);
    }
  }
}
