/**
 * The repository's client and server as two programs of reads and writes, and what every interleaved run
 * of a dial over them leads to.
 */
module Handshake {
  import opened Bytes
  import opened HostPort
  import opened IpText
  import opened Wire
  import opened Socks5Server
  import Socks5Client
  import opened TwoParty

  // ---------- the server's program ----------

  /** Where negotiateAuth, readRequest and readAddress stand between two reads. */
  datatype ServerPc =
    | Greet
    | Methods(count: nat)
    | AuthVersion
    | UserLen
    | User(len: nat)
    | PassLen(user: Text)
    | Pass(user: Text, len: nat)
    | RequestHead
    | Address(command: Byte, len: nat)
    | NameLen(command: Byte)
    | Name(command: Byte, len: nat)
    | Port(command: Byte, host: Text)
    | Ended(service: Service)

  function ServerNeed(pc: ServerPc): Option<nat> {
    match pc
    case Greet => Some(2)
    case Methods(n) => Some(n)
    case AuthVersion => Some(1)
    case UserLen => Some(1)
    case User(n) => Some(n)
    case PassLen(_) => Some(1)
    case Pass(_, n) => Some(n)
    case RequestHead => Some(4)
    case Address(_, n) => Some(n)
    case NameLen(_) => Some(1)
    case Name(_, n) => Some(n)
    case Port(_, _) => Some(2)
    case Ended(_) => None
  }

  /** upstream is what the dialled target sends as soon as the relay starts. */
  function ServerAct(cfg: Config, upstream: seq<Byte>, pc: ServerPc, got: seq<Byte>): (ServerPc, seq<Byte>) {
    if ServerNeed(pc) != Some(|got|) then (pc, [])
    else match pc
      case Greet => if got[0] != VERSION then (Ended(Closed), []) else (Methods(got[1]), [])
      case Methods(_) =>
        if RequiredMethod(cfg.auth) !in got then (Ended(Closed), [VERSION, REJECTED])
        else (if cfg.auth.Some? then AuthVersion else RequestHead, [VERSION, RequiredMethod(cfg.auth)])
      case AuthVersion => if got[0] != AUTH_VERSION then (Ended(Closed), []) else (UserLen, [])
      case UserLen => (User(got[0]), [])
      case User(_) => (PassLen(got), [])
      case PassLen(user) => (Pass(user, got[0]), [])
      case Pass(user, _) =>
        if cfg.auth == Some(Credentials(user, got)) then (RequestHead, [AUTH_VERSION, 0])
        else (Ended(Closed), [AUTH_VERSION, 1])
      case RequestHead =>
        if got[0] != VERSION then (Ended(Closed), [])
        else if got[3] == ATYP_V4 then (Address(got[1], 4), [])
        else if got[3] == ATYP_V6 then (Address(got[1], 16), [])
        else if got[3] == ATYP_DOMAIN then (NameLen(got[1]), [])
        else (Ended(Closed), [])
      case Address(command, n) =>
        var a := if n == 4 then Mapped(got) else if n == 16 then got else ANY_V4;
        (Port(command, cfg.codec.show(a)), [])
      case NameLen(command) => (Name(command, got[0]), [])
      case Name(command, _) => (Port(command, got), [])
      case Port(command, host) =>
        var (service, code, bindHost, bindPort) := Decide(cfg, command, JoinHostPort(host, Itoa(Uint16(got))));
        var reply := ReplyMessage(cfg.codec, code, bindHost, bindPort);
        (Ended(service), if service.Relaying? then reply + upstream else reply)
      case Ended(_) => (pc, [])
  }

  function ServerProgram(cfg: Config, upstream: seq<Byte>): Program<ServerPc> {
    Program(ServerNeed, (pc: ServerPc, got: seq<Byte>) => ServerAct(cfg, upstream, pc, got))
  }

  // ---------- the client's program ----------

  datatype ClientPc =
    | GreetReply
    | AuthReply
    | ReplyHead
    | ReplyAddress(len: nat)
    | ReplyNameLen
    | ReplyPort
    | Dialled
    | Failed

  /** A dialer, the destination it is asked for, and what its user sends once connected. */
  datatype Client = Client(codec: Codec, auth: Auth, host: Text, port: int, payload: seq<Byte>) {
    function Request(): seq<Byte> {
      RequestMessage(codec, host, port)
    }

    /** The credentials and the name fit one-octet lengths, and the port sixteen bits. */
    predicate Fits() {
      && (auth.Some? ==> |auth.value.user| < 256 && |auth.value.pass| < 256)
      && (codec.parse(host).Some? || |host| < 256)
      && 0 <= port < 65536
    }

    function Target(): Text {
      JoinHostPort(codec.Canonical(host), Itoa(port))
    }

    /** What the request holds after the address that the server reads: the end of a long name, and the port. */
    function Tail(): (t: seq<Byte>)
      ensures 2 <= |t|
    {
      (if codec.parse(host).Some? then [] else host[Low8(|host|)..]) + PutUint16(port)
    }

    /** The host that the server reads: a name is cut off after as many octets as its length octet says. */
    function HeardHost(): Text {
      if codec.parse(host).Some? then codec.Canonical(host) else host[..Low8(|host|)]
    }

    function HeardPort(): nat {
      Uint16(Tail()[..2])
    }

    function HeardTarget(): Text {
      JoinHostPort(HeardHost(), Itoa(HeardPort()))
    }

    /** What the server leaves of the request. */
    function Unread(): seq<Byte> {
      Tail()[2..]
    }
  }

  /** A request that fits is heard as it was meant, and only such a request is read whole and in range. */
  lemma FittingIsHeard(cl: Client)
    requires (cl.codec.parse(cl.host).Some? || |cl.host| < 256) && 0 <= cl.port < 65536
    ensures cl.HeardTarget() == cl.Target() && cl.Unread() == []
  {
    Uint16RoundTrip(cl.port);
    if cl.codec.parse(cl.host).None? {
      assert cl.host[|cl.host|..] == [] && cl.host[..|cl.host|] == cl.host;
    }
    assert cl.Tail() == PutUint16(cl.port);
    assert PutUint16(cl.port)[..2] == PutUint16(cl.port);
  }

  // ---------- credentials that do not fit ----------

  function AfterUser(c: Credentials): (s: seq<Byte>)
    ensures s != [] && 1 + s[0] as int <= |s|
  {
    (c.user + [Low8(|c.pass|)] + c.pass)[Low8(|c.user|)..]
  }

  /** The credentials that a server reads from the sub-message of some credentials, and what it leaves of it. */
  function Heard(c: Credentials): Credentials {
    var s := AfterUser(c);
    Credentials((c.user + [Low8(|c.pass|)] + c.pass)[..Low8(|c.user|)], s[1..][..s[0]])
  }

  function AuthUnread(c: Credentials): seq<Byte> {
    AfterUser(c)[1..][AfterUser(c)[0]..]
  }

  lemma HeardIsRead(c: Credentials)
    ensures |Heard(c).user| < 256 && |Heard(c).pass| < 256
    ensures AuthMessage(c) == AuthMessage(Heard(c)) + AuthUnread(c)
  {
    AfterUserCut(c);
    HeardSizes(c);
    MessageShape(c);
    MessageShape(Heard(c));
    hide Heard, AuthUnread, AfterUser, AuthMessage;
    Regroup([AUTH_VERSION, Low8(|c.user|)], Heard(c).user, [AfterUser(c)[0]], Heard(c).pass, AuthUnread(c));
  }

  lemma HeardSizes(c: Credentials)
    ensures |Heard(c).user| < 256 && |Heard(c).pass| < 256
    ensures Low8(|Heard(c).user|) == Low8(|c.user|) && Low8(|Heard(c).pass|) == AfterUser(c)[0]
  {
  }

  lemma MessageShape(c: Credentials)
    ensures AuthMessage(c) == [AUTH_VERSION, Low8(|c.user|)] + (c.user + [Low8(|c.pass|)] + c.pass)
  {
  }

  lemma Regroup(a: seq<Byte>, b: seq<Byte>, c: seq<Byte>, d: seq<Byte>, e: seq<Byte>)
    ensures a + (b + (c + d + e)) == a + (b + c + d) + e
  {
  }

  lemma AfterUserCut(c: Credentials)
    ensures AfterUser(c) == [AfterUser(c)[0]] + Heard(c).pass + AuthUnread(c)
    ensures c.user + [Low8(|c.pass|)] + c.pass == Heard(c).user + AfterUser(c)
  {
    var tail := AfterUser(c)[1..];
    assert tail == tail[..AfterUser(c)[0]] + tail[AfterUser(c)[0]..];
  }

  lemma FittingCredentialsAreHeard(c: Credentials)
    ensures Heard(c) == c && AuthUnread(c) == [] <==> |c.user| < 256 && |c.pass| < 256
  {
    hide AuthMessage, AfterUser, Heard, AuthUnread;
    HeardIsRead(c);
    if |c.user| < 256 && |c.pass| < 256 {
      FittingCut(c);
    }
  }

  lemma FittingCut(c: Credentials)
    requires |c.user| < 256 && |c.pass| < 256
    ensures Heard(c) == c && AuthUnread(c) == []
  {
    var whole, after := c.user + [|c.pass|] + c.pass, [|c.pass|] + c.pass;
    assert Low8(|c.user|) as int == |c.user| && Low8(|c.pass|) as int == |c.pass|;
    assert whole[..|c.user|] == c.user && whole[|c.user|..] == after;
    assert AfterUser(c) == after && after[1..] == c.pass;
  }

  function ClientNeed(pc: ClientPc): Option<nat> {
    match pc
    case GreetReply => Some(2)
    case AuthReply => Some(2)
    case ReplyHead => Some(4)
    case ReplyAddress(n) => Some(n)
    case ReplyNameLen => Some(1)
    case ReplyPort => Some(2)
    case Dialled => None
    case Failed => None
  }

  function ClientAct(cl: Client, pc: ClientPc, got: seq<Byte>): (ClientPc, seq<Byte>) {
    if ClientNeed(pc) != Some(|got|) then (pc, [])
    else match pc
      case GreetReply =>
        if got != [VERSION, RequiredMethod(cl.auth)] then (Failed, [])
        else if cl.auth.None? then (ReplyHead, cl.Request())
        else (AuthReply, AuthMessage(cl.auth.value))
      case AuthReply => if got != [AUTH_VERSION, 0] then (Failed, []) else (ReplyHead, cl.Request())
      case ReplyHead =>
        if got[0] != VERSION || got[1] != SUCCEEDED then (Failed, [])
        else if got[3] == ATYP_V4 then (ReplyAddress(4), [])
        else if got[3] == ATYP_V6 then (ReplyAddress(16), [])
        else if got[3] == ATYP_DOMAIN then (ReplyNameLen, [])
        else (Failed, [])
      case ReplyAddress(_) => (ReplyPort, [])
      case ReplyNameLen => (ReplyAddress(got[0]), [])
      case ReplyPort => (Dialled, cl.payload)
      case Dialled => (pc, [])
      case Failed => (pc, [])
  }

  function ClientProgram(cl: Client): Program<ClientPc> {
    Program(ClientNeed, (pc: ClientPc, got: seq<Byte>) => ClientAct(cl, pc, got))
  }

  // ---------- the programs are the programs of the methods ----------

  function ServerRank(pc: ServerPc): nat {
    match pc
    case Greet => 12
    case Methods(_) => 11
    case AuthVersion => 10
    case UserLen => 9
    case User(_) => 8
    case PassLen(_) => 7
    case Pass(_, _) => 6
    case RequestHead => 5
    case NameLen(_) => 4
    case Name(_, _) => 3
    case Address(_, _) => 2
    case Port(_, _) => 1
    case Ended(_) => 0
  }

  datatype Alone<P> = Alone(pc: P, sent: seq<Byte>, rest: seq<Byte>) {
    function After(before: seq<Byte>): Alone<P> {
      if before == [] then this else this.(sent := before + sent)
    }
  }

  /** The server's program run on a whole stream at once. */
  function ServeAlone(cfg: Config, pc: ServerPc, s: seq<Byte>): Alone<ServerPc>
    decreases ServerRank(pc)
  {
    match ServerNeed(pc)
    case None => Alone(pc, [], s)
    case Some(n) =>
      match Exactly(s, n)
      case None => Alone(pc, [], s)
      case Some(Chunk(got, rest)) =>
        var (pc', out) := ServerAct(cfg, [], pc, got);
        ServeAlone(cfg, pc', rest).After(out)
  }

  lemma ServeAloneAfter(cfg: Config, pc: ServerPc, got: seq<Byte>, rest: seq<Byte>)
    requires ServerNeed(pc) == Some(|got|)
    ensures var (pc', out) := ServerAct(cfg, [], pc, got);
            ServeAlone(cfg, pc, got + rest) == ServeAlone(cfg, pc', rest).After(out)
  {
    hide ServerAct;
    ExactlyOf(got, rest);
  }

  lemma EndedStays(cfg: Config, pc: ServerPc, s: seq<Byte>)
    requires pc.Ended?
    ensures ServeAlone(cfg, pc, s) == Alone(pc, [], s)
  {
  }

  /** How the program ends once the address has been read; None when the stream is too short. */
  ghost function Conclusion(cfg: Config, command: Byte, address: Option<(Text, seq<Byte>)>): Option<Alone<ServerPc>> {
    match address
    case None => None
    case Some((host, rest)) =>
      match Exactly(rest, 2)
      case None => None
      case Some(Chunk(port, after)) =>
        var (service, code, bindHost, bindPort) := Decide(cfg, command, JoinHostPort(host, Itoa(Uint16(port))));
        Some(Alone(Ended(service), ReplyMessage(cfg.codec, code, bindHost, bindPort), after))
  }

  ghost predicate Continues(
    cfg: Config, pc: ServerPc, s: seq<Byte>, command: Byte, address: Option<(Text, seq<Byte>)>)
  {
    var a := ServeAlone(cfg, pc, s);
    var end := Conclusion(cfg, command, address);
    if end.Some? then a == end.value else a.sent == [] && Waits(a)
  }

  lemma PortAlone(cfg: Config, command: Byte, host: Text, s: seq<Byte>)
    ensures Continues(cfg, Port(command, host), s, command, Some((host, s)))
  {
    hide ReplyMessage, Decide;
    var port := Exactly(s, 2);
    if port.Some? {
      var target := JoinHostPort(host, Itoa(Uint16(port.value.bytes)));
      var (service, code, bindHost, bindPort) := Decide(cfg, command, target);
      var reply := ReplyMessage(cfg.codec, code, bindHost, bindPort);
      assert reply + [] == reply;
      assert ServerAct(cfg, [], Port(command, host), port.value.bytes) == (Ended(service), reply);
      assert ServeAlone(cfg, Ended(service), port.value.rest) == Alone(Ended(service), [], port.value.rest);
    }
  }

  lemma AddressAlone(cfg: Config, command: Byte, n: nat, s: seq<Byte>)
    requires n == 4 || n == 16
    ensures Continues(cfg, Address(command, n), s, command,
                      ReadAddress(cfg.codec, if n == 4 then ATYP_V4 else ATYP_V6, s))
  {
    var got := Exactly(s, n);
    if got.Some? {
      var host := cfg.codec.show(if n == 4 then Mapped(got.value.bytes) else got.value.bytes);
      PortAlone(cfg, command, host, got.value.rest);
    }
  }

  lemma NamedAlone(cfg: Config, command: Byte, n: nat, s: seq<Byte>)
    ensures Continues(cfg, Name(command, n), s, command,
                      if n <= |s| then Some((s[..n], s[n..])) else None)
  {
    if n > |s| {
      assert Conclusion(cfg, command, None) == None;
    } else {
      assert ServerAct(cfg, [], Name(command, n), s[..n]) == (Port(command, s[..n]), []);
      assert ServeAlone(cfg, Name(command, n), s) == ServeAlone(cfg, Port(command, s[..n]), s[n..]);
      PortAlone(cfg, command, s[..n], s[n..]);
    }
  }

  lemma NameAlone(cfg: Config, command: Byte, s: seq<Byte>)
    ensures Continues(cfg, NameLen(command), s, command, ReadAddress(cfg.codec, ATYP_DOMAIN, s))
  {
    assert Conclusion(cfg, command, None) == None;
    hide Conclusion;
    var size := Exactly(s, 1);
    if size.Some? {
      var n, rest := size.value.bytes[0], size.value.rest;
      assert ServerAct(cfg, [], NameLen(command), size.value.bytes) == (Name(command, n), []);
      assert ServeAlone(cfg, NameLen(command), s) == ServeAlone(cfg, Name(command, n), rest);
      NamedAlone(cfg, command, n, rest);
    }
  }

  /** A program that has run out of stream. */
  ghost predicate Waits(a: Alone<ServerPc>) {
    ServerNeed(a.pc).Some? && |a.rest| < ServerNeed(a.pc).value
  }

  lemma PassAct(cfg: Config, user: Text, got: seq<Byte>)
    ensures ServerAct(cfg, [], Pass(user, |got|), got)
            == if cfg.auth == Some(Credentials(user, got)) then (RequestHead, [AUTH_VERSION, 0])
               else (Ended(Closed), [AUTH_VERSION, 1])
  {
  }

  lemma PassAlone(cfg: Config, user: Text, s: seq<Byte>)
    ensures var a := ServeAlone(cfg, PassLen(user), s);
            var pass := ReadCounted(s);
            if pass.None? then a.sent == [] && Waits(a)
            else if cfg.auth == Some(Credentials(user, pass.value.bytes)) then
              a == ServeAlone(cfg, RequestHead, pass.value.rest).After([AUTH_VERSION, 0])
            else a == Alone(Ended(Closed), [AUTH_VERSION, 1], pass.value.rest)
  {
    var size := Exactly(s, 1);
    if size.Some? {
      var n, rest := size.value.bytes[0], size.value.rest;
      assert ServeAlone(cfg, PassLen(user), s) == ServeAlone(cfg, Pass(user, n), rest);
      var pass := Exactly(rest, n);
      if pass.Some? {
        PassAct(cfg, user, pass.value.bytes);
        hide ServerAct;
        var (pc, out) := ServerAct(cfg, [], Pass(user, n), pass.value.bytes);
        assert ServeAlone(cfg, Pass(user, n), rest) == ServeAlone(cfg, pc, pass.value.rest).After(out);
        assert ServeAlone(cfg, Ended(Closed), pass.value.rest) == Alone(Ended(Closed), [], pass.value.rest);
      }
    }
  }

  lemma UserAlone(cfg: Config, s: seq<Byte>)
    ensures var a := ServeAlone(cfg, UserLen, s);
            var user := ReadCounted(s);
            if user.None? then a.sent == [] && Waits(a)
            else a == ServeAlone(cfg, PassLen(user.value.bytes), user.value.rest)
  {
    var size := Exactly(s, 1);
    if size.Some? {
      var n, rest := size.value.bytes[0], size.value.rest;
      var user := Exactly(rest, n);
      if user.Some? {
        assert ServeAlone(cfg, User(n), rest) == ServeAlone(cfg, PassLen(user.value.bytes), user.value.rest);
      }
    }
  }

  lemma RequestAlone(cfg: Config, s: seq<Byte>, writes: nat)
    requires 1 <= writes
    ensures var a := ServeAlone(cfg, RequestHead, s);
            var served := ServeRequest(cfg, s, writes);
            && a.sent == served.sent
            && (if served.service.Closed? then a.pc == Ended(Closed) || Waits(a)
                else a.pc == Ended(served.service) && a.rest == served.rest)
  {
    hide Decide, ReplyMessage, ReadAddress, Exactly;
    if 4 <= |s| {
      var head, rest := s[..4], s[4..];
      var command := head[1];
      assert head + rest == s;
      ExactlyOf(head, rest);
      HeadAct(cfg, head);
      ServeAloneAfter(cfg, RequestHead, head, rest);
      EndedStays(cfg, Ended(Closed), rest);
      hide ServerAct, ServeAlone;
      if head[0] != VERSION {
        assert ReadRequest(cfg.codec, s) == None;
      } else if head[3] == ATYP_V4 {
        AddressAlone(cfg, command, 4, rest);
      } else if head[3] == ATYP_V6 {
        AddressAlone(cfg, command, 16, rest);
      } else if head[3] == ATYP_DOMAIN {
        NameAlone(cfg, command, rest);
      } else {
        NoAddress(cfg, head[3], rest);
      }
    } else {
      RequestTooShort(cfg, s, writes);
    }
  }

  lemma HeadAct(cfg: Config, head: seq<Byte>)
    requires |head| == 4
    ensures ServerAct(cfg, [], RequestHead, head)
            == (if head[0] != VERSION then Ended(Closed)
                else if head[3] == ATYP_V4 then Address(head[1], 4)
                else if head[3] == ATYP_V6 then Address(head[1], 16)
                else if head[3] == ATYP_DOMAIN then NameLen(head[1])
                else Ended(Closed), [])
  {
  }

  lemma RequestTooShort(cfg: Config, s: seq<Byte>, writes: nat)
    requires |s| < 4
    ensures ServeAlone(cfg, RequestHead, s) == Alone(RequestHead, [], s)
    ensures ServeRequest(cfg, s, writes).service.Closed? && ServeRequest(cfg, s, writes).sent == []
  {
    hide Decide, ReplyMessage, ReadAddress, ServerAct;
  }

  lemma NoAddress(cfg: Config, atyp: Byte, s: seq<Byte>)
    requires atyp != ATYP_V4 && atyp != ATYP_V6 && atyp != ATYP_DOMAIN
    ensures ReadAddress(cfg.codec, atyp, s) == None
  {
  }

  lemma VersionAlone(cfg: Config, s: seq<Byte>)
    ensures var a := ServeAlone(cfg, AuthVersion, s);
            if s == [] then a == Alone(AuthVersion, [], [])
            else if s[0] != AUTH_VERSION then a == Alone(Ended(Closed), [], s[1..])
            else a == ServeAlone(cfg, UserLen, s[1..])
  {
  }

  lemma VerifyAlone(cfg: Config, s: seq<Byte>, writes: nat)
    requires cfg.auth.Some? && 1 <= writes
    ensures var a := ServeAlone(cfg, AuthVersion, s);
            var n := Verify(cfg.auth.value, s, writes);
            if n.Accepted? then a == ServeAlone(cfg, RequestHead, n.rest).After(n.sent)
            else a.sent == n.sent && (a.pc == Ended(Closed) || Waits(a))
  {
    hide ReadCounted, ServeAlone;
    VersionAlone(cfg, s);
    var version := Exactly(s, 1);
    if version.Some? && version.value.bytes[0] == AUTH_VERSION {
      var s1 := version.value.rest;
      UserAlone(cfg, s1);
      var user := ReadCounted(s1);
      if user.Some? {
        PassAlone(cfg, user.value.bytes, user.value.rest);
      }
    }
  }

  /** Negotiate once the head of the greeting has been read. */
  ghost function NegotiateMethods(auth: Auth, n: nat, s: seq<Byte>, writes: nat): Negotiation
    requires 1 <= writes
  {
    match Exactly(s, n)
    case None => Refused([], writes)
    case Some(Chunk(methods, rest)) =>
      if RequiredMethod(auth) !in methods then Refused([VERSION, REJECTED], writes - 1)
      else if auth.None? then Accepted(rest, [VERSION, RequiredMethod(auth)], writes - 1)
      else Verify(auth.value, rest, writes - 1).After([VERSION, RequiredMethod(auth)])
  }

  lemma MethodsAct(cfg: Config, got: seq<Byte>)
    ensures ServerAct(cfg, [], Methods(|got|), got)
            == if RequiredMethod(cfg.auth) !in got then (Ended(Closed), [VERSION, REJECTED])
               else (if cfg.auth.Some? then AuthVersion else RequestHead, [VERSION, RequiredMethod(cfg.auth)])
  {
  }

  lemma MethodsAlone(cfg: Config, n: nat, s: seq<Byte>, writes: nat)
    requires 2 <= writes
    ensures var a := ServeAlone(cfg, Methods(n), s);
            var r := NegotiateMethods(cfg.auth, n, s, writes);
            if r.Accepted? then a == ServeAlone(cfg, RequestHead, r.rest).After(r.sent)
            else a.sent == r.sent && (a.pc == Ended(Closed) || Waits(a))
  {
    hide Verify, ServerAct, RequiredMethod, ServeAlone, Exactly;
    if Exactly(s, n).Some? {
      var Chunk(got, rest) := Exactly(s, n).value;
      var answer := [VERSION, RequiredMethod(cfg.auth)];
      ExactlyIsAll(s, n);
      MethodsAct(cfg, got);
      ServeAloneAfter(cfg, Methods(n), got, rest);
      EndedStays(cfg, Ended(Closed), rest);
      if RequiredMethod(cfg.auth) in got && cfg.auth.Some? {
        VerifyAlone(cfg, rest, writes - 1);
        var v := Verify(cfg.auth.value, rest, writes - 1);
        if v.Accepted? {
          AfterAfter(ServeAlone(cfg, RequestHead, v.rest), v.sent, answer);
        }
      }
    } else {
      MethodsWait(cfg, n, s);
    }
  }

  lemma ExactlyIsAll(s: seq<Byte>, n: nat)
    ensures Exactly(s, n).Some? ==> Exactly(s, n).value.bytes + Exactly(s, n).value.rest == s
  {
  }

  lemma MethodsWait(cfg: Config, n: nat, s: seq<Byte>)
    requires Exactly(s, n).None?
    ensures ServeAlone(cfg, Methods(n), s) == Alone(Methods(n), [], s)
  {
    hide ServerAct;
  }

  lemma AfterAfter<P>(a: Alone<P>, later: seq<Byte>, earlier: seq<Byte>)
    ensures a.After(later).After(earlier) == a.After(earlier + later)
  {
    assert earlier + (later + a.sent) == earlier + later + a.sent;
    assert earlier + [] == earlier;
  }

  lemma NegotiateAlone(cfg: Config, s: seq<Byte>, writes: nat)
    requires 2 <= writes
    ensures var a := ServeAlone(cfg, Greet, s);
            var n := Negotiate(cfg.auth, s, writes);
            if n.Accepted? then a == ServeAlone(cfg, RequestHead, n.rest).After(n.sent)
            else a.sent == n.sent && (a.pc == Ended(Closed) || Waits(a))
  {
    hide Verify;
    var head := Exactly(s, 2);
    if head.Some? && head.value.bytes[0] == VERSION {
      var n, s1 := head.value.bytes[1], head.value.rest;
      assert ServerAct(cfg, [], Greet, head.value.bytes) == (Methods(n), []);
      assert ServeAlone(cfg, Greet, s) == ServeAlone(cfg, Methods(n), s1);
      MethodsAlone(cfg, n, s1, writes);
    }
  }

  /**
   * On every stream the server's program does what handleConn does: the same service, the same octets sent
   * and, when it starts to relay, the same octets left. Where handleConn fails for want of input, it waits.
   */
  lemma ServeAgrees(cfg: Config, s: seq<Byte>)
    ensures var a := ServeAlone(cfg, Greet, s);
            var served := Serve(cfg, s, 3);
            && a.sent == served.sent
            && (if served.service.Closed? then a.pc == Ended(Closed) || Waits(a)
                else a.pc == Ended(served.service) && a.rest == served.rest)
  {
    hide Negotiate, ServeRequest, ServeAlone;
    NegotiateAlone(cfg, s, 3);
    var n := Negotiate(cfg.auth, s, 3);
    if n.Accepted? {
      NegotiateIff(cfg.auth, s, 3, n.rest);
      RequestAlone(cfg, n.rest, n.writes);
    }
  }

  // ---------- the client's program is the program of the dialer ----------

  function ClientRank(pc: ClientPc): nat {
    match pc
    case GreetReply => 6
    case AuthReply => 5
    case ReplyHead => 4
    case ReplyNameLen => 3
    case ReplyAddress(_) => 2
    case ReplyPort => 1
    case Dialled => 0
    case Failed => 0
  }

  /** The client's program run on a whole stream of answers at once. */
  function DialAlone(cl: Client, pc: ClientPc, s: seq<Byte>): Alone<ClientPc>
    decreases ClientRank(pc)
  {
    match ClientNeed(pc)
    case None => Alone(pc, [], s)
    case Some(n) =>
      match Exactly(s, n)
      case None => Alone(pc, [], s)
      case Some(Chunk(got, rest)) =>
        var (pc', out) := ClientAct(cl, pc, got);
        DialAlone(cl, pc', rest).After(out)
  }

  lemma DialAloneAfter(cl: Client, pc: ClientPc, got: seq<Byte>, rest: seq<Byte>)
    requires ClientNeed(pc) == Some(|got|)
    ensures var (pc', out) := ClientAct(cl, pc, got);
            DialAlone(cl, pc, got + rest) == DialAlone(cl, pc', rest).After(out)
  {
    hide ClientAct;
    ExactlyOf(got, rest);
  }

  ghost predicate Hangs(a: Alone<ClientPc>) {
    ClientNeed(a.pc).Some? && |a.rest| < ClientNeed(a.pc).value
  }

  lemma PortReplyAlone(cl: Client, s: seq<Byte>)
    requires cl.payload == []
    ensures var a := DialAlone(cl, ReplyPort, s);
            var port := Exactly(s, 2);
            if port.Some? then a == Alone(Dialled, [], port.value.rest) else a.sent == [] && Hangs(a)
  {
    var port := Exactly(s, 2);
    if port.Some? {
      assert ClientAct(cl, ReplyPort, port.value.bytes) == (Dialled, []);
      assert DialAlone(cl, Dialled, port.value.rest) == Alone(Dialled, [], port.value.rest);
    }
  }

  lemma AddressReplyAlone(cl: Client, n: nat, s: seq<Byte>)
    requires cl.payload == []
    ensures var a := DialAlone(cl, ReplyAddress(n), s);
            if n + 2 <= |s| then a == Alone(Dialled, [], s[n..][2..]) else a.sent == [] && Hangs(a)
  {
    if n <= |s| {
      assert ClientAct(cl, ReplyAddress(n), s[..n]) == (ReplyPort, []);
      assert DialAlone(cl, ReplyAddress(n), s) == DialAlone(cl, ReplyPort, s[n..]);
      PortReplyAlone(cl, s[n..]);
    }
  }

  lemma NameReplyAlone(cl: Client, s: seq<Byte>)
    requires cl.payload == []
    ensures var a := DialAlone(cl, ReplyNameLen, s);
            var name := ReadCounted(s);
            if name.Some? && 2 <= |name.value.rest| then a == Alone(Dialled, [], name.value.rest[2..])
            else a.sent == [] && Hangs(a)
  {
    if 1 <= |s| {
      assert ClientAct(cl, ReplyNameLen, s[..1]) == (ReplyAddress(s[0]), []);
      assert DialAlone(cl, ReplyNameLen, s) == DialAlone(cl, ReplyAddress(s[0]), s[1..]);
      AddressReplyAlone(cl, s[0], s[1..]);
    }
  }

  lemma ReplyHeadAct(cl: Client, head: seq<Byte>)
    requires |head| == 4
    ensures ClientAct(cl, ReplyHead, head)
            == (if head[0] != VERSION || head[1] != SUCCEEDED then Failed
                else if head[3] == ATYP_V4 then ReplyAddress(4)
                else if head[3] == ATYP_V6 then ReplyAddress(16)
                else if head[3] == ATYP_DOMAIN then ReplyNameLen
                else Failed, [])
  {
  }

  lemma ReplyAlone(cl: Client, s: seq<Byte>)
    requires cl.payload == []
    ensures var a := DialAlone(cl, ReplyHead, s);
            var rest := ReadReply(s);
            && a.sent == []
            && if rest.Some? then a.pc == Dialled && a.rest == rest.value else a.pc == Failed || Hangs(a)
  {
    hide ClientAct, ReadCounted, DialAlone;
    if |s| < 4 {
      HeadWaits(cl, s);
    } else {
      var head, tail := s[..4], s[4..];
      assert head + tail == s;
      ReplyHeadAct(cl, head);
      var (pc, out) := ClientAct(cl, ReplyHead, head);
      DialAloneAfter(cl, ReplyHead, head, tail);
      if pc == ReplyNameLen {
        NameReplyAlone(cl, tail);
      } else if pc.ReplyAddress? {
        AddressReplyAlone(cl, pc.len, tail);
      } else {
        FailedStays(cl, tail);
      }
    }
  }

  lemma HeadWaits(cl: Client, s: seq<Byte>)
    requires |s| < 4
    ensures DialAlone(cl, ReplyHead, s) == Alone(ReplyHead, [], s)
  {
  }

  lemma FailedStays(cl: Client, s: seq<Byte>)
    ensures DialAlone(cl, Failed, s) == Alone(Failed, [], s)
  {
  }

  lemma HandshakeAlone(cl: Client, s: seq<Byte>)
    ensures var a := DialAlone(cl, GreetReply, s).After(Greeting(cl.auth));
            var h := Wire.Handshake(cl.auth, s, 3);
            if h.Accepted? then
              h.writes != 0 && a == DialAlone(cl, ReplyHead, h.rest).After(cl.Request()).After(h.sent)
            else a.sent == h.sent && (a.pc == Failed || Hangs(a))
  {
    hide RequestMessage, AuthMessage, Greeting;
    assert Greeting(cl.auth) + [] == Greeting(cl.auth);
    if 2 <= |s| {
      var (pc, out) := ClientAct(cl, GreetReply, s[..2]);
      var rest := s[2..];
      assert DialAlone(cl, GreetReply, s) == DialAlone(cl, pc, rest).After(out);
      if pc == AuthReply {
        AfterAfter(DialAlone(cl, pc, rest), out, Greeting(cl.auth));
        AuthReplyAlone(cl, rest, Greeting(cl.auth) + out);
      } else if pc == Failed {
        assert DialAlone(cl, Failed, rest) == Alone(Failed, [], rest);
      }
    }
  }

  lemma AuthReplyAlone(cl: Client, s: seq<Byte>, before: seq<Byte>)
    ensures var a := DialAlone(cl, AuthReply, s).After(before);
            var status := Exactly(s, 2);
            if status.Some? && status.value.bytes == [AUTH_VERSION, 0] then
              a == DialAlone(cl, ReplyHead, status.value.rest).After(cl.Request()).After(before)
            else a.sent == before && (a.pc == Failed || Hangs(a))
  {
    hide RequestMessage;
    assert before + [] == before;
    if 2 <= |s| {
      var (pc, out) := ClientAct(cl, AuthReply, s[..2]);
      assert DialAlone(cl, AuthReply, s) == DialAlone(cl, pc, s[2..]).After(out);
      if pc == Failed {
        assert DialAlone(cl, Failed, s[2..]) == Alone(Failed, [], s[2..]);
      }
    }
  }

  /**
   * On every stream of answers the client's program does what DialContext does for an address that names
   * the client's destination: the same octets sent and, on success, the same octets left.
   */
  lemma DialAgrees(cl: Client, address: Text, s: seq<Byte>)
    requires cl.payload == [] && Destination(address) == Some((cl.host, cl.port))
    ensures var a := DialAlone(cl, GreetReply, s).After(Greeting(cl.auth));
            var d := Socks5Client.Dial(cl.codec, cl.auth, address, s, 3);
            && a.sent == d.sent
            && if d.Accepted? then a.pc == Dialled && a.rest == d.rest else a.pc == Failed || Hangs(a)
  {
    HandshakeAlone(cl, s);
    hide Wire.Handshake, RequestMessage, Destination, DialAlone, ReadReply, Greeting;
    var h := Wire.Handshake(cl.auth, s, 3);
    if h.Accepted? {
      ReplyAlone(cl, h.rest);
      var r := DialAlone(cl, ReplyHead, h.rest);
      assert cl.Request() + [] == cl.Request();
      AfterAfter(r, cl.Request(), h.sent);
    }
  }
}
