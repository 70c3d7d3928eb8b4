/** The server's side of a connection: negotiation, request and reply. */
module Socks5Server {
  import opened Bytes
  import opened HostPort
  import opened IpText
  import opened Wire
  import opened Connection

  /** dial is the outcome of the outgoing dial for a target: the local host and port, or an error. */
  datatype Config = Config(
    codec: Codec,
    auth: Auth,
    allowUdp: bool,
    publicHost: Text,
    publicPort: int,
    dial: Text -> Option<(Text, int)>)

  datatype Service =
    | Relaying(target: Text)
    | Associating(target: Text)
    | Closed

  /** What a connection leads to, what the server sent on it, and what it left unread. */
  datatype Served = Served(service: Service, sent: seq<Byte>, rest: seq<Byte>)

  /** handleConn over a stream, up to the point where relaying starts. */
  function Serve(cfg: Config, s: seq<Byte>, writes: nat): Served {
    match Negotiate(cfg.auth, s, writes)
    case Refused(sent, _) => Served(Closed, sent, [])
    case Accepted(rest, sent, w) =>
      var served := ServeRequest(cfg, rest, w);
      served.(sent := sent + served.sent)
  }

  function ServeRequest(cfg: Config, s: seq<Byte>, writes: nat): Served {
    match ReadRequest(cfg.codec, s)
    case None => Served(Closed, [], [])
    case Some(r) =>
      if writes == 0 then Served(Closed, [], [])
      else
        var (service, code, host, port) := Decide(cfg, r.command, r.Target());
        Served(service, ReplyMessage(cfg.codec, code, host, port), if service.Closed? then [] else r.rest)
  }

  /** The service for a request, and the reply that announces it. */
  function Decide(cfg: Config, command: Byte, target: Text): (Service, Byte, Text, int) {
    if command == CONNECT then
      match cfg.dial(target)
      case None => (Closed, GENERAL_FAILURE, ANY_HOST, 0)
      case Some((host, port)) => (Relaying(target), SUCCEEDED, host, port)
    else if command == UDP_ASSOCIATE && cfg.allowUdp then
      (Associating(target), SUCCEEDED, cfg.publicHost, cfg.publicPort)
    else (Closed, COMMAND_UNSUPPORTED, ANY_HOST, 0)
  }

  // ---------- what a stream leads to ----------

  /** The reply to a request of RFC 1928: its code by section 6, and the bound address it carries. */
  ghost predicate Replies(cfg: Config, command: Byte, target: Text, reply: seq<Byte>) {
    if command == 1 then
      if cfg.dial(target).Some? then
        reply == ReplyMessage(cfg.codec, 0, cfg.dial(target).value.0, cfg.dial(target).value.1)
      else reply == ReplyMessage(cfg.codec, 1, Lit("0.0.0.0"), 0)
    else if command == 3 && cfg.allowUdp then
      reply == ReplyMessage(cfg.codec, 0, cfg.publicHost, cfg.publicPort)
    else reply == ReplyMessage(cfg.codec, 7, Lit("0.0.0.0"), 0)
  }

  /** The request that the server gets to answer on a stream. */
  ghost predicate Answers(cfg: Config, s: seq<Byte>, writes: nat, r: Request) {
    var n := Negotiate(cfg.auth, s, writes);
    n.Accepted? && ReadRequest(cfg.codec, n.rest) == Some(r) && 0 < n.writes
  }

  /**
   * Every stream: the server relays if and only if it gets to answer a CONNECT request whose dial succeeds, and
   * associates if and only if it gets to answer a UDP ASSOCIATE request and UDP is allowed; the target is that of the
   * request, and what follows the request is left.
   */
  lemma ServiceIff(cfg: Config, s: seq<Byte>, writes: nat, target: Text, rest: seq<Byte>)
    ensures var served := Serve(cfg, s, writes);
            && (served.service == Associating(target) && served.rest == rest <==>
                  exists r :: Answers(cfg, s, writes, r) && r.command == 3 && cfg.allowUdp
                              && r.Target() == target && r.rest == rest)
            && (served.service == Relaying(target) && served.rest == rest <==>
                  exists r :: Answers(cfg, s, writes, r) && r.command == 1 && cfg.dial(target).Some?
                              && r.Target() == target && r.rest == rest)
  {
    hide Negotiate, ReadRequest, ReplyMessage, Request.Target;
    var n := Negotiate(cfg.auth, s, writes);
    if n.Accepted? && ReadRequest(cfg.codec, n.rest).Some? {
      var r := ReadRequest(cfg.codec, n.rest).value;
      assert Answers(cfg, s, writes, r) <==> 0 < n.writes;
      assert forall q :: Answers(cfg, s, writes, q) ==> q == r;
    }
  }

  /** Every stream: the server sends what negotiation asks for, and one reply to the request it gets to answer. */
  lemma SentIff(cfg: Config, s: seq<Byte>, writes: nat)
    ensures var n, sent := Negotiate(cfg.auth, s, writes), Serve(cfg, s, writes).sent;
            && (forall r | Answers(cfg, s, writes, r) ::
                  exists reply :: Replies(cfg, r.command, r.Target(), reply) && sent == n.sent + reply)
            && ((forall r :: !Answers(cfg, s, writes, r)) ==> sent == n.sent)
  {
    hide Negotiate, ReadRequest, ReplyMessage, Request.Target;
    var n := Negotiate(cfg.auth, s, writes);
    assert n.sent + [] == n.sent;
    if n.Accepted? && ReadRequest(cfg.codec, n.rest).Some? {
      var r := ReadRequest(cfg.codec, n.rest).value;
      assert Answers(cfg, s, writes, r) <==> 0 < n.writes;
      var d := Decide(cfg, r.command, r.Target());
      assert Replies(cfg, r.command, r.Target(), ReplyMessage(cfg.codec, d.1, d.2, d.3));
    }
  }

  class Server {
    const cfg: Config

    constructor (cfg: Config)
      ensures this.cfg == cfg
    {
      this.cfg := cfg;
    }

    method HandleConn(conn: Conn) returns (service: Service)
      modifies conn
      ensures var served := Serve(cfg, old(conn.Unread()), old(conn.writes));
              && service == served.service
              && conn.sent == old(conn.sent) + served.sent
              && (!service.Closed? ==> conn.Unread() == served.rest)
    {
      hide Negotiate, ServeRequest, Conn.Unread;
      ghost var n := Negotiate(cfg.auth, conn.Unread(), conn.writes);
      ghost var before := conn.sent;
      var ok := NegotiateAuth(conn);
      if !ok {
        return Closed;
      }
      ghost var served := ServeRequest(cfg, conn.Unread(), conn.writes);
      service := HandleRequest(conn);
      assert before + n.sent + served.sent == before + (n.sent + served.sent);
    }

    method HandleRequest(conn: Conn) returns (service: Service)
      modifies conn
      ensures var served := ServeRequest(cfg, old(conn.Unread()), old(conn.writes));
              && service == served.service
              && conn.sent == old(conn.sent) + served.sent
              && (!service.Closed? ==> conn.Unread() == served.rest)
    {
      var request := ReadRequestFrom(conn);
      if request.None? {
        return Closed;
      }
      var (command, host, port) := request.value;
      service := Answer(conn, command, JoinHostPort(host, Itoa(port)));
    }

    /** The switch on the command, and the reply of the branch taken. */
    method Answer(conn: Conn, command: Byte, target: Text) returns (service: Service)
      modifies conn`sent, conn`writes
      ensures var (decided, code, host, port) := Decide(cfg, command, target);
              if old(conn.writes) == 0 then service == Closed && conn.sent == old(conn.sent)
              else service == decided && conn.sent == old(conn.sent) + ReplyMessage(cfg.codec, code, host, port)
    {
      if command == CONNECT {
        var upstream := cfg.dial(target);
        if upstream.None? {
          var _ := WriteReply(conn, GENERAL_FAILURE, ANY_HOST, 0);
          return Closed;
        }
        var wrote := WriteReply(conn, SUCCEEDED, upstream.value.0, upstream.value.1);
        return if wrote then Relaying(target) else Closed;
      } else if command == UDP_ASSOCIATE {
        if !cfg.allowUdp {
          var _ := WriteReply(conn, COMMAND_UNSUPPORTED, ANY_HOST, 0);
          return Closed;
        }
        var wrote := WriteReply(conn, SUCCEEDED, cfg.publicHost, cfg.publicPort);
        return if wrote then Associating(target) else Closed;
      } else {
        var _ := WriteReply(conn, COMMAND_UNSUPPORTED, ANY_HOST, 0);
        return Closed;
      }
    }

    method NegotiateAuth(conn: Conn) returns (ok: bool)
      modifies conn
      ensures match Negotiate(cfg.auth, old(conn.Unread()), old(conn.writes))
              case Refused(sent, w) => !ok && conn.sent == old(conn.sent) + sent && conn.writes == w
              case Accepted(rest, sent, w) =>
                ok && conn.sent == old(conn.sent) + sent && conn.writes == w && conn.Unread() == rest
    {
      hide Negotiate, ReadMethods, Verify, Exactly, Flatten;
      ghost var n, start := Negotiate(cfg.auth, conn.Unread(), conn.writes), conn.sent;
      NegotiateSteps(cfg.auth, conn.Unread(), conn.writes);
      var methods := ReadOfferedMethods(conn);
      if methods.None? {
        assert start + [] == start;
        return false;
      }
      var required := if cfg.auth.Some? then USER_PASS else NO_AUTH;
      if required !in methods.value {
        var _ := conn.Write([VERSION, REJECTED]);
        assert start + [] == start;
        return false;
      }
      ok := conn.Write([VERSION, required]);
      if !ok {
        assert n == Refused([], 0) && start + [] == start;
        return;
      }
      if required != USER_PASS {
        assert n == Accepted(conn.Unread(), [VERSION, required], conn.writes);
        return;
      }
      ghost var v := Verify(cfg.auth.value, conn.Unread(), conn.writes);
      assert n == v.After([VERSION, required]);
      ok := VerifyUsernamePassword(conn, cfg.auth.value);
      assert start + [VERSION, required] + v.sent == start + ([VERSION, required] + v.sent);
    }

    method ReadOfferedMethods(conn: Conn) returns (methods: Option<seq<Byte>>)
      modifies conn`fragments
      ensures match ReadMethods(old(conn.Unread()))
              case None => methods == None
              case Some(Chunk(offered, rest)) => methods == Some(offered) && conn.Unread() == rest
    {
      var head := conn.ReadExactly(2);
      if head.None? || head.value[0] != VERSION {
        return None;
      }
      methods := conn.ReadExactly(head.value[1]);
    }

    method VerifyUsernamePassword(conn: Conn, expected: Credentials) returns (ok: bool)
      modifies conn
      ensures match Verify(expected, old(conn.Unread()), old(conn.writes))
              case Refused(sent, w) => !ok && conn.sent == old(conn.sent) + sent && conn.writes == w
              case Accepted(rest, sent, w) =>
                ok && conn.sent == old(conn.sent) + sent && conn.writes == w && conn.Unread() == rest
    {
      hide Exactly;
      var version := conn.ReadExactly(1);
      if version.None? || version.value[0] != AUTH_VERSION {
        return false;
      }
      ghost var s1 := conn.Unread();
      var userLen := conn.ReadExactly(1);
      if userLen.None? {
        return false;
      }
      var user := conn.ReadExactly(userLen.value[0]);
      if user.None? {
        return false;
      }
      ghost var s2 := conn.Unread();
      assert ReadCounted(s1) == Some(Chunk(user.value, s2));
      var passLen := conn.ReadExactly(1);
      if passLen.None? {
        return false;
      }
      var pass := conn.ReadExactly(passLen.value[0]);
      if pass.None? {
        return false;
      }
      assert ReadCounted(s2) == Some(Chunk(pass.value, conn.Unread()));
      hide ReadCounted;
      var status: Byte := 0;
      if user.value != expected.user || pass.value != expected.pass {
        status := 1;
      }
      ok := conn.Write([AUTH_VERSION, status]);
      ok := ok && status == 0;
    }

    method ReadRequestFrom(conn: Conn) returns (request: Option<(Byte, Text, nat)>)
      modifies conn`fragments
      ensures match ReadRequest(cfg.codec, old(conn.Unread()))
              case None => request == None
              case Some(Request(command, host, port, rest)) =>
                request == Some((command, host, port)) && conn.Unread() == rest
    {
      var head := conn.ReadExactly(4);
      if head.None? || head.value[0] != VERSION {
        return None;
      }
      var address := ReadAddressFrom(conn, head.value[3]);
      if address.None? {
        return None;
      }
      var portBytes := conn.ReadExactly(2);
      if portBytes.None? {
        return None;
      }
      return Some((head.value[1], address.value, Uint16(portBytes.value)));
    }

    method ReadAddressFrom(conn: Conn, atyp: Byte) returns (address: Option<Text>)
      modifies conn`fragments
      ensures match ReadAddress(cfg.codec, atyp, old(conn.Unread()))
              case None => address == None
              case Some((host, rest)) => address == Some(host) && conn.Unread() == rest
    {
      if atyp == ATYP_V4 {
        var payload := conn.ReadExactly(4);
        return if payload.None? then None else Some(cfg.codec.show(Mapped(payload.value)));
      } else if atyp == ATYP_V6 {
        var payload := conn.ReadExactly(16);
        return if payload.None? then None else Some(cfg.codec.show(payload.value));
      } else if atyp == ATYP_DOMAIN {
        var size := conn.ReadExactly(1);
        if size.None? {
          return None;
        }
        address := conn.ReadExactly(size.value[0]);
      } else {
        return None;
      }
    }

    method WriteReply(conn: Conn, code: Byte, host: Text, port: int) returns (ok: bool)
      modifies conn`sent, conn`writes
      ensures ok <==> 0 < old(conn.writes)
      ensures conn.sent == old(conn.sent) + if ok then ReplyMessage(cfg.codec, code, host, port) else []
    {
      var addr := cfg.codec.parse(host);
      if addr.None? {
        addr := Some(ANY_V4);
      }
      var reply: seq<Byte> := [VERSION, code, 0];
      if IsV4(addr.value) {
        reply := reply + [ATYP_V4];
        reply := reply + To4(addr.value);
      } else {
        reply := reply + [ATYP_V6];
        reply := reply + addr.value;
      }
      reply := reply + [0, 0];
      reply := reply[..|reply| - 2] + PutUint16(port);
      assert reply == ReplyMessage(cfg.codec, code, host, port);
      ok := conn.Write(reply);
    }
  }
}
