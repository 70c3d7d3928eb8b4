/** The client's side of a connection: Dialer.DialContext and its two halves. */
module Socks5Client {
  import opened Bytes
  import opened HostPort
  import opened IpText
  import opened Wire
  import opened Connection

  /** DialContext over the stream of the server's answers. */
  function Dial(codec: Codec, auth: Auth, address: Text, s: seq<Byte>, writes: nat): Negotiation {
    match Handshake(auth, s, writes)
    case Refused(sent, w) => Refused(sent, w)
    case Accepted(rest, sent, w) =>
      Connect(codec, address, rest, w).After(sent)
  }

  class Dialer {
    const codec: Codec
    const auth: Auth

    constructor (codec: Codec, auth: Auth)
      ensures this.codec == codec && this.auth == auth
    {
      this.codec, this.auth := codec, auth;
    }

    /** The connection handed in is the one the dialer opened to its server. */
    method DialContext(conn: Conn, address: Text) returns (ok: bool)
      modifies conn
      ensures match Dial(codec, auth, address, old(conn.Unread()), old(conn.writes))
              case Refused(sent, w) => !ok && conn.sent == old(conn.sent) + sent
              case Accepted(rest, sent, w) => ok && conn.sent == old(conn.sent) + sent && conn.Unread() == rest
    {
      hide Handshake, Connect, Conn.Unread;
      ghost var h := Handshake(auth, conn.Unread(), conn.writes);
      ghost var before := conn.sent;
      ok := ClientHandshake(conn);
      if !ok {
        return;
      }
      ghost var c := Connect(codec, address, conn.Unread(), conn.writes);
      ok := ClientConnect(conn, address);
      assert before + h.sent + c.sent == before + (h.sent + c.sent);
    }

    method ClientHandshake(conn: Conn) returns (ok: bool)
      modifies conn
      ensures match Handshake(auth, old(conn.Unread()), old(conn.writes))
              case Refused(sent, w) => !ok && conn.sent == old(conn.sent) + sent && conn.writes == w
              case Accepted(rest, sent, w) =>
                ok && conn.sent == old(conn.sent) + sent && conn.writes == w && conn.Unread() == rest
    {
      if auth.None? {
        var wrote := conn.Write([VERSION, 1, NO_AUTH]);
        if !wrote {
          return false;
        }
        var reply := conn.ReadExactly(2);
        return reply == Some([VERSION, NO_AUTH]);
      }
      var wrote := conn.Write([VERSION, 1, USER_PASS]);
      if !wrote {
        return false;
      }
      var reply := conn.ReadExactly(2);
      if reply.None? || reply.value[0] != VERSION || reply.value[1] != USER_PASS {
        return false;
      }
      assert reply.value == [VERSION, USER_PASS];
      var user, pass := auth.value.user, auth.value.pass;
      var req: seq<Byte> := [AUTH_VERSION, Low8(|user|)] + user;
      req := req + [Low8(|pass|)];
      req := req + pass;
      assert req == AuthMessage(auth.value);
      wrote := conn.Write(req);
      if !wrote {
        return false;
      }
      var authReply := conn.ReadExactly(2);
      return authReply == Some([AUTH_VERSION, 0]);
    }

    method ClientConnect(conn: Conn, address: Text) returns (ok: bool)
      modifies conn
      ensures match Connect(codec, address, old(conn.Unread()), old(conn.writes))
              case Refused(sent, w) => !ok && conn.sent == old(conn.sent) + sent && conn.writes == w
              case Accepted(rest, sent, w) =>
                ok && conn.sent == old(conn.sent) + sent && conn.writes == w && conn.Unread() == rest
    {
      var split := SplitHostPort(address);
      if split.None? {
        return false;
      }
      var host := split.value.host;
      var port := Atoi(split.value.port);
      if port.None? {
        return false;
      }
      var req := BuildRequest(host, port.value);
      var wrote := conn.Write(req);
      if !wrote {
        return false;
      }
      ok := ReadConnectReply(conn);
    }

    method BuildRequest(host: Text, port: int) returns (req: seq<Byte>)
      ensures req == RequestMessage(codec, host, port)
    {
      req := [VERSION, CONNECT, 0];
      var ip := codec.parse(host);
      if ip.Some? {
        if IsV4(ip.value) {
          req := req + [ATYP_V4];
          req := req + To4(ip.value);
        } else {
          req := req + [ATYP_V6];
          req := req + ip.value;
        }
      } else {
        req := req + [ATYP_DOMAIN, Low8(|host|)];
        req := req + host;
      }
      ghost var head := req;
      assert head == [VERSION, CONNECT, 0] + AddressField(codec, host);
      hide AddressField, PutUint16;
      req := req + [0, 0];
      assert req[..|req| - 2] == head;
      req := req[..|req| - 2] + PutUint16(port);
    }

    method ReadConnectReply(conn: Conn) returns (ok: bool)
      modifies conn`fragments
      ensures ok <==> ReadReply(old(conn.Unread())).Some?
      ensures ok ==> ReadReply(old(conn.Unread())) == Some(conn.Unread())
    {
      var head := conn.ReadExactly(4);
      if head.None? || head.value[0] != VERSION || head.value[1] != SUCCEEDED {
        return false;
      }
      var address: Option<seq<Byte>>;
      if head.value[3] == ATYP_V4 {
        address := conn.ReadExactly(4);
      } else if head.value[3] == ATYP_V6 {
        address := conn.ReadExactly(16);
      } else if head.value[3] == ATYP_DOMAIN {
        var size := conn.ReadExactly(1);
        if size.None? {
          return false;
        }
        address := conn.ReadExactly(size.value[0]);
      } else {
        return false;
      }
      if address.None? {
        return false;
      }
      var port := conn.ReadExactly(2);
      return port.Some?;
    }
  }
}
