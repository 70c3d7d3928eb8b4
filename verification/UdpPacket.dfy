/** The UDP request header of RFC 1928 section 7: parseUDPPacket and buildUDPReply. */
module UdpPacket {
  import opened Bytes
  import opened IpText
  import opened Wire

  datatype Address = Octets4(v4: seq<Byte>) | Octets16(v6: seq<Byte>) | Name(name: Text) {
    predicate Valid() {
      match this
      case Octets4(b) => |b| == 4
      case Octets16(b) => |b| == 16
      case Name(n) => |n| < 256
    }

    function Field(): (f: seq<Byte>)
      requires Valid()
      ensures f != []
    {
      match this
      case Octets4(b) => [ATYP_V4] + b
      case Octets16(b) => [ATYP_V6] + b
      case Name(n) => [ATYP_DOMAIN, |n|] + n
    }

    function Host(codec: Codec): Text
      requires Valid()
    {
      match this
      case Octets4(b) => codec.show(Mapped(b))
      case Octets16(b) => codec.show(b)
      case Name(n) => n
    }
  }

  /** A datagram as section 7 lays it out: two reserved octets, fragment 0, address, port, data. */
  function Encode(address: Address, port: int, payload: seq<Byte>): seq<Byte>
    requires address.Valid()
  {
    [0, 0, 0] + address.Field() + PutUint16(port) + payload
  }

  /** OutOfRange is an index beyond the packet, which stops a Go program. */
  datatype Datagram = Parsed(host: Text, port: nat, payload: seq<Byte>) | Rejected | OutOfRange

  function Parse(codec: Codec, packet: seq<Byte>): Datagram {
    if |packet| < 10 || packet[..3] != [0, 0, 0] then Rejected
    else match Split(packet[3..])
      case Unknown => Rejected
      case Truncated => OutOfRange
      case Complete(address, port, payload) => Parsed(address.Host(codec), port, payload)
  }

  datatype Pieces = Unknown | Truncated | Complete(address: Address, port: nat, payload: seq<Byte>)

  /** The address field, the port and the data of what follows the first three octets. */
  function Split(s: seq<Byte>): (p: Pieces)
    requires 2 <= |s|
    ensures p.Complete? ==> p.address.Valid()
  {
    if s[0] == ATYP_V4 then
      if |s| < 7 then Truncated else Complete(Octets4(s[1..5]), Uint16(s[5..7]), s[7..])
    else if s[0] == ATYP_V6 then
      if |s| < 19 then Truncated else Complete(Octets16(s[1..17]), Uint16(s[17..19]), s[19..])
    else if s[0] == ATYP_DOMAIN then
      var n: nat := s[1];
      if |s| < n + 4 then Truncated else Complete(Name(s[2..n + 2]), Uint16(s[n + 2..n + 4]), s[n + 4..])
    else Unknown
  }

  lemma Shifted(packet: seq<Byte>, i: nat, j: nat)
    requires i <= j && j + 3 <= |packet|
    ensures packet[3..][i..j] == packet[i + 3..j + 3] && packet[3..][j..] == packet[j + 3..]
  {
  }

  /** parseUDPPacket, with idx advanced over the packet. */
  method ParseUdpPacket(codec: Codec, packet: seq<Byte>) returns (r: Datagram)
    ensures r == Parse(codec, packet)
  {
    if |packet| < 10 {
      return Rejected;
    }
    if packet[0] != 0 || packet[1] != 0 || packet[2] != 0 {
      return Rejected;
    }
    ghost var s := packet[3..];
    assert packet[..3] == [0, 0, 0] && s[0] == packet[3] && s[1] == packet[4];
    var idx: nat := 4;
    var host: Text;
    if packet[3] == ATYP_V4 {
      Shifted(packet, 1, 5);
      Shifted(packet, 5, 7);
      host := codec.show(Mapped(packet[idx..idx + 4]));
      idx := idx + 4;
    } else if packet[3] == ATYP_V6 {
      if |packet| < idx + 16 {
        return OutOfRange;
      }
      Shifted(packet, 1, 17);
      if 22 <= |packet| {
        Shifted(packet, 17, 19);
      }
      host := codec.show(packet[idx..idx + 16]);
      idx := idx + 16;
    } else if packet[3] == ATYP_DOMAIN {
      var size: nat := packet[idx];
      idx := idx + 1;
      if |packet| < idx + size {
        return OutOfRange;
      }
      Shifted(packet, 2, size + 2);
      if size + 7 <= |packet| {
        Shifted(packet, size + 2, size + 4);
      }
      host := packet[idx..idx + size];
      idx := idx + size;
    } else {
      return Rejected;
    }
    if |packet| < idx + 2 {
      return OutOfRange;
    }
    var port := Uint16(packet[idx..idx + 2]);
    idx := idx + 2;
    return Parsed(host, port, packet[idx..]);
  }

  /** buildUDPReply: only an IPv4 source can be reported. */
  method BuildUdpReply(codec: Codec, host: Text, port: int, payload: seq<Byte>) returns (r: Option<seq<Byte>>)
    ensures r == Reply(codec, host, port, payload)
  {
    var a := codec.parse(host);
    if a.None? {
      return None;
    }
    if !IsV4(a.value) {
      return None;
    }
    var reply: seq<Byte> := [0, 0, 0, ATYP_V4];
    ghost var octets := To4(a.value);
    reply := reply + To4(a.value);
    assert reply == [0, 0, 0] + Octets4(octets).Field();
    reply := reply + [0, 0];
    assert reply[..|reply| - 2] == [0, 0, 0] + Octets4(octets).Field();
    reply := reply[..|reply| - 2] + PutUint16(port);
    reply := reply + payload;
    assert reply == Encode(Octets4(octets), port, payload) by {
      hide PutUint16, Address.Field;
    }
    return Some(reply);
  }

  function Reply(codec: Codec, host: Text, port: int, payload: seq<Byte>): Option<seq<Byte>> {
    match codec.parse(host)
    case None => None
    case Some(a) => if IsV4(a) then Some(Encode(Octets4(To4(a)), port, payload)) else None
  }

  // ---------- round trips ----------

  lemma SplitOfField(address: Address, port: int, payload: seq<Byte>)
    requires address.Valid()
    ensures Split(address.Field() + PutUint16(port) + payload) == Complete(address, port % 65536, payload)
  {
    Uint16RoundTrip(port);
    var s := address.Field() + PutUint16(port) + payload;
    var n := |address.Field()|;
    assert s[n..n + 2] == PutUint16(port) && s[n + 2..] == payload;
    match address
    case Octets4(b) => assert s[1..5] == b;
    case Octets16(b) => assert s[1..17] == b;
    case Name(b) => assert s[2..n] == b;
  }

  /** An encoded datagram is parsed back into its parts exactly when it is at least ten octets long. */
  lemma DatagramRoundTrip(codec: Codec, address: Address, port: int, payload: seq<Byte>)
    requires address.Valid()
    ensures var packet := Encode(address, port, payload);
            Parse(codec, packet) == Parsed(address.Host(codec), port % 65536, payload) <==> 10 <= |packet|
  {
    hide Split, Address.Field, PutUint16;
    var packet := Encode(address, port, payload);
    assert packet[..3] == [0, 0, 0];
    assert packet[3..] == address.Field() + PutUint16(port) + payload;
    SplitOfField(address, port, payload);
  }

  lemma CutAtPort(s: seq<Byte>, n: nat)
    requires n + 2 <= |s|
    ensures s == s[..n] + PutUint16(Uint16(s[n..n + 2])) + s[n + 2..]
  {
    PutUint16OfUint16(s[n..n + 2]);
    hide PutUint16, Uint16;
    assert s == s[..n] + s[n..n + 2] + s[n + 2..];
  }

  lemma SplitSound(s: seq<Byte>)
    requires 2 <= |s|
    ensures Split(s).Complete? ==>
              Split(s).port < 65536 &&
              s == Split(s).address.Field() + PutUint16(Split(s).port) + Split(s).payload
  {
    hide PutUint16, Uint16;
    if Split(s).Complete? {
      var n: nat := if s[0] == ATYP_V4 then 5 else if s[0] == ATYP_V6 then 17 else s[1] as int + 2;
      CutAtPort(s, n);
      assert Split(s).address.Field() == s[..n];
    }
  }

  /** What is parsed is the encoding of the parts reported, whatever the packet. */
  lemma ParseSound(codec: Codec, packet: seq<Byte>) returns (address: Address)
    requires Parse(codec, packet).Parsed?
    ensures address.Valid()
    ensures var d := Parse(codec, packet);
            d.host == address.Host(codec) && d.port < 65536 && packet == Encode(address, d.port, d.payload)
  {
    SplitSound(packet[3..]);
    address := Split(packet[3..]).address;
    assert packet == packet[..3] + packet[3..];
  }

  ghost predicate ProperPrefix(a: seq<Byte>, b: seq<Byte>) {
    |a| < |b| && a == b[..|a|]
  }

  lemma Padding(packet: seq<Byte>) returns (address: Address)
    requires 10 <= |packet| && packet[..3] == [0, 0, 0] && Split(packet[3..]).Truncated?
    ensures address.Valid()
    ensures ProperPrefix(packet, Encode(address, 0, []))
            || exists port :: ProperPrefix(packet, Encode(address, port, []))
  {
    hide Split, PutUint16, Address.Field;
    var s := packet[3..];
    var full := PaddedIsComplete(s);
    SplitSound(full);
    address := Split(full).address;
    assert Encode(address, Split(full).port, []) == [0, 0, 0] + full;
    assert packet == [0, 0, 0] + s;
    assert ProperPrefix(packet, Encode(address, Split(full).port, []));
  }

  lemma PaddedIsComplete(s: seq<Byte>) returns (full: seq<Byte>)
    requires 7 <= |s| && Split(s).Truncated?
    ensures ProperPrefix(s, full) && Split(full).Complete? && Split(full).payload == []
  {
    hide Uint16;
    var n: nat := if s[0] == ATYP_V6 then 19 else s[1] as int + 4;
    full := s + seq(n - |s|, _ => 0 as Byte);
    assert full[0] == s[0] && full[1] == s[1];
  }

  lemma PrefixIsTruncated(packet: seq<Byte>, address: Address, port: int)
    requires 10 <= |packet| && address.Valid() && ProperPrefix(packet, Encode(address, port, []))
    ensures packet[..3] == [0, 0, 0] && Split(packet[3..]).Truncated?
  {
    var f := address.Field();
    var whole := Encode(address, port, []);
    assert |whole| == |f| + 5;
    assert whole[3] == f[0] && whole[4] == f[1];
    assert packet[3] == whole[3] && packet[4] == whole[4];
    assert packet[..3] == whole[..3];
  }

  /** An index leaves the packet exactly when at least ten octets of an unfinished header arrived. */
  lemma OutOfRangeIff(codec: Codec, packet: seq<Byte>)
    ensures Parse(codec, packet).OutOfRange?
            <==> 10 <= |packet| && exists address: Address, port: int ::
                   address.Valid() && ProperPrefix(packet, Encode(address, port, []))
  {
    if Parse(codec, packet).OutOfRange? {
      var address := Padding(packet);
    }
    if 10 <= |packet| && exists address: Address, port: int ::
         address.Valid() && ProperPrefix(packet, Encode(address, port, []))
    {
      var address: Address, port: int :| address.Valid() && ProperPrefix(packet, Encode(address, port, []));
      PrefixIsTruncated(packet, address, port);
    }
  }

  /** The reply built for an IPv4 source is parsed back into the same host, port and payload. */
  lemma ReplyRoundTrip(codec: Codec, host: Text, port: int, payload: seq<Byte>)
    requires Reply(codec, host, port, payload).Some?
    ensures Parse(codec, Reply(codec, host, port, payload).value)
            == Parsed(codec.Canonical(host), port % 65536, payload)
  {
    var a := codec.parse(host).value;
    DatagramRoundTrip(codec, Octets4(To4(a)), port, payload);
  }
}
