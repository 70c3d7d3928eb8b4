/** Textual IP addresses: net.ParseIP and net.IP.String as an abstract pair of inverse functions. */
module IpText {
  import opened Bytes
  import opened HostPort

  /** net.IP in its 16-octet form; an IPv4 address is stored IPv4-mapped. */
  type Ip = b: seq<Byte> | |b| == 16 witness seq(16, _ => 0)

  const MAPPED: seq<Byte> := [0, 0, 0, 0, 0, 0, 0, 0, 0, 0, 255, 255]

  predicate IsV4(a: Ip) {
    a[..12] == MAPPED
  }

  function Mapped(b: seq<Byte>): Ip
    requires |b| == 4
  {
    MAPPED + b
  }

  function To4(a: Ip): (b: seq<Byte>)
    requires IsV4(a)
    ensures |b| == 4 && Mapped(b) == a
  {
    a[12..]
  }

  lemma To4OfMapped(b: seq<Byte>)
    requires |b| == 4
    ensures IsV4(Mapped(b)) && To4(Mapped(b)) == b
  {
  }

  predicate IsUnspecified(a: Ip) {
    a == Mapped([0, 0, 0, 0]) || forall x | x in a :: x == 0
  }

  predicate IsLoopback(a: Ip) {
    if IsV4(a) then a[12] == 127 else a[..15] == seq(15, _ => 0) && a[15] == 1
  }

  const PERCENT: Byte := 37
  const ANY_HOST: Text := Lit("0.0.0.0")
  const ANY_V4: Ip := Mapped([0, 0, 0, 0])

  /** parse is net.ParseIP, show is net.IP.String. */
  datatype Codec = Codec(parse: Text -> Option<Ip>, show: Ip -> Text) {
    /** The facts about Go's address text that the proofs use. */
    ghost predicate Lawful() {
      && (forall a: Ip :: parse(show(a)) == Some(a))
      && (forall a: Ip :: NoBrackets(show(a)))
      && (forall s: Text :: parse(s).Some? ==> NoBrackets(s))
      && (forall a: Ip :: PERCENT !in show(a))
      && parse(ANY_HOST) == Some(ANY_V4)
      && parse([]) == None
    }

    /** The text under which a host name travels: an IP literal is reprinted, a name is kept. */
    function Canonical(host: Text): Text {
      match parse(host)
      case Some(a) => show(a)
      case None => host
    }
  }

  lemma CanonicalIdempotent(c: Codec, host: Text)
    requires c.Lawful()
    ensures c.Canonical(c.Canonical(host)) == c.Canonical(host)
  {
  }

  // ---------- the laws are consistent ----------

  function Hex(b: seq<Byte>): (s: Text)
    ensures |s| == 2 * |b|
    ensures NoBrackets(s) && PERCENT !in s
  {
    if b == [] then [] else [97 + b[0] / 16, 97 + b[0] % 16] + Hex(b[1..])
  }

  function Unhex(s: Text): (b: Option<seq<Byte>>)
    ensures b.Some? ==> |s| == 2 * |b.value|
  {
    if s == [] then Some([])
    else if |s| == 1 || !(97 <= s[0] < 113) || !(97 <= s[1] < 113) then None
    else match Unhex(s[2..])
      case None => None
      case Some(rest) => var high: int := s[0] - 97; Some([high * 16 + (s[1] - 97)] + rest)
  }

  lemma UnhexPair(x: Byte, s: Text)
    requires Unhex(s).Some?
    ensures Unhex([97 + x / 16, 97 + x % 16] + s) == Some([x] + Unhex(s).value)
  {
    var high: int, low: int := x / 16, x % 16;
    assert high * 16 + low == x;
    var t: Text := [97 + x / 16, 97 + x % 16] + s;
    assert t[0] == 97 + x / 16 && t[1] == 97 + x % 16 && t[2..] == s;
  }

  lemma {:induction false} UnhexOfHex(b: seq<Byte>)
    ensures Unhex(Hex(b)) == Some(b)
  {
    if b != [] {
      hide Unhex;
      UnhexOfHex(b[1..]);
      UnhexPair(b[0], Hex(b[1..]));
      assert b == [b[0]] + b[1..];
    }
  }

  lemma {:induction false} UnhexPlain(s: Text)
    requires Unhex(s).Some?
    ensures NoBrackets(s)
  {
    if s != [] {
      UnhexPlain(s[2..]);
      assert s == [s[0], s[1]] + s[2..];
    }
  }

  function ParseSome(s: Text): Option<Ip> {
    if s == ANY_HOST then Some(ANY_V4)
    else match Unhex(s)
      case Some(b) => if |b| == 16 then Some(b) else None
      case None => None
  }

  function ShowSome(a: Ip): Text {
    if a == ANY_V4 then ANY_HOST else Hex(a)
  }

  lemma ShownIsParsed(a: Ip)
    ensures ParseSome(ShowSome(a)) == Some(a) && NoBrackets(ShowSome(a)) && PERCENT !in ShowSome(a)
  {
    if a != ANY_V4 {
      UnhexOfHex(a);
      assert |Hex(a)| == 32 && |ANY_HOST| == 7;
      hide Hex, Unhex;
    }
  }

  lemma ParsedIsPlain(s: Text)
    requires ParseSome(s).Some?
    ensures NoBrackets(s)
  {
    if s != ANY_HOST {
      hide NoBrackets;
      UnhexPlain(s);
    }
  }

  /** Some pair of functions obeys the laws, so nothing below is vacuous. */
  lemma LawsAreConsistent()
    ensures Codec(ParseSome, ShowSome).Lawful()
  {
    assert ParseSome(ANY_HOST) == Some(ANY_V4) && ParseSome([]) == None;
    hide ParseSome, ShowSome;
    forall a: Ip
      ensures ParseSome(ShowSome(a)) == Some(a) && NoBrackets(ShowSome(a)) && PERCENT !in ShowSome(a)
    {
      ShownIsParsed(a);
    }
    forall s: Text | ParseSome(s).Some?
      ensures NoBrackets(s)
    {
      ParsedIsPlain(s);
    }
  }
}
