/** Which association a datagram's source gets, in terms of addresses and their octets alone. */
module Adoption {
  import opened Bytes
  import opened HostPort
  import opened IpText
  import opened Associations

  // ---------- a key is as good as an address ----------

  lemma FirstPercent(a: Text, x: Text)
    requires PERCENT !in a
    ensures IndexOf(a + [PERCENT] + x, PERCENT) == |a| && PERCENT in a + [PERCENT] + x
  {
    var s := a + [PERCENT] + x;
    assert s[|a|] == PERCENT;
    assert forall k | 0 <= k < |a| :: s[k] == a[k];
  }

  lemma BeforePercent(a: Text, x: Text, b: Text, y: Text)
    requires PERCENT !in a && PERCENT !in b
    ensures a + [PERCENT] + x == b + [PERCENT] + y ==> a == b && x == y
    ensures a != b + [PERCENT] + y
  {
    FirstPercent(a, x);
    FirstPercent(b, y);
    hide IndexOf;
    assert (a + [PERCENT] + x)[..|a|] == a && (b + [PERCENT] + y)[..|b|] == b;
    assert (a + [PERCENT] + x)[|a| + 1..] == x && (b + [PERCENT] + y)[|b| + 1..] == y;
  }

  /** Different addresses have different keys. */
  lemma AddrTextInjective(codec: Codec, a: UdpAddr, b: UdpAddr)
    requires codec.Lawful() && AddrText(codec, a) == AddrText(codec, b)
    requires -MAX_INT - 1 <= a.port <= MAX_INT && -MAX_INT - 1 <= b.port <= MAX_INT
    ensures a == b
  {
    hide JoinHostPort, Itoa, Atoi;
    var x := if a.ip.Some? then codec.show(a.ip.value) else [];
    var y := if b.ip.Some? then codec.show(b.ip.value) else [];
    ItoaPlain(a.port);
    ItoaPlain(b.port);
    AtoiOfItoa(a.port);
    AtoiOfItoa(b.port);
    JoinInjective(if a.zone == [] then x else x + [PERCENT] + a.zone, Itoa(a.port),
                  if b.zone == [] then y else y + [PERCENT] + b.zone, Itoa(b.port));
    BeforePercent(x, a.zone, y, b.zone);
    BeforePercent(y, b.zone, x, a.zone);
    assert x == y && a.zone == b.zone;
    assert codec.parse(x) == a.ip && codec.parse(y) == b.ip;
  }

  /** A source that is a key is answered with the association of exactly this address. */
  lemma KnownSource<A>(codec: Codec, t: Table<A>, source: UdpAddr, k: Text)
    requires codec.Lawful() && Keyed(codec, t) && -MAX_INT - 1 <= source.port <= MAX_INT
    requires k in t && -MAX_INT - 1 <= t[k].addr.port <= MAX_INT
    ensures t[k].addr == source <==> k == AddrText(codec, source)
    ensures t[k].addr == source ==> Resolve(codec, t, source) == (Some(t[k].assoc), t)
  {
    hide AddrText, ByPort, BySole, Codec.Lawful;
    if k == AddrText(codec, source) {
      AddrTextInjective(codec, t[k].addr, source);
    }
  }

  // ---------- which addresses give way, octet by octet ----------

  /** 127.0.0.0/8 in IPv4-mapped form, or ::1. */
  ghost predicate LoopbackOctets(a: Ip) {
    || (a[..12] == [0, 0, 0, 0, 0, 0, 0, 0, 0, 0, 255, 255] && a[12] == 127)
    || a == [0, 0, 0, 0, 0, 0, 0, 0, 0, 0, 0, 0, 0, 0, 0, 1]
  }

  /** 0.0.0.0 in IPv4-mapped form, or ::. */
  ghost predicate UnspecifiedOctets(a: Ip) {
    || a == [0, 0, 0, 0, 0, 0, 0, 0, 0, 0, 255, 255, 0, 0, 0, 0]
    || a == [0, 0, 0, 0, 0, 0, 0, 0, 0, 0, 0, 0, 0, 0, 0, 0]
  }

  /** The client gave an address of its own that is not the source's. */
  ghost predicate Elsewhere(stored: UdpAddr, source: UdpAddr) {
    && stored.ip.Some?
    && !LoopbackOctets(stored.ip.value) && !UnspecifiedOctets(stored.ip.value)
    && stored.ip != source.ip
  }

  lemma LoopbackIff(a: Ip)
    ensures IsLoopback(a) <==> LoopbackOctets(a)
  {
    var one: seq<Byte> := [0, 0, 0, 0, 0, 0, 0, 0, 0, 0, 0, 0, 0, 0, 0, 1];
    if a[..15] == seq(15, _ => 0) && a[15] == 1 {
      assert forall i | 0 <= i < 15 :: a[i] == a[..15][i];
      assert a == one;
    }
    if a == one {
      assert a[..15] == seq(15, _ => 0);
      assert a[10] == 0 && a[..12][10] == 0;
    }
  }

  lemma UnspecifiedIff(a: Ip)
    ensures IsUnspecified(a) <==> UnspecifiedOctets(a)
  {
    var zeros: seq<Byte> := [0, 0, 0, 0, 0, 0, 0, 0, 0, 0, 0, 0, 0, 0, 0, 0];
    if forall x | x in a :: x == 0 {
      forall i | 0 <= i < 16
        ensures a[i] == zeros[i]
      {
        assert a[i] in a;
      }
      assert a == zeros;
    }
    if a == zeros {
      assert forall x | x in a :: x == 0;
    }
  }

  lemma MatchesIff(stored: UdpAddr, source: UdpAddr)
    ensures Matches(stored, source) <==> stored.port == source.port && !Elsewhere(stored, source)
  {
    if stored.ip.Some? {
      LoopbackIff(stored.ip.value);
      UnspecifiedIff(stored.ip.value);
      hide IsLoopback, IsUnspecified, LoopbackOctets, UnspecifiedOctets;
    }
  }

  /** No association of another port, or of a client that gave another address of its own, is touched by the port. */
  lemma PortSpares<A>(codec: Codec, t: Table<A>, source: UdpAddr, k: Text)
    requires k in t && (t[k].addr.port != source.port || Elsewhere(t[k].addr, source))
    ensures var (found, t') := ByPort(codec, t, source);
            && (k != AddrText(codec, source) ==> k in t' && t'[k] == t[k])
            && (Unique(t) && found == Some(t[k].assoc) ==> k == AddrText(codec, source))
  {
    hide AddrText, Matches, Elsewhere;
    MatchesIff(t[k].addr, source);
    assert k !in Candidates(t, source);
  }

  /** The one association that has the source's port and whose client gave no other address of its own. */
  ghost predicate OnlyOneThere<A>(t: Table<A>, source: UdpAddr, k: Text) {
    && k in t
    && forall l | l in t :: (t[l].addr.port == source.port && !Elsewhere(t[l].addr, source)) <==> l == k
  }

  lemma OnlyOneIff<A>(t: Table<A>, source: UdpAddr, k: Text)
    ensures OnlyOneThere(t, source, k) <==> Candidates(t, source) == {k}
  {
    hide Matches, Elsewhere;
    forall l | l in t
      ensures l in Candidates(t, source) <==> t[l].addr.port == source.port && !Elsewhere(t[l].addr, source)
    {
      MatchesIff(t[l].addr, source);
    }
    assert Candidates(t, source) == {k} ==> k in Candidates(t, source);
  }

  /**
   * A datagram from an unknown source is answered by its port alone, and its association moved, if and only if there
   * is exactly one of that port whose client gave no other address of its own.
   */
  lemma PortAdoptsIff<A>(codec: Codec, t: Table<A>, source: UdpAddr)
    requires AddrText(codec, source) !in t
    ensures ByPort(codec, t, source).0.Some? <==> exists k :: OnlyOneThere(t, source, k)
    ensures forall k | OnlyOneThere(t, source, k) ::
              ByPort(codec, t, source) == (Some(t[k].assoc), Rekey(codec, t, k, source))
  {
    hide AddrText, OnlyOneThere, Candidates, Rekey;
    forall k | OnlyOneThere(t, source, k)
      ensures Candidates(t, source) == {k} && TheOne(Candidates(t, source)) == k
    {
      OnlyOneIff(t, source, k);
      assert TheOne(Candidates(t, source)) in {k};
    }
    if |Candidates(t, source)| == 1 {
      OnlyOneIff(t, source, TheOne(Candidates(t, source)));
    }
  }
}
