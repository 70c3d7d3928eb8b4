/**
 * The table of UDP associations: which client a datagram's source address belongs to.
 *
 * Resolution takes three lock regions. The first finds a source that is already a key; the second re-keys the one
 * association with the same port and a compatible address; the third re-keys the only association there is.
 */
module Associations {
  import opened Bytes
  import opened HostPort
  import opened IpText

  // ---------- addresses ----------

  /** net.UDPAddr. */
  datatype UdpAddr = UdpAddr(ip: Option<Ip>, zone: Text, port: int)

  /** UDPAddr.String: the key of an association. */
  function AddrText(codec: Codec, a: UdpAddr): Text {
    var ip := if a.ip.Some? then codec.show(a.ip.value) else [];
    JoinHostPort(if a.zone == [] then ip else ip + [PERCENT] + a.zone, Itoa(a.port))
  }

  /** An association may be re-keyed to a source with the same port, unless its own address is a different fixed one. */
  predicate Matches(stored: UdpAddr, source: UdpAddr) {
    && stored.port == source.port
    && (stored.ip.None? || IsLoopback(stored.ip.value) || IsUnspecified(stored.ip.value) || stored.ip == source.ip)
  }

  // ---------- the table as a value ----------

  datatype Entry<+A> = Entry(assoc: A, addr: UdpAddr)
  type Table<A> = map<Text, Entry<A>>

  /** Every key is the text of its association's current address. */
  ghost predicate Keyed<A>(codec: Codec, t: Table<A>) {
    forall k | k in t :: k == AddrText(codec, t[k].addr)
  }

  /** No association stands under two keys. */
  ghost predicate Unique<A>(t: Table<A>) {
    forall k, l | k in t && l in t && t[k].assoc == t[l].assoc :: k == l
  }

  ghost function Members<A>(t: Table<A>): set<A> {
    set k | k in t :: t[k].assoc
  }

  ghost function Candidates<A>(t: Table<A>, source: UdpAddr): set<Text> {
    set k | k in t && Matches(t[k].addr, source)
  }

  ghost function TheOne(s: set<Text>): (k: Text)
    requires |s| == 1
    ensures s == {k}
  {
    var k :| k in s;
    assert |s - {k}| == 0;
    k
  }

  /** adoptAssociationLocked: the association under a key moves to the text of a source. */
  function Rekey<A>(codec: Codec, t: Table<A>, key: Text, source: UdpAddr): Table<A>
    requires key in t
  {
    (t - {key})[AddrText(codec, source) := Entry(t[key].assoc, source)]
  }

  ghost function ByPort<A>(codec: Codec, t: Table<A>, source: UdpAddr): (Option<A>, Table<A>) {
    var text := AddrText(codec, source);
    if text in t then (Some(t[text].assoc), t)
    else if |Candidates(t, source)| == 1 then
      var k := TheOne(Candidates(t, source));
      (Some(t[k].assoc), Rekey(codec, t, k, source))
    else (None, t)
  }

  ghost function BySole<A>(codec: Codec, t: Table<A>, source: UdpAddr): (Option<A>, Table<A>) {
    var text := AddrText(codec, source);
    if text in t then (Some(t[text].assoc), t)
    else if |t| == 1 then
      var k := TheOne(t.Keys);
      (Some(t[k].assoc), Rekey(codec, t, k, source))
    else (None, t)
  }

  /** associationForSource with no other region in between. */
  ghost function Resolve<A>(codec: Codec, t: Table<A>, source: UdpAddr): (Option<A>, Table<A>) {
    var text := AddrText(codec, source);
    if text in t then (Some(t[text].assoc), t)
    else
      var (found, t') := ByPort(codec, t, source);
      if found.Some? then (found, t') else BySole(codec, t', source)
  }

  // ---------- what every region keeps ----------

  lemma RekeyKeeps<A>(codec: Codec, t: Table<A>, key: Text, source: UdpAddr)
    requires Keyed(codec, t) && Unique(t) && key in t && AddrText(codec, source) !in t
    ensures var t' := Rekey(codec, t, key, source);
            && Keyed(codec, t') && Unique(t') && Members(t') == Members(t) && |t'| == |t|
            && t'.Keys == t.Keys - {key} + {AddrText(codec, source)}
  {
    hide AddrText, Members;
    var text := AddrText(codec, source);
    var t' := Rekey(codec, t, key, source);
    assert t'.Keys == t.Keys - {key} + {text};
    assert |t'.Keys| == |t.Keys|;
    RekeyMembers(codec, t, key, source);
  }

  lemma RekeyMembers<A>(codec: Codec, t: Table<A>, key: Text, source: UdpAddr)
    requires key in t && AddrText(codec, source) !in t
    ensures Members(Rekey(codec, t, key, source)) == Members(t)
  {
    hide AddrText;
    var text := AddrText(codec, source);
    var t' := Rekey(codec, t, key, source);
    forall a | a in Members(t)
      ensures a in Members(t')
    {
      var k :| k in t && t[k].assoc == a;
      assert (if k == key then text else k) in t';
    }
    forall a | a in Members(t')
      ensures a in Members(t)
    {
      var k :| k in t' && t'[k].assoc == a;
      assert (if k == text then key else k) in t;
    }
  }

  /** Every packet region keeps the keys right, the associations single, and the same associations in the table. */
  lemma RegionsKeep<A>(codec: Codec, t: Table<A>, source: UdpAddr)
    requires Keyed(codec, t) && Unique(t)
    ensures var t' := ByPort(codec, t, source).1;
            Keyed(codec, t') && Unique(t') && Members(t') == Members(t) && |t'| == |t|
    ensures var t' := BySole(codec, t, source).1;
            Keyed(codec, t') && Unique(t') && Members(t') == Members(t) && |t'| == |t|
  {
    if AddrText(codec, source) !in t {
      if |Candidates(t, source)| == 1 {
        RekeyKeeps(codec, t, TheOne(Candidates(t, source)), source);
      }
      if |t| == 1 {
        RekeyKeeps(codec, t, TheOne(t.Keys), source);
      }
    }
  }

  lemma ResolveKeeps<A>(codec: Codec, t: Table<A>, source: UdpAddr)
    requires Keyed(codec, t) && Unique(t)
    ensures var t' := Resolve(codec, t, source).1;
            Keyed(codec, t') && Unique(t') && Members(t') == Members(t) && |t'| == |t|
  {
    RegionsKeep(codec, t, source);
  }

  // ---------- what resolution chooses ----------

  /** The choice, stated without an order: the exact match, else the one match by port, else the only association. */
  ghost predicate Chosen<A>(codec: Codec, t: Table<A>, source: UdpAddr, a: A) {
    var text := AddrText(codec, source);
    if text in t then a == t[text].assoc
    else if exists k :: IsOnlyMatch(t, source, k) then exists k :: IsOnlyMatch(t, source, k) && a == t[k].assoc
    else exists k :: IsOnlyEntry(t, k) && a == t[k].assoc
  }

  ghost predicate IsOnlyMatch<A>(t: Table<A>, source: UdpAddr, k: Text) {
    k in t && Matches(t[k].addr, source) && forall l | l in t && Matches(t[l].addr, source) :: l == k
  }

  ghost predicate IsOnlyEntry<A>(t: Table<A>, k: Text) {
    k in t && forall l | l in t :: l == k
  }

  lemma OnlyMatchIff<A>(t: Table<A>, source: UdpAddr)
    ensures |Candidates(t, source)| == 1 <==> exists k :: IsOnlyMatch(t, source, k)
    ensures |Candidates(t, source)| == 1 ==>
              forall k :: IsOnlyMatch(t, source, k) <==> k == TheOne(Candidates(t, source))
  {
    var cs := Candidates(t, source);
    if |cs| == 1 {
      forall l | l in t && Matches(t[l].addr, source)
        ensures l == TheOne(cs)
      {
        assert l in cs;
      }
      assert TheOne(cs) in cs;
      assert IsOnlyMatch(t, source, TheOne(cs));
    }
    if k :| IsOnlyMatch(t, source, k) {
      assert cs == {k};
    }
  }

  lemma OnlyEntryIff<A>(t: Table<A>)
    ensures |t| == 1 <==> exists k :: IsOnlyEntry(t, k)
    ensures |t| == 1 ==> forall k :: IsOnlyEntry(t, k) <==> k == TheOne(t.Keys)
  {
    if |t| == 1 {
      assert IsOnlyEntry(t, TheOne(t.Keys));
    }
    if k :| IsOnlyEntry(t, k) {
      assert t.Keys == {k};
    }
  }

  /** Resolution, run alone, answers with an association exactly when one is chosen, and with that one. */
  lemma ResolveChooses<A>(codec: Codec, t: Table<A>, source: UdpAddr, a: A)
    ensures Resolve(codec, t, source).0 == Some(a) <==> Chosen(codec, t, source, a)
  {
    OnlyMatchIff(t, source);
    OnlyEntryIff(t);
  }

  /**
   * Once resolution has answered for a source, that source is a key bound to the same association, a second
   * resolution gives the same answer, and the table no longer changes; without an answer nothing changed at all.
   */
  lemma ResolveIdempotent<A>(codec: Codec, t: Table<A>, source: UdpAddr)
    ensures var (found, t') := Resolve(codec, t, source);
            && (found.Some? ==>
                  && AddrText(codec, source) in t'
                  && t'[AddrText(codec, source)].assoc == found.value)
            && (found.None? ==> t' == t)
            && Resolve(codec, t', source) == (found, t')
  {
  }
}
