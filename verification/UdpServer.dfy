/** The server's map of UDP associations, updated in place under its mutex. */
module UdpServer {
  import opened Bytes
  import opened IpText
  import opened Associations

  /** An association: the client's current address, and the control connection it lives by. */
  class Association {
    var clientAddr: UdpAddr
    var connOpen: bool

    constructor (addr: UdpAddr)
      ensures clientAddr == addr && connOpen
    {
      clientAddr, connOpen := addr, true;
    }
  }

  class Server {
    const codec: Codec
    var associations: map<Text, Association>

    constructor (codec: Codec)
      ensures this.codec == codec && associations == map[] && Valid()
    {
      this.codec, associations := codec, map[];
    }

    ghost predicate Valid()
      reads this, associations.Values
    {
      forall k | k in associations :: k == AddrText(codec, associations[k].clientAddr)
    }

    ghost function View(): Table<Association>
      reads this, associations.Values
    {
      map k | k in associations :: Entry(associations[k], associations[k].clientAddr)
    }

    method StoreAssociation(addr: UdpAddr, assoc: Association)
      requires Valid() && assoc.clientAddr == addr
      modifies this`associations
      ensures Valid()
      ensures View() == old(View())[AddrText(codec, addr) := Entry(assoc, addr)]
    {
      hide AddrText;
      ghost var before := associations;
      var text := AddrText(codec, addr);
      associations := associations[text := assoc];
      assert forall k | k in associations && k != text :: k in before && associations[k] == before[k];
      assert View().Keys == old(View()).Keys + {text};
    }

    method DeleteAssociation(addr: UdpAddr)
      requires Valid()
      modifies this`associations
      ensures Valid()
      ensures View() == old(View()) - {AddrText(codec, addr)}
    {
      hide AddrText;
      ghost var before := associations;
      associations := associations - {AddrText(codec, addr)};
      assert forall k | k in associations :: k in before && associations[k] == before[k];
    }

    method LookupAssociation(addr: UdpAddr) returns (found: Option<Association>)
      ensures found == if AddrText(codec, addr) in associations then Some(associations[AddrText(codec, addr)]) else None
    {
      var text := AddrText(codec, addr);
      found := if text in associations then Some(associations[text]) else None;
    }

    method AssociationForSource(addr: UdpAddr) returns (found: Option<Association>)
      requires Valid()
      modifies this`associations, associations.Values`clientAddr
      ensures Valid()
      ensures (found, View()) == Resolve(codec, old(View()), addr)
    {
      found := LookupAssociation(addr);
      if found.Some? {
        return;
      }
      ghost var values := associations.Values;
      found := AdoptAssociationMatchingSourcePort(addr);
      if found.Some? {
        return;
      }
      found := AdoptSoleAssociation(addr);
    }

    /** The keys are visited in an arbitrary order, and the visit stops at the second match. */
    method AdoptAssociationMatchingSourcePort(addr: UdpAddr) returns (found: Option<Association>)
      requires Valid()
      modifies this`associations, associations.Values`clientAddr
      ensures Valid()
      ensures (found, View()) == ByPort(codec, old(View()), addr)
      ensures found.None? ==> unchanged(this) && associations == old(associations)
    {
      var text := AddrText(codec, addr);
      if text in associations {
        return Some(associations[text]);
      }
      ghost var candidates := Candidates(View(), addr);
      var matchedKey: Text := [];
      var matchedAssoc: Option<Association> := None;
      var unvisited := associations.Keys;
      while unvisited != {}
        invariant unvisited <= associations.Keys
        invariant matchedAssoc.None? ==> candidates <= unvisited
        invariant matchedAssoc.Some? ==>
                    && matchedKey in associations && matchedAssoc.value == associations[matchedKey]
                    && matchedKey in candidates && matchedKey !in unvisited
                    && candidates <= unvisited + {matchedKey}
        decreases unvisited
      {
        var key :| key in unvisited;
        unvisited := unvisited - {key};
        var assoc := associations[key];
        assert key in candidates <==> Matches(assoc.clientAddr, addr);
        if Matches(assoc.clientAddr, addr) {
          if matchedAssoc.Some? {
            TwoInSet(candidates, key, matchedKey);
            return None;
          }
          matchedKey, matchedAssoc := key, Some(assoc);
        }
      }
      if matchedAssoc.None? {
        assert candidates == {};
        return None;
      }
      assert candidates == {matchedKey};
      found := AdoptAssociationLocked(matchedKey, matchedAssoc.value, addr);
    }

    method AdoptSoleAssociation(addr: UdpAddr) returns (found: Option<Association>)
      requires Valid()
      modifies this`associations, associations.Values`clientAddr
      ensures Valid()
      ensures (found, View()) == BySole(codec, old(View()), addr)
    {
      var text := AddrText(codec, addr);
      if text in associations {
        return Some(associations[text]);
      }
      assert View().Keys == associations.Keys;
      assert |View()| == |View().Keys| && |associations| == |associations.Keys|;
      if |associations| != 1 {
        return None;
      }
      OneKey(associations.Keys);
      var key :| key in associations;
      assert associations.Keys == {key};
      found := AdoptAssociationLocked(key, associations[key], addr);
    }

    method AdoptAssociationLocked(key: Text, assoc: Association, addr: UdpAddr) returns (found: Option<Association>)
      requires Valid() && key in associations && associations[key] == assoc
      requires AddrText(codec, addr) !in associations
      modifies this`associations, assoc`clientAddr
      ensures Valid()
      ensures found == Some(assoc) && View() == Rekey(codec, old(View()), key, addr)
    {
      hide AddrText;
      ghost var before, was := associations, View();
      ghost var text := AddrText(codec, addr);
      assert forall k | k in before && k != key :: before[k] != assoc;
      associations := associations - {key};
      assoc.clientAddr := addr;
      associations := associations[AddrText(codec, assoc.clientAddr) := assoc];
      assert associations == (before - {key})[text := assoc];
      assert forall k | k in before && k != key :: View()[k] == was[k];
      assert View() == Rekey(codec, was, key, addr);
      return Some(assoc);
    }

    /** The part of Close under the mutex: every control connection is closed and every entry removed. */
    method CloseAssociations()
      requires Valid()
      modifies this`associations, associations.Values`connOpen
      ensures Valid() && View() == map[]
      ensures forall a | a in old(associations.Values) :: !a.connOpen
    {
      hide AddrText;
      ghost var before := associations;
      var unvisited := associations.Keys;
      while unvisited != {}
        invariant unvisited <= before.Keys
        invariant associations == map k | k in unvisited :: before[k]
        invariant forall k | k in before && k !in unvisited :: !before[k].connOpen
        decreases unvisited
      {
        var key :| key in unvisited;
        assert before[key] in before.Values;
        associations[key].connOpen := false;
        associations := associations - {key};
        unvisited := unvisited - {key};
      }
      forall a | a in before.Values
        ensures !a.connOpen
      {
        var k :| k in before && before[k] == a;
      }
    }
  }

  lemma TwoInSet(s: set<Text>, a: Text, b: Text)
    requires a in s && b in s && a != b
    ensures |s| != 1
  {
    assert {a, b} <= s;
    SubsetSize({a, b}, s);
  }

  lemma {:induction false} SubsetSize(a: set<Text>, b: set<Text>)
    requires a <= b
    ensures |a| <= |b|
  {
    if a != {} {
      var x :| x in a;
      SubsetSize(a - {x}, b - {x});
    }
  }

  lemma OneKey(s: set<Text>)
    requires |s| == 1
    ensures forall k | k in s :: s == {k}
  {
    var k := TheOne(s);
  }
}
