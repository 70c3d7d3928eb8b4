/** The host's routes and links, and the commands the program runs on them. */
module Kernel {
  import opened Bytes

  datatype Family = V4 | V6

  function Width(fam: Family): nat {
    if fam == V4 then 32 else 128
  }

  /** The network of all addresses that start with the given bits. */
  datatype Prefix = Prefix(fam: Family, bits: seq<bool>)

  type Addr = a: Prefix | |a.bits| == Width(a.fam) witness Prefix(V4, seq(32, _ => false))

  function Default(fam: Family): Prefix {
    Prefix(fam, [])
  }

  /** Where a route sends packets: a gateway, which may be empty, and a device. */
  datatype Hop = Hop(gateway: Text, dev: Text)

  type Routes = map<Prefix, Hop>

  datatype Net = Net(routes: Routes, links: set<Text>) {
    /** No route uses a device that does not exist. */
    ghost predicate Valid() {
      forall p | p in routes :: routes[p].dev == [] || routes[p].dev in links
    }
  }

  function Get(r: Routes, p: Prefix): Option<Hop> {
    if p in r then Some(r[p]) else None
  }

  /** How a command that could be carried out ends; NoIpv6 is an error text that names ipv6. */
  datatype Outcome = Done | Failed | NoIpv6

  /** The host, and the number of commands run so far. The outcome of each command is given by its number. */
  datatype World = World(net: Net, clock: nat)

  type Outcomes = nat -> Outcome

  function Tick(w: World): World {
    w.(clock := w.clock + 1)
  }

  /** ip route replace: fails without effect, also when the device does not exist. */
  function ReplaceRoute(o: Outcomes, w: World, p: Prefix, hop: Hop): (World, bool) {
    if o(w.clock) != Done || (hop.dev != [] && hop.dev !in w.net.links) then (Tick(w), false)
    else (World(w.net.(routes := w.net.routes[p := hop]), w.clock + 1), true)
  }

  /** ip route del, with "No such process" taken for success. */
  function DeleteRoute(o: Outcomes, w: World, p: Prefix): (World, bool) {
    if o(w.clock) != Done then (Tick(w), false)
    else (World(w.net.(routes := w.net.routes - {p}), w.clock + 1), true)
  }

  /** ip -j route show default: the first default route, when there is one. */
  function ShowDefault(o: Outcomes, w: World, fam: Family): (World, Option<Option<Hop>>) {
    var shown :=
      if o(w.clock) == Done then Some(Get(w.net.routes, Default(fam)))
      else if fam == V6 && o(w.clock) == NoIpv6 then Some(None)
      else None;
    (Tick(w), shown)
  }

  function AddLink(o: Outcomes, w: World, name: Text): (World, bool) {
    if o(w.clock) != Done || name in w.net.links then (Tick(w), false)
    else (World(w.net.(links := w.net.links + {name}), w.clock + 1), true)
  }

  function Without(r: Routes, dev: Text): Routes {
    map p | p in r && r[p].dev != dev :: r[p]
  }

  /** ip link del, with an absent device taken for success. The routes of a deleted device go with it. */
  function DeleteLink(o: Outcomes, w: World, name: Text): (World, bool) {
    if o(w.clock) != Done then (Tick(w), false)
    else if name !in w.net.links then (Tick(w), true)
    else (World(Net(Without(w.net.routes, name), w.net.links - {name}), w.clock + 1), true)
  }

  /** A command or a file operation that leaves routes and links alone. */
  function Setup(o: Outcomes, w: World): (World, bool) {
    (Tick(w), o(w.clock) == Done)
  }

  /** The command runner the managers share. */
  class Runner {
    const outcomes: Outcomes
    var world: World

    constructor (outcomes: Outcomes, net: Net)
      ensures this.outcomes == outcomes && world == World(net, 0)
    {
      this.outcomes, world := outcomes, World(net, 0);
    }

    method RouteReplace(p: Prefix, hop: Hop) returns (ok: bool)
      modifies this
      ensures (world, ok) == ReplaceRoute(outcomes, old(world), p, hop)
    {
      var r := ReplaceRoute(outcomes, world, p, hop);
      world, ok := r.0, r.1;
    }

    method RouteDelete(p: Prefix) returns (ok: bool)
      modifies this
      ensures (world, ok) == DeleteRoute(outcomes, old(world), p)
    {
      var r := DeleteRoute(outcomes, world, p);
      world, ok := r.0, r.1;
    }

    method RouteShowDefault(fam: Family) returns (shown: Option<Option<Hop>>)
      modifies this
      ensures (world, shown) == ShowDefault(outcomes, old(world), fam)
    {
      var r := ShowDefault(outcomes, world, fam);
      world, shown := r.0, r.1;
    }

    method LinkAdd(name: Text) returns (ok: bool)
      modifies this
      ensures (world, ok) == AddLink(outcomes, old(world), name)
    {
      var r := AddLink(outcomes, world, name);
      world, ok := r.0, r.1;
    }

    method LinkDelete(name: Text) returns (ok: bool)
      modifies this
      ensures (world, ok) == DeleteLink(outcomes, old(world), name)
    {
      var r := DeleteLink(outcomes, world, name);
      world, ok := r.0, r.1;
    }

    method SetUp() returns (ok: bool)
      modifies this
      ensures (world, ok) == Setup(outcomes, old(world))
    {
      var r := Setup(outcomes, world);
      world, ok := r.0, r.1;
    }
  }

  // ---------- lookup ----------

  predicate Contains(p: Prefix, a: Addr) {
    p.fam == a.fam && p.bits <= a.bits
  }

  /** The route for an address with at most n leading bits fixed: the longest prefix wins. */
  function LookupFrom(r: Routes, a: Addr, n: nat): Option<Prefix>
    requires n <= |a.bits|
  {
    var p := Prefix(a.fam, a.bits[..n]);
    if p in r then Some(p) else if n == 0 then None else LookupFrom(r, a, n - 1)
  }

  function Lookup(r: Routes, a: Addr): Option<Prefix> {
    LookupFrom(r, a, |a.bits|)
  }

  function Route(r: Routes, a: Addr): (h: Option<Hop>) {
    var p := Lookup(r, a);
    if p.Some? then Get(r, p.value) else None
  }

  lemma {:induction false} LookupFromIs(r: Routes, a: Addr, n: nat, p: Prefix)
    requires n <= |a.bits|
    ensures LookupFrom(r, a, n) == Some(p) <==>
              && p in r && Contains(p, a) && |p.bits| <= n
              && forall q | q in r && Contains(q, a) && |q.bits| <= n :: |q.bits| <= |p.bits|
  {
    var here := Prefix(a.fam, a.bits[..n]);
    if here in r {
      if p in r && Contains(p, a) && |p.bits| == n {
        assert p == here;
      }
      assert Contains(here, a) && |here.bits| == n;
    } else {
      forall q | q in r && Contains(q, a) && |q.bits| <= n
        ensures |q.bits| <= n - 1
      {
        assert |q.bits| == n ==> q == here;
      }
      if 0 < n {
        LookupFromIs(r, a, n - 1, p);
      }
    }
  }

  /** The lookup finds the route whose prefix contains the address and is no shorter than any other that does. */
  lemma LookupIsLongestMatch(r: Routes, a: Addr, p: Prefix)
    ensures Lookup(r, a) == Some(p) <==>
              && p in r && Contains(p, a)
              && forall q | q in r && Contains(q, a) :: |q.bits| <= |p.bits|
  {
    LookupFromIs(r, a, |a.bits|, p);
    if p in r && Contains(p, a) {
      assert |p.bits| <= |a.bits|;
    }
  }

  lemma NoMatchIff(r: Routes, a: Addr)
    ensures Lookup(r, a).None? <==> forall q | q in r :: !Contains(q, a)
  {
    NoMatchFrom(r, a, |a.bits|);
  }

  lemma {:induction false} NoMatchFrom(r: Routes, a: Addr, n: nat)
    requires n <= |a.bits|
    ensures LookupFrom(r, a, n).None? <==> forall q | q in r && |q.bits| <= n :: !Contains(q, a)
  {
    var here := Prefix(a.fam, a.bits[..n]);
    if here in r {
      assert Contains(here, a);
    } else {
      forall q | q in r && |q.bits| == n
        ensures !Contains(q, a)
      {
        assert Contains(q, a) ==> q == here;
      }
      if 0 < n {
        NoMatchFrom(r, a, n - 1);
      }
    }
  }
}
