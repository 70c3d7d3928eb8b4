/** Where packets go after a successful Apply: no routing loop, and nothing else is diverted. */
module Routing {
  import opened Bytes
  import opened Kernel
  import opened DeviceState
  import opened Router
  import opened LegacyNetwork
  import opened Conservation
  import Endpoint
  import WgDev

  // ---------- the route table a successful Apply leaves ----------

  lemma {:induction false} TunnelInstalled(o: Outcomes, w: World, dev: Text, tunnel: seq<Prefix>)
    requires ApplyTunnel(o, w, dev, tunnel).1
    ensures var w' := ApplyTunnel(o, w, dev, tunnel).0;
            && w'.net.links == w.net.links
            && forall p :: Get(w'.net.routes, p) ==
                 if exists t | t in tunnel :: p == Default(t.fam) then Some(Hop([], dev)) else Get(w.net.routes, p)
    decreases |tunnel|
  {
    if tunnel != [] {
      var w1 := ReplaceRoute(o, w, Default(tunnel[0].fam), Hop([], dev)).0;
      TunnelInstalled(o, w1, dev, tunnel[1..]);
      var w' := ApplyTunnel(o, w1, dev, tunnel[1..]).0;
      assert tunnel == [tunnel[0]] + tunnel[1..];
      forall p
        ensures Get(w'.net.routes, p) ==
          if exists t | t in tunnel :: p == Default(t.fam) then Some(Hop([], dev)) else Get(w.net.routes, p)
      {
        if t :| t in tunnel[1..] && p == Default(t.fam) {
          assert t in tunnel;
        } else if p == Default(tunnel[0].fam) {
          assert tunnel[0] in tunnel;
        }
      }
    }
  }

  /** What a successful Apply of a plan leaves at each prefix. */
  ghost predicate Installed(before: Routes, m: Saved, after: Routes, stack: Stack, endpoint: Option<Addr>, dev: Text) {
    && (forall fam | Tunnels(stack, fam) :: Get(after, Default(fam)) == Some(Hop([], dev)))
    && (forall fam | !Tunnels(stack, fam) :: Get(after, Default(fam)) == Get(before, Default(fam)))
    && (forall p: Prefix | p.bits != [] ::
          Get(after, p) ==
          if endpoint.Some? && p == Unmap(endpoint.value) then m.Original(p.fam) else Get(before, p))
    && (endpoint.Some? ==> m.Original(Unmap(endpoint.value).fam).Some?)
  }

  /** The saved default routes are those of the current table, where there are any. */
  ghost predicate SavedFrom(m: Saved, r: Routes) {
    forall fam | m.Original(fam).Some? :: m.Original(fam) == Get(r, Default(fam))
  }

  lemma SavedFromIgnoresBypass(m: Saved, bypass: seq<Prefix>, r: Routes)
    requires SavedFrom(m, r)
    ensures SavedFrom(m.(bypass := bypass), r)
  {
  }

  lemma DiscoverSaves(o: Outcomes, w: World, m: Saved, fam: Family)
    requires SavedFrom(m, w.net.routes) && Discover(o, w, m, fam).ok
    ensures var r := Discover(o, w, m, fam);
            SavedFrom(r.saved, w.net.routes) && r.world.net == w.net && r.saved.bypass == m.bypass
  {
  }

  lemma BypassInstalled(o: Outcomes, w: World, m: Saved, bypass: seq<Prefix>)
    requires |bypass| <= 1 && ApplyBypass(o, w, m, bypass).1
    ensures var w' := ApplyBypass(o, w, m, bypass).0;
            && w'.net.links == w.net.links
            && if bypass == [] then w'.net.routes == w.net.routes
               else m.Original(bypass[0].fam).Some?
                    && w'.net.routes == w.net.routes[bypass[0] := m.Original(bypass[0].fam).value]
  {
    if bypass != [] {
      assert bypass[1..] == [];
      var w1 := ReplaceRoute(o, w, bypass[0], m.Original(bypass[0].fam).value).0;
      assert ApplyBypass(o, w1, m, []) == (w1, true);
    }
  }

  lemma TunnelFamilies(stack: Stack)
    ensures forall fam :: Tunnels(stack, fam) <==> exists t | t in TunnelRoutes(stack) :: Default(fam) == Default(t.fam)
  {
    forall fam
      ensures Tunnels(stack, fam) <==> exists t | t in TunnelRoutes(stack) :: Default(fam) == Default(t.fam)
    {
      var t, routes := Default(fam), TunnelRoutes(stack);
      assert Default(t.fam) == t;
      assert t in routes <==> Tunnels(stack, fam) by {
        assert stack.Dual? ==> routes[0] == Default(V4) && routes[1] == Default(V6);
        assert !stack.Dual? ==> routes == [routes[0]];
      }
      assert forall u | u in routes :: Default(u.fam) == u;
    }
  }

  lemma InstallInstalls(o: Outcomes, w: World, m: Saved, dev: Text, stack: Stack, endpoint: Option<Addr>)
    requires Install(o, w, m, dev, BuildPlan(stack, endpoint)).ok
    ensures var r := Install(o, w, m, dev, BuildPlan(stack, endpoint));
            && Installed(w.net.routes, r.saved, r.world.net.routes, stack, endpoint, dev)
            && r.world.net.links == w.net.links
            && r.saved == m.(bypass := BuildPlan(stack, endpoint).bypass)
  {
    var plan := BuildPlan(stack, endpoint);
    var w' := ApplyBypass(o, w, m, plan.bypass).0;
    if endpoint.Some? {
      var p: Prefix := Unmap(endpoint.value);
      assert p.bits != [];
    }
    BypassInstalled(o, w, m, plan.bypass);
    TunnelInstalled(o, w', dev, plan.tunnel);
    assert forall fam :: m.(bypass := plan.bypass).Original(fam) == m.Original(fam);
    TunnelFamilies(stack);
    forall p: Prefix | p.bits != []
      ensures !exists t | t in plan.tunnel :: p == Default(t.fam)
    {
    }
  }

  /** The table after the first successful Apply on a host where the device name was unused. */
  lemma FirstApplyInstalls(e: Env, b: Before, clock: nat, cfg: Config, st: State)
    requires b.Valid() && e.dev == b.dev
    requires ApplyNetwork(e, Network(World(b.net, clock), NOTHING_SAVED), cfg, st).1
    ensures var n := ApplyNetwork(e, Network(World(b.net, clock), NOTHING_SAVED), cfg, st).0;
            && Installed(b.net.routes, n.saved, n.world.net.routes, cfg.stack,
                         Endpoint.SelectAddress(e.parser, st, cfg.stack), e.dev)
            && SavedFrom(n.saved, b.net.routes)
            && n.world.net.links == b.net.links + {e.dev}
  {
    var w := World(b.net, clock);
    var w1 := WgDev.ApplyDevice(e.outcomes, w, DesiredFor(e, cfg, st)).0;
    FreshDevice(e.outcomes, b, w, DesiredFor(e, cfg, st));
    var endpoint := Endpoint.SelectAddress(e.parser, st, cfg.stack);
    var d4 := Discover(e.outcomes, w1, NOTHING_SAVED, V4);
    assert SavedFrom(NOTHING_SAVED, w1.net.routes);
    hide WgDev.ApplyDevice, DesiredFor, Installed, Install, SavedFrom, BuildPlan, Discover, Endpoint.SelectAddress;
    DiscoverSaves(e.outcomes, w1, NOTHING_SAVED, V4);
    DiscoverSaves(e.outcomes, d4.world, d4.saved, V6);
    var d6 := Discover(e.outcomes, d4.world, d4.saved, V6);
    InstallInstalls(e.outcomes, d6.world, d6.saved, e.dev, cfg.stack, endpoint);
    SavedFromIgnoresBypass(d6.saved, BuildPlan(cfg.stack, endpoint).bypass, b.net.routes);
  }

  lemma FreshDevice(o: Outcomes, b: Before, w: World, d: WgDev.Desired)
    requires b.Valid() && w.net == b.net && d.name == b.dev && WgDev.ApplyDevice(o, w, d).1
    ensures WgDev.ApplyDevice(o, w, d).0.net == Net(b.net.routes, b.net.links + {b.dev})
  {
    var w1 := DeleteLink(o, w, d.name).0;
    assert w1.net == b.net;
    var w2 := AddLink(o, w1, d.name).0;
    WgDev.SetupKeepsNet(o, w2, |WgDev.InterfaceAddresses(d)| + 3);
  }

  // ---------- lookup in that table ----------

  lemma Covers(p: Prefix, x: Addr, y: Addr)
    requires p == y && Contains(p, x)
    ensures x == y
  {
    assert x.bits == p.bits;
  }

  /** The route of an address is the hop of the longest prefix that holds it. */
  lemma RouteVia(r: Routes, x: Addr, p: Prefix)
    requires p in r && Contains(p, x) && forall q | q in r && Contains(q, x) :: |q.bits| <= |p.bits|
    ensures Route(r, x) == Some(r[p])
  {
    LookupIsLongestMatch(r, x, p);
  }

  lemma EndpointRoute(before: Routes, m: Saved, after: Routes, stack: Stack, a: Addr, dev: Text)
    requires Installed(before, m, after, stack, Some(a), dev) && SavedFrom(m, before)
    ensures Route(after, Unmap(a)) == Get(before, Default(Unmap(a).fam)) != None
  {
    var p: Prefix := Unmap(a);
    assert p.bits != [];
    assert Get(after, p) == m.Original(p.fam) == Get(before, Default(p.fam));
    RouteVia(after, Unmap(a), p);
  }

  /** The best match of x before was the default route, or there was none. */
  predicate ByDefault(before: Routes, x: Addr) {
    Lookup(before, x) in {None, Some(Default(x.fam))}
  }

  lemma ByDefaultIff(before: Routes, x: Addr)
    ensures ByDefault(before, x) <==> forall q: Prefix | q in before && Contains(q, x) :: q.bits == []
  {
    NoMatchIff(before, x);
    LookupIsLongestMatch(before, x, Default(x.fam));
    if ByDefault(before, x) {
      forall q: Prefix | q in before && Contains(q, x)
        ensures q.bits == []
      {
      }
    } else {
      var p := Lookup(before, x).value;
      LookupIsLongestMatch(before, x, p);
      assert p.bits == [] ==> p == Default(x.fam);
    }
  }

  lemma SameLongest(before: Routes, m: Saved, after: Routes, stack: Stack, endpoint: Option<Addr>, dev: Text, x: Addr)
    requires Installed(before, m, after, stack, endpoint, dev) && (endpoint.Some? ==> x != Unmap(endpoint.value))
    ensures forall q: Prefix | Contains(q, x) && q.bits != [] :: Get(after, q) == Get(before, q)
  {
    forall q: Prefix | Contains(q, x) && q.bits != []
      ensures Get(after, q) == Get(before, q)
    {
      if endpoint.Some? && q == Unmap(endpoint.value) {
        Covers(q, x, Unmap(endpoint.value));
        assert false;
      }
    }
  }

  lemma OtherRoute(before: Routes, m: Saved, after: Routes, stack: Stack, endpoint: Option<Addr>, dev: Text, x: Addr)
    requires Installed(before, m, after, stack, endpoint, dev) && (endpoint.Some? ==> x != Unmap(endpoint.value))
    ensures Route(after, x) ==
            if Tunnels(stack, x.fam) && ByDefault(before, x) then Some(Hop([], dev)) else Route(before, x)
  {
    SameLongest(before, m, after, stack, endpoint, dev, x);
    ByDefaultIff(before, x);
    ByDefaultIff(after, x);
    var d := Default(x.fam);
    assert Contains(d, x);
    assert Get(after, d) == if Tunnels(stack, x.fam) then Some(Hop([], dev)) else Get(before, d);
    assert ByDefault(after, x) <==> ByDefault(before, x) by {
      forall q: Prefix | Contains(q, x)
        ensures (q in after && q.bits != []) <==> (q in before && q.bits != [])
      {
        assert q.bits != [] ==> Get(after, q) == Get(before, q);
      }
    }
    hide Installed;
    if ByDefault(before, x) {
      RouteByDefault(before, x);
      RouteByDefault(after, x);
    } else {
      var p := Lookup(before, x).value;
      LookupIsLongestMatch(before, x, p);
      SameBest(before, after, x, p);
    }
  }

  lemma RouteByDefault(r: Routes, x: Addr)
    requires ByDefault(r, x)
    ensures Route(r, x) == Get(r, Default(x.fam))
  {
    NoMatchIff(r, x);
    assert Contains(Default(x.fam), x);
    if Default(x.fam) in r {
      LookupIsLongestMatch(r, x, Default(x.fam));
    }
  }

  lemma SameBest(before: Routes, after: Routes, x: Addr, p: Prefix)
    requires p in before && Contains(p, x) && p.bits != []
    requires forall q | q in before && Contains(q, x) :: |q.bits| <= |p.bits|
    requires forall q: Prefix | Contains(q, x) && q.bits != [] :: Get(after, q) == Get(before, q)
    ensures Route(after, x) == Route(before, x)
  {
    assert Get(after, p) == Get(before, p);
    RouteVia(before, x, p);
    forall q | q in after && Contains(q, x)
      ensures |q.bits| <= |p.bits|
    {
      assert q.bits != [] ==> Get(after, q) == Get(before, q);
    }
    RouteVia(after, x, p);
  }

  /** The families of a stack. */
  ghost predicate Uses(stack: Stack, fam: Family) {
    match stack
    case Dual => true
    case Only4 => fam == V4
    case Only6 => fam == V6
  }

  /**
   * No routing loop: after the first successful Apply, the endpoint is reached by the original default route of its
   * family, which is not through the tunnel, an address of a family that the stack uses and that only a default route
   * (or none) matched goes into the tunnel, and every other address goes where it went before.
   */
  lemma NoRoutingLoop(e: Env, b: Before, clock: nat, cfg: Config, st: State, x: Addr)
    requires b.Valid() && e.dev == b.dev
    ensures var (n, ok) := ApplyNetwork(e, Network(World(b.net, clock), NOTHING_SAVED), cfg, st);
            var after, endpoint := n.world.net.routes, Endpoint.SelectAddress(e.parser, st, cfg.stack);
            ok ==>
              if endpoint.Some? && Denotes(endpoint.value, x) then
                Route(after, x) == Get(b.net.routes, Default(x.fam)) != None && Route(after, x).value.dev != e.dev
              else if Uses(cfg.stack, x.fam) && ByDefault(b.net.routes, x) then
                Route(after, x) == Some(Hop([], e.dev))
              else
                Route(after, x) == Route(b.net.routes, x)
  {
    hide ApplyNetwork, Route, ByDefault, Endpoint.SelectAddress, Denotes, Unmap;
    var endpoint := Endpoint.SelectAddress(e.parser, st, cfg.stack);
    if endpoint.Some? {
      UnmapIff(endpoint.value, x);
    }
    if ApplyNetwork(e, Network(World(b.net, clock), NOTHING_SAVED), cfg, st).1 {
      RouteAfter(e, b, clock, cfg, st, x);
    }
  }

  lemma RouteAfter(e: Env, b: Before, clock: nat, cfg: Config, st: State, x: Addr)
    requires b.Valid() && e.dev == b.dev
    requires ApplyNetwork(e, Network(World(b.net, clock), NOTHING_SAVED), cfg, st).1
    ensures var after := ApplyNetwork(e, Network(World(b.net, clock), NOTHING_SAVED), cfg, st).0.world.net.routes;
            var endpoint := Endpoint.SelectAddress(e.parser, st, cfg.stack);
            if endpoint.Some? && x == Unmap(endpoint.value) then
              Route(after, x) == Get(b.net.routes, Default(x.fam)) != None && Route(after, x).value.dev != e.dev
            else if Tunnels(cfg.stack, x.fam) && ByDefault(b.net.routes, x) then
              Route(after, x) == Some(Hop([], e.dev))
            else
              Route(after, x) == Route(b.net.routes, x)
  {
    FirstApplyInstalls(e, b, clock, cfg, st);
    var n := ApplyNetwork(e, Network(World(b.net, clock), NOTHING_SAVED), cfg, st).0;
    var after, endpoint := n.world.net.routes, Endpoint.SelectAddress(e.parser, st, cfg.stack);
    hide ApplyNetwork, Endpoint.SelectAddress, Installed;
    if endpoint.Some? && x == Unmap(endpoint.value) {
      EndpointRoute(b.net.routes, n.saved, after, cfg.stack, endpoint.value, e.dev);
    } else {
      OtherRoute(b.net.routes, n.saved, after, cfg.stack, endpoint, e.dev, x);
    }
  }

  // ---------- when the routes can be put in place ----------

  lemma {:induction false} TunnelIff(o: Outcomes, w: World, dev: Text, tunnel: seq<Prefix>)
    requires dev != []
    ensures ApplyTunnel(o, w, dev, tunnel).1
            <==> AllDone(o, w.clock, w.clock + |tunnel|) && (tunnel != [] ==> dev in w.net.links)
    decreases |tunnel|
  {
    if tunnel != [] {
      var w' := ReplaceRoute(o, w, Default(tunnel[0].fam), Hop([], dev)).0;
      TunnelIff(o, w', dev, tunnel[1..]);
      assert AllDone(o, w.clock, w.clock + |tunnel|)
          <==> o(w.clock) == Done && AllDone(o, w.clock + 1, w.clock + |tunnel|);
    }
  }

  /** The default route that a first Apply finds for a family; an IPv6 lookup may fail by naming ipv6. */
  ghost function Found(o: Outcomes, w: World, fam: Family): Option<Hop> {
    if fam == V6 && o(w.clock + 1) != Done then None else Get(w.net.routes, Default(fam))
  }

  /**
   * The first Apply of a plan succeeds if and only if it is for a device that exists and each command of it succeeds:
   * two lookups, of which the second may report that there is no IPv6; a host route for the endpoint, whose family
   * needs a default route with an existing device; and one default route for each family of the stack.
   */
  lemma FirstPlanIff(o: Outcomes, w: World, dev: Text, stack: Stack, endpoint: Option<Addr>)
    ensures var tunnel := if stack == Dual then 2 else 1;
            Router.Apply(o, w, NOTHING_SAVED, dev, BuildPlan(stack, endpoint)).ok <==>
              && dev != [] && dev in w.net.links
              && o(w.clock) == Done && o(w.clock + 1) in {Done, NoIpv6}
              && if endpoint.None? then AllDone(o, w.clock + 2, w.clock + 2 + tunnel)
                 else
                   var hop := Found(o, w, Unmap(endpoint.value).fam);
                   && AllDone(o, w.clock + 2, w.clock + 3 + tunnel)
                   && hop.Some? && (hop.value.dev == [] || hop.value.dev in w.net.links)
  {
    var plan := BuildPlan(stack, endpoint);
    if dev != [] && o(w.clock) == Done && o(w.clock + 1) in {Done, NoIpv6} {
      var d6 := Discover(o, Discover(o, w, NOTHING_SAVED, V4).world, Discover(o, w, NOTHING_SAVED, V4).saved, V6);
      assert d6 == Result(World(w.net, w.clock + 2), Saved(Found(o, w, V4), Found(o, w, V6), []), true);
      InstallIff(o, d6.world, d6.saved, dev, stack, endpoint);
      hide Install, BuildPlan;
    }
  }

  lemma InstallIff(o: Outcomes, w: World, m: Saved, dev: Text, stack: Stack, endpoint: Option<Addr>)
    requires dev != []
    ensures var tunnel := if stack == Dual then 2 else 1;
            Install(o, w, m, dev, BuildPlan(stack, endpoint)).ok <==>
              && dev in w.net.links
              && if endpoint.None? then AllDone(o, w.clock, w.clock + tunnel)
                 else
                   var hop := m.Original(Unmap(endpoint.value).fam);
                   && AllDone(o, w.clock, w.clock + 1 + tunnel)
                   && hop.Some? && (hop.value.dev == [] || hop.value.dev in w.net.links)
  {
    hide Unmap, AllDone, Saved.Original, ApplyTunnel;
    var plan := BuildPlan(stack, endpoint);
    var n := |plan.tunnel|;
    var w1 := ApplyBypass(o, w, m, plan.bypass).0;
    TunnelIff(o, w1, dev, plan.tunnel);
    if endpoint.Some? {
      var p := Unmap(endpoint.value);
      assert plan.bypass == [p] && plan.bypass[1..] == [];
      NextDone(o, w.clock, w.clock + 1 + n);
      if m.Original(p.fam).Some? {
        var (w', ok) := ReplaceRoute(o, w, p, m.Original(p.fam).value);
        assert ApplyBypass(o, w, m, plan.bypass) == (w', ok);
      }
    }
  }

  lemma NextDone(o: Outcomes, from: nat, end: nat)
    requires from < end
    ensures AllDone(o, from, end) <==> o(from) == Done && AllDone(o, from + 1, end)
  {
  }

  /** Each endpoint field of the device's peer is blank or names an address. */
  ghost predicate NamesAddresses(p: Endpoint.AddrParser, d: Device)
    requires d.peers != []
  {
    forall v | v in {d.peers[0].v4, d.peers[0].v6} ::
      Endpoint.EndpointHost(v) == [] || p.PlainIp(Endpoint.EndpointHost(v))
  }

  lemma PeerAddress(p: Endpoint.AddrParser, d: Device, st: State, id: Text, token: Text, privateKey: Text,
                    publicKey: Text, stack: Stack)
    requires p.Lawful() && Endpoint.StateFromDevice(d, id, token, privateKey, publicKey) == Some(st)
    requires NamesAddresses(p, d)
    ensures var ip := Endpoint.PreferredHost(d, stack);
            && (ip != [] ==> p.parse(ip).Some?)
            && Endpoint.SelectAddress(p, st, stack)
               == (if ip == [] then None else Some(Unmap(p.parse(ip).value)))
            && Endpoint.SelectEndpoint(st, stack)
               == (if ip == [] then d.peers[0].host else Endpoint.Normal(ip, d.peers[0].host))
  {
    var v4, v6 := d.peers[0].v4, d.peers[0].v6;
    assert v4 in {v4, v6} && v6 in {v4, v6};
    assert Endpoint.Textual(p, v4) && Endpoint.Textual(p, v6);
    Endpoint.EndpointsAgree(p, d, id, token, privateKey, publicKey, stack);
    hide Endpoint.StateFromDevice, Endpoint.SelectEndpoint, Endpoint.EndpointHost, Endpoint.SelectAddress,
         Endpoint.Normal;
  }

  /**
   * The endpoint and the tunnel: for a state built from a device whose endpoint fields are blank or name addresses,
   * and any address that would otherwise be tunnelled, the first successful Apply keeps it out of the tunnel if and
   * only if the text that the WireGuard device got names it. A device without endpoint addresses gets the host
   * endpoint as text, and then no address at all is kept out, whatever that host resolves to.
   */
  lemma EndpointIsKeptOut(e: Env, b: Before, clock: nat, cfg: Config, x: Addr,
                          d: Device, st: State, id: Text, token: Text, privateKey: Text, publicKey: Text)
    requires b.Valid() && e.dev == b.dev && e.parser.Lawful()
    requires Endpoint.StateFromDevice(d, id, token, privateKey, publicKey) == Some(st) && NamesAddresses(e.parser, d)
    ensures var (n, ok) := ApplyNetwork(e, Network(World(b.net, clock), NOTHING_SAVED), cfg, st);
            var ip := Endpoint.PreferredHost(d, cfg.stack);
            && (ip != [] ==> e.parser.parse(ip).Some?)
            && DesiredFor(e, cfg, st).endpoint
               == (if ip == [] then d.peers[0].host else Endpoint.Normal(ip, d.peers[0].host))
            && (ok && Uses(cfg.stack, x.fam) && ByDefault(b.net.routes, x) ==>
                  (Route(n.world.net.routes, x) != Some(Hop([], e.dev))
                   <==> ip != [] && Denotes(e.parser.parse(ip).value, x)))
  {
    PeerAddress(e.parser, d, st, id, token, privateKey, publicKey, cfg.stack);
    var ip := Endpoint.PreferredHost(d, cfg.stack);
    UnmapsOnce(e.parser, ip);
    if ip != [] {
      UnmapIff(e.parser.parse(ip).value, x);
      UnmapIff(Unmap(e.parser.parse(ip).value), x);
    }
    NoRoutingLoop(e, b, clock, cfg, st, x);
    hide ApplyNetwork, Endpoint.StateFromDevice, Endpoint.SelectEndpoint, Endpoint.PreferredHost,
         Endpoint.SelectAddress, Route, ByDefault, Endpoint.Normal, Unmap, Denotes, Before.Valid,
         Endpoint.AddrParser.Lawful;
  }

  lemma UnmapsOnce(p: Endpoint.AddrParser, ip: Text)
    ensures p.parse(ip).Some? ==> Unmap(Unmap(p.parse(ip).value)) == Unmap(p.parse(ip).value)
  {
  }
}
