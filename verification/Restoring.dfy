/** When exactly Cleanup restores the host: the IPv6 default route, and the host routes after a retry. */
module Restoring {
  import opened Bytes
  import opened Kernel
  import opened DeviceState
  import opened Router
  import opened LegacyNetwork
  import opened Conservation
  import opened Routing
  import opened Undoing
  import Endpoint
  import WgDev

  // ---------- the IPv6 default route ----------

  /** The world in which the first Apply looks the default routes up. */
  ghost function Probed(e: Env, w: World, cfg: Config, st: State): World {
    WgDev.ApplyDevice(e.outcomes, w, DesiredFor(e, cfg, st)).0
  }

  /** The number of the IPv6 lookup in a world with the given saved routes. */
  ghost function Ipv6Lookup(w: World, m: Saved): nat {
    w.clock + if m.v4.Some? then 0 else 1
  }

  /** The host has an IPv6 default route, the stack tunnels IPv6, and the first lookup reports IPv6 missing. */
  ghost predicate Missed(e: Env, b: Before, clock: nat, cfg: Config, st: State) {
    && Default(V6) in b.net.routes && Tunnels(cfg.stack, V6)
    && e.outcomes(Ipv6Lookup(Probed(e, World(b.net, clock), cfg, st), NOTHING_SAVED)) == NoIpv6
  }

  /** What a successful Apply does to the default routes, and what it has saved of them. */
  lemma ApplyDefaults(o: Outcomes, w: World, m: Saved, dev: Text, stack: Stack, endpoint: Option<Addr>)
    requires Router.Apply(o, w, m, dev, BuildPlan(stack, endpoint)).ok
    ensures var r := Router.Apply(o, w, m, dev, BuildPlan(stack, endpoint));
            && r.saved.v4 == (if m.v4.Some? then m.v4 else Get(w.net.routes, Default(V4)))
            && r.saved.v6 == (if m.v6.Some? then m.v6
                              else if o(Ipv6Lookup(w, m)) == NoIpv6 then None
                              else Get(w.net.routes, Default(V6)))
            && r.saved.bypass == BuildPlan(stack, endpoint).bypass
            && r.world.net.links == w.net.links
            && forall fam ::
                 Get(r.world.net.routes, Default(fam)) ==
                 if Tunnels(stack, fam) then Some(Hop([], dev)) else Get(w.net.routes, Default(fam))
  {
    var d := Discovery(o, w, m);
    InstallInstalls(o, d.world, d.saved, dev, stack, endpoint);
  }

  /** The same for the network manager, whose device commands take the routes of the device away first. */
  lemma NetworkDefaults(e: Env, n: Network, cfg: Config, st: State)
    requires n.world.net.Valid() && e.dev != [] && ApplyNetwork(e, n, cfg, st).1
    ensures var n' := ApplyNetwork(e, n, cfg, st).0;
            var v4, v6 := Get(n.world.net.routes, Default(V4)), Get(n.world.net.routes, Default(V6));
            && n'.saved.v4 == (if n.saved.v4.Some? then n.saved.v4 else Flushed(v4, e.dev))
            && n'.saved.v6 == (if n.saved.v6.Some? then n.saved.v6
                               else if e.outcomes(Ipv6Lookup(Probed(e, n.world, cfg, st), n.saved)) == NoIpv6 then None
                               else Flushed(v6, e.dev))
            && forall fam ::
                 Get(n'.world.net.routes, Default(fam)) ==
                 if Tunnels(cfg.stack, fam) then Some(Hop([], e.dev))
                 else Flushed(Get(n.world.net.routes, Default(fam)), e.dev)
  {
    var d := DesiredFor(e, cfg, st);
    DeviceFlushes(e.outcomes, n.world, d);
    var w := WgDev.ApplyDevice(e.outcomes, n.world, d).0;
    hide WgDev.ApplyDevice, DesiredFor, Router.Apply, CleanupNetwork, Net.Valid;
    ApplyDefaults(e.outcomes, w, n.saved, e.dev, cfg.stack, Endpoint.SelectAddress(e.parser, st, cfg.stack));
  }

  lemma DeviceFlushes(o: Outcomes, w: World, d: WgDev.Desired)
    requires w.net.Valid() && d.name != [] && WgDev.ApplyDevice(o, w, d).1
    ensures forall p ::
              Get(WgDev.ApplyDevice(o, w, d).0.net.routes, p) == Flushed(Get(w.net.routes, p), d.name)
  {
    DeleteLinkFlushes(o, w, d.name);
    var w1 := DeleteLink(o, w, d.name).0;
    var w2 := AddLink(o, w1, d.name).0;
    WgDev.SetupKeepsNet(o, w2, |WgDev.InterfaceAddresses(d)| + 3);
  }

  /**
   * The exact condition under which the IPv6 default route comes back, for every outcome of every command: when
   * Apply, Cleanup and the deletion of the device succeed, links and default routes are conserved unless the host has
   * an IPv6 default route, the stack tunnels IPv6, and its lookup failed with an error that names ipv6.
   */
  lemma RoutesConservedIff(o: Outcomes, b: Before, w: World, stack: Stack, endpoint: Option<Addr>)
    requires b.Valid() && w.net == Net(b.net.routes, b.net.links + {b.dev})
    ensures var r := Router.Apply(o, w, NOTHING_SAVED, b.dev, BuildPlan(stack, endpoint));
            var c := Router.Cleanup(o, r.world, r.saved);
            var (after, deleted) := DeleteLink(o, c.world, b.dev);
            r.ok && c.ok && deleted ==>
              (Conserved(b, after.net)
               <==> !(Default(V6) in b.net.routes && Tunnels(stack, V6) && o(w.clock + 1) == NoIpv6))
  {
    hide Router.Apply, Router.Cleanup, DeleteLink, BuildPlan;
    var r := Router.Apply(o, w, NOTHING_SAVED, b.dev, BuildPlan(stack, endpoint));
    var c := Router.Cleanup(o, r.world, r.saved);
    var (after, deleted) := DeleteLink(o, c.world, b.dev);
    if r.ok && c.ok && deleted {
      ApplyDefaults(o, w, NOTHING_SAVED, b.dev, stack, endpoint);
      var b' := b.(forgetful := true);
      RoutesKept(o, b', w, stack, endpoint);
      var e := Env(o, Endpoint.AddrParser(t => None), b.dev);
      var n := Network(r.world, r.saved);
      hide Net.Valid;
      assert CleanupNetwork(e, n) == (Network(after, c.saved), true);
      CleanedDefaults(e, b', n, Elements(n.saved.bypass));
    }
  }

  lemma RoutesKept(o: Outcomes, b: Before, w: World, stack: Stack, endpoint: Option<Addr>)
    requires b.Valid() && b.forgetful && w.net == Net(b.net.routes, b.net.links + {b.dev})
    ensures var r := Router.Apply(o, w, NOTHING_SAVED, b.dev, BuildPlan(stack, endpoint));
            Kept(b, r.world, r.saved, Elements(r.saved.bypass))
  {
    var plan := BuildPlan(stack, endpoint);
    PlansAreSensible(stack, endpoint);
    assert Kept(b, w, NOTHING_SAVED, {}) && Trusted(b, o, plan.tunnel);
    ApplyKeeps(b, o, w, NOTHING_SAVED, {}, plan);
    var r := Router.Apply(o, w, NOTHING_SAVED, b.dev, plan);
    assert {} + Elements(r.saved.bypass) == Elements(r.saved.bypass);
  }

  /** Cleanup of a network whose default routes are as a successful Apply leaves them. */
  lemma CleanedDefaults(e: Env, b: Before, n: Network, touched: set<Prefix>)
    requires Fits(e, b) && KeptBy(b, n, touched) && CleanupNetwork(e, n).1 && Tracked(b, n)
    ensures Conserved(b, CleanupNetwork(e, n).0.world.net) <==>
              (Default(V6) in b.net.routes && n.saved.v6.None? ==>
                 Get(n.world.net.routes, Default(V6)) == Get(b.net.routes, Default(V6)))
  {
    assert HostRoutesOnly(n.saved.bypass);
    CleanupLeaves(e, n);
    CleanupNetworkKeeps(e, b, n, touched);
    FinalDefaults(b, n, CleanupNetwork(e, n).0.world.net);
  }

  /** Saved routes are those from before; what is not saved is as before or in the tunnel. */
  ghost predicate Tracked(b: Before, n: Network) {
    && n.saved.v4 == Get(b.net.routes, Default(V4))
    && (n.saved.v6.Some? ==> n.saved.v6 == Get(b.net.routes, Default(V6)))
    && forall fam | n.saved.Original(fam).None? ::
         Get(n.world.net.routes, Default(fam)) in {Get(b.net.routes, Default(fam)), Some(Hop([], b.dev))}
  }

  /** The default routes that a successful Cleanup leaves, in terms of what was saved. */
  lemma FinalDefaults(b: Before, n: Network, after: Net)
    requires b.Valid() && after.links == b.net.links
    requires forall fam :: Get(after.routes, Default(fam)) == CleanedAt(n, b.dev, Default(fam))
    requires HostRoutesOnly(n.saved.bypass) && Tracked(b, n)
    ensures Conserved(b, after) <==>
              (Default(V6) in b.net.routes && n.saved.v6.None? ==>
                 Get(n.world.net.routes, Default(V6)) == Get(b.net.routes, Default(V6)))
  {
    hide Net.Valid;
    NotThrough(b, Default(V4));
    NotThrough(b, Default(V6));
    assert Default(V4) !in n.saved.bypass && Default(V6) !in n.saved.bypass;
  }
  /** After one successful Apply, or two in a row, the default routes are tracked. */
  lemma FirstTracked(e: Env, b: Before, clock: nat, cfg: Config, st: State)
    requires Fits(e, b) && ApplyNetwork(e, Network(World(b.net, clock), NOTHING_SAVED), cfg, st).1
    ensures var n := ApplyNetwork(e, Network(World(b.net, clock), NOTHING_SAVED), cfg, st).0;
            && Tracked(b, n)
            && Get(n.world.net.routes, Default(V6)) ==
                 (if Tunnels(cfg.stack, V6) then Some(Hop([], e.dev)) else Get(b.net.routes, Default(V6)))
            && (Default(V6) in b.net.routes && Tunnels(cfg.stack, V6) ==>
                  (n.saved.v6.None? <==> Missed(e, b, clock, cfg, st)))
  {
    hide ApplyNetwork, Net.Valid, Probed;
    var start := Network(World(b.net, clock), NOTHING_SAVED);
    NetworkDefaults(e, start, cfg, st);
    NotThrough(b, Default(V4));
    NotThrough(b, Default(V6));
  }

  lemma SecondTracked(e: Env, b: Before, n: Network, cfg: Config, st: State)
    requires Fits(e, b) && n.world.net.Valid() && Tracked(b, n) && ApplyNetwork(e, n, cfg, st).1
    requires Get(n.world.net.routes, Default(V6)) ==
               (if Tunnels(cfg.stack, V6) then Some(Hop([], e.dev)) else Get(b.net.routes, Default(V6)))
    ensures var n' := ApplyNetwork(e, n, cfg, st).0;
            && Tracked(b, n')
            && Get(n'.world.net.routes, Default(V6)) == Get(n.world.net.routes, Default(V6))
            && (Tunnels(cfg.stack, V6) ==> n'.saved.v6 == n.saved.v6)
  {
    hide ApplyNetwork, Net.Valid, Probed;
    NetworkDefaults(e, n, cfg, st);
    NotThrough(b, Default(V4));
    NotThrough(b, Default(V6));
  }

  /** The same condition for the network manager as a whole. */
  lemma ApplyCleanupConservesIff(e: Env, b: Before, clock: nat, cfg: Config, st: State)
    requires Fits(e, b)
    ensures var (n, ok) := ApplyNetwork(e, Network(World(b.net, clock), NOTHING_SAVED), cfg, st);
            var (after, cleaned) := CleanupNetwork(e, n);
            ok && cleaned ==> (Conserved(b, after.world.net) <==> !Missed(e, b, clock, cfg, st))
  {
    var start := Network(World(b.net, clock), NOTHING_SAVED);
    var (n, ok) := ApplyNetwork(e, start, cfg, st);
    if ok && CleanupNetwork(e, n).1 {
      var b' := b.(forgetful := true);
      var touched := Elements(PlanFor(e, cfg, st).bypass);
      FirstKept(b', clock);
      ApplyNetworkKeeps(e, b', start, {}, cfg, st);
      FirstTracked(e, b', clock, cfg, st);
      NotThrough(b, Default(V6));
      hide Kept, ApplyNetwork, CleanupNetwork, PlanFor, Probed;
      CleanedDefaults(e, b', n, {} + touched);
    }
  }

  /** The routes after a retried attempt: the second endpoint's host route is gone, the first one's is left behind. */
  ghost function Leftover(b: Before, first: seq<Prefix>, second: seq<Prefix>, p: Prefix): Option<Hop> {
    if p in second then None
    else if p in first then Get(b.net.routes, Default(p.fam))
    else Get(b.net.routes, p)
  }

  ghost predicate LeftoverIsVoid(b: Before, first: seq<Prefix>, second: seq<Prefix>) {
    && (forall p | p in second :: p !in b.net.routes)
    && (forall p | p in first && p !in second :: Get(b.net.routes, p) == Get(b.net.routes, Default(p.fam)))
  }

  /**
   * Applying twice and cleaning up once, all successfully, restores links and default routes, if IPv6 was not missed
   * the first time; of the host routes, the saved list names only the second endpoint's. The host is as before if and
   * only if IPv6 was not missed, the second prefix had no route and the first one, when it differs, already went the
   * way of the default route.
   */
  lemma RetryLeaves(e: Env, b: Before, clock: nat, cfg: Config, st1: State, st2: State)
    requires Fits(e, b)
    ensures var (n1, ok1) := ApplyNetwork(e, Network(World(b.net, clock), NOTHING_SAVED), cfg, st1);
            var (n2, ok2) := ApplyNetwork(e, n1, cfg, st2);
            var (n3, ok3) := CleanupNetwork(e, n2);
            var first, second := PlanFor(e, cfg, st1).bypass, PlanFor(e, cfg, st2).bypass;
            ok1 && ok2 && ok3 ==>
              && (Conserved(b, n3.world.net) <==> !Missed(e, b, clock, cfg, st1))
              && (forall p: Prefix | p.bits != [] :: Get(n3.world.net.routes, p) == Leftover(b, first, second, p))
              && (n3.world.net == b.net <==> !Missed(e, b, clock, cfg, st1) && LeftoverIsVoid(b, first, second))
  {
    var (n1, ok1) := ApplyNetwork(e, Network(World(b.net, clock), NOTHING_SAVED), cfg, st1);
    var (n2, ok2) := ApplyNetwork(e, n1, cfg, st2);
    var (n3, ok3) := CleanupNetwork(e, n2);
    if ok1 && ok2 && ok3 {
      var first, second := PlanFor(e, cfg, st1).bypass, PlanFor(e, cfg, st2).bypass;
      var b' := b.(forgetful := true);
      RetryHostRoutes(e, b', clock, cfg, st1, st2);
      RetryDefaults(e, b', clock, cfg, st1, st2);
      assert Missed(e, b', clock, cfg, st1) == Missed(e, b, clock, cfg, st1);
      hide ApplyNetwork, CleanupNetwork, PlanFor, Missed;
      assert HostRoutesOnly(first + second);
      LeftoverIsVoidIff(b', n3.world.net, first, second);
    }
  }

  lemma RetryKept(e: Env, b: Before, clock: nat, cfg: Config, st1: State, st2: State)
    requires Fits(e, b) && b.forgetful
    ensures var n1 := ApplyNetwork(e, Network(World(b.net, clock), NOTHING_SAVED), cfg, st1).0;
            var n2 := ApplyNetwork(e, n1, cfg, st2).0;
            var touched := Elements(PlanFor(e, cfg, st1).bypass);
            && KeptBy(b, Network(World(b.net, clock), NOTHING_SAVED), {})
            && KeptBy(b, n1, touched)
            && KeptBy(b, n2, touched + Elements(PlanFor(e, cfg, st2).bypass))
            && n1.world.net.Valid() && n2.world.net.Valid() && HostRoutesOnly(n2.saved.bypass)
  {
    hide ApplyNetwork, PlanFor, DefaultKept;
    var start := Network(World(b.net, clock), NOTHING_SAVED);
    var touched := Elements(PlanFor(e, cfg, st1).bypass);
    FirstKept(b, clock);
    ApplyNetworkKeeps(e, b, start, {}, cfg, st1);
    assert {} + touched == touched;
    var n1 := ApplyNetwork(e, start, cfg, st1).0;
    ApplyNetworkKeeps(e, b, n1, touched, cfg, st2);
  }

  lemma RetryDefaults(e: Env, b: Before, clock: nat, cfg: Config, st1: State, st2: State)
    requires Fits(e, b) && b.forgetful
    requires var (n1, ok1) := ApplyNetwork(e, Network(World(b.net, clock), NOTHING_SAVED), cfg, st1);
             var (n2, ok2) := ApplyNetwork(e, n1, cfg, st2);
             ok1 && ok2 && CleanupNetwork(e, n2).1
    ensures var n1 := ApplyNetwork(e, Network(World(b.net, clock), NOTHING_SAVED), cfg, st1).0;
            var n2 := ApplyNetwork(e, n1, cfg, st2).0;
            Conserved(b, CleanupNetwork(e, n2).0.world.net) <==> !Missed(e, b, clock, cfg, st1)
  {
    var n1 := ApplyNetwork(e, Network(World(b.net, clock), NOTHING_SAVED), cfg, st1).0;
    var n2 := ApplyNetwork(e, n1, cfg, st2).0;
    RetryKept(e, b, clock, cfg, st1, st2);
    FirstTracked(e, b, clock, cfg, st1);
    SecondTracked(e, b, n1, cfg, st2);
    NotThrough(b, Default(V6));
    hide Kept, KeptBy, ApplyNetwork, CleanupNetwork, PlanFor, Probed;
    CleanedDefaults(e, b, n2, Elements(PlanFor(e, cfg, st1).bypass) + Elements(PlanFor(e, cfg, st2).bypass));
  }

  lemma RetryHostRoutes(e: Env, b: Before, clock: nat, cfg: Config, st1: State, st2: State)
    requires Fits(e, b) && b.forgetful
    requires var (n1, ok1) := ApplyNetwork(e, Network(World(b.net, clock), NOTHING_SAVED), cfg, st1);
             var (n2, ok2) := ApplyNetwork(e, n1, cfg, st2);
             ok1 && ok2 && CleanupNetwork(e, n2).1
    ensures var n1 := ApplyNetwork(e, Network(World(b.net, clock), NOTHING_SAVED), cfg, st1).0;
            var n2 := ApplyNetwork(e, n1, cfg, st2).0;
            var net := CleanupNetwork(e, n2).0.world.net;
            var first, second := PlanFor(e, cfg, st1).bypass, PlanFor(e, cfg, st2).bypass;
            && net.links == b.net.links
            && HostRoutesOnly(first) && HostRoutesOnly(second)
            && forall p: Prefix | p.bits != [] :: Get(net.routes, p) == Leftover(b, first, second, p)
  {
    var start := Network(World(b.net, clock), NOTHING_SAVED);
    var touched := Elements(PlanFor(e, cfg, st1).bypass);
    var n1 := ApplyNetwork(e, start, cfg, st1).0;
    var n2 := ApplyNetwork(e, n1, cfg, st2).0;
    RetryKept(e, b, clock, cfg, st1, st2);
    FirstKept(b, clock);
    PlansAreSensible(cfg.stack, Endpoint.SelectAddress(e.parser, st1, cfg.stack));
    PlansAreSensible(cfg.stack, Endpoint.SelectAddress(e.parser, st2, cfg.stack));
    hide Kept, KeptBy, ApplyNetwork, CleanupNetwork, PlanFor, Net.Valid, BuildPlan;
    ApplyNetworkSets(e, b, start, {}, cfg, st1);
    ApplyNetworkSets(e, b, n1, touched, cfg, st2);
    CleanupRemoves(e, n2);
    CleanupNetworkKeeps(e, b, n2, touched + Elements(PlanFor(e, cfg, st2).bypass));
  }

  lemma LeftoverIsVoidIff(b: Before, net: Net, first: seq<Prefix>, second: seq<Prefix>)
    requires net.links == b.net.links && HostRoutesOnly(first + second)
    requires forall p: Prefix | p.bits != [] :: Get(net.routes, p) == Leftover(b, first, second, p)
    ensures net == b.net <==> Conserved(b, net) && LeftoverIsVoid(b, first, second)
  {
    assert forall p | p in first || p in second :: p in first + second;
    if Conserved(b, net) && LeftoverIsVoid(b, first, second) {
      forall p
        ensures Get(net.routes, p) == Get(b.net.routes, p)
      {
        assert p.bits == [] ==> p == Default(p.fam);
      }
      SameRoutes(net.routes, b.net.routes);
    } else if net == b.net {
      assert forall p: Prefix | p.bits != [] :: Get(b.net.routes, p) == Leftover(b, first, second, p);
      assert false;
    }
  }

  /** An instance: nothing fails but the IPv6 lookup of a host with both default routes, and IPv6 is lost. */
  lemma FalseReportLosesDefault(b: Before, clock: nat)
    requires b.Valid() && Default(V4) in b.net.routes && Default(V6) in b.net.routes
    ensures var w := World(Net(b.net.routes, b.net.links + {b.dev}), clock);
            var o := n => if n == clock + 1 then NoIpv6 else Done;
            var r := Router.Apply(o, w, NOTHING_SAVED, b.dev, BuildPlan(Dual, None));
            var c := Router.Cleanup(o, r.world, r.saved);
            var (after, deleted) := DeleteLink(o, c.world, b.dev);
            r.ok && c.ok && deleted && !Conserved(b, after.net)
  {
    var w := World(Net(b.net.routes, b.net.links + {b.dev}), clock);
    var o: Outcomes := n => if n == clock + 1 then NoIpv6 else Done;
    var hop := b.net.routes[Default(V4)];
    var m, plan := Saved(Some(hop), None, []), BuildPlan(Dual, None);
    RoutesConservedIff(o, b, w, Dual, None);
    assert Discovery(o, w, NOTHING_SAVED) == Result(World(w.net, clock + 2), m, true);
    var w0 := World(w.net, clock + 2);
    assert Router.Apply(o, w, NOTHING_SAVED, b.dev, plan) == Install(o, w0, m, b.dev, plan);
    var w1 := ReplaceRoute(o, w0, Default(V4), Hop([], b.dev)).0;
    var w2 := ReplaceRoute(o, w1, Default(V6), Hop([], b.dev)).0;
    assert plan.tunnel[1..] == [Default(V6)] && plan.tunnel[1..][1..] == [];
    assert ApplyTunnel(o, w0, b.dev, plan.tunnel) == ApplyTunnel(o, w1, b.dev, [Default(V6)])
        == ApplyTunnel(o, w2, b.dev, []);
    assert Install(o, w0, m, b.dev, plan) == Result(w2, m, true);
    assert DeleteBypass(o, w2, m.bypass) == (w2, true);
    assert Router.Cleanup(o, w2, m) == Result(ReplaceRoute(o, w2, Default(V4), hop).0, m, true);
  }
}
