/** What exactly is left of Apply once it is undone: by its own compensation, or by Cleanup after any retry. */
module Undoing {
  import opened Bytes
  import opened Kernel
  import opened DeviceState
  import opened Router
  import opened LegacyNetwork
  import opened Conservation
  import opened Routing
  import Endpoint
  import WgDev

  /** Only default routes lead into the device. */
  ghost predicate OnlyDefaultsVia(r: Routes, dev: Text) {
    forall p | p in r && r[p].dev == dev :: p.bits == []
  }

  lemma {:induction false} BypassDeleted(o: Outcomes, w: World, bypass: seq<Prefix>)
    requires DeleteBypass(o, w, bypass).1
    ensures var w' := DeleteBypass(o, w, bypass).0;
            forall p :: Get(w'.net.routes, p) == if p in bypass then None else Get(w.net.routes, p)
    decreases |bypass|
  {
    if bypass != [] {
      BypassDeleted(o, DeleteRoute(o, w, bypass[0]).0, bypass[1..]);
      assert bypass == [bypass[0]] + bypass[1..];
    }
  }

  /** A route that goes with its device when the device is deleted. */
  function Flushed(route: Option<Hop>, dev: Text): Option<Hop> {
    if route.Some? && route.value.dev == dev then None else route
  }

  /** What a successful Cleanup leaves at each prefix. */
  ghost function CleanedAt(n: Network, dev: Text, p: Prefix): Option<Hop> {
    if p in n.saved.bypass then None
    else if p.bits == [] && n.saved.Original(p.fam).Some? then Flushed(n.saved.Original(p.fam), dev)
    else Flushed(Get(n.world.net.routes, p), dev)
  }

  ghost predicate HostRoutesOnly(bypass: seq<Prefix>) {
    forall p | p in bypass :: p.bits != []
  }

  /** The whole route table after a successful Cleanup. */
  lemma CleanupLeaves(e: Env, n: Network)
    requires n.world.net.Valid() && e.dev != [] && HostRoutesOnly(n.saved.bypass) && CleanupNetwork(e, n).1
    ensures var n' := CleanupNetwork(e, n).0;
            forall p :: Get(n'.world.net.routes, p) == CleanedAt(n, e.dev, p)
  {
    BypassDeleted(e.outcomes, n.world, n.saved.bypass);
    BypassDeletedKeepsNet(e.outcomes, n.world, n.saved.bypass);
    var w := DeleteBypass(e.outcomes, n.world, n.saved.bypass).0;
    var m := n.saved.(bypass := []);
    var w4 := Restore(e.outcomes, w, m, V4).0;
    var w6 := Restore(e.outcomes, w4, m, V6).0;
    var w' := DeleteLink(e.outcomes, w6, e.dev).0;
    assert CleanupNetwork(e, n) == (Network(w', m), true);
    RestoreSets(e.outcomes, w, m, V4);
    RestoreSets(e.outcomes, w4, m, V6);
    DeleteLinkFlushes(e.outcomes, w6, e.dev);
    hide DeleteBypass, Restore, DeleteLink, CleanupNetwork, Net.Valid;
    forall p
      ensures Get(w'.net.routes, p) == CleanedAt(n, e.dev, p)
    {
      assert p.bits == [] ==> p == Default(p.fam) && p !in n.saved.bypass;
      assert p.fam == V4 || p.fam == V6;
      assert Get(w'.net.routes, p) == Flushed(Get(w6.net.routes, p), e.dev);
    }
  }

  lemma {:induction false} BypassDeletedKeepsNet(o: Outcomes, w: World, bypass: seq<Prefix>)
    requires w.net.Valid()
    ensures var w' := DeleteBypass(o, w, bypass).0; w'.net.Valid() && w'.net.links == w.net.links
    decreases |bypass|
  {
    if bypass != [] {
      BypassDeletedKeepsNet(o, DeleteRoute(o, w, bypass[0]).0, bypass[1..]);
    }
  }

  lemma RestoreSets(o: Outcomes, w: World, m: Saved, fam: Family)
    requires w.net.Valid() && Restore(o, w, m, fam).1
    ensures var w' := Restore(o, w, m, fam).0;
            && w'.net.Valid()
            && forall p :: Get(w'.net.routes, p) ==
                 if p == Default(fam) && m.Original(fam).Some? then m.Original(fam) else Get(w.net.routes, p)
  {
  }

  lemma DeleteLinkFlushes(o: Outcomes, w: World, dev: Text)
    requires w.net.Valid() && dev != [] && DeleteLink(o, w, dev).1
    ensures forall p :: Get(DeleteLink(o, w, dev).0.net.routes, p) == Flushed(Get(w.net.routes, p), dev)
  {
  }

  /** A successful Cleanup removes exactly the saved host routes; all others stay. */
  lemma CleanupRemoves(e: Env, n: Network)
    requires n.world.net.Valid() && e.dev != [] && HostRoutesOnly(n.saved.bypass)
    requires OnlyDefaultsVia(n.world.net.routes, e.dev) && CleanupNetwork(e, n).1
    ensures var n' := CleanupNetwork(e, n).0;
            forall p: Prefix | p.bits != [] ::
              Get(n'.world.net.routes, p) == if p in n.saved.bypass then None else Get(n.world.net.routes, p)
  {
    CleanupLeaves(e, n);
  }

  // ---------- failure ----------

  lemma SameRoutes(r: Routes, r': Routes)
    requires forall p :: Get(r, p) == Get(r', p)
    ensures r == r'
  {
    forall p
      ensures p in r <==> p in r'
      ensures p in r ==> p in r' && r[p] == r'[p]
    {
      assert Get(r, p) == Get(r', p);
    }
  }

  lemma {:induction false} TunnelOnlyDefaults(o: Outcomes, w: World, dev: Text, tunnel: seq<Prefix>)
    requires OnlyDefaultsVia(w.net.routes, dev)
    ensures OnlyDefaultsVia(ApplyTunnel(o, w, dev, tunnel).0.net.routes, dev)
    decreases |tunnel|
  {
    if tunnel != [] {
      var (w', ok) := ReplaceRoute(o, w, Default(tunnel[0].fam), Hop([], dev));
      if ok {
        TunnelOnlyDefaults(o, w', dev, tunnel[1..]);
      }
    }
  }

  lemma BypassOnlyDefaults(b: Before, o: Outcomes, w: World, m: Saved, touched: set<Prefix>, bypass: seq<Prefix>)
    requires b.Valid() && Kept(b, w, m, touched) && |bypass| <= 1
    requires OnlyDefaultsVia(w.net.routes, b.dev)
    ensures OnlyDefaultsVia(ApplyBypass(o, w, m, bypass).0.net.routes, b.dev)
  {
    if bypass != [] && m.Original(bypass[0].fam).Some? {
      var hop := m.Original(bypass[0].fam).value;
      assert Get(b.net.routes, Default(bypass[0].fam)) == Some(hop);
      var (w', ok) := ReplaceRoute(o, w, bypass[0], hop);
      assert bypass[1..] == [];
      assert ok ==> ApplyBypass(o, w, m, bypass) == ApplyBypass(o, w', m, []) == (w', true);
    }
  }

  lemma ApplyOnlyDefaults(b: Before, o: Outcomes, w: World, m: Saved, touched: set<Prefix>, plan: Plan)
    requires b.Valid() && Kept(b, w, m, touched) && NoneVia(w.net.routes, b.dev) && Trusted(b, o, plan.tunnel)
    requires Sensible(plan) && OnlyDefaultsVia(w.net.routes, b.dev)
    ensures OnlyDefaultsVia(Apply(o, w, m, b.dev, plan).world.net.routes, b.dev)
  {
    DiscoveryKeeps(b, o, w, m, touched, plan.tunnel);
    var d := Discovery(o, w, m);
    if d.ok {
      BypassOnlyDefaults(b, o, d.world, d.saved, touched, plan.bypass);
      TunnelOnlyDefaults(o, ApplyBypass(o, d.world, d.saved, plan.bypass).0, b.dev, plan.tunnel);
    }
  }

  lemma FirstKept(b: Before, clock: nat)
    requires b.Valid()
    ensures Kept(b, World(b.net, clock), NOTHING_SAVED, {}) && OnlyDefaultsVia(b.net.routes, b.dev)
  {
  }

  /** A cleaned-up network differs from the one before in no more than the host routes that were taken away. */
  lemma UndoneNet(e: Env, b: Before, n: Network)
    requires Fits(e, b) && KeptBy(b, n, Elements(n.saved.bypass))
    requires b.forgetful && n.saved.v6.None? ==>
               Get(n.world.net.routes, Default(V6)) == Get(b.net.routes, Default(V6))
    requires OnlyDefaultsVia(n.world.net.routes, e.dev) && CleanupNetwork(e, n).1
    ensures CleanupNetwork(e, n).0.world.net == Net(b.net.routes - Elements(n.saved.bypass), b.net.links)
  {
    CleanupNetworkKeeps(e, b, n, Elements(n.saved.bypass));
    CleanupLeaves(e, n);
    var net := CleanupNetwork(e, n).0.world.net;
    forall p
      ensures Get(net.routes, p) == Get(b.net.routes - Elements(n.saved.bypass), p)
    {
      if p.bits == [] {
        assert p == Default(p.fam);
        assert p !in n.saved.bypass;
        NotThrough(b, p);
      } else if p !in n.saved.bypass {
        assert Get(n.world.net.routes, p) == Get(b.net.routes, p);
      }
    }
    SameRoutes(net.routes, b.net.routes - Elements(n.saved.bypass));
  }

  lemma NotThrough(b: Before, p: Prefix)
    requires b.Valid()
    ensures Flushed(Get(b.net.routes, p), b.dev) == Get(b.net.routes, p)
  {
  }

  /** A failing Apply has not taken the IPv6 default route: that is the last of its commands. */
  lemma FailureSparesIpv6(o: Outcomes, w: World, m: Saved, dev: Text, stack: Stack, endpoint: Option<Addr>)
    requires dev != [] && !Router.Apply(o, w, m, dev, BuildPlan(stack, endpoint)).ok
    ensures Get(Router.Apply(o, w, m, dev, BuildPlan(stack, endpoint)).world.net.routes, Default(V6))
            == Get(w.net.routes, Default(V6))
  {
    var plan := BuildPlan(stack, endpoint);
    var d := Discovery(o, w, m);
    assert d.world.net == w.net;
    if d.ok {
      BypassSparesDefaults(o, d.world, d.saved, plan.bypass);
      var (w', ok) := ApplyBypass(o, d.world, d.saved, plan.bypass);
      if ok {
        TunnelSparesIpv6(o, w', dev, stack);
      }
    }
  }

  lemma BypassSparesDefaults(o: Outcomes, w: World, m: Saved, bypass: seq<Prefix>)
    requires |bypass| <= 1 && HostRoutesOnly(bypass)
    ensures var w' := ApplyBypass(o, w, m, bypass).0;
            forall fam :: Get(w'.net.routes, Default(fam)) == Get(w.net.routes, Default(fam))
  {
    if bypass != [] && m.Original(bypass[0].fam).Some? {
      var (w', ok) := ReplaceRoute(o, w, bypass[0], m.Original(bypass[0].fam).value);
      assert bypass[1..] == [];
      assert ok ==> ApplyBypass(o, w, m, bypass) == ApplyBypass(o, w', m, []) == (w', true);
    }
  }

  lemma TunnelSparesIpv6(o: Outcomes, w: World, dev: Text, stack: Stack)
    requires !ApplyTunnel(o, w, dev, TunnelRoutes(stack)).1
    ensures Get(ApplyTunnel(o, w, dev, TunnelRoutes(stack)).0.net.routes, Default(V6)) == Get(w.net.routes, Default(V6))
  {
    var tunnel := TunnelRoutes(stack);
    assert stack != Dual ==> tunnel[1..] == [];
    assert stack == Dual ==> tunnel[1..] == [Default(V6)] && tunnel[1..][1..] == [];
    var (w1, ok) := ReplaceRoute(o, w, Default(tunnel[0].fam), Hop([], dev));
    if ok {
      assert ApplyTunnel(o, w, dev, tunnel) == ApplyTunnel(o, w1, dev, tunnel[1..]);
      assert ApplyTunnel(o, w1, dev, []) == (w1, true);
      var w2 := ReplaceRoute(o, w1, Default(V6), Hop([], dev)).0;
      assert ApplyTunnel(o, w2, dev, []) == (w2, true);
    }
  }

  /**
   * Failure is atomic: when the routes of the first Apply fail at any command and what is run to compensate succeeds,
   * the host is as before, up to the host route that was installed; so it is exactly as before if and only if that
   * prefix had no route of its own. A wrong report about IPv6 does not matter here.
   */
  lemma FailureIsUndone(e: Env, b: Before, clock: nat, cfg: Config, st: State)
    requires Fits(e, b)
    ensures var start := Network(World(b.net, clock), NOTHING_SAVED);
            var (w1, ok) := WgDev.ApplyDevice(e.outcomes, start.world, DesiredFor(e, cfg, st));
            var r := Router.Apply(e.outcomes, w1, NOTHING_SAVED, e.dev, PlanFor(e, cfg, st));
            var (n, undone) := CleanupNetwork(e, Network(r.world, r.saved));
            ok && !r.ok && undone ==>
              && ApplyNetwork(e, start, cfg, st) == (n, false)
              && n.world.net == Net(b.net.routes - Elements(r.saved.bypass), b.net.links)
              && (n.world.net == b.net <==> forall p | p in r.saved.bypass :: p !in b.net.routes)
  {
    var w, d, plan := World(b.net, clock), DesiredFor(e, cfg, st), PlanFor(e, cfg, st);
    var (w1, ok) := WgDev.ApplyDevice(e.outcomes, w, d);
    var r := Router.Apply(e.outcomes, w1, NOTHING_SAVED, e.dev, plan);
    var n := Network(r.world, r.saved);
    if ok && !r.ok && CleanupNetwork(e, n).1 {
      var b' := b.(forgetful := true);
      FailedNet(e, b', clock, cfg, st);
      hide Kept, Router.Apply, CleanupNetwork, WgDev.ApplyDevice, PlanFor, DesiredFor;
      UndoneNet(e, b', n);
      RemovalIsVoidIff(b.net.routes, r.saved.bypass);
    }
  }

  /** What a failing first Apply of the routes leaves to be compensated. */
  lemma FailedNet(e: Env, b: Before, clock: nat, cfg: Config, st: State)
    requires Fits(e, b) && b.forgetful
    requires WgDev.ApplyDevice(e.outcomes, World(b.net, clock), DesiredFor(e, cfg, st)).1
    ensures var w1 := WgDev.ApplyDevice(e.outcomes, World(b.net, clock), DesiredFor(e, cfg, st)).0;
            var r := Router.Apply(e.outcomes, w1, NOTHING_SAVED, e.dev, PlanFor(e, cfg, st));
            && Kept(b, r.world, r.saved, Elements(r.saved.bypass))
            && OnlyDefaultsVia(r.world.net.routes, e.dev)
            && (!r.ok ==> Get(r.world.net.routes, Default(V6)) == Get(b.net.routes, Default(V6)))
  {
    var w, d, plan := World(b.net, clock), DesiredFor(e, cfg, st), PlanFor(e, cfg, st);
    var endpoint := Endpoint.SelectAddress(e.parser, st, cfg.stack);
    FirstKept(b, clock);
    ApplyDeviceKeeps(b, e.outcomes, w, NOTHING_SAVED, {}, d);
    FreshDevice(e.outcomes, b, w, d);
    var w1 := WgDev.ApplyDevice(e.outcomes, w, d).0;
    PlansAreSensible(cfg.stack, endpoint);
    assert Trusted(b, e.outcomes, plan.tunnel);
    hide Kept, WgDev.ApplyDevice, DesiredFor, Router.Apply, Sensible, BuildPlan, Endpoint.SelectAddress, Trusted;
    ApplyKeeps(b, e.outcomes, w1, NOTHING_SAVED, {}, plan);
    ApplyOnlyDefaults(b, e.outcomes, w1, NOTHING_SAVED, {}, plan);
    var r := Router.Apply(e.outcomes, w1, NOTHING_SAVED, e.dev, plan);
    assert {} + Elements(r.saved.bypass) == Elements(r.saved.bypass);
    if !r.ok {
      FailureSparesIpv6(e.outcomes, w1, NOTHING_SAVED, e.dev, cfg.stack, endpoint);
    }
  }

  lemma RemovalIsVoidIff(r: Routes, bypass: seq<Prefix>)
    ensures r - Elements(bypass) == r <==> forall p | p in bypass :: p !in r
  {
    if p :| p in bypass && p in r {
      assert p in Elements(bypass);
      assert p !in r - Elements(bypass);
    } else {
      SameRoutes(r - Elements(bypass), r);
    }
  }

  // ---------- success ----------

  /** A successful Apply points the endpoint's host route at the original default hop and moves no other host route. */
  lemma ApplyNetworkSets(e: Env, b: Before, n: Network, touched: set<Prefix>, cfg: Config, st: State)
    requires For(e, b, cfg.stack) && KeptBy(b, n, touched) && OnlyDefaultsVia(n.world.net.routes, e.dev)
    requires ApplyNetwork(e, n, cfg, st).1
    ensures var n' := ApplyNetwork(e, n, cfg, st).0;
            var bypass := PlanFor(e, cfg, st).bypass;
            && n'.saved.bypass == bypass
            && OnlyDefaultsVia(n'.world.net.routes, e.dev)
            && (forall p | p in bypass :: Default(p.fam) in b.net.routes)
            && forall p: Prefix | p.bits != [] ::
                 Get(n'.world.net.routes, p) ==
                 if p in bypass then Get(b.net.routes, Default(p.fam)) else Get(n.world.net.routes, p)
  {
    var d := DesiredFor(e, cfg, st);
    var plan := PlanFor(e, cfg, st);
    var endpoint := Endpoint.SelectAddress(e.parser, st, cfg.stack);
    DeviceLeavesHostRoutes(b, e.outcomes, n.world, d);
    ApplyDeviceKeeps(b, e.outcomes, n.world, n.saved, touched, d);
    var w1 := WgDev.ApplyDevice(e.outcomes, n.world, d).0;
    PlansAreSensible(cfg.stack, endpoint);
    PlansAreTrusted(e, b, cfg.stack, endpoint);
    hide Kept, WgDev.ApplyDevice, Sensible, Trusted, DesiredFor, Endpoint.SelectAddress, OnlyDefaultsVia;
    ApplyOnlyDefaults(b, e.outcomes, w1, n.saved, touched, plan);
    RoutesSet(b, e.outcomes, w1, n.saved, touched, cfg.stack, endpoint);
  }

  lemma KeptRemembers(b: Before, w: World, m: Saved, touched: set<Prefix>)
    requires Kept(b, w, m, touched)
    ensures forall fam | m.Original(fam).Some? :: m.Original(fam) == Get(b.net.routes, Default(fam))
  {
  }

  lemma RoutesSet(
    b: Before, o: Outcomes, w: World, m: Saved, touched: set<Prefix>, stack: Stack, endpoint: Option<Addr>)
    requires b.Valid() && Kept(b, w, m, touched) && NoneVia(w.net.routes, b.dev)
    requires Trusted(b, o, BuildPlan(stack, endpoint).tunnel)
    requires Router.Apply(o, w, m, b.dev, BuildPlan(stack, endpoint)).ok
    ensures var r := Router.Apply(o, w, m, b.dev, BuildPlan(stack, endpoint));
            var bypass := BuildPlan(stack, endpoint).bypass;
            && r.saved.bypass == bypass
            && (forall p | p in bypass :: Default(p.fam) in b.net.routes)
            && forall p: Prefix | p.bits != [] ::
                 Get(r.world.net.routes, p) ==
                 if p in bypass then Get(b.net.routes, Default(p.fam)) else Get(w.net.routes, p)
  {
    hide Kept, Trusted, Discover;
    var plan := BuildPlan(stack, endpoint);
    DiscoveryKeeps(b, o, w, m, touched, plan.tunnel);
    var found := Discovery(o, w, m);
    KeptRemembers(b, found.world, found.saved, touched);
    InstallInstalls(o, found.world, found.saved, b.dev, stack, endpoint);
  }

  lemma DeviceLeavesHostRoutes(b: Before, o: Outcomes, w: World, d: WgDev.Desired)
    requires d.name == b.dev && OnlyDefaultsVia(w.net.routes, b.dev)
    ensures var w' := WgDev.ApplyDevice(o, w, d).0;
            && OnlyDefaultsVia(w'.net.routes, b.dev)
            && forall p: Prefix | p.bits != [] :: Get(w'.net.routes, p) == Get(w.net.routes, p)
  {
    var w1 := DeleteLink(o, w, d.name).0;
    var w2 := AddLink(o, w1, d.name).0;
    WgDev.SetupKeepsNet(o, w2, |WgDev.InterfaceAddresses(d)| + 3);
  }

  // ---------- a host that carries out every command ----------

  ghost predicate Obeys(o: Outcomes) {
    forall n :: o(n) == Done
  }

  lemma {:induction false} SetupSucceeds(o: Outcomes, w: World, n: nat)
    requires Obeys(o)
    ensures WgDev.SetupTimes(o, w, n).1
    decreases n
  {
    if 0 < n {
      SetupSucceeds(o, Tick(w), n - 1);
    }
  }

  lemma {:induction false} TunnelSucceeds(o: Outcomes, w: World, dev: Text, tunnel: seq<Prefix>)
    requires Obeys(o) && dev in w.net.links
    ensures ApplyTunnel(o, w, dev, tunnel).1
    decreases |tunnel|
  {
    if tunnel != [] {
      TunnelSucceeds(o, ReplaceRoute(o, w, Default(tunnel[0].fam), Hop([], dev)).0, dev, tunnel[1..]);
    }
  }

  lemma {:induction false} DeletesSucceed(o: Outcomes, w: World, bypass: seq<Prefix>)
    requires Obeys(o)
    ensures DeleteBypass(o, w, bypass).1 && DeleteBypass(o, w, bypass).0.net.links == w.net.links
    decreases |bypass|
  {
    if bypass != [] {
      DeletesSucceed(o, DeleteRoute(o, w, bypass[0]).0, bypass[1..]);
    }
  }

  /** Such a host can always be cleaned up, from every state that any run can leave. */
  lemma CleanupSucceeds(e: Env, b: Before, n: Network, touched: set<Prefix>)
    requires Fits(e, b) && KeptBy(b, n, touched) && Obeys(e.outcomes)
    ensures CleanupNetwork(e, n).1
  {
    DeletesSucceed(e.outcomes, n.world, n.saved.bypass);
    var w := DeleteBypass(e.outcomes, n.world, n.saved.bypass).0;
    var m := n.saved.(bypass := []);
    forall fam | m.Original(fam).Some?
      ensures m.Original(fam).value.dev == [] || m.Original(fam).value.dev in w.net.links
    {
      assert m.Original(fam) == n.saved.Original(fam) == Get(b.net.routes, Default(fam));
    }
    hide Kept;
    assert m.Original(V4) == n.saved.v4 && m.Original(V6) == n.saved.v6;
    var w4 := Restore(e.outcomes, w, m, V4).0;
    assert Restore(e.outcomes, w, m, V4).1 && w4.net.links == w.net.links;
    assert Restore(e.outcomes, w4, m, V6).1;
  }

  lemma RoutesSucceedIff(e: Env, b: Before, w: World, stack: Stack, endpoint: Option<Addr>)
    requires b.Valid() && Obeys(e.outcomes) && w.net == Net(b.net.routes, b.net.links + {b.dev})
    ensures Router.Apply(e.outcomes, w, NOTHING_SAVED, b.dev, BuildPlan(stack, endpoint)).ok
            <==> (endpoint.Some? ==> Default(Unmap(endpoint.value).fam) in b.net.routes)
  {
    var o, plan := e.outcomes, BuildPlan(stack, endpoint);
    var m := Saved(Get(b.net.routes, Default(V4)), Get(b.net.routes, Default(V6)), []);
    var w0 := World(w.net, w.clock + 2);
    assert Discovery(o, w, NOTHING_SAVED) == Result(w0, m, true);
    assert Router.Apply(o, w, NOTHING_SAVED, b.dev, plan) == Install(o, w0, m, b.dev, plan);
    if endpoint.Some? {
      var p: Prefix := Unmap(endpoint.value);
      assert plan.bypass == [p] && plan.bypass[1..] == [];
      assert m.Original(p.fam) == Get(b.net.routes, Default(p.fam));
      if m.Original(p.fam).Some? {
        var w1 := ReplaceRoute(o, w0, p, m.Original(p.fam).value).0;
        assert ApplyBypass(o, w0, m, plan.bypass) == ApplyBypass(o, w1, m, []) == (w1, true);
        TunnelSucceeds(o, w1, b.dev, plan.tunnel);
      }
    } else {
      TunnelSucceeds(o, w0, b.dev, plan.tunnel);
    }
  }

  /** On a host that carries out every command, the first Apply fails only on what can be told beforehand. */
  lemma ApplySucceedsIff(e: Env, b: Before, clock: nat, cfg: Config, st: State)
    requires Fits(e, b) && Obeys(e.outcomes)
    ensures var endpoint := Endpoint.SelectAddress(e.parser, st, cfg.stack);
            ApplyNetwork(e, Network(World(b.net, clock), NOTHING_SAVED), cfg, st).1
            <==> WgDev.IsValid(DesiredFor(e, cfg, st))
                 && (endpoint.Some? ==> Default(Unmap(endpoint.value).fam) in b.net.routes)
  {
    var w, d := World(b.net, clock), DesiredFor(e, cfg, st);
    var endpoint := Endpoint.SelectAddress(e.parser, st, cfg.stack);
    DeviceSucceedsIff(e, b, w, d);
    var (w1, up) := WgDev.ApplyDevice(e.outcomes, w, d);
    if up {
      FreshDevice(e.outcomes, b, w, d);
      RoutesSucceedIff(e, b, w1, cfg.stack, endpoint);
    }
    hide WgDev.ApplyDevice, WgDev.IsValid, DesiredFor, Router.Apply, CleanupNetwork, Endpoint.SelectAddress, Unmap;
  }

  /**
   * On such a host, Cleanup takes a successful Apply back, down to the whole route table, up to the endpoint's host
   * route; and Apply succeeds if and only if the device can be configured and the endpoint's family has a default
   * route.
   */
  lemma ApplyThenCleanup(e: Env, b: Before, clock: nat, cfg: Config, st: State)
    requires Fits(e, b) && Obeys(e.outcomes)
    ensures var (n, ok) := ApplyNetwork(e, Network(World(b.net, clock), NOTHING_SAVED), cfg, st);
            var (after, cleaned) := CleanupNetwork(e, n);
            var endpoint := Endpoint.SelectAddress(e.parser, st, cfg.stack);
            && (ok <==> WgDev.IsValid(DesiredFor(e, cfg, st))
                        && (endpoint.Some? ==> Default(Unmap(endpoint.value).fam) in b.net.routes))
            && (ok ==> cleaned && after.world.net ==
                         Net(b.net.routes - (if endpoint.Some? then {Unmap(endpoint.value)} else {}), b.net.links))
  {
    ApplySucceedsIff(e, b, clock, cfg, st);
    if ApplyNetwork(e, Network(World(b.net, clock), NOTHING_SAVED), cfg, st).1 {
      AppliedIsTakenBack(e, b.(forgetful := false), clock, cfg, st);
    }
  }

  lemma AppliedIsTakenBack(e: Env, b: Before, clock: nat, cfg: Config, st: State)
    requires Fits(e, b) && !b.forgetful && Obeys(e.outcomes)
    requires ApplyNetwork(e, Network(World(b.net, clock), NOTHING_SAVED), cfg, st).1
    ensures var n := ApplyNetwork(e, Network(World(b.net, clock), NOTHING_SAVED), cfg, st).0;
            var (after, cleaned) := CleanupNetwork(e, n);
            var endpoint := Endpoint.SelectAddress(e.parser, st, cfg.stack);
            cleaned && after.world.net ==
              Net(b.net.routes - (if endpoint.Some? then {Unmap(endpoint.value)} else {}), b.net.links)
  {
    var start := Network(World(b.net, clock), NOTHING_SAVED);
    var endpoint := Endpoint.SelectAddress(e.parser, st, cfg.stack);
    var n := ApplyNetwork(e, start, cfg, st).0;
    var bypass := PlanFor(e, cfg, st).bypass;
    FirstKept(b, clock);
    assert {} + Elements(bypass) == Elements(bypass) == if endpoint.Some? then {Unmap(endpoint.value)} else {};
    hide Kept, ApplyNetwork, CleanupNetwork, DesiredFor, PlanFor, Endpoint.SelectAddress, Unmap;
    ApplyNetworkKeeps(e, b, start, {}, cfg, st);
    ApplyNetworkSets(e, b, start, {}, cfg, st);
    CleanupSucceeds(e, b, n, Elements(bypass));
    UndoneNet(e, b, n);
  }

  lemma DeviceSucceedsIff(e: Env, b: Before, w: World, d: WgDev.Desired)
    requires b.Valid() && Obeys(e.outcomes) && w.net == b.net && d.name == b.dev
    ensures WgDev.ApplyDevice(e.outcomes, w, d).1 <==> WgDev.IsValid(d)
  {
    if WgDev.IsValid(d) {
      var w1 := DeleteLink(e.outcomes, w, d.name).0;
      var w2 := AddLink(e.outcomes, w1, d.name).0;
      SetupSucceeds(e.outcomes, w2, |WgDev.InterfaceAddresses(d)| + 3);
    }
  }
}
