/** What the network manager changed, it puts back: from every point at which a command can fail. */
module Conservation {
  import opened Bytes
  import opened Kernel
  import opened DeviceState
  import opened Router
  import opened LegacyNetwork
  import Endpoint
  import WgDev

  /**
   * The host before the first Apply, and the name of a device that did not exist then. A host is forgetful when it is
   * not ruled out that an IPv6 default route gets lost.
   */
  datatype Before = Before(net: Net, dev: Text, forgetful: bool) {
    ghost predicate Valid() {
      net.Valid() && dev != [] && dev !in net.links
    }
  }

  /** IPv6 is reported missing only on a host without an IPv6 default route. */
  ghost predicate HonestIpv6(o: Outcomes, b: Before) {
    Default(V6) in b.net.routes ==> forall n :: o(n) != NoIpv6
  }

  /** The saved default route is the one from before, or was missed. */
  ghost predicate Remembered(b: Before, m: Saved, fam: Family) {
    m.Original(fam) == Get(b.net.routes, Default(fam)) || (b.forgetful && fam == V6 && m.v6.None?)
  }

  /**
   * The default route of a family is the one from before; or that one is saved and the current one is missing or
   * leads into the tunnel.
   */
  ghost predicate DefaultKept(b: Before, r: Routes, m: Saved, fam: Family) {
    var now := Get(r, Default(fam));
    || now == Get(b.net.routes, Default(fam))
    || (Remembered(b, m, fam) && (now == None || now == Some(Hop([], b.dev))))
  }

  /** What holds at every point, for the host routes touched so far. */
  ghost predicate Kept(b: Before, w: World, m: Saved, touched: set<Prefix>) {
    && w.net.Valid()
    && (w.net.links == b.net.links || w.net.links == b.net.links + {b.dev})
    && (forall fam :: DefaultKept(b, w.net.routes, m, fam))
    && (forall fam :: m.Original(fam).Some? ==> m.Original(fam) == Get(b.net.routes, Default(fam)))
    && (forall p: Prefix | p.bits != [] && p !in touched :: Get(w.net.routes, p) == Get(b.net.routes, p))
    && (forall p | p in m.bypass :: p.bits != [] && p in touched)
  }

  ghost predicate NoneVia(r: Routes, dev: Text) {
    forall p | p in r :: r[p].dev != dev
  }

  /** The default routes that the tunnel is going to take are saved. */
  ghost predicate Discovered(b: Before, m: Saved, tunnel: seq<Prefix>) {
    forall t | t in tunnel :: Remembered(b, m, t.fam)
  }

  /** A plan whose tunnel takes the IPv6 default route needs honest reports. */
  ghost predicate Trusted(b: Before, o: Outcomes, tunnel: seq<Prefix>) {
    b.forgetful || HonestIpv6(o, b) || forall t | t in tunnel :: t.fam == V4
  }

  // ---------- single commands ----------

  lemma TickKeeps(b: Before, w: World, m: Saved, touched: set<Prefix>)
    requires Kept(b, w, m, touched)
    ensures Kept(b, Tick(w), m, touched)
  {
  }

  lemma DeleteLinkKeeps(b: Before, o: Outcomes, w: World, m: Saved, touched: set<Prefix>)
    requires b.Valid() && Kept(b, w, m, touched)
    ensures var (w', ok) := DeleteLink(o, w, b.dev);
            && Kept(b, w', m, touched)
            && (ok ==> w'.net.links == b.net.links && NoneVia(w'.net.routes, b.dev))
  {
    var (w', ok) := DeleteLink(o, w, b.dev);
    forall p: Prefix | p.bits != [] && p !in touched
      ensures Get(w'.net.routes, p) == Get(b.net.routes, p)
    {
      assert Get(w.net.routes, p) == Get(b.net.routes, p);
    }
    forall fam
      ensures DefaultKept(b, w'.net.routes, m, fam)
    {
      assert DefaultKept(b, w.net.routes, m, fam);
    }
  }

  lemma AddLinkKeeps(b: Before, o: Outcomes, w: World, m: Saved, touched: set<Prefix>)
    requires b.Valid() && Kept(b, w, m, touched)
    ensures var (w', ok) := AddLink(o, w, b.dev);
            && Kept(b, w', m, touched)
            && w'.net.routes == w.net.routes
            && (ok ==> b.dev in w'.net.links)
  {
  }

  /** Replacing a route that is not a default route, by a hop of the host as it was. */
  lemma HostRouteKeeps(b: Before, o: Outcomes, w: World, m: Saved, touched: set<Prefix>, p: Prefix, hop: Hop)
    requires b.Valid() && Kept(b, w, m, touched) && p.bits != []
    requires hop.dev == [] || hop.dev in b.net.links
    ensures var (w', ok) := ReplaceRoute(o, w, p, hop);
            && Kept(b, w', m, touched + {p})
            && w'.net.links == w.net.links
            && (!ok ==> w'.net == w.net)
  {
    var (w', ok) := ReplaceRoute(o, w, p, hop);
    forall fam
      ensures DefaultKept(b, w'.net.routes, m, fam)
    {
      assert DefaultKept(b, w.net.routes, m, fam);
    }
    forall q: Prefix | q.bits != [] && q !in touched + {p}
      ensures Get(w'.net.routes, q) == Get(b.net.routes, q)
    {
      assert Get(w.net.routes, q) == Get(b.net.routes, q);
    }
  }

  lemma TunnelRouteKeeps(b: Before, o: Outcomes, w: World, m: Saved, touched: set<Prefix>, fam: Family)
    requires b.Valid() && Kept(b, w, m, touched) && Remembered(b, m, fam) && b.dev in w.net.links
    ensures var (w', ok) := ReplaceRoute(o, w, Default(fam), Hop([], b.dev));
            && Kept(b, w', m, touched)
            && w'.net.links == w.net.links
  {
    var (w', ok) := ReplaceRoute(o, w, Default(fam), Hop([], b.dev));
    forall f
      ensures DefaultKept(b, w'.net.routes, m, f)
    {
      assert DefaultKept(b, w.net.routes, m, f);
    }
    forall q: Prefix | q.bits != [] && q !in touched
      ensures Get(w'.net.routes, q) == Get(b.net.routes, q)
    {
      assert Get(w.net.routes, q) == Get(b.net.routes, q);
    }
  }

  lemma RestoreKeeps(b: Before, o: Outcomes, w: World, m: Saved, touched: set<Prefix>, fam: Family)
    requires b.Valid() && Kept(b, w, m, touched)
    ensures var (w', ok) := Restore(o, w, m, fam);
            && Kept(b, w', m, touched)
            && w'.net.links == w.net.links
            && (ok && m.Original(fam).Some? ==> Get(w'.net.routes, Default(fam)) == Get(b.net.routes, Default(fam)))
            && forall f | f != fam :: Get(w'.net.routes, Default(f)) == Get(w.net.routes, Default(f))
  {
    var (w', ok) := Restore(o, w, m, fam);
    forall f
      ensures DefaultKept(b, w'.net.routes, m, f)
    {
      assert DefaultKept(b, w.net.routes, m, f);
    }
    forall q: Prefix | q.bits != [] && q !in touched
      ensures Get(w'.net.routes, q) == Get(b.net.routes, q)
    {
      assert Get(w.net.routes, q) == Get(b.net.routes, q);
    }
  }

  lemma DeleteRouteKeeps(b: Before, o: Outcomes, w: World, m: Saved, touched: set<Prefix>, p: Prefix)
    requires b.Valid() && Kept(b, w, m, touched) && p in touched && p.bits != []
    ensures var (w', ok) := DeleteRoute(o, w, p);
            && Kept(b, w', m, touched)
            && w'.net.links == w.net.links
  {
    var (w', ok) := DeleteRoute(o, w, p);
    forall f
      ensures DefaultKept(b, w'.net.routes, m, f)
    {
      assert DefaultKept(b, w.net.routes, m, f);
    }
    forall q: Prefix | q.bits != [] && q !in touched
      ensures Get(w'.net.routes, q) == Get(b.net.routes, q)
    {
      assert Get(w.net.routes, q) == Get(b.net.routes, q);
    }
  }

  lemma DiscoverKeeps(b: Before, o: Outcomes, w: World, m: Saved, touched: set<Prefix>, fam: Family)
    requires b.Valid() && Kept(b, w, m, touched) && NoneVia(w.net.routes, b.dev)
    ensures var r := Discover(o, w, m, fam);
            && Kept(b, r.world, r.saved, touched)
            && r.world.net == w.net
            && r.saved.bypass == m.bypass
            && (r.ok ==> Remembered(b, r.saved, fam) || (fam == V6 && r.saved.v6.None? && !HonestIpv6(o, b)))
            && forall f | f != fam :: r.saved.Original(f) == m.Original(f)
  {
    var r := Discover(o, w, m, fam);
    assert DefaultKept(b, w.net.routes, m, fam);
    var now := Get(w.net.routes, Default(fam));
    if now != Get(b.net.routes, Default(fam)) {
      assert now == None;
    }
    forall f
      ensures DefaultKept(b, w.net.routes, r.saved, f)
    {
      assert DefaultKept(b, w.net.routes, m, f);
    }
  }

  // ---------- the route manager ----------

  /** A plan as BuildPlan makes it: default routes for the tunnel, at most one host route around it. */
  ghost predicate Sensible(plan: Plan) {
    && |plan.bypass| <= 1
    && (forall p | p in plan.bypass :: p.bits != [])
    && (forall p | p in plan.tunnel :: p.bits == [])
  }

  lemma PlansAreSensible(stack: Stack, endpoint: Option<Addr>)
    ensures Sensible(BuildPlan(stack, endpoint))
  {
  }

  ghost function Elements(s: seq<Prefix>): set<Prefix> {
    set p | p in s
  }

  lemma BypassKeeps(b: Before, o: Outcomes, w: World, m: Saved, touched: set<Prefix>, bypass: seq<Prefix>)
    requires b.Valid() && Kept(b, w, m, touched)
    requires |bypass| <= 1 && forall p | p in bypass :: p.bits != []
    ensures var (w', ok) := ApplyBypass(o, w, m, bypass);
            && Kept(b, w', m, touched + if ok then Elements(bypass) else {})
            && w'.net.links == w.net.links
            && (!ok ==> w'.net == w.net)
  {
    if bypass == [] {
      assert Elements(bypass) == {};
      assert touched + {} == touched;
    } else {
      var p := bypass[0];
      assert bypass[1..] == [] && Elements(bypass) == {p};
      if m.Original(p.fam).Some? {
        var hop := m.Original(p.fam).value;
        assert Get(b.net.routes, Default(p.fam)) == Some(hop);
        HostRouteKeeps(b, o, w, m, touched, p, hop);
        TickKeeps(b, w, m, touched);
      }
      assert touched + {} == touched;
    }
  }

  lemma {:induction false} TunnelKeeps(
    b: Before, o: Outcomes, w: World, m: Saved, touched: set<Prefix>, tunnel: seq<Prefix>)
    requires b.Valid() && Kept(b, w, m, touched) && Discovered(b, m, tunnel) && b.dev in w.net.links
    ensures var (w', ok) := ApplyTunnel(o, w, b.dev, tunnel);
            && Kept(b, w', m, touched)
            && w'.net.links == w.net.links
    decreases |tunnel|
  {
    if tunnel != [] {
      hide Kept;
      TunnelRouteKeeps(b, o, w, m, touched, tunnel[0].fam);
      var (w', ok) := ReplaceRoute(o, w, Default(tunnel[0].fam), Hop([], b.dev));
      if ok {
        TunnelKeeps(b, o, w', m, touched, tunnel[1..]);
      }
    }
  }

  /** The host routes that a run of Apply has put in place, whether or not it succeeded. */
  ghost function Installed(before: Saved, r: Result): set<Prefix> {
    if r.saved.bypass == before.bypass then {} else Elements(r.saved.bypass)
  }

  lemma SaveBypass(b: Before, w: World, m: Saved, touched: set<Prefix>, bypass: seq<Prefix>)
    requires Kept(b, w, m, touched) && Elements(bypass) <= touched && forall p | p in bypass :: p.bits != []
    ensures Kept(b, w, m.(bypass := bypass), touched)
  {
    forall fam
      ensures DefaultKept(b, w.net.routes, m.(bypass := bypass), fam)
    {
      assert DefaultKept(b, w.net.routes, m, fam);
    }
    forall p | p in bypass
      ensures p in touched
    {
      assert p in Elements(bypass);
    }
    assert forall fam :: m.(bypass := bypass).Original(fam) == m.Original(fam);
  }

  /** Apply keeps the invariant from every point of failure; the bypass list is saved exactly when it was installed. */
  lemma InstallKeeps(b: Before, o: Outcomes, w: World, m: Saved, touched: set<Prefix>, plan: Plan)
    requires b.Valid() && Kept(b, w, m, touched) && b.dev in w.net.links && Sensible(plan)
    requires Discovered(b, m, plan.tunnel)
    ensures var r := Install(o, w, m, b.dev, plan);
            var installed := ApplyBypass(o, w, m, plan.bypass).1;
            && Kept(b, r.world, r.saved, touched + if installed then Elements(plan.bypass) else {})
            && r.saved == (if installed then m.(bypass := plan.bypass) else m)
            && r.world.net.links == w.net.links
            && (r.ok ==> installed)
  {
    BypassKeeps(b, o, w, m, touched, plan.bypass);
    var (w', installed) := ApplyBypass(o, w, m, plan.bypass);
    if installed {
      var more := touched + Elements(plan.bypass);
      hide Kept, ApplyBypass;
      TunnelKeeps(b, o, w', m, more, plan.tunnel);
      SaveBypass(b, ApplyTunnel(o, w', b.dev, plan.tunnel).0, m, more, plan.bypass);
    }
  }

  /** The world and the saved routes once both families have been looked up. */
  ghost function Discovery(o: Outcomes, w: World, m: Saved): Result {
    var d4 := Discover(o, w, m, V4);
    if d4.ok then Discover(o, d4.world, d4.saved, V6) else d4
  }

  lemma DiscoveryKeeps(b: Before, o: Outcomes, w: World, m: Saved, touched: set<Prefix>, tunnel: seq<Prefix>)
    requires b.Valid() && Kept(b, w, m, touched) && NoneVia(w.net.routes, b.dev) && Trusted(b, o, tunnel)
    ensures var d := Discovery(o, w, m);
            && Kept(b, d.world, d.saved, touched)
            && d.world.net == w.net && d.saved.bypass == m.bypass
            && (d.ok ==> Discovered(b, d.saved, tunnel))
  {
    hide Kept, HonestIpv6;
    DiscoverKeeps(b, o, w, m, touched, V4);
    var d4 := Discover(o, w, m, V4);
    if d4.ok {
      DiscoverKeeps(b, o, d4.world, d4.saved, touched, V6);
      var d6 := Discover(o, d4.world, d4.saved, V6);
      if d6.ok {
        assert d6.saved.Original(V4) == d4.saved.Original(V4);
        forall t | t in tunnel
          ensures Remembered(b, d6.saved, t.fam)
        {
          assert t.fam == V4 || t.fam == V6;
        }
      }
    }
  }

  /** Apply keeps the invariant, with at most the plan's host route newly touched. */
  lemma ApplyKeeps(b: Before, o: Outcomes, w: World, m: Saved, touched: set<Prefix>, plan: Plan)
    requires b.Valid() && Kept(b, w, m, touched) && NoneVia(w.net.routes, b.dev) && Trusted(b, o, plan.tunnel)
    requires b.dev in w.net.links && Sensible(plan)
    ensures var r := Apply(o, w, m, b.dev, plan);
            && Kept(b, r.world, r.saved, touched + Elements(plan.bypass))
            && r.world.net.links == w.net.links
            && (m.bypass == [] ==> Kept(b, r.world, r.saved, touched + Elements(r.saved.bypass)))
  {
    DiscoveryKeeps(b, o, w, m, touched, plan.tunnel);
    var d := Discovery(o, w, m);
    var r := Apply(o, w, m, b.dev, plan);
    if d.ok {
      InstallKeeps(b, o, d.world, d.saved, touched, plan);
      var installed := ApplyBypass(o, d.world, d.saved, plan.bypass).1;
      MoreTouched(b, r.world, r.saved,
                  touched + (if installed then Elements(plan.bypass) else {}), touched + Elements(plan.bypass));
    } else {
      MoreTouched(b, r.world, r.saved, touched, touched + Elements(plan.bypass));
    }
  }

  lemma MoreTouched(b: Before, w: World, m: Saved, touched: set<Prefix>, more: set<Prefix>)
    requires Kept(b, w, m, touched) && touched <= more
    ensures Kept(b, w, m, more)
  {
  }

  lemma {:induction false} DeleteBypassKeeps(
    b: Before, o: Outcomes, w: World, m: Saved, touched: set<Prefix>, bypass: seq<Prefix>)
    requires b.Valid() && Kept(b, w, m, touched)
    requires forall p | p in bypass :: p.bits != [] && p in touched
    ensures var (w', ok) := DeleteBypass(o, w, bypass);
            && Kept(b, w', m, touched)
            && w'.net.links == w.net.links
            && (ok ==> forall p | p in bypass :: p !in w'.net.routes)
            && (forall p | p in w'.net.routes :: p in w.net.routes && w'.net.routes[p] == w.net.routes[p])
    decreases |bypass|
  {
    if bypass != [] {
      DeleteRouteKeeps(b, o, w, m, touched, bypass[0]);
      hide Kept;
      var (w1, ok) := DeleteRoute(o, w, bypass[0]);
      if ok {
        DeleteBypassKeeps(b, o, w1, m, touched, bypass[1..]);
        assert bypass == [bypass[0]] + bypass[1..];
      }
    }
  }

  /** Every saved default route is back in place. */
  ghost predicate Restored(b: Before, r: Routes, m: Saved) {
    forall fam | m.Original(fam).Some? :: Get(r, Default(fam)) == Get(b.net.routes, Default(fam))
  }

  lemma CleanupKeeps(b: Before, o: Outcomes, w: World, m: Saved, touched: set<Prefix>)
    requires b.Valid() && Kept(b, w, m, touched)
    ensures var r := Cleanup(o, w, m);
            && Kept(b, r.world, r.saved, touched)
            && r.world.net.links == w.net.links
            && (r.ok ==> Restored(b, r.world.net.routes, r.saved))
            && r.saved == m.(bypass := r.saved.bypass)
  {
    DeleteBypassKeeps(b, o, w, m, touched, m.bypass);
    var (w', ok) := DeleteBypass(o, w, m.bypass);
    if ok {
      SaveBypass(b, w', m, touched, []);
      hide Kept;
      var m' := m.(bypass := []);
      RestoreKeeps(b, o, w', m', touched, V4);
      var (w4, ok) := Restore(o, w', m', V4);
      if ok {
        RestoreKeeps(b, o, w4, m', touched, V6);
      }
    }
  }

  // ---------- the network manager ----------

  ghost predicate KeptBy(b: Before, n: Network, touched: set<Prefix>) {
    Kept(b, n.world, n.saved, touched)
  }

  /** The default routes of both families and the links are the ones from before. */
  ghost predicate Conserved(b: Before, net: Net) {
    && net.links == b.net.links
    && forall fam :: Get(net.routes, Default(fam)) == Get(b.net.routes, Default(fam))
  }

  /** Conserved, but for an IPv6 default route that was missed and has got lost. */
  ghost predicate Settled(b: Before, n: Network) {
    && n.world.net.links == b.net.links
    && forall fam ::
         var now := Get(n.world.net.routes, Default(fam));
         now == Get(b.net.routes, Default(fam)) || (b.forgetful && fam == V6 && n.saved.v6.None? && now == None)
  }

  ghost predicate Fits(e: Env, b: Before) {
    b.Valid() && e.dev == b.dev
  }

  /** The environment runs on the host; a stack that tunnels IPv6 needs honest reports, or the host is forgetful. */
  ghost predicate For(e: Env, b: Before, stack: Stack) {
    Fits(e, b) && (b.forgetful || (Tunnels(stack, V6) ==> HonestIpv6(e.outcomes, b)))
  }

  lemma PlansAreTrusted(e: Env, b: Before, stack: Stack, endpoint: Option<Addr>)
    requires For(e, b, stack)
    ensures Trusted(b, e.outcomes, BuildPlan(stack, endpoint).tunnel)
  {
  }

  /** Cleanup keeps the invariant whatever fails, and conserves everything when nothing fails. */
  lemma CleanupNetworkKeeps(e: Env, b: Before, n: Network, touched: set<Prefix>)
    requires Fits(e, b) && KeptBy(b, n, touched)
    ensures var (n', ok) := CleanupNetwork(e, n);
            && KeptBy(b, n', touched)
            && n'.saved == n.saved.(bypass := n'.saved.bypass)
            && (ok ==> Settled(b, n') && (!b.forgetful ==> Conserved(b, n'.world.net)))
  {
    CleanupKeeps(b, e.outcomes, n.world, n.saved, touched);
    var r := Router.Cleanup(e.outcomes, n.world, n.saved);
    DeleteLinkKeeps(b, e.outcomes, r.world, r.saved, touched);
    var (w, deleted) := DeleteLink(e.outcomes, r.world, e.dev);
    if r.ok && deleted {
      RestoredIsSettled(b, r.world, w, r.saved, touched);
    }
  }

  lemma RestoredIsSettled(b: Before, w: World, w': World, m: Saved, touched: set<Prefix>)
    requires b.Valid() && Kept(b, w, m, touched) && Restored(b, w.net.routes, m)
    requires Kept(b, w', m, touched) && w'.net.links == b.net.links && NoneVia(w'.net.routes, b.dev)
    requires w'.net.routes == w.net.routes || w'.net.routes == Without(w.net.routes, b.dev)
    ensures Settled(b, Network(w', m))
  {
    forall fam
      ensures var now := Get(w'.net.routes, Default(fam));
              now == Get(b.net.routes, Default(fam)) || (b.forgetful && fam == V6 && m.v6.None? && now == None)
    {
      assert DefaultKept(b, w'.net.routes, m, fam);
      if m.Original(fam).Some? {
        assert Get(w.net.routes, Default(fam)) == Get(b.net.routes, Default(fam));
      }
    }
  }

  lemma ApplyDeviceKeeps(b: Before, o: Outcomes, w: World, m: Saved, touched: set<Prefix>, d: WgDev.Desired)
    requires b.Valid() && Kept(b, w, m, touched) && d.name == b.dev
    ensures var (w', ok) := WgDev.ApplyDevice(o, w, d);
            && Kept(b, w', m, touched)
            && (ok ==> b.dev in w'.net.links && NoneVia(w'.net.routes, b.dev))
  {
    if WgDev.IsValid(d) {
      DeleteLinkKeeps(b, o, w, m, touched);
      var (w1, ok) := DeleteLink(o, w, d.name);
      if ok {
        AddLinkKeeps(b, o, w1, m, touched);
        var (w2, ok) := AddLink(o, w1, d.name);
        if ok {
          var times := |WgDev.InterfaceAddresses(d)| + 3;
          WgDev.SetupKeepsNet(o, w2, times);
          var w3 := WgDev.SetupTimes(o, w2, times).0;
          assert Kept(b, w3, m, touched);
        }
      }
    }
  }

  /** Apply keeps the invariant whatever fails, with at most the plan's host route newly touched. */
  lemma ApplyNetworkKeeps(e: Env, b: Before, n: Network, touched: set<Prefix>, cfg: Config, st: State)
    requires For(e, b, cfg.stack) && KeptBy(b, n, touched)
    ensures KeptBy(b, ApplyNetwork(e, n, cfg, st).0, touched + Elements(PlanFor(e, cfg, st).bypass))
  {
    var plan := PlanFor(e, cfg, st);
    var more := touched + Elements(plan.bypass);
    PlansAreSensible(cfg.stack, Endpoint.SelectAddress(e.parser, st, cfg.stack));
    PlansAreTrusted(e, b, cfg.stack, Endpoint.SelectAddress(e.parser, st, cfg.stack));
    ApplyDeviceKeeps(b, e.outcomes, n.world, n.saved, touched, DesiredFor(e, cfg, st));
    var (w1, ok) := WgDev.ApplyDevice(e.outcomes, n.world, DesiredFor(e, cfg, st));
    hide Kept, WgDev.ApplyDevice, DesiredFor, Router.Apply, Sensible, PlanFor, Trusted;
    if !ok {
      MoreTouched(b, w1, n.saved, touched, more);
    } else {
      ApplyKeeps(b, e.outcomes, w1, n.saved, touched, plan);
      var r := Router.Apply(e.outcomes, w1, n.saved, e.dev, plan);
      if !r.ok {
        CleanupNetworkKeeps(e, b, Network(r.world, r.saved), more);
      }
    }
  }
}
