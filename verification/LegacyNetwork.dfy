/** The network manager: the WireGuard device, the routes around and through it, and the way back from both. */
module LegacyNetwork {
  import opened Bytes
  import opened Kernel
  import opened DeviceState
  import opened Endpoint
  import opened Router
  import WgDev

  /** The host and what the route manager has saved. */
  datatype Network = Network(world: World, saved: Saved)

  /** Fixed for the life of the manager: command outcomes, address parser and device name. */
  datatype Env = Env(outcomes: Outcomes, parser: AddrParser, dev: Text)

  function DesiredFor(e: Env, cfg: Config, st: State): WgDev.Desired {
    WgDev.Desired(e.dev, cfg.stack, st.privateKey, st.ipv4, st.ipv6, st.peerPublicKey, SelectEndpoint(st, cfg.stack))
  }

  function PlanFor(e: Env, cfg: Config, st: State): Plan {
    BuildPlan(cfg.stack, SelectAddress(e.parser, st, cfg.stack))
  }

  /** legacyNetworkManager.Apply; a failure of the routes is compensated, a failure of the device is not. */
  function ApplyNetwork(e: Env, n: Network, cfg: Config, st: State): (Network, bool) {
    var (w1, ok) := WgDev.ApplyDevice(e.outcomes, n.world, DesiredFor(e, cfg, st));
    if !ok then (Network(w1, n.saved), false)
    else
      var r := Router.Apply(e.outcomes, w1, n.saved, e.dev, PlanFor(e, cfg, st));
      if r.ok then (Network(r.world, r.saved), true)
      else (CleanupNetwork(e, Network(r.world, r.saved)).0, false)
  }

  /** legacyNetworkManager.Cleanup: both halves run, whatever the first one does. */
  function CleanupNetwork(e: Env, n: Network): (Network, bool) {
    var r := Router.Cleanup(e.outcomes, n.world, n.saved);
    var (w, deleted) := DeleteLink(e.outcomes, r.world, e.dev);
    (Network(w, r.saved), r.ok && deleted)
  }

  class Manager {
    const env: Env
    const runner: Runner
    const wg: WgDev.Manager
    const routes: Router.Manager

    constructor (env: Env, runner: Runner, wg: WgDev.Manager, routes: Router.Manager)
      requires env.dev != [] && env.outcomes == runner.outcomes && wg.runner == runner && routes.runner == runner
      ensures Valid() && this.env == env && this.runner == runner && this.routes == routes
    {
      this.env, this.runner, this.wg, this.routes := env, runner, wg, routes;
    }

    ghost predicate Valid() {
      && env.dev != []
      && env.outcomes == runner.outcomes
      && wg.runner == runner
      && routes.runner == runner
    }

    ghost function View(): Network
      reads runner, routes
    {
      Network(runner.world, routes.State())
    }

    method Apply(cfg: Config, st: State) returns (ok: bool)
      requires Valid()
      modifies runner, routes
      ensures (View(), ok) == ApplyNetwork(env, old(View()), cfg, st)
    {
      var endpoint := SelectAddress(env.parser, st, cfg.stack);
      var desired := DesiredFor(env, cfg, st);
      ok := wg.Apply(desired);
      if !ok {
        return;
      }
      var plan := BuildPlan(cfg.stack, endpoint);
      ok := routes.ApplyPlan(env.dev, plan);
      if !ok {
        var _ := routes.CleanUp();
        var _ := wg.Delete(env.dev);
      }
    }

    method Cleanup() returns (ok: bool)
      requires Valid()
      modifies runner, routes
      ensures (View(), ok) == CleanupNetwork(env, old(View()))
    {
      var routesOk := routes.CleanUp();
      var deleted := wg.Delete(env.dev);
      ok := routesOk && deleted;
    }
  }

  // ---------- from what the API reports to what the device is given ----------

  /** The addresses of an interface: those the stack uses, each as a network of its own, IPv4 first. */
  ghost predicate Addresses(stack: Stack, v4: Text, v6: Text, addresses: seq<Text>) {
    var use4, use6 := stack in {Dual, Only4} && v4 != [], stack in {Dual, Only6} && v6 != [];
    if use4 && use6 then addresses == [v4 + Lit("/32"), v6 + Lit("/128")]
    else if use4 then addresses == [v4 + Lit("/32")]
    else if use6 then addresses == [v6 + Lit("/128")]
    else addresses == []
  }

  lemma AddressesOf(d: WgDev.Desired)
    ensures Addresses(d.stack, d.addressV4, d.addressV6, WgDev.InterfaceAddresses(d))
  {
  }

  /**
   * The WireGuard device is given the key of the registration, the addresses and the peer key of the reported device,
   * and it can be brought up if and only if none of these, nor the endpoint, is missing.
   */
  lemma ReportedIsConfigured(
    e: Env, cfg: Config, d: Device, id: Text, token: Text, privateKey: Text, publicKey: Text)
    requires StateFromDevice(d, id, token, privateKey, publicKey).Some?
    ensures var st := StateFromDevice(d, id, token, privateKey, publicKey).value;
            var desired := DesiredFor(e, cfg, st);
            && desired.name == e.dev && desired.privateKey == privateKey
            && desired.peerPublicKey == d.peers[0].publicKey
            && desired.endpoint == SelectEndpoint(st, cfg.stack)
            && Addresses(cfg.stack, d.addressV4, d.addressV6, WgDev.InterfaceAddresses(desired))
            && (WgDev.IsValid(desired) <==>
                  && e.dev != [] && privateKey != [] && d.peers[0].publicKey != [] && desired.endpoint != []
                  && !Addresses(cfg.stack, d.addressV4, d.addressV6, []))
  {
    hide JoinEndpoint, TunnelProtocol, SelectEndpoint;
    AddressesOf(DesiredFor(e, cfg, StateFromDevice(d, id, token, privateKey, publicKey).value));
  }

  /** Who the state is for: what the API reports comes first, what was asked for stands in where it reports nothing. */
  lemma ReportedIsKept(d: Device, id: Text, token: Text, privateKey: Text, publicKey: Text)
    ensures var st := StateFromDevice(d, id, token, privateKey, publicKey);
            && (st.Some? <==> d.peers != [] && (d.id != [] || id != []) && (d.token != [] || token != []))
            && (st.Some? ==>
                  && st.value.deviceId in {d.id, id} && st.value.deviceId != []
                  && (d.id != [] ==> st.value.deviceId == d.id)
                  && st.value.accessToken in {d.token, token} && st.value.accessToken != []
                  && (d.token != [] ==> st.value.accessToken == d.token)
                  && st.value.publicKey in {publicKey, d.key} && (publicKey != [] ==> st.value.publicKey == publicKey)
                  && st.value.privateKey == privateKey && st.value.license == d.license
                  && st.value.clientId == d.clientId && st.value.warpEnabled == d.warpEnabled
                  && st.value.createdAt == d.created && st.value.updatedAt == d.updated)
  {
    hide JoinEndpoint, TunnelProtocol;
  }

  // ---------- when the device comes up, and that it always goes ----------

  /** Every command with a number in the range succeeds. */
  ghost predicate AllDone(o: Outcomes, from: nat, end: nat) {
    forall k: nat | from <= k < end :: o(k) == Done
  }

  lemma {:induction false} SetupIff(o: Outcomes, w: World, n: nat)
    ensures WgDev.SetupTimes(o, w, n).1 <==> AllDone(o, w.clock, w.clock + n)
    ensures WgDev.SetupTimes(o, w, n).1 ==> WgDev.SetupTimes(o, w, n).0 == World(w.net, w.clock + n)
    decreases n
  {
    if 0 < n {
      SetupIff(o, Tick(w), n - 1);
    }
  }

  /**
   * The device comes up if and only if what it is to be is complete and every command succeeds: the old link is
   * deleted and a new one added, and then come the file, setconf, one command for each address, and the MTU.
   */
  lemma DeviceIsUpIff(o: Outcomes, w: World, d: WgDev.Desired)
    ensures var (w', ok), end := WgDev.ApplyDevice(o, w, d), w.clock + |WgDev.InterfaceAddresses(d)| + 5;
            && (ok <==>
                  && d.name != [] && d.privateKey != [] && d.peerPublicKey != [] && d.endpoint != []
                  && !Addresses(d.stack, d.addressV4, d.addressV6, [])
                  && AllDone(o, w.clock, end))
            && (ok ==> w'.clock == end && w'.net.links == w.net.links + {d.name})
  {
    AddressesOf(d);
    var n := |WgDev.InterfaceAddresses(d)| + 3;
    hide WgDev.InterfaceAddresses;
    var w1 := DeleteLink(o, w, d.name).0;
    var w2 := AddLink(o, w1, d.name).0;
    SetupIff(o, w2, n);
    assert w1.clock == w.clock + 1 && w2.clock == w.clock + 2;
    assert AllDone(o, w.clock, w.clock + n + 2)
        <==> o(w.clock) == Done && o(w.clock + 1) == Done && AllDone(o, w.clock + 2, w.clock + n + 2);
  }

  /** Whatever the routes do, the last command of a cleanup deletes the link. */
  lemma LinkIsAlwaysDeleted(e: Env, n: Network)
    ensures var w := CleanupNetwork(e, n).0.world;
            && n.world.clock < w.clock
            && w.net.links == if e.outcomes(w.clock - 1) == Done then n.world.net.links - {e.dev} else n.world.net.links
  {
    RoutesKeepLinks(e.outcomes, n.world, n.saved);
  }

  lemma RoutesKeepLinks(o: Outcomes, w: World, m: Saved)
    ensures var w' := Router.Cleanup(o, w, m).world; w.clock <= w'.clock && w'.net.links == w.net.links
  {
    DeletesKeepLinks(o, w, m.bypass);
  }

  lemma {:induction false} DeletesKeepLinks(o: Outcomes, w: World, bypass: seq<Prefix>)
    ensures var w' := DeleteBypass(o, w, bypass).0; w.clock <= w'.clock && w'.net.links == w.net.links
    decreases |bypass|
  {
    if bypass != [] {
      DeletesKeepLinks(o, DeleteRoute(o, w, bypass[0]).0, bypass[1..]);
    }
  }
}
