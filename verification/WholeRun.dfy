/** The daemon on the host: what a whole run leaves of it. */
module WholeRun {
  import opened Kernel
  import opened DeviceState
  import opened Router
  import opened LegacyNetwork
  import opened Conservation
  import opened Undoing
  import opened Restoring
  import opened App
  import opened Bytes
  import Endpoint
  import Lifecycle
  import WgDev

  type Daemon = Deps<Network>

  /** The daemon runs on the network manager of the environment. */
  ghost predicate Wired(d: Daemon, e: Env) {
    && (forall n, cfg, st :: d.apply(n, cfg, st) == ApplyNetwork(e, n, cfg, st))
    && (forall n :: d.cleanup(n) == CleanupNetwork(e, n))
  }

  /** The configuration of a run; any one will do for a run that does not get to load one. */
  ghost function ConfigOf(d: Daemon): Config {
    if d.config.Some? then d.config.value else Config(Dual, [])
  }

  /** The endpoint that attempt k bypasses the tunnel for. */
  ghost function Bypassed(d: Daemon, e: Env, k: nat): set<Prefix> {
    if d.config.None? || d.loaded.None? then {}
    else
      var device := d.ensureDevice(k, d.config.value, if k == 0 then d.loaded.value else EMPTY);
      if device.None? then {} else Elements(PlanFor(e, d.config.value, device.value).bypass)
  }

  // ---------- the state of the network, read off the calls ----------

  datatype Standing = Clean | Up | Unknown

  /**
   * What the last call that did something to the network leaves. An Apply of a state from which no device can be
   * configured does nothing; one that fails otherwise has compensated, with unknown success.
   */
  function StandingOf(t: seq<Event>, configures: State -> bool): Standing {
    if t == [] then Clean
    else
      var rest := t[..|t| - 1];
      match t[|t| - 1]
      case Applied(st, ok) => if ok then Up else if configures(st) then Unknown else StandingOf(rest, configures)
      case CleanedUp(ok) => if ok then Clean else Unknown
      case _ => StandingOf(rest, configures)
  }

  predicate WasUp(t: seq<Event>) {
    exists i :: 0 <= i < |t| && t[i].Applied? && t[i].ok
  }

  ghost function Configures(e: Env, cfg: Config): State -> bool {
    st => WgDev.IsValid(DesiredFor(e, cfg, st))
  }

  ghost function Now(e: Env, cfg: Config, r: Runtime<Network>): Standing {
    StandingOf(r.trace, Configures(e, cfg))
  }

  lemma StandingNext(t: seq<Event>, event: Event, configures: State -> bool)
    ensures StandingOf(t + [event], configures) ==
              match event
              case Applied(st, ok) => if ok then Up else if configures(st) then Unknown else StandingOf(t, configures)
              case CleanedUp(ok) => if ok then Clean else Unknown
              case _ => StandingOf(t, configures)
    ensures WasUp(t + [event]) <==> WasUp(t) || (event.Applied? && event.ok)
  {
    assert (t + [event])[..|t|] == t;
    if WasUp(t) {
      var i :| 0 <= i < |t| && t[i].Applied? && t[i].ok;
      assert (t + [event])[i] == t[i];
    } else if event.Applied? && event.ok {
      assert (t + [event])[|t|] == event;
    }
  }

  // ---------- the invariant ----------

  /** The IPv6 default route of a tunnelling stack was never saved, although the tunnel has taken it. */
  ghost predicate Forgotten(b: Before, stack: Stack, r: Runtime<Network>) {
    WasUp(r.trace) && Default(V6) in b.net.routes && Tunnels(stack, V6) && r.net.saved.v6.None?
  }

  ghost predicate Left(e: Env, b: Before, cfg: Config, r: Runtime<Network>, touched: set<Prefix>) {
    && KeptBy(b, r.net, touched)
    && (Now(e, cfg, r).Up? ==> b.dev in r.net.world.net.links)
    && (Now(e, cfg, r).Clean? ==>
          (Conserved(b, r.net.world.net) <==> !(b.forgetful && Forgotten(b, cfg.stack, r))))
    && (Now(e, cfg, r).Unknown? && !b.forgetful && Obeys(e.outcomes) ==> Conserved(b, r.net.world.net))
  }

  /** The host is forgetful only where that matters. */
  ghost predicate Suits(e: Env, b: Before, stack: Stack) {
    For(e, b, stack) && (b.forgetful ==> Tunnels(stack, V6))
  }

  lemma AppliedIsUp(e: Env, b: Before, n: Network, touched: set<Prefix>, cfg: Config, st: State)
    requires For(e, b, cfg.stack) && KeptBy(b, n, touched) && ApplyNetwork(e, n, cfg, st).1
    ensures b.dev in ApplyNetwork(e, n, cfg, st).0.world.net.links
  {
    var d := DesiredFor(e, cfg, st);
    var endpoint := Endpoint.SelectAddress(e.parser, st, cfg.stack);
    PlansAreSensible(cfg.stack, endpoint);
    PlansAreTrusted(e, b, cfg.stack, endpoint);
    ApplyDeviceKeeps(b, e.outcomes, n.world, n.saved, touched, d);
    var w := WgDev.ApplyDevice(e.outcomes, n.world, d).0;
    hide Kept, WgDev.ApplyDevice, Router.Apply, Sensible, Trusted;
    ApplyKeeps(b, e.outcomes, w, n.saved, touched, PlanFor(e, cfg, st));
  }

  /** After a successful Apply of a stack that tunnels IPv6, the default routes are tracked and IPv6 is tunnelled. */
  ghost predicate Raised(b: Before, stack: Stack, n: Network) {
    Tunnels(stack, V6) && Tracked(b, n) && Get(n.world.net.routes, Default(V6)) == Some(Hop([], b.dev))
  }

  lemma AppliedIsRaised(e: Env, b: Before, n: Network, touched: set<Prefix>, cfg: Config, st: State)
    requires Fits(e, b) && b.forgetful && KeptBy(b, n, touched) && ApplyNetwork(e, n, cfg, st).1
    requires Tunnels(cfg.stack, V6)
    ensures Raised(b, cfg.stack, ApplyNetwork(e, n, cfg, st).0)
  {
    hide ApplyNetwork, Net.Valid, Probed;
    NetworkDefaults(e, n, cfg, st);
    NotThrough(b, Default(V4));
    NotThrough(b, Default(V6));
    assert DefaultKept(b, n.world.net.routes, n.saved, V4) && DefaultKept(b, n.world.net.routes, n.saved, V6);
  }

  lemma CleanupSettles(d: Daemon, e: Env, b: Before, cfg: Config, r: Runtime<Network>, touched: set<Prefix>)
    requires Suits(e, b, cfg.stack) && Wired(d, e) && KeptBy(b, r.net, touched) && WasUp(r.trace)
    requires b.forgetful ==> Raised(b, cfg.stack, r.net)
    ensures Left(e, b, cfg, CleanNetwork(d, r).0, touched)
  {
    hide Kept, CleanupNetwork, StandingOf, WasUp, Conserved;
    CleanupNetworkKeeps(e, b, r.net, touched);
    var (n, ok) := CleanupNetwork(e, r.net);
    StandingNext(r.trace, CleanedUp(ok), Configures(e, cfg));
    if ok && b.forgetful {
      CleanedDefaults(e, b, r.net, touched);
      NotThrough(b, Default(V6));
    }
    if Obeys(e.outcomes) {
      CleanupSucceeds(e, b, r.net, touched);
    }
  }

  /** On a host that carries out every command, a failing Apply of a usable state has been undone. */
  lemma FailedIsUndone(e: Env, b: Before, n: Network, touched: set<Prefix>, cfg: Config, st: State)
    requires For(e, b, cfg.stack) && !b.forgetful && KeptBy(b, n, touched) && Obeys(e.outcomes)
    requires WgDev.IsValid(DesiredFor(e, cfg, st)) && !ApplyNetwork(e, n, cfg, st).1
    ensures Conserved(b, ApplyNetwork(e, n, cfg, st).0.world.net)
  {
    var d, plan := DesiredFor(e, cfg, st), PlanFor(e, cfg, st);
    var endpoint := Endpoint.SelectAddress(e.parser, st, cfg.stack);
    DeviceSucceeds(e.outcomes, n.world, d);
    ApplyDeviceKeeps(b, e.outcomes, n.world, n.saved, touched, d);
    var w := WgDev.ApplyDevice(e.outcomes, n.world, d).0;
    PlansAreSensible(cfg.stack, endpoint);
    PlansAreTrusted(e, b, cfg.stack, endpoint);
    hide Kept, WgDev.ApplyDevice, WgDev.IsValid, DesiredFor, Router.Apply, Sensible, Trusted, Conserved;
    ApplyKeeps(b, e.outcomes, w, n.saved, touched, plan);
    var r := Router.Apply(e.outcomes, w, n.saved, e.dev, plan);
    var m := Network(r.world, r.saved);
    CleanupSucceeds(e, b, m, touched + Elements(plan.bypass));
    CleanupNetworkKeeps(e, b, m, touched + Elements(plan.bypass));
  }

  lemma DeviceSucceeds(o: Outcomes, w: World, d: WgDev.Desired)
    requires Obeys(o) && WgDev.IsValid(d)
    ensures WgDev.ApplyDevice(o, w, d).1
  {
    var w1 := DeleteLink(o, w, d.name).0;
    var w2 := AddLink(o, w1, d.name).0;
    SetupSucceeds(o, w2, |WgDev.InterfaceAddresses(d)| + 3);
  }

  lemma UnconfiguredIsVoid(e: Env, n: Network, cfg: Config, st: State)
    requires !WgDev.IsValid(DesiredFor(e, cfg, st))
    ensures ApplyNetwork(e, n, cfg, st) == (n, false)
  {
  }

  /** The call of Apply alone. */
  lemma ApplyLeaves(e: Env, b: Before, cfg: Config, st: State, r: Runtime<Network>, touched: set<Prefix>)
    requires Suits(e, b, cfg.stack) && Left(e, b, cfg, r, touched)
    requires Elements(PlanFor(e, cfg, st).bypass) <= touched
    ensures var (net, ok) := ApplyNetwork(e, r.net, cfg, st);
            && Left(e, b, cfg, r.(net := net).Saw(Applied(st, ok)), touched)
            && (ok && b.forgetful ==> Raised(b, cfg.stack, net))
  {
    hide Kept, ApplyNetwork, StandingOf, WasUp, Conserved, DesiredFor, WgDev.IsValid, PlanFor, Raised;
    var (net, ok) := ApplyNetwork(e, r.net, cfg, st);
    assert touched + Elements(PlanFor(e, cfg, st).bypass) == touched;
    ApplyNetworkKeeps(e, b, r.net, touched, cfg, st);
    StandingNext(r.trace, Applied(st, ok), Configures(e, cfg));
    if ok {
      AppliedIsUp(e, b, r.net, touched, cfg, st);
      if b.forgetful {
        AppliedIsRaised(e, b, r.net, touched, cfg, st);
      }
    } else if WgDev.IsValid(DesiredFor(e, cfg, st)) {
      if !b.forgetful && Obeys(e.outcomes) {
        FailedIsUndone(e, b, r.net, touched, cfg, st);
      }
    } else {
      UnconfiguredIsVoid(e, r.net, cfg, st);
    }
  }

  predicate AboutNetwork(event: Event) {
    event.Applied? || event.CleanedUp?
  }

  lemma SeenLeaves(e: Env, b: Before, cfg: Config, r: Runtime<Network>, event: Event, touched: set<Prefix>)
    requires Left(e, b, cfg, r, touched) && !AboutNetwork(event)
    ensures Left(e, b, cfg, r.Saw(event), touched)
  {
    hide StandingOf, WasUp, Conserved, KeptBy;
    StandingNext(r.trace, event, Configures(e, cfg));
  }

  lemma RunStartedLeaves(
    d: Daemon, e: Env, b: Before, a: Answers, cfg: Config, st: State, r: Runtime<Network>, touched: set<Prefix>)
    requires Suits(e, b, cfg.stack) && Wired(d, e) && Left(e, b, cfg, r, touched)
    requires Elements(PlanFor(e, cfg, st).bypass) <= touched
    ensures Left(e, b, cfg, RunStarted(d, a, cfg, st, r).0, touched)
  {
    ApplyLeaves(e, b, cfg, st, r, touched);
    var (net, applied) := d.apply(r.net, cfg, st);
    var r1 := r.(net := net).Saw(Applied(st, applied));
    assert applied ==> r1.trace[|r.trace|] == Applied(st, true);
    assert applied ==> WasUp(r1.trace);
    hide ApplyNetwork, CleanupNetwork, PlanFor, Left, KeptBy, Suits, Raised, WasUp;
    if applied {
      SeenLeaves(e, b, cfg, r1, ConfigWritten(a.written), touched);
      var r2 := r1.Saw(ConfigWritten(a.written));
      if a.written {
        SeenLeaves(e, b, cfg, r2, Started(a.started), touched);
        if a.started {
          LaterLeaves(d, e, b, a, cfg, r1, touched);
        }
      }
    }
  }

  /** From the start of the proxy on, every attempt comes to its cleanup, with the network as Apply left it. */
  lemma LaterLeaves(d: Daemon, e: Env, b: Before, a: Answers, cfg: Config, r1: Runtime<Network>, touched: set<Prefix>)
    requires Suits(e, b, cfg.stack) && Wired(d, e) && Left(e, b, cfg, r1, touched) && WasUp(r1.trace)
    requires b.forgetful ==> Raised(b, cfg.stack, r1.net)
    requires a.written && a.started
    ensures var r4 := r1.Saw(ConfigWritten(true)).Saw(Started(true)).Saw(Checked(a.healthy));
            Left(e, b, cfg,
                 if a.healthy then Serve(d, a, r4).0 else CleanNetwork(d, r4.Saw(Stopped(a.stopped))).0, touched)
  {
    var r4 := r1.Saw(ConfigWritten(true)).Saw(Started(true)).Saw(Checked(a.healthy));
    var r5 := if a.healthy then r4.SetReady(true).Saw(Ended(a.end)).SetReady(false) else r4;
    var r6 := r5.Saw(Stopped(a.stopped));
    var i :| 0 <= i < |r1.trace| && r1.trace[i].Applied? && r1.trace[i].ok;
    assert r6.trace[i] == r1.trace[i];
    assert WasUp(r6.trace) && r6.net == r1.net;
    hide StandingOf, WasUp, Conserved, Kept, Suits, Wired;
    CleanupSettles(d, e, b, cfg, r6, touched);
  }

  lemma AttemptLeaves(d: Daemon, e: Env, b: Before, k: nat, r: Runtime<Network>, touched: set<Prefix>)
    requires d.config.Some? && d.loaded.Some?
    requires Suits(e, b, d.config.value.stack) && Wired(d, e) && Left(e, b, d.config.value, r, touched)
    requires Bypassed(d, e, k) <= touched
    ensures Left(e, b, d.config.value,
                 Attempt(d, k, d.config.value, if k == 0 then d.loaded.value else EMPTY, r).0, touched)
  {
    var cfg, from := d.config.value, if k == 0 then d.loaded.value else EMPTY;
    var device := d.ensureDevice(k, cfg, from);
    hide Left, Wired, Suits, RunStarted, PlanFor;
    SeenLeaves(e, b, cfg, r, Bootstrapped(from, device), touched);
    var r1 := r.Saw(Bootstrapped(from, device));
    if device.Some? {
      var saved := d.save(k, device.value);
      SeenLeaves(e, b, cfg, r1, Event.Saved(device.value, saved), touched);
      if saved {
        RunStartedLeaves(d, e, b, d.answers(k), cfg, device.value, r1.Saw(Event.Saved(device.value, true)), touched);
      }
    }
  }

  ghost function Fresh(b: Before, clock: nat): Runtime<Network> {
    Runtime(Network(World(b.net, clock), NOTHING_SAVED), false, [])
  }

  lemma RunLeaves(d: Daemon, e: Env, b: Before, clock: nat)
    requires Suits(e, b, ConfigOf(d).stack) && Wired(d, e)
    ensures Left(e, b, ConfigOf(d), RunApp(d, Fresh(b, clock)).0, Bypassed(d, e, 0) + Bypassed(d, e, 1))
  {
    var touched := Bypassed(d, e, 0) + Bypassed(d, e, 1);
    var start := Fresh(b, clock);
    assert Left(e, b, ConfigOf(d), start, touched);
    hide Bypassed, Wired, Suits, Left, Attempt, Fresh;
    if d.config.Some? && d.loaded.Some? {
      AttemptLeaves(d, e, b, 0, start, touched);
      var r1 := Attempt(d, 0, d.config.value, d.loaded.value, start).0;
      AttemptLeaves(d, e, b, 1, r1, touched);
    }
  }

  // ---------- whole runs ----------

  /**
   * Conservation over whole runs, whatever the dependencies and the commands answer. When the last thing that
   * happened to the network is a successful cleanup, or nothing has happened to it, the default routes of both
   * families and the links are those from before the run, unless the IPv6 default route was never saved. When it is
   * a successful Apply, however the run went on from there, they are not. No route but the default routes and those
   * to the endpoints has changed at any event.
   */
  lemma RunConserves(d: Daemon, e: Env, b: Before, clock: nat)
    requires Fits(e, b) && Wired(d, e)
    ensures var cfg := ConfigOf(d);
            var r := RunApp(d, Fresh(b, clock)).0;
            && (Now(e, cfg, r).Clean? ==> (Conserved(b, r.net.world.net) <==> !Forgotten(b, cfg.stack, r)))
            && (Now(e, cfg, r).Up? ==> !Conserved(b, r.net.world.net))
            && forall p: Prefix | p.bits != [] && p !in Bypassed(d, e, 0) + Bypassed(d, e, 1) ::
                 Get(r.net.world.net.routes, p) == Get(b.net.routes, p)
  {
    hide RunApp, StandingOf, WasUp, Bypassed;
    var b' := b.(forgetful := Tunnels(ConfigOf(d).stack, V6));
    RunLeaves(d, e, b', clock);
    assert Fresh(b', clock) == Fresh(b, clock);
  }

  /** With honest reports, or a stack that does not tunnel IPv6, nothing is forgotten. */
  lemma HonestRunConserves(d: Daemon, e: Env, b: Before, clock: nat)
    requires Fits(e, b) && Wired(d, e)
    requires Tunnels(ConfigOf(d).stack, V6) ==> HonestIpv6(e.outcomes, b)
    ensures var r := RunApp(d, Fresh(b, clock)).0;
            Now(e, ConfigOf(d), r).Clean? ==> Conserved(b, r.net.world.net)
  {
    hide RunApp, StandingOf, WasUp, Bypassed;
    var b' := b.(forgetful := false);
    assert HonestIpv6(e.outcomes, b') == HonestIpv6(e.outcomes, b);
    RunLeaves(d, e, b', clock);
    assert Fresh(b', clock) == Fresh(b, clock);
  }

  /**
   * On a host that carries out every command, a run leaves links and default routes as they were if and only if the
   * last Apply of a usable device was cleaned up or has failed.
   */
  lemma ObeyedRunConservesIff(d: Daemon, e: Env, b: Before, clock: nat)
    requires Fits(e, b) && Wired(d, e) && Obeys(e.outcomes)
    ensures var r := RunApp(d, Fresh(b, clock)).0;
            Conserved(b, r.net.world.net) <==> !Now(e, ConfigOf(d), r).Up?
  {
    hide RunApp, StandingOf, WasUp, Bypassed;
    var b' := b.(forgetful := false);
    RunLeaves(d, e, b', clock);
    assert Fresh(b', clock) == Fresh(b, clock);
  }

  /** A run without an error leaves links and default routes as they were, if IPv6 was reported honestly. */
  lemma SuccessConserves(d: Daemon, e: Env, b: Before, clock: nat)
    requires Fits(e, b) && Wired(d, e)
    requires Tunnels(ConfigOf(d).stack, V6) ==> HonestIpv6(e.outcomes, b)
    ensures var (r, err) := RunApp(d, Fresh(b, clock));
            err.None? ==> Conserved(b, r.net.world.net)
  {
    Lifecycle.RunSucceedsIff(d, Fresh(b, clock).net);
    var (r, err) := RunApp(d, Fresh(b, clock));
    if err.None? {
      var t := r.trace;
      assert t == t[..|t| - 1] + [CleanedUp(true)];
      StandingNext(t[..|t| - 1], CleanedUp(true), Configures(e, ConfigOf(d)));
      hide RunApp, StandingOf, Conserved;
      HonestRunConserves(d, e, b, clock);
    }
  }

  predicate EndsWith(t: seq<Event>, e: Event) {
    t != [] && t[|t| - 1] == e
  }

  /** The cleanup of an attempt is reached if and only if its Apply, its proxy config and its Start succeeded. */
  lemma CleanupReachedIff<N>(d: Deps<N>, a: Answers, cfg: Config, st: State, r: Runtime<N>)
    ensures var t := RunStarted(d, a, cfg, st, r).0.trace;
            (EndsWith(t, CleanedUp(true)) || EndsWith(t, CleanedUp(false))
             <==> d.apply(r.net, cfg, st).1 && a.written && a.started)
  {
  }
}
