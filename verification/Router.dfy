/** The route manager: the plan for an endpoint, its application, and the way back. */
module Router {
  import opened Bytes
  import opened Kernel
  import opened DeviceState

  datatype Plan = Plan(tunnel: seq<Prefix>, bypass: seq<Prefix>)

  /** The first 96 bits of an IPv4-mapped IPv6 address. */
  predicate IsMapped(bits: seq<bool>) {
    96 <= |bits| && forall i | 0 <= i < 96 :: bits[i] == (80 <= i)
  }

  /** netip.Addr.Unmap. */
  function Unmap(a: Addr): Addr {
    if a.fam == V6 && IsMapped(a.bits) then Prefix(V4, a.bits[96..]) else a
  }

  /** x is the address a itself, unless a is an IPv4 address in IPv6 form: then x is that IPv4 address. */
  ghost predicate Denotes(a: Addr, x: Addr) {
    var mapped := seq(80, _ => false) + seq(16, _ => true);
    if a.fam == V6 && a.bits[..96] == mapped then x.fam == V4 && a.bits == mapped + x.bits else x == a
  }

  lemma UnmapIff(a: Addr, x: Addr)
    ensures Unmap(a) == x <==> Denotes(a, x)
  {
    var mapped := seq(80, _ => false) + seq(16, _ => true);
    if a.fam == V6 {
      assert IsMapped(a.bits) ==> a.bits[..96] == mapped;
      if a.bits[..96] == mapped {
        assert forall i | 0 <= i < 96 :: a.bits[i] == mapped[i];
        assert IsMapped(a.bits);
        assert a.bits == mapped + a.bits[96..];
        assert x.fam == V4 && a.bits == mapped + x.bits ==> x.bits == a.bits[96..];
      }
    }
  }

  function TunnelRoutes(stack: Stack): seq<Prefix> {
    match stack
    case Only4 => [Default(V4)]
    case Only6 => [Default(V6)]
    case Dual => [Default(V4), Default(V6)]
  }

  predicate Tunnels(stack: Stack, fam: Family) {
    match fam
    case V4 => stack != Only6
    case V6 => stack != Only4
  }

  /** The tunnel takes the default routes of the stack; the endpoint itself gets a host route around it. */
  function BuildPlan(stack: Stack, endpoint: Option<Addr>): Plan {
    Plan(TunnelRoutes(stack), if endpoint.Some? then [Unmap(endpoint.value)] else [])
  }

  /** originalV4, originalV6 and bypassRoutes. */
  datatype Saved = Saved(v4: Option<Hop>, v6: Option<Hop>, bypass: seq<Prefix>) {
    function Original(fam: Family): Option<Hop> {
      if fam == V4 then v4 else v6
    }
  }

  const NOTHING_SAVED := Saved(None, None, [])

  datatype Result = Result(world: World, saved: Saved, ok: bool)

  function Discover(o: Outcomes, w: World, m: Saved, fam: Family): Result {
    if m.Original(fam).Some? then Result(w, m, true)
    else
      var (w', shown) := ShowDefault(o, w, fam);
      match shown
      case None => Result(w', m, false)
      case Some(route) => Result(w', if fam == V4 then m.(v4 := route) else m.(v6 := route), true)
  }

  function ApplyBypass(o: Outcomes, w: World, m: Saved, bypass: seq<Prefix>): (World, bool)
    decreases |bypass|
  {
    if bypass == [] then (w, true)
    else match m.Original(bypass[0].fam)
      case None => (w, false)
      case Some(hop) =>
        var (w', ok) := ReplaceRoute(o, w, bypass[0], hop);
        if ok then ApplyBypass(o, w', m, bypass[1..]) else (w', false)
  }

  function ApplyTunnel(o: Outcomes, w: World, dev: Text, tunnel: seq<Prefix>): (World, bool)
    decreases |tunnel|
  {
    if tunnel == [] then (w, true)
    else
      var (w', ok) := ReplaceRoute(o, w, Default(tunnel[0].fam), Hop([], dev));
      if ok then ApplyTunnel(o, w', dev, tunnel[1..]) else (w', false)
  }

  function DeleteBypass(o: Outcomes, w: World, bypass: seq<Prefix>): (World, bool)
    decreases |bypass|
  {
    if bypass == [] then (w, true)
    else
      var (w', ok) := DeleteRoute(o, w, bypass[0]);
      if ok then DeleteBypass(o, w', bypass[1..]) else (w', false)
  }

  function Restore(o: Outcomes, w: World, m: Saved, fam: Family): (World, bool) {
    match m.Original(fam)
    case None => (w, true)
    case Some(hop) => ReplaceRoute(o, w, Default(fam), hop)
  }

  /** Manager.Apply. */
  function Apply(o: Outcomes, w: World, m: Saved, dev: Text, plan: Plan): Result {
    if dev == [] then Result(w, m, false)
    else
      var d4 := Discover(o, w, m, V4);
      if !d4.ok then d4
      else
        var d6 := Discover(o, d4.world, d4.saved, V6);
        if !d6.ok then d6 else Install(o, d6.world, d6.saved, dev, plan)
  }

  function Install(o: Outcomes, w: World, m: Saved, dev: Text, plan: Plan): Result {
    var (w', ok) := ApplyBypass(o, w, m, plan.bypass);
    if !ok then Result(w', m, false)
    else
      var (w'', ok) := ApplyTunnel(o, w', dev, plan.tunnel);
      Result(w'', m.(bypass := plan.bypass), ok)
  }

  /** Manager.Cleanup. */
  function Cleanup(o: Outcomes, w: World, m: Saved): Result {
    var (w', ok) := DeleteBypass(o, w, m.bypass);
    if !ok then Result(w', m, false)
    else
      var m' := m.(bypass := []);
      var (w4, ok) := Restore(o, w', m', V4);
      if !ok then Result(w4, m', false)
      else
        var (w6, ok) := Restore(o, w4, m', V6);
        Result(w6, m', ok)
  }

  class Manager {
    const runner: Runner
    var originalV4: Option<Hop>
    var originalV6: Option<Hop>
    var bypassRoutes: seq<Prefix>

    constructor (runner: Runner)
      ensures this.runner == runner && State() == NOTHING_SAVED
    {
      this.runner := runner;
      originalV4, originalV6, bypassRoutes := None, None, [];
    }

    ghost function State(): Saved
      reads this
    {
      Saved(originalV4, originalV6, bypassRoutes)
    }

    method ApplyPlan(dev: Text, plan: Plan) returns (ok: bool)
      modifies this, runner
      ensures Result(runner.world, State(), ok) == Apply(runner.outcomes, old(runner.world), old(State()), dev, plan)
    {
      if dev == [] {
        return false;
      }
      if originalV4.None? {
        var route := runner.RouteShowDefault(V4);
        if route.None? {
          return false;
        }
        originalV4 := route.value;
      }
      if originalV6.None? {
        var route := runner.RouteShowDefault(V6);
        if route.None? {
          return false;
        }
        originalV6 := route.value;
      }
      ghost var m := State();
      assert Apply(runner.outcomes, old(runner.world), old(State()), dev, plan)
          == Install(runner.outcomes, runner.world, m, dev, plan);
      ok := InstallPlan(dev, plan);
    }

    method InstallPlan(dev: Text, plan: Plan) returns (ok: bool)
      modifies this`bypassRoutes, runner
      ensures Result(runner.world, State(), ok) == Install(runner.outcomes, old(runner.world), old(State()), dev, plan)
    {
      ghost var m, start := State(), runner.world;
      for i := 0 to |plan.bypass|
        invariant State() == m
        invariant ApplyBypass(runner.outcomes, start, m, plan.bypass)
               == ApplyBypass(runner.outcomes, runner.world, m, plan.bypass[i..])
      {
        var bypass := plan.bypass[i];
        assert plan.bypass[i..][1..] == plan.bypass[i + 1..];
        var original := if bypass.fam == V6 then originalV6 else originalV4;
        if original.None? {
          return false;
        }
        var applied := runner.RouteReplace(bypass, original.value);
        if !applied {
          return false;
        }
      }
      bypassRoutes := plan.bypass;
      ghost var between := runner.world;
      for i := 0 to |plan.tunnel|
        invariant State() == m.(bypass := plan.bypass)
        invariant ApplyTunnel(runner.outcomes, between, dev, plan.tunnel)
               == ApplyTunnel(runner.outcomes, runner.world, dev, plan.tunnel[i..])
      {
        assert plan.tunnel[i..][1..] == plan.tunnel[i + 1..];
        var replaced := runner.RouteReplace(Default(plan.tunnel[i].fam), Hop([], dev));
        if !replaced {
          return false;
        }
      }
      return true;
    }

    method CleanUp() returns (ok: bool)
      modifies this`bypassRoutes, runner
      ensures Result(runner.world, State(), ok) == Cleanup(runner.outcomes, old(runner.world), old(State()))
    {
      ghost var m, start := State(), runner.world;
      for i := 0 to |bypassRoutes|
        invariant State() == m
        invariant DeleteBypass(runner.outcomes, start, m.bypass)
               == DeleteBypass(runner.outcomes, runner.world, m.bypass[i..])
      {
        assert m.bypass[i..][1..] == m.bypass[i + 1..];
        var deleted := runner.RouteDelete(bypassRoutes[i]);
        if !deleted {
          return false;
        }
      }
      bypassRoutes := [];
      if originalV4.Some? {
        ok := runner.RouteReplace(Default(V4), originalV4.value);
        if !ok {
          return;
        }
      }
      if originalV6.Some? {
        ok := runner.RouteReplace(Default(V6), originalV6.value);
        return;
      }
      ok := true;
    }
  }
}
