/** The daemon on the supervisor: when a run does not return. */
module Hanging {
  import opened Bytes
  import opened Kernel
  import opened Router
  import opened DeviceState
  import opened LegacyNetwork
  import opened Conservation
  import opened Supervisor
  import opened App
  import opened WholeRun

  /** How a call of Start goes when it gets to run: refused before the mutex, or the child's launch and readiness. */
  datatype Start = Refused | LaunchFails | NeverReady | Serves

  /** Start in a sequential caller; None when it waits for the mutex, which nobody will release. */
  function CallStart(s: Shared, child: nat, start: Start): Option<Shared> {
    if start == Refused then Some(s)
    else if s.held then None
    else
      var (s', launch) := StartRegion(s, child, start != LaunchFails);
      Some(if launch == Launched then Retired(s', child) else s')
  }

  /** Every launched child is stopped and withdrawn within the attempt that launched it. */
  function Retired(s: Shared, child: nat): Shared
    requires !s.held
  {
    WaitRegion(StopRegion(s).0, child).0
  }

  datatype Progress<N> =
    | Returned(runtime: Runtime<N>, device: Option<State>, err: Option<Error>, shared: Shared)
    | Hung(runtime: Runtime<N>)

  function Answered(a: Answers, start: Start): Answers {
    a.(started := start == Serves)
  }

  /** runStartedRuntime with the supervisor's fields. */
  function RunStartedWith<N>(
    d: Deps<N>, a: Answers, start: Start, child: nat, cfg: Config, st: State, r: Runtime<N>, s: Shared): Progress<N>
  {
    var (net, applied) := d.apply(r.net, cfg, st);
    var (r', err) := RunStarted(d, Answered(a, start), cfg, st, r);
    if !applied || !a.written then Returned(r', Some(st), err, s)
    else match CallStart(s, child, start)
      case None => Hung(r.(net := net).Saw(Applied(st, applied)).Saw(ConfigWritten(true)))
      case Some(s') => Returned(r', Some(st), err, s')
  }

  function AttemptWith<N>(
    d: Deps<N>, start: Start, k: nat, cfg: Config, from: State, r: Runtime<N>, s: Shared): Progress<N>
  {
    var device := d.ensureDevice(k, cfg, from);
    var r1 := r.Saw(Bootstrapped(from, device));
    if device.None? then Returned(r1, None, Some(Bootstrap), s)
    else
      var saved := d.save(k, device.value);
      var r2 := r1.Saw(Event.Saved(device.value, saved));
      if !saved then Returned(r2, None, Some(SaveState), s)
      else RunStartedWith(d, d.answers(k), start, k, cfg, device.value, r2, s)
  }

  /** App.Run with the supervisor's fields. */
  function RunWith<N>(d: Deps<N>, starts: nat -> Start, r: Runtime<N>): Progress<N> {
    if d.config.None? then Returned(r, None, Some(LoadConfig), UNUSED)
    else if d.loaded.None? then Returned(r, None, Some(LoadState), UNUSED)
    else
      var first := AttemptWith(d, starts(0), 0, d.config.value, d.loaded.value, r, UNUSED);
      if first.Hung? || first.device.None? || !ShouldRetry(d.loaded.value, first.err) then first
      else
        var second := AttemptWith(d, starts(1), 1, d.config.value, EMPTY, first.runtime, first.shared);
        if second.Hung? then second
        else second.(err := if second.err.Some? then Some(Joined(first.err.value, second.err.value)) else None)
  }

  /** The dependencies as the supervisor makes them answer. */
  function Supervised<N>(d: Deps<N>, starts: nat -> Start): Deps<N> {
    d.(answers := (k: nat) => Answered(d.answers(k), starts(k)))
  }

  /** Attempt k calls Start of the supervisor. */
  predicate Reaches<N>(d: Deps<N>, k: nat, cfg: Config, from: State, r: Runtime<N>) {
    var device := d.ensureDevice(k, cfg, from);
    && device.Some? && d.save(k, device.value) && d.apply(r.net, cfg, device.value).1 && d.answers(k).written
  }

  lemma SameRuntime<N>(d: Deps<N>, starts: nat -> Start, a: Answers, cfg: Config, st: State, r: Runtime<N>)
    ensures RunStarted(Supervised(d, starts), a, cfg, st, r) == RunStarted(d, a, cfg, st, r)
  {
  }

  lemma StartNotReached<N>(d: Deps<N>, a: Answers, cfg: Config, st: State, r: Runtime<N>)
    requires d.apply(r.net, cfg, st).1 && a.written && !a.started
    ensures RunStarted(d, a, cfg, st, r).1 == Some(StartProxy)
  {
  }

  lemma AttemptWithReturns<N>(
    d: Deps<N>, starts: nat -> Start, k: nat, cfg: Config, from: State, r: Runtime<N>, s: Shared)
    requires s.cmd.None?
    ensures var p := AttemptWith(d, starts(k), k, cfg, from, r, s);
            && (p.Hung? <==> Reaches(d, k, cfg, from, r) && starts(k) != Refused && s.held)
            && (p.Returned? ==>
                  && (p.runtime, p.device, p.err) == Attempt(Supervised(d, starts), k, cfg, from, r)
                  && p.shared.cmd.None?
                  && (p.shared.held <==> s.held || (Reaches(d, k, cfg, from, r) && starts(k) == LaunchFails)))
            && (p.Returned? && Reaches(d, k, cfg, from, r) && starts(k) == LaunchFails ==> p.err == Some(StartProxy))
  {
    hide RunStarted;
    var device := d.ensureDevice(k, cfg, from);
    if device.Some? && d.save(k, device.value) {
      var r2 := r.Saw(Bootstrapped(from, device)).Saw(Event.Saved(device.value, true));
      SameRuntime(d, starts, Answered(d.answers(k), starts(k)), cfg, device.value, r2);
      if Reaches(d, k, cfg, from, r) && starts(k) == LaunchFails {
        StartNotReached(d, Answered(d.answers(k), starts(k)), cfg, device.value, r2);
      }
    }
  }

  /**
   * A run returns if and only if no retry follows a failed launch: it hangs exactly when the launch of the first
   * attempt failed, the loaded state has credentials, and the retry gets as far as its own Start. When it returns,
   * it does what the daemon does on a supervisor that just fails.
   */
  lemma HangsIff<N>(d: Deps<N>, starts: nat -> Start, net: N)
    ensures var r := Runtime(net, false, []);
            var p := RunWith(d, starts, r);
            && (p.Hung? <==>
                  && d.config.Some? && d.loaded.Some?
                  && Reaches(d, 0, d.config.value, d.loaded.value, r) && starts(0) == LaunchFails
                  && ShouldRetry(d.loaded.value, Some(StartProxy))
                  && var r1 := Attempt(Supervised(d, starts), 0, d.config.value, d.loaded.value, r).0;
                     Reaches(d, 1, d.config.value, EMPTY, r1) && starts(1) != Refused)
            && (p.Returned? ==> (p.runtime, p.err) == RunApp(Supervised(d, starts), r))
  {
    var r := Runtime(net, false, []);
    if d.config.Some? && d.loaded.Some? {
      AttemptWithReturns(d, starts, 0, d.config.value, d.loaded.value, r, UNUSED);
      var first := AttemptWith(d, starts(0), 0, d.config.value, d.loaded.value, r, UNUSED);
      hide AttemptWith, Attempt, Reaches;
      AttemptWithReturns(d, starts, 1, d.config.value, EMPTY, first.runtime, first.shared);
    }
  }

  lemma AttemptEndsNotReady<N>(d: Deps<N>, k: nat, cfg: Config, from: State, r: Runtime<N>)
    requires !r.ready
    ensures !Attempt(d, k, cfg, from, r).0.ready
  {
  }

  /** A run that hangs leaves the network of its second attempt up, and the daemon is not ready. */
  lemma HungIsUp(d: Daemon, e: Env, b: Before, clock: nat, starts: nat -> Start)
    requires Fits(e, b) && Wired(d, e)
    ensures var p := RunWith(d, starts, Fresh(b, clock));
            p.Hung? ==> !p.runtime.ready && !Conserved(b, p.runtime.net.world.net)
  {
    var r := Fresh(b, clock);
    HangsIff(d, starts, r.net);
    if RunWith(d, starts, r).Hung? {
      var cfg, from := d.config.value, d.loaded.value;
      var b' := b.(forgetful := Tunnels(cfg.stack, V6));
      var first := AttemptWith(d, starts(0), 0, cfg, from, r, UNUSED);
      AttemptWithReturns(d, starts, 0, cfg, from, r, UNUSED);
      FirstLeaves(d, e, b', clock, starts);
      assert Wired(d, e) && Suits(e, b', cfg.stack);
      hide Left, Wired, Suits, Bypassed, AttemptWith, Fresh, Reaches, KeptBy;
      HungAttempt(d, e, b', starts(1), cfg, first.runtime, first.shared, Bypassed(d, e, 0) + Bypassed(d, e, 1));
    }
  }

  lemma FirstLeaves(d: Daemon, e: Env, b: Before, clock: nat, starts: nat -> Start)
    requires d.config.Some? && d.loaded.Some? && Wired(d, e) && Suits(e, b, d.config.value.stack)
    ensures var p := AttemptWith(d, starts(0), 0, d.config.value, d.loaded.value, Fresh(b, clock), UNUSED);
            p.Returned? ==>
              !p.runtime.ready && Left(e, b, d.config.value, p.runtime, Bypassed(d, e, 0) + Bypassed(d, e, 1))
  {
    var cfg, from, r := d.config.value, d.loaded.value, Fresh(b, clock);
    var d' := Supervised(d, starts);
    assert Bypassed(d', e, 0) == Bypassed(d, e, 0);
    assert Left(e, b, cfg, r, Bypassed(d, e, 0) + Bypassed(d, e, 1)) && Wired(d', e) && !r.ready;
    hide Left, Wired, Suits, Bypassed, Attempt, AttemptWith, Fresh, Reaches;
    AttemptLeaves(d', e, b, 0, r, Bypassed(d, e, 0) + Bypassed(d, e, 1));
    AttemptEndsNotReady(d', 0, cfg, from, r);
    AttemptWithReturns(d, starts, 0, cfg, from, r, UNUSED);
  }

  lemma HungAttempt(
    d: Daemon, e: Env, b: Before, start: Start, cfg: Config, r: Runtime<Network>, s: Shared, touched: set<Prefix>)
    requires Wired(d, e) && Suits(e, b, cfg.stack) && Left(e, b, cfg, r, touched) && !r.ready
    requires d.config == Some(cfg) && d.loaded.Some? && Bypassed(d, e, 1) <= touched
    requires AttemptWith(d, start, 1, cfg, EMPTY, r, s).Hung?
    ensures var r' := AttemptWith(d, start, 1, cfg, EMPTY, r, s).runtime;
            !r'.ready && !Conserved(b, r'.net.world.net)
  {
    var st := d.ensureDevice(1, cfg, EMPTY).value;
    var r1 := r.Saw(Bootstrapped(EMPTY, Some(st)));
    var r2 := r1.Saw(Event.Saved(st, true));
    var net := d.apply(r2.net, cfg, st).0;
    assert AttemptWith(d, start, 1, cfg, EMPTY, r, s).runtime
        == r2.(net := net).Saw(Applied(st, true)).Saw(ConfigWritten(true));
    hide AttemptWith;
    AppliedIsUp(e, b, r.net, touched, cfg, st);
  }
}
