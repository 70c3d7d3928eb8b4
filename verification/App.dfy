/** The run of the daemon: bootstrap, persist, serve, and one retry with a fresh registration. */
module App {
  import opened Bytes
  import opened DeviceState

  /** How the wait for the end of the run ends. */
  datatype Wait = Cancelled | Exited(failed: bool)

  /** What the dependencies other than the network answer in one attempt. */
  datatype Answers = Answers(written: bool, started: bool, healthy: bool, end: Wait, stopped: bool)

  /** The dependencies of attempts 0 and 1; the network manager works on a state of its own. */
  datatype Deps<!N> = Deps(
    config: Option<Config>,
    loaded: Option<State>,
    ensureDevice: (nat, Config, State) -> Option<State>,
    save: (nat, State) -> bool,
    apply: (N, Config, State) -> (N, bool),
    cleanup: N -> (N, bool),
    answers: nat -> Answers)

  datatype Event =
    | Bootstrapped(from: State, device: Option<State>)
    | Saved(state: State, ok: bool)
    | Applied(state: State, ok: bool)
    | ConfigWritten(ok: bool)
    | Started(ok: bool)
    | Checked(ok: bool)
    | Ready(ready: bool)
    | Ended(end: Wait)
    | Stopped(ok: bool)
    | CleanedUp(ok: bool)

  datatype Error =
    | LoadConfig | LoadState | Bootstrap | SaveState
    | ApplyFailed | WriteProxyConfig | StartProxy | Probe | ProxyExited | StopProxy | CleanupFailed
    | Joined(first: Error, second: Error)

  /** The network, the readiness flag, and the calls made so far. */
  datatype Runtime<N> = Runtime(net: N, ready: bool, trace: seq<Event>) {
    function Saw(event: Event): Runtime<N> {
      this.(trace := trace + [event])
    }

    function SetReady(ready: bool): Runtime<N> {
      this.(ready := ready).Saw(Event.Ready(ready))
    }
  }

  function CleanNetwork<N>(d: Deps<N>, r: Runtime<N>): (Runtime<N>, bool) {
    var (net, ok) := d.cleanup(r.net);
    (r.(net := net).Saw(CleanedUp(ok)), ok)
  }

  /** The end of a run that got as far as being ready; the first of three errors is reported. */
  function Serve<N>(d: Deps<N>, a: Answers, r: Runtime<N>): (Runtime<N>, Option<Error>) {
    var (r', cleaned) := CleanNetwork(d, r.SetReady(true).Saw(Ended(a.end)).SetReady(false).Saw(Stopped(a.stopped)));
    (r',
     if a.end.Exited? && a.end.failed then Some(ProxyExited)
     else if !a.stopped then Some(StopProxy)
     else if !cleaned then Some(CleanupFailed)
     else None)
  }

  /** runStartedRuntime. */
  function RunStarted<N>(d: Deps<N>, a: Answers, cfg: Config, st: State, r: Runtime<N>): (Runtime<N>, Option<Error>) {
    var (net, applied) := d.apply(r.net, cfg, st);
    var r1 := r.(net := net).Saw(Applied(st, applied));
    if !applied then (r1, Some(ApplyFailed))
    else
      var r2 := r1.Saw(ConfigWritten(a.written));
      if !a.written then (r2, Some(WriteProxyConfig))
      else
        var r3 := r2.Saw(Started(a.started));
        if !a.started then (r3, Some(StartProxy))
        else
          var r4 := r3.Saw(Checked(a.healthy));
          if !a.healthy then (CleanNetwork(d, r4.Saw(Stopped(a.stopped))).0, Some(Probe)) else Serve(d, a, r4)
  }

  predicate ShouldRetry(loaded: State, err: Option<Error>) {
    err.Some? && loaded.deviceId != [] && loaded.accessToken != [] && loaded.privateKey != []
  }

  /** Bootstrap from a state, save what comes of it, and run with it. */
  function Attempt<N>(d: Deps<N>, k: nat, cfg: Config, from: State, r: Runtime<N>)
    : (Runtime<N>, Option<State>, Option<Error>)
  {
    var device := d.ensureDevice(k, cfg, from);
    var r1 := r.Saw(Bootstrapped(from, device));
    if device.None? then (r1, None, Some(Bootstrap))
    else
      var saved := d.save(k, device.value);
      var r2 := r1.Saw(Saved(device.value, saved));
      if !saved then (r2, None, Some(SaveState))
      else
        var (r3, err) := RunStarted(d, d.answers(k), cfg, device.value, r2);
        (r3, device, err)
  }

  /** App.Run. Only a failure of the runtime itself is retried, and only once. */
  function RunApp<N>(d: Deps<N>, r: Runtime<N>): (Runtime<N>, Option<Error>) {
    if d.config.None? then (r, Some(LoadConfig))
    else if d.loaded.None? then (r, Some(LoadState))
    else
      var (r1, used, err) := Attempt(d, 0, d.config.value, d.loaded.value, r);
      if used.None? || !ShouldRetry(d.loaded.value, err) then (r1, err)
      else
        var (r2, _, retryErr) := Attempt(d, 1, d.config.value, EMPTY, r1);
        (r2, if retryErr.Some? then Some(Joined(err.value, retryErr.value)) else None)
  }

  class App<N> {
    const deps: Deps<N>
    var net: N
    var ready: bool
    var trace: seq<Event>

    constructor (deps: Deps<N>, net: N)
      ensures this.deps == deps && View() == Runtime(net, false, [])
    {
      this.deps, this.net, ready, trace := deps, net, false, [];
    }

    ghost function View(): Runtime<N>
      reads this
    {
      Runtime(net, ready, trace)
    }

    method Run() returns (err: Option<Error>)
      modifies this
      ensures (View(), err) == RunApp(deps, old(View()))
    {
      if deps.config.None? {
        return Some(LoadConfig);
      }
      var cfg := deps.config.value;
      if deps.loaded.None? {
        return Some(LoadState);
      }
      var loaded := deps.loaded.value;
      var current := deps.ensureDevice(0, cfg, loaded);
      trace := trace + [Bootstrapped(loaded, current)];
      if current.None? {
        return Some(Bootstrap);
      }
      var saved := deps.save(0, current.value);
      trace := trace + [Saved(current.value, saved)];
      if !saved {
        return Some(SaveState);
      }
      err := RunStartedRuntime(deps.answers(0), cfg, current.value);
      if err.Some? {
        if ShouldRetry(loaded, err) {
          var renewed := deps.ensureDevice(1, cfg, EMPTY);
          trace := trace + [Bootstrapped(EMPTY, renewed)];
          if renewed.None? {
            return Some(Joined(err.value, Bootstrap));
          }
          var renewedSaved := deps.save(1, renewed.value);
          trace := trace + [Saved(renewed.value, renewedSaved)];
          if !renewedSaved {
            return Some(Joined(err.value, SaveState));
          }
          var retryErr := RunStartedRuntime(deps.answers(1), cfg, renewed.value);
          if retryErr.Some? {
            return Some(Joined(err.value, retryErr.value));
          }
          return None;
        }
        return err;
      }
      return None;
    }

    method RunStartedRuntime(a: Answers, cfg: Config, st: State) returns (err: Option<Error>)
      modifies this
      ensures (View(), err) == RunStarted(deps, a, cfg, st, old(View()))
    {
      var applied := deps.apply(net, cfg, st);
      net, trace := applied.0, trace + [Applied(st, applied.1)];
      if !applied.1 {
        return Some(ApplyFailed);
      }
      trace := trace + [ConfigWritten(a.written)];
      if !a.written {
        return Some(WriteProxyConfig);
      }
      trace := trace + [Started(a.started)];
      if !a.started {
        return Some(StartProxy);
      }
      trace := trace + [Checked(a.healthy)];
      if !a.healthy {
        var _ := StopAndCleanup(a);
        return Some(Probe);
      }
      ghost var checked := View();
      assert RunStarted(deps, a, cfg, st, old(View())) == Serve(deps, a, checked);
      hide RunStarted;
      ready, trace := true, trace + [Ready(true)];
      var runErr := None;
      trace := trace + [Ended(a.end)];
      match a.end {
        case Cancelled =>
        case Exited(failed) =>
          if failed {
            runErr := Some(ProxyExited);
          }
      }
      ready, trace := false, trace + [Ready(false)];
      var cleaned := StopAndCleanup(a);
      if runErr.Some? {
        return runErr;
      }
      if !a.stopped {
        return Some(StopProxy);
      }
      if !cleaned {
        return Some(CleanupFailed);
      }
      return None;
    }

    method StopAndCleanup(a: Answers) returns (cleaned: bool)
      modifies this
      ensures (View(), cleaned) == CleanNetwork(deps, old(View()).Saw(Stopped(a.stopped)))
    {
      trace := trace + [Stopped(a.stopped)];
      var after := deps.cleanup(net);
      net, trace := after.0, trace + [CleanedUp(after.1)];
      cleaned := after.1;
    }
  }
}
