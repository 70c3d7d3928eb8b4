/** What the calls of every run look like, whatever the dependencies answer. */
module Lifecycle {
  import opened Bytes
  import opened DeviceState
  import opened App

  // ---------- the history of a run ----------

  function LastSaved(t: seq<Event>): Option<State> {
    if t == [] then None
    else
      var last, rest := t[|t| - 1], t[..|t| - 1];
      if last.Saved? && last.ok then Some(last.state) else LastSaved(rest)
  }

  function LastReady(t: seq<Event>): bool {
    if t == [] then false
    else
      var last, rest := t[|t| - 1], t[..|t| - 1];
      if last.Ready? then last.ready else LastReady(rest)
  }

  function Count(t: seq<Event>, kind: Event -> bool): nat {
    if t == [] then 0 else Count(t[..|t| - 1], kind) + if kind(t[|t| - 1]) then 1 else 0
  }

  function Applies(t: seq<Event>): nat {
    Count(t, (e: Event) => e.Applied?)
  }

  /** Successful starts of the proxy that have not been stopped yet. */
  function Unstopped(t: seq<Event>): int {
    Count(t, (e: Event) => e == Started(true)) - Count(t, (e: Event) => e.Stopped?)
  }

  /** An attempt has got from Apply to a passed check just before position i. */
  predicate PassedAt(t: seq<Event>, i: nat)
    requires i <= |t|
  {
    && 4 <= i
    && t[i - 4].Applied? && t[i - 4].ok
    && t[i - 3] == ConfigWritten(true) && t[i - 2] == Started(true) && t[i - 1] == Checked(true)
  }

  /** What must be so when a call is made, in terms of the calls before it. */
  predicate Proper(t: seq<Event>, i: nat)
    requires i < |t|
  {
    match t[i]
    case Applied(st, _) => LastSaved(t[..i]) == Some(st) && Unstopped(t[..i]) == 0 && Applies(t[..i]) < 2
    case Ready(ready) => ready ==> PassedAt(t, i)
    case Started(_) => Unstopped(t[..i]) == 0 && 0 < i && t[i - 1] == ConfigWritten(true)
    case Stopped(_) => Unstopped(t[..i]) == 1 && !LastReady(t[..i])
    case CleanedUp(_) => 0 < i && t[i - 1].Stopped?
    case _ => true
  }

  ghost predicate Orderly(t: seq<Event>) {
    && (forall i | 0 <= i < |t| :: Proper(t, i))
    && Applies(t) <= 2 && Unstopped(t) == 0 && !LastReady(t)
  }

  // ---------- a monitor ----------

  datatype Phase = Idle | NetworkUp | Written | Running | Sick | Healthy | Serving | Leaving | Draining | Down

  datatype Monitor = Monitor(phase: Phase, saved: Option<State>, ready: bool, applies: nat)

  const START := Monitor(Idle, None, false, 0)

  function Observe(m: Monitor, e: Event): Option<Monitor> {
    match e
    case Bootstrapped(_, _) => if m.phase == Idle then Some(m) else None
    case Saved(st, ok) => if m.phase == Idle then Some(if ok then m.(saved := Some(st)) else m) else None
    case Applied(st, ok) =>
      if m.phase == Idle && m.saved == Some(st) && m.applies < 2 then
        Some(m.(phase := if ok then NetworkUp else Idle, applies := m.applies + 1))
      else None
    case ConfigWritten(ok) =>
      if m.phase == NetworkUp then Some(m.(phase := if ok then Written else Idle)) else None
    case Started(ok) => if m.phase == Written then Some(m.(phase := if ok then Running else Idle)) else None
    case Checked(ok) => if m.phase == Running then Some(m.(phase := if ok then Healthy else Sick)) else None
    case Ready(true) => if m.phase == Healthy then Some(m.(phase := Serving, ready := true)) else None
    case Ended(_) => if m.phase == Serving then Some(m.(phase := Leaving)) else None
    case Ready(false) => if m.phase == Leaving then Some(m.(phase := Draining, ready := false)) else None
    case Stopped(_) => if m.phase in {Sick, Draining} then Some(m.(phase := Down)) else None
    case CleanedUp(_) => if m.phase == Down then Some(m.(phase := Idle)) else None
  }

  function Watch(t: seq<Event>): Option<Monitor> {
    if t == [] then Some(START)
    else
      var m := Watch(t[..|t| - 1]);
      if m.None? then None else Observe(m.value, t[|t| - 1])
  }

  lemma WatchNext(t: seq<Event>, e: Event)
    ensures Watch(t + [e]) == if Watch(t).None? then None else Observe(Watch(t).value, e)
  {
    assert (t + [e])[..|t|] == t;
  }

  // ---------- the monitor knows the history ----------

  /** The last calls, as far as the phase tells. */
  predicate Tail(t: seq<Event>, phase: Phase) {
    var n := |t|;
    match phase
    case NetworkUp => 1 <= n && t[n - 1].Applied? && t[n - 1].ok
    case Written => 2 <= n && t[n - 2].Applied? && t[n - 2].ok && t[n - 1] == ConfigWritten(true)
    case Running =>
      3 <= n && t[n - 3].Applied? && t[n - 3].ok && t[n - 2] == ConfigWritten(true) && t[n - 1] == Started(true)
    case Healthy => PassedAt(t, n)
    case Down => 1 <= n && t[n - 1].Stopped?
    case _ => true
  }

  predicate Remembers(m: Monitor, t: seq<Event>) {
    && m.saved == LastSaved(t)
    && m.ready == LastReady(t)
    && m.applies == Applies(t) <= 2
    && (m.ready <==> m.phase in {Serving, Leaving})
    && Unstopped(t) == (if m.phase in {Running, Sick, Healthy, Serving, Leaving, Draining} then 1 else 0)
    && Tail(t, m.phase)
  }

  lemma {:induction false} MonitorRemembers(t: seq<Event>)
    ensures Watch(t).Some? ==> Remembers(Watch(t).value, t)
  {
    if t != [] {
      MonitorRemembers(t[..|t| - 1]);
    }
  }

  lemma {:induction false} WatchedPrefix(t: seq<Event>, i: nat)
    requires i <= |t| && Watch(t).Some?
    ensures Watch(t[..i]).Some?
  {
    if i < |t| {
      WatchedPrefix(t[..|t| - 1], i);
      assert t[..|t| - 1][..i] == t[..i];
    } else {
      assert t[..i] == t;
    }
  }

  /** A trace the monitor lets pass, and after which it is idle, is orderly. */
  lemma AcceptedIsOrderly(t: seq<Event>)
    requires Watch(t).Some? && Watch(t).value.phase == Idle
    ensures Orderly(t)
  {
    hide Watch, Observe, Proper;
    MonitorRemembers(t);
    forall i | 0 <= i < |t|
      ensures Proper(t, i)
    {
      WatchedPrefix(t, i);
      WatchedPrefix(t, i + 1);
      assert t[..i + 1] == t[..i] + [t[i]];
      WatchNext(t[..i], t[i]);
      MonitorRemembers(t[..i]);
      ObservedIsProper(Watch(t[..i]).value, t, i);
    }
  }

  lemma ObservedIsProper(m: Monitor, t: seq<Event>, i: nat)
    requires i < |t| && Remembers(m, t[..i]) && Observe(m, t[i]).Some?
    ensures Proper(t, i)
  {
    hide LastSaved, LastReady, Count;
    assert forall k | 0 <= k < i :: t[..i][k] == t[k];
  }

  // ---------- the daemon under the monitor ----------

  predicate Idling<N>(r: Runtime<N>, applies: nat) {
    Watch(r.trace).Some? && Watch(r.trace).value.phase == Idle && Watch(r.trace).value.applies == applies
    && !r.ready
  }

  predicate Settled<N>(r: Runtime<N>, st: State, applies: nat) {
    Idling(r, applies) && Watch(r.trace).value.saved == Some(st)
  }

  lemma CleanupIsSeen<N>(d: Deps<N>, r: Runtime<N>)
    ensures CleanNetwork(d, r).0.trace == r.trace + [CleanedUp(CleanNetwork(d, r).1)]
    ensures CleanNetwork(d, r).0.ready == r.ready
  {
  }

  lemma ServeIsAccepted<N>(d: Deps<N>, a: Answers, r: Runtime<N>, m: Monitor)
    requires Watch(r.trace) == Some(m) && m.phase == Healthy
    ensures Idling(Serve(d, a, r).0, m.applies)
  {
    hide Watch;
    WatchNext(r.trace, Ready(true));
    WatchNext(r.SetReady(true).trace, Ended(a.end));
    var r1 := r.SetReady(true).Saw(Ended(a.end));
    WatchNext(r1.trace, Ready(false));
    var r2 := r1.SetReady(false);
    WatchNext(r2.trace, Stopped(a.stopped));
    var r3 := r2.Saw(Stopped(a.stopped));
    CleanupIsSeen(d, r3);
    WatchNext(r3.trace, CleanedUp(CleanNetwork(d, r3).1));
  }

  lemma RunStartedIsAccepted<N>(d: Deps<N>, a: Answers, cfg: Config, st: State, r: Runtime<N>, applies: nat)
    requires Settled(r, st, applies) && applies < 2
    ensures Idling(RunStarted(d, a, cfg, st, r).0, applies + 1)
  {
    hide Watch;
    var (net, applied) := d.apply(r.net, cfg, st);
    WatchNext(r.trace, Applied(st, applied));
    var r1 := r.(net := net).Saw(Applied(st, applied));
    if applied {
      WatchNext(r1.trace, ConfigWritten(a.written));
      var r2 := r1.Saw(ConfigWritten(a.written));
      if a.written {
        WatchNext(r2.trace, Started(a.started));
        var r3 := r2.Saw(Started(a.started));
        if a.started {
          WatchNext(r3.trace, Checked(a.healthy));
          var r4 := r3.Saw(Checked(a.healthy));
          if a.healthy {
            ServeIsAccepted(d, a, r4, Watch(r4.trace).value);
          } else {
            WatchNext(r4.trace, Stopped(a.stopped));
            var r5 := r4.Saw(Stopped(a.stopped));
            CleanupIsSeen(d, r5);
            WatchNext(r5.trace, CleanedUp(CleanNetwork(d, r5).1));
          }
        }
      }
    }
  }

  lemma AttemptIsAccepted<N>(d: Deps<N>, k: nat, cfg: Config, from: State, r: Runtime<N>, applies: nat)
    requires Idling(r, applies) && applies < 2
    ensures var (r', used, _) := Attempt(d, k, cfg, from, r);
            Idling(r', if used.Some? then applies + 1 else applies)
  {
    hide Watch;
    var device := d.ensureDevice(k, cfg, from);
    WatchNext(r.trace, Bootstrapped(from, device));
    var r1 := r.Saw(Bootstrapped(from, device));
    if device.Some? {
      var saved := d.save(k, device.value);
      WatchNext(r1.trace, Saved(device.value, saved));
      var r2 := r1.Saw(Saved(device.value, saved));
      if saved {
        RunStartedIsAccepted(d, d.answers(k), cfg, device.value, r2, applies);
      }
    }
  }

  /**
   * For all answers of all dependencies: at most two attempts; each Apply gets the state last saved; ready is set
   * only straight after Apply, config, Start and check have all succeeded, and is off again before Stop; every
   * successful Start is stopped exactly once before the next attempt; and the run returns not ready.
   */
  lemma RunIsOrderly<N>(d: Deps<N>, net: N)
    ensures var r := RunApp(d, Runtime(net, false, [])).0;
            Orderly(r.trace) && !r.ready
  {
    var applies := RunIdles(d, net);
    AcceptedIsOrderly(RunApp(d, Runtime(net, false, [])).0.trace);
  }

  lemma RunIdles<N>(d: Deps<N>, net: N) returns (applies: nat)
    ensures Idling(RunApp(d, Runtime(net, false, [])).0, applies)
  {
    var r := Runtime(net, false, []);
    assert Idling(r, 0);
    hide Idling;
    applies := 0;
    if d.config.Some? && d.loaded.Some? {
      AttemptIsAccepted(d, 0, d.config.value, d.loaded.value, r, 0);
      var (r1, used, err) := Attempt(d, 0, d.config.value, d.loaded.value, r);
      if used.Some? {
        applies := 1;
        if ShouldRetry(d.loaded.value, err) {
          AttemptIsAccepted(d, 1, d.config.value, EMPTY, r1, 1);
          applies := if Attempt(d, 1, d.config.value, EMPTY, r1).1.Some? then 2 else 1;
        }
      }
    }
  }

  // ---------- the result ----------

  /** Ready, an end that was not a failure, then a clean stop and a clean network. */
  predicate CleanEnd(t: seq<Event>) {
    var n := |t|;
    && 5 <= n
    && t[n - 5] == Ready(true)
    && t[n - 4].Ended? && t[n - 4].end != Exited(true)
    && t[n - 3] == Ready(false) && t[n - 2] == Stopped(true) && t[n - 1] == CleanedUp(true)
  }

  lemma AttemptSucceedsIff<N>(d: Deps<N>, k: nat, cfg: Config, from: State, r: Runtime<N>)
    ensures var (r', used, err) := Attempt(d, k, cfg, from, r);
            && (err.None? <==> CleanEnd(r'.trace))
            && (used.None? ==> err.Some?)
  {
    var device := d.ensureDevice(k, cfg, from);
    var r1 := r.Saw(Bootstrapped(from, device));
    if device.Some? && d.save(k, device.value) {
      RunStartedSucceedsIff(d, d.answers(k), cfg, device.value, r1.Saw(Saved(device.value, true)));
    }
  }

  lemma RunStartedSucceedsIff<N>(d: Deps<N>, a: Answers, cfg: Config, st: State, r: Runtime<N>)
    ensures var (r', err) := RunStarted(d, a, cfg, st, r);
            err.None? <==> CleanEnd(r'.trace)
  {
    var (net, applied) := d.apply(r.net, cfg, st);
    var r2 := r.(net := net).Saw(Applied(st, applied)).Saw(ConfigWritten(a.written));
    var r4 := r2.Saw(Started(a.started)).Saw(Checked(a.healthy));
    if applied && a.written && a.started {
      if a.healthy {
        var r7 := r4.SetReady(true).Saw(Ended(a.end)).SetReady(false).Saw(Stopped(a.stopped));
        var cleaned := CleanNetwork(d, r7).1;
        var t := RunStarted(d, a, cfg, st, r).0.trace;
        assert t == r4.trace + [Ready(true), Ended(a.end), Ready(false), Stopped(a.stopped), CleanedUp(cleaned)];
      } else {
        var cleaned := CleanNetwork(d, r4.Saw(Stopped(a.stopped))).1;
        var t := RunStarted(d, a, cfg, st, r).0.trace;
        assert t == r4.trace + [Stopped(a.stopped), CleanedUp(cleaned)];
        assert t[|t| - 3] == Checked(false);
      }
    }
  }

  /** Run returns without an error if and only if its last attempt served, ended well and was undone cleanly. */
  lemma RunSucceedsIff<N>(d: Deps<N>, net: N)
    ensures var (r, err) := RunApp(d, Runtime(net, false, []));
            err.None? <==> CleanEnd(r.trace)
  {
    var r := Runtime(net, false, []);
    if d.config.Some? && d.loaded.Some? {
      AttemptSucceedsIff(d, 0, d.config.value, d.loaded.value, r);
      var (r1, used, err) := Attempt(d, 0, d.config.value, d.loaded.value, r);
      AttemptSucceedsIff(d, 1, d.config.value, EMPTY, r1);
    }
  }

  // ---------- the retry ----------

  /** An attempt begins with its one bootstrap, and leaves what was called before as it is. */
  lemma AttemptBootstrapsOnce<N>(d: Deps<N>, k: nat, cfg: Config, from: State, r: Runtime<N>)
    ensures var t := Attempt(d, k, cfg, from, r).0.trace;
            && r.trace + [Bootstrapped(from, d.ensureDevice(k, cfg, from))] <= t
            && forall i | |r.trace| < i < |t| :: !t[i].Bootstrapped?
  {
    var device := d.ensureDevice(k, cfg, from);
    var r1 := r.Saw(Bootstrapped(from, device));
    if device.Some? {
      var saved := d.save(k, device.value);
      var r2 := r1.Saw(Saved(device.value, saved));
      if saved {
        RunStartedAdds(d, d.answers(k), cfg, device.value, r2);
      }
    }
    hide RunStarted;
  }

  /** t goes on from before without a bootstrap. */
  predicate GoesOn(before: seq<Event>, t: seq<Event>) {
    before <= t && forall i | |before| <= i < |t| :: !t[i].Bootstrapped?
  }

  lemma RunStartedAdds<N>(d: Deps<N>, a: Answers, cfg: Config, st: State, r: Runtime<N>)
    ensures GoesOn(r.trace, RunStarted(d, a, cfg, st, r).0.trace)
  {
    var (net, applied) := d.apply(r.net, cfg, st);
    var r1 := r.(net := net).Saw(Applied(st, applied));
    var r3 := r1.Saw(ConfigWritten(a.written)).Saw(Started(a.started));
    if applied && a.written && a.started {
      LaterAdds(d, a, r3.Saw(Checked(a.healthy)));
      hide Serve, CleanNetwork;
    }
  }

  lemma LaterAdds<N>(d: Deps<N>, a: Answers, r: Runtime<N>)
    ensures GoesOn(r.trace, Serve(d, a, r).0.trace)
    ensures GoesOn(r.trace, CleanNetwork(d, r.Saw(Stopped(a.stopped))).0.trace)
  {
    var r1 := r.SetReady(true).Saw(Ended(a.end));
    var r3 := r1.SetReady(false).Saw(Stopped(a.stopped));
    assert GoesOn(r.trace, r1.trace) && GoesOn(r1.trace, r3.trace);
  }

  /** What an attempt got to before its runtime, and that its runtime failed. */
  predicate FailedRunning<N>(d: Deps<N>, cfg: Config, from: State, after: seq<Event>) {
    d.ensureDevice(0, cfg, from).Some? && d.save(0, d.ensureDevice(0, cfg, from).value) && !CleanEnd(after)
  }

  /**
   * A second bootstrap happens if and only if the first attempt got past saving and then did not end cleanly, and the
   * state it had loaded has a device id, an access token and a private key. It starts from the empty state.
   */
  lemma RetriesIff<N>(d: Deps<N>, net: N)
    requires d.config.Some? && d.loaded.Some?
    ensures var cfg, loaded := d.config.value, d.loaded.value;
            var t := RunApp(d, Runtime(net, false, [])).0.trace;
            var t1 := Attempt(d, 0, cfg, loaded, Runtime(net, false, [])).0.trace;
            && t1 <= t && t[0] == Bootstrapped(loaded, d.ensureDevice(0, cfg, loaded))
            && ((exists i :: 0 < i < |t| && t[i].Bootstrapped?)
                <==> FailedRunning(d, cfg, loaded, t1)
                     && loaded.deviceId != [] && loaded.accessToken != [] && loaded.privateKey != [])
            && forall i | 0 < i < |t| && t[i].Bootstrapped? ::
                 && i == |t1| && t[i].device == d.ensureDevice(1, cfg, t[i].from)
                 && t[i].from.deviceId == [] && t[i].from.accessToken == [] && t[i].from.privateKey == []
  {
    var r := Runtime(net, false, []);
    var cfg, loaded := d.config.value, d.loaded.value;
    var (r1, used, err) := Attempt(d, 0, cfg, loaded, r);
    AttemptSucceedsIff(d, 0, cfg, loaded, r);
    AttemptBootstrapsOnce(d, 0, cfg, loaded, r);
    AttemptBootstrapsOnce(d, 1, cfg, EMPTY, r1);
    assert used.Some? <==> d.ensureDevice(0, cfg, loaded).Some? && d.save(0, d.ensureDevice(0, cfg, loaded).value);
    hide Attempt, CleanEnd;
    var t := RunApp(d, r).0.trace;
    if used.Some? && ShouldRetry(loaded, err) {
      assert t[|r1.trace|].Bootstrapped?;
    }
  }

  /** A run that cannot load its configuration or state calls nothing. */
  lemma NothingLoaded<N>(d: Deps<N>, r: Runtime<N>)
    requires d.config.None? || d.loaded.None?
    ensures RunApp(d, r).0 == r && RunApp(d, r).1.Some?
  {
  }
}
