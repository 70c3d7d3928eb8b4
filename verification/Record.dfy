/**
 * The calls of a run are a faithful record of it: each call directly follows the one that led to it, each recorded
 * answer is the one that was given, the network is what the recorded calls made of it, and the error names the call
 * that failed.
 */
module Record {
  import opened Bytes
  import opened DeviceState
  import opened App
  import opened Lifecycle

  // ---------- what a record says ----------

  /** Which call can directly follow which. */
  predicate Leads(last: Event, e: Event) {
    match e
    case Bootstrapped(_, _) => Failed(last) || last.CleanedUp?
    case Saved(st, _) => last.Bootstrapped? && last.device == Some(st)
    case Applied(st, _) => last == Event.Saved(st, true)
    case ConfigWritten(_) => last.Applied? && last.ok
    case Started(_) => last == ConfigWritten(true)
    case Checked(_) => last == Started(true)
    case Ready(ready) => if ready then last == Checked(true) else last.Ended?
    case Ended(_) => last == Ready(true)
    case Stopped(_) => last in {Checked(false), Ready(false)}
    case CleanedUp(_) => last.Stopped?
  }

  ghost predicate Links(t: seq<Event>, i: nat)
    requires i < |t|
  {
    if i == 0 then t[0].Bootstrapped? else Leads(t[i - 1], t[i])
  }

  /** A failure of the runtime that leaves nothing to stop. */
  predicate Failed(e: Event) {
    e in {ConfigWritten(false), Started(false)} || (e.Applied? && !e.ok)
  }

  /** The number of attempts begun. */
  ghost function Attempts(t: seq<Event>): nat {
    if t == [] then 0 else Attempts(t[..|t| - 1]) + if t[|t| - 1].Bootstrapped? then 1 else 0
  }

  /** What a call makes of the network. */
  ghost function Changed<N>(d: Deps<N>, cfg: Config, net: N, e: Event): N {
    if e.Applied? then d.apply(net, cfg, e.state).0 else if e.CleanedUp? then d.cleanup(net).0 else net
  }

  /** The network after the calls of a trace. */
  ghost function NetAfter<N>(d: Deps<N>, cfg: Config, net: N, t: seq<Event>): N {
    if t == [] then net else Changed(d, cfg, NetAfter(d, cfg, net, t[..|t| - 1]), t[|t| - 1])
  }

  /** An event records what the dependency answers when so many attempts have begun. */
  ghost predicate Gives<N>(d: Deps<N>, cfg: Config, begun: nat, net: N, e: Event) {
    match e
    case Bootstrapped(from, device) => device == d.ensureDevice(begun, cfg, from)
    case Saved(st, ok) => 0 < begun && ok == d.save(begun - 1, st)
    case Applied(st, ok) => ok == d.apply(net, cfg, st).1
    case ConfigWritten(ok) => 0 < begun && ok == d.answers(begun - 1).written
    case Started(ok) => 0 < begun && ok == d.answers(begun - 1).started
    case Checked(ok) => 0 < begun && ok == d.answers(begun - 1).healthy
    case Ready(_) => true
    case Ended(end) => 0 < begun && end == d.answers(begun - 1).end
    case Stopped(ok) => 0 < begun && ok == d.answers(begun - 1).stopped
    case CleanedUp(ok) => ok == d.cleanup(net).1
  }

  ghost predicate Tells<N>(d: Deps<N>, cfg: Config, net: N, before: seq<Event>, e: Event) {
    Gives(d, cfg, Attempts(before), NetAfter(d, cfg, net, before), e)
  }

  ghost predicate Recorded<N>(d: Deps<N>, cfg: Config, net: N, r: Runtime<N>) {
    && r.net == NetAfter(d, cfg, net, r.trace)
    && r.ready == LastReady(r.trace)
    && forall i | 0 <= i < |r.trace| :: Links(r.trace, i) && Tells(d, cfg, net, r.trace[..i], r.trace[i])
  }

  // ---------- one more call ----------

  lemma LinksStay(t: seq<Event>, e: Event, i: nat)
    requires i < |t|
    ensures Links(t + [e], i) <==> Links(t, i)
    ensures (t + [e])[..i] == t[..i] && (t + [e])[i] == t[i]
  {
    hide Leads;
    assert 0 < i ==> (t + [e])[i - 1] == t[i - 1];
  }

  lemma NetNext<N>(d: Deps<N>, cfg: Config, net: N, t: seq<Event>, e: Event)
    ensures NetAfter(d, cfg, net, t + [e]) == Changed(d, cfg, NetAfter(d, cfg, net, t), e)
    ensures Attempts(t + [e]) == Attempts(t) + if e.Bootstrapped? then 1 else 0
    ensures LastReady(t + [e]) == if e.Ready? then e.ready else LastReady(t)
  {
    assert (t + [e])[..|t|] == t;
  }

  /** A call that links up and tells the truth extends the record. */
  lemma OneMore<N>(d: Deps<N>, cfg: Config, net: N, r: Runtime<N>, r': Runtime<N>, e: Event)
    requires Recorded(d, cfg, net, r) && r'.trace == r.trace + [e]
    requires Links(r'.trace, |r.trace|) && Tells(d, cfg, net, r.trace, e)
    requires r'.ready == if e.Ready? then e.ready else r.ready
    requires r'.net == Changed(d, cfg, r.net, e)
    ensures Recorded(d, cfg, net, r')
    ensures Attempts(r'.trace) == Attempts(r.trace) + if e.Bootstrapped? then 1 else 0
  {
    hide Tells, Links, Changed, NetAfter, Attempts, LastReady;
    var t, t' := r.trace, r'.trace;
    NetNext(d, cfg, net, t, e);
    forall i | 0 <= i < |t'|
      ensures Links(t', i) && Tells(d, cfg, net, t'[..i], t'[i])
    {
      if i < |t| {
        LinksStay(t, e, i);
      } else {
        assert t'[..i] == t;
      }
    }
  }

  // ---------- every run ----------

  /** The record of a run that is in its attempt k, and the last call so far. */
  ghost predicate Within<N>(d: Deps<N>, cfg: Config, net: N, r: Runtime<N>, k: nat, last: Event) {
    Recorded(d, cfg, net, r) && Attempts(r.trace) == k + 1 && 0 < |r.trace| && r.trace[|r.trace| - 1] == last
  }

  lemma Then<N>(d: Deps<N>, cfg: Config, net: N, r: Runtime<N>, k: nat, last: Event, r': Runtime<N>, e: Event)
    requires Within(d, cfg, net, r, k, last) && r'.trace == r.trace + [e] && !e.Bootstrapped?
    requires Leads(last, e) && Gives(d, cfg, k + 1, r.net, e)
    requires r'.ready == if e.Ready? then e.ready else r.ready
    requires r'.net == Changed(d, cfg, r.net, e)
    ensures Within(d, cfg, net, r', k, e)
  {
    hide Leads, Gives, Changed, Attempts, NetAfter, LastReady;
    assert Tells(d, cfg, net, r.trace, e);
    OneMore(d, cfg, net, r, r', e);
  }

  lemma CleanupIsRecorded<N>(d: Deps<N>, cfg: Config, net: N, r: Runtime<N>, k: nat, ok: bool)
    requires Within(d, cfg, net, r, k, Stopped(ok))
    ensures var (r', cleaned) := CleanNetwork(d, r); Within(d, cfg, net, r', k, CleanedUp(cleaned))
  {
    hide Within, Recorded;
    var (r', cleaned) := CleanNetwork(d, r);
    Then(d, cfg, net, r, k, Stopped(ok), r', CleanedUp(cleaned));
  }

  lemma ServeIsRecorded<N>(d: Deps<N>, cfg: Config, net: N, r: Runtime<N>, k: nat)
    requires Within(d, cfg, net, r, k, Checked(true))
    ensures exists ok :: Within(d, cfg, net, Serve(d, d.answers(k), r).0, k, CleanedUp(ok))
  {
    hide Within;
    var a := d.answers(k);
    var r1 := r.SetReady(true);
    Then(d, cfg, net, r, k, Checked(true), r1, Ready(true));
    var r2 := r1.Saw(Ended(a.end));
    Then(d, cfg, net, r1, k, Ready(true), r2, Ended(a.end));
    var r3 := r2.SetReady(false);
    Then(d, cfg, net, r2, k, Ended(a.end), r3, Ready(false));
    var r4 := r3.Saw(Stopped(a.stopped));
    Then(d, cfg, net, r3, k, Ready(false), r4, Stopped(a.stopped));
    CleanupIsRecorded(d, cfg, net, r4, k, a.stopped);
  }

  /** The last call of a runtime: the failure that ended it, or the cleanup. */
  ghost predicate Finished<N>(d: Deps<N>, cfg: Config, net: N, r: Runtime<N>, k: nat) {
    exists e :: Within(d, cfg, net, r, k, e) && (Failed(e) || e.CleanedUp?)
  }

  lemma Ends<N>(d: Deps<N>, cfg: Config, net: N, r: Runtime<N>, k: nat, e: Event)
    requires Within(d, cfg, net, r, k, e) && (Failed(e) || e.CleanedUp?)
    ensures Finished(d, cfg, net, r, k)
  {
    hide Within;
  }

  lemma RunStartedIsRecorded<N>(d: Deps<N>, cfg: Config, net: N, st: State, r: Runtime<N>, k: nat)
    requires Within(d, cfg, net, r, k, Event.Saved(st, true))
    ensures Finished(d, cfg, net, RunStarted(d, d.answers(k), cfg, st, r).0, k)
  {
    hide Within, Serve, CleanNetwork, Finished;
    var a := d.answers(k);
    var (after, applied) := d.apply(r.net, cfg, st);
    var r1 := r.(net := after).Saw(Applied(st, applied));
    Then(d, cfg, net, r, k, Event.Saved(st, true), r1, Applied(st, applied));
    if !applied {
      Ends(d, cfg, net, r1, k, Applied(st, false));
    } else {
      var r2 := r1.Saw(ConfigWritten(a.written));
      Then(d, cfg, net, r1, k, Applied(st, true), r2, ConfigWritten(a.written));
      if !a.written {
        Ends(d, cfg, net, r2, k, ConfigWritten(false));
      } else {
        var r3 := r2.Saw(Started(a.started));
        Then(d, cfg, net, r2, k, ConfigWritten(true), r3, Started(a.started));
        if !a.started {
          Ends(d, cfg, net, r3, k, Started(false));
        } else {
          CheckedIsRecorded(d, cfg, net, r3, k);
        }
      }
    }
  }

  lemma CheckedIsRecorded<N>(d: Deps<N>, cfg: Config, net: N, r: Runtime<N>, k: nat)
    requires Within(d, cfg, net, r, k, Started(true))
    ensures var a := d.answers(k);
            var r1 := r.Saw(Checked(a.healthy));
            Finished(d, cfg, net,
                     if a.healthy then Serve(d, a, r1).0 else CleanNetwork(d, r1.Saw(Stopped(a.stopped))).0, k)
  {
    hide Within, Serve, CleanNetwork;
    var a := d.answers(k);
    var r1 := r.Saw(Checked(a.healthy));
    Then(d, cfg, net, r, k, Started(true), r1, Checked(a.healthy));
    if a.healthy {
      ServeIsRecorded(d, cfg, net, r1, k);
    } else {
      var r2 := r1.Saw(Stopped(a.stopped));
      Then(d, cfg, net, r1, k, Checked(false), r2, Stopped(a.stopped));
      CleanupIsRecorded(d, cfg, net, r2, k, a.stopped);
    }
  }

  /** Where a new attempt can begin. */
  ghost predicate Between<N>(d: Deps<N>, cfg: Config, net: N, r: Runtime<N>, k: nat) {
    && Recorded(d, cfg, net, r) && Attempts(r.trace) == k
    && (r.trace != [] ==> Failed(r.trace[|r.trace| - 1]) || r.trace[|r.trace| - 1].CleanedUp?)
  }

  lemma Begins<N>(d: Deps<N>, cfg: Config, net: N, r: Runtime<N>, k: nat, r': Runtime<N>, e: Event)
    requires Between(d, cfg, net, r, k) && e.Bootstrapped? && e.device == d.ensureDevice(k, cfg, e.from)
    requires r' == r.Saw(e)
    ensures Within(d, cfg, net, r', k, e)
  {
    hide Failed, Attempts, NetAfter, LastReady;
    assert Tells(d, cfg, net, r.trace, e);
    assert Links(r'.trace, |r.trace|);
    hide Recorded, Tells, Links;
    OneMore(d, cfg, net, r, r', e);
  }

  lemma WithinIsRecorded<N>(d: Deps<N>, cfg: Config, net: N, r: Runtime<N>, k: nat, e: Event)
    requires Within(d, cfg, net, r, k, e)
    ensures Recorded(d, cfg, net, r)
  {
    hide Recorded, Attempts;
  }

  lemma FinishedIsBetween<N>(d: Deps<N>, cfg: Config, net: N, r: Runtime<N>, k: nat)
    requires Finished(d, cfg, net, r, k)
    ensures Between(d, cfg, net, r, k + 1)
  {
    hide Recorded, Attempts, Failed;
  }

  lemma BetweenIsRecorded<N>(d: Deps<N>, cfg: Config, net: N, r: Runtime<N>, k: nat)
    requires Between(d, cfg, net, r, k)
    ensures Recorded(d, cfg, net, r)
  {
    hide Recorded, Attempts, Failed;
  }

  /** An attempt goes on with the record that the one before it left, which ended in a failure or a cleanup. */
  lemma AttemptIsRecorded<N>(d: Deps<N>, cfg: Config, net: N, from: State, r: Runtime<N>, k: nat)
    requires Between(d, cfg, net, r, k)
    ensures var (r', used, _) := Attempt(d, k, cfg, from, r);
            Recorded(d, cfg, net, r') && (used.Some? ==> Between(d, cfg, net, r', k + 1))
  {
    hide Within, Recorded, Between, Finished, RunStarted;
    var device := d.ensureDevice(k, cfg, from);
    var r1 := r.Saw(Bootstrapped(from, device));
    Begins(d, cfg, net, r, k, r1, Bootstrapped(from, device));
    if device.None? {
      WithinIsRecorded(d, cfg, net, r1, k, Bootstrapped(from, device));
    } else {
      var saved := d.save(k, device.value);
      var r2 := r1.Saw(Event.Saved(device.value, saved));
      Then(d, cfg, net, r1, k, Bootstrapped(from, device), r2, Event.Saved(device.value, saved));
      if saved {
        RunStartedIsRecorded(d, cfg, net, device.value, r2, k);
        var r3 := RunStarted(d, d.answers(k), cfg, device.value, r2).0;
        FinishedIsBetween(d, cfg, net, r3, k);
        BetweenIsRecorded(d, cfg, net, r3, k + 1);
      } else {
        WithinIsRecorded(d, cfg, net, r2, k, Event.Saved(device.value, saved));
      }
    }
  }

  /** For all answers of all dependencies, the calls of a run are a faithful record of it. */
  lemma RunIsRecorded<N>(d: Deps<N>, net: N)
    requires d.config.Some?
    ensures Recorded(d, d.config.value, net, RunApp(d, Runtime(net, false, [])).0)
  {
    var r, cfg := Runtime(net, false, []), d.config.value;
    assert Between(d, cfg, net, r, 0);
    hide Between, Recorded, Attempt;
    BetweenIsRecorded(d, cfg, net, r, 0);
    if d.loaded.Some? {
      AttemptIsRecorded(d, cfg, net, d.loaded.value, r, 0);
      var (r1, used, err) := Attempt(d, 0, cfg, d.loaded.value, r);
      if used.Some? {
        AttemptIsRecorded(d, cfg, net, EMPTY, r1, 1);
      }
    }
  }

  // ---------- the error ----------

  /** The calls that an attempt with an error ends with: the one that failed, and what came after it. */
  ghost predicate Blames(t: seq<Event>, e: Error) {
    var n := |t|;
    match e
    case Bootstrap => 1 <= n && t[n - 1].Bootstrapped? && t[n - 1].device.None?
    case SaveState => 1 <= n && t[n - 1].Saved? && !t[n - 1].ok
    case ApplyFailed => 1 <= n && t[n - 1].Applied? && !t[n - 1].ok
    case WriteProxyConfig => 1 <= n && t[n - 1] == ConfigWritten(false)
    case StartProxy => 1 <= n && t[n - 1] == Started(false)
    case Probe => 3 <= n && t[n - 3] == Checked(false) && t[n - 2].Stopped? && t[n - 1].CleanedUp?
    case ProxyExited => Served(t) && t[n - 4] == Ended(Exited(true))
    case StopProxy => Served(t) && t[n - 4] != Ended(Exited(true)) && t[n - 2] == Stopped(false)
    case CleanupFailed =>
      Served(t) && t[n - 4] != Ended(Exited(true)) && t[n - 2] == Stopped(true) && t[n - 1] == CleanedUp(false)
    case _ => false
  }

  ghost predicate Served(t: seq<Event>) {
    var n := |t|;
    5 <= n && t[n - 5] == Ready(true) && t[n - 4].Ended? && t[n - 3] == Ready(false) && t[n - 2].Stopped?
    && t[n - 1].CleanedUp?
  }

  lemma ServeBlames<N>(d: Deps<N>, a: Answers, r: Runtime<N>)
    ensures var (r', err) := Serve(d, a, r);
            err.Some? ==> Blames(r'.trace, err.value)
  {
    var r4 := r.SetReady(true).Saw(Ended(a.end)).SetReady(false).Saw(Stopped(a.stopped));
    var cleaned := CleanNetwork(d, r4).1;
    var t := Serve(d, a, r).0.trace;
    assert t == r.trace + [Ready(true), Ended(a.end), Ready(false), Stopped(a.stopped), CleanedUp(cleaned)];
  }

  lemma ProbeBlames<N>(d: Deps<N>, a: Answers, r: Runtime<N>)
    ensures Blames(CleanNetwork(d, r.Saw(Checked(false)).Saw(Stopped(a.stopped))).0.trace, Probe)
  {
    var t := CleanNetwork(d, r.Saw(Checked(false)).Saw(Stopped(a.stopped))).0.trace;
    assert t[|t| - 3] == Checked(false);
  }

  lemma RunStartedBlames<N>(d: Deps<N>, a: Answers, cfg: Config, st: State, r: Runtime<N>)
    ensures var (r', err) := RunStarted(d, a, cfg, st, r);
            err.Some? ==> Blames(r'.trace, err.value)
  {
    hide Serve, CleanNetwork, Served;
    var (net, applied) := d.apply(r.net, cfg, st);
    var r1 := r.(net := net).Saw(Applied(st, applied));
    var r3 := r1.Saw(ConfigWritten(a.written)).Saw(Started(a.started));
    ProbeBlames(d, a, r3);
    ServeBlames(d, a, r3.Saw(Checked(a.healthy)));
  }

  lemma AttemptBlames<N>(d: Deps<N>, k: nat, cfg: Config, from: State, r: Runtime<N>)
    ensures var (r', _, err) := Attempt(d, k, cfg, from, r);
            err.Some? ==> Blames(r'.trace, err.value)
  {
    var device := d.ensureDevice(k, cfg, from);
    var r1 := r.Saw(Bootstrapped(from, device));
    if device.Some? && d.save(k, device.value) {
      RunStartedBlames(d, d.answers(k), cfg, device.value, r1.Saw(Event.Saved(device.value, true)));
      hide RunStarted;
    }
  }

  /**
   * The error of a run blames the call that failed, and no other error would: the first failure that matters of its
   * only attempt, or those of both attempts together.
   */
  lemma ErrorBlames<N>(d: Deps<N>, net: N, error: Error)
    requires d.config.Some? && d.loaded.Some?
    ensures var (r, err) := RunApp(d, Runtime(net, false, []));
            var t1 := Attempt(d, 0, d.config.value, d.loaded.value, Runtime(net, false, [])).0.trace;
            err == Some(error) <==>
              if r.trace == t1 then Blames(t1, error)
              else error.Joined? && Blames(t1, error.first) && Blames(r.trace, error.second)
  {
    var r := Runtime(net, false, []);
    var cfg, loaded := d.config.value, d.loaded.value;
    var (r1, used, err) := Attempt(d, 0, cfg, loaded, r);
    AttemptSucceedsIff(d, 0, cfg, loaded, r);
    AttemptBlames(d, 0, cfg, loaded, r);
    AttemptSucceedsIff(d, 1, cfg, EMPTY, r1);
    AttemptBlames(d, 1, cfg, EMPTY, r1);
    AttemptBootstrapsOnce(d, 1, cfg, EMPTY, r1);
    var r2 := Attempt(d, 1, cfg, EMPTY, r1).0;
    assert r2.trace != r1.trace;
    OneBlame(r1.trace);
    OneBlame(r2.trace);
    hide Attempt, Blames, CleanEnd;
  }

  /** An end blames one call at most, and none when it is clean. */
  lemma OneBlame(t: seq<Event>)
    ensures forall e, e' | Blames(t, e) && Blames(t, e') :: e == e'
    ensures forall e | Blames(t, e) :: !CleanEnd(t)
  {
  }
}
