/** All interleavings of Start, Stop, Done and wait over the mutex, the children and their channels. */
module SupervisorRuns {
  import opened Bytes
  import opened WaitError
  import opened Supervisor

  /** Where wait is: in cmd.Wait, before its lock region, after it, after the send, after the close. */
  datatype Reaper = Waiting | Reaped | Cleared(report: Option<Err>) | Sent | Closed

  /**
   * A child with its one-slot channel. The counts are of sends, closes and receipts on the channel, and of the Stop
   * regions that took this child.
   */
  datatype Child = Child(
    reaper: Reaper,
    exit: Option<Err>,
    slot: Option<Option<Err>>,
    sends: nat,
    closes: nat,
    takes: nat,
    stops: nat)

  const LAUNCHED := Child(Waiting, None, None, 0, 0, 0, 0)

  datatype Thread =
    | Starting
    | Probing(child: nat)
    | Stopping
    | Signalling(child: nat, channel: Option<nat>)
    | Awaiting(child: nat, channel: Option<nat>)
    | Killing(child: nat, channel: Option<nat>)
    | AwaitingKilled(child: nat, channel: Option<nat>)
    | Asking
    | Listening(channel: Option<nat>)
    | Finished(report: Report)

  datatype Report =
    | StartedUp
    | NotStarted
    | NothingToStop
    | StopFailed
    | StopReceived(child: nat, value: bool, clean: bool)
    | Heard(value: bool)

  datatype State = State(shared: Shared, children: seq<Child>, threads: seq<Thread>, failures: nat)

  const INIT := State(UNUSED, [], [], 0)

  /** How a step of a thread goes: as hoped, with an error, by receiving, or by running out of time. */
  datatype Choice = Succeed | Fail | Receive | GiveUp

  datatype Step =
    | Call(thread: Thread)
    | Exit(child: nat, err: Option<Err>)
    | Reap(child: nat)
    | Move(index: nat, choice: Choice)

  predicate CanReceive(s: State, channel: Option<nat>) {
    channel.Some? && channel.value < |s.children|
    && (s.children[channel.value].slot.Some? || s.children[channel.value].reaper == Closed)
  }

  /** A receive takes the value in the slot; on a closed and empty channel it yields nil. */
  function Take(s: State, k: nat): (State, Option<Err>, bool)
    requires CanReceive(s, Some(k))
  {
    var c := s.children[k];
    if c.slot.Some? then
      (s.(children := s.children[k := c.(slot := None, takes := c.takes + 1)]), c.slot.value, true)
    else (s, None, false)
  }

  function At(s: State, i: nat, t: Thread): State
    requires i < |s.threads|
  {
    s.(threads := s.threads[i := t])
  }

  function StopReceives(s: State, i: nat, child: nat, channel: Option<nat>): Option<State>
    requires i < |s.threads|
  {
    if !CanReceive(s, channel) then None
    else
      var (s', err, value) := Take(s, channel.value);
      Some(At(s', i, Finished(StopReceived(child, value, Normalize(err, true).None?))))
  }

  function DoStart(s: State, i: nat, launched: bool): Option<State>
    requires i < |s.threads|
  {
    if s.shared.held then None
    else
      var (shared, launch) := StartRegion(s.shared, |s.children|, launched);
      var s' := s.(shared := shared);
      Some(match launch
           case Running => At(s', i, Finished(NotStarted))
           case NotLaunched => At(s'.(failures := s.failures + 1), i, Finished(NotStarted))
           case Launched => At(s'.(children := s.children + [LAUNCHED]), i, Probing(|s.children|)))
  }

  function DoStop(s: State, i: nat): Option<State>
    requires i < |s.threads|
  {
    if s.shared.held then None
    else
      var (shared, cmd, done) := StopRegion(s.shared);
      var s' := s.(shared := shared);
      if cmd.None? then Some(At(s', i, Finished(NothingToStop)))
      else if cmd.value < |s.children| then
        var c := s.children[cmd.value];
        Some(At(s'.(children := s.children[cmd.value := c.(stops := c.stops + 1)]), i, Signalling(cmd.value, done)))
      else None
  }

  function DoMove(s: State, i: nat, choice: Choice): Option<State>
    requires i < |s.threads|
  {
    match s.threads[i]
    case Starting => DoStart(s, i, choice == Succeed)
    case Probing(k) =>
      (match choice
       case Succeed => Some(At(s, i, Finished(StartedUp)))
       case Receive => if CanReceive(s, Some(k)) then Some(At(Take(s, k).0, i, Stopping)) else None
       case _ => Some(At(s, i, Stopping)))
    case Stopping => DoStop(s, i)
    case Signalling(k, ch) => Some(At(s, i, if choice == Fail then Finished(StopFailed) else Awaiting(k, ch)))
    case Awaiting(k, ch) =>
      if choice == Receive then StopReceives(s, i, k, ch)
      else if choice == GiveUp then Some(At(s, i, Killing(k, ch))) else None
    case Killing(k, ch) => Some(At(s, i, if choice == Fail then Finished(StopFailed) else AwaitingKilled(k, ch)))
    case AwaitingKilled(k, ch) => StopReceives(s, i, k, ch)
    case Asking => if s.shared.held then None else Some(At(s, i, Listening(s.shared.done)))
    case Listening(ch) =>
      if ch.None? then Some(At(s, i, Finished(Heard(false))))
      else if !CanReceive(s, ch) then None
      else Some(At(Take(s, ch.value).0, i, Finished(Heard(Take(s, ch.value).2))))
    case Finished(_) => None
  }

  function DoReap(s: State, k: nat): Option<State>
    requires k < |s.children|
  {
    var c := s.children[k];
    match c.reaper
    case Waiting => None
    case Reaped =>
      if s.shared.held then None
      else
        var (shared, stopped) := WaitRegion(s.shared, k);
        Some(s.(shared := shared, children := s.children[k := c.(reaper := Cleared(Normalize(c.exit, stopped)))]))
    case Cleared(report) =>
      if c.slot.Some? then None
      else Some(s.(children := s.children[k := c.(reaper := Sent, slot := Some(report), sends := c.sends + 1)]))
    case Sent => Some(s.(children := s.children[k := c.(reaper := Closed, closes := c.closes + 1)]))
    case Closed => None
  }

  /** One step, or None where it is not enabled. */
  function Do(s: State, step: Step): Option<State> {
    match step
    case Call(t) => if t in {Starting, Stopping, Asking} then Some(s.(threads := s.threads + [t])) else None
    case Exit(k, err) =>
      if k < |s.children| && s.children[k].reaper == Waiting then
        Some(s.(children := s.children[k := s.children[k].(reaper := Reaped, exit := err)]))
      else None
    case Reap(k) => if k < |s.children| then DoReap(s, k) else None
    case Move(i, choice) => if i < |s.threads| then DoMove(s, i, choice) else None
  }

  function Exec(s: State, steps: seq<Step>): Option<State>
    decreases |steps|
  {
    if steps == [] then Some(s)
    else
      var s' := Do(s, steps[0]);
      if s'.None? then None else Exec(s'.value, steps[1..])
  }

  // ---------- the invariant ----------

  /** What wait reports of a child: its exit, normalised by whether a Stop took it. */
  function Published(c: Child): Option<Err> {
    Normalize(c.exit, 0 < c.stops)
  }

  predicate Withdrawn(c: Child) {
    c.reaper.Cleared? || c.reaper.Sent? || c.reaper.Closed?
  }

  predicate SoundChild(c: Child) {
    && c.sends == (if c.reaper in {Sent, Closed} then 1 else 0)
    && c.closes == (if c.reaper == Closed then 1 else 0)
    && c.takes + (if c.slot.Some? then 1 else 0) == c.sends
    && (c.slot.Some? ==> c.slot.value == Published(c))
    && (c.reaper.Cleared? ==> c.reaper.report == Published(c))
  }

  predicate SoundShared(s: State) {
    && (s.shared.cmd.Some? ==>
          && s.shared.cmd.value < |s.children| && s.shared.done == s.shared.cmd
          && (s.shared.stopped <==> 0 < s.children[s.shared.cmd.value].stops))
    && (s.shared.done.Some? ==> s.shared.done.value < |s.children|)
    && (s.shared.held <==> 0 < s.failures) && s.failures <= 1
    && (s.shared.held ==> s.shared.cmd.None?)
  }

  /** A Stop waits on the channel of the child it took. */
  predicate Took(s: State, k: nat, channel: Option<nat>) {
    k < |s.children| && channel == Some(k) && 0 < s.children[k].stops
  }

  predicate SoundThread(s: State, t: Thread) {
    match t
    case Probing(k) => k < |s.children|
    case Signalling(k, ch) => Took(s, k, ch)
    case Awaiting(k, ch) => Took(s, k, ch)
    case Killing(k, ch) => Took(s, k, ch)
    case AwaitingKilled(k, ch) => Took(s, k, ch)
    case Listening(ch) => ch.Some? ==> ch.value < |s.children|
    case Finished(StopReceived(k, value, clean)) =>
      && Took(s, k, Some(k)) && s.children[k].reaper in {Sent, Closed}
      && clean == (!value || Normalize(s.children[k].exit, true).None?)
    case _ => true
  }

  ghost predicate Inv(s: State) {
    && SoundShared(s)
    && (forall k | 0 <= k < |s.children| :: SoundChild(s.children[k]))
    && (forall k | 0 <= k < |s.children| :: Withdrawn(s.children[k]) <==> s.shared.cmd != Some(k))
    && (forall t | t in s.threads :: SoundThread(s, t))
  }

  /** A child only moves on: it keeps its Stops, and its exit and marks once it is withdrawn. */
  predicate Onward(c: Child, d: Child) {
    && c.stops <= d.stops
    && (c.reaper in {Sent, Closed} ==> d.reaper in {Sent, Closed} && d.exit == c.exit)
  }

  ghost predicate AllOnward(s: State, s': State) {
    |s.children| <= |s'.children| && forall k | 0 <= k < |s.children| :: Onward(s.children[k], s'.children[k])
  }

  lemma ThreadsStaySound(s: State, s': State)
    requires (forall t | t in s.threads :: SoundThread(s, t)) && AllOnward(s, s')
    ensures forall t | t in s.threads :: SoundThread(s', t)
  {
    forall t | t in s.threads
      ensures SoundThread(s', t)
    {
      assert SoundThread(s, t);
    }
  }

  /** A change of the shared fields and children with one thread replaced. */
  lemma ThreadReplaced(s: State, s': State, i: nat, t: Thread)
    requires Inv(s) && i < |s.threads| && s'.threads == s.threads[i := t]
    requires AllOnward(s, s') && SoundThread(s', t)
    ensures forall u | u in s'.threads :: SoundThread(s', u)
  {
    ThreadsStaySound(s, s');
    forall u | u in s'.threads
      ensures SoundThread(s', u)
    {
      var j :| 0 <= j < |s'.threads| && s'.threads[j] == u;
      assert j != i ==> u == s.threads[j];
    }
  }

  lemma TakeKeeps(s: State, k: nat)
    requires Inv(s) && CanReceive(s, Some(k))
    ensures var (s', err, value) := Take(s, k);
            && Inv(s') && AllOnward(s, s') && s'.threads == s.threads && s'.shared == s.shared
            && s.children[k].reaper in {Sent, Closed}
            && (if value then err == Published(s.children[k]) else err == None)
  {
    var s' := Take(s, k).0;
    assert SoundChild(s.children[k]);
    ThreadsStaySound(s, s');
  }

  lemma StopReceivesKeeps(s: State, i: nat, k: nat, channel: Option<nat>)
    requires Inv(s) && i < |s.threads| && Took(s, k, channel)
    requires StopReceives(s, i, k, channel).Some?
    ensures Inv(StopReceives(s, i, k, channel).value)
  {
    TakeKeeps(s, k);
    var (s1, err, value) := Take(s, k);
    StopIgnoresTheRace(s.children[k].exit, true);
    var t := Finished(StopReceived(k, value, Normalize(err, true).None?));
    ThreadReplaced(s1, At(s1, i, t), i, t);
  }

  lemma StartKeeps(s: State, i: nat, launched: bool)
    requires Inv(s) && i < |s.threads| && DoStart(s, i, launched).Some?
    ensures Inv(DoStart(s, i, launched).value)
  {
    var s' := DoStart(s, i, launched).value;
    var n := |s.children|;
    assert SoundChild(LAUNCHED);
    forall k | 0 <= k < |s'.children|
      ensures SoundChild(s'.children[k]) && (Withdrawn(s'.children[k]) <==> s'.shared.cmd != Some(k))
    {
      assert k < n ==> s'.children[k] == s.children[k];
      assert k < n ==> (Withdrawn(s.children[k]) <==> s.shared.cmd != Some(k));
    }
    ThreadReplaced(s, s', i, s'.threads[i]);
  }

  lemma StopKeeps(s: State, i: nat)
    requires Inv(s) && i < |s.threads| && DoStop(s, i).Some?
    ensures Inv(DoStop(s, i).value)
  {
    var s' := DoStop(s, i).value;
    forall k | 0 <= k < |s'.children|
      ensures SoundChild(s'.children[k]) && (Withdrawn(s'.children[k]) <==> s'.shared.cmd != Some(k))
    {
      assert SoundChild(s.children[k]) && (Withdrawn(s.children[k]) <==> s.shared.cmd != Some(k));
    }
    ThreadReplaced(s, s', i, s'.threads[i]);
  }

  lemma AtKeeps(s: State, i: nat, t: Thread)
    requires Inv(s) && i < |s.threads| && SoundThread(s, t)
    ensures Inv(At(s, i, t))
  {
    ThreadReplaced(s, At(s, i, t), i, t);
  }

  lemma TakeAtKeeps(s: State, i: nat, k: nat, t: Thread)
    requires Inv(s) && i < |s.threads| && CanReceive(s, Some(k)) && (t == Stopping || (t.Finished? && t.report.Heard?))
    ensures Inv(At(Take(s, k).0, i, t))
  {
    TakeKeeps(s, k);
    AtKeeps(Take(s, k).0, i, t);
  }

  lemma MoveKeeps(s: State, i: nat, choice: Choice)
    requires Inv(s) && i < |s.threads| && DoMove(s, i, choice).Some?
    ensures Inv(DoMove(s, i, choice).value)
  {
    var t := s.threads[i];
    assert SoundThread(s, t);
    hide Inv, DoStart, DoStop, StopReceives, Take, CanReceive;
    match t {
      case Starting => StartKeeps(s, i, choice == Succeed);
      case Stopping => StopKeeps(s, i);
      case Probing(k) =>
        match choice {
          case Receive => TakeAtKeeps(s, i, k, Stopping);
          case Succeed => AtKeeps(s, i, Finished(StartedUp));
          case _ => AtKeeps(s, i, Stopping);
        }
      case Signalling(k, ch) => AtKeeps(s, i, if choice == Fail then Finished(StopFailed) else Awaiting(k, ch));
      case Awaiting(k, ch) =>
        if choice == Receive {
          StopReceivesKeeps(s, i, k, ch);
        } else {
          AtKeeps(s, i, Killing(k, ch));
        }
      case Killing(k, ch) => AtKeeps(s, i, if choice == Fail then Finished(StopFailed) else AwaitingKilled(k, ch));
      case AwaitingKilled(k, ch) => StopReceivesKeeps(s, i, k, ch);
      case Asking => AskingKeeps(s, i);
      case Listening(ch) =>
        if ch.Some? {
          TakeAtKeeps(s, i, ch.value, Finished(Heard(Take(s, ch.value).2)));
        } else {
          AtKeeps(s, i, Finished(Heard(false)));
        }
      case Finished(_) => assert false;
    }
  }

  lemma AskingKeeps(s: State, i: nat)
    requires Inv(s) && i < |s.threads|
    ensures Inv(At(s, i, Listening(s.shared.done)))
  {
    AtKeeps(s, i, Listening(s.shared.done));
  }

  lemma ReapKeeps(s: State, k: nat)
    requires Inv(s) && k < |s.children| && DoReap(s, k).Some?
    ensures Inv(DoReap(s, k).value)
  {
    var s' := DoReap(s, k).value;
    assert SoundChild(s.children[k]);
    assert Withdrawn(s.children[k]) <==> s.shared.cmd != Some(k);
    forall j | 0 <= j < |s'.children|
      ensures SoundChild(s'.children[j]) && (Withdrawn(s'.children[j]) <==> s'.shared.cmd != Some(j))
    {
      assert SoundChild(s.children[j]) && (Withdrawn(s.children[j]) <==> s.shared.cmd != Some(j));
    }
    ThreadsStaySound(s, s');
  }

  lemma StepKeepsInv(s: State, step: Step)
    requires Inv(s) && Do(s, step).Some?
    ensures Inv(Do(s, step).value)
  {
    match step {
      case Call(t) =>
        ThreadsStaySound(s, Do(s, step).value);
      case Exit(k, err) =>
        var s' := Do(s, step).value;
        forall j | 0 <= j < |s'.children|
          ensures SoundChild(s'.children[j]) && (Withdrawn(s'.children[j]) <==> s'.shared.cmd != Some(j))
        {
          assert SoundChild(s.children[j]) && (Withdrawn(s.children[j]) <==> s.shared.cmd != Some(j));
        }
        ThreadsStaySound(s, s');
      case Reap(k) => ReapKeeps(s, k);
      case Move(i, choice) => MoveKeeps(s, i, choice);
    }
  }

  lemma {:induction false} RunKeepsInv(s: State, steps: seq<Step>)
    requires Inv(s) && Exec(s, steps).Some?
    ensures Inv(Exec(s, steps).value)
    decreases |steps|
  {
    if steps != [] {
      StepKeepsInv(s, steps[0]);
      RunKeepsInv(Do(s, steps[0]).value, steps[1..]);
    }
  }

  // ---------- what holds in every reachable state ----------

  ghost predicate Reachable(s: State) {
    exists steps :: Exec(INIT, steps) == Some(s)
  }

  lemma ReachableInv(s: State)
    requires Reachable(s)
    ensures Inv(s)
  {
    var steps :| Exec(INIT, steps) == Some(s);
    RunKeepsInv(INIT, steps);
  }

  /** At most one child has not been waited for. */
  lemma AtMostOneUnreaped(s: State, j: nat, k: nat)
    requires Reachable(s) && j < |s.children| && k < |s.children|
    requires s.children[j].reaper == Waiting && s.children[k].reaper == Waiting
    ensures j == k && s.shared.cmd == Some(k)
  {
    ReachableInv(s);
    assert Withdrawn(s.children[j]) <==> s.shared.cmd != Some(j);
    assert Withdrawn(s.children[k]) <==> s.shared.cmd != Some(k);
  }

  /**
   * The channel of a child: never more than one send and one close, in this order; the value is received at most
   * once; it becomes visible only after the child is withdrawn; and it is the exit error, normalised by whether a
   * Stop took this very child.
   */
  lemma OneReport(s: State, k: nat)
    requires Reachable(s) && k < |s.children|
    ensures var c := s.children[k];
            && c.closes <= c.sends <= 1
            && c.takes + (if c.slot.Some? then 1 else 0) == c.sends
            && (0 < c.sends ==> s.shared.cmd != Some(k))
            && (c.slot.Some? ==> c.slot.value == Normalize(c.exit, 0 < c.stops))
  {
    ReachableInv(s);
    assert SoundChild(s.children[k]);
    assert Withdrawn(s.children[k]) <==> s.shared.cmd != Some(k);
  }

  /**
   * What a reader of Done gets to see of a child. When no Stop took it: nil if and only if it ended without an error.
   * When one did: nil also for an exit status or a process already gone, wrapped or joined in any way. Any other end
   * is reported as an unexpected one, with the error as its cause.
   */
  lemma ReportIsNilIff(s: State, k: nat)
    requires Reachable(s) && k < |s.children| && s.children[k].slot.Some?
    ensures var c := s.children[k];
            && c.slot.value.None? == (c.exit.None? || (0 < c.stops && EndsInExit(c.exit)))
            && (c.slot.value.Some? ==> c.slot.value == Some(Unexpected(c.exit.value)))
  {
    ReachableInv(s);
    assert SoundChild(s.children[k]);
    if s.children[k].exit.Some? {
      ExpectedIff(s.children[k].exit.value);
    }
  }

  /** The mutex is held outside of the lock regions if and only if a launch has failed; and that ends all launches. */
  lemma MutexStuckIff(s: State)
    requires Reachable(s)
    ensures s.shared.held <==> 0 < s.failures
    ensures s.shared.held ==> forall k | 0 <= k < |s.children| :: Withdrawn(s.children[k])
  {
    ReachableInv(s);
  }

  /** A child that has been waited for can always take its next step, also with the mutex stuck. */
  lemma ReaperNeverBlocks(s: State, k: nat)
    requires Reachable(s) && k < |s.children|
    ensures Do(s, Reap(k)).Some? <==> s.children[k].reaper !in {Waiting, Closed}
  {
    ReachableInv(s);
    assert SoundChild(s.children[k]);
    assert Withdrawn(s.children[k]) <==> s.shared.cmd != Some(k);
  }

  predicate NeedsMutex(t: Thread) {
    t in {Starting, Stopping, Asking}
  }

  function ChannelOf(t: Thread): Option<nat> {
    match t
    case Awaiting(_, ch) => ch
    case AwaitingKilled(_, ch) => ch
    case Listening(ch) => ch
    case _ => None
  }

  predicate CanMove(s: State, i: nat) {
    exists choice :: Do(s, Move(i, choice)).Some?
  }

  /**
   * No thread waits in vain. A thread that has not finished can move, except for two reasons: it needs the mutex
   * after a launch has failed; or it waits on the channel of a child that is still running, or that has been waited
   * for and whose report is on its way.
   */
  lemma NobodyWaitsInVain(s: State, i: nat)
    requires Reachable(s) && i < |s.threads|
    ensures var t := s.threads[i];
            || t.Finished?
            || CanMove(s, i)
            || (NeedsMutex(t) && 0 < s.failures)
            || (ChannelOf(t).Some? && ChannelOf(t).value < |s.children| &&
                var k := ChannelOf(t).value;
                s.children[k].reaper == Waiting || Do(s, Reap(k)).Some?)
  {
    ReachableInv(s);
    var t := s.threads[i];
    assert SoundThread(s, t);
    if !t.Finished? {
      forall choice
        ensures CanMove(s, i) || Do(s, Move(i, choice)).None?
      {
      }
      if ChannelOf(t).Some? {
        var k := ChannelOf(t).value;
        ReaperNeverBlocks(s, k);
        assert SoundChild(s.children[k]);
        assert Do(s, Move(i, Receive)).None? ==> !CanReceive(s, Some(k));
      } else {
        assert Do(s, Move(i, Succeed)).Some? || NeedsMutex(t) || t.Awaiting? || t.AwaitingKilled?;
      }
    }
  }

  /** The steps that the reaper of a child has left after the wait. */
  function Remaining(c: Child): nat {
    match c.reaper
    case Waiting => 4
    case Reaped => 3
    case Cleared(_) => 2
    case Sent => 1
    case Closed => 0
  }

  function Reaps(k: nat, n: nat): seq<Step> {
    if n == 0 then [] else [Reap(k)] + Reaps(k, n - 1)
  }

  /** Once a child has exited, at most three steps of its own reaper, and of no other thread, close its channel. */
  lemma {:induction false} ReportArrives(s: State, k: nat)
    requires Inv(s) && k < |s.children| && s.children[k].reaper != Waiting
    ensures var s' := Exec(s, Reaps(k, Remaining(s.children[k])));
            && s'.Some? && k < |s'.value.children|
            && s'.value.children[k].reaper == Closed && CanReceive(s'.value, Some(k))
            && s'.value.shared.cmd != Some(k)
    decreases Remaining(s.children[k])
  {
    assert SoundChild(s.children[k]);
    assert Withdrawn(s.children[k]) <==> s.shared.cmd != Some(k);
    var n := Remaining(s.children[k]);
    if n != 0 {
      var s1 := Do(s, Reap(k)).value;
      StepKeepsInv(s, Reap(k));
      ReportArrives(s1, k);
      assert Reaps(k, n)[0] == Reap(k) && Reaps(k, n)[1..] == Reaps(k, n - 1);
    }
  }

  /**
   * A Stop that waited for a child returns nil if and only if it found the channel drained, or the child ended
   * without an error or with one expected of a stopped process, however its steps interleaved with the reaper's.
   */
  lemma StopReturnsNilIff(s: State, i: nat)
    requires Reachable(s) && i < |s.threads| && s.threads[i].Finished? && s.threads[i].report.StopReceived?
    ensures var r := s.threads[i].report;
            && r.child < |s.children| && s.shared.cmd != Some(r.child)
            && (r.clean <==> !r.value || s.children[r.child].exit.None? || EndsInExit(s.children[r.child].exit))
  {
    ReachableInv(s);
    assert SoundThread(s, s.threads[i]);
    var k := s.threads[i].report.child;
    assert Withdrawn(s.children[k]) <==> s.shared.cmd != Some(k);
    if s.children[k].exit.Some? {
      ExpectedIff(s.children[k].exit.value);
    }
  }

  /** It takes no more than one call of Start whose launch fails to get there. */
  lemma FailedLaunchHoldsMutex()
    ensures var s := State(Shared(true, None, None, false), [], [Finished(NotStarted)], 1);
            Exec(INIT, [Call(Starting), Move(0, Fail)]) == Some(s)
  {
    var s1 := State(UNUSED, [], [Starting], 0);
    var s2 := State(Shared(true, None, None, false), [], [Finished(NotStarted)], 1);
    var none: seq<Thread> := [];
    assert none + [Starting] == [Starting];
    assert Do(INIT, Call(Starting)) == Some(s1);
    assert [Starting][0 := Finished(NotStarted)] == [Finished(NotStarted)];
    assert DoStart(s1, 0, false) == Some(s2);
    assert Do(s1, Move(0, Fail)) == Some(s2);
    assert [Call(Starting), Move(0, Fail)][1..] == [Move(0, Fail)] && [Move(0, Fail)][1..] == [];
    assert Exec(s1, [Move(0, Fail)]) == Exec(s2, []) == Some(s2);
  }

  /** A launch that fails leaves the supervisor without a way to start, stop or ask, from then on. */
  lemma {:induction false} FailedLaunchIsFinal(s: State, steps: seq<Step>)
    requires Inv(s) && s.shared.held && Exec(s, steps).Some?
    ensures Exec(s, steps).value.shared == s.shared && |Exec(s, steps).value.children| == |s.children|
    decreases |steps|
  {
    if steps != [] {
      StepKeepsInv(s, steps[0]);
      var s' := Do(s, steps[0]).value;
      assert s'.shared == s.shared && |s'.children| == |s.children| by {
        HeldStep(s, steps[0]);
      }
      FailedLaunchIsFinal(s', steps[1..]);
    }
  }

  lemma HeldStep(s: State, step: Step)
    requires Inv(s) && s.shared.held && Do(s, step).Some?
    ensures Do(s, step).value.shared == s.shared && |Do(s, step).value.children| == |s.children|
  {
    hide Inv, SoundShared;
    if step.Reap? {
      assert Withdrawn(s.children[step.child]);
    }
  }

  predicate CallsStart(s: State, i: nat) {
    i < |s.threads| && s.threads[i] == Starting
  }

  lemma {:induction false} HeldOffStart(s: State, i: nat, steps: seq<Step>)
    requires Inv(s) && s.shared.held && CallsStart(s, i) && Exec(s, steps).Some?
    ensures CallsStart(Exec(s, steps).value, i)
    decreases |steps|
  {
    if steps != [] {
      StepKeepsInv(s, steps[0]);
      HeldStep(s, steps[0]);
      HeldOffStep(s, i, steps[0]);
      HeldOffStart(Do(s, steps[0]).value, i, steps[1..]);
    }
  }

  lemma HeldOffStep(s: State, i: nat, step: Step)
    requires Inv(s) && s.shared.held && CallsStart(s, i) && Do(s, step).Some?
    ensures CallsStart(Do(s, step).value, i)
  {
    hide Inv;
  }

  lemma StartMoves(s: State, i: nat)
    requires Inv(s) && s.failures == 0 && CallsStart(s, i)
    ensures exists steps :: Exec(s, steps).Some? && !CallsStart(Exec(s, steps).value, i)
  {
    var steps := [Move(i, Fail)];
    assert Do(s, Move(i, Fail)) == DoStart(s, i, false);
    var s' := DoStart(s, i, false).value;
    assert s'.threads[i] == Finished(NotStarted);
    assert steps[1..] == [] && Exec(s', []) == Some(s');
    assert Exec(s, steps) == Some(s') && !CallsStart(s', i);
  }

  /** A call of Start can ever get on, whatever else happens, if and only if no launch has failed before. */
  lemma StartGetsOnIff(s: State, i: nat)
    requires Reachable(s) && CallsStart(s, i)
    ensures (exists steps :: Exec(s, steps).Some? && !CallsStart(Exec(s, steps).value, i)) <==> s.failures == 0
  {
    ReachableInv(s);
    if s.failures == 0 {
      StartMoves(s, i);
    } else {
      forall steps | Exec(s, steps).Some?
        ensures CallsStart(Exec(s, steps).value, i)
      {
        HeldOffStart(s, i, steps);
      }
    }
  }

  // ---------- what the calls report ----------

  lemma LaunchMoves(s: State, i: nat, launched: bool)
    requires i < |s.threads| && DoStart(s, i, launched).Some?
    ensures var s' := DoStart(s, i, launched).value;
            (s'.children == s.children && s'.threads == s.threads[i := Finished(NotStarted)])
            || (s'.children == s.children + [LAUNCHED] && s'.threads == s.threads[i := Probing(|s.children|)])
  {
  }

  lemma StopMoves(s: State, i: nat)
    requires i < |s.threads| && DoStop(s, i).Some?
    ensures var s' := DoStop(s, i).value;
            && |s'.children| == |s.children|
            && if s.shared.cmd.None? then s'.threads == s.threads[i := Finished(NothingToStop)]
               else s'.threads == s.threads[i := Signalling(s.shared.cmd.value, s.shared.done)]
  {
  }

  lemma ReceiptMoves(s: State, i: nat, channel: Option<nat>)
    requires i < |s.threads|
    ensures CanReceive(s, channel) ==>
              && channel.Some?
              && |Take(s, channel.value).0.children| == |s.children| && Take(s, channel.value).0.threads == s.threads
    ensures forall child | StopReceives(s, i, child, channel).Some? ::
              var s' := StopReceives(s, i, child, channel).value;
              && |s'.children| == |s.children|
              && exists value, clean :: s'.threads == s.threads[i := Finished(StopReceived(child, value, clean))]
  {
    hide Normalize;
  }

  /**
   * The moves of a call. Start reports success if and only if the probe of the child it launched succeeds, and goes on
   * as a Stop if it does not; Stop kills if and only if its patience ends first, fails if and only if a signal does,
   * and else reports what it receives. A move of one call leaves all others where they are.
   */
  lemma CallsMove(s: State, i: nat, choice: Choice)
    requires i < |s.threads| && Do(s, Move(i, choice)).Some?
    ensures var s' := Do(s, Move(i, choice)).value;
            && |s'.threads| == |s.threads|
            && (forall j | 0 <= j < |s.threads| && j != i :: s'.threads[j] == s.threads[j])
            && |s.children| <= |s'.children| <= |s.children| + 1
    ensures var s' := Do(s, Move(i, choice)).value;
            var t, t', launched := s.threads[i], s'.threads[i], |s'.children| == |s.children| + 1;
            && (launched <==> t.Starting? && t' == Probing(|s.children|))
            && (t'.Probing? ==> launched)
            && (t' == Finished(NotStarted) <==> t.Starting? && !launched)
            && (t' == Finished(StartedUp) <==> t.Probing? && choice == Succeed)
            && (t' == Stopping <==> t.Probing? && choice != Succeed)
            && (t' == Finished(NothingToStop) <==> t.Stopping? && s.shared.cmd.None?)
            && (t'.Signalling? <==> t.Stopping? && s.shared.cmd.Some?)
            && (t'.Awaiting? <==> t.Signalling? && choice != Fail)
            && (t'.Killing? <==> t.Awaiting? && choice != Receive)
            && (t'.AwaitingKilled? <==> t.Killing? && choice != Fail)
            && (t' == Finished(StopFailed) <==> choice == Fail && (t.Signalling? || t.Killing?))
            && (t'.Finished? && t'.report.StopReceived? <==> t.AwaitingKilled? || (t.Awaiting? && choice == Receive))
  {
    hide DoStart, DoStop, StopReceives, Take, CanReceive;
    var t := s.threads[i];
    match t
    case Starting => LaunchMoves(s, i, choice == Succeed);
    case Stopping => StopMoves(s, i);
    case Probing(k) => ReceiptMoves(s, i, Some(k));
    case Awaiting(k, ch) => ReceiptMoves(s, i, ch);
    case AwaitingKilled(k, ch) => ReceiptMoves(s, i, ch);
    case Listening(ch) => ReceiptMoves(s, i, ch);
    case _ =>
  }

  /** The channel that a call receives from, when it moves by receiving. */
  ghost function Source(t: Thread, choice: Choice): Option<nat> {
    match t
    case Probing(k) => if choice == Receive then Some(k) else None
    case Awaiting(_, channel) => if choice == Receive then channel else None
    case AwaitingKilled(_, channel) => channel
    case Listening(channel) => channel
    case _ => None
  }

  /** A call tells that it received a value. */
  ghost predicate TellsValue(t: Thread) {
    t == Finished(Heard(true)) || (t.Finished? && t.report.StopReceived? && t.report.value)
  }

  /**
   * A receipt takes the value out of the channel if there is one, so that nobody else gets it; and Stop and the reader
   * of Done tell a value if and only if they have taken one.
   */
  lemma ReceiptsDrain(s: State, i: nat, choice: Choice, k: nat)
    requires i < |s.threads| && Do(s, Move(i, choice)).Some? && Source(s.threads[i], choice) == Some(k)
    ensures k < |s.children|
    ensures var s', c := Do(s, Move(i, choice)).value, s.children[k];
            && s'.children == s.children[k := c.(slot := None, takes := c.takes + if c.slot.Some? then 1 else 0)]
            && (s.threads[i].Probing? || (TellsValue(s'.threads[i]) <==> c.slot.Some?))
  {
    hide Normalize, DoStart, DoStop;
  }

  /** A call of Start, Stop or Done, and a reaper after its wait, can move on if and only if the mutex is free. */
  lemma LockedMoveIff(s: State, i: nat, choice: Choice, k: nat)
    requires Reachable(s)
    ensures i < |s.threads| && s.threads[i] in {Starting, Stopping, Asking} ==>
              (Do(s, Move(i, choice)).Some? <==> !s.shared.held)
    ensures k < |s.children| && s.children[k].reaper == Reaped ==> (Do(s, Reap(k)).Some? <==> !s.shared.held)
  {
    ReachableInv(s);
    CurrentExists(s);
    hide Inv, Normalize;
  }

  lemma CurrentExists(s: State)
    requires Inv(s)
    ensures s.shared.cmd.Some? ==> s.shared.cmd.value < |s.children|
  {
  }
}
