/** The lock regions of the process supervisor. Children, and the channel made for each, are numbered. */
module Supervisor {
  import opened Bytes

  /** The mutex, when it is held outside of a region, and the fields it guards. */
  datatype Shared = Shared(held: bool, cmd: Option<nat>, done: Option<nat>, stopped: bool)

  const UNUSED := Shared(false, None, None, false)

  datatype Launch = Running | NotLaunched | Launched

  /** Start: a failing launch returns without unlocking. */
  function StartRegion(s: Shared, child: nat, launched: bool): (Shared, Launch)
    requires !s.held
  {
    if s.cmd.Some? then (s, Running)
    else if !launched then (s.(held := true), NotLaunched)
    else (Shared(false, Some(child), Some(child), false), Launched)
  }

  /** Stop: marks the child as stopped and takes it along with its channel. */
  function StopRegion(s: Shared): (Shared, Option<nat>, Option<nat>)
    requires !s.held
  {
    (s.(stopped := true), s.cmd, s.done)
  }

  /** wait, once the child has been waited for: reads the mark and withdraws the child. */
  function WaitRegion(s: Shared, child: nat): (Shared, bool)
    requires !s.held
  {
    (if s.cmd == Some(child) then s.(cmd := None) else s, s.stopped)
  }

  /** What one round of waitForTCPReady sees. */
  datatype Poll = Poll(connected: bool, exited: bool, cancelled: bool, late: bool)

  /**
   * waitForTCPReady, after the given rounds: nil, an error, or none as long as no round decides. The first round with
   * anything to see decides, and a connection comes before everything else that this round sees.
   */
  method WaitForTcpReady(polls: seq<Poll>) returns (ready: Option<bool>)
    ensures ready == Some(true) <==>
              exists i | 0 <= i < |polls| ::
                polls[i].connected && forall j | 0 <= j < i :: polls[j] == Poll(false, false, false, false)
    ensures ready == None <==> forall i | 0 <= i < |polls| :: polls[i] == Poll(false, false, false, false)
  {
    for i := 0 to |polls|
      invariant forall j | 0 <= j < i :: polls[j] == Poll(false, false, false, false)
    {
      if polls[i].connected {
        return Some(true);
      }
      if polls[i].exited {
        return Some(false);
      } else if polls[i].cancelled {
        return Some(false);
      }
      if polls[i].late {
        return Some(false);
      }
    }
    return None;
  }

  class SOCKS5Supervisor {
    var held: bool
    var cmd: Option<nat>
    var done: Option<nat>
    var stopped: bool

    constructor ()
      ensures View() == UNUSED
    {
      held, cmd, done, stopped := false, None, None, false;
    }

    ghost function View(): Shared
      reads this
    {
      Shared(held, cmd, done, stopped)
    }

    method BeginStart(child: nat, launched: bool) returns (launch: Launch)
      requires !held
      modifies this
      ensures (View(), launch) == StartRegion(old(View()), child, launched)
    {
      held := true;
      if cmd.Some? {
        held := false;
        return Running;
      }
      if !launched {
        return NotLaunched;
      }
      cmd := Some(child);
      stopped := false;
      done := Some(child);
      held := false;
      return Launched;
    }

    method BeginStop() returns (child: Option<nat>, channel: Option<nat>)
      requires !held
      modifies this
      ensures (View(), child, channel) == StopRegion(old(View()))
    {
      held := true;
      child, channel := cmd, done;
      stopped := true;
      held := false;
    }

    method Withdraw(child: nat) returns (wasStopped: bool)
      requires !held
      modifies this
      ensures (View(), wasStopped) == WaitRegion(old(View()), child)
    {
      held := true;
      wasStopped := stopped;
      if cmd == Some(child) {
        cmd := None;
      }
      held := false;
    }
  }
}
