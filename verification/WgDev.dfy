/** The WireGuard device manager. */
module WgDev {
  import opened Bytes
  import opened Kernel
  import opened DeviceState

  datatype Desired = Desired(
    name: Text,
    stack: Stack,
    privateKey: Text,
    addressV4: Text,
    addressV6: Text,
    peerPublicKey: Text,
    endpoint: Text)

  function InterfaceAddresses(d: Desired): seq<Text> {
    var v4 := if d.addressV4 == [] || d.stack == Only6 then [] else [d.addressV4 + Lit("/32")];
    var v6 := if d.addressV6 == [] || d.stack == Only4 then [] else [d.addressV6 + Lit("/128")];
    v4 + v6
  }

  predicate IsValid(d: Desired) {
    d.name != [] && d.privateKey != [] && d.peerPublicKey != [] && d.endpoint != [] && InterfaceAddresses(d) != []
  }

  function SetupTimes(o: Outcomes, w: World, n: nat): (World, bool)
    decreases n
  {
    if n == 0 then (w, true)
    else
      var (w', ok) := Setup(o, w);
      if ok then SetupTimes(o, w', n - 1) else (w', false)
  }

  /**
   * Manager.Apply: delete and add the link; then the configuration file, wg setconf, the addresses and the MTU,
   * which touch neither the main route table nor the set of links.
   */
  function ApplyDevice(o: Outcomes, w: World, d: Desired): (World, bool) {
    if !IsValid(d) then (w, false)
    else
      var (w1, ok) := DeleteLink(o, w, d.name);
      if !ok then (w1, false)
      else
        var (w2, ok) := AddLink(o, w1, d.name);
        if !ok then (w2, false) else SetupTimes(o, w2, |InterfaceAddresses(d)| + 3)
  }

  class Manager {
    const runner: Runner

    constructor (runner: Runner)
      ensures this.runner == runner
    {
      this.runner := runner;
    }

    method Apply(d: Desired) returns (ok: bool)
      modifies runner
      ensures (runner.world, ok) == ApplyDevice(runner.outcomes, old(runner.world), d)
    {
      if !IsValid(d) {
        return false;
      }
      ok := Delete(d.name);
      if !ok {
        return;
      }
      ok := runner.LinkAdd(d.name);
      if !ok {
        return;
      }
      ghost var w, n := runner.world, |InterfaceAddresses(d)| + 3;
      ok := runner.SetUp();
      if !ok {
        return;
      }
      assert SetupTimes(runner.outcomes, w, n) == SetupTimes(runner.outcomes, runner.world, n - 1);
      ok := runner.SetUp();
      if !ok {
        return;
      }
      var addresses := InterfaceAddresses(d);
      for i := 0 to |addresses|
        invariant SetupTimes(runner.outcomes, w, n) == SetupTimes(runner.outcomes, runner.world, n - 2 - i)
      {
        ok := runner.SetUp();
        if !ok {
          return;
        }
      }
      ok := runner.SetUp();
    }

    method Delete(name: Text) returns (ok: bool)
      requires name != []
      modifies runner
      ensures (runner.world, ok) == DeleteLink(runner.outcomes, old(runner.world), name)
    {
      ok := runner.LinkDelete(name);
    }
  }

  lemma {:induction false} SetupKeepsNet(o: Outcomes, w: World, n: nat)
    ensures SetupTimes(o, w, n).0.net == w.net
    decreases n
  {
    if 0 < n {
      SetupKeepsNet(o, Tick(w), n - 1);
    }
  }
}
