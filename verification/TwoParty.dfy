/**
 * Two programs that talk over a pair of byte streams.
 *
 * A party writes its pending output in pieces of any size, reads its input in pieces of any size until it
 * has the number of octets its program asks for, and then takes one step of its program. The two parties
 * are interleaved in any order.
 */
module TwoParty {
  import opened Bytes

  /** need is the number of octets to read next, None once the program has ended; act consumes them. */
  datatype Program<!P> = Program(need: P -> Option<nat>, act: (P, seq<Byte>) -> (P, seq<Byte>))

  datatype Party<P> = Party(pc: P, got: seq<Byte>, out: seq<Byte>)

  /** A party with the stream it reads and the stream it writes. */
  datatype End<P> = End(party: Party<P>, inbox: seq<Byte>, outbox: seq<Byte>)

  ghost predicate Flush<P>(e: End<P>, e': End<P>, k: nat) {
    && 0 < k <= |e.party.out|
    && e' == End(e.party.(out := e.party.out[k..]), e.inbox, e.outbox + e.party.out[..k])
  }

  ghost predicate Receive<P>(prog: Program<P>, e: End<P>, e': End<P>, k: nat) {
    && e.party.out == []
    && 0 < k <= |e.inbox|
    && prog.need(e.party.pc).Some?
    && |e.party.got| + k <= prog.need(e.party.pc).value
    && e' == End(e.party.(got := e.party.got + e.inbox[..k]), e.inbox[k..], e.outbox)
  }

  ghost predicate Act<P>(prog: Program<P>, e: End<P>, e': End<P>) {
    && e.party.out == []
    && prog.need(e.party.pc) == Some(|e.party.got|)
    && var (pc, out) := prog.act(e.party.pc, e.party.got);
       e' == End(Party(pc, [], out), e.inbox, e.outbox)
  }

  ghost predicate Moves<P>(prog: Program<P>, e: End<P>, e': End<P>) {
    || (exists k: nat :: Flush(e, e', k))
    || (exists k: nat :: Receive(prog, e, e', k))
    || Act(prog, e, e')
  }

  // ---------- the pair ----------

  datatype Net<C, S> = Net(client: Party<C>, server: Party<S>, up: seq<Byte>, down: seq<Byte>) {
    function ClientEnd(): End<C> {
      End(client, down, up)
    }

    function ServerEnd(): End<S> {
      End(server, up, down)
    }

    function WithClient(e: End<C>): Net<C, S> {
      Net(e.party, server, e.outbox, e.inbox)
    }

    function WithServer(e: End<S>): Net<C, S> {
      Net(client, e.party, e.inbox, e.outbox)
    }
  }

  ghost predicate ClientStep<C(!new), S(!new)>(cp: Program<C>, n: Net<C, S>, n': Net<C, S>) {
    Moves(cp, n.ClientEnd(), n'.ClientEnd()) && n'.server == n.server
  }

  ghost predicate ServerStep<C(!new), S(!new)>(sp: Program<S>, n: Net<C, S>, n': Net<C, S>) {
    Moves(sp, n.ServerEnd(), n'.ServerEnd()) && n'.client == n.client
  }

  ghost predicate Step<C(!new), S(!new)>(cp: Program<C>, sp: Program<S>, n: Net<C, S>, n': Net<C, S>) {
    ClientStep(cp, n, n') || ServerStep(sp, n, n')
  }

  ghost predicate Run<C(!new), S(!new)>(cp: Program<C>, sp: Program<S>, ns: seq<Net<C, S>>) {
    ns != [] && forall k | 0 < k < |ns| :: Step(cp, sp, ns[k - 1], ns[k])
  }

  ghost predicate Stuck<C(!new), S(!new)>(cp: Program<C>, sp: Program<S>, n: Net<C, S>) {
    forall n' :: !Step(cp, sp, n, n')
  }

  // ---------- scripts ----------

  /** One read of a program: where it stands, the octets it is to get, and what it writes then. */
  datatype Stage<P> = Stage(pc: P, field: seq<Byte>, out: seq<Byte>)

  datatype Script<P> = Script(opening: seq<Byte>, stages: seq<Stage<P>>, end: P) {
    function PcAt(i: nat): P
      requires i <= |stages|
    {
      if i < |stages| then stages[i].pc else end
    }

    /** The octets read in the first i stages. */
    function Reads(i: nat): seq<Byte>
      requires i <= |stages|
    {
      if i == 0 then [] else Reads(i - 1) + stages[i - 1].field
    }

    /** The octets written up to the end of the first i stages. */
    function Writes(i: nat): seq<Byte>
      requires i <= |stages|
    {
      if i == 0 then opening else Writes(i - 1) + stages[i - 1].out
    }
  }

  /** The program, fed the fields of the script in order, goes through its stages to its end. */
  ghost predicate Follows<P>(prog: Program<P>, sc: Script<P>) {
    && prog.need(sc.end) == None
    && forall i | 0 <= i < |sc.stages| ::
         && prog.need(sc.stages[i].pc) == Some(|sc.stages[i].field|)
         && prog.act(sc.stages[i].pc, sc.stages[i].field) == (sc.PcAt(i + 1), sc.stages[i].out)
  }

  ghost predicate Prefix(a: seq<Byte>, b: seq<Byte>) {
    |a| <= |b| && a == b[..|a|]
  }

  /** Each side reads a prefix of what the other writes, and no two reads wait for one another. */
  ghost predicate Fit<C, S>(cs: Script<C>, ss: Script<S>) {
    && Prefix(ss.Reads(|ss.stages|), cs.Writes(|cs.stages|))
    && Prefix(cs.Reads(|cs.stages|), ss.Writes(|ss.stages|))
    && forall i, j | 0 <= i < |ss.stages| && 0 <= j < |cs.stages| ::
         |ss.Reads(i + 1)| <= |cs.Writes(j)| || |cs.Reads(j + 1)| <= |ss.Writes(i)|
  }

  lemma {:induction false} ReadsGrow<P>(sc: Script<P>, i: nat, j: nat)
    requires i <= j <= |sc.stages|
    ensures Prefix(sc.Reads(i), sc.Reads(j)) && Prefix(sc.Writes(i), sc.Writes(j))
    decreases j
  {
    if i < j {
      ReadsGrow(sc, i, j - 1);
    }
  }

  // ---------- the invariant ----------

  ghost predicate At<P>(p: Party<P>, sc: Script<P>, i: nat) {
    && i <= |sc.stages|
    && p.pc == sc.PcAt(i)
    && |p.got| <= if i < |sc.stages| then |sc.stages[i].field| else 0
  }

  /** Server at stage i, client at stage j, and every octet written is read, held, in flight or pending. */
  ghost predicate Inv<C, S>(cs: Script<C>, ss: Script<S>, n: Net<C, S>, i: nat, j: nat) {
    && At(n.server, ss, i)
    && At(n.client, cs, j)
    && ss.Reads(i) + n.server.got + n.up + n.client.out == cs.Writes(j)
    && cs.Reads(j) + n.client.got + n.down + n.server.out == ss.Writes(i)
  }

  /** Octets still to be put on a stream or taken off it, plus program steps still to be taken. */
  ghost function Measure<C, S>(cs: Script<C>, ss: Script<S>, n: Net<C, S>, i: nat, j: nat): int
    requires i <= |ss.stages| && j <= |cs.stages|
  {
    Side(cs, ss, n.client.out, n.server.got, j, i) + Side(ss, cs, n.server.out, n.client.got, i, j)
  }

  ghost function Side<C, S>(cs: Script<C>, ss: Script<S>, out: seq<Byte>, got: seq<Byte>, j: nat, i: nat): int
    requires i <= |ss.stages| && j <= |cs.stages|
  {
    2 * |cs.Writes(|cs.stages|)| - (|cs.Writes(j)| - |out|) - (|ss.Reads(i)| + |got|) + (|ss.stages| - i)
  }

  lemma MeasureNonnegative<C, S>(cs: Script<C>, ss: Script<S>, n: Net<C, S>, i: nat, j: nat)
    requires Inv(cs, ss, n, i, j)
    ensures 0 <= Measure(cs, ss, n, i, j)
  {
    ReadsGrow(cs, j, |cs.stages|);
    ReadsGrow(ss, i, |ss.stages|);
  }

  /** At the end of a read the octets held are the field of the stage. */
  lemma GotField(past: seq<Byte>, field: seq<Byte>, got: seq<Byte>, more: seq<Byte>, written: seq<Byte>, all: seq<Byte>)
    requires past + got + more == written && |got| == |field|
    requires Prefix(written, all) && Prefix(past + field, all)
    ensures got == field
  {
    assert written[|past|..|past| + |got|] == got;
    assert all[|past|..|past| + |field|] == field;
    assert written[|past|..|past| + |got|] == all[|past|..|past| + |got|];
  }

  /**
   * One side at stage i of its script: it has read Reads(i) and holds got of what the peer wrote (heard, of which
   * pending is not yet on the stream); of what it wrote itself the peer has taken `taken`.
   */
  ghost predicate EndInv<P>(
    sc: Script<P>, e: End<P>, i: nat, pending: seq<Byte>, heard: seq<Byte>, taken: seq<Byte>)
  {
    && At(e.party, sc, i)
    && sc.Reads(i) + e.party.got + e.inbox + pending == heard
    && taken + e.outbox + e.party.out == sc.Writes(i)
  }

  ghost function Done<P>(sc: Script<P>, e: End<P>, i: nat): int
    requires i <= |sc.stages|
  {
    |sc.Writes(i)| - |e.party.out| + |sc.Reads(i)| + |e.party.got| + i
  }

  lemma FlushStep<P>(
    sc: Script<P>, e: End<P>, e': End<P>, k: nat, i: nat, pending: seq<Byte>, heard: seq<Byte>, taken: seq<Byte>)
    requires EndInv(sc, e, i, pending, heard, taken) && Flush(e, e', k)
    ensures EndInv(sc, e', i, pending, heard, taken)
    ensures Done(sc, e, i) < Done(sc, e', i)
  {
    hide Script.Reads, Script.Writes;
    assert e.party.out == e.party.out[..k] + e.party.out[k..];
    assert taken + e.outbox + (e.party.out[..k] + e.party.out[k..])
        == taken + (e.outbox + e.party.out[..k]) + e.party.out[k..];
  }

  lemma ReceiveStep<P>(
    prog: Program<P>, sc: Script<P>, e: End<P>, e': End<P>, k: nat, i: nat,
    pending: seq<Byte>, heard: seq<Byte>, taken: seq<Byte>)
    requires Follows(prog, sc) && EndInv(sc, e, i, pending, heard, taken) && Receive(prog, e, e', k)
    ensures EndInv(sc, e', i, pending, heard, taken)
    ensures Done(sc, e, i) < Done(sc, e', i)
  {
    hide Script.Reads, Script.Writes;
    assert e.inbox == e.inbox[..k] + e.inbox[k..];
    assert sc.Reads(i) + e.party.got + (e.inbox[..k] + e.inbox[k..]) + pending
        == sc.Reads(i) + (e.party.got + e.inbox[..k]) + e.inbox[k..] + pending;
  }

  lemma ActStep<P>(
    prog: Program<P>, sc: Script<P>, e: End<P>, e': End<P>, i: nat,
    pending: seq<Byte>, heard: seq<Byte>, taken: seq<Byte>, all: seq<Byte>)
    requires Follows(prog, sc) && EndInv(sc, e, i, pending, heard, taken) && Act(prog, e, e')
    requires Prefix(heard, all) && Prefix(sc.Reads(|sc.stages|), all)
    ensures i < |sc.stages| && EndInv(sc, e', i + 1, pending, heard, taken)
    ensures Done(sc, e, i) < Done(sc, e', i + 1)
  {
    var stage := sc.stages[i];
    ReadsGrow(sc, i + 1, |sc.stages|);
    assert sc.Reads(i + 1) == sc.Reads(i) + stage.field;
    assert sc.Writes(i + 1) == sc.Writes(i) + stage.out;
    hide Script.Reads, Script.Writes;
    assert sc.Reads(i) + e.party.got + (e.inbox + pending) == heard;
    GotField(sc.Reads(i), stage.field, e.party.got, e.inbox + pending, heard, all);
    assert e'.party == Party(sc.PcAt(i + 1), [], stage.out);
    hide Prefix;
    assert sc.Reads(i + 1) + [] == sc.Reads(i) + e.party.got;
    assert taken + e.outbox + [] == taken + e.outbox;
  }

  /** A side's move keeps its invariant, and its stage advances by one or not at all. */
  lemma EndStep<P>(
    prog: Program<P>, sc: Script<P>, e: End<P>, e': End<P>, i: nat,
    pending: seq<Byte>, heard: seq<Byte>, taken: seq<Byte>, all: seq<Byte>)
    returns (i': nat)
    requires Follows(prog, sc) && EndInv(sc, e, i, pending, heard, taken) && Moves(prog, e, e')
    requires Prefix(heard, all) && Prefix(sc.Reads(|sc.stages|), all)
    ensures EndInv(sc, e', i', pending, heard, taken)
    ensures Done(sc, e, i) < Done(sc, e', i')
  {
    if k: nat :| Flush(e, e', k) {
      i' := i;
      FlushStep(sc, e, e', k, i, pending, heard, taken);
    } else if k: nat :| Receive(prog, e, e', k) {
      i' := i;
      ReceiveStep(prog, sc, e, e', k, i, pending, heard, taken);
    } else {
      i' := i + 1;
      ActStep(prog, sc, e, e', i, pending, heard, taken, all);
    }
  }

  /** Every step of either side keeps the invariant and uses up some of the measure. */
  lemma StepKeepsInv<C(!new), S(!new)>(
    cp: Program<C>, sp: Program<S>, cs: Script<C>, ss: Script<S>, n: Net<C, S>, n': Net<C, S>, i: nat, j: nat)
    returns (i': nat, j': nat)
    requires Follows(cp, cs) && Follows(sp, ss) && Fit(cs, ss)
    requires Inv(cs, ss, n, i, j) && Step(cp, sp, n, n')
    ensures Inv(cs, ss, n', i', j')
    ensures Measure(cs, ss, n', i', j') < Measure(cs, ss, n, i, j)
  {
    i', j' := i, j;
    ReadsGrow(cs, j, |cs.stages|);
    ReadsGrow(ss, i, |ss.stages|);
    hide Script.Reads, Script.Writes;
    var up, down := ss.Reads(i) + n.server.got, cs.Reads(j) + n.client.got;
    if ClientStep(cp, n, n') {
      j' := EndStep(cp, cs, n.ClientEnd(), n'.ClientEnd(), j, n.server.out, ss.Writes(i), up, ss.Writes(|ss.stages|));
    } else {
      i' := EndStep(sp, ss, n.ServerEnd(), n'.ServerEnd(), i, n.client.out, cs.Writes(j), down, cs.Writes(|cs.stages|));
    }
  }

  // ---------- no deadlock ----------

  ghost predicate Finished<C, S>(cs: Script<C>, ss: Script<S>, n: Net<C, S>) {
    && n.client == Party(cs.end, [], [])
    && n.server == Party(ss.end, [], [])
    && ss.Reads(|ss.stages|) + n.up == cs.Writes(|cs.stages|)
    && cs.Reads(|cs.stages|) + n.down == ss.Writes(|ss.stages|)
  }

  ghost predicate CanMove<P>(prog: Program<P>, e: End<P>) {
    || e.party.out != []
    || (prog.need(e.party.pc).Some? && |e.party.got| == prog.need(e.party.pc).value)
    || (prog.need(e.party.pc).Some? && |e.party.got| < prog.need(e.party.pc).value && e.inbox != [])
  }

  lemma MoveOf<P>(prog: Program<P>, e: End<P>) returns (e': End<P>)
    requires CanMove(prog, e)
    ensures Moves(prog, e, e')
  {
    if e.party.out != [] {
      e' := End(e.party.(out := e.party.out[1..]), e.inbox, e.outbox + e.party.out[..1]);
      assert Flush(e, e', 1);
    } else if |e.party.got| == prog.need(e.party.pc).value {
      var (pc, out) := prog.act(e.party.pc, e.party.got);
      e' := End(Party(pc, [], out), e.inbox, e.outbox);
    } else {
      e' := End(e.party.(got := e.party.got + e.inbox[..1]), e.inbox[1..], e.outbox);
      assert Receive(prog, e, e', 1);
    }
  }

  /** A state in which neither side can move is one in which both have finished. */
  lemma StuckIsFinished<C(!new), S(!new)>(
    cp: Program<C>, sp: Program<S>, cs: Script<C>, ss: Script<S>, n: Net<C, S>, i: nat, j: nat)
    requires Follows(cp, cs) && Follows(sp, ss) && Fit(cs, ss) && Inv(cs, ss, n, i, j)
    requires Stuck(cp, sp, n)
    ensures Finished(cs, ss, n)
  {
    if CanMove(cp, n.ClientEnd()) {
      var e' := MoveOf(cp, n.ClientEnd());
      assert Step(cp, sp, n, n.WithClient(e'));
      assert false;
    }
    if CanMove(sp, n.ServerEnd()) {
      var e' := MoveOf(sp, n.ServerEnd());
      assert Step(cp, sp, n, n.WithServer(e'));
      assert false;
    }
    BothAtEnd(cp, sp, cs, ss, n, i, j);
  }

  lemma BothAtEnd<C(!new), S(!new)>(
    cp: Program<C>, sp: Program<S>, cs: Script<C>, ss: Script<S>, n: Net<C, S>, i: nat, j: nat)
    requires Follows(cp, cs) && Follows(sp, ss) && Fit(cs, ss) && Inv(cs, ss, n, i, j)
    requires !CanMove(cp, n.ClientEnd()) && !CanMove(sp, n.ServerEnd())
    ensures Finished(cs, ss, n)
  {
    AtLastStages(cp, sp, cs, ss, n, i, j);
    hide Script.Reads, Script.Writes, Fit, Prefix;
    assert n.client.out == [] && n.server.out == [] && n.client.got == [] && n.server.got == [];
    var up, down := ss.Reads(|ss.stages|), cs.Reads(|cs.stages|);
    assert up + [] + n.up + [] == up + n.up && down + [] + n.down + [] == down + n.down;
  }

  lemma AtLastStages<C(!new), S(!new)>(
    cp: Program<C>, sp: Program<S>, cs: Script<C>, ss: Script<S>, n: Net<C, S>, i: nat, j: nat)
    requires Follows(cp, cs) && Follows(sp, ss) && Fit(cs, ss) && Inv(cs, ss, n, i, j)
    requires !CanMove(cp, n.ClientEnd()) && !CanMove(sp, n.ServerEnd())
    ensures i == |ss.stages| && j == |cs.stages|
  {
    assert n.client.out == [] && n.server.out == [];
    FitLengths(cs, ss, i, j);
    if i < |ss.stages| {
      ServerWaits(cs, ss, n, i, j, sp);
    }
    if j < |cs.stages| {
      ClientWaits(cs, ss, n, i, j, cp);
    }
    hide Script.Reads, Script.Writes, Inv, Follows, CanMove, Fit;
  }

  /** What fitting scripts say about the lengths of reads and writes. */
  lemma FitLengths<C, S>(cs: Script<C>, ss: Script<S>, i: nat, j: nat)
    requires Fit(cs, ss) && i <= |ss.stages| && j <= |cs.stages|
    ensures i < |ss.stages| && j == |cs.stages| ==> |ss.Reads(i + 1)| <= |cs.Writes(j)|
    ensures j < |cs.stages| && i == |ss.stages| ==> |cs.Reads(j + 1)| <= |ss.Writes(i)|
    ensures i < |ss.stages| && j < |cs.stages| ==>
              |ss.Reads(i + 1)| <= |cs.Writes(j)| || |cs.Reads(j + 1)| <= |ss.Writes(i)|
  {
    hide Script.Reads, Script.Writes;
    if i < |ss.stages| {
      ReadsGrow(ss, i + 1, |ss.stages|);
    }
    if j < |cs.stages| {
      ReadsGrow(cs, j + 1, |cs.stages|);
    }
  }

  lemma ServerWaits<C, S>(cs: Script<C>, ss: Script<S>, n: Net<C, S>, i: nat, j: nat, sp: Program<S>)
    requires Follows(sp, ss) && Inv(cs, ss, n, i, j) && i < |ss.stages|
    requires n.client.out == [] && !CanMove(sp, n.ServerEnd())
    ensures |cs.Writes(j)| < |ss.Reads(i + 1)|
  {
  }

  lemma ClientWaits<C, S>(cs: Script<C>, ss: Script<S>, n: Net<C, S>, i: nat, j: nat, cp: Program<C>)
    requires Follows(cp, cs) && Inv(cs, ss, n, i, j) && j < |cs.stages|
    requires n.server.out == [] && !CanMove(cp, n.ClientEnd())
    ensures |ss.Writes(i)| < |cs.Reads(j + 1)|
  {
  }

  // ---------- whole runs ----------

  ghost function Start<C, S>(cs: Script<C>, ss: Script<S>): Net<C, S> {
    Net(Party(cs.PcAt(0), [], cs.opening), Party(ss.PcAt(0), [], ss.opening), [], [])
  }

  lemma {:induction false} RunKeepsInv<C(!new), S(!new)>(
    cp: Program<C>, sp: Program<S>, cs: Script<C>, ss: Script<S>, ns: seq<Net<C, S>>)
    returns (i: nat, j: nat)
    requires Follows(cp, cs) && Follows(sp, ss) && Fit(cs, ss)
    requires Run(cp, sp, ns) && ns[0] == Start(cs, ss)
    ensures Inv(cs, ss, ns[|ns| - 1], i, j)
    ensures Measure(cs, ss, ns[|ns| - 1], i, j) + |ns| <= Measure(cs, ss, ns[0], 0, 0) + 1
    decreases |ns|
  {
    if |ns| == 1 {
      i, j := 0, 0;
    } else {
      var before := ns[..|ns| - 1];
      i, j := RunKeepsInv(cp, sp, cs, ss, before);
      assert Step(cp, sp, before[|before| - 1], ns[|ns| - 1]);
      i, j := StepKeepsInv(cp, sp, cs, ss, before[|before| - 1], ns[|ns| - 1], i, j);
    }
  }

  /** The longest run two scripts allow. */
  ghost function Bound<C, S>(cs: Script<C>, ss: Script<S>): int {
    2 * |cs.Writes(|cs.stages|)| + 2 * |ss.Writes(|ss.stages|)| + |cs.stages| + |ss.stages|
  }

  /**
   * Two programs whose scripts fit, however their streams are cut up and their steps interleaved: no run is longer
   * than the bound, and a run that cannot go on has brought both to their ends, with exactly the octets that
   * neither script reads still on the streams.
   */
  lemma RunsFinish<C(!new), S(!new)>(
    cp: Program<C>, sp: Program<S>, cs: Script<C>, ss: Script<S>, ns: seq<Net<C, S>>)
    requires Follows(cp, cs) && Follows(sp, ss) && Fit(cs, ss)
    requires Run(cp, sp, ns) && ns[0] == Start(cs, ss)
    ensures |ns| <= Bound(cs, ss) + 1
    ensures Stuck(cp, sp, ns[|ns| - 1]) ==> Finished(cs, ss, ns[|ns| - 1])
  {
    var i, j := RunKeepsInv(cp, sp, cs, ss, ns);
    MeasureNonnegative(cs, ss, ns[|ns| - 1], i, j);
    if Stuck(cp, sp, ns[|ns| - 1]) {
      StuckIsFinished(cp, sp, cs, ss, ns[|ns| - 1], i, j);
    }
  }
}
