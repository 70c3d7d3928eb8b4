/**
 * Runs of two programs end where each program, fed all that the other one wrote, ends on its own. So every dial,
 * also one whose name or credentials do not fit, ends as the specifications of the two methods say.
 */
module EveryDial {
  import opened Bytes
  import opened HostPort
  import IpText
  import opened Wire
  import opened Socks5Server
  import Socks5Client
  import opened TwoParty
  import opened Handshake
  import opened HandshakeRuns

  // ---------- a program on its own ----------

  /** Where a program ends on a stream, what it writes on the way, and what it leaves of the stream. */
  datatype Ending<P> = Ending(pc: P, wrote: seq<Byte>, rest: seq<Byte>)

  /** Every step of the program lowers its rank. */
  ghost predicate Ranked<P(!new)>(prog: Program<P>, rank: P -> nat) {
    forall pc, got :: prog.need(pc) == Some(|got|) ==> rank(prog.act(pc, got).0) < rank(pc)
  }

  function Finish<P>(prog: Program<P>, rank: P -> nat, pc: P, s: seq<Byte>): Ending<P>
    decreases rank(pc)
  {
    match prog.need(pc)
    case None => Ending(pc, [], s)
    case Some(n) =>
      if |s| < n then Ending(pc, [], s)
      else
        var (pc', out) := prog.act(pc, s[..n]);
        if rank(pc) <= rank(pc') then Ending(pc, [], s)
        else
          var e := Finish(prog, rank, pc', s[n..]);
          Ending(e.pc, out + e.wrote, e.rest)
  }

  lemma FinishStep<P(!new)>(prog: Program<P>, rank: P -> nat, pc: P, got: seq<Byte>, more: seq<Byte>)
    requires Ranked(prog, rank) && prog.need(pc) == Some(|got|)
    ensures var (pc', out) := prog.act(pc, got);
            var e := Finish(prog, rank, pc', more);
            Finish(prog, rank, pc, got + more) == Ending(e.pc, out + e.wrote, e.rest)
  {
    assert (got + more)[..|got|] == got && (got + more)[|got|..] == more;
  }

  /** Having consumed x, the program stands at pc and has written out; on any stream, it goes on from there. */
  ghost predicate GoesOn<P>(
    prog: Program<P>, rank: P -> nat, start: P, x: seq<Byte>, pc: P, out: seq<Byte>, more: seq<Byte>)
  {
    var e := Finish(prog, rank, pc, more);
    Finish(prog, rank, start, x + more) == Ending(e.pc, out + e.wrote, e.rest)
  }

  ghost predicate Reaches<P>(prog: Program<P>, rank: P -> nat, start: P, h: History, pc: P) {
    forall more :: GoesOn(prog, rank, start, h.consumed, pc, h.wrote, more)
  }

  /** All that one end of a run has consumed and written. */
  datatype History = History(consumed: seq<Byte>, wrote: seq<Byte>)

  const NOTHING := History([], [])

  lemma ReachesStart<P>(prog: Program<P>, rank: P -> nat, start: P)
    ensures Reaches(prog, rank, start, NOTHING, start)
  {
    hide Finish;
    forall more
      ensures GoesOn(prog, rank, start, [], start, [], more)
    {
      assert [] + more == more;
      assert [] + Finish(prog, rank, start, more).wrote == Finish(prog, rank, start, more).wrote;
    }
  }

  lemma ReachesNext<P(!new)>(prog: Program<P>, rank: P -> nat, start: P, h: History, pc: P, got: seq<Byte>)
    requires Ranked(prog, rank) && Reaches(prog, rank, start, h, pc) && prog.need(pc) == Some(|got|)
    ensures var (pc', out) := prog.act(pc, got);
            Reaches(prog, rank, start, History(h.consumed + got, h.wrote + out), pc')
  {
    hide Finish;
    var (pc', out) := prog.act(pc, got);
    forall more
      ensures GoesOn(prog, rank, start, h.consumed + got, pc', h.wrote + out, more)
    {
      FinishStep(prog, rank, pc, got, more);
      assert GoesOn(prog, rank, start, h.consumed, pc, h.wrote, got + more);
      assert h.consumed + got + more == h.consumed + (got + more);
      var wrote := Finish(prog, rank, pc', more).wrote;
      assert h.wrote + (out + wrote) == h.wrote + out + wrote;
    }
  }

  // ---------- one end of a run ----------

  ghost predicate EndKept<P>(prog: Program<P>, rank: P -> nat, start: P, p: Party<P>, h: History) {
    && Reaches(prog, rank, start, h, p.pc)
    && (prog.need(p.pc).Some? ==> |p.got| <= prog.need(p.pc).value)
    && (prog.need(p.pc).None? ==> p.got == [])
  }

  /** The octets that have come in at an end, and those that have gone out of its program, given those already taken. */
  function Incoming<P>(e: End<P>, h: History): seq<Byte> {
    h.consumed + e.party.got + e.inbox
  }

  function Outgoing<P>(e: End<P>, taken: seq<Byte>): seq<Byte> {
    taken + e.outbox + e.party.out
  }

  lemma FlushKeepsEnd<P>(
    prog: Program<P>, rank: P -> nat, start: P, e: End<P>, e': End<P>, k: nat, h: History, taken: seq<Byte>)
    requires EndKept(prog, rank, start, e.party, h) && Flush(e, e', k)
    ensures EndKept(prog, rank, start, e'.party, h)
    ensures Incoming(e', h) == Incoming(e, h) && Outgoing(e', taken) == Outgoing(e, taken)
  {
    hide Reaches;
    assert e.party.out == e.party.out[..k] + e.party.out[k..];
  }

  lemma ReceiveKeepsEnd<P>(
    prog: Program<P>, rank: P -> nat, start: P, e: End<P>, e': End<P>, k: nat, h: History, taken: seq<Byte>)
    requires EndKept(prog, rank, start, e.party, h) && Receive(prog, e, e', k)
    ensures EndKept(prog, rank, start, e'.party, h)
    ensures Incoming(e', h) == Incoming(e, h) && Outgoing(e', taken) == Outgoing(e, taken)
  {
    hide Reaches;
    assert e.inbox == e.inbox[..k] + e.inbox[k..];
  }

  lemma ActKeepsEnd<P(!new)>(
    prog: Program<P>, rank: P -> nat, start: P, e: End<P>, e': End<P>, h: History, taken: seq<Byte>, opening: seq<Byte>)
    returns (h': History)
    requires Ranked(prog, rank) && EndKept(prog, rank, start, e.party, h) && Act(prog, e, e')
    requires Outgoing(e, taken) == opening + h.wrote
    ensures EndKept(prog, rank, start, e'.party, h')
    ensures Incoming(e', h') == Incoming(e, h) && Outgoing(e', taken) == opening + h'.wrote
  {
    var (pc, out) := prog.act(e.party.pc, e.party.got);
    h' := History(h.consumed + e.party.got, h.wrote + out);
    ReachesNext(prog, rank, start, h, e.party.pc, e.party.got);
    hide Reaches, Ranked;
    assert h'.consumed + [] + e.inbox == h.consumed + e.party.got + e.inbox;
    assert taken + e.outbox + [] == taken + e.outbox;
    assert opening + (h.wrote + out) == opening + h.wrote + out;
  }

  lemma MoveKeepsEnd<P(!new)>(
    prog: Program<P>, rank: P -> nat, start: P, e: End<P>, e': End<P>, h: History, taken: seq<Byte>, opening: seq<Byte>)
    returns (h': History)
    requires Ranked(prog, rank) && EndKept(prog, rank, start, e.party, h) && Moves(prog, e, e')
    requires Outgoing(e, taken) == opening + h.wrote
    ensures EndKept(prog, rank, start, e'.party, h')
    ensures Incoming(e', h') == Incoming(e, h) && Outgoing(e', taken) == opening + h'.wrote
  {
    hide EndKept, Ranked, Incoming, Outgoing, Flush, Receive, Act;
    if k: nat :| Flush(e, e', k) {
      FlushKeepsEnd(prog, rank, start, e, e', k, h, taken);
      h' := h;
    } else if k: nat :| Receive(prog, e, e', k) {
      ReceiveKeepsEnd(prog, rank, start, e, e', k, h, taken);
      h' := h;
    } else {
      h' := ActKeepsEnd(prog, rank, start, e, e', h, taken, opening);
    }
  }

  // ---------- both ends ----------

  /** Two programs with their ranks and starting points, and what the client has to write at the start. */
  datatype Pair<!C, !S> = Pair(
    client: Program<C>, server: Program<S>, clientRank: C -> nat, serverRank: S -> nat,
    clientStart: C, serverStart: S, opening: seq<Byte>)

  ghost predicate RankedPair<C(!new), S(!new)>(p: Pair<C, S>) {
    Ranked(p.client, p.clientRank) && Ranked(p.server, p.serverRank)
  }

  ghost predicate Kept<C, S>(p: Pair<C, S>, n: Net<C, S>, ch: History, sh: History) {
    && EndKept(p.client, p.clientRank, p.clientStart, n.client, ch)
    && EndKept(p.server, p.serverRank, p.serverStart, n.server, sh)
    && sh.consumed + n.server.got + n.up + n.client.out == p.opening + ch.wrote
    && ch.consumed + n.client.got + n.down + n.server.out == sh.wrote
  }

  lemma StepKeeps<C(!new), S(!new)>(p: Pair<C, S>, n: Net<C, S>, n': Net<C, S>, ch: History, sh: History)
    returns (ch': History, sh': History)
    requires RankedPair(p) && Kept(p, n, ch, sh) && Step(p.client, p.server, n, n')
    ensures Kept(p, n', ch', sh')
  {
    hide EndKept, Moves, Ranked;
    ch', sh' := ch, sh;
    if ClientStep(p.client, n, n') {
      var taken := sh.consumed + n.server.got;
      ch' := MoveKeepsEnd(p.client, p.clientRank, p.clientStart, n.ClientEnd(), n'.ClientEnd(), ch, taken, p.opening);
    } else {
      var taken := ch.consumed + n.client.got;
      assert [] + sh.wrote == sh.wrote;
      sh' := MoveKeepsEnd(p.server, p.serverRank, p.serverStart, n.ServerEnd(), n'.ServerEnd(), sh, taken, []);
      assert [] + sh'.wrote == sh'.wrote;
    }
  }

  ghost function Beginning<C, S>(p: Pair<C, S>): Net<C, S> {
    Net(Party(p.clientStart, [], p.opening), Party(p.serverStart, [], []), [], [])
  }

  lemma {:induction false} RunKeeps<C(!new), S(!new)>(p: Pair<C, S>, ns: seq<Net<C, S>>)
    returns (ch: History, sh: History)
    requires RankedPair(p) && Run(p.client, p.server, ns) && ns[0] == Beginning(p)
    ensures Kept(p, ns[|ns| - 1], ch, sh)
  {
    if |ns| == 1 {
      ch, sh := NOTHING, NOTHING;
      ReachesStart(p.client, p.clientRank, p.clientStart);
      ReachesStart(p.server, p.serverRank, p.serverStart);
      hide Reaches;
    } else {
      var before := ns[..|ns| - 1];
      assert Run(p.client, p.server, before) by {
        forall k | 0 < k < |before|
          ensures Step(p.client, p.server, before[k - 1], before[k])
        {
          assert Step(p.client, p.server, ns[k - 1], ns[k]);
        }
      }
      hide Kept, Step, RankedPair;
      var ch0, sh0 := RunKeeps(p, before);
      ch, sh := StepKeeps(p, before[|before| - 1], ns[|ns| - 1], ch0, sh0);
    }
  }

  // ---------- where runs end ----------

  lemma StillEnds<P>(prog: Program<P>, rank: P -> nat, start: P, e: End<P>, h: History)
    requires EndKept(prog, rank, start, e.party, h) && !CanMove(prog, e)
    ensures e.party.out == []
    ensures Finish(prog, rank, start, Incoming(e, h)) == Ending(e.party.pc, h.wrote, e.party.got + e.inbox)
  {
    var pc, rest := e.party.pc, e.party.got + e.inbox;
    assert Finish(prog, rank, pc, rest) == Ending(pc, [], rest);
    assert GoesOn(prog, rank, start, h.consumed, pc, h.wrote, rest);
    hide Finish;
    assert h.consumed + rest == Incoming(e, h);
    assert h.wrote + [] == h.wrote;
  }

  /**
   * When nothing more can happen in a run, each side stands where its program, fed all that the other side wrote,
   * ends on its own; it has written what that program writes, and what that program leaves is still unread.
   */
  lemma RunsEndAlone<C(!new), S(!new)>(p: Pair<C, S>, ns: seq<Net<C, S>>) returns (up: seq<Byte>, down: seq<Byte>)
    requires RankedPair(p) && Run(p.client, p.server, ns) && ns[0] == Beginning(p)
    requires Stuck(p.client, p.server, ns[|ns| - 1])
    ensures var n := ns[|ns| - 1];
            var client := Finish(p.client, p.clientRank, p.clientStart, down);
            var server := Finish(p.server, p.serverRank, p.serverStart, up);
            && n == Net(Party(client.pc, n.client.got, []), Party(server.pc, n.server.got, []), n.up, n.down)
            && up == p.opening + client.wrote && down == server.wrote
            && n.server.got + n.up == server.rest && n.client.got + n.down == client.rest
  {
    var n := ns[|ns| - 1];
    var ch, sh := RunKeeps(p, ns);
    NeitherMoves(p, n);
    hide EndKept, CanMove, Finish, RankedPair, Run, Stuck;
    StillEnds(p.client, p.clientRank, p.clientStart, n.ClientEnd(), ch);
    StillEnds(p.server, p.serverRank, p.serverStart, n.ServerEnd(), sh);
    up, down := Incoming(n.ServerEnd(), sh), Incoming(n.ClientEnd(), ch);
    assert up + [] == up && down + [] == down;
  }

  lemma NeitherMoves<C(!new), S(!new)>(p: Pair<C, S>, n: Net<C, S>)
    requires Stuck(p.client, p.server, n)
    ensures !CanMove(p.client, n.ClientEnd()) && !CanMove(p.server, n.ServerEnd())
  {
    if CanMove(p.client, n.ClientEnd()) {
      var e := MoveOf(p.client, n.ClientEnd());
      assert Step(p.client, p.server, n, n.WithClient(e));
    }
    if CanMove(p.server, n.ServerEnd()) {
      var e := MoveOf(p.server, n.ServerEnd());
      assert Step(p.client, p.server, n, n.WithServer(e));
    }
  }

  // ---------- runs are bounded ----------

  ghost predicate Terse<P(!new)>(prog: Program<P>, limit: nat) {
    forall pc, got :: prog.need(pc) == Some(|got|) ==> |prog.act(pc, got).1| <= limit
  }

  /** Steps of the programs still to come, at the price of their output, and octets still to be moved. */
  function Weight<C, S>(p: Pair<C, S>, limit: nat, n: Net<C, S>): nat {
    (p.clientRank(n.client.pc) + p.serverRank(n.server.pc)) * (2 * limit + 1)
    + 2 * (|n.client.out| + |n.server.out|) + |n.up| + |n.down|
  }

  lemma Cheaper(a: nat, b: nat, limit: nat, out: nat)
    requires a < b && out <= limit
    ensures a * (2 * limit + 1) + 2 * out < b * (2 * limit + 1)
  {
    assert (a + 1) * (2 * limit + 1) <= b * (2 * limit + 1);
  }

  lemma StepIsLighter<C(!new), S(!new)>(p: Pair<C, S>, limit: nat, n: Net<C, S>, n': Net<C, S>)
    requires RankedPair(p) && Terse(p.client, limit) && Terse(p.server, limit) && Step(p.client, p.server, n, n')
    ensures Weight(p, limit, n') < Weight(p, limit, n)
  {
    var a := p.clientRank(n.client.pc) + p.serverRank(n.server.pc);
    var b := p.clientRank(n'.client.pc) + p.serverRank(n'.server.pc);
    if a != b && b < a {
      var out := |n'.client.out| + |n'.server.out|;
      if Act(p.client, n.ClientEnd(), n'.ClientEnd()) && n'.server == n.server {
        Cheaper(b, a, limit, |n'.client.out|);
      } else if Act(p.server, n.ServerEnd(), n'.ServerEnd()) {
        Cheaper(b, a, limit, |n'.server.out|);
      }
    }
  }

  lemma {:induction false} RunIsBounded<C(!new), S(!new)>(p: Pair<C, S>, limit: nat, ns: seq<Net<C, S>>)
    requires RankedPair(p) && Terse(p.client, limit) && Terse(p.server, limit) && Run(p.client, p.server, ns)
    ensures Weight(p, limit, ns[|ns| - 1]) + |ns| <= Weight(p, limit, ns[0]) + 1
  {
    if 1 < |ns| {
      var before := ns[..|ns| - 1];
      forall k | 0 < k < |before|
        ensures Step(p.client, p.server, before[k - 1], before[k])
      {
        assert Step(p.client, p.server, ns[k - 1], ns[k]);
      }
      StepIsLighter(p, limit, ns[|ns| - 2], ns[|ns| - 1]);
      hide Weight, Step, Terse, RankedPair;
      RunIsBounded(p, limit, before);
    }
  }

  // ---------- dials ----------

  function DialPair(cl: Client, cfg: Config, upstream: seq<Byte>): Pair<ClientPc, ServerPc> {
    Pair(ClientProgram(cl), ServerProgram(cfg, upstream), ClientRank, ServerRank, GreetReply, Greet, Greeting(cl.auth))
  }

  lemma DialPairIsRanked(cl: Client, cfg: Config, upstream: seq<Byte>)
    ensures RankedPair(DialPair(cl, cfg, upstream))
  {
    hide ReplyMessage, Decide;
  }

  /** What the target sends is appended by the last step alone. */
  lemma ServerActs(cfg: Config, upstream: seq<Byte>, pc: ServerPc, got: seq<Byte>)
    requires ServerNeed(pc) == Some(|got|)
    ensures var (pc', out) := ServerAct(cfg, [], pc, got);
            && ServerRank(pc') < ServerRank(pc)
            && ServerAct(cfg, upstream, pc, got).0 == pc'
            && ServerAct(cfg, upstream, pc, got).1 == out + Follow(pc', upstream)
  {
    hide ReplyMessage, Decide;
    if pc.Port? {
      var out := ServerAct(cfg, [], pc, got).1;
      var target := JoinHostPort(pc.host, Itoa(Uint16(got)));
      var reply := ReplyMessage(cfg.codec, Decide(cfg, pc.command, target).1,
                                Decide(cfg, pc.command, target).2, Decide(cfg, pc.command, target).3);
      assert reply + [] == reply;
      assert out == reply;
    }
  }

  /** What the target sends through a server that has come to relay. */
  function Follow(pc: ServerPc, upstream: seq<Byte>): seq<Byte> {
    if pc.Ended? && pc.service.Relaying? then upstream else []
  }

  lemma ServeAloneStep(cfg: Config, pc: ServerPc, got: seq<Byte>, rest: seq<Byte>)
    requires ServerNeed(pc) == Some(|got|)
    ensures var (pc', out) := ServerAct(cfg, [], pc, got);
            var a := ServeAlone(cfg, pc', rest);
            ServeAlone(cfg, pc, got + rest) == Alone(a.pc, out + a.sent, a.rest)
  {
    hide ServerAct, ServeAlone;
    ServeAloneAfter(cfg, pc, got, rest);
    var (pc', out) := ServerAct(cfg, [], pc, got);
    var a := ServeAlone(cfg, pc', rest);
    assert [] + a.sent == a.sent;
  }

  lemma ServerFinishStep(cfg: Config, upstream: seq<Byte>, pc: ServerPc, got: seq<Byte>, rest: seq<Byte>)
    requires ServerNeed(pc) == Some(|got|)
    ensures var (pc', out) := ServerAct(cfg, upstream, pc, got);
            var prog := ServerProgram(cfg, upstream);
            var f := Finish(prog, ServerRank, pc', rest);
            Finish(prog, ServerRank, pc, got + rest) == Ending(f.pc, out + f.wrote, f.rest)
  {
    ServerActs(cfg, upstream, pc, got);
    var prog := ServerProgram(cfg, upstream);
    assert (got + rest)[..|got|] == got && (got + rest)[|got|..] == rest;
    assert prog.need(pc) == Some(|got|) && prog.act(pc, got) == ServerAct(cfg, upstream, pc, got);
    hide ServerAct, ServerProgram;
  }

  lemma {:induction false} ServerFinish(cfg: Config, upstream: seq<Byte>, pc: ServerPc, s: seq<Byte>)
    ensures var f := Finish(ServerProgram(cfg, upstream), ServerRank, pc, s);
            var a := ServeAlone(cfg, pc, s);
            && f.pc == a.pc && f.rest == a.rest
            && f.wrote == a.sent + (if pc.Ended? then [] else Follow(a.pc, upstream))
    decreases ServerRank(pc)
  {
    if ServerNeed(pc).Some? && ServerNeed(pc).value <= |s| {
      var got, rest := s[..ServerNeed(pc).value], s[ServerNeed(pc).value..];
      assert got + rest == s && !pc.Ended?;
      hide ServerAct, ServeAlone, Finish, ServerProgram, ServerRank, ServerNeed, Follow;
      ServerActs(cfg, upstream, pc, got);
      var (pc', out) := ServerAct(cfg, [], pc, got);
      ServerFinish(cfg, upstream, pc', rest);
      ServeAloneStep(cfg, pc, got, rest);
      ServerFinishStep(cfg, upstream, pc, got, rest);
      ServerFollows(cfg, upstream, pc', rest, out);
    } else {
      ServerStands(cfg, upstream, pc, s);
    }
  }

  lemma ServerStands(cfg: Config, upstream: seq<Byte>, pc: ServerPc, s: seq<Byte>)
    requires ServerNeed(pc).Some? ==> |s| < ServerNeed(pc).value
    ensures ServeAlone(cfg, pc, s) == Alone(pc, [], s)
    ensures Finish(ServerProgram(cfg, upstream), ServerRank, pc, s) == Ending(pc, [], s)
    ensures pc.Ended? || Follow(pc, upstream) == []
  {
    hide ServerAct;
  }

  /** Nothing is written after the target has been let through, so its octets come last. */
  lemma ServerFollows(cfg: Config, upstream: seq<Byte>, pc: ServerPc, rest: seq<Byte>, out: seq<Byte>)
    ensures var a := ServeAlone(cfg, pc, rest);
            out + Follow(pc, upstream) + (a.sent + (if pc.Ended? then [] else Follow(a.pc, upstream)))
            == out + a.sent + Follow(a.pc, upstream)
  {
    var a := ServeAlone(cfg, pc, rest);
    if pc.Ended? {
      EndedStays(cfg, pc, rest);
      assert a.sent + [] == [] && out + [] == out;
      assert out + Follow(pc, upstream) + [] == out + Follow(pc, upstream);
    } else {
      assert Follow(pc, upstream) == [] && out + [] == out;
      assert out + (a.sent + Follow(a.pc, upstream)) == out + a.sent + Follow(a.pc, upstream);
    }
    hide ServeAlone, Follow;
  }

  /** The same client without a payload, which is what the specification of the method is about. */
  function Silent(cl: Client): Client {
    cl.(payload := [])
  }

  function Payload(pc: ClientPc, payload: seq<Byte>): seq<Byte> {
    if pc.Dialled? then payload else []
  }

  predicate IsOver(pc: ClientPc) {
    pc.Dialled? || pc.Failed?
  }

  lemma ClientActs(cl: Client, pc: ClientPc, got: seq<Byte>)
    requires ClientNeed(pc) == Some(|got|)
    ensures var (pc', out) := ClientAct(Silent(cl), pc, got);
            && ClientRank(pc') < ClientRank(pc)
            && ClientAct(cl, pc, got).0 == pc'
            && ClientAct(cl, pc, got).1 == out + Payload(pc', cl.payload)
  {
    hide RequestMessage, AuthMessage;
    var out := ClientAct(Silent(cl), pc, got).1;
    assert out + [] == out;
  }

  lemma DialAloneStep(cl: Client, pc: ClientPc, got: seq<Byte>, rest: seq<Byte>)
    requires ClientNeed(pc) == Some(|got|)
    ensures var (pc', out) := ClientAct(cl, pc, got);
            var a := DialAlone(cl, pc', rest);
            DialAlone(cl, pc, got + rest) == Alone(a.pc, out + a.sent, a.rest)
  {
    hide ClientAct, DialAlone;
    DialAloneAfter(cl, pc, got, rest);
    var (pc', out) := ClientAct(cl, pc, got);
    var a := DialAlone(cl, pc', rest);
    assert [] + a.sent == a.sent;
  }

  lemma ClientFinishStep(cl: Client, pc: ClientPc, got: seq<Byte>, rest: seq<Byte>)
    requires ClientNeed(pc) == Some(|got|)
    ensures var (pc', out) := ClientAct(cl, pc, got);
            var f := Finish(ClientProgram(cl), ClientRank, pc', rest);
            Finish(ClientProgram(cl), ClientRank, pc, got + rest) == Ending(f.pc, out + f.wrote, f.rest)
  {
    ClientActs(cl, pc, got);
    var prog := ClientProgram(cl);
    assert (got + rest)[..|got|] == got && (got + rest)[|got|..] == rest;
    assert prog.need(pc) == Some(|got|) && prog.act(pc, got) == ClientAct(cl, pc, got);
    hide ClientAct, ClientProgram;
  }

  lemma {:induction false} ClientFinish(cl: Client, pc: ClientPc, s: seq<Byte>)
    ensures var f := Finish(ClientProgram(cl), ClientRank, pc, s);
            var a := DialAlone(Silent(cl), pc, s);
            && f.pc == a.pc && f.rest == a.rest
            && f.wrote == a.sent + (if IsOver(pc) then [] else Payload(a.pc, cl.payload))
    decreases ClientRank(pc)
  {
    if ClientNeed(pc).Some? && ClientNeed(pc).value <= |s| {
      var got, rest := s[..ClientNeed(pc).value], s[ClientNeed(pc).value..];
      assert got + rest == s && !IsOver(pc);
      hide ClientAct, DialAlone, Finish, ClientProgram, ClientRank, ClientNeed, Payload, IsOver, Silent;
      ClientActs(cl, pc, got);
      var (pc', out) := ClientAct(Silent(cl), pc, got);
      ClientFinish(cl, pc', rest);
      DialAloneStep(Silent(cl), pc, got, rest);
      ClientFinishStep(cl, pc, got, rest);
      PayloadFollows(cl, pc', rest, out);
    } else {
      ClientStands(cl, pc, s);
    }
  }

  lemma ClientStands(cl: Client, pc: ClientPc, s: seq<Byte>)
    requires ClientNeed(pc).Some? ==> |s| < ClientNeed(pc).value
    ensures DialAlone(Silent(cl), pc, s) == Alone(pc, [], s)
    ensures Finish(ClientProgram(cl), ClientRank, pc, s) == Ending(pc, [], s)
    ensures IsOver(pc) || Payload(pc, cl.payload) == []
  {
    hide ClientAct;
  }

  lemma PayloadFollows(cl: Client, pc: ClientPc, rest: seq<Byte>, out: seq<Byte>)
    ensures var a := DialAlone(Silent(cl), pc, rest);
            out + Payload(pc, cl.payload) + (a.sent + (if IsOver(pc) then [] else Payload(a.pc, cl.payload)))
            == out + a.sent + Payload(a.pc, cl.payload)
  {
    var a := DialAlone(Silent(cl), pc, rest);
    if IsOver(pc) {
      assert a == Alone(pc, [], rest);
      assert a.sent + [] == [] && out + [] == out;
      assert out + Payload(pc, cl.payload) + [] == out + Payload(pc, cl.payload);
    } else {
      assert Payload(pc, cl.payload) == [] && out + [] == out;
      assert out + (a.sent + Payload(a.pc, cl.payload)) == out + a.sent + Payload(a.pc, cl.payload);
    }
    hide DialAlone, Payload, IsOver;
  }

  // ---------- every dial ----------

  /** The most that one step of either side writes. */
  function Limit(cl: Client, upstream: seq<Byte>): nat {
    22 + |upstream| + |cl.payload| + |cl.Request()| + (if cl.auth.Some? then |AuthMessage(cl.auth.value)| else 0)
  }

  lemma ClientIsTerse(cl: Client, upstream: seq<Byte>)
    ensures Terse(ClientProgram(cl), Limit(cl, upstream))
  {
    hide RequestMessage, AuthMessage;
  }

  lemma ReplyLength(codec: IpText.Codec, code: Byte, host: Text, port: int)
    ensures |ReplyMessage(codec, code, host, port)| <= 22
  {
  }

  lemma ServerIsTerse(cfg: Config, cl: Client, upstream: seq<Byte>)
    ensures Terse(ServerProgram(cfg, upstream), Limit(cl, upstream))
  {
    forall pc, got | ServerNeed(pc) == Some(|got|)
      ensures |ServerAct(cfg, upstream, pc, got).1| <= Limit(cl, upstream)
    {
      if pc.Port? {
        var d := Decide(cfg, pc.command, JoinHostPort(pc.host, Itoa(Uint16(got))));
        ReplyLength(cfg.codec, d.1, d.2, d.3);
      }
      hide ReplyMessage, Decide, Client.Request, AuthMessage;
    }
  }

  /** Every run of every dial is bounded. */
  lemma DialsAreBounded(cl: Client, cfg: Config, upstream: seq<Byte>, ns: seq<Net<ClientPc, ServerPc>>)
    requires Run(ClientProgram(cl), ServerProgram(cfg, upstream), ns) && ns[0] == Opening(cl)
    ensures |ns| <= 18 * (2 * Limit(cl, upstream) + 1) + 7
  {
    var p, limit := DialPair(cl, cfg, upstream), Limit(cl, upstream);
    DialPairIsRanked(cl, cfg, upstream);
    ClientIsTerse(cl, upstream);
    ServerIsTerse(cfg, cl, upstream);
    assert Weight(p, limit, ns[0]) == 18 * (2 * limit + 1) + 6;
    hide Run, Terse, RankedPair, Weight, ClientProgram, ServerProgram, Limit;
    RunIsBounded(p, limit, ns);
  }

  /**
   * Every dial, of every client: when nothing more can happen, the server has done what its specification does on all
   * that the client wrote, and the client what its specification does on all that the server wrote; what either leaves
   * is unread, and each side's later octets come after what it sent to get there. A side that was neither served nor
   * refused still waits for octets.
   */
  lemma EveryDialEnds(cl: Client, address: Text, cfg: Config, upstream: seq<Byte>, ns: seq<Net<ClientPc, ServerPc>>)
    returns (up: seq<Byte>, down: seq<Byte>)
    requires Destination(address) == Some((cl.host, cl.port))
    requires Run(ClientProgram(cl), ServerProgram(cfg, upstream), ns) && ns[0] == Opening(cl)
    requires Stuck(ClientProgram(cl), ServerProgram(cfg, upstream), ns[|ns| - 1])
    ensures var n := ns[|ns| - 1];
            var served := Serve(cfg, up, 3);
            var dialled := Socks5Client.Dial(cl.codec, cl.auth, address, down, 3);
            && up == dialled.sent + (if dialled.Accepted? then cl.payload else [])
            && down == served.sent + (if served.service.Relaying? then upstream else [])
            && n.client.out == [] && n.server.out == []
            && (if dialled.Accepted? then n.client.pc == Dialled && n.client.got + n.down == dialled.rest
                else n.client.pc == Failed || ClientNeed(n.client.pc).Some?)
            && (if !served.service.Closed? then
                  n.server.pc == Ended(served.service) && n.server.got + n.up == served.rest
                else n.server.pc == Ended(Closed) || ServerNeed(n.server.pc).Some?)
  {
    var p := DialPair(cl, cfg, upstream);
    DialPairIsRanked(cl, cfg, upstream);
    hide Run, Stuck, RankedPair, ClientProgram, ServerProgram, Finish, ServeAlone, DialAlone;
    up, down := RunsEndAlone(p, ns);
    ServerEnds(cfg, upstream, up);
    ClientEnds(cl, address, down);
  }

  lemma ServerEnds(cfg: Config, upstream: seq<Byte>, s: seq<Byte>)
    ensures var f := Finish(ServerProgram(cfg, upstream), ServerRank, Greet, s);
            var served := Serve(cfg, s, 3);
            && f.wrote == served.sent + (if served.service.Relaying? then upstream else [])
            && (if !served.service.Closed? then f.pc == Ended(served.service) && f.rest == served.rest
                else f.pc == Ended(Closed) || ServerNeed(f.pc).Some?)
  {
    hide Serve, ServeAlone, Finish, ServerProgram;
    ServerFinish(cfg, upstream, Greet, s);
    ServeAgrees(cfg, s);
  }

  lemma ClientEnds(cl: Client, address: Text, s: seq<Byte>)
    requires Destination(address) == Some((cl.host, cl.port))
    ensures var f := Finish(ClientProgram(cl), ClientRank, GreetReply, s);
            var d := Socks5Client.Dial(cl.codec, cl.auth, address, s, 3);
            && Greeting(cl.auth) + f.wrote == d.sent + (if d.Accepted? then cl.payload else [])
            && (if d.Accepted? then f.pc == Dialled && f.rest == d.rest else f.pc == Failed || ClientNeed(f.pc).Some?)
  {
    hide Socks5Client.Dial, DialAlone, Finish, ClientProgram, Destination, Silent, Greeting;
    var a, d := DialAlone(Silent(cl), GreetReply, s), Socks5Client.Dial(cl.codec, cl.auth, address, s, 3);
    SilentDial(cl, address, s);
    ClientFinishes(cl, s);
    Append(Greeting(cl.auth), a.sent, Payload(a.pc, cl.payload));
    hide ClientNeed, ClientRank;
    assert d.Accepted? ==> Payload(a.pc, cl.payload) == cl.payload;
    assert !d.Accepted? ==> Payload(a.pc, cl.payload) == [];
  }

  lemma ClientFinishes(cl: Client, s: seq<Byte>)
    ensures var f, a := Finish(ClientProgram(cl), ClientRank, GreetReply, s), DialAlone(Silent(cl), GreetReply, s);
            f.pc == a.pc && f.rest == a.rest && f.wrote == a.sent + Payload(a.pc, cl.payload)
  {
    hide Finish, DialAlone, ClientProgram, Silent, Payload;
    ClientFinish(cl, GreetReply, s);
    assert !IsOver(GreetReply);
  }

  lemma Append(a: seq<Byte>, b: seq<Byte>, c: seq<Byte>)
    ensures a + (b + c) == a + b + c
  {
  }

  lemma SilentDial(cl: Client, address: Text, s: seq<Byte>)
    requires Destination(address) == Some((cl.host, cl.port))
    ensures var a := DialAlone(Silent(cl), GreetReply, s);
            var d := Socks5Client.Dial(cl.codec, cl.auth, address, s, 3);
            && Greeting(cl.auth) + a.sent == d.sent
            && (if d.Accepted? then a.pc == Dialled && a.rest == d.rest
                else !a.pc.Dialled? && (a.pc == Failed || ClientNeed(a.pc).Some?))
  {
    assert ClientNeed(Dialled).None?;
    var mute := Silent(cl);
    assert mute.codec == cl.codec && mute.auth == cl.auth && mute.host == cl.host && mute.port == cl.port;
    assert mute.payload == [] && Greeting(cl.auth) != [];
    hide Socks5Client.Dial, DialAlone, Destination, Silent, Greeting, Hangs, ClientNeed;
    DialAgrees(mute, address, s);
    HangingWaits(mute, GreetReply, s);
  }

  lemma HangingWaits(cl: Client, pc: ClientPc, s: seq<Byte>)
    ensures Hangs(DialAlone(cl, pc, s)) ==> ClientNeed(DialAlone(cl, pc, s).pc).Some?
    ensures DialAlone(cl, pc, s).pc.Dialled? ==> !Hangs(DialAlone(cl, pc, s))
  {
    hide DialAlone;
  }
}
