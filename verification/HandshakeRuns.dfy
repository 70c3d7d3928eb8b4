/**
 * Every interleaved run of a dial: the repository's client and server over two byte streams, with both
 * streams cut up in any way, for every configuration of the two sides.
 */
module HandshakeRuns {
  import opened Bytes
  import opened HostPort
  import opened IpText
  import opened Wire
  import opened Socks5Server
  import opened TwoParty
  import opened Handshake

  // ---------- scripts made of blocks ----------

  ghost function Fields<P>(stages: seq<Stage<P>>): seq<Byte> {
    if stages == [] then [] else Fields(stages[..|stages| - 1]) + stages[|stages| - 1].field
  }

  ghost function Outs<P>(stages: seq<Stage<P>>): seq<Byte> {
    if stages == [] then [] else Outs(stages[..|stages| - 1]) + stages[|stages| - 1].out
  }

  lemma {:induction false} ScriptIsBlocks<P>(sc: Script<P>, i: nat)
    requires i <= |sc.stages|
    ensures sc.Reads(i) == Fields(sc.stages[..i])
    ensures sc.Writes(i) == sc.opening + Outs(sc.stages[..i])
  {
    if 0 < i {
      ScriptIsBlocks(sc, i - 1);
      assert sc.stages[..i][..i - 1] == sc.stages[..i - 1];
      assert sc.opening + (Outs(sc.stages[..i - 1]) + sc.stages[i - 1].out)
          == sc.opening + Outs(sc.stages[..i - 1]) + sc.stages[i - 1].out;
    } else {
      assert sc.stages[..0] == [];
      assert sc.opening + [] == sc.opening;
    }
  }

  lemma FieldsSnoc<P>(stages: seq<Stage<P>>, st: Stage<P>)
    ensures Fields(stages + [st]) == Fields(stages) + st.field
    ensures Outs(stages + [st]) == Outs(stages) + st.out
  {
    assert (stages + [st])[..|stages|] == stages;
  }

  lemma LastOfAppend<T>(a: seq<T>, b: seq<T>)
    requires b != []
    ensures a + b == a + b[..|b| - 1] + [b[|b| - 1]]
    ensures b == b[..|b| - 1] + [b[|b| - 1]]
  {
  }

  lemma Associate(a: seq<Byte>, b: seq<Byte>, c: seq<Byte>)
    ensures a + b + c == a + (b + c)
  {
  }

  lemma {:induction false} FieldsAppend<P>(a: seq<Stage<P>>, b: seq<Stage<P>>)
    ensures Fields(a + b) == Fields(a) + Fields(b)
    ensures Outs(a + b) == Outs(a) + Outs(b)
  {
    if b == [] {
      assert a + b == a;
      assert Fields(a) + [] == Fields(a) && Outs(a) + [] == Outs(a);
    } else {
      hide Fields, Outs;
      var b', st := b[..|b| - 1], b[|b| - 1];
      FieldsAppend(a, b');
      LastOfAppend(a, b);
      FieldsSnoc(a + b', st);
      FieldsSnoc(b', st);
      Associate(Fields(a), Fields(b'), st.field);
      Associate(Outs(a), Outs(b'), st.out);
    }
  }

  // ---------- dialogues fit ----------

  /** The server reads a question and answers; the client reads the answer and asks on. */
  datatype Round<C, S> = Round(server: seq<Stage<S>>, client: seq<Stage<C>>)

  ghost function ServerStages<C, S>(rounds: seq<Round<C, S>>): seq<Stage<S>> {
    if rounds == [] then [] else rounds[0].server + ServerStages(rounds[1..])
  }

  ghost function ClientStages<C, S>(rounds: seq<Round<C, S>>): seq<Stage<C>> {
    if rounds == [] then [] else rounds[0].client + ClientStages(rounds[1..])
  }

  /** Every question but the last, of which `left` stays unread, and every answer but the last is read whole. */
  ghost predicate Dialogue<C, S>(question: seq<Byte>, rounds: seq<Round<C, S>>, left: seq<Byte>)
    decreases |rounds|
  {
    rounds == [] ||
    (var r := rounds[0];
     if |rounds| == 1 then Fields(r.server) + left == question && Prefix(Fields(r.client), Outs(r.server))
     else Fields(r.server) == question && Fields(r.client) == Outs(r.server)
          && Dialogue(Outs(r.client), rounds[1..], left))
  }

  /** How many octets the first i stages read. */
  ghost function FieldsLen<P>(stages: seq<Stage<P>>, i: nat): nat
    requires i <= |stages|
  {
    |Fields(stages[..i])|
  }

  ghost function OutsLen<P>(stages: seq<Stage<P>>, i: nat): nat
    requires i <= |stages|
  {
    |Outs(stages[..i])|
  }

  lemma FieldsPart<P>(stages: seq<Stage<P>>, i: nat)
    requires i <= |stages|
    ensures FieldsLen(stages, i) <= |Fields(stages)| && OutsLen(stages, i) <= |Outs(stages)|
  {
    assert stages == stages[..i] + stages[i..];
    FieldsAppend(stages[..i], stages[i..]);
  }

  lemma FieldsBeyond<P>(a: seq<Stage<P>>, b: seq<Stage<P>>, i: nat)
    requires |a| <= i <= |a| + |b|
    ensures FieldsLen(a + b, i) == |Fields(a)| + FieldsLen(b, i - |a|)
    ensures OutsLen(a + b, i) == |Outs(a)| + OutsLen(b, i - |a|)
  {
    assert (a + b)[..i] == a + b[..i - |a|];
    FieldsAppend(a, b[..i - |a|]);
  }

  /** At stages i and j one of the two reads is covered by what the other side has written. */
  ghost predicate Covered<C, S>(
    question: seq<Byte>, client: seq<Stage<C>>, server: seq<Stage<S>>, i: nat, j: nat)
    requires i < |server| && j < |client|
  {
    || FieldsLen(server, i + 1) <= |question| + OutsLen(client, j)
    || FieldsLen(client, j + 1) <= OutsLen(server, i)
  }

  lemma CoveredLater<C, S>(
    question: seq<Byte>, U: seq<Stage<C>>, U': seq<Stage<C>>, T: seq<Stage<S>>, T': seq<Stage<S>>, i: nat, j: nat)
    requires |T| <= i < |T| + |T'| && |U| <= j < |U| + |U'|
    requires Fields(T) == question && Fields(U) == Outs(T)
    requires Covered(Outs(U), U', T', i - |T|, j - |U|)
    ensures Covered(question, U + U', T + T', i, j)
  {
    hide Fields, Outs, FieldsLen, OutsLen;
    FieldsBeyond(T, T', i);
    FieldsBeyond(T, T', i + 1);
    FieldsBeyond(U, U', j);
    FieldsBeyond(U, U', j + 1);
  }

  lemma CoveredByAnswer<C, S>(
    question: seq<Byte>, U: seq<Stage<C>>, U': seq<Stage<C>>, T: seq<Stage<S>>, T': seq<Stage<S>>, i: nat, j: nat)
    requires |T| <= i < |T| + |T'| && j < |U|
    requires |Fields(U)| <= |Outs(T)|
    ensures Covered(question, U + U', T + T', i, j)
  {
    hide Fields, Outs;
    assert (U + U')[..j + 1] == U[..j + 1];
    FieldsPart(U, j + 1);
    FieldsBeyond(T, T', i);
  }

  lemma CoveredByQuestion<C, S>(
    question: seq<Byte>, U: seq<Stage<C>>, U': seq<Stage<C>>, T: seq<Stage<S>>, T': seq<Stage<S>>, i: nat, j: nat)
    requires i < |T| && j < |U| + |U'|
    requires |Fields(T)| <= |question|
    ensures Covered(question, U + U', T + T', i, j)
  {
    hide Fields, Outs;
    assert (T + T')[..i + 1] == T[..i + 1];
    FieldsPart(T, i + 1);
  }

  lemma {:induction false} DialogueCovers<C, S>(
    question: seq<Byte>, rounds: seq<Round<C, S>>, left: seq<Byte>, i: nat, j: nat)
    requires Dialogue(question, rounds, left) && i < |ServerStages(rounds)| && j < |ClientStages(rounds)|
    ensures Covered(question, ClientStages(rounds), ServerStages(rounds), i, j)
    decreases |rounds|
  {
    hide Fields, Outs, Covered;
    var r, more := rounds[0], rounds[1..];
    var T, U, T', U' := r.server, r.client, ServerStages(more), ClientStages(more);
    if i < |T| {
      CoveredByQuestion(question, U, U', T, T', i, j);
    } else if j < |U| {
      CoveredByAnswer(question, U, U', T, T', i, j);
    } else {
      DialogueCovers(Outs(U), more, left, i - |T|, j - |U|);
      CoveredLater(question, U, U', T, T', i, j);
    }
  }

  lemma PrefixAfter(a: seq<Byte>, b: seq<Byte>, c: seq<Byte>)
    requires Prefix(b, c)
    ensures Prefix(a + b, a + c)
  {
  }

  lemma {:induction false} DialoguePrefixes<C, S>(question: seq<Byte>, rounds: seq<Round<C, S>>, left: seq<Byte>)
    requires Dialogue(question, rounds, left)
    ensures Prefix(Fields(ServerStages(rounds)), question + Outs(ClientStages(rounds)))
    ensures Prefix(Fields(ClientStages(rounds)), Outs(ServerStages(rounds)))
    decreases |rounds|
  {
    if rounds != [] {
      var r, more := rounds[0], rounds[1..];
      var T, U, T', U' := r.server, r.client, ServerStages(more), ClientStages(more);
      FieldsAppend(T, T');
      FieldsAppend(U, U');
      if more == [] {
        assert Fields(U) + [] == Fields(U) && Outs(T) + [] == Outs(T) && Fields(T) + [] == Fields(T);
      } else {
        DialoguePrefixes(Outs(U), more, left);
        PrefixAfter(question, Fields(T'), Outs(U) + Outs(U'));
        PrefixAfter(Fields(U), Fields(U'), Outs(T'));
      }
    }
  }

  lemma DialogueFits<C, S>(question: seq<Byte>, rounds: seq<Round<C, S>>, left: seq<Byte>, cend: C, send: S)
    requires Dialogue(question, rounds, left)
    ensures Fit(Script(question, ClientStages(rounds), cend), Script([], ServerStages(rounds), send))
  {
    hide Fields, Outs, Script.Reads, Script.Writes, Dialogue, ClientStages, ServerStages;
    var cs, ss := Script(question, ClientStages(rounds), cend), Script([], ServerStages(rounds), send);
    assert [] + Outs(ss.stages) == Outs(ss.stages);
    WholeScript(cs);
    WholeScript(ss);
    DialoguePrefixes(question, rounds, left);
    forall i, j | 0 <= i < |ss.stages| && 0 <= j < |cs.stages|
      ensures |ss.Reads(i + 1)| <= |cs.Writes(j)| || |cs.Reads(j + 1)| <= |ss.Writes(i)|
    {
      StagesFit(question, rounds, left, cs, ss, i, j);
    }
  }

  lemma StagesFit<C, S>(
    question: seq<Byte>, rounds: seq<Round<C, S>>, left: seq<Byte>, cs: Script<C>, ss: Script<S>, i: nat, j: nat)
    requires Dialogue(question, rounds, left)
    requires cs.opening == question && cs.stages == ClientStages(rounds)
    requires ss.opening == [] && ss.stages == ServerStages(rounds)
    requires i < |ss.stages| && j < |cs.stages|
    ensures |ss.Reads(i + 1)| <= |cs.Writes(j)| || |cs.Reads(j + 1)| <= |ss.Writes(i)|
  {
    DialogueCovers(question, rounds, left, i, j);
    hide Fields, Outs, Script.Reads, Script.Writes, Dialogue, ServerStages, ClientStages;
    ScriptIsBlocks(ss, i + 1);
    ScriptIsBlocks(ss, i);
    ScriptIsBlocks(cs, j + 1);
    ScriptIsBlocks(cs, j);
  }

  lemma WholeScript<P>(sc: Script<P>)
    ensures sc.Reads(|sc.stages|) == Fields(sc.stages)
    ensures sc.Writes(|sc.stages|) == sc.opening + Outs(sc.stages)
  {
    ScriptIsBlocks(sc, |sc.stages|);
    assert sc.stages[..|sc.stages|] == sc.stages;
  }

  // ---------- programs follow blocks ----------

  ghost predicate FollowsAt<P>(prog: Program<P>, block: seq<Stage<P>>, next: P, i: nat)
    requires i < |block|
  {
    && prog.need(block[i].pc) == Some(|block[i].field|)
    && prog.act(block[i].pc, block[i].field)
       == (if i + 1 < |block| then block[i + 1].pc else next, block[i].out)
  }

  ghost predicate FollowsBlock<P>(prog: Program<P>, block: seq<Stage<P>>, next: P) {
    forall i | 0 <= i < |block| :: FollowsAt(prog, block, next, i)
  }

  ghost function First<P>(block: seq<Stage<P>>, next: P): P {
    if block == [] then next else block[0].pc
  }

  lemma FollowsAppend<P>(prog: Program<P>, a: seq<Stage<P>>, b: seq<Stage<P>>, next: P)
    requires FollowsBlock(prog, a, First(b, next)) && FollowsBlock(prog, b, next)
    ensures FollowsBlock(prog, a + b, next)
  {
    var ab := a + b;
    forall i | 0 <= i < |ab|
      ensures FollowsAt(prog, ab, next, i)
    {
      if i < |a| {
        assert FollowsAt(prog, a, First(b, next), i);
        assert ab[i] == a[i];
      } else {
        assert FollowsAt(prog, b, next, i - |a|);
        assert ab[i] == b[i - |a|];
      }
    }
  }

  lemma FollowsScript<P>(prog: Program<P>, sc: Script<P>)
    requires FollowsBlock(prog, sc.stages, sc.end) && prog.need(sc.end) == None
    ensures Follows(prog, sc)
  {
    forall i | 0 <= i < |sc.stages|
      ensures prog.need(sc.stages[i].pc) == Some(|sc.stages[i].field|)
      ensures prog.act(sc.stages[i].pc, sc.stages[i].field) == (sc.PcAt(i + 1), sc.stages[i].out)
    {
      assert FollowsAt(prog, sc.stages, sc.end, i);
    }
  }

  // ---------- the dialogue of a dial ----------

  /** What a dial leads to, judged from the two configurations alone. */
  datatype Verdict = NoMethod | BadCredentials | NoRoute | Connected(bindHost: Text, bindPort: int)

  function Judge(cl: Client, cfg: Config): Verdict {
    if cl.auth.Some? != cfg.auth.Some? then NoMethod
    else if cl.auth.Some? && cfg.auth != Some(Heard(cl.auth.value)) then BadCredentials
    else match cfg.dial(cl.HeardTarget())
      case None => NoRoute
      case Some((host, port)) => Connected(host, port)
  }

  ghost function ClientEnding(v: Verdict): ClientPc {
    if v.Connected? then Dialled else Failed
  }

  ghost function ServerEnding(cl: Client, v: Verdict): ServerPc {
    Ended(if v.Connected? then Relaying(cl.HeardTarget()) else Closed)
  }

  /** Credentials that do not fit are not, of all things, heard as those the server wants. */
  predicate Unmistakable(cl: Client, cfg: Config) {
    cl.auth.Some? && cfg.auth == Some(Heard(cl.auth.value)) ==> AuthUnread(cl.auth.value) == []
  }

  /** What the server leaves of the last message it reads. */
  ghost function Unheard(cl: Client, v: Verdict): seq<Byte> {
    match v
    case NoMethod => []
    case BadCredentials => if cl.auth.Some? then AuthUnread(cl.auth.value) else []
    case _ => cl.Unread()
  }

  ghost function GreetServer(cl: Client, m: Byte): seq<Stage<ServerPc>> {
    [Stage(Greet, [VERSION, 1], []), Stage(Methods(1), [RequiredMethod(cl.auth)], [VERSION, m])]
  }

  ghost function GreetClient(m: Byte, next: seq<Byte>): seq<Stage<ClientPc>> {
    [Stage(GreetReply, [VERSION, m], next)]
  }

  ghost function AuthServer(c: Credentials, status: Byte): seq<Stage<ServerPc>>
    requires |c.user| < 256 && |c.pass| < 256
  {
    [Stage(AuthVersion, [AUTH_VERSION], []),
     Stage(UserLen, [|c.user|], []),
     Stage(User(|c.user|), c.user, []),
     Stage(PassLen(c.user), [|c.pass|], []),
     Stage(Pass(c.user, |c.pass|), c.pass, [AUTH_VERSION, status])]
  }

  ghost function AuthClient(status: Byte, next: seq<Byte>): seq<Stage<ClientPc>> {
    [Stage(AuthReply, [AUTH_VERSION, status], next)]
  }

  ghost function AddressServer(cl: Client): seq<Stage<ServerPc>> {
    match cl.codec.parse(cl.host)
    case Some(a) => [Stage(Address(CONNECT, |IpField(a)| - 1), IpField(a)[1..], [])]
    case None =>
      var n := Low8(|cl.host|);
      [Stage(NameLen(CONNECT), [n], []), Stage(Name(CONNECT, n), cl.host[..n], [])]
  }

  /** The reply to the request, with what the target sends at once when there is a relay. */
  ghost function Answer(cl: Client, cfg: Config, upstream: seq<Byte>): seq<Byte> {
    match Judge(cl, cfg)
    case Connected(host, port) => ReplyMessage(cl.codec, SUCCEEDED, host, port) + upstream
    case _ => ReplyMessage(cl.codec, GENERAL_FAILURE, ANY_HOST, 0)
  }

  ghost function PortServer(cl: Client, cfg: Config, upstream: seq<Byte>): Stage<ServerPc> {
    Stage(Port(CONNECT, cl.HeardHost()), cl.Tail()[..2], Answer(cl, cfg, upstream))
  }

  ghost function RequestServer(cl: Client, cfg: Config, upstream: seq<Byte>): seq<Stage<ServerPc>> {
    [Stage(RequestHead, cl.Request()[..4], [])] + AddressServer(cl) + [PortServer(cl, cfg, upstream)]
  }

  ghost function BindField(codec: Codec, host: Text): (f: seq<Byte>)
    ensures f != []
  {
    IpField(match codec.parse(host) case Some(a) => a case None => ANY_V4)
  }

  ghost function RequestClient(cl: Client, cfg: Config): seq<Stage<ClientPc>> {
    match Judge(cl, cfg)
    case Connected(host, port) =>
      var f := BindField(cl.codec, host);
      [Stage(ReplyHead, [VERSION, SUCCEEDED, 0, f[0]], []),
       Stage(ReplyAddress(|f| - 1), f[1..], []),
       Stage(ReplyPort, PutUint16(port), cl.payload)]
    case _ => [Stage(ReplyHead, [VERSION, GENERAL_FAILURE, 0, BindField(cl.codec, ANY_HOST)[0]], [])]
  }

  ghost function AuthHeard(c: Credentials, status: Byte): seq<Stage<ServerPc>> {
    HeardIsRead(c);
    AuthServer(Heard(c), status)
  }

  ghost function Rounds(cl: Client, cfg: Config, upstream: seq<Byte>): seq<Round<ClientPc, ServerPc>> {
    var m := RequiredMethod(cl.auth);
    var request := Round(RequestServer(cl, cfg, upstream), RequestClient(cl, cfg));
    match Judge(cl, cfg)
    case NoMethod => [Round(GreetServer(cl, REJECTED), GreetClient(REJECTED, []))]
    case BadCredentials =>
      [Round(GreetServer(cl, m), GreetClient(m, AuthMessage(cl.auth.value))),
       Round(AuthHeard(cl.auth.value, 1), AuthClient(1, []))]
    case _ =>
      if cl.auth.None? then [Round(GreetServer(cl, m), GreetClient(m, cl.Request())), request]
      else
        [Round(GreetServer(cl, m), GreetClient(m, AuthMessage(cl.auth.value))),
         Round(AuthHeard(cl.auth.value, 0), AuthClient(0, cl.Request())),
         request]
  }

  // ---------- the blocks hold the messages ----------

  lemma OneStage<P>(a: Stage<P>)
    ensures Fields([a]) == a.field && Outs([a]) == a.out
  {
    assert [a][..0] == [];
  }

  lemma TwoStages<P>(a: Stage<P>, b: Stage<P>)
    ensures Fields([a, b]) == a.field + b.field && Outs([a, b]) == a.out + b.out
  {
    OneStage(a);
    assert [a, b][..1] == [a];
  }

  lemma ThreeStages<P>(a: Stage<P>, b: Stage<P>, c: Stage<P>)
    ensures Fields([a, b, c]) == a.field + b.field + c.field && Outs([a, b, c]) == a.out + b.out + c.out
  {
    TwoStages(a, b);
    assert [a, b, c][..2] == [a, b];
  }

  lemma GreetBlocks(cl: Client, m: Byte, next: seq<Byte>)
    ensures Fields(GreetServer(cl, m)) == Greeting(cl.auth) && Outs(GreetServer(cl, m)) == [VERSION, m]
    ensures Fields(GreetClient(m, next)) == [VERSION, m] && Outs(GreetClient(m, next)) == next
  {
    var s := GreetServer(cl, m);
    TwoStages(s[0], s[1]);
    OneStage(GreetClient(m, next)[0]);
  }

  lemma AuthPieces(c: Credentials)
    requires |c.user| < 256 && |c.pass| < 256
    ensures [AUTH_VERSION] + [|c.user|] + c.user + ([|c.pass|] + c.pass) == AuthMessage(c)
  {
  }

  lemma AuthBlocks(c: Credentials, status: Byte, next: seq<Byte>)
    requires |c.user| < 256 && |c.pass| < 256
    ensures Fields(AuthServer(c, status)) == AuthMessage(c) && Outs(AuthServer(c, status)) == [AUTH_VERSION, status]
    ensures Fields(AuthClient(status, next)) == [AUTH_VERSION, status] && Outs(AuthClient(status, next)) == next
  {
    hide Fields, Outs;
    OneStage(AuthClient(status, next)[0]);
    var front: seq<Stage<ServerPc>> :=
      [Stage(AuthVersion, [AUTH_VERSION], []), Stage(UserLen, [|c.user|], []), Stage(User(|c.user|), c.user, [])];
    var back: seq<Stage<ServerPc>> :=
      [Stage(PassLen(c.user), [|c.pass|], []), Stage(Pass(c.user, |c.pass|), c.pass, [AUTH_VERSION, status])];
    ThreeStages(front[0], front[1], front[2]);
    TwoStages(back[0], back[1]);
    assert AuthServer(c, status) == front + back;
    FieldsAppend(front, back);
    AuthPieces(c);
  }

  lemma RequestPieces(cl: Client)
    ensures var f := AddressField(cl.codec, cl.host);
            && cl.Request()[..4] == [VERSION, CONNECT, 0, f[0]]
            && cl.Request()[..4] + f[1..] + PutUint16(cl.port) == cl.Request()
  {
    var f := AddressField(cl.codec, cl.host);
    assert cl.Request() == [VERSION, CONNECT, 0] + f + PutUint16(cl.port);
  }

  /** The address that the server reads, then the tail, make up the address field and the port. */
  lemma AddressPieces(cl: Client)
    ensures Fields(AddressServer(cl)) + cl.Tail() == AddressField(cl.codec, cl.host)[1..] + PutUint16(cl.port)
    ensures Outs(AddressServer(cl)) == []
  {
    hide PutUint16, Fields, Outs;
    var s := AddressServer(cl);
    if cl.codec.parse(cl.host).Some? {
      OneStage(s[0]);
      assert [] + PutUint16(cl.port) == PutUint16(cl.port);
    } else {
      var n := Low8(|cl.host|);
      TwoStages(s[0], s[1]);
      assert ([ATYP_DOMAIN, n] + cl.host)[1..] == [n] + cl.host;
      assert cl.host == cl.host[..n] + cl.host[n..];
    }
  }

  lemma RequestBlock(cl: Client, cfg: Config, upstream: seq<Byte>)
    ensures Fields(RequestServer(cl, cfg, upstream)) + cl.Unread() == cl.Request()
    ensures Outs(RequestServer(cl, cfg, upstream)) == Answer(cl, cfg, upstream)
  {
    var head := Stage(RequestHead, cl.Request()[..4], []);
    var address, port := AddressServer(cl), PortServer(cl, cfg, upstream);
    AddressPieces(cl);
    OneStage(head);
    OneStage(port);
    FieldsAppend([head], address);
    FieldsAppend([head] + address, [port]);
    RequestPieces(cl);
    hide Fields, Outs, AddressField, AddressServer, RequestMessage, Answer, Client.Tail;
    assert [] + [] + Answer(cl, cfg, upstream) == Answer(cl, cfg, upstream);
    assert cl.Tail() == cl.Tail()[..2] + cl.Unread();
    Associate(cl.Request()[..4], Fields(address), cl.Tail());
    Associate(cl.Request()[..4] + Fields(address), cl.Tail()[..2], cl.Unread());
    Associate(cl.Request()[..4], AddressField(cl.codec, cl.host)[1..], PutUint16(cl.port));
  }

  lemma ReplyPieces(codec: Codec, code: Byte, host: Text, port: int)
    ensures var f := BindField(codec, host);
            ReplyMessage(codec, code, host, port) == [VERSION, code, 0, f[0]] + f[1..] + PutUint16(port)
  {
    var f := BindField(codec, host);
    assert [VERSION, code, 0] + f == [VERSION, code, 0, f[0]] + f[1..];
  }

  lemma AnswerBlock(cl: Client, cfg: Config, upstream: seq<Byte>)
    ensures Prefix(Fields(RequestClient(cl, cfg)), Answer(cl, cfg, upstream))
    ensures Judge(cl, cfg).Connected? ==>
              Fields(RequestClient(cl, cfg)) + upstream == Answer(cl, cfg, upstream) &&
              Outs(RequestClient(cl, cfg)) == cl.payload
    ensures !Judge(cl, cfg).Connected? ==> Outs(RequestClient(cl, cfg)) == []
  {
    var s := RequestClient(cl, cfg);
    var v := Judge(cl, cfg);
    if v.Connected? {
      ThreeStages(s[0], s[1], s[2]);
      ReplyPieces(cl.codec, SUCCEEDED, v.bindHost, v.bindPort);
      hide Fields, Outs, ReplyMessage, BindField, Judge;
      assert [] + [] + cl.payload == cl.payload;
    } else {
      OneStage(s[0]);
      ReplyPieces(cl.codec, GENERAL_FAILURE, ANY_HOST, 0);
      hide Fields, Outs, ReplyMessage, BindField, Judge;
      var f := BindField(cl.codec, ANY_HOST);
      assert ([VERSION, GENERAL_FAILURE, 0, f[0]] + f[1..] + PutUint16(0))[..4] == [VERSION, GENERAL_FAILURE, 0, f[0]];
    }
  }

  // ---------- the dialogue ----------

  lemma AuthHeardBlocks(c: Credentials, status: Byte, next: seq<Byte>)
    ensures Fields(AuthHeard(c, status)) + AuthUnread(c) == AuthMessage(c)
    ensures Outs(AuthHeard(c, status)) == [AUTH_VERSION, status]
    ensures Fields(AuthClient(status, next)) == [AUTH_VERSION, status] && Outs(AuthClient(status, next)) == next
  {
    HeardIsRead(c);
    AuthBlocks(Heard(c), status, next);
  }

  lemma LastRound<C, S>(question: seq<Byte>, r: Round<C, S>, left: seq<Byte>)
    requires Fields(r.server) + left == question && Prefix(Fields(r.client), Outs(r.server))
    ensures Dialogue(question, [r], left)
  {
  }

  lemma FirstRound<C, S>(question: seq<Byte>, r: Round<C, S>, rounds: seq<Round<C, S>>, left: seq<Byte>)
    requires Fields(r.server) == question && Fields(r.client) == Outs(r.server)
    requires rounds != [] && Dialogue(Outs(r.client), rounds, left)
    ensures Dialogue(question, [r] + rounds, left)
  {
    assert ([r] + rounds)[1..] == rounds;
  }

  lemma RefusedDialogue(cl: Client)
    ensures Dialogue(Greeting(cl.auth), [Round(GreetServer(cl, REJECTED), GreetClient(REJECTED, []))], [])
  {
    GreetBlocks(cl, REJECTED, []);
    assert Greeting(cl.auth) + [] == Greeting(cl.auth);
    hide Fields, Outs, GreetServer, GreetClient;
    LastRound(Greeting(cl.auth), Round(GreetServer(cl, REJECTED), GreetClient(REJECTED, [])), []);
  }

  lemma RejectedDialogue(cl: Client)
    requires cl.auth.Some?
    ensures var c, m := cl.auth.value, RequiredMethod(cl.auth);
            Dialogue(Greeting(cl.auth),
                     [Round(GreetServer(cl, m), GreetClient(m, AuthMessage(c))),
                      Round(AuthHeard(c, 1), AuthClient(1, []))], AuthUnread(c))
  {
    var c, m := cl.auth.value, RequiredMethod(cl.auth);
    var greet := Round(GreetServer(cl, m), GreetClient(m, AuthMessage(c)));
    var auth := Round(AuthHeard(c, 1), AuthClient(1, []));
    GreetBlocks(cl, m, AuthMessage(c));
    AuthHeardBlocks(c, 1, []);
    hide Fields, Outs, GreetServer, GreetClient, AuthHeard, AuthClient, AuthMessage, AuthUnread, Dialogue;
    LastRound(AuthMessage(c), auth, AuthUnread(c));
    FirstRound(Greeting(cl.auth), greet, [auth], AuthUnread(c));
    assert [greet] + [auth] == [greet, auth];
  }

  lemma OpenDialogue(cl: Client, last: Round<ClientPc, ServerPc>, left: seq<Byte>)
    requires cl.auth.None? && Dialogue(cl.Request(), [last], left)
    ensures var m := RequiredMethod(cl.auth);
            Dialogue(Greeting(cl.auth), [Round(GreetServer(cl, m), GreetClient(m, cl.Request())), last], left)
  {
    var m := RequiredMethod(cl.auth);
    var greet := Round(GreetServer(cl, m), GreetClient(m, cl.Request()));
    GreetBlocks(cl, m, cl.Request());
    hide Fields, Outs, GreetServer, GreetClient, Dialogue, Client.Request;
    FirstRound(Greeting(cl.auth), greet, [last], left);
    assert [greet] + [last] == [greet, last];
  }

  lemma AuthDialogue(cl: Client, last: Round<ClientPc, ServerPc>, left: seq<Byte>)
    requires cl.auth.Some? && AuthUnread(cl.auth.value) == [] && Dialogue(cl.Request(), [last], left)
    ensures var c, m := cl.auth.value, RequiredMethod(cl.auth);
            Dialogue(Greeting(cl.auth),
                     [Round(GreetServer(cl, m), GreetClient(m, AuthMessage(c))),
                      Round(AuthHeard(c, 0), AuthClient(0, cl.Request())), last], left)
  {
    var c, m := cl.auth.value, RequiredMethod(cl.auth);
    var greet := Round(GreetServer(cl, m), GreetClient(m, AuthMessage(c)));
    var auth := Round(AuthHeard(c, 0), AuthClient(0, cl.Request()));
    GreetBlocks(cl, m, AuthMessage(c));
    AuthHeardBlocks(c, 0, cl.Request());
    hide Fields, Outs, GreetServer, GreetClient, AuthHeard, AuthClient, AuthMessage, AuthUnread, Dialogue,
         Client.Request;
    assert Fields(auth.server) + [] == Fields(auth.server);
    FirstRound(AuthMessage(c), auth, [last], left);
    FirstRound(Greeting(cl.auth), greet, [auth] + [last], left);
    assert [greet] + ([auth] + [last]) == [greet, auth, last];
  }

  lemma DialogueHolds(cl: Client, cfg: Config, upstream: seq<Byte>)
    requires Unmistakable(cl, cfg)
    ensures Dialogue(Greeting(cl.auth), Rounds(cl, cfg, upstream), Unheard(cl, Judge(cl, cfg)))
  {
    var v := Judge(cl, cfg);
    var last := Round(RequestServer(cl, cfg, upstream), RequestClient(cl, cfg));
    RequestBlock(cl, cfg, upstream);
    AnswerBlock(cl, cfg, upstream);
    hide Fields, Outs, RequestServer, RequestClient, GreetServer, GreetClient, AuthHeard, AuthClient, AuthUnread, Heard,
         Client.Unread, Client.Request, Client.HeardTarget, Dialogue, AuthMessage;
    if v.NoMethod? {
      RefusedDialogue(cl);
    } else if v.BadCredentials? {
      RejectedDialogue(cl);
    } else {
      LastRound(cl.Request(), last, cl.Unread());
      if cl.auth.None? {
        OpenDialogue(cl, last, cl.Unread());
      } else {
        AuthDialogue(cl, last, cl.Unread());
      }
    }
  }

  // ---------- the programs go through the dialogue ----------

  lemma GreetFollows(cl: Client, cfg: Config, upstream: seq<Byte>)
    ensures cl.auth.Some? == cfg.auth.Some? ==>
              FollowsBlock(ServerProgram(cfg, upstream), GreetServer(cl, RequiredMethod(cl.auth)),
                           if cl.auth.Some? then AuthVersion else RequestHead)
    ensures cl.auth.Some? != cfg.auth.Some? ==>
              FollowsBlock(ServerProgram(cfg, upstream), GreetServer(cl, REJECTED), Ended(Closed))
  {
    assert RequiredMethod(cl.auth) in [RequiredMethod(cl.auth)];
  }

  lemma GreetReplyFollows(cl: Client)
    ensures FollowsBlock(ClientProgram(cl), GreetClient(REJECTED, []), Failed)
    ensures cl.auth.None? ==> FollowsBlock(ClientProgram(cl), GreetClient(NO_AUTH, cl.Request()), ReplyHead)
    ensures cl.auth.Some? ==>
              FollowsBlock(ClientProgram(cl), GreetClient(USER_PASS, AuthMessage(cl.auth.value)), AuthReply)
  {
  }

  lemma AuthFollows(cfg: Config, upstream: seq<Byte>, c: Credentials)
    requires |c.user| < 256 && |c.pass| < 256
    ensures cfg.auth == Some(c) ==> FollowsBlock(ServerProgram(cfg, upstream), AuthServer(c, 0), RequestHead)
    ensures cfg.auth != Some(c) ==> FollowsBlock(ServerProgram(cfg, upstream), AuthServer(c, 1), Ended(Closed))
  {
    var prog := ServerProgram(cfg, upstream);
    var b := AuthServer(c, if cfg.auth == Some(c) then 0 else 1);
    var next := if cfg.auth == Some(c) then RequestHead else Ended(Closed);
    assert FollowsAt(prog, b, next, 0);
    assert FollowsAt(prog, b, next, 1);
    assert FollowsAt(prog, b, next, 2);
    assert FollowsAt(prog, b, next, 3);
    assert FollowsAt(prog, b, next, 4);
  }

  lemma AuthReplyFollows(cl: Client)
    ensures FollowsBlock(ClientProgram(cl), AuthClient(0, cl.Request()), ReplyHead)
    ensures FollowsBlock(ClientProgram(cl), AuthClient(1, []), Failed)
  {
  }

  /** The two sides read and write addresses alike, and the codec is Go's. */
  ghost predicate SameText(cl: Client, cfg: Config) {
    cl.codec == cfg.codec && cl.codec.Lawful()
  }

  lemma AddressFollows(cl: Client, cfg: Config, upstream: seq<Byte>)
    requires SameText(cl, cfg)
    ensures FollowsBlock(ServerProgram(cfg, upstream), AddressServer(cl), Port(CONNECT, cl.HeardHost()))
    ensures AddressServer(cl) != []
    ensures var f := AddressField(cl.codec, cl.host);
            AddressServer(cl)[0].pc == if f[0] == ATYP_V4 then Address(CONNECT, 4)
                                       else if f[0] == ATYP_V6 then Address(CONNECT, 16) else NameLen(CONNECT)
  {
    var prog := ServerProgram(cfg, upstream);
    var b := AddressServer(cl);
    var next := Port(CONNECT, cl.HeardHost());
    if cl.codec.parse(cl.host).Some? {
      var a := cl.codec.parse(cl.host).value;
      if IsV4(a) {
        To4OfMapped(To4(a));
        assert IpField(a)[1..] == To4(a);
      } else {
        assert IpField(a)[1..] == a;
      }
      assert FollowsAt(prog, b, next, 0);
    } else {
      assert FollowsAt(prog, b, next, 0);
      assert FollowsAt(prog, b, next, 1);
    }
  }

  lemma PortFollows(cl: Client, cfg: Config, upstream: seq<Byte>)
    requires SameText(cl, cfg) && !Judge(cl, cfg).NoMethod? && !Judge(cl, cfg).BadCredentials?
    ensures FollowsBlock(ServerProgram(cfg, upstream), [PortServer(cl, cfg, upstream)],
                         ServerEnding(cl, Judge(cl, cfg)))
  {
    hide ReplyMessage, Client.Tail, Client.HeardHost;
    var block := [PortServer(cl, cfg, upstream)];
    assert FollowsAt(ServerProgram(cfg, upstream), block, ServerEnding(cl, Judge(cl, cfg)), 0);
  }

  lemma RequestFollows(cl: Client, cfg: Config, upstream: seq<Byte>)
    requires SameText(cl, cfg) && !Judge(cl, cfg).NoMethod? && !Judge(cl, cfg).BadCredentials?
    ensures FollowsBlock(ServerProgram(cfg, upstream), RequestServer(cl, cfg, upstream),
                         ServerEnding(cl, Judge(cl, cfg)))
  {
    var prog := ServerProgram(cfg, upstream);
    var end := ServerEnding(cl, Judge(cl, cfg));
    var head := [Stage(RequestHead, cl.Request()[..4], [])];
    var address := AddressServer(cl);
    var port := [PortServer(cl, cfg, upstream)];
    RequestPieces(cl);
    AddressFollows(cl, cfg, upstream);
    PortFollows(cl, cfg, upstream);
    assert FollowsBlock(prog, head, address[0].pc) by {
      hide AddressServer;
      var f := AddressField(cl.codec, cl.host);
      assert f[0] == ATYP_V4 || f[0] == ATYP_V6 || f[0] == ATYP_DOMAIN;
      assert FollowsAt(prog, head, address[0].pc, 0);
    }
    hide FollowsBlock, AddressServer, Answer;
    FollowsAppend(prog, head, address, port[0].pc);
    FollowsAppend(prog, head + address, port, end);
  }

  lemma RequestReplyFollows(cl: Client, cfg: Config)
    ensures FollowsBlock(ClientProgram(cl), RequestClient(cl, cfg), ClientEnding(Judge(cl, cfg)))
  {
    var prog := ClientProgram(cl);
    var b := RequestClient(cl, cfg);
    var next := ClientEnding(Judge(cl, cfg));
    hide PutUint16, Judge, Client.HeardTarget, Client.Request;
    if Judge(cl, cfg).Connected? {
      FieldShape(cl.codec, Judge(cl, cfg).bindHost);
      hide IpField, BindField;
      assert FollowsAt(prog, b, next, 0);
      assert FollowsAt(prog, b, next, 1);
      assert FollowsAt(prog, b, next, 2);
    } else {
      assert FollowsAt(prog, b, next, 0);
    }
  }

  lemma FieldShape(codec: Codec, host: Text)
    ensures var f := BindField(codec, host);
            if f[0] == ATYP_V4 then |f| == 5 else f[0] == ATYP_V6 && |f| == 17
  {
  }

  ghost predicate ServerFollows<C, S>(prog: Program<S>, rounds: seq<Round<C, S>>, end: S) {
    rounds == [] ||
    (&& FollowsBlock(prog, rounds[0].server, First(ServerStages(rounds[1..]), end))
     && ServerFollows(prog, rounds[1..], end))
  }

  ghost predicate ClientFollows<C, S>(prog: Program<C>, rounds: seq<Round<C, S>>, end: C) {
    rounds == [] ||
    (&& FollowsBlock(prog, rounds[0].client, First(ClientStages(rounds[1..]), end))
     && ClientFollows(prog, rounds[1..], end))
  }

  lemma {:induction false} RoundsFollow<C, S>(
    cp: Program<C>, sp: Program<S>, rounds: seq<Round<C, S>>, cend: C, send: S)
    requires ServerFollows(sp, rounds, send) && ClientFollows(cp, rounds, cend)
    ensures FollowsBlock(sp, ServerStages(rounds), send)
    ensures FollowsBlock(cp, ClientStages(rounds), cend)
  {
    if rounds != [] {
      RoundsFollow(cp, sp, rounds[1..], cend, send);
      FollowsAppend(sp, rounds[0].server, ServerStages(rounds[1..]), send);
      FollowsAppend(cp, rounds[0].client, ClientStages(rounds[1..]), cend);
    }
  }

  lemma OneRound<C, S>(cp: Program<C>, sp: Program<S>, r: Round<C, S>, cend: C, send: S)
    requires FollowsBlock(sp, r.server, send) && FollowsBlock(cp, r.client, cend)
    requires r.server != [] && r.client != []
    ensures ServerFollows(sp, [r], send) && ClientFollows(cp, [r], cend)
    ensures First(ServerStages([r]), send) == r.server[0].pc && First(ClientStages([r]), cend) == r.client[0].pc
  {
    assert [r][1..] == [];
  }

  lemma MoreRounds<C, S>(cp: Program<C>, sp: Program<S>, r: Round<C, S>, rounds: seq<Round<C, S>>, cend: C, send: S)
    requires FollowsBlock(sp, r.server, First(ServerStages(rounds), send))
    requires FollowsBlock(cp, r.client, First(ClientStages(rounds), cend))
    requires ServerFollows(sp, rounds, send) && ClientFollows(cp, rounds, cend)
    requires r.server != [] && r.client != []
    ensures ServerFollows(sp, [r] + rounds, send) && ClientFollows(cp, [r] + rounds, cend)
    ensures First(ServerStages([r] + rounds), send) == r.server[0].pc
    ensures First(ClientStages([r] + rounds), cend) == r.client[0].pc
  {
    assert ([r] + rounds)[1..] == rounds;
  }

  lemma RefusedEndings(cl: Client, cfg: Config)
    ensures var v := Judge(cl, cfg);
            v.NoMethod? || v.BadCredentials? ==> ClientEnding(v) == Failed && ServerEnding(cl, v) == Ended(Closed)
  {
  }

  lemma ProgramsFollow(cl: Client, cfg: Config, upstream: seq<Byte>)
    requires SameText(cl, cfg)
    ensures ServerFollows(ServerProgram(cfg, upstream), Rounds(cl, cfg, upstream), ServerEnding(cl, Judge(cl, cfg)))
    ensures ClientFollows(ClientProgram(cl), Rounds(cl, cfg, upstream), ClientEnding(Judge(cl, cfg)))
    ensures First(ServerStages(Rounds(cl, cfg, upstream)), Ended(Closed)) == Greet
    ensures First(ClientStages(Rounds(cl, cfg, upstream)), Failed) == GreetReply
  {
    hide FollowsBlock, ClientProgram, ServerProgram, SameText, ClientEnding, ServerEnding, Heard, AuthUnread,
         Client.HeardTarget, Client.Request, AuthMessage;
    var cp, sp := ClientProgram(cl), ServerProgram(cfg, upstream);
    var v := Judge(cl, cfg);
    var cend, send := ClientEnding(v), ServerEnding(cl, v);
    var rounds := Rounds(cl, cfg, upstream);
    RefusedEndings(cl, cfg);
    GreetFollows(cl, cfg, upstream);
    GreetReplyFollows(cl);
    AuthReplyFollows(cl);
    if cl.auth.Some? {
      HeardIsRead(cl.auth.value);
      AuthFollows(cfg, upstream, Heard(cl.auth.value));
    }
    var last := Round(RequestServer(cl, cfg, upstream), RequestClient(cl, cfg));
    if !v.NoMethod? && !v.BadCredentials? {
      RequestFollows(cl, cfg, upstream);
      RequestReplyFollows(cl, cfg);
      OneRound(cp, sp, last, cend, send);
    }
    if v.NoMethod? {
      OneRound(cp, sp, rounds[0], cend, send);
    } else if v.BadCredentials? {
      OneRound(cp, sp, rounds[1], cend, send);
      MoreRounds(cp, sp, rounds[0], [rounds[1]], cend, send);
      assert rounds == [rounds[0]] + [rounds[1]];
    } else if cl.auth.None? {
      MoreRounds(cp, sp, rounds[0], [last], cend, send);
      assert rounds == [rounds[0]] + [last];
    } else {
      MoreRounds(cp, sp, rounds[1], [last], cend, send);
      MoreRounds(cp, sp, rounds[0], [rounds[1]] + [last], cend, send);
      assert rounds == [rounds[0]] + ([rounds[1]] + [last]);
    }
  }

  // ---------- the theorem ----------

  /** The state when the client has connected and neither side has done anything yet. */
  ghost function Opening(cl: Client): Net<ClientPc, ServerPc> {
    Net(Party(GreetReply, [], Greeting(cl.auth)), Party(Greet, [], []), [], [])
  }

  ghost function ClientScript(cl: Client, cfg: Config, upstream: seq<Byte>): Script<ClientPc> {
    Script(Greeting(cl.auth), ClientStages(Rounds(cl, cfg, upstream)), ClientEnding(Judge(cl, cfg)))
  }

  ghost function ServerScript(cl: Client, cfg: Config, upstream: seq<Byte>): Script<ServerPc> {
    Script([], ServerStages(Rounds(cl, cfg, upstream)), ServerEnding(cl, Judge(cl, cfg)))
  }

  /** How a dial of these two configurations ends. */
  ghost predicate Concluded(cl: Client, cfg: Config, upstream: seq<Byte>, n: Net<ClientPc, ServerPc>) {
    var v := Judge(cl, cfg);
    if v.Connected? then
      // connected to the target that the server heard; each side's later octets are on the stream to the other,
      // the client's after what the server has left of the request
      n == Net(Party(Dialled, [], []), Party(Ended(Relaying(cl.HeardTarget())), [], []),
               cl.Unread() + cl.payload, upstream)
    else
      // both sides know that it failed
      && n.client == Party(Failed, [], [])
      && n.server == Party(Ended(Closed), [], [])
      && n.up == Unheard(cl, v)
  }

  lemma LastRoundLeaves(cl: Client, cfg: Config, upstream: seq<Byte>)
    requires Unmistakable(cl, cfg)
    ensures var cs, ss := ClientScript(cl, cfg, upstream), ServerScript(cl, cfg, upstream);
            var v := Judge(cl, cfg);
            && cs.opening + Outs(cs.stages)
               == Fields(ss.stages) + (Unheard(cl, v) + (if v.Connected? then cl.payload else []))
            && (v.Connected? ==> Outs(ss.stages) == Fields(cs.stages) + upstream)
  {
    var rounds := Rounds(cl, cfg, upstream);
    var v := Judge(cl, cfg);
    DialogueHolds(cl, cfg, upstream);
    var last := rounds[|rounds| - 1];
    assert Outs(last.client) == (if v.Connected? then cl.payload else [])
           && (v.Connected? ==> Outs(last.server) == Fields(last.client) + upstream) by {
      if v.NoMethod? {
        GreetBlocks(cl, REJECTED, []);
      } else if v.BadCredentials? {
        AuthHeardBlocks(cl.auth.value, 1, []);
      } else {
        RequestBlock(cl, cfg, upstream);
        AnswerBlock(cl, cfg, upstream);
      }
    }
    hide Rounds, Judge, Unheard;
    Leftovers(Greeting(cl.auth), rounds, Unheard(cl, v), if v.Connected? then upstream else [], v.Connected?);
  }

  /** What a dialogue leaves unread is what its last round does not read. */
  lemma {:induction false} Leftovers<C, S>(
    question: seq<Byte>, rounds: seq<Round<C, S>>, left: seq<Byte>, extra: seq<Byte>, known: bool)
    requires Dialogue(question, rounds, left) && rounds != []
    requires var last := rounds[|rounds| - 1]; known ==> Outs(last.server) == Fields(last.client) + extra
    ensures question + Outs(ClientStages(rounds))
            == Fields(ServerStages(rounds)) + (left + Outs(rounds[|rounds| - 1].client))
    ensures known ==> Outs(ServerStages(rounds)) == Fields(ClientStages(rounds)) + extra
    decreases |rounds|
  {
    var r, more := rounds[0], rounds[1..];
    FieldsAppend(r.server, ServerStages(more));
    FieldsAppend(r.client, ClientStages(more));
    if more == [] {
      assert rounds == [r];
      assert r.server + [] == r.server && r.client + [] == r.client;
      Associate(Fields(r.server), left, Outs(r.client));
    } else {
      Leftovers(Outs(r.client), more, left, extra, known);
      hide Fields, Outs;
      var sf, co := Fields(ServerStages(more)), Outs(ClientStages(more));
      var end := left + Outs(rounds[|rounds| - 1].client);
      assert question + (Outs(r.client) + co) == question + (sf + end);
      Associate(question, sf, end);
      if known {
        Associate(Fields(r.client), Fields(ClientStages(more)), extra);
      }
    }
  }

  /**
   * Every run of a dial, however both streams are cut up and the two sides interleaved: it is no longer than a
   * bound, and when nothing more can happen both sides have ended. They are connected when the server heard the
   * credentials it wants and can dial the target it heard, with nothing of what was sent afterwards touched; otherwise
   * both have failed. Nothing is asked of the name, the port and the credentials, but that credentials that do not fit
   * are not heard as the right ones.
   */
  lemma DialOutcome(cl: Client, cfg: Config, upstream: seq<Byte>, ns: seq<Net<ClientPc, ServerPc>>)
    requires Unmistakable(cl, cfg) && SameText(cl, cfg)
    requires Run(ClientProgram(cl), ServerProgram(cfg, upstream), ns) && ns[0] == Opening(cl)
    ensures |ns| <= Bound(ClientScript(cl, cfg, upstream), ServerScript(cl, cfg, upstream)) + 1
    ensures Stuck(ClientProgram(cl), ServerProgram(cfg, upstream), ns[|ns| - 1]) ==>
              Concluded(cl, cfg, upstream, ns[|ns| - 1])
  {
    var cp, sp := ClientProgram(cl), ServerProgram(cfg, upstream);
    var cs, ss := ClientScript(cl, cfg, upstream), ServerScript(cl, cfg, upstream);
    ScriptsFit(cl, cfg, upstream);
    hide ClientProgram, ServerProgram, ClientScript, ServerScript, Follows, Fit, Concluded, Judge, Unmistakable,
         SameText;
    RunsFinish(cp, sp, cs, ss, ns);
    if Stuck(cp, sp, ns[|ns| - 1]) {
      FinishedIsConcluded(cl, cfg, upstream, ns[|ns| - 1]);
    }
  }

  lemma ScriptsFit(cl: Client, cfg: Config, upstream: seq<Byte>)
    requires Unmistakable(cl, cfg) && SameText(cl, cfg)
    ensures var cs, ss := ClientScript(cl, cfg, upstream), ServerScript(cl, cfg, upstream);
            && Follows(ClientProgram(cl), cs) && Follows(ServerProgram(cfg, upstream), ss) && Fit(cs, ss)
            && Start(cs, ss) == Opening(cl)
  {
    ScriptsAreFollowed(cl, cfg, upstream);
    RoundsStart(cl, cfg, upstream);
    var rounds, v := Rounds(cl, cfg, upstream), Judge(cl, cfg);
    DialogueHolds(cl, cfg, upstream);
    hide Rounds, Judge, Dialogue, Unmistakable, SameText, Fit, Follows, ServerStages, ClientStages, Unheard;
    DialogueFits(Greeting(cl.auth), rounds, Unheard(cl, v), ClientEnding(v), ServerEnding(cl, v));
  }

  lemma ScriptsAreFollowed(cl: Client, cfg: Config, upstream: seq<Byte>)
    requires SameText(cl, cfg)
    ensures Follows(ClientProgram(cl), ClientScript(cl, cfg, upstream))
    ensures Follows(ServerProgram(cfg, upstream), ServerScript(cl, cfg, upstream))
  {
    var cp, sp := ClientProgram(cl), ServerProgram(cfg, upstream);
    var rounds, v := Rounds(cl, cfg, upstream), Judge(cl, cfg);
    var cend, send := ClientEnding(v), ServerEnding(cl, v);
    assert cp.need(cend) == None && sp.need(send) == None;
    ProgramsFollow(cl, cfg, upstream);
    hide Rounds, Judge, ServerFollows, ClientFollows, FollowsBlock, ClientProgram, ServerProgram, SameText,
         ClientEnding, ServerEnding, ServerStages, ClientStages, Follows;
    RoundsFollow(cp, sp, rounds, cend, send);
    FollowsScript(cp, ClientScript(cl, cfg, upstream));
    FollowsScript(sp, ServerScript(cl, cfg, upstream));
  }

  lemma RoundsStart(cl: Client, cfg: Config, upstream: seq<Byte>)
    ensures var cs, ss := ClientScript(cl, cfg, upstream), ServerScript(cl, cfg, upstream);
            cs.PcAt(0) == GreetReply && ss.PcAt(0) == Greet
  {
    hide RequestServer, RequestClient, AuthHeard, AuthServer;
  }

  lemma FinishedIsConcluded(cl: Client, cfg: Config, upstream: seq<Byte>, n: Net<ClientPc, ServerPc>)
    requires Unmistakable(cl, cfg)
    requires Finished(ClientScript(cl, cfg, upstream), ServerScript(cl, cfg, upstream), n)
    ensures Concluded(cl, cfg, upstream, n)
  {
    var cs, ss := ClientScript(cl, cfg, upstream), ServerScript(cl, cfg, upstream);
    WholeScript(cs);
    WholeScript(ss);
    LastRoundLeaves(cl, cfg, upstream);
    hide Rounds, Script.Reads, Script.Writes, Judge, Unmistakable;
    var v := Judge(cl, cfg);
    Cancel(ss.Reads(|ss.stages|), n.up, Unheard(cl, v) + (if v.Connected? then cl.payload else []));
    if v.Connected? {
      Cancel(cs.Reads(|cs.stages|), n.down, upstream);
    } else {
      assert Unheard(cl, v) + [] == Unheard(cl, v);
    }
  }

  lemma Cancel(a: seq<Byte>, b: seq<Byte>, c: seq<Byte>)
    requires a + b == a + c
    ensures b == c
  {
    assert (a + b)[|a|..] == b && (a + c)[|a|..] == c;
  }

  /**
   * For a client whose name, port and credentials fit: connected to the very target it asked for, with nothing left
   * over, exactly when the credentials agree and the dial succeeds.
   */
  lemma FittingDialOutcome(cl: Client, cfg: Config, upstream: seq<Byte>, ns: seq<Net<ClientPc, ServerPc>>)
    requires cl.Fits() && SameText(cl, cfg)
    requires Run(ClientProgram(cl), ServerProgram(cfg, upstream), ns) && ns[0] == Opening(cl)
    requires Stuck(ClientProgram(cl), ServerProgram(cfg, upstream), ns[|ns| - 1])
    ensures var n := ns[|ns| - 1];
            if cl.auth == cfg.auth && cfg.dial(cl.Target()).Some? then
              n == Net(Party(Dialled, [], []), Party(Ended(Relaying(cl.Target())), [], []), cl.payload, upstream)
            else
              n.client == Party(Failed, [], []) && n.server == Party(Ended(Closed), [], []) && n.up == []
  {
    FittingIsHeard(cl);
    if cl.auth.Some? {
      FittingCredentialsAreHeard(cl.auth.value);
    }
    assert [] + cl.payload == cl.payload;
    hide Run, Stuck, ClientProgram, ServerProgram, Bound, Opening, Client.HeardTarget, Client.Target, Client.Unread,
         Heard, AuthUnread;
    DialOutcome(cl, cfg, upstream, ns);
  }

  /** A name that is too long: connected, if at all, to the cut-off name, with the rest of it ahead of the payload. */
  lemma LongNameOutcome(cl: Client, cfg: Config, upstream: seq<Byte>, ns: seq<Net<ClientPc, ServerPc>>)
    requires cl.codec.parse(cl.host).None? && 256 <= |cl.host| && cl.auth == cfg.auth && SameText(cl, cfg)
    requires cl.auth.Some? ==> |cl.auth.value.user| < 256 && |cl.auth.value.pass| < 256
    requires Run(ClientProgram(cl), ServerProgram(cfg, upstream), ns) && ns[0] == Opening(cl)
    requires Stuck(ClientProgram(cl), ServerProgram(cfg, upstream), ns[|ns| - 1])
    ensures var n, cut := ns[|ns| - 1], |cl.host| % 256;
            var target := JoinHostPort(cl.host[..cut], Itoa(Uint16(cl.host[cut..cut + 2])));
            if cfg.dial(target).Some? then
              && n.server.pc == Ended(Relaying(target)) && n.client.pc == Dialled
              && n.up == cl.host[cut + 2..] + PutUint16(cl.port) + cl.payload
            else n.server.pc == Ended(Closed) && n.client.pc == Failed
  {
    var cut := |cl.host| % 256;
    var rest := cl.host[cut..];
    assert (rest + PutUint16(cl.port))[..2] == rest[..2] == cl.host[cut..cut + 2];
    assert (rest + PutUint16(cl.port))[2..] == rest[2..] + PutUint16(cl.port);
    assert rest[2..] == cl.host[cut + 2..];
    if cl.auth.Some? {
      FittingCredentialsAreHeard(cl.auth.value);
    }
    hide Run, Stuck, ClientProgram, ServerProgram, Bound, Opening, Heard, AuthUnread, PutUint16, JoinHostPort, Itoa;
    DialOutcome(cl, cfg, upstream, ns);
  }
}
