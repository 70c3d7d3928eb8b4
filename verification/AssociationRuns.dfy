/**
 * The association table over all interleavings of control sessions and datagrams. A step is one lock region:
 * a session's store or deferred delete, one of the three regions of a datagram's resolution, or Close.
 */
module AssociationRuns {
  import opened Bytes
  import opened IpText
  import opened Associations

  /** addr is the address captured when the session stored its association; the deferred delete uses it. */
  datatype Session = Live(addr: UdpAddr) | Over(addr: UdpAddr)

  datatype Packet = AtPort(source: UdpAddr) | AtSole(source: UdpAddr) | Resolved(source: UdpAddr, found: Option<nat>)

  /** rekeyed remembers the associations that an adopt region has ever moved. */
  datatype State = State(
    table: Table<nat>,
    sessions: map<nat, Session>,
    packets: map<nat, Packet>,
    rekeyed: set<nat>,
    closed: bool)

  const INITIAL := State(map[], map[], map[], {}, false)

  datatype Step =
    | Store(session: nat, addr: UdpAddr)
    | Delete(session: nat)
    | Lookup(packet: nat, source: UdpAddr)
    | PortRegion(packet: nat)
    | SoleRegion(packet: nat)
    | Close

  /** Whether a step can be taken next. */
  ghost predicate Enabled(s: State, step: Step) {
    match step
    case Store(i, _) => i !in s.sessions
    case Delete(i) => i in s.sessions && s.sessions[i].Live?
    case Lookup(p, _) => p !in s.packets
    case PortRegion(p) => p in s.packets && s.packets[p].AtPort?
    case SoleRegion(p) => p in s.packets && s.packets[p].AtSole?
    case Close => !s.closed
  }

  ghost function Next(codec: Codec, s: State, step: Step): State
    requires Enabled(s, step)
  {
    match step
    case Store(i, addr) =>
      s.(table := s.table[AddrText(codec, addr) := Entry(i, addr)], sessions := s.sessions[i := Live(addr)])
    case Delete(i) =>
      var addr := s.sessions[i].addr;
      s.(table := s.table - {AddrText(codec, addr)}, sessions := s.sessions[i := Over(addr)])
    case Lookup(p, source) =>
      var text := AddrText(codec, source);
      var packet := if text in s.table then Resolved(source, Some(s.table[text].assoc)) else AtPort(source);
      s.(packets := s.packets[p := packet])
    case PortRegion(p) =>
      var source := s.packets[p].source;
      var (found, t) := ByPort(codec, s.table, source);
      Adopted(codec, s, source, found, t).(
        packets := s.packets[p := if found.Some? then Resolved(source, found) else AtSole(source)])
    case SoleRegion(p) =>
      var source := s.packets[p].source;
      var (found, t) := BySole(codec, s.table, source);
      Adopted(codec, s, source, found, t).(packets := s.packets[p := Resolved(source, found)])
    case Close => s.(table := map[], closed := true)
  }

  ghost function Adopted(codec: Codec, s: State, source: UdpAddr, found: Option<nat>, t: Table<nat>): State {
    var moved := found.Some? && AddrText(codec, source) !in s.table;
    s.(table := t, rekeyed := if moved then s.rekeyed + {found.value} else s.rekeyed)
  }

  ghost predicate Run(codec: Codec, states: seq<State>, steps: seq<Step>) {
    && |states| == |steps| + 1
    && states[0] == INITIAL
    && forall i | 0 <= i < |steps| ::
         Enabled(states[i], steps[i]) && states[i + 1] == Next(codec, states[i], steps[i])
  }

  // ---------- the invariant ----------

  ghost predicate Inv(codec: Codec, s: State) {
    && Keyed(codec, s.table)
    && Unique(s.table)
    && (forall k | k in s.table :: s.table[k].assoc in s.sessions)
    && (forall k | k in s.table && s.table[k].assoc !in s.rekeyed ::
          s.sessions[s.table[k].assoc] == Live(s.table[k].addr))
  }

  lemma AdoptKeepsInv(codec: Codec, s: State, key: Text, source: UdpAddr)
    requires Inv(codec, s) && key in s.table && AddrText(codec, source) !in s.table
    ensures Inv(codec, s.(table := Rekey(codec, s.table, key, source), rekeyed := s.rekeyed + {s.table[key].assoc}))
  {
    RekeyKeeps(codec, s.table, key, source);
    hide AddrText, Keyed, Unique, Members;
    var t := Rekey(codec, s.table, key, source);
    var moved := s.table[key].assoc;
    forall k | k in t
      ensures t[k].assoc in s.sessions
      ensures t[k].assoc !in s.rekeyed + {moved} ==> s.sessions[t[k].assoc] == Live(t[k].addr)
    {
      if k == AddrText(codec, source) {
        assert t[k].assoc == moved;
      } else {
        assert k in s.table && t[k] == s.table[k];
      }
    }
  }

  lemma RegionKeepsInv(codec: Codec, s: State, source: UdpAddr)
    requires Inv(codec, s)
    ensures var (found, t) := ByPort(codec, s.table, source); Inv(codec, Adopted(codec, s, source, found, t))
    ensures var (found, t) := BySole(codec, s.table, source); Inv(codec, Adopted(codec, s, source, found, t))
  {
    hide AddrText, Inv;
    if AddrText(codec, source) !in s.table {
      if |Candidates(s.table, source)| == 1 {
        AdoptKeepsInv(codec, s, TheOne(Candidates(s.table, source)), source);
      }
      if |s.table| == 1 {
        AdoptKeepsInv(codec, s, TheOne(s.table.Keys), source);
      }
    }
  }

  lemma StoreKeepsInv(codec: Codec, s: State, i: nat, addr: UdpAddr)
    requires Inv(codec, s) && Enabled(s, Store(i, addr))
    ensures Inv(codec, Next(codec, s, Store(i, addr)))
  {
    hide AddrText;
    var s' := Next(codec, s, Store(i, addr));
    assert forall k | k in s'.table && k != AddrText(codec, addr) :: k in s.table && s'.table[k] == s.table[k];
  }

  lemma DeleteKeepsInv(codec: Codec, s: State, i: nat)
    requires Inv(codec, s) && Enabled(s, Delete(i))
    ensures Inv(codec, Next(codec, s, Delete(i)))
  {
    hide AddrText;
    var s' := Next(codec, s, Delete(i));
    assert forall k | k in s'.table :: k in s.table && s'.table[k] == s.table[k];
  }

  lemma StepKeepsInv(codec: Codec, s: State, step: Step)
    requires Inv(codec, s) && Enabled(s, step)
    ensures Inv(codec, Next(codec, s, step))
  {
    match step
    case Store(i, addr) => StoreKeepsInv(codec, s, i, addr);
    case Delete(i) => DeleteKeepsInv(codec, s, i);
    case Lookup(_, _) =>
    case PortRegion(p) => RegionKeepsInv(codec, s, s.packets[p].source);
    case SoleRegion(p) => RegionKeepsInv(codec, s, s.packets[p].source);
    case Close =>
  }

  lemma {:induction false} RunKeepsInv(codec: Codec, states: seq<State>, steps: seq<Step>)
    requires Run(codec, states, steps)
    ensures forall i | 0 <= i < |states| :: Inv(codec, states[i])
  {
    if steps != [] {
      var n := |steps| - 1;
      RunKeepsInv(codec, states[..n + 1], steps[..n]);
      assert states[n] == states[..n + 1][n];
      StepKeepsInv(codec, states[n], steps[n]);
      hide Inv, Next, Enabled;
      forall i | 0 <= i < |states|
        ensures Inv(codec, states[i])
      {
        assert i <= n ==> states[i] == states[..n + 1][i];
      }
    }
  }

  // ---------- how long an association lives ----------

  /**
   * In every state of every run: a key is the text of its association's current address, no association has two keys,
   * and an entry whose control session has already run its deferred delete has been re-keyed at least once.
   */
  lemma EntriesOutliveOnlyByRekey(codec: Codec, states: seq<State>, steps: seq<Step>, i: nat)
    requires Run(codec, states, steps) && i < |states|
    ensures Keyed(codec, states[i].table) && Unique(states[i].table)
    ensures forall k | k in states[i].table ::
              var a := states[i].table[k].assoc;
              a in states[i].sessions && (states[i].sessions[a].Over? ==> a in states[i].rekeyed)
  {
    RunKeepsInv(codec, states, steps);
  }

  /** A datagram's region never adds, drops or replaces an association, in any state of any run. */
  lemma PacketsConserve(codec: Codec, states: seq<State>, steps: seq<Step>, i: nat)
    requires Run(codec, states, steps) && i < |steps|
    requires steps[i].Lookup? || steps[i].PortRegion? || steps[i].SoleRegion?
    ensures |states[i + 1].table| == |states[i].table| && Members(states[i + 1].table) == Members(states[i].table)
  {
    RunKeepsInv(codec, states, steps);
    if !steps[i].Lookup? {
      RegionsKeep(codec, states[i].table, states[i].packets[steps[i].packet].source);
    }
  }

  /** A datagram that a region resolves is bound under its own source at that moment. */
  lemma ResolvedIsBound(codec: Codec, states: seq<State>, steps: seq<Step>, i: nat)
    requires Run(codec, states, steps) && i < |steps|
    requires steps[i].Lookup? || steps[i].PortRegion? || steps[i].SoleRegion?
    ensures var packet := states[i + 1].packets[steps[i].packet];
            packet.Resolved? && packet.found.Some? ==>
              && AddrText(codec, packet.source) in states[i + 1].table
              && states[i + 1].table[AddrText(codec, packet.source)].assoc == packet.found.value
  {
    hide AddrText;
  }

  /** A packet's regions, with no other step in between. */
  ghost function Uninterrupted(codec: Codec, s: State, p: nat, source: UdpAddr): State
    requires p !in s.packets
  {
    var s1 := Next(codec, s, Lookup(p, source));
    if s1.packets[p].Resolved? then s1
    else
      var s2 := Next(codec, s1, PortRegion(p));
      if s2.packets[p].Resolved? then s2 else Next(codec, s2, SoleRegion(p))
  }

  /**
   * A datagram that no other step interrupts gets the association that resolution chooses, and leaves the table that
   * resolution leaves; its first region is enough if and only if its source is bound already.
   */
  lemma UninterruptedResolves(codec: Codec, s: State, p: nat, source: UdpAddr)
    requires p !in s.packets
    ensures var s', (found, t) := Uninterrupted(codec, s, p, source), Resolve(codec, s.table, source);
            s'.packets[p] == Resolved(source, found) && s'.table == t && s'.sessions == s.sessions
    ensures Next(codec, s, Lookup(p, source)).packets[p].Resolved? <==> AddrText(codec, source) in s.table
  {
    hide AddrText, ByPort, BySole;
  }

  // ---------- when the table is exactly the live sessions ----------

  /** Section 7 of RFC 1928: an association lasts as long as the control connection it was made on. */
  ghost predicate Exact(codec: Codec, s: State) {
    && (forall i | i in s.sessions && s.sessions[i].Live? ::
          var text := AddrText(codec, s.sessions[i].addr);
          text in s.table && s.table[text] == Entry(i, s.sessions[i].addr))
    && (forall k | k in s.table ::
          var e := s.table[k];
          e.assoc in s.sessions && s.sessions[e.assoc] == Live(e.addr) && k == AddrText(codec, e.addr))
  }

  /** Whether a step keeps an exact table exact, read off the state before it. */
  ghost predicate Harmless(codec: Codec, s: State, step: Step)
    requires Enabled(s, step)
  {
    match step
    case Store(_, addr) => AddrText(codec, addr) !in s.table
    case Delete(_) => true
    case Lookup(_, _) => true
    case PortRegion(p) =>
      var source := s.packets[p].source;
      AddrText(codec, source) in s.table || |Candidates(s.table, source)| != 1
    case SoleRegion(p) =>
      var source := s.packets[p].source;
      AddrText(codec, source) in s.table || |s.table| != 1
    case Close => s.table == map[]
  }

  lemma RekeyIsNotExact(codec: Codec, s: State, key: Text, source: UdpAddr, s': State)
    requires Exact(codec, s) && key in s.table && AddrText(codec, source) !in s.table
    requires s'.table == Rekey(codec, s.table, key, source) && s'.sessions == s.sessions
    ensures !Exact(codec, s')
  {
    hide AddrText;
    var e := s.table[key];
    assert s.sessions[e.assoc] == Live(e.addr) && key == AddrText(codec, e.addr);
    assert key !in s'.table;
  }

  lemma StoreExactIff(codec: Codec, s: State, i: nat, addr: UdpAddr)
    requires Exact(codec, s) && Enabled(s, Store(i, addr))
    ensures Exact(codec, Next(codec, s, Store(i, addr))) <==> AddrText(codec, addr) !in s.table
  {
    hide AddrText;
    var text := AddrText(codec, addr);
    var s' := Next(codec, s, Store(i, addr));
    if text in s.table {
      var e := s.table[text];
      assert s.sessions[e.assoc] == Live(e.addr) && e.assoc != i && s'.sessions[e.assoc] == Live(e.addr);
      assert s'.table[text] == Entry(i, addr);
    } else {
      assert forall k | k in s'.table && k != text :: k in s.table && s'.table[k] == s.table[k];
      forall j | j in s'.sessions && s'.sessions[j].Live?
        ensures var t := AddrText(codec, s'.sessions[j].addr);
                t in s'.table && s'.table[t] == Entry(j, s'.sessions[j].addr)
      {
        assert j != i ==> s'.sessions[j] == s.sessions[j];
      }
    }
  }

  lemma DeleteExact(codec: Codec, s: State, i: nat)
    requires Exact(codec, s) && Enabled(s, Delete(i))
    ensures Exact(codec, Next(codec, s, Delete(i)))
  {
    hide AddrText;
    var s' := Next(codec, s, Delete(i));
    var text := AddrText(codec, s.sessions[i].addr);
    assert s.table[text] == Entry(i, s.sessions[i].addr);
    forall k | k in s'.table
      ensures var e := s'.table[k];
              e.assoc in s'.sessions && s'.sessions[e.assoc] == Live(e.addr) && k == AddrText(codec, e.addr)
    {
      assert s'.table[k] == s.table[k];
    }
    forall j | j in s'.sessions && s'.sessions[j].Live?
      ensures var t := AddrText(codec, s'.sessions[j].addr);
              t in s'.table && s'.table[t] == Entry(j, s'.sessions[j].addr)
    {
      assert j != i && s.sessions[j] == s'.sessions[j];
      assert s.table[AddrText(codec, s.sessions[j].addr)].assoc == j;
    }
  }

  /** From an exact table, a step leads to an exact table exactly when it is harmless. */
  lemma StepExactIff(codec: Codec, s: State, step: Step)
    requires Exact(codec, s) && Enabled(s, step)
    ensures Exact(codec, Next(codec, s, step)) <==> Harmless(codec, s, step)
  {
    match step
    case Store(i, addr) => StoreExactIff(codec, s, i, addr);
    case Delete(i) => DeleteExact(codec, s, i);
    case Lookup(_, _) =>
    case PortRegion(p) =>
      var source := s.packets[p].source;
      if !Harmless(codec, s, step) {
        RekeyIsNotExact(codec, s, TheOne(Candidates(s.table, source)), source, Next(codec, s, step));
      }
    case SoleRegion(p) =>
      var source := s.packets[p].source;
      if !Harmless(codec, s, step) {
        RekeyIsNotExact(codec, s, TheOne(s.table.Keys), source, Next(codec, s, step));
      }
    case Close => CloseExactIff(codec, s);
  }

  lemma CloseExactIff(codec: Codec, s: State)
    requires Exact(codec, s) && Enabled(s, Close)
    ensures Exact(codec, Next(codec, s, Close)) <==> s.table == map[]
  {
    hide AddrText;
    if s.table != map[] {
      var k :| k in s.table;
      assert s.sessions[s.table[k].assoc].Live?;
    }
  }

  /** Over every run of harmless steps the table is exactly the set of live sessions. */
  lemma {:induction false} HarmlessRunIsExact(codec: Codec, states: seq<State>, steps: seq<Step>)
    requires Run(codec, states, steps)
    requires forall i | 0 <= i < |steps| :: Harmless(codec, states[i], steps[i])
    ensures Exact(codec, states[|states| - 1])
  {
    if steps != [] {
      var n := |steps| - 1;
      var before, first := states[..n + 1], steps[..n];
      RunPrefix(codec, states, steps, n);
      hide Run, Exact, Next, Harmless, Enabled;
      forall i | 0 <= i < |first|
        ensures Harmless(codec, before[i], first[i])
      {
        assert before[i] == states[i] && first[i] == steps[i];
      }
      HarmlessRunIsExact(codec, before, first);
      assert before[n] == states[n];
      StepExactIff(codec, states[n], steps[n]);
    }
  }

  // ---------- quiet runs ----------

  /** No adoption, no Close, and no two sessions with the same address text. */
  ghost predicate Quiet(codec: Codec, states: seq<State>, steps: seq<Step>)
    requires |states| == |steps| + 1
  {
    && states[|steps|].rekeyed == {}
    && Close !in steps
    && forall i, j | 0 <= i < j < |steps| && steps[i].Store? && steps[j].Store? ::
         AddrText(codec, steps[i].addr) != AddrText(codec, steps[j].addr)
  }

  lemma NextGrowsRekeyed(codec: Codec, s: State, step: Step)
    requires Enabled(s, step)
    ensures s.rekeyed <= Next(codec, s, step).rekeyed
    ensures !Harmless(codec, s, step) && !step.Store? && step != Close ==> Next(codec, s, step).rekeyed != {}
  {
    hide AddrText, Rekey, Candidates;
  }

  lemma {:induction false} RekeyedGrows(codec: Codec, states: seq<State>, steps: seq<Step>, i: nat)
    requires Run(codec, states, steps) && i <= |steps|
    ensures states[i].rekeyed <= states[|steps|].rekeyed
    decreases |steps| - i
  {
    if i < |steps| {
      RunPrefix(codec, states, steps, i);
      NextGrowsRekeyed(codec, states[i], steps[i]);
      hide Run, Enabled, Next;
      RekeyedGrows(codec, states, steps, i + 1);
    }
  }

  /** Every key of the table is the text of an address stored before. */
  ghost predicate Stored(codec: Codec, s: State, steps: seq<Step>, n: nat)
    requires n <= |steps|
  {
    forall k | k in s.table :: exists j | 0 <= j < n :: steps[j].Store? && AddrText(codec, steps[j].addr) == k
  }

  lemma NextIsStored(codec: Codec, s: State, steps: seq<Step>, n: nat)
    requires n < |steps| && Enabled(s, steps[n]) && Stored(codec, s, steps, n)
    requires steps[n].Store? || (steps[n] != Close && Harmless(codec, s, steps[n]))
    ensures Stored(codec, Next(codec, s, steps[n]), steps, n + 1)
  {
    hide AddrText, Rekey;
    var s' := Next(codec, s, steps[n]);
    forall k | k in s'.table
      ensures exists j | 0 <= j < n + 1 :: steps[j].Store? && AddrText(codec, steps[j].addr) == k
    {
      if k in s.table {
        var j :| 0 <= j < n && steps[j].Store? && AddrText(codec, steps[j].addr) == k;
      } else {
        assert steps[n].Store? && AddrText(codec, steps[n].addr) == k;
      }
    }
  }

  lemma RunAt(codec: Codec, states: seq<State>, steps: seq<Step>, i: nat)
    requires Run(codec, states, steps) && i < |steps|
    ensures Enabled(states[i], steps[i]) && states[i + 1] == Next(codec, states[i], steps[i])
  {
    hide Next, Enabled;
  }

  /** In a quiet run, what is stored so far leaves the next address free, and the next step harmless. */
  lemma QuietStep(codec: Codec, states: seq<State>, steps: seq<Step>, i: nat)
    requires Run(codec, states, steps) && Quiet(codec, states, steps) && i < |steps|
    requires Stored(codec, states[i], steps, i)
    ensures Enabled(states[i], steps[i]) && Harmless(codec, states[i], steps[i])
    ensures Stored(codec, states[i + 1], steps, i + 1)
  {
    RunAt(codec, states, steps, i);
    NextGrowsRekeyed(codec, states[i], steps[i]);
    RekeyedGrows(codec, states, steps, i + 1);
    assert steps[i] in steps && steps[i] != Close;
    if steps[i].Store? {
      FreeToStore(codec, states[i], states, steps, i);
      assert Harmless(codec, states[i], steps[i]);
    }
    hide Run, Enabled, Next, AddrText, Harmless, Stored;
    NextIsStored(codec, states[i], steps, i);
  }

  lemma FreeToStore(codec: Codec, s: State, states: seq<State>, steps: seq<Step>, i: nat)
    requires |states| == |steps| + 1 && Quiet(codec, states, steps)
    requires i < |steps| && steps[i].Store? && Stored(codec, s, steps, i)
    ensures AddrText(codec, steps[i].addr) !in s.table
  {
    hide AddrText;
  }

  lemma {:induction false} QuietIsHarmless(codec: Codec, states: seq<State>, steps: seq<Step>, n: nat)
    requires Run(codec, states, steps) && Quiet(codec, states, steps) && n <= |steps|
    ensures Stored(codec, states[n], steps, n)
    ensures forall i | 0 <= i < n :: Enabled(states[i], steps[i]) && Harmless(codec, states[i], steps[i])
  {
    if n == 0 {
      assert states[0] == INITIAL;
    } else {
      hide Run, Quiet, Enabled, Harmless, Stored;
      QuietIsHarmless(codec, states, steps, n - 1);
      QuietStep(codec, states, steps, n - 1);
    }
  }

  /** In a quiet run the table is exactly the set of live sessions. */
  lemma QuietRunIsExact(codec: Codec, states: seq<State>, steps: seq<Step>)
    requires Run(codec, states, steps) && Quiet(codec, states, steps)
    ensures Exact(codec, states[|steps|])
  {
    QuietIsHarmless(codec, states, steps, |steps|);
    HarmlessRunIsExact(codec, states, steps);
  }

  lemma RunPrefix(codec: Codec, states: seq<State>, steps: seq<Step>, n: nat)
    requires Run(codec, states, steps) && n < |steps|
    ensures Run(codec, states[..n + 1], steps[..n])
    ensures forall i | 0 <= i < |steps| :: Enabled(states[i], steps[i])
    ensures states[n + 1] == Next(codec, states[n], steps[n])
  {
  }

  lemma RunExtend(codec: Codec, states: seq<State>, steps: seq<Step>, step: Step) returns (states': seq<State>)
    requires Run(codec, states, steps) && Enabled(states[|steps|], step)
    ensures Run(codec, states', steps + [step]) && states'[|steps| + 1] == Next(codec, states[|steps|], step)
  {
    hide Next, Enabled;
    states' := states + [Next(codec, states[|steps|], step)];
    var steps' := steps + [step];
    assert |states'| == |steps'| + 1 && states'[0] == states[0];
    forall i | 0 <= i < |steps'|
      ensures Enabled(states'[i], steps'[i]) && states'[i + 1] == Next(codec, states'[i], steps'[i])
    {
      if i < |steps| {
        assert states'[i] == states[i] && states'[i + 1] == states[i + 1] && steps'[i] == steps[i];
      } else {
        assert states'[i] == states[|steps|] && steps'[i] == step;
      }
    }
  }

  // ---------- why the conditions are needed ----------

  /** A state in which session 1 stored its association at `own` and a datagram from `seen` then moved it there. */
  ghost function Moved(codec: Codec, own: UdpAddr, seen: UdpAddr): State {
    State(
      map[AddrText(codec, seen) := Entry(1, seen)],
      map[1 := Live(own)],
      map[1 := Resolved(seen, Some(1))],
      {1},
      false)
  }

  /** The state before the datagram's region p, with the one association still under its own address. */
  ghost function Waiting(codec: Codec, own: UdpAddr, packet: Packet): State {
    State(map[AddrText(codec, own) := Entry(1, own)], map[1 := Live(own)], map[1 := packet], {}, false)
  }

  lemma MoveTables(codec: Codec, k: Text, own: UdpAddr, seen: UdpAddr)
    requires k != AddrText(codec, seen) && !Matches(own, seen)
    ensures var t: Table<nat> := map[k := Entry(1, own)];
            && ByPort(codec, t, seen) == (None, t)
            && BySole(codec, t, seen) == (Some(1), map[AddrText(codec, seen) := Entry(1, seen)])
  {
    hide AddrText, Matches;
    var t: Table<nat> := map[k := Entry(1, own)];
    assert Candidates(t, seen) == {};
    assert t.Keys == {k};
    assert TheOne(t.Keys) == k;
    assert t - {k} == map[];
  }

  lemma FirstSteps(codec: Codec, own: UdpAddr, seen: UdpAddr)
    requires AddrText(codec, own) != AddrText(codec, seen)
    ensures Run(codec, [INITIAL], [])
    ensures var s := Next(codec, INITIAL, Store(1, own));
            Enabled(s, Lookup(1, seen)) && Next(codec, s, Lookup(1, seen)) == Waiting(codec, own, AtPort(seen))
  {
    hide AddrText;
    var s := Next(codec, INITIAL, Store(1, own));
    assert s.table == map[AddrText(codec, own) := Entry(1, own)] && s.sessions == map[1 := Live(own)];
    assert s.packets == map[];
  }

  lemma MoveSteps(codec: Codec, own: UdpAddr, seen: UdpAddr)
    requires AddrText(codec, own) != AddrText(codec, seen) && !Matches(own, seen)
    ensures Next(codec, Waiting(codec, own, AtPort(seen)), PortRegion(1)) == Waiting(codec, own, AtSole(seen))
    ensures Next(codec, Waiting(codec, own, AtSole(seen)), SoleRegion(1)) == Moved(codec, own, seen)
  {
    hide AddrText, Matches, ByPort, BySole, Rekey;
    MoveTables(codec, AddrText(codec, own), own, seen);
    PortStep(codec, own, seen);
    SoleStep(codec, own, seen);
  }

  lemma PortStep(codec: Codec, own: UdpAddr, seen: UdpAddr)
    requires var t: Table<nat> := map[AddrText(codec, own) := Entry(1, own)]; ByPort(codec, t, seen) == (None, t)
    ensures Next(codec, Waiting(codec, own, AtPort(seen)), PortRegion(1)) == Waiting(codec, own, AtSole(seen))
  {
    hide AddrText, Matches, ByPort, BySole;
    var s := Waiting(codec, own, AtPort(seen));
    assert s.packets[1] == AtPort(seen);
    assert s.packets[1 := AtSole(seen)] == map[1 := AtSole(seen)];
  }

  lemma SoleStep(codec: Codec, own: UdpAddr, seen: UdpAddr)
    requires AddrText(codec, own) != AddrText(codec, seen)
    requires var t: Table<nat> := map[AddrText(codec, own) := Entry(1, own)];
             BySole(codec, t, seen) == (Some(1), map[AddrText(codec, seen) := Entry(1, seen)])
    ensures Next(codec, Waiting(codec, own, AtSole(seen)), SoleRegion(1)) == Moved(codec, own, seen)
  {
    hide AddrText, Matches, ByPort, BySole;
    var s := Waiting(codec, own, AtSole(seen));
    assert s.packets[1] == AtSole(seen);
    assert AddrText(codec, seen) !in s.table;
    assert s.rekeyed + {1} == {1};
    assert s.packets[1 := Resolved(seen, Some(1))] == map[1 := Resolved(seen, Some(1))];
  }

  lemma ReachMoved(codec: Codec, own: UdpAddr, seen: UdpAddr) returns (states: seq<State>, steps: seq<Step>)
    requires AddrText(codec, own) != AddrText(codec, seen) && !Matches(own, seen)
    ensures Run(codec, states, steps) && |steps| == 4 && states[4] == Moved(codec, own, seen)
  {
    hide AddrText, Matches, Run, Next;
    FirstSteps(codec, own, seen);
    MoveSteps(codec, own, seen);
    states := RunExtend(codec, [INITIAL], [], Store(1, own));
    states := RunExtend(codec, states, [] + [Store(1, own)], Lookup(1, seen));
    assert [] + [Store(1, own)] == [Store(1, own)];
    states := RunExtend(codec, states, [Store(1, own)] + [Lookup(1, seen)], PortRegion(1));
    states := RunExtend(codec, states, [Store(1, own)] + [Lookup(1, seen)] + [PortRegion(1)], SoleRegion(1));
    steps := [Store(1, own)] + [Lookup(1, seen)] + [PortRegion(1)] + [SoleRegion(1)];
  }

  /** After a re-key the deferred delete misses: the entry outlives its control session. */
  lemma RekeyedEntryOutlives(codec: Codec, own: UdpAddr, seen: UdpAddr) returns (states: seq<State>, steps: seq<Step>)
    requires AddrText(codec, own) != AddrText(codec, seen) && !Matches(own, seen)
    ensures Run(codec, states, steps)
    ensures var s := states[|steps|];
            s.sessions == map[1 := Over(own)] && s.table == map[AddrText(codec, seen) := Entry(1, seen)]
  {
    states, steps := ReachMoved(codec, own, seen);
    states := RunExtend(codec, states, steps, Delete(1));
    steps := steps + [Delete(1)];
  }

  /** It can hit another session instead: session 2, at the address session 1 first had, loses its live entry. */
  lemma RekeyedDeleteHitsAnother(codec: Codec, own: UdpAddr, seen: UdpAddr)
    returns (states: seq<State>, steps: seq<Step>)
    requires AddrText(codec, own) != AddrText(codec, seen) && !Matches(own, seen)
    ensures Run(codec, states, steps)
    ensures var s := states[|steps|];
            && s.sessions == map[1 := Over(own), 2 := Live(own)]
            && s.table == map[AddrText(codec, seen) := Entry(1, seen)]
  {
    states, steps := ReachMoved(codec, own, seen);
    states := RunExtend(codec, states, steps, Store(2, own));
    steps := steps + [Store(2, own)];
    states := RunExtend(codec, states, steps, Delete(1));
    steps := steps + [Delete(1)];
  }

  /** A deferred delete removes its own session's entry exactly when that entry still has the stored key. */
  lemma DeleteRemovesOwnIff(codec: Codec, s: State, i: nat)
    requires Inv(codec, s) && Enabled(s, Delete(i)) && i in Members(s.table)
    ensures var text := AddrText(codec, s.sessions[i].addr);
            i !in Members(Next(codec, s, Delete(i)).table) <==> text in s.table && s.table[text].assoc == i
  {
    hide AddrText;
    var text := AddrText(codec, s.sessions[i].addr);
    var t' := Next(codec, s, Delete(i)).table;
    var k :| k in s.table && s.table[k].assoc == i;
    if k != text {
      assert k in t' && t'[k].assoc == i;
    }
  }
}
