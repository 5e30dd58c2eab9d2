/** Where every packet and byte went: into a live flow, into a flow that ended, or nowhere
    because the table was full. */
module FlowAccounting {
  import opened Numbers
  import opened Events
  import opened FlowTableSpec

  datatype Measure = Packets | Bytes

  function Amount(s: FlowState, m: Measure): nat {
    if m.Packets? then s.packetCount else s.byteCount
  }

  function Weight(p: ParsedPacket, m: Measure): nat {
    if m.Packets? then 1 else p.wireLength
  }

  /** What the flows in the table have counted. */
  ghost function Live(flows: map<FlowKey, FlowState>, m: Measure): nat
    decreases flows.Keys
  {
    if flows == map[] then 0
    else
      var k :| k in flows;
      Amount(flows[k], m) + Live(flows - {k}, m)
  }

  /** What the ended flows reported. */
  function Ended(events: seq<FlowEvent>, m: Measure): nat {
    if events == [] then 0
    else
      var last := events[|events| - 1];
      Ended(events[..|events| - 1], m) + (if last.eventType.End? then Amount(last.state, m) else 0)
  }

  function Arrival(cfg: Config, t: Table, input: Input, m: Measure): nat {
    if input.Packet? && !CapHit(cfg, t, input.pkt) then Weight(input.pkt, m) else 0
  }

  /** What the packets not turned away amount to. */
  function Admitted(cfg: Config, run: seq<Turn>, m: Measure): nat {
    if run == [] then 0
    else
      var earlier, last := run[..|run| - 1], run[|run| - 1].input;
      Admitted(cfg, earlier, m) +
      Arrival(cfg, After(cfg, earlier), last, m)
  }

  lemma {:induction false} LiveWithout(flows: map<FlowKey, FlowState>, k: FlowKey, m: Measure)
    requires k in flows
    ensures Live(flows, m) == Amount(flows[k], m) + Live(flows - {k}, m)
    decreases flows.Keys
  {
    var k0 :| k0 in flows && Live(flows, m) == Amount(flows[k0], m) + Live(flows - {k0}, m);
    if k != k0 {
      LiveWithout(flows - {k0}, k, m);
      LiveWithout(flows - {k}, k0, m);
      assert (flows - {k0}) - {k} == (flows - {k}) - {k0};
    }
  }

  lemma LiveUpdated(flows: map<FlowKey, FlowState>, k: FlowKey, s: FlowState, m: Measure)
    ensures Live(flows[k := s], m) == Amount(s, m) + Live(flows - {k}, m)
  {
    LiveWithout(flows[k := s], k, m);
    assert flows[k := s] - {k} == flows - {k};
  }

  lemma {:induction false} LiveSplit(flows: map<FlowKey, FlowState>, gone: map<FlowKey, FlowState>, m: Measure)
    requires forall k | k in gone :: k in flows && gone[k] == flows[k]
    ensures Live(flows, m) == Live(flows - gone.Keys, m) + Live(gone, m)
    decreases gone.Keys
  {
    if gone == map[] {
      assert flows - gone.Keys == flows;
    } else {
      var k :| k in gone;
      LiveWithout(flows, k, m);
      LiveWithout(gone, k, m);
      LiveSplit(flows - {k}, gone - {k}, m);
      assert (flows - {k}) - (gone - {k}).Keys == flows - gone.Keys;
    }
  }

  /** The flows a turn ends, with their final counts. */
  function Closed(cfg: Config, t: Table, input: Input): map<FlowKey, FlowState> {
    match input
    case Packet(p) =>
      var k := KeyFromPacket(p);
      if k in t.flows && Teardown(p) then map[k := Touched(t.flows[k], p)] else map[]
    case Sweep(now) => map k | k in t.flows && Idle(cfg, t.flows[k], now) :: t.flows[k]
    case Drain(now) => t.flows
  }

  function EndStates(events: seq<FlowEvent>): seq<FlowState> {
    if events == [] then []
    else
      var last := events[|events| - 1];
      EndStates(events[..|events| - 1]) + (if last.eventType.End? then [last.state] else [])
  }

  ghost predicate EndsExactly(outs: seq<FlowEvent>, closed: map<FlowKey, FlowState>) {
    forall k :: EndStates(EventsOf(outs, k)) == if k in closed then [closed[k]] else []
  }

  lemma EventsOfEarlier(outs: seq<FlowEvent>, k: FlowKey)
    requires outs != []
    ensures var earlier, last := outs[..|outs| - 1], outs[|outs| - 1];
      EndStates(EventsOf(outs, k)) ==
      EndStates(EventsOf(earlier, k)) + (if last.state.key == k && last.eventType.End? then [last.state] else [])
  {
    var before, last := EventsOf(outs[..|outs| - 1], k), outs[|outs| - 1];
    if last.state.key == k {
      assert (before + [last])[..|before + [last]| - 1] == before;
    } else {
      assert before + [] == before;
    }
  }

  lemma NothingClosed(closed: map<FlowKey, FlowState>)
    requires EndsExactly([], closed)
    ensures closed == map[]
  {
    forall k
      ensures k !in closed
    {
      assert EndStates(EventsOf([], k)) == [];
    }
  }

  lemma ClosedEarlier(outs: seq<FlowEvent>, closed: map<FlowKey, FlowState>)
    requires outs != [] && EndsExactly(outs, closed)
    ensures var earlier, last := outs[..|outs| - 1], outs[|outs| - 1];
      if last.eventType.End?
      then
        && last.state.key in closed && closed[last.state.key] == last.state
        && EndsExactly(earlier, closed - {last.state.key})
      else EndsExactly(earlier, closed)
  {
    hide EventsOf, EndStates;
    var earlier, last := outs[..|outs| - 1], outs[|outs| - 1];
    var k := last.state.key;
    EventsOfEarlier(outs, k);
    assert EndStates(EventsOf(outs, k)) == if k in closed then [closed[k]] else [];
    if last.eventType.End? {
      var before := EndStates(EventsOf(earlier, k));
      assert (before + [last.state])[|before|] == last.state;
    }
    var rest := if last.eventType.End? then closed - {k} else closed;
    forall j
      ensures EndStates(EventsOf(earlier, j)) == if j in rest then [rest[j]] else []
    {
      EventsOfEarlier(outs, j);
      assert EndStates(EventsOf(outs, j)) == if j in closed then [closed[j]] else [];
    }
  }

  lemma {:induction false} EndedIsClosed(outs: seq<FlowEvent>, closed: map<FlowKey, FlowState>, m: Measure)
    requires EndsExactly(outs, closed)
    ensures Ended(outs, m) == Live(closed, m)
    decreases |outs|
  {
    hide EndsExactly, Live;
    if outs == [] {
      NothingClosed(closed);
      LiveNothing(m);
    } else {
      var earlier, last := outs[..|outs| - 1], outs[|outs| - 1];
      ClosedEarlier(outs, closed);
      if last.eventType.End? {
        EndedIsClosed(earlier, closed - {last.state.key}, m);
        LiveWithout(closed, last.state.key, m);
      } else {
        EndedIsClosed(earlier, closed, m);
      }
    }
  }

  lemma LiveNothing(m: Measure)
    ensures Live(map[], m) == 0
  {
  }

  lemma OneEndState(e: FlowEvent)
    ensures EndStates([e]) == if e.eventType.End? then [e.state] else []
  {
    assert [e][..0] == [];
  }

  lemma TurnEndsExactly(cfg: Config, t: Table, input: Input, outs: seq<FlowEvent>)
    requires Emits(cfg, t, input, outs)
    ensures EndsExactly(outs, Closed(cfg, t, input))
  {
    forall k
      ensures EndStates(EventsOf(outs, k)) == if k in Closed(cfg, t, input) then [Closed(cfg, t, input)[k]] else []
    {
      var events := KeyEvents(cfg, t, input, k);
      assert EventsOf(outs, k) == events;
      if events != [] {
        assert events == [events[0]];
        OneEndState(events[0]);
      }
    }
  }

  /** The same number, up to the wrap of a 64-bit counter. */
  ghost predicate Matches(counted: nat, expected: nat) {
    Wrap64(counted) == Wrap64(expected) && (expected < TWO64 ==> counted == expected)
  }

  lemma MatchesPlus(a: nat, b: nat, c: nat)
    requires Matches(a, b)
    ensures Matches(a + c, b + c)
  {
    WrapAdd(a, c);
    WrapAdd(b, c);
  }

  lemma TouchedMatches(s: FlowState, p: ParsedPacket, m: Measure)
    ensures Matches(Amount(Touched(s, p), m), Amount(s, m) + Weight(p, m))
  {
  }

  lemma PacketBalance(cfg: Config, t: Table, p: ParsedPacket, m: Measure)
    ensures Matches(Live(Next(cfg, t, Packet(p)).flows, m) + Live(Closed(cfg, t, Packet(p)), m),
                    Live(t.flows, m) + Arrival(cfg, t, Packet(p), m))
  {
    hide Matches, Live, Wrap64;
    var k := KeyFromPacket(p);
    LiveNothing(m);
    if k !in t.flows {
      LiveUpdated(t.flows, k, Opened(p), m);
      assert t.flows - {k} == t.flows;
      MatchesSame(Live(Next(cfg, t, Packet(p)).flows, m));
    } else {
      var s := Touched(t.flows[k], p);
      LiveWithout(t.flows, k, m);
      LiveUpdated(t.flows, k, s, m);
      LiveSingle(k, s, m);
      TouchedMatches(t.flows[k], p, m);
      MatchesPlus(Amount(s, m), Amount(t.flows[k], m) + Weight(p, m), Live(t.flows - {k}, m));
    }
  }

  lemma LiveSingle(k: FlowKey, s: FlowState, m: Measure)
    ensures Live(map[k := s], m) == Amount(s, m)
  {
    LiveWithout(map[k := s], k, m);
    assert map[k := s] - {k} == map[];
  }

  lemma MatchesSame(a: nat)
    ensures Matches(a, a)
  {
  }

  lemma ClockBalance(cfg: Config, t: Table, input: Input, m: Measure)
    requires !input.Packet?
    ensures Live(Next(cfg, t, input).flows, m) + Live(Closed(cfg, t, input), m) == Live(t.flows, m)
  {
    hide Live;
    match input
    case Sweep(now) =>
      var closed := Closed(cfg, t, Sweep(now));
      assert closed.Keys == IdleKeys(cfg, t.flows, now);
      LiveSplit(t.flows, closed, m);
    case Drain(_) => LiveNothing(m);
  }

  /** One turn moves counts between the live and the ended, and adds the admitted packet. */
  lemma TurnBalance(cfg: Config, t: Table, input: Input, m: Measure)
    ensures Matches(Live(Next(cfg, t, input).flows, m) + Live(Closed(cfg, t, input), m),
                    Live(t.flows, m) + Arrival(cfg, t, input, m))
  {
    hide Matches, Live, Next, Closed;
    if input.Packet? {
      PacketBalance(cfg, t, input.pkt, m);
    } else {
      ClockBalance(cfg, t, input, m);
      MatchesSame(Live(t.flows, m));
    }
  }

  lemma {:induction false} EndedConcat(a: seq<FlowEvent>, b: seq<FlowEvent>, m: Measure)
    ensures Ended(a + b, m) == Ended(a, m) + Ended(b, m)
  {
    if b == [] {
      assert a + b == a;
    } else {
      assert (a + b)[..|a + b| - 1] == a + b[..|b| - 1];
      EndedConcat(a, b[..|b| - 1], m);
    }
  }

  /** At every lock boundary the live counts and the reported ends add up to what was admitted:
      modulo 2^64 always, exactly while the total fits in the counters. */
  lemma {:induction false} NothingLost(cfg: Config, run: seq<Turn>, m: Measure)
    requires Legal(cfg, run)
    ensures Matches(Live(After(cfg, run).flows, m) + Ended(Offered(run), m), Admitted(cfg, run, m))
  {
    hide Matches, Live, Next, Closed, EndsExactly, Emits, CapHit;
    if run == [] {
      LiveNothing(m);
      MatchesSame(0);
    } else {
      var earlier, last := run[..|run| - 1], run[|run| - 1];
      var t := After(cfg, earlier);
      var closed := Closed(cfg, t, last.input);
      NothingLost(cfg, earlier, m);
      TurnEndsExactly(cfg, t, last.input, last.outs);
      EndedIsClosed(last.outs, closed, m);
      EndedConcat(Offered(earlier), last.outs, m);
      TurnBalance(cfg, t, last.input, m);
      BalanceChain(Live(After(cfg, run).flows, m) + Live(closed, m), Live(t.flows, m), Ended(Offered(earlier), m),
                   Admitted(cfg, earlier, m), Arrival(cfg, t, last.input, m));
    }
  }

  lemma BalanceChain(after: nat, live: nat, ended: nat, admitted: nat, arrival: nat)
    requires Matches(after, live + arrival) && Matches(live + ended, admitted)
    ensures Matches(after + ended, admitted + arrival)
  {
    MatchesPlus(after, live + arrival, ended);
    MatchesPlus(live + ended, admitted, arrival);
  }

  /** Every packet processed was admitted or turned away; the flow gauge is the number created
      less the number expired, and never exceeds the cap. */
  lemma {:induction false} FlowsAndPacketsCounted(cfg: Config, run: seq<Turn>)
    ensures var t := After(cfg, run);
      && t.received == Admitted(cfg, run, Packets) + t.dropCount
      && |t.flows| == t.created - t.expiredIdle - t.expiredTcp
      && |t.flows| <= Max(cfg.maxFlows, 0)
  {
    AlwaysWellKept(cfg, run);
    if run != [] {
      FlowsAndPacketsCounted(cfg, run[..|run| - 1]);
    }
  }

  // ---------------------------------------------------------------- counters and events

  datatype Tally = Tally(starts: nat, idleEnds: nat, tcpEnds: nat)

  function One(e: FlowEvent): Tally {
    match e.eventType
    case Start => Tally(1, 0, 0)
    case Stats => Tally(0, 0, 0)
    case End => if e.reason.IdleTimeout? then Tally(0, 1, 0) else Tally(0, 0, 1)
  }

  function Plus(a: Tally, b: Tally): Tally {
    Tally(a.starts + b.starts, a.idleEnds + b.idleEnds, a.tcpEnds + b.tcpEnds)
  }

  /** How many openings and ends of either reason there are among events. */
  function TallyOf(events: seq<FlowEvent>): Tally {
    if events == [] then Tally(0, 0, 0) else Plus(TallyOf(events[..|events| - 1]), One(events[|events| - 1]))
  }

  lemma {:induction false} TallyConcat(a: seq<FlowEvent>, b: seq<FlowEvent>)
    ensures TallyOf(a + b) == Plus(TallyOf(a), TallyOf(b))
  {
    if b == [] {
      assert a + b == a;
    } else {
      assert (a + b)[..|a + b| - 1] == a + b[..|b| - 1];
      TallyConcat(a, b[..|b| - 1]);
    }
  }

  lemma EmittedEvent(cfg: Config, t: Table, input: Input, outs: seq<FlowEvent>, i: nat)
    requires Emits(cfg, t, input, outs) && i < |outs|
    ensures outs[i] in KeyEvents(cfg, t, input, outs[i].state.key)
  {
    EventsOfMember(outs, i);
  }

  function Counters(t: Table): Tally {
    Tally(t.created, t.expiredIdle, t.expiredTcp)
  }

  lemma TallyOne(e: FlowEvent)
    ensures TallyOf([e]) == One(e)
  {
    assert [e][..0] == [];
  }

  lemma PacketCounters(cfg: Config, t: Table, p: ParsedPacket)
    ensures var outs := KeyEvents(cfg, t, Packet(p), KeyFromPacket(p));
      && |outs| <= 1
      && Counters(Next(cfg, t, Packet(p))) == if outs == [] then Counters(t) else Plus(Counters(t), One(outs[0]))
  {
  }

  lemma PacketTally(cfg: Config, t: Table, p: ParsedPacket, outs: seq<FlowEvent>)
    requires Emits(cfg, t, Packet(p), outs)
    ensures Counters(Next(cfg, t, Packet(p))) == Plus(Counters(t), TallyOf(outs))
  {
    PacketOuts(cfg, t, p, outs);
    PacketCounters(cfg, t, p);
    hide Emits, EventsOf, Next, KeyEvents, One;
    if outs != [] {
      assert outs == [outs[0]];
      TallyOne(outs[0]);
    }
  }

  /** Heartbeats and idle ends only. */
  ghost predicate ClockEvents(outs: seq<FlowEvent>) {
    forall i | 0 <= i < |outs| :: One(outs[i]) == Tally(0, if outs[i].eventType.End? then 1 else 0, 0)
  }

  lemma ClockEventsEarlier(outs: seq<FlowEvent>)
    requires outs != [] && ClockEvents(outs)
    ensures ClockEvents(outs[..|outs| - 1])
    ensures One(outs[|outs| - 1]) == Tally(0, if outs[|outs| - 1].eventType.End? then 1 else 0, 0)
  {
  }

  lemma {:induction false} EndsTally(outs: seq<FlowEvent>, closed: map<FlowKey, FlowState>)
    requires EndsExactly(outs, closed) && ClockEvents(outs)
    ensures TallyOf(outs) == Tally(0, |closed|, 0)
    decreases |outs|
  {
    hide EndsExactly, EventsOf, EndStates, One, ClockEvents;
    if outs == [] {
      NothingClosed(closed);
    } else {
      var earlier, last := outs[..|outs| - 1], outs[|outs| - 1];
      ClosedEarlier(outs, closed);
      ClockEventsEarlier(outs);
      if last.eventType.End? {
        MapRemovalSize(closed, {last.state.key});
        EndsTally(earlier, closed - {last.state.key});
      } else {
        EndsTally(earlier, closed);
      }
    }
  }

  lemma ClosedSize(cfg: Config, t: Table, input: Input)
    requires !input.Packet?
    ensures Counters(Next(cfg, t, input)) == Plus(Counters(t), Tally(0, |Closed(cfg, t, input)|, 0))
  {
    if input.Sweep? {
      assert Closed(cfg, t, input).Keys == IdleKeys(cfg, t.flows, input.now);
    }
  }

  lemma ClockTally(cfg: Config, t: Table, input: Input, outs: seq<FlowEvent>)
    requires Emits(cfg, t, input, outs) && !input.Packet?
    ensures Counters(Next(cfg, t, input)) == Plus(Counters(t), TallyOf(outs))
  {
    hide EventsOf, EndsExactly, Next, Closed;
    forall i | 0 <= i < |outs|
      ensures One(outs[i]) == Tally(0, if outs[i].eventType.End? then 1 else 0, 0)
    {
      EmittedEvent(cfg, t, input, outs, i);
    }
    TurnEndsExactly(cfg, t, input, outs);
    EndsTally(outs, Closed(cfg, t, input));
    ClosedSize(cfg, t, input);
  }

  /** The counters of flows created and expired are the numbers of Start events and of End events
      with either reason that were offered. */
  lemma {:induction false} CountersAreEvents(cfg: Config, run: seq<Turn>)
    requires Legal(cfg, run)
    ensures var t := After(cfg, run);
      TallyOf(Offered(run)) == Tally(t.created, t.expiredIdle, t.expiredTcp)
  {
    if run != [] {
      var earlier, last := run[..|run| - 1], run[|run| - 1];
      CountersAreEvents(cfg, earlier);
      TallyConcat(Offered(earlier), last.outs);
      if last.input.Packet? {
        PacketTally(cfg, After(cfg, earlier), last.input.pkt, last.outs);
      } else {
        ClockTally(cfg, After(cfg, earlier), last.input, last.outs);
      }
    }
  }
}
