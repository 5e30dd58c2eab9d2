/** When the table ends a flow, against what the requirements say: a flow is idle when it had no
    packet within the timeout, and a TCP FIN or RST ends it at once. Neither holds as written;
    each gets a run on which it fails and the condition under which it holds. */
module FlowExpiry {
  import opened Numbers
  import opened Events
  import opened FlowTableSpec
  import opened FlowLifetimes

  /** The packets a flow has had since it was opened. */
  function Life(cfg: Config, run: seq<Turn>, k: FlowKey): seq<ParsedPacket> {
    Alone(cfg, KeyInputs(cfg, run, k)).life
  }

  lemma OneEventEmits(cfg: Config, t: Table, input: Input, e: FlowEvent)
    requires KeyEvents(cfg, t, input, e.state.key) == [e]
    requires forall k | k != e.state.key :: KeyEvents(cfg, t, input, k) == []
    ensures Emits(cfg, t, input, [e])
  {
    hide KeyEvents;
    assert [e][..0] == [];
    forall k
      ensures EventsOf([e], k) == KeyEvents(cfg, t, input, k)
    {
      assert EventsOf([], k) == [];
    }
  }

  lemma NoEventEmits(cfg: Config, t: Table, input: Input)
    requires forall k :: KeyEvents(cfg, t, input, k) == []
    ensures Emits(cfg, t, input, [])
  {
  }

  // ---------------------------------------------------------------- idle

  /** What the requirements call expired: no packet of the flow within the timeout. */
  predicate NoneRecent(cfg: Config, life: seq<ParsedPacket>, now: int) {
    forall i | 0 <= i < |life| :: now - life[i].timestampUs >= cfg.flowTimeoutSec * 1_000_000
  }

  /** The table judges a flow by its last packet, not its newest. For a flow of a table that a run
      has reached, the table's test and the documented one agree at every time exactly when no
      earlier packet of the flow is stamped later than its last. */
  lemma ExpiryAsDocumentedIff(cfg: Config, run: seq<Turn>, k: FlowKey)
    requires Legal(cfg, run) && k in After(cfg, run).flows
    ensures var flow, life := After(cfg, run).flows[k], Life(cfg, run, k);
      && life != []
      && ((forall now: int :: Idle(cfg, flow, now) <==> NoneRecent(cfg, life, now)) <==>
          (forall i | 0 <= i < |life| :: life[i].timestampUs <= life[|life| - 1].timestampUs))
  {
    RunIsFold(cfg, run, k);
    hide Legal, After, Alone, KeyInputs;
    var flow, life := After(cfg, run).flows[k], Life(cfg, run, k);
    assert Idle(cfg, flow, life[|life| - 1].timestampUs + cfg.IdleTimeoutUs());
  }

  /** The first packet of a flow, met by an empty table. */
  lemma OpeningTurn(cfg: Config, p: ParsedPacket) returns (turn: Turn)
    requires cfg.maxFlows >= 1
    ensures Legal(cfg, [turn]) && turn.input == Packet(p)
    ensures turn.outs == [FlowEvent(Start, Opened(p), p.timestampUs, IdleTimeout)]
    ensures After(cfg, [turn]) == EMPTY.(flows := map[KeyFromPacket(p) := Opened(p)], received := 1, created := 1)
  {
    var e := FlowEvent(Start, Opened(p), p.timestampUs, IdleTimeout);
    turn := Turn(Packet(p), [e]);
    OneEventEmits(cfg, EMPTY, Packet(p), e);
    AppendTurn(cfg, [], turn);
    assert [] + [turn] == [turn];
  }

  /** Two packets of a flow, neither of them a TCP teardown. */
  lemma TwoPacketTurns(cfg: Config, p: ParsedPacket, q: ParsedPacket) returns (run: seq<Turn>)
    requires cfg.maxFlows >= 1 && KeyFromPacket(p) == KeyFromPacket(q) && !Teardown(q)
    ensures Legal(cfg, run) && |run| == 2 && run[0].input == Packet(p) && run[1].input == Packet(q)
    ensures After(cfg, run) ==
            EMPTY.(flows := map[KeyFromPacket(p) := Touched(Opened(p), q)], received := 2, created := 1)
  {
    var opening := OpeningTurn(cfg, p);
    var turn := Turn(Packet(q), []);
    hide Legal;
    NoEventEmits(cfg, After(cfg, [opening]), Packet(q));
    hide After;
    AppendTurn(cfg, [opening], turn);
    run := [opening] + [turn];
  }

  /** A sweep at a time when the only flow is idle. */
  lemma SweepTurn(cfg: Config, run: seq<Turn>, k: FlowKey, now: i64) returns (turn: Turn)
    requires Legal(cfg, run) && After(cfg, run).flows.Keys == {k}
    requires After(cfg, run).flows[k].key == k && Idle(cfg, After(cfg, run).flows[k], now)
    ensures Legal(cfg, run + [turn]) && turn.input == Sweep(now)
    ensures turn.outs == [FlowEvent(End, After(cfg, run).flows[k], now, IdleTimeout)]
  {
    hide Legal, After;
    turn := Turn(Sweep(now), [FlowEvent(End, After(cfg, run).flows[k], now, IdleTimeout)]);
    OneEventEmits(cfg, After(cfg, run), Sweep(now), turn.outs[0]);
    AppendTurn(cfg, run, turn);
  }

  /** A packet stamped in the past makes a sweep end a flow that had a packet a second before,
      under a sixty second timeout. */
  lemma ExpiryNotAsDocumented(p: ParsedPacket)
    requires !Teardown(p)
    ensures var cfg, k := Config(60, 1, 30), KeyFromPacket(p);
      exists run: seq<Turn> ::
        && Legal(cfg, run) && |run| == 3
        && run[0].input == Packet(p.(timestampUs := 100_000_000))
        && run[1].input == Packet(p.(timestampUs := 0))
        && run[2].input == Sweep(101_000_000)
        && |run[2].outs| == 1 && run[2].outs[0].eventType == End && run[2].outs[0].state.key == k
        && run[2].outs[0].reason == IdleTimeout
  {
    var cfg, k := Config(60, 1, 30), KeyFromPacket(p);
    var run := TwoPacketTurns(cfg, p.(timestampUs := 100_000_000), p.(timestampUs := 0));
    hide Legal, After;
    var turn := SweepTurn(cfg, run, k, 101_000_000);
    assert Legal(cfg, run + [turn]);
  }

  // ---------------------------------------------------------------- teardown

  /** After a FIN or RST of TCP its flow is out of the table, as documented, exactly when the flow
      was in it, or could not be taken in. A FIN or RST that opens a flow leaves it open. */
  lemma TeardownAsDocumentedIff(cfg: Config, t: Table, p: ParsedPacket)
    requires Teardown(p)
    ensures KeyFromPacket(p) !in Next(cfg, t, Packet(p)).flows <==>
            KeyFromPacket(p) in t.flows || |t.flows| >= cfg.maxFlows
  {
  }

  /** On an empty table, one FIN or RST opens a flow that stays. */
  lemma FirstTeardownStays(cfg: Config, p: ParsedPacket)
    requires Teardown(p) && cfg.maxFlows >= 1
    ensures exists run: seq<Turn> ::
      && Legal(cfg, run) && |run| == 1 && run[0].input == Packet(p)
      && |run[0].outs| == 1 && run[0].outs[0].eventType == Start
      && KeyFromPacket(p) in After(cfg, run).flows
  {
    var turn := OpeningTurn(cfg, p);
    assert KeyFromPacket(p) in After(cfg, [turn]).flows;
  }

  predicate NoneAfterFirst(life: seq<ParsedPacket>) {
    forall i | 1 <= i < |life| :: !Teardown(life[i])
  }

  lemma NoneAfterFirstStep(cfg: Config, s: KeyState, input: KeyInput)
    requires NoneAfterFirst(s.life)
    ensures NoneAfterFirst(KeyNext(cfg, s, input).life)
  {
    hide Teardown;
    if input.KPacket? {
      var longer := s.life + [input.pkt];
      assert forall i | 1 <= i < |s.life| :: longer[i] == s.life[i];
    }
  }

  lemma {:induction false} AlwaysNoneAfterFirst(cfg: Config, inputs: seq<KeyInput>)
    ensures NoneAfterFirst(Alone(cfg, inputs).life)
  {
    if inputs != [] {
      hide NoneAfterFirst, KeyNext;
      AlwaysNoneAfterFirst(cfg, inputs[..|inputs| - 1]);
      NoneAfterFirstStep(cfg, Alone(cfg, inputs[..|inputs| - 1]), inputs[|inputs| - 1]);
    } else {
      assert NoneAfterFirst([]);
    }
  }

  /** A flow in the table has had a FIN or RST only if that was the packet that opened it. */
  lemma OnlyFirstTearsDown(cfg: Config, run: seq<Turn>, k: FlowKey)
    requires Legal(cfg, run) && k in After(cfg, run).flows
    ensures var life := Life(cfg, run, k);
      life != [] && ((exists i | 0 <= i < |life| :: Teardown(life[i])) <==> Teardown(life[0]))
  {
    hide Legal, After, Alone, KeyInputs, Summary, Teardown, EventsOf, Offered, AloneEvents;
    RunIsFold(cfg, run, k);
    AlwaysNoneAfterFirst(cfg, KeyInputs(cfg, run, k));
  }

  /** Input n of a flow tears it down: a FIN or RST that is not the flow's first packet. */
  predicate TornDownAt(cfg: Config, inputs: seq<KeyInput>, n: nat)
    requires n < |inputs|
  {
    inputs[n].KPacket? && Teardown(inputs[n].pkt) && Alone(cfg, inputs[..n]).life != []
  }

  /** The event of a teardown: the summary of the flow's packets up to the FIN or RST. */
  function TeardownEnd(cfg: Config, k: FlowKey, inputs: seq<KeyInput>, n: nat): FlowEvent
    requires n < |inputs| && TornDownAt(cfg, inputs, n)
  {
    FlowEvent(End, Summary(k, Alone(cfg, inputs[..n]).life + [inputs[n].pkt]), inputs[n].pkt.timestampUs, TcpTeardown)
  }

  ghost predicate FromTeardown(cfg: Config, k: FlowKey, inputs: seq<KeyInput>, e: FlowEvent) {
    exists n | 0 <= n < |inputs| && TornDownAt(cfg, inputs, n) :: e == TeardownEnd(cfg, k, inputs, n)
  }

  lemma FromTeardownSnoc(cfg: Config, k: FlowKey, inputs: seq<KeyInput>, e: FlowEvent)
    requires inputs != []
    ensures var n := |inputs| - 1;
      FromTeardown(cfg, k, inputs, e) <==>
      FromTeardown(cfg, k, inputs[..n], e) || (TornDownAt(cfg, inputs, n) && e == TeardownEnd(cfg, k, inputs, n))
  {
    var earlier := inputs[..|inputs| - 1];
    forall n | 0 <= n < |earlier|
      ensures TornDownAt(cfg, earlier, n) == TornDownAt(cfg, inputs, n)
      ensures TornDownAt(cfg, earlier, n) ==> TeardownEnd(cfg, k, earlier, n) == TeardownEnd(cfg, k, inputs, n)
    {
      assert earlier[..n] == inputs[..n];
    }
  }

  lemma {:induction false} AloneTeardownEnds(cfg: Config, k: FlowKey, inputs: seq<KeyInput>, e: FlowEvent)
    ensures e in AloneEvents(cfg, k, inputs) && e.reason.TcpTeardown? <==> FromTeardown(cfg, k, inputs, e)
  {
    if inputs != [] {
      AloneTeardownEnds(cfg, k, inputs[..|inputs| - 1], e);
      FromTeardownSnoc(cfg, k, inputs, e);
      hide FromTeardown, Summary, KeyNext;
    }
  }

  /** On every run, the events that report a teardown are exactly those of a FIN or RST that is not
      the first packet of its flow, each with the summary of the flow's packets up to it. */
  lemma TeardownsReported(cfg: Config, run: seq<Turn>, e: FlowEvent)
    requires Legal(cfg, run)
    ensures e in Offered(run) && e.reason.TcpTeardown? <==>
            FromTeardown(cfg, e.state.key, KeyInputs(cfg, run, e.state.key), e)
  {
    var k, inputs := e.state.key, KeyInputs(cfg, run, e.state.key);
    RunIsFold(cfg, run, k);
    AloneTeardownEnds(cfg, k, inputs, e);
    EventsOfSubset(Offered(run), k);
    hide FromTeardown, Legal, After, EventsOf, AloneEvents;
    if e in Offered(run) {
      var i :| 0 <= i < |Offered(run)| && Offered(run)[i] == e;
      EventsOfMember(Offered(run), i);
    }
  }
}
