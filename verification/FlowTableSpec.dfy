/** The flow table as a transition system on values, and the runs it can make.

    A turn is one critical section of the table's mutex: a packet, a timer sweep or the final
    drain, with the events it offered to the sink. The table after a turn is a function of the
    table before it and the input; only the order of the offered events is left open, because
    the hash map is iterated in no particular order. */
module FlowTableSpec {
  import opened Numbers
  import opened Events

  datatype Config = Config(flowTimeoutSec: int, maxFlows: int, statsIntervalSec: int) {
    function IdleTimeoutUs(): int { flowTimeoutSec * 1_000_000 }
    function StatsIntervalUs(): int { statsIntervalSec * 1_000_000 }
  }

  datatype Input = Packet(pkt: ParsedPacket) | Sweep(now: i64) | Drain(now: i64)

  datatype Table = Table(
    flows: map<FlowKey, FlowState>,
    lastHeartbeatUs: i64,
    dropCount: nat,
    received: nat,
    created: nat,
    expiredIdle: nat,
    expiredTcp: nat)

  const EMPTY := Table(map[], 0, 0, 0, 0, 0, 0)

  function KeyFromPacket(p: ParsedPacket): FlowKey {
    FlowKey(p.srcIp, p.dstIp, p.srcPort, p.dstPort, p.protocol)
  }

  // ---------------------------------------------------------------- one turn

  predicate Teardown(p: ParsedPacket) {
    p.protocol == IPPROTO_TCP && (p.tcpFin || p.tcpRst)
  }

  function Opened(p: ParsedPacket): FlowState {
    FlowState(KeyFromPacket(p), p.timestampUs, p.timestampUs, 1, p.wireLength)
  }

  /** The last-seen time is overwritten, even by an older timestamp. */
  function Touched(s: FlowState, p: ParsedPacket): FlowState {
    s.(lastSeenUs := p.timestampUs,
       packetCount := Wrap64(s.packetCount + 1),
       byteCount := Wrap64(s.byteCount + p.wireLength))
  }

  predicate Idle(cfg: Config, s: FlowState, now: int) {
    now - s.lastSeenUs >= cfg.IdleTimeoutUs()
  }

  predicate HeartbeatDue(cfg: Config, lastHeartbeatUs: i64, now: i64) {
    now - lastHeartbeatUs >= cfg.StatsIntervalUs()
  }

  /** A packet of an unknown flow finds the table full. */
  predicate CapHit(cfg: Config, t: Table, p: ParsedPacket) {
    KeyFromPacket(p) !in t.flows && |t.flows| >= cfg.maxFlows
  }

  function IdleKeys(cfg: Config, flows: map<FlowKey, FlowState>, now: i64): set<FlowKey> {
    set k | k in flows && Idle(cfg, flows[k], now)
  }

  function Next(cfg: Config, t: Table, input: Input): Table {
    match input
    case Packet(p) =>
      var k := KeyFromPacket(p);
      var t1 := t.(received := t.received + 1);
      if CapHit(cfg, t, p) then t1.(dropCount := t.dropCount + 1)
      else if k !in t.flows then t1.(flows := t.flows[k := Opened(p)], created := t.created + 1)
      else if Teardown(p) then t1.(flows := t.flows - {k}, expiredTcp := t.expiredTcp + 1)
      else t1.(flows := t.flows[k := Touched(t.flows[k], p)])
    case Sweep(now) =>
      var idle := IdleKeys(cfg, t.flows, now);
      t.(flows := t.flows - idle,
         expiredIdle := t.expiredIdle + |idle|,
         lastHeartbeatUs := if HeartbeatDue(cfg, t.lastHeartbeatUs, now) then now else t.lastHeartbeatUs)
    case Drain(now) =>
      t.(flows := map[], expiredIdle := t.expiredIdle + |t.flows|)
  }

  /** The events a turn offers about one flow: at most one. */
  function KeyEvents(cfg: Config, t: Table, input: Input, k: FlowKey): seq<FlowEvent> {
    match input
    case Packet(p) =>
      if k != KeyFromPacket(p) || CapHit(cfg, t, p) then []
      else if k !in t.flows then [FlowEvent(Start, Opened(p), p.timestampUs, IdleTimeout)]
      else if Teardown(p) then [FlowEvent(End, Touched(t.flows[k], p), p.timestampUs, TcpTeardown)]
      else []
    case Sweep(now) =>
      if k !in t.flows then []
      else if Idle(cfg, t.flows[k], now) then [FlowEvent(End, t.flows[k], now, IdleTimeout)]
      else if HeartbeatDue(cfg, t.lastHeartbeatUs, now) then [FlowEvent(Stats, t.flows[k], now, IdleTimeout)]
      else []
    case Drain(now) =>
      if k in t.flows then [FlowEvent(End, t.flows[k], now, IdleTimeout)] else []
  }

  /** The events about one flow, in order. */
  function EventsOf(events: seq<FlowEvent>, k: FlowKey): seq<FlowEvent> {
    if events == [] then []
    else
      var last := events[|events| - 1];
      EventsOf(events[..|events| - 1], k) + (if last.state.key == k then [last] else [])
  }

  /** No flow's heartbeat follows another flow's end within one turn. */
  ghost predicate EndsLast(events: seq<FlowEvent>) {
    forall i, j | 0 <= i < j < |events| && events[i].eventType.End? :: events[j].eventType.End?
  }

  /** What a turn may offer: for every flow exactly its own events, in some order of flows. */
  ghost predicate Emits(cfg: Config, t: Table, input: Input, outs: seq<FlowEvent>) {
    && (forall k :: EventsOf(outs, k) == KeyEvents(cfg, t, input, k))
    && EndsLast(outs)
  }

  // ---------------------------------------------------------------- runs

  datatype Turn = Turn(input: Input, outs: seq<FlowEvent>)

  function After(cfg: Config, run: seq<Turn>): Table {
    if run == [] then EMPTY
    else Next(cfg, After(cfg, run[..|run| - 1]), run[|run| - 1].input)
  }

  ghost predicate Legal(cfg: Config, run: seq<Turn>) {
    run != [] ==>
      && Legal(cfg, run[..|run| - 1])
      && Emits(cfg, After(cfg, run[..|run| - 1]), run[|run| - 1].input, run[|run| - 1].outs)
  }

  function Offered(run: seq<Turn>): seq<FlowEvent> {
    if run == [] then [] else Offered(run[..|run| - 1]) + run[|run| - 1].outs
  }

  lemma AppendTurn(cfg: Config, run: seq<Turn>, turn: Turn)
    ensures After(cfg, run + [turn]) == Next(cfg, After(cfg, run), turn.input)
    ensures Offered(run + [turn]) == Offered(run) + turn.outs
    ensures Legal(cfg, run + [turn]) <==> Legal(cfg, run) && Emits(cfg, After(cfg, run), turn.input, turn.outs)
  {
    assert (run + [turn])[..|run|] == run;
  }

  lemma {:induction false} EventsOfConcat(a: seq<FlowEvent>, b: seq<FlowEvent>, k: FlowKey)
    ensures EventsOf(a + b, k) == EventsOf(a, k) + EventsOf(b, k)
  {
    if b == [] {
      assert a + b == a;
    } else {
      assert (a + b)[..|a + b| - 1] == a + b[..|b| - 1];
      EventsOfConcat(a, b[..|b| - 1], k);
    }
  }

  lemma {:induction false} EventsOfMember(events: seq<FlowEvent>, i: nat)
    requires i < |events|
    ensures events[i] in EventsOf(events, events[i].state.key)
  {
    if i < |events| - 1 {
      EventsOfMember(events[..|events| - 1], i);
    }
  }

  lemma {:induction false} AllOwn(events: seq<FlowEvent>, k: FlowKey)
    requires forall e | e in events :: e.state.key == k
    ensures EventsOf(events, k) == events
  {
    if events != [] {
      AllOwn(events[..|events| - 1], k);
    }
  }

  lemma {:induction false} EventsOfSubset(events: seq<FlowEvent>, k: FlowKey)
    ensures forall e | e in EventsOf(events, k) :: e in events && e.state.key == k
  {
    if events != [] {
      EventsOfSubset(events[..|events| - 1], k);
    }
  }

  /** A packet's events are all about its own flow. */
  lemma PacketOuts(cfg: Config, t: Table, p: ParsedPacket, outs: seq<FlowEvent>)
    requires Emits(cfg, t, Packet(p), outs)
    ensures outs == KeyEvents(cfg, t, Packet(p), KeyFromPacket(p))
  {
    hide EventsOf;
    forall i | 0 <= i < |outs|
      ensures outs[i].state.key == KeyFromPacket(p)
    {
      EventsOfMember(outs, i);
      assert EventsOf(outs, outs[i].state.key) == KeyEvents(cfg, t, Packet(p), outs[i].state.key);
    }
    AllOwn(outs, KeyFromPacket(p));
  }

  lemma {:induction false} LegalTurn(cfg: Config, run: seq<Turn>, i: nat)
    requires Legal(cfg, run) && i < |run|
    ensures Legal(cfg, run[..i]) && Emits(cfg, After(cfg, run[..i]), run[i].input, run[i].outs)
  {
    if i < |run| - 1 {
      LegalTurn(cfg, run[..|run| - 1], i);
      assert run[..|run| - 1][..i] == run[..i];
    }
  }

  /** The key is made of the packet's own five fields. */
  predicate Names(k: FlowKey, p: ParsedPacket) {
    && k.srcIp == p.srcIp && k.dstIp == p.dstIp
    && k.srcPort == p.srcPort && k.dstPort == p.dstPort && k.protocol == p.protocol
  }

  /** What a packet makes the table offer is about the flow of that packet's fields. */
  lemma PacketEventsNamed(cfg: Config, t: Table, p: ParsedPacket, outs: seq<FlowEvent>)
    requires Emits(cfg, t, Packet(p), outs)
    ensures forall e | e in outs :: Names(e.state.key, p)
  {
    forall e | e in outs
      ensures Names(e.state.key, p)
    {
      var i :| 0 <= i < |outs| && outs[i] == e;
      EventsOfMember(outs, i);
      assert EventsOf(outs, e.state.key) == KeyEvents(cfg, t, Packet(p), e.state.key);
    }
  }

  /** Every table reached files each flow under its own key and respects the cap. */
  ghost predicate WellKept(cfg: Config, t: Table) {
    && (forall k | k in t.flows :: t.flows[k].key == k)
    && |t.flows| <= Max(cfg.maxFlows, 0)
    && t.created == |t.flows| + t.expiredIdle + t.expiredTcp
  }

  lemma MapRemovalSize(flows: map<FlowKey, FlowState>, gone: set<FlowKey>)
    requires gone <= flows.Keys
    ensures |flows - gone| == |flows| - |gone|
  {
    assert (flows - gone).Keys == flows.Keys - gone;
    assert |flows.Keys - gone| == |flows.Keys| - |gone|;
  }

  lemma MapUpdateSize(flows: map<FlowKey, FlowState>, k: FlowKey, v: FlowState)
    ensures |flows[k := v]| == |flows| + (if k in flows then 0 else 1)
  {
    assert flows[k := v].Keys == flows.Keys + {k};
  }

  lemma PacketWellKept(cfg: Config, t: Table, p: ParsedPacket)
    requires WellKept(cfg, t)
    ensures WellKept(cfg, Next(cfg, t, Packet(p)))
  {
    var k := KeyFromPacket(p);
    if k !in t.flows {
      MapUpdateSize(t.flows, k, Opened(p));
    } else if Teardown(p) {
      MapRemovalSize(t.flows, {k});
    } else {
      MapUpdateSize(t.flows, k, Touched(t.flows[k], p));
    }
  }

  lemma NextWellKept(cfg: Config, t: Table, input: Input)
    requires WellKept(cfg, t)
    ensures WellKept(cfg, Next(cfg, t, input))
  {
    match input
    case Packet(p) => PacketWellKept(cfg, t, p);
    case Sweep(now) => MapRemovalSize(t.flows, IdleKeys(cfg, t.flows, now));
    case Drain(now) =>
  }

  lemma {:induction false} AlwaysWellKept(cfg: Config, run: seq<Turn>)
    ensures WellKept(cfg, After(cfg, run))
  {
    if run != [] {
      AlwaysWellKept(cfg, run[..|run| - 1]);
      NextWellKept(cfg, After(cfg, run[..|run| - 1]), run[|run| - 1].input);
    }
  }
}
