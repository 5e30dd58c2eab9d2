/** The flow table as the program runs it. Every public method is one turn of FlowTableSpec:
    it takes the table to Next and offers events that Emits allows, so whatever holds of every
    legal run of the specification holds of every object of this class. */
module FlowTable {
  import opened Numbers
  import opened Events
  import opened FlowTableSpec
  import opened Sequences

  function Refusals(answers: seq<bool>): nat {
    if answers == [] then 0
    else Refusals(answers[..|answers| - 1]) + (if answers[|answers| - 1] then 0 else 1)
  }

  class FlowTable {
    const cfg: Config
    const idleTimeoutUs: int
    const statsIntervalUs: int

    var flows: map<FlowKey, FlowState>
    var lastHeartbeatUs: i64
    var dropCount: nat

    // metrics
    var packetsReceived: nat
    var packetsDropped: nat
    var flowsActive: int
    var flowsCreated: nat
    var flowsExpiredIdle: nat
    var flowsExpiredTcp: nat

    ghost var run: seq<Turn>            // the turns taken so far
    ghost var offered: seq<FlowEvent>   // every event the callback was handed
    ghost var answers: seq<bool>        // what it returned for each

    ghost function Model(): Table
      reads this
    {
      Table(flows, lastHeartbeatUs, dropCount, packetsReceived, flowsCreated, flowsExpiredIdle, flowsExpiredTcp)
    }

    /** Holds whenever the mutex is free. */
    ghost predicate Valid()
      reads this
    {
      && idleTimeoutUs == cfg.IdleTimeoutUs() && statsIntervalUs == cfg.StatsIntervalUs()
      && Legal(cfg, run) && After(cfg, run) == Model() && Offered(run) == offered
      && Books()
    }

    constructor (cfg: Config)
      ensures Valid() && this.cfg == cfg
      ensures run == [] && offered == [] && flows == map[]
    {
      this.cfg := cfg;
      idleTimeoutUs, statsIntervalUs := cfg.IdleTimeoutUs(), cfg.StatsIntervalUs();
      flows, lastHeartbeatUs, dropCount := map[], 0, 0;
      packetsReceived, packetsDropped, flowsActive := 0, 0, 0;
      flowsCreated, flowsExpiredIdle, flowsExpiredTcp := 0, 0, 0;
      run, offered, answers := [], [], [];
    }

    /** The callback: false when the sink's queue is full. Nothing else is known about it; what it
        is handed and what it answers is recorded here and nowhere else. */
    method OnEvent(evt: FlowEvent) returns (ok: bool)
      modifies `offered, `answers
      ensures offered == old(offered) + [evt] && answers == old(answers) + [ok]
    {
      ok := *;
      offered, answers := offered + [evt], answers + [ok];
    }

    method Emit(evt: FlowEvent)
      requires |answers| == |offered|
      modifies `offered, `answers, `packetsDropped
      ensures offered == old(offered) + [evt] && |answers| == |offered|
      ensures packetsDropped - Refusals(answers) == old(packetsDropped - Refusals(answers))
    {
      var ok := OnEvent(evt);
      if !ok {
        packetsDropped := packetsDropped + 1;
      }
      assert answers[..|answers| - 1] == old(answers);
    }

    method ExpireFlow(key: FlowKey, now: i64, reason: ExpireReason)
      requires key in flows && |answers| == |offered|
      modifies `flows, `offered, `answers, `packetsDropped, `flowsActive, `flowsExpiredIdle, `flowsExpiredTcp
      ensures flows == old(flows) - {key} && flowsActive == old(flowsActive) - 1
      ensures offered == old(offered) + [FlowEvent(End, old(flows)[key], now, reason)] && |answers| == |offered|
      ensures packetsDropped - Refusals(answers) == old(packetsDropped - Refusals(answers))
      ensures flowsExpiredIdle == old(flowsExpiredIdle) + (if reason.IdleTimeout? then 1 else 0)
      ensures flowsExpiredTcp == old(flowsExpiredTcp) + (if reason.TcpTeardown? then 1 else 0)
    {
      Emit(FlowEvent(End, flows[key], now, reason));
      flows := flows - {key};
      flowsActive := flowsActive - 1;
      match reason
      case IdleTimeout => flowsExpiredIdle := flowsExpiredIdle + 1;
      case TcpTeardown => flowsExpiredTcp := flowsExpiredTcp + 1;
    }

    /** The counters agree with the table and with the callback's answers. */
    ghost predicate Books()
      reads this
    {
      && |answers| == |offered|
      && packetsDropped == dropCount + Refusals(answers)
      && flowsActive == |flows|
    }

    /** Closes a turn: what was offered since the last one is recorded with the input. */
    ghost method EndTurn(input: Input, outs: seq<FlowEvent>)
      requires Legal(cfg, run) && Emits(cfg, After(cfg, run), input, outs)
      requires offered == Offered(run) + outs && Model() == Next(cfg, After(cfg, run), input)
      modifies `run
      ensures run == old(run) + [Turn(input, outs)]
      ensures Legal(cfg, run) && After(cfg, run) == Model() && Offered(run) == offered
    {
      AppendTurn(cfg, run, Turn(input, outs));
      run := run + [Turn(input, outs)];
    }

    /** One packet. */
    method Process(pkt: ParsedPacket)
      requires Valid()
      modifies this
      ensures Valid()
      ensures old(offered) <= offered
      ensures run == old(run) + [Turn(Packet(pkt), offered[|old(offered)|..])]
      ensures forall e | e in offered[|old(offered)|..] :: Names(e.state.key, pkt)
    {
      AlwaysWellKept(cfg, run);
      ghost var outs := ProcessLocked(pkt);
      PacketEventsNamed(cfg, After(cfg, run), pkt, outs);
      EndTurn(Packet(pkt), outs);
    }

    /** Heartbeats for the live flows when due, and ends for the idle ones. */
    method TimerSweep(now: i64)
      requires Valid()
      modifies this
      ensures Valid()
      ensures old(offered) <= offered
      ensures run == old(run) + [Turn(Sweep(now), offered[|old(offered)|..])]
      ensures forall k ::
        k in flows <==> k in old(flows) && now - old(flows)[k].lastSeenUs < cfg.flowTimeoutSec * 1_000_000
      ensures lastHeartbeatUs ==
              if now - old(lastHeartbeatUs) >= cfg.statsIntervalSec * 1_000_000 then now else old(lastHeartbeatUs)
    {
      AlwaysWellKept(cfg, run);
      ghost var outs := TimerSweepLocked(now);
      EndTurn(Sweep(now), outs);
    }

    /** An end for every remaining flow. */
    method DrainAll(now: i64)
      requires Valid()
      modifies this
      ensures Valid() && flows == map[]
      ensures old(offered) <= offered
      ensures run == old(run) + [Turn(Drain(now), offered[|old(offered)|..])]
    {
      AlwaysWellKept(cfg, run);
      ghost var outs := DrainAllLocked(now);
      EndTurn(Drain(now), outs);
    }

    // -------------------------------------------------------------- with the mutex held

    method ProcessLocked(pkt: ParsedPacket) returns (ghost outs: seq<FlowEvent>)
      requires WellKept(cfg, Model()) && Books()
      modifies `flows, `dropCount, `packetsReceived, `packetsDropped, `flowsActive, `flowsCreated, `flowsExpiredIdle,
               `flowsExpiredTcp, `offered, `answers
      ensures Books() && Model() == Next(cfg, old(Model()), Packet(pkt))
      ensures offered == old(offered) + outs && Emits(cfg, old(Model()), Packet(pkt), outs)
    {
      hide Emits, EventsOf, Refusals, Next, KeyEvents, WellKept, Touched;
      ghost var before := Model();
      outs := KeyEvents(cfg, before, Packet(pkt), KeyFromPacket(pkt));
      PacketCases(cfg, before, pkt);
      PacketEmits(cfg, before, pkt);
      packetsReceived := packetsReceived + 1;
      var key := KeyFromPacket(pkt);
      if key !in flows {
        if |flows| >= cfg.maxFlows {
          packetsDropped := packetsDropped + 1;
          dropCount := dropCount + 1;
          return;
        }
        OpenFlow(key, pkt);
      } else {
        UpdateFlow(key, pkt);
      }
    }

    /** A packet of an unknown flow, for which there is room. */
    method OpenFlow(key: FlowKey, pkt: ParsedPacket)
      requires key !in flows && Books()
      modifies `flows, `packetsDropped, `flowsActive, `flowsCreated, `offered, `answers
      ensures Books() && flowsCreated == old(flowsCreated) + 1
      ensures var state := FlowState(key, pkt.timestampUs, pkt.timestampUs, 1, pkt.wireLength);
        && flows == old(flows)[key := state]
        && offered == old(offered) + [FlowEvent(Start, state, pkt.timestampUs, IdleTimeout)]
    {
      hide Refusals;
      var state := FlowState(key, pkt.timestampUs, pkt.timestampUs, 1, pkt.wireLength);
      MapUpdateSize(flows, key, state);
      flows := flows[key := state];
      Emit(FlowEvent(Start, state, pkt.timestampUs, IdleTimeout));
      flowsActive := flowsActive + 1;
      flowsCreated := flowsCreated + 1;
    }

    /** A packet of a known flow, which a FIN or RST of a TCP flow ends at once. */
    method UpdateFlow(key: FlowKey, pkt: ParsedPacket)
      requires key in flows && Books()
      modifies `flows, `packetsDropped, `flowsActive, `flowsExpiredIdle, `flowsExpiredTcp, `offered, `answers
      ensures Books() && flowsExpiredIdle == old(flowsExpiredIdle)
      ensures var state := Touched(old(flows)[key], pkt);
        if pkt.protocol == IPPROTO_TCP && (pkt.tcpFin || pkt.tcpRst) then
          && flows == old(flows) - {key} && flowsExpiredTcp == old(flowsExpiredTcp) + 1
          && offered == old(offered) + [FlowEvent(End, state, pkt.timestampUs, TcpTeardown)]
        else
          && flows == old(flows)[key := state] && flowsExpiredTcp == old(flowsExpiredTcp)
          && offered == old(offered)
    {
      hide Refusals;
      var state := flows[key];
      state := state.(lastSeenUs := pkt.timestampUs);
      state := state.(packetCount := Wrap64(state.packetCount + 1));
      state := state.(byteCount := Wrap64(state.byteCount + pkt.wireLength));
      MapUpdateSize(flows, key, state);
      UpdateThenRemove(flows, key, state);
      flows := flows[key := state];
      if pkt.protocol == IPPROTO_TCP && (pkt.tcpFin || pkt.tcpRst) {
        MapRemovalSize(flows, {key});
        ExpireFlow(key, pkt.timestampUs, TcpTeardown);
      }
    }

    method TimerSweepLocked(now: i64) returns (ghost outs: seq<FlowEvent>)
      requires WellKept(cfg, Model()) && Books()
      requires idleTimeoutUs == cfg.IdleTimeoutUs() && statsIntervalUs == cfg.StatsIntervalUs()
      modifies `flows, `lastHeartbeatUs, `packetsDropped, `flowsActive, `flowsExpiredIdle, `flowsExpiredTcp, `offered,
               `answers
      ensures Books() && Model() == Next(cfg, old(Model()), Sweep(now))
      ensures offered == old(offered) + outs && Emits(cfg, old(Model()), Sweep(now), outs)
    {
      hide Emits, StatsSent, EndsSent, Listed, EventsOf, Refusals, WellKept, Next, IdleKeys;
      ghost var before := Model();
      var emitStats := now - lastHeartbeatUs >= statsIntervalUs;
      var toExpire;
      ghost var stats;
      toExpire, stats := SweepLive(now, emitStats);
      ghost var ends := SweepIdle(now, toExpire, before, stats);
      outs := stats + ends;
      if emitStats {
        lastHeartbeatUs := now;
      }
      SweepEmits(cfg, before, now, toExpire, flows, stats, stats + ends);
      SweepLeaves(cfg, before, now, flows, stats, stats + ends);
      ConcatAssoc(old(offered), stats, ends);
    }

    /** First loop of the sweep: heartbeats for the live flows, and the list of the idle ones. */
    method SweepLive(now: i64, emitStats: bool) returns (toExpire: seq<FlowKey>, ghost outs: seq<FlowEvent>)
      requires WellKept(cfg, Model()) && Books()
      requires idleTimeoutUs == cfg.IdleTimeoutUs() && emitStats == HeartbeatDue(cfg, lastHeartbeatUs, now)
      modifies `packetsDropped, `offered, `answers
      ensures Books() && offered == old(offered) + outs
      ensures StatsSent(cfg, Model(), now, {}, toExpire, outs)
    {
      hide StatsSent, EventsOf, Refusals;
      toExpire, outs := [], [];
      NoneVisited(cfg, Model(), now);
      var unvisited := flows.Keys;
      while unvisited != {}
        invariant unvisited <= flows.Keys
        invariant StatsSent(cfg, Model(), now, unvisited, toExpire, outs)
        invariant Books() && offered == old(offered) + outs
      {
        var key :| key in unvisited;
        var state := flows[key];
        if now - state.lastSeenUs >= idleTimeoutUs {
          ListOne(cfg, Model(), now, unvisited, toExpire, outs, key);
          toExpire := toExpire + [key];
        } else if emitStats {
          BeatOne(cfg, Model(), now, unvisited, toExpire, outs, key);
          var evt := FlowEvent(Stats, state, now, IdleTimeout);
          ConcatAssoc(old(offered), outs, [evt]);
          Emit(evt);
          outs := outs + [evt];
        } else {
          PassOne(cfg, Model(), now, unvisited, toExpire, outs, key);
        }
        unvisited := unvisited - {key};
      }
    }

    /** Second loop of the sweep: every listed flow is looked up again and ended. */
    method SweepIdle(now: i64, toExpire: seq<FlowKey>, ghost before: Table, ghost stats: seq<FlowEvent>)
      returns (ghost ends: seq<FlowEvent>)
      requires WellKept(cfg, before) && Books() && Model() == before
      requires StatsSent(cfg, before, now, {}, toExpire, stats)
      modifies `flows, `packetsDropped, `flowsActive, `flowsExpiredIdle, `flowsExpiredTcp, `offered, `answers
      ensures Books() && offered == old(offered) + ends && EndsSent(before, now, flows, stats, stats + ends)
      ensures Listed(cfg, before, now, [], flows) && flowsExpiredTcp == before.expiredTcp
      ensures flowsExpiredIdle == before.expiredIdle + |before.flows| - |flows|
    {
      hide StatsSent, EndsSent, Listed, EventsOf, Refusals, WellKept, OwnKeys;
      WellKeptOwnKeys(cfg, before);
      ends := [];
      assert stats + [] == stats;
      NoneEnded(before, now, stats);
      AllListed(cfg, before, now, toExpire, stats);
      var i := 0;
      while i < |toExpire|
        invariant 0 <= i <= |toExpire|
        invariant flowsExpiredTcp == before.expiredTcp
        invariant flowsExpiredIdle == before.expiredIdle + |before.flows| - |flows|
        invariant Listed(cfg, before, now, toExpire[i..], flows)
        invariant EndsSent(before, now, flows, stats, stats + ends)
        invariant Books() && offered == old(offered) + ends
      {
        var key := toExpire[i];
        NextListed(cfg, before, now, toExpire[i..], flows);
        assert key in flows; // the second lookup never misses
        EndOne(before, now, flows, key, stats, stats + ends);
        if key in flows {
          ghost var evt := FlowEvent(End, flows[key], now, IdleTimeout);
          ConcatAssoc(old(offered), ends, [evt]);
          ConcatAssoc(stats, ends, [evt]);
          ends := ends + [evt];
          ExpireFlow(key, now, IdleTimeout);
        }
        i := i + 1;
      }
      assert toExpire[i..] == [];
    }

    method DrainAllLocked(now: i64) returns (ghost outs: seq<FlowEvent>)
      requires WellKept(cfg, Model()) && Books()
      modifies `flows, `packetsDropped, `flowsActive, `flowsExpiredIdle, `offered, `answers
      ensures Books() && Model() == Next(cfg, old(Model()), Drain(now))
      ensures offered == old(offered) + outs && Emits(cfg, old(Model()), Drain(now), outs)
    {
      hide Emits, EndsSent, EventsOf, Refusals, WellKept, OwnKeys, Next;
      ghost var before := Model();
      WellKeptOwnKeys(cfg, before);
      outs := [];
      NoneEnded(before, now, []);
      while flows != map[]
        invariant flowsExpiredIdle == before.expiredIdle + |before.flows| - |flows|
        invariant EndsSent(before, now, flows, [], outs)
        invariant Books() && offered == old(offered) + outs
        decreases |flows|
      {
        var key :| key in flows;
        EndOne(before, now, flows, key, [], outs);
        var evt := FlowEvent(End, flows[key], now, IdleTimeout);
        ConcatAssoc(old(offered), outs, [evt]);
        outs := outs + [evt];
        Emit(evt);
        flowsActive := flowsActive - 1;
        flowsExpiredIdle := flowsExpiredIdle + 1;
        flows := flows - {key};
      }
      DrainEmits(cfg, before, now, outs);
      DrainLeaves(cfg, before, now);
    }
  }

  lemma UpdateThenRemove(flows: map<FlowKey, FlowState>, k: FlowKey, v: FlowState)
    ensures flows[k := v] - {k} == flows - {k}
  {
  }

  // ---------------------------------------------------------------- what a turn has sent so far

  lemma EventsOfSnoc(events: seq<FlowEvent>, evt: FlowEvent, k: FlowKey)
    ensures EventsOf(events + [evt], k) == EventsOf(events, k) + (if evt.state.key == k then [evt] else [])
  {
    assert (events + [evt])[..|events|] == events;
  }

  /** The four ways a packet can go. */
  lemma PacketCases(cfg: Config, t: Table, p: ParsedPacket)
    ensures var k := KeyFromPacket(p);
      var next, outs := Next(cfg, t, Packet(p)), KeyEvents(cfg, t, Packet(p), k);
      var t1 := t.(received := t.received + 1);
      if k !in t.flows && |t.flows| >= cfg.maxFlows then
        next == t1.(dropCount := t.dropCount + 1) && outs == []
      else if k !in t.flows then
        var s := FlowState(k, p.timestampUs, p.timestampUs, 1, p.wireLength);
        && next == t1.(flows := t.flows[k := s], created := t.created + 1)
        && outs == [FlowEvent(Start, s, p.timestampUs, IdleTimeout)]
      else
        var s := Touched(t.flows[k], p);
        if p.protocol == IPPROTO_TCP && (p.tcpFin || p.tcpRst) then
          && next == t1.(flows := t.flows - {k}, expiredTcp := t.expiredTcp + 1)
          && outs == [FlowEvent(End, s, p.timestampUs, TcpTeardown)]
        else next == t1.(flows := t.flows[k := s]) && outs == []
  {
  }

  lemma PacketEmits(cfg: Config, t: Table, p: ParsedPacket)
    requires WellKept(cfg, t)
    ensures Emits(cfg, t, Packet(p), KeyEvents(cfg, t, Packet(p), KeyFromPacket(p)))
  {
    var outs := KeyEvents(cfg, t, Packet(p), KeyFromPacket(p));
    forall k
      ensures EventsOf(outs, k) == KeyEvents(cfg, t, Packet(p), k)
    {
      if outs != [] {
        assert outs[..0] == [];
      }
    }
  }

  /** The first phase has heartbeat the live flows it visited and listed the idle ones. */
  ghost predicate StatsSent(cfg: Config, t: Table, now: i64, unvisited: set<FlowKey>, toExpire: seq<FlowKey>,
                            outs: seq<FlowEvent>) {
    && (forall i, j | 0 <= i < j < |toExpire| :: toExpire[i] != toExpire[j])
    && (forall k :: k in toExpire <==> k in t.flows && k !in unvisited && Idle(cfg, t.flows[k], now))
    && (forall e | e in outs :: e.eventType.Stats?)
    && (forall k :: EventsOf(outs, k) == HeartbeatOf(cfg, t, now, unvisited, k))
  }

  function HeartbeatOf(cfg: Config, t: Table, now: i64, unvisited: set<FlowKey>, k: FlowKey): seq<FlowEvent> {
    if k in t.flows && k !in unvisited && !Idle(cfg, t.flows[k], now) && HeartbeatDue(cfg, t.lastHeartbeatUs, now)
    then [FlowEvent(Stats, t.flows[k], now, IdleTimeout)] else []
  }

  lemma NoneVisited(cfg: Config, t: Table, now: i64)
    ensures StatsSent(cfg, t, now, t.flows.Keys, [], [])
  {
  }

  lemma ListOne(cfg: Config, t: Table, now: i64, unvisited: set<FlowKey>, toExpire: seq<FlowKey>,
                outs: seq<FlowEvent>, key: FlowKey)
    requires StatsSent(cfg, t, now, unvisited, toExpire, outs)
    requires key in t.flows && key in unvisited && Idle(cfg, t.flows[key], now)
    ensures StatsSent(cfg, t, now, unvisited - {key}, toExpire + [key], outs)
  {
    hide EventsOf;
  }

  lemma PassOne(cfg: Config, t: Table, now: i64, unvisited: set<FlowKey>, toExpire: seq<FlowKey>,
                outs: seq<FlowEvent>, key: FlowKey)
    requires StatsSent(cfg, t, now, unvisited, toExpire, outs)
    requires key in t.flows && key in unvisited && !Idle(cfg, t.flows[key], now)
    requires !HeartbeatDue(cfg, t.lastHeartbeatUs, now)
    ensures StatsSent(cfg, t, now, unvisited - {key}, toExpire, outs)
  {
    hide EventsOf;
  }

  lemma BeatOne(cfg: Config, t: Table, now: i64, unvisited: set<FlowKey>, toExpire: seq<FlowKey>,
                outs: seq<FlowEvent>, key: FlowKey)
    requires WellKept(cfg, t) && StatsSent(cfg, t, now, unvisited, toExpire, outs)
    requires key in t.flows && key in unvisited && !Idle(cfg, t.flows[key], now)
    requires HeartbeatDue(cfg, t.lastHeartbeatUs, now)
    ensures StatsSent(cfg, t, now, unvisited - {key}, toExpire,
                      outs + [FlowEvent(Stats, t.flows[key], now, IdleTimeout)])
  {
    hide EventsOf;
    var evt := FlowEvent(Stats, t.flows[key], now, IdleTimeout);
    forall k
      ensures EventsOf(outs + [evt], k) == HeartbeatOf(cfg, t, now, unvisited - {key}, k)
    {
      EventsOfSnoc(outs, evt, k);
      assert EventsOf(outs, k) == HeartbeatOf(cfg, t, now, unvisited, k);
    }
  }

  ghost predicate OwnKeys(t: Table) {
    forall k | k in t.flows :: t.flows[k].key == k
  }

  lemma WellKeptOwnKeys(cfg: Config, t: Table)
    requires WellKept(cfg, t)
    ensures OwnKeys(t)
  {
  }

  /** The flows no longer in the table have each been ended once, after the heartbeats. */
  ghost predicate EndsSent(t: Table, now: i64, left: map<FlowKey, FlowState>, stats: seq<FlowEvent>,
                           outs: seq<FlowEvent>) {
    && (forall k | k in left :: k in t.flows && left[k] == t.flows[k])
    && stats <= outs
    && (forall e | e in outs[|stats|..] :: e.eventType.End?)
    && (forall k :: EventsOf(outs, k) == EventsOf(stats, k) + EndOf(t, now, left, k))
  }

  function EndOf(t: Table, now: i64, left: map<FlowKey, FlowState>, k: FlowKey): seq<FlowEvent> {
    if k in t.flows && k !in left then [FlowEvent(End, t.flows[k], now, IdleTimeout)] else []
  }

  lemma NoneEnded(t: Table, now: i64, stats: seq<FlowEvent>)
    ensures EndsSent(t, now, t.flows, stats, stats)
  {
  }

  lemma EndOne(t: Table, now: i64, left: map<FlowKey, FlowState>, key: FlowKey, stats: seq<FlowEvent>,
               outs: seq<FlowEvent>)
    requires key in left && OwnKeys(t) && EndsSent(t, now, left, stats, outs)
    ensures EndsSent(t, now, left - {key}, stats, outs + [FlowEvent(End, left[key], now, IdleTimeout)])
    ensures |left - {key}| == |left| - 1
  {
    hide EventsOf;
    var evt := FlowEvent(End, left[key], now, IdleTimeout);
    MapRemovalSize(left, {key});
    assert (outs + [evt])[|stats|..] == outs[|stats|..] + [evt];
    forall k
      ensures EventsOf(outs + [evt], k) == EventsOf(stats, k) + EndOf(t, now, left - {key}, k)
    {
      EventsOfSnoc(outs, evt, k);
      assert EventsOf(outs, k) == EventsOf(stats, k) + EndOf(t, now, left, k);
    }
  }

  /** The listed flows are the idle ones still in the table; the live ones are all still there. */
  ghost predicate Listed(cfg: Config, t: Table, now: i64, listed: seq<FlowKey>, left: map<FlowKey, FlowState>) {
    && (forall i, j | 0 <= i < j < |listed| :: listed[i] != listed[j])
    && (forall k :: k in left <==> k in t.flows && (Idle(cfg, t.flows[k], now) ==> k in listed))
    && (forall k | k in listed :: k in left && Idle(cfg, t.flows[k], now))
  }

  lemma AllListed(cfg: Config, t: Table, now: i64, toExpire: seq<FlowKey>, stats: seq<FlowEvent>)
    requires StatsSent(cfg, t, now, {}, toExpire, stats)
    ensures Listed(cfg, t, now, toExpire[0..], t.flows)
  {
    assert toExpire[0..] == toExpire;
  }

  lemma NextListed(cfg: Config, t: Table, now: i64, listed: seq<FlowKey>, left: map<FlowKey, FlowState>)
    requires listed != [] && Listed(cfg, t, now, listed, left)
    ensures listed[0] in left && Listed(cfg, t, now, listed[1..], left - {listed[0]})
  {
  }

  lemma HeartbeatsBeforeEnds(stats: seq<FlowEvent>, outs: seq<FlowEvent>)
    requires stats <= outs && (forall e | e in stats :: e.eventType.Stats?)
    requires forall e | e in outs[|stats|..] :: e.eventType.End?
    ensures EndsLast(outs)
  {
    forall i | 0 <= i < |stats|
      ensures outs[i].eventType.Stats?
    {
      assert outs[i] == stats[i];
    }
    forall j | |stats| <= j < |outs|
      ensures outs[j].eventType.End?
    {
      assert outs[j] == outs[|stats|..][j - |stats|];
    }
  }

  lemma SweepEmits(cfg: Config, t: Table, now: i64, toExpire: seq<FlowKey>, left: map<FlowKey, FlowState>,
                   stats: seq<FlowEvent>, outs: seq<FlowEvent>)
    requires StatsSent(cfg, t, now, {}, toExpire, stats) && EndsSent(t, now, left, stats, outs)
    requires Listed(cfg, t, now, [], left)
    ensures Emits(cfg, t, Sweep(now), outs)
  {
    hide EndsLast, EventsOf;
    HeartbeatsBeforeEnds(stats, outs);
  }

  /** What a sweep makes of the table, given what its second loop leaves. */
  lemma SweepLeaves(cfg: Config, t: Table, now: i64, left: map<FlowKey, FlowState>, stats: seq<FlowEvent>,
                    outs: seq<FlowEvent>)
    requires EndsSent(t, now, left, stats, outs) && Listed(cfg, t, now, [], left)
    ensures |left| <= |t.flows|
    ensures Next(cfg, t, Sweep(now)) ==
      t.(flows := left,
         expiredIdle := t.expiredIdle + |t.flows| - |left|,
         lastHeartbeatUs := if HeartbeatDue(cfg, t.lastHeartbeatUs, now) then now else t.lastHeartbeatUs)
  {
    hide EventsOf;
    assert left == t.flows - IdleKeys(cfg, t.flows, now);
    MapRemovalSize(t.flows, IdleKeys(cfg, t.flows, now));
  }

  lemma DrainLeaves(cfg: Config, t: Table, now: i64)
    ensures Next(cfg, t, Drain(now)) == t.(flows := map[], expiredIdle := t.expiredIdle + |t.flows|)
  {
  }

  lemma DrainEmits(cfg: Config, t: Table, now: i64, outs: seq<FlowEvent>)
    requires EndsSent(t, now, map[], [], outs)
    ensures Emits(cfg, t, Drain(now), outs)
  {
    assert outs[0..] == outs;
  }
}
