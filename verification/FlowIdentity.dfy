/** Which packets make up a flow: those that agree in the five fields, and no others. */
module FlowIdentity {
  import opened Numbers
  import opened Events
  import opened FlowTableSpec
  import opened FlowLifetimes

  /** The packet that opens a flow is announced by one Start, with its own five fields and its own
      time and length. */
  lemma StartNamesPacket(cfg: Config, t: Table, p: ParsedPacket, outs: seq<FlowEvent>)
    requires Emits(cfg, t, Packet(p), outs) && Next(cfg, t, Packet(p)).created == t.created + 1
    ensures |outs| == 1 && outs[0].eventType == Start && Names(outs[0].state.key, p)
    ensures outs[0].state.startUs == outs[0].state.lastSeenUs == outs[0].eventTimestampUs == p.timestampUs
    ensures outs[0].state.packetCount == 1 && outs[0].state.byteCount == p.wireLength
  {
    PacketOuts(cfg, t, p, outs);
  }

  /** A packet of other fields leaves a flow alone, and a packet of the flow's own fields ends it or
      is counted in it. */
  lemma PacketTouchesOwnFlow(cfg: Config, t: Table, p: ParsedPacket, k: FlowKey)
    ensures var next := Next(cfg, t, Packet(p));
      && (!Names(k, p) ==>
            && (k in next.flows <==> k in t.flows)
            && (k in t.flows ==> next.flows[k] == t.flows[k])
            && KeyEvents(cfg, t, Packet(p), k) == [])
      && (Names(k, p) && k in t.flows ==>
            if Teardown(p) then k !in next.flows
            else
              && k in next.flows && next.flows[k].lastSeenUs == p.timestampUs
              && next.flows[k].packetCount == Wrap64(t.flows[k].packetCount + 1)
              && next.flows[k].byteCount == Wrap64(t.flows[k].byteCount + p.wireLength)
              && next.flows[k].startUs == t.flows[k].startUs)
  {
  }

  // ---------------------------------------------------------------- whole runs

  /** Some packet among the first n turns carries the key's five fields. */
  predicate Seen(run: seq<Turn>, n: nat, k: FlowKey)
    requires n <= |run|
  {
    exists j | 0 <= j < n :: run[j].input.Packet? && Names(k, run[j].input.pkt)
  }

  lemma FlowsSeenStep(cfg: Config, run: seq<Turn>, k: FlowKey)
    requires run != [] && k in After(cfg, run).flows && k !in After(cfg, run[..|run| - 1]).flows
    ensures run[|run| - 1].input.Packet? && Names(k, run[|run| - 1].input.pkt)
  {
  }

  lemma {:induction false} FlowsSeen(cfg: Config, run: seq<Turn>, k: FlowKey)
    requires k in After(cfg, run).flows
    ensures Seen(run, |run|, k)
  {
    var earlier := run[..|run| - 1];
    if k in After(cfg, earlier).flows {
      FlowsSeen(cfg, earlier, k);
      var j :| 0 <= j < |earlier| && earlier[j].input.Packet? && Names(k, earlier[j].input.pkt);
      assert run[j] == earlier[j];
    } else {
      FlowsSeenStep(cfg, run, k);
    }
  }

  lemma TurnNames(cfg: Config, t: Table, input: Input, outs: seq<FlowEvent>, e: FlowEvent)
    requires Emits(cfg, t, input, outs) && e in outs
    ensures e.state.key in t.flows || (input.Packet? && Names(e.state.key, input.pkt))
  {
    var i :| 0 <= i < |outs| && outs[i] == e;
    EventsOfMember(outs, i);
    assert EventsOf(outs, e.state.key) == KeyEvents(cfg, t, input, e.state.key);
  }

  /** On every run, whatever is offered is about the five fields of a packet that has come in by
      then. */
  lemma EventsNamePackets(cfg: Config, run: seq<Turn>, i: nat, e: FlowEvent)
    requires Legal(cfg, run) && i < |run| && e in run[i].outs
    ensures Seen(run, i + 1, e.state.key)
  {
    LegalTurn(cfg, run, i);
    TurnNames(cfg, After(cfg, run[..i]), run[i].input, run[i].outs, e);
    if e.state.key in After(cfg, run[..i]).flows {
      FlowsSeen(cfg, run[..i], e.state.key);
      var j :| 0 <= j < i && run[..i][j].input.Packet? && Names(e.state.key, run[..i][j].input.pkt);
      assert run[j] == run[..i][j];
    }
  }

  /** Turn i is a packet that was taken into flow k. */
  predicate TakenInto(cfg: Config, run: seq<Turn>, i: nat, k: FlowKey)
    requires i < |run|
  {
    run[i].input.Packet? && KeyInputsOfTurn(cfg, After(cfg, run[..i]), run[i].input, k) != []
  }

  predicate SameFields(p: ParsedPacket, q: ParsedPacket) {
    && p.srcIp == q.srcIp && p.dstIp == q.dstIp
    && p.srcPort == q.srcPort && p.dstPort == q.dstPort && p.protocol == q.protocol
  }

  /** Two packets that were taken in, each into some flow, went into the same flow exactly when
      their five fields are equal. */
  lemma SameFlowIffSameFields(cfg: Config, run: seq<Turn>, i: nat, a: FlowKey, j: nat, b: FlowKey)
    requires i < |run| && j < |run| && TakenInto(cfg, run, i, a) && TakenInto(cfg, run, j, b)
    ensures a == b <==> SameFields(run[i].input.pkt, run[j].input.pkt)
  {
  }
}
