/** What the flow table does to one flow, told without the table.

    The reference keeps the list of packets a flow has had since it was opened, and makes every
    event from that list. A run of the table, seen through one key, is exactly this fold over
    that key's packets and the clock inputs. */
module FlowLifetimes {
  import opened Numbers
  import opened Events
  import opened FlowTableSpec

  // ---------------------------------------------------------------- the reference

  datatype KeyInput = KPacket(pkt: ParsedPacket) | KSweep(now: i64) | KDrain(now: i64)

  /** life: the packets since the flow was opened, none when it is not open. */
  datatype KeyState = KeyState(life: seq<ParsedPacket>, lastHeartbeatUs: i64)

  function ByteSum(packets: seq<ParsedPacket>): nat {
    if packets == [] then 0 else ByteSum(packets[..|packets| - 1]) + packets[|packets| - 1].wireLength
  }

  function Summary(k: FlowKey, life: seq<ParsedPacket>): FlowState
    requires life != []
  {
    FlowState(k, life[0].timestampUs, life[|life| - 1].timestampUs, Wrap64(|life|), Wrap64(ByteSum(life)))
  }

  predicate Expired(cfg: Config, life: seq<ParsedPacket>, now: int)
    requires life != []
  {
    now - life[|life| - 1].timestampUs >= cfg.IdleTimeoutUs()
  }

  function KeyNext(cfg: Config, s: KeyState, input: KeyInput): KeyState {
    match input
    case KPacket(p) =>
      if s.life != [] && Teardown(p) then s.(life := []) else s.(life := s.life + [p])
    case KSweep(now) =>
      KeyState(if s.life != [] && Expired(cfg, s.life, now) then [] else s.life,
               if HeartbeatDue(cfg, s.lastHeartbeatUs, now) then now else s.lastHeartbeatUs)
    case KDrain(_) => s.(life := [])
  }

  function KeyOut(cfg: Config, k: FlowKey, s: KeyState, input: KeyInput): seq<FlowEvent> {
    match input
    case KPacket(p) =>
      var life := s.life + [p];
      if s.life == [] then [FlowEvent(Start, Summary(k, life), p.timestampUs, IdleTimeout)]
      else if Teardown(p) then [FlowEvent(End, Summary(k, life), p.timestampUs, TcpTeardown)]
      else []
    case KSweep(now) =>
      if s.life == [] then []
      else if Expired(cfg, s.life, now) then [FlowEvent(End, Summary(k, s.life), now, IdleTimeout)]
      else if HeartbeatDue(cfg, s.lastHeartbeatUs, now) then [FlowEvent(Stats, Summary(k, s.life), now, IdleTimeout)]
      else []
    case KDrain(now) =>
      if s.life == [] then [] else [FlowEvent(End, Summary(k, s.life), now, IdleTimeout)]
  }

  function Alone(cfg: Config, inputs: seq<KeyInput>): KeyState {
    if inputs == [] then KeyState([], 0)
    else KeyNext(cfg, Alone(cfg, inputs[..|inputs| - 1]), inputs[|inputs| - 1])
  }

  function AloneEvents(cfg: Config, k: FlowKey, inputs: seq<KeyInput>): seq<FlowEvent> {
    if inputs == [] then []
    else
      var earlier := inputs[..|inputs| - 1];
      AloneEvents(cfg, k, earlier) + KeyOut(cfg, k, Alone(cfg, earlier), inputs[|inputs| - 1])
  }

  /** The inputs of a run that concern one flow: its admitted packets, and the clock. */
  function KeyInputs(cfg: Config, run: seq<Turn>, k: FlowKey): seq<KeyInput> {
    if run == [] then []
    else
      var earlier := run[..|run| - 1];
      KeyInputs(cfg, earlier, k) + KeyInputsOfTurn(cfg, After(cfg, earlier), run[|run| - 1].input, k)
  }

  function KeyInputsOfTurn(cfg: Config, t: Table, input: Input, k: FlowKey): seq<KeyInput> {
    match input
    case Packet(p) => if KeyFromPacket(p) == k && !CapHit(cfg, t, p) then [KPacket(p)] else []
    case Sweep(now) => [KSweep(now)]
    case Drain(now) => [KDrain(now)]
  }

  // ---------------------------------------------------------------- the table refines it

  ghost predicate Agrees(t: Table, k: FlowKey, s: KeyState) {
    && (k in t.flows <==> s.life != [])
    && (k in t.flows ==> t.flows[k] == Summary(k, s.life))
    && t.lastHeartbeatUs == s.lastHeartbeatUs
  }

  lemma SmallWrap(n: u64)
    ensures Wrap64(n) == n
  {
  }

  lemma GrownLife(k: FlowKey, life: seq<ParsedPacket>, p: ParsedPacket)
    ensures life != [] ==> Summary(k, life + [p]) == Touched(Summary(k, life), p)
    ensures life == [] ==> Summary(k, life + [p]) == Opened(p).(key := k)
  {
    hide Wrap64;
    var longer := life + [p];
    assert longer[..|longer| - 1] == life;
    SmallWrap(1);
    SmallWrap(p.wireLength);
    WrapAdd(|life|, 1);
    WrapAdd(ByteSum(life), p.wireLength);
  }

  lemma PacketAgrees(cfg: Config, t: Table, k: FlowKey, s: KeyState, p: ParsedPacket)
    requires Agrees(t, k, s)
    ensures var next := Next(cfg, t, Packet(p));
      if KeyFromPacket(p) == k && !CapHit(cfg, t, p)
      then
        && Agrees(next, k, KeyNext(cfg, s, KPacket(p)))
        && KeyEvents(cfg, t, Packet(p), k) == KeyOut(cfg, k, s, KPacket(p))
      else Agrees(next, k, s) && KeyEvents(cfg, t, Packet(p), k) == []
  {
    GrownLife(k, s.life, p);
  }

  lemma ClockAgrees(cfg: Config, t: Table, k: FlowKey, s: KeyState, now: i64)
    requires Agrees(t, k, s)
    ensures Agrees(Next(cfg, t, Sweep(now)), k, KeyNext(cfg, s, KSweep(now)))
    ensures KeyEvents(cfg, t, Sweep(now), k) == KeyOut(cfg, k, s, KSweep(now))
    ensures Agrees(Next(cfg, t, Drain(now)), k, KeyNext(cfg, s, KDrain(now)))
    ensures KeyEvents(cfg, t, Drain(now), k) == KeyOut(cfg, k, s, KDrain(now))
  {
  }

  lemma AloneSnoc(cfg: Config, k: FlowKey, inputs: seq<KeyInput>, input: KeyInput)
    ensures Alone(cfg, inputs + [input]) == KeyNext(cfg, Alone(cfg, inputs), input)
    ensures AloneEvents(cfg, k, inputs + [input]) ==
            AloneEvents(cfg, k, inputs) + KeyOut(cfg, k, Alone(cfg, inputs), input)
  {
    assert (inputs + [input])[..|inputs|] == inputs;
  }

  lemma TurnIsFold(cfg: Config, t: Table, input: Input, k: FlowKey, inputs: seq<KeyInput>)
    requires Agrees(t, k, Alone(cfg, inputs))
    ensures var more := inputs + KeyInputsOfTurn(cfg, t, input, k);
      && Agrees(Next(cfg, t, input), k, Alone(cfg, more))
      && AloneEvents(cfg, k, more) == AloneEvents(cfg, k, inputs) + KeyEvents(cfg, t, input, k)
  {
    hide Agrees, Next, KeyEvents, KeyNext, KeyOut, CapHit;
    var s := Alone(cfg, inputs);
    match input
    case Packet(p) =>
      PacketAgrees(cfg, t, k, s, p);
      AloneSnoc(cfg, k, inputs, KPacket(p));
      assert inputs + [] == inputs && AloneEvents(cfg, k, inputs) + [] == AloneEvents(cfg, k, inputs);
    case Sweep(now) =>
      ClockAgrees(cfg, t, k, s, now);
      AloneSnoc(cfg, k, inputs, KSweep(now));
    case Drain(now) =>
      ClockAgrees(cfg, t, k, s, now);
      AloneSnoc(cfg, k, inputs, KDrain(now));
  }

  /** On every run, the events about a flow are the ones made from its own admitted packets, so
      every packet count, byte count, start and last-seen time is that of the packets since the
      flow's Start; and the table holds the flow exactly while such a list is open. */
  lemma {:induction false} RunIsFold(cfg: Config, run: seq<Turn>, k: FlowKey)
    requires Legal(cfg, run)
    ensures var inputs := KeyInputs(cfg, run, k);
      && Agrees(After(cfg, run), k, Alone(cfg, inputs))
      && EventsOf(Offered(run), k) == AloneEvents(cfg, k, inputs)
  {
    if run != [] {
      hide Agrees, Next, KeyEvents, EndsLast, Alone, AloneEvents, KeyInputsOfTurn, EventsOf;
      var earlier, last := run[..|run| - 1], run[|run| - 1];
      RunIsFold(cfg, earlier, k);
      EventsOfConcat(Offered(earlier), last.outs, k);
      assert EventsOf(last.outs, k) == KeyEvents(cfg, After(cfg, earlier), last.input, k);
      TurnIsFold(cfg, After(cfg, earlier), last.input, k, KeyInputs(cfg, earlier, k));
    }
  }

  // ---------------------------------------------------------------- the language of one flow

  /** (Start Stats* End)*, and when open one more Start Stats* at the end. */
  predicate Lifecycle(events: seq<FlowEvent>, open: bool) {
    if events == [] then !open
    else
      var earlier := events[..|events| - 1];
      match events[|events| - 1].eventType
      case Start => open && Lifecycle(earlier, false)
      case Stats => open && Lifecycle(earlier, true)
      case End => !open && Lifecycle(earlier, true)
  }

  lemma {:induction false} AloneLifecycle(cfg: Config, k: FlowKey, inputs: seq<KeyInput>)
    ensures Lifecycle(AloneEvents(cfg, k, inputs), Alone(cfg, inputs).life != [])
  {
    if inputs != [] {
      var earlier, last := inputs[..|inputs| - 1], inputs[|inputs| - 1];
      AloneLifecycle(cfg, k, earlier);
      var before, out := AloneEvents(cfg, k, earlier), KeyOut(cfg, k, Alone(cfg, earlier), last);
      if out != [] {
        assert (before + out)[..|before + out| - 1] == before;
      } else {
        assert before + out == before;
      }
    }
  }

  /** Every flow's events alternate openings and ends, heartbeats fall only in between, and the
      flow is in the table exactly when its last opening has not ended. */
  lemma EveryFlowHasLifecycle(cfg: Config, run: seq<Turn>, k: FlowKey)
    requires Legal(cfg, run)
    ensures Lifecycle(EventsOf(Offered(run), k), k in After(cfg, run).flows)
  {
    RunIsFold(cfg, run, k);
    AloneLifecycle(cfg, k, KeyInputs(cfg, run, k));
  }

  // ---------------------------------------------------------------- flows do not interfere

  function Inputs(run: seq<Turn>): seq<Input> {
    if run == [] then [] else Inputs(run[..|run| - 1]) + [run[|run| - 1].input]
  }

  /** Drops the packets of other flows. */
  function OnlyKey(inputs: seq<Input>, k: FlowKey): seq<Input> {
    if inputs == [] then []
    else
      var last := inputs[|inputs| - 1];
      OnlyKey(inputs[..|inputs| - 1], k) + (if last.Packet? && KeyFromPacket(last.pkt) != k then [] else [last])
  }

  function AsKeyInput(input: Input): KeyInput {
    match input
    case Packet(p) => KPacket(p)
    case Sweep(now) => KSweep(now)
    case Drain(now) => KDrain(now)
  }

  function AsKeyInputs(inputs: seq<Input>): seq<KeyInput> {
    seq(|inputs|, i requires 0 <= i < |inputs| => AsKeyInput(inputs[i]))
  }

  lemma {:induction false} AllAdmitted(cfg: Config, run: seq<Turn>, k: FlowKey)
    requires After(cfg, run).dropCount == 0
    ensures KeyInputs(cfg, run, k) == AsKeyInputs(OnlyKey(Inputs(run), k))
  {
    if run != [] {
      var earlier, last := run[..|run| - 1], run[|run| - 1];
      AllAdmitted(cfg, earlier, k);
      assert Inputs(run)[..|Inputs(run)| - 1] == Inputs(earlier);
    }
  }

  /** A table that has seen one flow only never reaches the cap. */
  lemma {:induction false} SoloNeverDrops(cfg: Config, solo: seq<Turn>, k: FlowKey)
    requires cfg.maxFlows >= 1
    requires forall i | 0 <= i < |solo| && solo[i].input.Packet? :: KeyFromPacket(solo[i].input.pkt) == k
    ensures After(cfg, solo).flows.Keys <= {k} && After(cfg, solo).dropCount == 0
  {
    if solo != [] {
      SoloNeverDrops(cfg, solo[..|solo| - 1], k);
      assert k !in After(cfg, solo[..|solo| - 1]).flows ==> After(cfg, solo[..|solo| - 1]).flows == map[];
    }
  }

  lemma {:induction false} InputsLength(run: seq<Turn>)
    ensures |Inputs(run)| == |run|
  {
    if run != [] {
      InputsLength(run[..|run| - 1]);
    }
  }

  lemma {:induction false} InputsAt(run: seq<Turn>, i: nat)
    requires i < |run|
    ensures i < |Inputs(run)| && Inputs(run)[i] == run[i].input
  {
    var earlier := run[..|run| - 1];
    InputsLength(earlier);
    assert Inputs(run) == Inputs(earlier) + [run[|run| - 1].input];
    if i < |earlier| {
      InputsAt(earlier, i);
    }
  }

  lemma {:induction false} OnlyKeyMembers(inputs: seq<Input>, k: FlowKey)
    ensures forall input | input in OnlyKey(inputs, k) && input.Packet? :: KeyFromPacket(input.pkt) == k
  {
    if inputs != [] {
      OnlyKeyMembers(inputs[..|inputs| - 1], k);
    }
  }

  lemma {:induction false} OnlyKeyTwice(inputs: seq<Input>, k: FlowKey)
    ensures OnlyKey(OnlyKey(inputs, k), k) == OnlyKey(inputs, k)
  {
    if inputs != [] {
      var earlier, last := OnlyKey(inputs[..|inputs| - 1], k), inputs[|inputs| - 1];
      OnlyKeyTwice(inputs[..|inputs| - 1], k);
      if last.Packet? && KeyFromPacket(last.pkt) != k {
        assert OnlyKey(inputs, k) == earlier;
      } else {
        assert (earlier + [last])[..|earlier + [last]| - 1] == earlier;
      }
    }
  }

  lemma {:induction false} NoPacketsNoLife(cfg: Config, k: FlowKey, inputs: seq<KeyInput>)
    requires forall input | input in inputs :: !input.KPacket?
    ensures Alone(cfg, inputs).life == [] && AloneEvents(cfg, k, inputs) == []
  {
    if inputs != [] {
      NoPacketsNoLife(cfg, k, inputs[..|inputs| - 1]);
    }
  }

  lemma {:induction false} OthersHaveNoPackets(cfg: Config, solo: seq<Turn>, k: FlowKey, other: FlowKey)
    requires other != k
    requires forall i | 0 <= i < |solo| && solo[i].input.Packet? :: KeyFromPacket(solo[i].input.pkt) == k
    ensures forall input | input in KeyInputs(cfg, solo, other) :: !input.KPacket?
  {
    if solo != [] {
      OthersHaveNoPackets(cfg, solo[..|solo| - 1], k, other);
    }
  }

  lemma SoloOffersOwn(cfg: Config, solo: seq<Turn>, k: FlowKey)
    requires Legal(cfg, solo)
    requires forall i | 0 <= i < |solo| && solo[i].input.Packet? :: KeyFromPacket(solo[i].input.pkt) == k
    ensures EventsOf(Offered(solo), k) == Offered(solo)
  {
    forall i | 0 <= i < |Offered(solo)|
      ensures Offered(solo)[i].state.key == k
    {
      var other := Offered(solo)[i].state.key;
      EventsOfMember(Offered(solo), i);
      if other != k {
        RunIsFold(cfg, solo, other);
        OthersHaveNoPackets(cfg, solo, k, other);
        NoPacketsNoLife(cfg, other, KeyInputs(cfg, solo, other));
      }
    }
    AllOwn(Offered(solo), k);
  }

  /** When the cap was never hit, a flow's events are all the events of a table given only that
      flow's packets and the same sweeps and drains, in whatever order the maps were iterated. */
  lemma NonInterference(cfg: Config, run: seq<Turn>, solo: seq<Turn>, k: FlowKey)
    requires Legal(cfg, run) && Legal(cfg, solo) && cfg.maxFlows >= 1
    requires After(cfg, run).dropCount == 0
    requires Inputs(solo) == OnlyKey(Inputs(run), k)
    ensures EventsOf(Offered(run), k) == Offered(solo)
    ensures k in After(cfg, run).flows <==> k in After(cfg, solo).flows
    ensures k in After(cfg, run).flows ==> After(cfg, run).flows[k] == After(cfg, solo).flows[k]
  {
    RunIsFold(cfg, run, k);
    RunIsFold(cfg, solo, k);
    AllAdmitted(cfg, run, k);
    OnlyKeyMembers(Inputs(run), k);
    OnlyKeyTwice(Inputs(run), k);
    forall i | 0 <= i < |solo| && solo[i].input.Packet?
      ensures KeyFromPacket(solo[i].input.pkt) == k
    {
      InputsAt(solo, i);
      assert Inputs(solo)[i] in OnlyKey(Inputs(run), k);
    }
    SoloNeverDrops(cfg, solo, k);
    AllAdmitted(cfg, solo, k);
    SoloOffersOwn(cfg, solo, k);
  }

  /** With the cap hit or not, the order of iteration changes nothing but the interleaving of
      different flows: same table, same events per flow, same events altogether. */
  lemma {:induction false} SameInputsSameFlows(cfg: Config, a: seq<Turn>, b: seq<Turn>, k: FlowKey)
    requires Legal(cfg, a) && Legal(cfg, b) && Inputs(a) == Inputs(b)
    ensures After(cfg, a) == After(cfg, b)
    ensures EventsOf(Offered(a), k) == EventsOf(Offered(b), k)
  {
    InputsLength(a);
    InputsLength(b);
    if a != [] {
      var a0, b0 := a[..|a| - 1], b[..|b| - 1];
      InputsAt(a, |a| - 1);
      InputsAt(b, |b| - 1);
      assert Inputs(a)[..|a| - 1] == Inputs(a0) && Inputs(b)[..|b| - 1] == Inputs(b0);
      SameInputsSameFlows(cfg, a0, b0, k);
      EventsOfConcat(Offered(a0), a[|a| - 1].outs, k);
      EventsOfConcat(Offered(b0), b[|b| - 1].outs, k);
    }
  }

  lemma {:induction false} CountByFlow(events: seq<FlowEvent>, e: FlowEvent)
    ensures multiset(events)[e] == multiset(EventsOf(events, e.state.key))[e]
  {
    if events != [] {
      var earlier, last := events[..|events| - 1], events[|events| - 1];
      CountByFlow(earlier, e);
      assert events == earlier + [last];
    }
  }

  lemma IterationOrderIrrelevant(cfg: Config, a: seq<Turn>, b: seq<Turn>)
    requires Legal(cfg, a) && Legal(cfg, b) && Inputs(a) == Inputs(b)
    ensures After(cfg, a) == After(cfg, b)
    ensures multiset(Offered(a)) == multiset(Offered(b))
  {
    SameInputsSameFlows(cfg, a, b, FlowKey(seq(16, _ => 0), seq(16, _ => 0), 0, 0, 0));
    forall e: FlowEvent
      ensures multiset(Offered(a))[e] == multiset(Offered(b))[e]
    {
      SameInputsSameFlows(cfg, a, b, e.state.key);
      CountByFlow(Offered(a), e);
      CountByFlow(Offered(b), e);
    }
  }

  // ---------------------------------------------------------------- shutdown

  lemma EmptyTableIsSilent(cfg: Config, t: Table, input: Input, outs: seq<FlowEvent>)
    requires t.flows == map[] && !input.Packet? && Emits(cfg, t, input, outs)
    ensures outs == [] && Next(cfg, t, input).flows == map[]
  {
    if outs != [] {
      EventsOfMember(outs, 0);
    }
  }

  lemma {:induction false} SilentAfterDrain(cfg: Config, run: seq<Turn>, drain: Turn, later: seq<Turn>)
    requires drain.input.Drain? && (forall turn | turn in later :: turn.input.Sweep?)
    requires Legal(cfg, run + [drain] + later)
    ensures After(cfg, run + [drain] + later).flows == map[]
    ensures Offered(run + [drain] + later) == Offered(run + [drain])
    decreases |later|
  {
    var drained := run + [drain];
    if later == [] {
      assert drained + later == drained;
      AppendTurn(cfg, run, drain);
    } else {
      var sooner, last := later[..|later| - 1], later[|later| - 1];
      assert drained + later == (drained + sooner) + [last];
      AppendTurn(cfg, drained + sooner, last);
      SilentAfterDrain(cfg, run, drain, sooner);
      EmptyTableIsSilent(cfg, After(cfg, drained + sooner), last.input, last.outs);
    }
  }

  /** After the drain every flow that was opened has ended, and sweeps that still come in offer
      nothing. */
  lemma DrainCloses(cfg: Config, run: seq<Turn>, drain: Turn, later: seq<Turn>)
    requires drain.input.Drain? && (forall turn | turn in later :: turn.input.Sweep?)
    requires Legal(cfg, run + [drain] + later)
    ensures var all := run + [drain] + later;
      && After(cfg, all).flows == map[]
      && After(cfg, all).created == After(cfg, all).expiredIdle + After(cfg, all).expiredTcp
      && Offered(all) == Offered(run + [drain])
      && forall k :: Lifecycle(EventsOf(Offered(all), k), false)
  {
    var all := run + [drain] + later;
    SilentAfterDrain(cfg, run, drain, later);
    AlwaysWellKept(cfg, all);
    forall k
      ensures Lifecycle(EventsOf(Offered(all), k), false)
    {
      EveryFlowHasLifecycle(cfg, all, k);
    }
  }
}
