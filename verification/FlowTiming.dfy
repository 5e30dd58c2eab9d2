/** When heartbeats and idle ends are sent, over whole runs. */
module FlowTiming {
  import opened Numbers
  import opened Events
  import opened FlowTableSpec

  function Clock(input: Input): i64 {
    match input
    case Packet(p) => p.timestampUs
    case Sweep(now) => now
    case Drain(now) => now
  }

  /** The times of the sweeps that sent heartbeats. */
  function Beats(cfg: Config, run: seq<Turn>): seq<i64> {
    if run == [] then []
    else
      var earlier, last := run[..|run| - 1], run[|run| - 1].input;
      Beats(cfg, earlier) +
      (if last.Sweep? && HeartbeatDue(cfg, After(cfg, earlier).lastHeartbeatUs, last.now) then [last.now] else [])
  }

  function LastSweep(run: seq<Turn>, start: i64): i64 {
    if run == [] then start
    else if run[|run| - 1].input.Sweep? then run[|run| - 1].input.now
    else LastSweep(run[..|run| - 1], start)
  }

  /** One clock that never goes back stamps packets and sweeps from start on, and no two sweeps
      in a row are more than gap apart. */
  predicate Steady(run: seq<Turn>, start: i64, gap: int) {
    run != [] ==>
      var earlier, last := run[..|run| - 1], run[|run| - 1].input;
      && Steady(earlier, start, gap)
      && Clock(last) >= (if earlier == [] then start else Clock(earlier[|earlier| - 1].input))
      && (last.Sweep? ==> last.now - LastSweep(earlier, start) <= gap)
  }

  predicate GapsAtLeast(times: seq<i64>, d: int) {
    forall i | 0 < i < |times| :: times[i] - times[i - 1] >= d
  }

  predicate GapsBelow(times: seq<i64>, d: int) {
    forall i | 0 < i < |times| :: times[i] - times[i - 1] < d
  }

  /** The last heartbeat sweep, or time zero before there was one. */
  function LastBeatTime(cfg: Config, run: seq<Turn>): i64 {
    var beats := Beats(cfg, run);
    if beats == [] then 0 else beats[|beats| - 1]
  }

  lemma {:induction false} HeartbeatKept(cfg: Config, run: seq<Turn>)
    ensures After(cfg, run).lastHeartbeatUs == LastBeatTime(cfg, run)
  {
    if run != [] {
      HeartbeatKept(cfg, run[..|run| - 1]);
    }
  }

  /** A sweep is a heartbeat sweep exactly when the interval has passed since the last one, or
      since time zero; so every sweep is one, or follows one by less than the interval. */
  lemma BeatIff(cfg: Config, run: seq<Turn>, i: nat)
    requires i < |run| && run[i].input.Sweep?
    ensures var now, since := run[i].input.now, run[i].input.now - LastBeatTime(cfg, run[..i]);
      Beats(cfg, run[..i + 1]) ==
      Beats(cfg, run[..i]) + (if since >= cfg.statsIntervalSec * 1_000_000 then [now] else [])
  {
    HeartbeatKept(cfg, run[..i]);
    assert run[..i + 1][..i] == run[..i];
  }

  /** Heartbeats are never closer than the interval, whatever the clock does. */
  lemma {:induction false} BeatsSpaced(cfg: Config, run: seq<Turn>)
    ensures GapsAtLeast(Beats(cfg, run), cfg.statsIntervalSec * 1_000_000)
  {
    if run != [] {
      BeatsSpaced(cfg, run[..|run| - 1]);
      HeartbeatKept(cfg, run[..|run| - 1]);
    }
  }

  lemma StatsAtDueSweep(cfg: Config, t: Table, input: Input, outs: seq<FlowEvent>, e: FlowEvent)
    requires Emits(cfg, t, input, outs) && e in outs && e.eventType.Stats?
    ensures input.Sweep? && HeartbeatDue(cfg, t.lastHeartbeatUs, input.now) && e.eventTimestampUs == input.now
  {
    var i :| 0 <= i < |outs| && outs[i] == e;
    EventsOfMember(outs, i);
    assert e in KeyEvents(cfg, t, input, e.state.key);
  }

  /** Every heartbeat event is stamped with the time of such a sweep. */
  lemma {:induction false} StatsAtBeats(cfg: Config, run: seq<Turn>, e: FlowEvent)
    requires Legal(cfg, run) && e in Offered(run) && e.eventType.Stats?
    ensures e.eventTimestampUs in Beats(cfg, run)
  {
    hide Emits, HeartbeatDue;
    var earlier, last := run[..|run| - 1], run[|run| - 1];
    if e in Offered(earlier) {
      StatsAtBeats(cfg, earlier, e);
    } else {
      StatsAtDueSweep(cfg, After(cfg, earlier), last.input, last.outs, e);
    }
  }

  lemma {:induction false} SweepsInOrder(run: seq<Turn>, start: i64, gap: int)
    requires Steady(run, start, gap)
    ensures LastSweep(run, start) <= if run == [] then start else Clock(run[|run| - 1].input)
  {
    if run != [] {
      SweepsInOrder(run[..|run| - 1], start, gap);
    }
  }

  lemma {:induction false} BeatIsRecent(cfg: Config, run: seq<Turn>, start: i64)
    requires cfg.StatsIntervalUs() > 0 && Beats(cfg, run) != []
    ensures LastSweep(run, start) - After(cfg, run).lastHeartbeatUs < cfg.StatsIntervalUs()
  {
    var earlier := run[..|run| - 1];
    if !run[|run| - 1].input.Sweep? {
      BeatIsRecent(cfg, earlier, start);
    }
  }

  /** With sweeps at most gap apart, heartbeats are less than the interval plus gap apart. */
  lemma {:induction false} BeatsKeepUp(cfg: Config, run: seq<Turn>, start: i64, gap: int)
    requires cfg.statsIntervalSec > 0 && Steady(run, start, gap)
    ensures GapsBelow(Beats(cfg, run), cfg.statsIntervalSec * 1_000_000 + gap)
  {
    if run != [] {
      var earlier := run[..|run| - 1];
      BeatsKeepUp(cfg, earlier, start, gap);
      HeartbeatKept(cfg, earlier);
      if Beats(cfg, earlier) != [] {
        BeatIsRecent(cfg, earlier, start);
      }
    }
  }

  /** No flow in the table was already idle at the last sweep. */
  ghost predicate NoneOverdue(cfg: Config, t: Table, sweptAt: int) {
    forall k | k in t.flows :: sweptAt - t.flows[k].lastSeenUs < cfg.IdleTimeoutUs()
  }

  lemma TurnNoneOverdue(cfg: Config, t: Table, input: Input, sweptAt: int)
    requires cfg.IdleTimeoutUs() > 0 && NoneOverdue(cfg, t, sweptAt)
    requires input.Packet? ==> sweptAt <= input.pkt.timestampUs
    ensures NoneOverdue(cfg, Next(cfg, t, input), if input.Sweep? then input.now else sweptAt)
  {
  }

  lemma {:induction false} NeverOverdue(cfg: Config, run: seq<Turn>, start: i64, gap: int)
    requires cfg.IdleTimeoutUs() > 0 && Steady(run, start, gap)
    ensures NoneOverdue(cfg, After(cfg, run), LastSweep(run, start))
  {
    if run != [] {
      var earlier := run[..|run| - 1];
      NeverOverdue(cfg, earlier, start, gap);
      SweepsInOrder(earlier, start, gap);
      TurnNoneOverdue(cfg, After(cfg, earlier), run[|run| - 1].input, LastSweep(earlier, start));
    }
  }

  lemma SweepEndOf(cfg: Config, t: Table, now: i64, outs: seq<FlowEvent>, e: FlowEvent)
    requires Emits(cfg, t, Sweep(now), outs) && e in outs && e.eventType.End?
    ensures e.state.key in t.flows && e.state == t.flows[e.state.key]
    ensures e.eventTimestampUs == now && Idle(cfg, e.state, now)
  {
    var i :| 0 <= i < |outs| && outs[i] == e;
    EventsOfMember(outs, i);
    assert e in KeyEvents(cfg, t, Sweep(now), e.state.key);
  }

  lemma LastEndOnTime(cfg: Config, run: seq<Turn>, start: i64, gap: int, e: FlowEvent)
    requires Legal(cfg, run) && cfg.IdleTimeoutUs() > 0 && run != []
    requires run[|run| - 1].input.Sweep? && e in run[|run| - 1].outs && e.eventType.End?
    ensures e.eventTimestampUs - e.state.lastSeenUs >= cfg.IdleTimeoutUs()
    ensures Steady(run, start, gap) ==> e.eventTimestampUs - e.state.lastSeenUs < cfg.IdleTimeoutUs() + gap
  {
    var earlier, last := run[..|run| - 1], run[|run| - 1];
    SweepEndOf(cfg, After(cfg, earlier), last.input.now, last.outs, e);
    if Steady(run, start, gap) {
      NeverOverdue(cfg, earlier, start, gap);
      assert last.input.now - LastSweep(earlier, start) <= gap;
    }
  }

  lemma {:induction false} LegalPrefix(cfg: Config, run: seq<Turn>, start: i64, gap: int, n: nat)
    requires Legal(cfg, run) && n <= |run|
    ensures Legal(cfg, run[..n])
    ensures Steady(run, start, gap) ==> Steady(run[..n], start, gap)
    decreases |run|
  {
    if n == |run| {
      assert run[..n] == run;
    } else {
      LegalPrefix(cfg, run[..|run| - 1], start, gap, n);
      assert run[..|run| - 1][..n] == run[..n];
    }
  }

  /** An end sent by a sweep is stamped no sooner than the timeout after the flow's last packet,
      and with sweeps at most gap apart, sooner than the timeout plus gap. */
  lemma IdleEndsOnTime(cfg: Config, run: seq<Turn>, start: i64, gap: int, i: nat, e: FlowEvent)
    requires Legal(cfg, run) && cfg.flowTimeoutSec > 0
    requires i < |run| && run[i].input.Sweep? && e in run[i].outs && e.eventType.End?
    ensures e.eventTimestampUs - e.state.lastSeenUs >= cfg.flowTimeoutSec * 1_000_000
    ensures Steady(run, start, gap) ==> e.eventTimestampUs - e.state.lastSeenUs < cfg.flowTimeoutSec * 1_000_000 + gap
  {
    hide Legal, Steady;
    LegalPrefix(cfg, run, start, gap, i + 1);
    LastEndOnTime(cfg, run[..i + 1], start, gap, e);
  }

  lemma SweepOffers(cfg: Config, t: Table, now: i64, outs: seq<FlowEvent>, k: FlowKey, kind: FlowEventType)
    requires Emits(cfg, t, Sweep(now), outs)
    ensures (exists e | e in outs :: e.eventType == kind && e.state.key == k) <==>
            (exists e | e in KeyEvents(cfg, t, Sweep(now), k) :: e.eventType == kind && e.state.key == k)
  {
    assert EventsOf(outs, k) == KeyEvents(cfg, t, Sweep(now), k);
    if e :| e in outs && e.eventType == kind && e.state.key == k {
      var i :| 0 <= i < |outs| && outs[i] == e;
      EventsOfMember(outs, i);
    }
    EventsOfSubset(outs, k);
  }

  /** A sweep ends a flow exactly when it is in the table and its last packet is the timeout or
      more ago, and sends its heartbeat exactly when it is in the table, is not ended, and the last
      heartbeat sweep is the interval or more ago; both settings are in seconds. */
  lemma SweepDoesIff(cfg: Config, run: seq<Turn>, i: nat, k: FlowKey)
    requires Legal(cfg, run) && i < |run| && run[i].input.Sweep?
    ensures var t, now := After(cfg, run[..i]), run[i].input.now;
      var idle := k in t.flows && now - t.flows[k].lastSeenUs >= cfg.flowTimeoutSec * 1_000_000;
      && ((exists e | e in run[i].outs :: e.eventType == End && e.state.key == k) <==> idle)
      && ((exists e | e in run[i].outs :: e.eventType == Stats && e.state.key == k) <==>
          && k in t.flows && !idle
          && now - LastBeatTime(cfg, run[..i]) >= cfg.statsIntervalSec * 1_000_000)
  {
    var t, now, outs := After(cfg, run[..i]), run[i].input.now, run[i].outs;
    LegalTurn(cfg, run, i);
    HeartbeatKept(cfg, run[..i]);
    AlwaysWellKept(cfg, run[..i]);
    SweepOffers(cfg, t, now, outs, k, End);
    SweepOffers(cfg, t, now, outs, k, Stats);
    hide Legal, After, Beats, Emits, LastBeatTime;
    var events := KeyEvents(cfg, t, Sweep(now), k);
    if events != [] {
      assert events == [events[0]] && events[0] in events;
    }
  }

  /** The timer's sleep between sweeps, in microseconds. */
  function SweepPeriodUs(cfg: Config): int {
    Max(1, Min(cfg.statsIntervalSec, cfg.flowTimeoutSec)) * 500 * 1000
  }

  /** A timer that sleeps exactly its period is off by at most half of either setting. */
  lemma NominalTiming(cfg: Config, run: seq<Turn>, start: i64, i: nat, e: FlowEvent)
    requires Legal(cfg, run) && Steady(run, start, SweepPeriodUs(cfg))
    requires cfg.statsIntervalSec > 0 && cfg.flowTimeoutSec > 0
    ensures 2 * SweepPeriodUs(cfg) == Min(cfg.statsIntervalSec, cfg.flowTimeoutSec) * 1_000_000
    ensures forall j | 0 < j < |Beats(cfg, run)| ::
      cfg.statsIntervalSec * 1_000_000 <= Beats(cfg, run)[j] - Beats(cfg, run)[j - 1] < cfg.statsIntervalSec * 1_500_000
    ensures i < |run| && run[i].input.Sweep? && e in run[i].outs && e.eventType.End? ==>
      cfg.flowTimeoutSec * 1_000_000 <= e.eventTimestampUs - e.state.lastSeenUs < cfg.flowTimeoutSec * 1_500_000
  {
    BeatsSpaced(cfg, run);
    BeatsKeepUp(cfg, run, start, SweepPeriodUs(cfg));
    if i < |run| && run[i].input.Sweep? && e in run[i].outs && e.eventType.End? {
      IdleEndsOnTime(cfg, run, start, SweepPeriodUs(cfg), i, e);
    }
  }
}
