/** The whole pipeline as its threads interleave: the capture and timer threads offer events under
    the table's mutex and push them through the ring, the sink thread pops them and sends them,
    and main walks through shutdown. Every load, store and buffer access of the ring is a step of
    its own, and so is every produce. */
module Pipeline {
  import opened Numbers
  import opened Events
  import T = FlowTableSpec
  import L = FlowLifetimes
  import R = RingProtocol
  import S = SinkProtocol
  import SL = SinkLosses

  /** An event and its position among all events offered. */
  datatype Tagged = Tagged(id: nat, evt: FlowEvent)

  datatype World = World(cfg: T.Config, serializable: FlowEvent -> bool, retrySize: int, k: nat) {
    function Ok(): Tagged -> bool {
      (x: Tagged) => serializable(x.evt)
    }
  }

  datatype Thread = CaptureThread | TimerThread

  datatype Lock = Free | Held(owner: Thread)

  datatype MainPhase = Capturing | Draining | Drained | StoppingTimer | StoppingSink

  datatype TimerPhase = Sleeping | Committed | Sweeping | TimerExited

  /** Where the sink's outer loop is: reading the stop flag, then the queue, then the body. */
  datatype SinkLoop = AtStop | AtEmpty | Body | SinkExited

  datatype Pipe = Pipe(
    run: seq<T.Turn>,          // the table's turns so far
    table: T.Table,
    offered: seq<FlowEvent>,   // everything those turns offer
    next: nat,                 // how many of them have been taken to push
    lock: Lock,
    main: MainPhase,
    timer: TimerPhase,
    loop: SinkLoop,
    waited: bool,              // pop_wait's first pop found nothing
    stopTail: nat,             // newest entry of tail_ known to the thread that requested stop
    stopRead: bool,            // the sink thread has read the stop flag as set
    ring: R.Ring<Tagged>,
    sinkRun: seq<S.Action<Tagged>>, // the sink's actions so far
    sink: S.Sink<Tagged>,
    rejected: seq<nat>)        // offered events that a full ring refused

  datatype Step =
    | TakePacket(pkt: ParsedPacket, outs: seq<FlowEvent>)
    | StartDrain(now: i64, outs: seq<FlowEvent>)
    | TimerWakes
    | StartSweep(now: i64, outs: seq<FlowEvent>)
    | Unlock
    | Push(a: R.Action<Tagged>)
    | StopTimer
    | TimerExits
    | StopSink
    | ReadStop(seen: bool)
    | ReadEmpty(i: nat)
    | Retry(r: S.Action<Tagged>)
    | PopStep(a: R.Action<Tagged>)
    | Look(i: nat)
    | Attempt(outcome: S.Outcome)

  function Init(w: World, blank: Tagged): Pipe {
    Pipe([], T.EMPTY, [], 0, Free, Capturing, Sleeping, AtStop, false, 0, false,
         R.Init(w.k, blank), [], S.Init(w.retrySize), [])
  }

  ghost predicate Enabled(w: World, s: Pipe, step: Step) {
    match step
    case TakePacket(p, outs) => s.main.Capturing? && s.lock.Free? && T.Emits(w.cfg, s.table, T.Packet(p), outs)
    case StartDrain(now, outs) => s.main.Capturing? && s.lock.Free? && T.Emits(w.cfg, s.table, T.Drain(now), outs)
    case TimerWakes => s.timer.Sleeping? // may read its stop flag as still unset
    case StartSweep(now, outs) => s.timer.Committed? && s.lock.Free? && T.Emits(w.cfg, s.table, T.Sweep(now), outs)
    case Unlock => s.lock.Held? && s.next == |s.offered| && s.ring.producer.PIdle?
    case Push(a) =>
      && s.lock.Held? && R.Enabled(s.ring, a)
      && (match a
          case LoadOwnTail(x) => s.next < |s.offered| && x == Tagged(s.next, s.offered[s.next])
          case LoadHead(_) => true
          case WriteSlot => true
          case StoreTail => true
          case _ => false)
    case StopTimer => s.main.Drained?
    case TimerExits => s.timer.Sleeping? && s.main.StoppingTimer?
    case StopSink => s.main.StoppingTimer? && s.timer.TimerExited? && s.ring.tailOrder != []
    case ReadStop(seen) =>
      && s.loop.AtStop? && (s.stopRead ==> seen)
      && (seen ==>
            && s.main.StoppingSink? && s.ring.consumer.CIdle?
            && s.ring.tailSeen < |s.ring.tailOrder| && s.stopTail < |s.ring.tailOrder|)
    case ReadEmpty(i) => s.loop.AtEmpty? && s.ring.headOrder != [] && R.Enabled(s.ring, R.Observe(i))
    case Retry(a) =>
      && s.loop.Body? && S.Enabled(w.Ok(), s.sink, a)
      && (a.RetrySent? || a.RetryRefused? || a.RetryDiscarded? || a.RetryDone?)
    case PopStep(a) =>
      && s.loop.Body? && s.sink.phase.Popping? && R.Enabled(s.ring, a)
      && (a.LoadOwnHead? || a.LoadTail? || a.ReadSlot? || a.StoreHead?)
    case Look(i) => s.loop.Body? && s.sink.phase.Popping? && s.waited && R.Enabled(s.ring, R.Observe(i))
    case Attempt(outcome) => s.loop.Body? && S.Enabled(w.Ok(), s.sink, S.Attempt(outcome))
  }

  /** A turn of the table: its events are offered one by one before the mutex is released. */
  function TakeTurn(w: World, s: Pipe, owner: Thread, input: T.Input, outs: seq<FlowEvent>): Pipe {
    s.(run := s.run + [T.Turn(input, outs)],
       table := T.Next(w.cfg, s.table, input),
       offered := s.offered + outs,
       lock := Held(owner))
  }

  function PushedStep(s: Pipe, a: R.Action<Tagged>): Pipe
    requires R.Enabled(s.ring, a)
  {
    var t := s.(ring := R.Apply(s.ring, a));
    match a
    case LoadOwnTail(_) => t.(next := s.next + 1)
    case LoadHead(i) => if R.Rejects(s.ring, i) then t.(rejected := s.rejected + [s.ring.producer.evt.id]) else t
    case _ => t
  }

  function SinkStep(w: World, s: Pipe, a: S.Action<Tagged>): Pipe
    requires S.Enabled(w.Ok(), s.sink, a)
  {
    s.(sink := S.Apply(w.Ok(), s.sink, a), sinkRun := s.sinkRun + [a])
  }

  function PoppedStep(w: World, s: Pipe, a: R.Action<Tagged>): Pipe
    requires R.Enabled(s.ring, a) && s.sink.phase.Popping?
  {
    var t := s.(ring := R.Apply(s.ring, a));
    match a
    case LoadTail(i) =>
      if !R.FindsNothing(s.ring, i) then t
      else if !s.waited then t.(waited := true)
      else SinkStep(w, t, S.PopNothing).(waited := false, loop := AtStop)
    case StoreHead => SinkStep(w, t, S.Pop(s.ring.consumer.evt)).(waited := false)
    case _ => t
  }

  ghost function Apply(w: World, s: Pipe, step: Step): Pipe
    requires Enabled(w, s, step)
  {
    match step
    case TakePacket(p, outs) => TakeTurn(w, s, CaptureThread, T.Packet(p), outs)
    case StartDrain(now, outs) => TakeTurn(w, s, CaptureThread, T.Drain(now), outs).(main := Draining)
    case TimerWakes => s.(timer := Committed)
    case StartSweep(now, outs) => TakeTurn(w, s, TimerThread, T.Sweep(now), outs).(timer := Sweeping)
    case Unlock =>
      if s.lock.owner.TimerThread? then s.(lock := Free, timer := Sleeping)
      else s.(lock := Free, main := if s.main.Draining? then Drained else s.main)
    case Push(a) => PushedStep(s, a)
    case StopTimer => s.(main := StoppingTimer)
    case TimerExits => s.(timer := TimerExited)
    case StopSink => s.(main := StoppingSink, stopTail := |s.ring.tailOrder| - 1)
    case ReadStop(seen) =>
      // reading true synchronizes with the request, so every push before it becomes visible
      if seen then
        s.(loop := AtEmpty, stopRead := true,
           ring := R.Apply(s.ring, R.Observe(Max(s.ring.tailSeen, s.stopTail))))
      else s.(loop := Body)
    case ReadEmpty(i) =>
      s.(ring := R.Apply(s.ring, R.Observe(i)),
         loop := if s.ring.Head() == s.ring.tailOrder[i].value then SinkExited else Body)
    case Retry(a) => SinkStep(w, s, a)
    case PopStep(a) => PoppedStep(w, s, a)
    case Look(i) => s.(ring := R.Apply(s.ring, R.Observe(i)))
    case Attempt(outcome) => SinkStep(w, s, S.Attempt(outcome)).(loop := AtStop)
  }

  ghost predicate Legal(w: World, s: Pipe, steps: seq<Step>)
    decreases |steps|
  {
    steps == [] || (Enabled(w, s, steps[0]) && Legal(w, Apply(w, s, steps[0]), steps[1..]))
  }

  ghost function Run(w: World, s: Pipe, steps: seq<Step>): Pipe
    requires Legal(w, s, steps)
    decreases |steps|
  {
    if steps == [] then s else Run(w, Apply(w, s, steps[0]), steps[1..])
  }

  // ---------------------------------------------------------------- where an event can be

  function Ids(xs: seq<Tagged>): seq<nat> {
    seq(|xs|, i requires 0 <= i < |xs| => xs[i].id)
  }

  function InPush(p: R.Producer<Tagged>): seq<nat> {
    if p.PIdle? then [] else [p.evt.id]
  }

  function IdsAt(popped: seq<Tagged>, places: seq<nat>): seq<nat>
    requires S.Below(places, |popped|)
  {
    seq(|places|, i requires 0 <= i < |places| => popped[places[i]].id)
  }

  // ---------------------------------------------------------------- the invariant

  ghost predicate TableOk(w: World, s: Pipe) {
    && T.Legal(w.cfg, s.run) && s.table == T.After(w.cfg, s.run) && s.offered == T.Offered(s.run)
    && (!s.main.Capturing? ==> s.table.flows == map[])
  }

  ghost predicate ThreadsOk(s: Pipe) {
    && s.next <= |s.offered|
    && (s.lock.Free? ==> s.next == |s.offered| && s.ring.producer.PIdle?)
    && (s.lock == Held(TimerThread) <==> s.timer.Sweeping?)
    && (s.lock == Held(CaptureThread) ==> s.main.Capturing? || s.main.Draining?)
    && (s.main.StoppingSink? ==> s.timer.TimerExited? && s.stopTail == |s.ring.accepted|)
  }

  ghost predicate SinkLoopOk(s: Pipe) {
    && (s.loop.AtEmpty? || s.loop.SinkExited? ==> s.stopRead)
    && (s.stopRead ==> s.main.StoppingSink? && s.ring.tailSeen == |s.ring.accepted|)
    && (s.waited ==> s.loop.Body? && s.sink.phase.Popping?)
    && (s.loop.SinkExited? ==> |s.ring.popped| == |s.ring.accepted|)
    && (!s.loop.Body? ==> s.sink.phase.Retrying?)
    && (!s.ring.consumer.CIdle? ==> s.loop.Body? && s.sink.phase.Popping?)
  }

  ghost predicate QueueOk(w: World, s: Pipe) {
    R.Inv(s.ring) && S.Inv(w.Ok(), s.sink) && s.sink.popped == s.ring.popped
  }

  /** The sink's state is that of its own actions, and its loop tests its condition between
      iterations. */
  ghost predicate SinkRunOk(w: World, s: Pipe) {
    && S.Legal(w.Ok(), w.retrySize, s.sinkRun) && s.sink == S.After(w.Ok(), w.retrySize, s.sinkRun)
    && (!s.loop.Body? ==> SL.AtLoopTest(s.sinkRun))
  }

  ghost predicate TagOk(x: Tagged, offered: seq<FlowEvent>, next: nat) {
    x.id < next <= |offered| && x.evt == offered[x.id]
  }

  /** Everything under way carries the event it was offered as. */
  ghost predicate TagsOk(s: Pipe) {
    && (forall i | 0 <= i < |s.ring.accepted| :: TagOk(s.ring.accepted[i], s.offered, s.next))
    && (!s.ring.producer.PIdle? ==>
          TagOk(s.ring.producer.evt, s.offered, s.next) && s.ring.producer.evt.id == s.next - 1)
    && S.Increasing(Ids(s.ring.accepted) + InPush(s.ring.producer))
  }

  /** How often an offered event was rejected, is being pushed or was accepted. */
  function PushCount(s: Pipe, id: nat): nat {
    S.Times(s.rejected, id) + S.Times(InPush(s.ring.producer), id) + S.Times(Ids(s.ring.accepted), id)
  }

  ghost predicate CountOk(s: Pipe) {
    forall id: nat :: PushCount(s, id) == if id < s.next then 1 else 0
  }

  ghost predicate Inv(w: World, s: Pipe) {
    TableOk(w, s) && ThreadsOk(s) && SinkLoopOk(s) && SinkRunOk(w, s) && QueueOk(w, s) && TagsOk(s) && CountOk(s)
  }

  lemma InitInv(w: World, blank: Tagged)
    ensures Inv(w, Init(w, blank))
  {
    R.InitInv(w.k, blank);
    assert S.Legal(w.Ok(), w.retrySize, []);
    S.AlwaysInv(w.Ok(), w.retrySize, []);
  }

  // ---------------------------------------------------------------- table steps

  lemma CountKept(s: Pipe, t: Pipe)
    requires CountOk(s) && t.next == s.next && t.rejected == s.rejected
    requires t.ring.producer == s.ring.producer && t.ring.accepted == s.ring.accepted
    ensures CountOk(t)
  {
    forall id: nat
      ensures PushCount(t, id) == if id < t.next then 1 else 0
    {
      assert PushCount(t, id) == PushCount(s, id);
    }
  }

  /** What the table's turns and the shutdown of main never touch. */
  predicate SameSinkSide(s: Pipe, t: Pipe) {
    && t.ring == s.ring && t.sink == s.sink && t.sinkRun == s.sinkRun && t.loop == s.loop && t.waited == s.waited
    && t.stopRead == s.stopRead && t.next == s.next && t.rejected == s.rejected && s.offered <= t.offered
    && (s.main.StoppingSink? ==> t.main == s.main)
  }

  lemma SinkSideKept(w: World, s: Pipe, t: Pipe)
    requires Inv(w, s) && SameSinkSide(s, t)
    ensures QueueOk(w, t) && SinkLoopOk(t) && SinkRunOk(w, t) && TagsOk(t) && CountOk(t)
  {
    hide TableOk, ThreadsOk, S.Legal, S.After, S.Inv, S.Times, S.Increasing, R.Inv, SL.AtLoopTest, Ids, CountOk;
    CountKept(s, t);
  }

  lemma TurnKeepsTable(w: World, s: Pipe, owner: Thread, input: T.Input, outs: seq<FlowEvent>)
    requires TableOk(w, s) && T.Emits(w.cfg, s.table, input, outs)
    requires input.Packet? ==> s.main.Capturing?
    ensures var t := TakeTurn(w, s, owner, input, outs);
      && T.Legal(w.cfg, t.run) && t.table == T.After(w.cfg, t.run) && t.offered == T.Offered(t.run)
      && (!s.main.Capturing? || input.Drain? ==> t.table.flows == map[])
  {
    hide T.Emits, T.After, T.Offered;
    T.AppendTurn(w.cfg, s.run, T.Turn(input, outs));
    if !s.main.Capturing? {
      L.EmptyTableIsSilent(w.cfg, s.table, input, outs);
    }
  }

  lemma TableSteps(w: World, s: Pipe, step: Step)
    requires Inv(w, s) && Enabled(w, s, step) && (step.TakePacket? || step.StartDrain? || step.StartSweep?)
    ensures Inv(w, Apply(w, s, step))
  {
    hide T.Emits, T.Next, T.Legal, T.After, T.Offered, SinkLoopOk, SinkRunOk, QueueOk, TagsOk, CountOk;
    SinkSideKept(w, s, Apply(w, s, step));
    match step
    case TakePacket(p, outs) => TurnKeepsTable(w, s, CaptureThread, T.Packet(p), outs);
    case StartDrain(now, outs) => TurnKeepsTable(w, s, CaptureThread, T.Drain(now), outs);
    case StartSweep(now, outs) => TurnKeepsTable(w, s, TimerThread, T.Sweep(now), outs);
  }

  lemma ControlSteps(w: World, s: Pipe, step: Step)
    requires Inv(w, s) && Enabled(w, s, step)
    requires step.TimerWakes? || step.Unlock? || step.StopTimer? || step.TimerExits? || step.StopSink?
    ensures Inv(w, Apply(w, s, step))
  {
    hide T.Legal, T.After, T.Offered, SinkLoopOk, SinkRunOk, QueueOk, TagsOk, CountOk;
    SinkSideKept(w, s, Apply(w, s, step));
    if step.StopSink? {
      TailLength(w, s);
    }
  }

  lemma TailLength(w: World, s: Pipe)
    requires QueueOk(w, s)
    ensures |s.ring.tailOrder| == |s.ring.accepted| + 1
  {
    R.Lengths(s.ring);
  }

  // ---------------------------------------------------------------- pushing

  /** The ring's part of a step of a pushing thread. */
  lemma ProducerStep(w: World, s: Pipe, a: R.Action<Tagged>)
    requires R.Inv(s.ring) && R.Enabled(s.ring, a)
    requires a.LoadOwnTail? || a.LoadHead? || a.WriteSlot? || a.StoreTail?
    ensures var r := R.Apply(s.ring, a);
      && R.Inv(r) && r.consumer == s.ring.consumer && r.popped == s.ring.popped && r.tailSeen == s.ring.tailSeen
      && r.accepted == s.ring.accepted + (if a.StoreTail? then [s.ring.producer.evt] else [])
  {
    R.StepKeepsInv(s.ring, a);
  }

  /** While a thread holds the mutex, stop has not been requested of the sink. */
  lemma HeldBeforeStop(s: Pipe)
    requires ThreadsOk(s) && s.lock.Held?
    ensures !s.main.StoppingSink?
  {
    match s.lock.owner
    case CaptureThread =>
    case TimerThread =>
  }

  lemma PushKeepsRing(w: World, s: Pipe, a: R.Action<Tagged>)
    requires Inv(w, s) && Enabled(w, s, Push(a))
    ensures var t := Apply(w, s, Push(a));
      QueueOk(w, t) && TableOk(w, t) && SinkLoopOk(t) && SinkRunOk(w, t) && ThreadsOk(t)
  {
    hide T.Legal, T.After, T.Offered, S.Legal, S.After, S.Inv, R.Inv, R.Apply, R.Enabled, R.Rejects, TagsOk, CountOk;
    HeldBeforeStop(s);
    ProducerStep(w, s, a);
  }

  lemma IdsSnoc(xs: seq<Tagged>, x: Tagged)
    ensures Ids(xs + [x]) == Ids(xs) + [x.id]
  {
  }

  lemma PushKeepsTags(w: World, s: Pipe, a: R.Action<Tagged>)
    requires Inv(w, s) && Enabled(w, s, Push(a))
    ensures TagsOk(Apply(w, s, Push(a)))
  {
    hide TableOk, ThreadsOk, SinkLoopOk, SinkRunOk, CountOk, S.Inv, R.Inv, S.Increasing, R.Rejects;
    var t := Apply(w, s, Push(a));
    var ids := Ids(s.ring.accepted);
    assert ids + [] == ids;
    match a
    case LoadOwnTail(x) =>
      assert S.Below(ids, s.next);
      S.IncreasingSnoc(ids, s.next);
    case LoadHead(i) =>
      if R.Rejects(s.ring, i) {
        S.IncreasingPrefix(ids, s.ring.producer.evt.id);
      }
    case WriteSlot =>
    case StoreTail =>
      IdsSnoc(s.ring.accepted, s.ring.producer.evt);
      assert Ids(t.ring.accepted) + [] == Ids(t.ring.accepted);
  }

  lemma PushCountStep(w: World, s: Pipe, a: R.Action<Tagged>, id: nat)
    requires Enabled(w, s, Push(a))
    ensures PushCount(Apply(w, s, Push(a)), id) == PushCount(s, id) + (if a.LoadOwnTail? && id == s.next then 1 else 0)
  {
    hide S.Times, R.Rejects, Ids;
    S.TimesOne(s.next, id);
    if !s.ring.producer.PIdle? {
      S.TimesSnoc(s.rejected, s.ring.producer.evt.id, id);
      S.TimesSnoc(Ids(s.ring.accepted), s.ring.producer.evt.id, id);
      IdsSnoc(s.ring.accepted, s.ring.producer.evt);
    }
  }

  lemma PushKeepsCount(w: World, s: Pipe, a: R.Action<Tagged>)
    requires CountOk(s) && Enabled(w, s, Push(a))
    ensures CountOk(Apply(w, s, Push(a)))
  {
    hide PushCount;
    var t := Apply(w, s, Push(a));
    forall id: nat
      ensures PushCount(t, id) == if id < t.next then 1 else 0
    {
      assert PushCount(s, id) == if id < s.next then 1 else 0;
      PushCountStep(w, s, a, id);
    }
  }

  lemma PushSteps(w: World, s: Pipe, a: R.Action<Tagged>)
    requires Inv(w, s) && Enabled(w, s, Push(a))
    ensures Inv(w, Apply(w, s, Push(a)))
  {
    hide TableOk, ThreadsOk, SinkLoopOk, SinkRunOk, QueueOk, TagsOk, CountOk, Apply, Enabled;
    PushKeepsRing(w, s, a);
    PushKeepsTags(w, s, a);
    PushKeepsCount(w, s, a);
  }

  // ---------------------------------------------------------------- popping and sending

  /** What the sink thread never touches. */
  predicate SameProducerSide(s: Pipe, t: Pipe) {
    && t.run == s.run && t.table == s.table && t.offered == s.offered && t.next == s.next
    && t.lock == s.lock && t.main == s.main && t.timer == s.timer && t.stopTail == s.stopTail
    && t.ring.producer == s.ring.producer && t.ring.accepted == s.ring.accepted && t.rejected == s.rejected
  }

  lemma ProducerSideKept(w: World, s: Pipe, t: Pipe)
    requires Inv(w, s) && SameProducerSide(s, t)
    ensures TableOk(w, t) && ThreadsOk(t) && TagsOk(t) && CountOk(t)
  {
    hide T.Legal, T.After, T.Offered, S.Legal, S.After, S.Inv, S.Times, S.Increasing, R.Inv, TagOk, CountOk;
    CountKept(s, t);
  }

  /** The ring's part of a step of the sink thread. */
  lemma ConsumerStep(w: World, s: Pipe, a: R.Action<Tagged>)
    requires R.Inv(s.ring) && R.Enabled(s.ring, a)
    requires a.LoadOwnHead? || a.LoadTail? || a.ReadSlot? || a.StoreHead? || a.Observe?
    ensures var r := R.Apply(s.ring, a);
      && R.Inv(r) && r.producer == s.ring.producer && r.accepted == s.ring.accepted
      && s.ring.tailSeen <= r.tailSeen <= |r.accepted|
      && r.popped == s.ring.popped + (if a.StoreHead? then [s.ring.consumer.evt] else [])
  {
    R.StepKeepsInv(s.ring, a);
    R.Lengths(s.ring);
    R.Lengths(R.Apply(s.ring, a));
  }

  /** The sink's part. */
  lemma SinkActs(w: World, s: Pipe, a: S.Action<Tagged>)
    requires SinkRunOk(w, s) && S.Inv(w.Ok(), s.sink) && S.Enabled(w.Ok(), s.sink, a)
    ensures var t := SinkStep(w, s, a);
      && S.Inv(w.Ok(), t.sink)
      && S.Legal(w.Ok(), w.retrySize, t.sinkRun) && t.sink == S.After(w.Ok(), w.retrySize, t.sinkRun)
      && (a.PopNothing? || a.Attempt? ==> SL.AtLoopTest(t.sinkRun))
  {
    hide S.Inv;
    S.Extend(w.Ok(), w.retrySize, s.sinkRun, a);
    S.StepKeepsInv(w.Ok(), s.sink, a);
  }

  lemma LookKeepsInv(w: World, s: Pipe, t: Pipe, i: nat)
    requires Inv(w, s) && R.Enabled(s.ring, R.Observe(i))
    requires t == s.(ring := R.Apply(s.ring, R.Observe(i)))
    ensures Inv(w, t)
  {
    hide R.Inv, S.Inv, S.Legal, S.After, TableOk, ThreadsOk, TagsOk, CountOk;
    ConsumerStep(w, s, R.Observe(i));
    ProducerSideKept(w, s, t);
  }

  lemma StopReadKeepsInv(w: World, s: Pipe)
    requires Inv(w, s) && Enabled(w, s, ReadStop(true))
    ensures Inv(w, Apply(w, s, ReadStop(true)))
  {
    hide R.Inv, S.Inv, S.Legal, S.After, TableOk, TagsOk, CountOk;
    R.Lengths(s.ring);
    var i := Max(s.ring.tailSeen, s.stopTail);
    LookKeepsInv(w, s, s.(ring := R.Apply(s.ring, R.Observe(i))), i);
    ProducerSideKept(w, s, Apply(w, s, ReadStop(true)));
  }

  lemma EmptyReadKeepsInv(w: World, s: Pipe, i: nat)
    requires Inv(w, s) && Enabled(w, s, ReadEmpty(i))
    ensures Inv(w, Apply(w, s, ReadEmpty(i)))
  {
    hide R.Inv, S.Inv, S.Legal, S.After, TableOk, ThreadsOk, TagsOk, CountOk;
    R.EmptyIffNothingSeen(s.ring, i);
    R.Lengths(s.ring);
    LookKeepsInv(w, s, s.(ring := R.Apply(s.ring, R.Observe(i))), i);
    ProducerSideKept(w, s, Apply(w, s, ReadEmpty(i)));
  }

  lemma LoopSteps(w: World, s: Pipe, step: Step)
    requires Inv(w, s) && Enabled(w, s, step) && (step.ReadStop? || step.ReadEmpty? || step.Look?)
    ensures Inv(w, Apply(w, s, step))
  {
    hide R.Inv, S.Inv, S.Legal, S.After, TableOk, ThreadsOk, TagsOk, CountOk;
    match step
    case ReadStop(seen) =>
      if seen {
        StopReadKeepsInv(w, s);
      } else {
        ProducerSideKept(w, s, Apply(w, s, step));
      }
    case ReadEmpty(i) => EmptyReadKeepsInv(w, s, i);
    case Look(i) => LookKeepsInv(w, s, Apply(w, s, step), i);
  }

  lemma SinkSteps(w: World, s: Pipe, step: Step)
    requires Inv(w, s) && Enabled(w, s, step) && (step.Retry? || step.Attempt?)
    ensures Inv(w, Apply(w, s, step))
  {
    hide R.Inv, S.Inv, S.Legal, S.After, TableOk, ThreadsOk, TagsOk, CountOk;
    SinkActs(w, s, if step.Retry? then step.r else S.Attempt(step.outcome));
    ProducerSideKept(w, s, Apply(w, s, step));
  }

  lemma PopLoads(w: World, s: Pipe, a: R.Action<Tagged>)
    requires Inv(w, s) && Enabled(w, s, PopStep(a)) && (a.LoadOwnHead? || a.ReadSlot?)
    ensures Inv(w, Apply(w, s, PopStep(a)))
  {
    hide R.Inv, S.Inv, S.Legal, S.After, TableOk, ThreadsOk, TagsOk, CountOk;
    ConsumerStep(w, s, a);
    ProducerSideKept(w, s, Apply(w, s, PopStep(a)));
  }

  lemma PopLooks(w: World, s: Pipe, i: nat)
    requires Inv(w, s) && Enabled(w, s, PopStep(R.LoadTail(i)))
    ensures Inv(w, Apply(w, s, PopStep(R.LoadTail(i))))
  {
    hide R.Inv, S.Inv, S.Legal, S.After, TableOk, ThreadsOk, TagsOk, CountOk;
    ConsumerStep(w, s, R.LoadTail(i));
    if R.FindsNothing(s.ring, i) && s.waited {
      SinkActs(w, s, S.PopNothing);
    }
    ProducerSideKept(w, s, Apply(w, s, PopStep(R.LoadTail(i))));
  }

  lemma PopReleases(w: World, s: Pipe)
    requires Inv(w, s) && Enabled(w, s, PopStep(R.StoreHead))
    ensures Inv(w, Apply(w, s, PopStep(R.StoreHead)))
  {
    hide R.Inv, S.Inv, S.Legal, S.After, TableOk, ThreadsOk, TagsOk, CountOk;
    ConsumerStep(w, s, R.StoreHead);
    SinkActs(w, s, S.Pop(s.ring.consumer.evt));
    ProducerSideKept(w, s, Apply(w, s, PopStep(R.StoreHead)));
  }

  lemma PopSteps(w: World, s: Pipe, a: R.Action<Tagged>)
    requires Inv(w, s) && Enabled(w, s, PopStep(a))
    ensures Inv(w, Apply(w, s, PopStep(a)))
  {
    hide Inv, Apply, R.Enabled, S.Enabled;
    match a
    case LoadTail(i) => PopLooks(w, s, i);
    case StoreHead => PopReleases(w, s);
    case _ => PopLoads(w, s, a);
  }

  lemma StepKeepsInv(w: World, s: Pipe, step: Step)
    requires Inv(w, s) && Enabled(w, s, step)
    ensures Inv(w, Apply(w, s, step))
  {
    hide *;
    match step
    case TakePacket(_, _) => TableSteps(w, s, step);
    case StartDrain(_, _) => TableSteps(w, s, step);
    case StartSweep(_, _) => TableSteps(w, s, step);
    case Push(a) => PushSteps(w, s, a);
    case ReadStop(_) => LoopSteps(w, s, step);
    case ReadEmpty(_) => LoopSteps(w, s, step);
    case Look(_) => LoopSteps(w, s, step);
    case Retry(_) => SinkSteps(w, s, step);
    case Attempt(_) => SinkSteps(w, s, step);
    case PopStep(a) => PopSteps(w, s, a);
    case _ => ControlSteps(w, s, step);
  }

  lemma {:induction false} RunKeepsInv(w: World, s: Pipe, steps: seq<Step>)
    requires Inv(w, s) && Legal(w, s, steps)
    ensures Inv(w, Run(w, s, steps))
    decreases |steps|
  {
    hide Inv, Enabled, Apply;
    if steps != [] {
      StepKeepsInv(w, s, steps[0]);
      RunKeepsInv(w, Apply(w, s, steps[0]), steps[1..]);
    }
  }

  lemma Reached(w: World, blank: Tagged, steps: seq<Step>)
    requires Legal(w, Init(w, blank), steps)
    ensures Inv(w, Run(w, Init(w, blank), steps))
  {
    InitInv(w, blank);
    RunKeepsInv(w, Init(w, blank), steps);
  }

  // ---------------------------------------------------------------- every event is in one place

  lemma TimesConcat(a: seq<nat>, b: seq<nat>, id: nat)
    ensures S.Times(a + b, id) == S.Times(a, id) + S.Times(b, id)
  {
  }

  lemma IdsSplit(xs: seq<Tagged>, n: nat)
    requires n <= |xs|
    ensures Ids(xs) == Ids(xs[..n]) + Ids(xs[n..])
  {
  }

  lemma IdsAtConcat(popped: seq<Tagged>, a: seq<nat>, b: seq<nat>)
    requires S.Below(a, |popped|) && S.Below(b, |popped|)
    ensures S.Below(a + b, |popped|) && IdsAt(popped, a + b) == IdsAt(popped, a) + IdsAt(popped, b)
  {
  }

  lemma HeadPresent(ids: seq<nat>)
    ensures ids != [] ==> S.Times(ids, ids[0]) > 0
  {
  }

  lemma NoneListed(ids: seq<nat>)
    requires forall id: nat :: S.Times(ids, id) == 0
    ensures ids == []
  {
    HeadPresent(ids);
  }

  /** Taking out the one occurrence of the last position leaves the others once each. */
  lemma OncePlaced(places: seq<nat>, a: seq<nat>, b: seq<nat>, n: nat)
    requires places == a + ([n] + b)
    requires forall p: nat :: S.Times(places, p) == if p < n + 1 then 1 else 0
    ensures forall p: nat :: S.Times(a + b, p) == if p < n then 1 else 0
    ensures S.Below(a, n) && S.Below(b, n)
  {
    forall p: nat
      ensures S.Times(a + b, p) == if p < n then 1 else 0
    {
      TimesConcat(a, [n] + b, p);
      TimesConcat([n], b, p);
      TimesConcat(a, b, p);
      S.TimesOne(n, p);
      assert S.Times(places, p) == if p < n + 1 then 1 else 0;
    }
    forall i | 0 <= i < |a|
      ensures a[i] < n
    {
      S.TimesPresent(a + b, a[i]);
      assert a[i] in a + b;
    }
    forall i | 0 <= i < |b|
      ensures b[i] < n
    {
      S.TimesPresent(a + b, b[i]);
      assert b[i] in a + b;
    }
  }

  lemma PlacedSplit(popped: seq<Tagged>, a: seq<nat>, b: seq<nat>, id: nat)
    requires popped != [] && S.Below(a, |popped| - 1) && S.Below(b, |popped| - 1)
    ensures var n := |popped| - 1;
      && S.Below(a + ([n] + b), |popped|) && S.Below(a + b, n)
      && S.Times(IdsAt(popped, a + ([n] + b)), id) ==
         S.Times(IdsAt(popped[..n], a + b), id) + S.Times([popped[n].id], id)
  {
    var n := |popped| - 1;
    IdsAtConcat(popped, a, [n] + b);
    IdsAtConcat(popped, [n], b);
    IdsAtConcat(popped[..n], a, b);
    assert IdsAt(popped[..n], a) == IdsAt(popped, a) && IdsAt(popped[..n], b) == IdsAt(popped, b);
    assert IdsAt(popped, [n]) == [popped[n].id];
    hide S.Times;
    TimesConcat(IdsAt(popped, a), [popped[n].id] + IdsAt(popped, b), id);
    TimesConcat([popped[n].id], IdsAt(popped, b), id);
    TimesConcat(IdsAt(popped, a), IdsAt(popped, b), id);
  }

  lemma SplitAtLast(places: seq<nat>, n: nat) returns (a: seq<nat>, b: seq<nat>)
    requires forall p: nat :: S.Times(places, p) == if p < n + 1 then 1 else 0
    ensures places == a + ([n] + b) && S.Below(a, n) && S.Below(b, n)
    ensures forall p: nat :: S.Times(a + b, p) == if p < n then 1 else 0
  {
    S.TimesPresent(places, n);
    var j :| 0 <= j < |places| && places[j] == n;
    a, b := places[..j], places[j + 1..];
    assert places == a + ([n] + b);
    OncePlaced(places, a, b, n);
  }

  /** Places that name every position once carry the identities of all the events, each once. */
  lemma {:induction false} PlacesCover(popped: seq<Tagged>, places: seq<nat>, id: nat)
    requires S.Below(places, |popped|)
    requires forall p: nat :: S.Times(places, p) == if p < |popped| then 1 else 0
    ensures S.Times(IdsAt(popped, places), id) == S.Times(Ids(popped), id)
    decreases |popped|
  {
    hide S.Times;
    if popped == [] {
      NoneListed(places);
      assert IdsAt(popped, places) == [] && Ids(popped) == [];
    } else {
      var n := |popped| - 1;
      var a, b := SplitAtLast(places, n);
      PlacedSplit(popped, a, b, id);
      PlacesCover(popped[..n], a + b, id);
      IdsSplit(popped, n);
      assert Ids(popped[n..]) == [popped[n].id];
      TimesConcat(Ids(popped[..n]), Ids(popped[n..]), id);
    }
  }

  /** All the places a popped event can be in. */
  function Places(s: S.Sink<Tagged>): seq<nat> {
    S.InHand(s) + s.retry + s.produced + s.discarded + s.dropped
  }

  lemma PlacesOnce(w: World, s: S.Sink<Tagged>)
    requires S.Inv(w.Ok(), s)
    ensures forall p: nat :: S.Times(Places(s), p) == if p < |s.popped| then 1 else 0
    ensures S.Below(Places(s), |s.popped|)
  {
    var hand, retry, produced, discarded, dropped := S.InHand(s), s.retry, s.produced, s.discarded, s.dropped;
    forall p: nat
      ensures S.Times(Places(s), p) == if p < |s.popped| then 1 else 0
    {
      TimesConcat(hand + retry + produced + discarded, dropped, p);
      TimesConcat(hand + retry + produced, discarded, p);
      TimesConcat(hand + retry, produced, p);
      TimesConcat(hand, retry, p);
      assert S.TimesOver(s, p) == if p < |s.popped| then 1 else 0;
    }
    forall i | 0 <= i < |Places(s)|
      ensures Places(s)[i] < |s.popped|
    {
      S.TimesPresent(Places(s), Places(s)[i]);
    }
  }

  lemma PlacesParts(s: S.Sink<Tagged>, id: nat)
    requires S.Below(Places(s), |s.popped|)
    ensures S.Below(S.InHand(s), |s.popped|) && S.Below(s.retry, |s.popped|) && S.Below(s.produced, |s.popped|)
    ensures S.Below(s.discarded, |s.popped|) && S.Below(s.dropped, |s.popped|)
    ensures S.Times(IdsAt(s.popped, Places(s)), id) ==
            S.Times(IdsAt(s.popped, S.InHand(s)), id) + S.Times(IdsAt(s.popped, s.retry), id)
            + S.Times(IdsAt(s.popped, s.produced), id) + S.Times(IdsAt(s.popped, s.discarded), id)
            + S.Times(IdsAt(s.popped, s.dropped), id)
  {
    hide S.Times, S.Below;
    var n, popped := |s.popped|, s.popped;
    var hand, retry, produced, discarded, dropped := S.InHand(s), s.retry, s.produced, s.discarded, s.dropped;
    S.BelowParts(hand + retry + produced + discarded, dropped, n);
    S.BelowParts(hand + retry + produced, discarded, n);
    S.BelowParts(hand + retry, produced, n);
    S.BelowParts(hand, retry, n);
    IdsAtConcat(popped, hand + retry + produced + discarded, dropped);
    IdsAtConcat(popped, hand + retry + produced, discarded);
    IdsAtConcat(popped, hand + retry, produced);
    IdsAtConcat(popped, hand, retry);
    TimesConcat(IdsAt(popped, hand + retry + produced + discarded), IdsAt(popped, dropped), id);
    TimesConcat(IdsAt(popped, hand + retry + produced), IdsAt(popped, discarded), id);
    TimesConcat(IdsAt(popped, hand + retry), IdsAt(popped, produced), id);
    TimesConcat(IdsAt(popped, hand), IdsAt(popped, retry), id);
  }

  /** How often an offered event is found over all the places of the pipeline. */
  ghost function Found(s: Pipe, id: nat): nat
    requires S.Below(Places(s.sink), |s.sink.popped|) && |s.ring.popped| <= |s.ring.accepted|
  {
    PlacesParts(s.sink, id);
    var popped := s.sink.popped;
    S.Times(s.rejected, id)                                        // refused by a full ring
    + S.Times(InPush(s.ring.producer), id)                         // being pushed
    + S.Times(Ids(s.ring.accepted[|s.ring.popped|..]), id)         // in the ring
    + S.Times(IdsAt(popped, S.InHand(s.sink)), id)                 // in the sink's hand
    + S.Times(IdsAt(popped, s.sink.retry), id)                     // in the retry buffer
    + S.Times(IdsAt(popped, s.sink.produced), id)                  // handed to Kafka
    + S.Times(IdsAt(popped, s.sink.discarded), id)                 // discarded as unserializable
    + S.Times(IdsAt(popped, s.sink.dropped), id)                   // dropped by a full retry buffer
  }

  /** In every reachable interleaving each event offered so far is in exactly one place, once;
      the place holds the event that was offered. */
  lemma Conservation(w: World, blank: Tagged, steps: seq<Step>, id: nat)
    requires Legal(w, Init(w, blank), steps)
    ensures var s := Run(w, Init(w, blank), steps);
      && S.Below(Places(s.sink), |s.sink.popped|) && |s.ring.popped| <= |s.ring.accepted|
      && Found(s, id) == (if id < s.next then 1 else 0)
      && s.next <= |s.offered| && s.offered == T.Offered(s.run)
      && (forall x | x in s.ring.accepted :: x.id < |s.offered| && x.evt == s.offered[x.id])
      && (!s.ring.producer.PIdle? ==>
            s.ring.producer.evt.id < |s.offered| && s.ring.producer.evt.evt == s.offered[s.ring.producer.evt.id])
      && s.sink.popped <= s.ring.accepted
  {
    hide Legal, Run;
    Reached(w, blank, steps);
    var s := Run(w, Init(w, blank), steps);
    hide T.Legal, T.After, T.Offered, S.Times, S.Increasing;
    FoundOnce(w, s, id);
  }

  lemma FoundOnce(w: World, s: Pipe, id: nat)
    requires Inv(w, s)
    ensures S.Below(Places(s.sink), |s.sink.popped|) && |s.ring.popped| <= |s.ring.accepted|
    ensures Found(s, id) == if id < s.next then 1 else 0
  {
    assert s.ring.popped == s.ring.accepted[..|s.ring.popped|];
    hide T.Legal, T.After, T.Offered, S.Times, S.Increasing, S.Inv, S.Below, R.Inv;
    hide TableOk, TagsOk, ThreadsOk, SinkLoopOk;
    PlacesOnce(w, s.sink);
    PlacesCover(s.sink.popped, Places(s.sink), id);
    PlacesParts(s.sink, id);
    R.Lengths(s.ring);
    IdsSplit(s.ring.accepted, |s.ring.popped|);
    TimesConcat(Ids(s.ring.popped), Ids(s.ring.accepted[|s.ring.popped|..]), id);
    assert PushCount(s, id) == if id < s.next then 1 else 0;
  }

  // ---------------------------------------------------------------- order from table to Kafka

  lemma OrderReflects(ids: seq<nat>, x: nat, y: nat)
    requires S.Increasing(ids) && x < |ids| && y < |ids|
    ensures ids[x] < ids[y] <==> x < y
  {
  }

  /** Picking from an increasing sequence keeps the order of the positions picked. */
  lemma SelectedOrder(ids: seq<nat>, places: seq<nat>, picked: seq<nat>)
    requires S.Increasing(ids) && S.Below(places, |ids|)
    requires |picked| == |places| && forall i | 0 <= i < |places| :: picked[i] == ids[places[i]]
    ensures S.Increasing(picked) <==> S.Increasing(places)
  {
    forall i, j | 0 <= i < j < |places|
      ensures picked[i] < picked[j] <==> places[i] < places[j]
    {
      OrderReflects(ids, places[i], places[j]);
    }
  }

  lemma PoppedInOrder(w: World, p: Pipe)
    requires Inv(w, p)
    ensures S.Increasing(Ids(p.sink.popped))
  {
    hide TableOk, ThreadsOk, SinkLoopOk, SinkRunOk, CountOk, S.Inv;
    assert p.ring.popped <= p.ring.accepted;
    var all := Ids(p.ring.accepted) + InPush(p.ring.producer);
    forall i, j | 0 <= i < j < |p.ring.popped|
      ensures Ids(p.sink.popped)[i] < Ids(p.sink.popped)[j]
    {
      assert all[i] == p.ring.popped[i].id && all[j] == p.ring.popped[j].id;
    }
  }

  /** Kafka gets events in the order the table offered them, with those waiting to be retried to
      follow, exactly when no fresh event was sent past a blocked retry. */
  lemma DeliveryOrder(w: World, blank: Tagged, steps: seq<Step>)
    requires Legal(w, Init(w, blank), steps)
    ensures var s := Run(w, Init(w, blank), steps).sink;
      && S.Below(s.produced + s.retry, |s.popped|)
      && (S.Increasing(IdsAt(s.popped, s.produced + s.retry)) <==> !s.overtook)
  {
    Reached(w, blank, steps);
    hide Legal, Run, TableOk, ThreadsOk, SinkLoopOk, SinkRunOk, TagsOk, CountOk;
    var p := Run(w, Init(w, blank), steps);
    var s := p.sink;
    PoppedInOrder(w, p);
    hide S.Increasing;
    SelectedOrder(Ids(s.popped), s.produced + s.retry, IdsAt(s.popped, s.produced + s.retry));
  }

  // ---------------------------------------------------------------- shutdown

  /** When the sink thread has exited, nothing is left to push, the ring is empty and every event
      it accepted was popped; every flow opened has ended, so each offered event was rejected,
      sent, discarded, dropped, or is still waiting in the retry buffer. */
  lemma ShutdownClosure(w: World, blank: Tagged, steps: seq<Step>)
    requires Legal(w, Init(w, blank), steps) && Run(w, Init(w, blank), steps).loop.SinkExited?
    ensures var s := Run(w, Init(w, blank), steps);
      && s.next == |s.offered| && s.ring.producer.PIdle? && s.sink.popped == s.ring.accepted
      && S.InHand(s.sink) == []
      && s.table.flows == map[] && s.table.created == s.table.expiredIdle + s.table.expiredTcp
      && forall k :: L.Lifecycle(T.EventsOf(s.offered, k), false)
  {
    Reached(w, blank, steps);
    hide T.Legal, T.Offered, S.Times, S.Increasing;
    var s := Run(w, Init(w, blank), steps);
    match s.lock {
      case Free =>
      case Held(owner) =>
        match owner
        case CaptureThread =>
        case TimerThread =>
    }
    assert s.ring.popped == s.ring.accepted[..|s.ring.popped|];
    T.AlwaysWellKept(w.cfg, s.run);
    forall k
      ensures L.Lifecycle(T.EventsOf(s.offered, k), false)
    {
      L.EveryFlowHasLifecycle(w.cfg, s.run, k);
    }
  }

  /** The last of increasing numbers that name everything up to n once, and nothing else, is n. */
  lemma CoverEnds(ids: seq<nat>, n: nat)
    requires S.Increasing(ids)
    requires forall id: nat :: S.Times(ids, id) == if id < n + 1 then 1 else 0
    ensures ids != [] && ids[|ids| - 1] == n
  {
    hide S.Times;
    S.TimesPresent(ids, n);
    var j :| 0 <= j < |ids| && ids[j] == n;
    S.TimesPresent(ids, ids[|ids| - 1]);
    assert S.Times(ids, ids[|ids| - 1]) == if ids[|ids| - 1] < n + 1 then 1 else 0;
  }

  lemma CoverShorter(earlier: seq<nat>, n: nat)
    requires forall id: nat :: S.Times(earlier + [n], id) == if id < n + 1 then 1 else 0
    ensures forall id: nat :: S.Times(earlier, id) == if id < n then 1 else 0
  {
    hide S.Times;
    forall id: nat
      ensures S.Times(earlier, id) == if id < n then 1 else 0
    {
      S.TimesSnoc(earlier, n, id);
      S.TimesOne(n, id);
      assert S.Times(earlier + [n], id) == if id < n + 1 then 1 else 0;
    }
  }

  /** Identities in order that name everything below n once are 0, 1, ..., n-1. */
  lemma {:induction false} IncreasingCover(ids: seq<nat>, n: nat)
    requires S.Increasing(ids)
    requires forall id: nat :: S.Times(ids, id) == if id < n then 1 else 0
    ensures |ids| == n && forall i | 0 <= i < n :: ids[i] == i
    decreases n
  {
    hide S.Times, S.Increasing;
    if n == 0 {
      NoneListed(ids);
    } else {
      CoverEnds(ids, n - 1);
      var earlier := ids[..|ids| - 1];
      assert ids == earlier + [n - 1];
      CoverShorter(earlier, n - 1);
      S.IncreasingPrefix(earlier, n - 1);
      IncreasingCover(earlier, n - 1);
    }
  }

  lemma AllSentInOrder(w: World, s: S.Sink<Tagged>)
    requires S.Inv(w.Ok(), s) && S.InHand(s) == []
    requires s.retry == [] && s.discarded == [] && s.dropped == [] && !s.overtook
    ensures |s.produced| == |s.popped| && forall i | 0 <= i < |s.popped| :: s.produced[i] == i
  {
    PlacesOnce(w, s);
    assert Places(s) == s.produced;
    assert s.produced + s.retry == s.produced;
    IncreasingCover(s.produced, |s.popped|);
  }

  lemma AllAcceptedInOrder(w: World, s: Pipe)
    requires Inv(w, s) && s.ring.producer.PIdle? && s.rejected == []
    ensures |s.ring.accepted| == s.next && forall i | 0 <= i < s.next :: s.ring.accepted[i].id == i
  {
    hide TableOk, ThreadsOk, SinkLoopOk, QueueOk, S.Times, S.Increasing;
    var ids := Ids(s.ring.accepted);
    assert ids + InPush(s.ring.producer) == ids;
    forall id: nat
      ensures S.Times(ids, id) == if id < s.next then 1 else 0
    {
      assert PushCount(s, id) == if id < s.next then 1 else 0;
      S.TimesOne(0, id);
    }
    IncreasingCover(ids, s.next);
    forall i | 0 <= i < s.next
      ensures s.ring.accepted[i].id == i
    {
      assert ids[i] == i;
    }
  }

  /** A run in which the ring never filled, everything serialized, nothing was dropped or left to
      retry and nothing overtook has sent exactly the table's events, in the table's order. */
  lemma CleanRunDeliversAll(w: World, blank: Tagged, steps: seq<Step>)
    requires Legal(w, Init(w, blank), steps) && Run(w, Init(w, blank), steps).loop.SinkExited?
    requires var s := Run(w, Init(w, blank), steps);
      s.rejected == [] && s.sink.retry == [] && s.sink.discarded == [] && s.sink.dropped == [] && !s.sink.overtook
    ensures var s := Run(w, Init(w, blank), steps);
      && |s.sink.produced| == |s.offered|
      && forall i | 0 <= i < |s.offered| ::
           s.sink.produced[i] < |s.sink.popped| && s.sink.popped[s.sink.produced[i]].evt == s.offered[i]
  {
    Reached(w, blank, steps);
    ShutdownClosure(w, blank, steps);
    var s := Run(w, Init(w, blank), steps);
    hide Legal, Run, TableOk, ThreadsOk, SinkLoopOk, CountOk, S.Inv, R.Inv;
    AllSentInOrder(w, s.sink);
    AllAcceptedInOrder(w, s);
  }
}
