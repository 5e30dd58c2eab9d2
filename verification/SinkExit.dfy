/** How the sink thread comes to an end once it has read that stop is requested: in every
    interleaving, one event per iteration, in a bounded number of steps, and never stuck. */
module SinkExit {
  import opened Numbers
  import opened Pipeline
  import R = RingProtocol
  import S = SinkProtocol

  /** Events the ring still holds. */
  function Queued(s: Pipe): int {
    |s.ring.accepted| - |s.ring.popped|
  }

  /** The step completes an iteration of the outer loop. */
  ghost predicate EndsIteration(w: World, s: Pipe, step: Step)
    requires Enabled(w, s, step)
  {
    s.loop.Body? && Apply(w, s, step).loop.AtStop?
  }

  ghost function Iterations(w: World, s: Pipe, steps: seq<Step>): nat
    requires Legal(w, s, steps)
    decreases |steps|
  {
    if steps == [] then 0
    else (if EndsIteration(w, s, steps[0]) then 1 else 0) + Iterations(w, Apply(w, s, steps[0]), steps[1..])
  }

  function InHand(s: Pipe): nat {
    if s.sink.phase.Holding? then 1 else 0
  }

  /** Inside an iteration there is an event to pop until it is popped. */
  ghost predicate Stopping(w: World, s: Pipe) {
    && Inv(w, s) && s.stopRead && !s.waited
    && (s.loop.Body? && !s.sink.phase.Holding? ==> Queued(s) > 0)
  }

  lemma StoppingBegins(w: World, s: Pipe)
    requires Inv(w, s) && s.stopRead && !s.loop.Body?
    ensures Stopping(w, s)
  {
    hide TableOk, ThreadsOk, SinkRunOk, QueueOk, TagsOk, CountOk;
  }

  /** Only the sink thread still moves. */
  predicate BySink(step: Step) {
    step.ReadStop? || step.ReadEmpty? || step.Retry? || step.PopStep? || step.Look? || step.Attempt?
  }

  lemma OnlySinkMoves(w: World, s: Pipe, step: Step)
    requires Stopping(w, s) && Enabled(w, s, step)
    ensures BySink(step) && !step.Look?
  {
    hide TableOk, SinkRunOk, QueueOk, TagsOk, CountOk, S.Enabled, R.Enabled;
    match s.lock
    case Free =>
    case Held(owner) =>
      match owner
      case CaptureThread =>
      case TimerThread =>
  }

  /** With the whole tail seen and an event queued, the load that could find nothing does not. */
  lemma PopFindsEvent(ring: R.Ring<Tagged>, i: nat)
    requires R.Inv(ring) && R.Enabled(ring, R.LoadTail(i))
    requires ring.tailSeen == |ring.accepted| && |ring.popped| < |ring.accepted|
    ensures !R.FindsNothing(ring, i)
  {
    R.Lengths(ring);
    R.NothingFoundIff(ring, i);
  }

  /** What one step does to the count of events popped and not in hand. */
  ghost predicate OneMore(w: World, s: Pipe, step: Step)
    requires Enabled(w, s, step)
  {
    var t := Apply(w, s, step);
    && t.ring.accepted == s.ring.accepted
    && |t.ring.popped| - InHand(t) == |s.ring.popped| - InHand(s) + (if EndsIteration(w, s, step) then 1 else 0)
  }

  lemma PopProgress(w: World, s: Pipe, a: R.Action<Tagged>)
    requires Stopping(w, s) && Enabled(w, s, PopStep(a))
    ensures Stopping(w, Apply(w, s, PopStep(a))) && OneMore(w, s, PopStep(a))
  {
    hide R.Inv, S.Inv, R.Apply, R.Enabled, R.FindsNothing, S.Enabled;
    hide TableOk, ThreadsOk, SinkRunOk, TagsOk, CountOk;
    StepKeepsInv(w, s, PopStep(a));
    ConsumerStep(w, s, a);
    if a.LoadTail? {
      PopFindsEvent(s.ring, a.i);
    }
  }

  lemma LoopProgress(w: World, s: Pipe, step: Step)
    requires Stopping(w, s) && Enabled(w, s, step)
    requires step.ReadStop? || step.ReadEmpty? || step.Retry? || step.Attempt?
    ensures Stopping(w, Apply(w, s, step)) && OneMore(w, s, step)
  {
    hide R.Inv, S.Inv;
    hide TableOk, ThreadsOk, SinkRunOk, TagsOk, CountOk;
    StepKeepsInv(w, s, step);
    R.Lengths(s.ring);
    if step.ReadEmpty? {
      R.EmptyIffNothingSeen(s.ring, step.i);
    }
  }

  lemma StoppingStep(w: World, s: Pipe, step: Step)
    requires Stopping(w, s) && Enabled(w, s, step)
    ensures Stopping(w, Apply(w, s, step)) && OneMore(w, s, step)
  {
    OnlySinkMoves(w, s, step);
    hide *;
    hide Apply, Enabled;
    if step.PopStep? {
      PopProgress(w, s, step.a);
    } else {
      LoopProgress(w, s, step);
    }
  }

  lemma {:induction false} StoppingRun(w: World, s: Pipe, steps: seq<Step>)
    requires Stopping(w, s) && Legal(w, s, steps)
    ensures var t := Run(w, s, steps);
      && Stopping(w, t) && t.ring.accepted == s.ring.accepted && (forall step | step in steps :: BySink(step))
      && |t.ring.popped| - InHand(t) == |s.ring.popped| - InHand(s) + Iterations(w, s, steps)
    decreases |steps|
  {
    if steps != [] {
      hide Stopping, Enabled, Apply, InHand, EndsIteration, BySink;
      OnlySinkMoves(w, s, steps[0]);
      StoppingStep(w, s, steps[0]);
      StoppingRun(w, Apply(w, s, steps[0]), steps[1..]);
    }
  }

  // ---------------------------------------------------------------- a bound on the steps left

  /** Steps until the next event is popped. */
  function StepsToPop(s: Pipe): nat {
    match s.ring.consumer
    case CTaken(_, _) => 4
    case CReady(_) => 5
    case CHead(_) => 6
    case CIdle => if s.sink.phase.Retrying? then 8 + |s.sink.retry| else 7
  }

  /** The most steps that can still be taken: each queued event costs its retries and its pop. */
  function StepsLeft(w: World, s: Pipe): int {
    var all := Queued(s) * (Max(w.retrySize, 0) + 10);
    match s.loop
    case SinkExited => all
    case AtEmpty => all + 1
    case AtStop => all + 2
    case Body => if s.sink.phase.Holding? then all + 3 else all - (Max(w.retrySize, 0) + 10) + StepsToPop(s)
  }

  lemma OneFewer(q: int, c: int)
    ensures (q - 1) * c == q * c - c
  {
  }

  lemma BufferBounded(w: World, s: Pipe)
    requires Inv(w, s)
    ensures |s.sink.retry| <= Max(w.retrySize, 0)
  {
    S.AlwaysInv(w.Ok(), w.retrySize, s.sinkRun);
    S.CapacityFixed(w.Ok(), w.retrySize, s.sinkRun);
    hide TableOk, ThreadsOk, SinkLoopOk, QueueOk, TagsOk, CountOk, S.Ledger, S.Order, S.Legal, S.After;
  }

  lemma PopTakesAStep(w: World, s: Pipe, a: R.Action<Tagged>)
    requires Stopping(w, s) && Enabled(w, s, PopStep(a))
    ensures StepsLeft(w, Apply(w, s, PopStep(a))) < StepsLeft(w, s)
  {
    hide R.Inv, S.Inv, TableOk, ThreadsOk, SinkRunOk, TagsOk, CountOk;
    OneFewer(Queued(s), Max(w.retrySize, 0) + 10);
    if a.LoadTail? {
      PopFindsEvent(s.ring, a.i);
    }
  }

  lemma TestTakesAStep(w: World, s: Pipe, step: Step)
    requires Stopping(w, s) && Enabled(w, s, step) && (step.ReadStop? || step.ReadEmpty?)
    ensures StepsLeft(w, Apply(w, s, step)) < StepsLeft(w, s)
  {
    hide R.Inv, S.Inv, TableOk, ThreadsOk, SinkRunOk, TagsOk, CountOk;
    BufferBounded(w, s);
  }

  lemma RetryTakesAStep(w: World, s: Pipe, a: S.Action<Tagged>)
    requires Stopping(w, s) && Enabled(w, s, Retry(a))
    ensures StepsLeft(w, Apply(w, s, Retry(a))) < StepsLeft(w, s)
  {
    hide R.Inv, S.Inv, TableOk, ThreadsOk, SinkRunOk, TagsOk, CountOk;
  }

  lemma AttemptTakesAStep(w: World, s: Pipe, outcome: S.Outcome)
    requires Stopping(w, s) && Enabled(w, s, Attempt(outcome))
    ensures StepsLeft(w, Apply(w, s, Attempt(outcome))) < StepsLeft(w, s)
  {
    hide R.Inv, S.Inv, TableOk, ThreadsOk, SinkRunOk, TagsOk, CountOk;
  }

  lemma {:induction false} StepsBounded(w: World, s: Pipe, steps: seq<Step>)
    requires Stopping(w, s) && Legal(w, s, steps)
    ensures |steps| <= StepsLeft(w, s) - StepsLeft(w, Run(w, s, steps))
    decreases |steps|
  {
    if steps != [] {
      hide Stopping, Enabled, Apply, StepsLeft;
      StoppingStep(w, s, steps[0]);
      TakesAStep(w, s, steps[0]);
      StepsBounded(w, Apply(w, s, steps[0]), steps[1..]);
    }
  }

  lemma TakesAStep(w: World, s: Pipe, step: Step)
    requires Stopping(w, s) && Enabled(w, s, step)
    ensures StepsLeft(w, Apply(w, s, step)) < StepsLeft(w, s)
  {
    OnlySinkMoves(w, s, step);
    hide Stopping, Enabled, Apply, StepsLeft;
    match step
    case PopStep(a) => PopTakesAStep(w, s, a);
    case Retry(a) => RetryTakesAStep(w, s, a);
    case Attempt(outcome) => AttemptTakesAStep(w, s, outcome);
    case _ => TestTakesAStep(w, s, step);
  }

  lemma NonNegative(q: int, c: int)
    requires q >= 0 && c >= 0
    ensures q * c >= 0
  {
  }

  lemma NothingOwed(w: World, s: Pipe)
    requires Stopping(w, s)
    ensures StepsLeft(w, s) >= 0
  {
    hide R.Inv, S.Inv, TableOk, ThreadsOk, SinkRunOk, TagsOk, CountOk, Max;
    R.Lengths(s.ring);
    var q, c := Queued(s), Max(w.retrySize, 0) + 10;
    assert c >= 0 by {
      MaxFloor(w.retrySize);
    }
    OneFewer(q, c);
    NonNegative(q, c);
    if q > 0 {
      NonNegative(q - 1, c);
    }
  }

  lemma MaxFloor(x: int)
    ensures Max(x, 0) >= 0
  {
  }

  // ---------------------------------------------------------------- never stuck

  /** The sink's next step, when the producer refuses all it is handed. */
  function NextStep(w: World, s: Pipe): Step {
    match s.loop
    case AtStop => ReadStop(true)
    case SinkExited => ReadStop(true)
    case AtEmpty => ReadEmpty(s.ring.tailSeen)
    case Body =>
      match s.sink.phase
      case Retrying => Retry(if s.sink.retry == [] then S.RetryDone else S.RetryRefused)
      case Popping(_) =>
        PopStep(match s.ring.consumer
                case CIdle => R.LoadOwnHead
                case CHead(_) => R.LoadTail(s.ring.tailSeen)
                case CReady(_) => R.ReadSlot
                case CTaken(_, _) => R.StoreHead)
      case Holding(id, _) =>
        Attempt(if id < |s.sink.popped| && w.serializable(s.sink.popped[id].evt) then S.Refused else S.Unserializable)
  }

  lemma PopEnabled(w: World, s: Pipe)
    requires Stopping(w, s) && s.loop.Body? && s.sink.phase.Popping?
    ensures Enabled(w, s, NextStep(w, s))
  {
    hide S.Inv, TableOk, ThreadsOk, SinkRunOk, TagsOk, CountOk;
    R.Lengths(s.ring);
  }

  lemma SinkEnabled(w: World, s: Pipe)
    requires Stopping(w, s) && s.loop.Body? && !s.sink.phase.Popping?
    ensures Enabled(w, s, NextStep(w, s))
  {
    hide R.Inv, TableOk, ThreadsOk, SinkRunOk, TagsOk, CountOk, S.Ledger, S.Order;
  }

  lemma TestEnabled(w: World, s: Pipe)
    requires Stopping(w, s) && (s.loop.AtStop? || s.loop.AtEmpty?)
    ensures Enabled(w, s, NextStep(w, s))
  {
    hide R.Inv, S.Inv, TableOk, SinkRunOk, TagsOk, CountOk;
    R.Lengths(s.ring);
  }

  lemma NeverStuck(w: World, s: Pipe)
    requires Stopping(w, s) && !s.loop.SinkExited?
    ensures Enabled(w, s, NextStep(w, s))
  {
    hide Stopping, Enabled, NextStep;
    if s.loop.Body? {
      if s.sink.phase.Popping? {
        PopEnabled(w, s);
      } else {
        SinkEnabled(w, s);
      }
    } else {
      TestEnabled(w, s);
    }
  }

  // ---------------------------------------------------------------- the end

  lemma AtLoopNothingInHand(w: World, s: Pipe)
    requires Stopping(w, s)
    ensures !s.loop.Body? ==> InHand(s) == 0
    ensures s.loop.SinkExited? ==> Queued(s) == 0
  {
    hide TableOk, ThreadsOk, SinkRunOk, QueueOk, TagsOk, CountOk;
  }

  lemma FinishesFrom(w: World, s: Pipe, after: seq<Step>)
    requires Stopping(w, s) && s.loop.AtEmpty? && Legal(w, s, after)
    ensures var t := Run(w, s, after);
      && (forall step | step in after :: BySink(step))
      && t.ring.accepted == s.ring.accepted
      && |t.ring.popped| == |s.ring.popped| + Iterations(w, s, after) + InHand(t)
      && |after| <= Queued(s) * (Max(w.retrySize, 0) + 10) + 1
      && (t.loop.SinkExited? ==> Iterations(w, s, after) == Queued(s))
      && (!t.loop.SinkExited? ==> Enabled(w, t, NextStep(w, t)))
  {
    hide Stopping, Enabled, NextStep, Legal, Run, Iterations;
    StoppingRun(w, s, after);
    StepsBounded(w, s, after);
    var t := Run(w, s, after);
    NothingOwed(w, t);
    AtLoopNothingInHand(w, s);
    AtLoopNothingInHand(w, t);
    if !t.loop.SinkExited? {
      NeverStuck(w, t);
    }
  }

  /** From the moment the sink thread reads that stop is requested, in whatever way the steps go on
      and whatever the producer answers: only the sink moves; each complete iteration pops one
      event; no more steps follow than the queued events and the retry buffer account for; and
      another can be taken until the sink exits, which it does after as many complete iterations
      as events were queued. */
  lemma SinkFinishes(w: World, blank: Tagged, before: seq<Step>, after: seq<Step>)
    requires Legal(w, Init(w, blank), before)
    requires var s := Run(w, Init(w, blank), before);
      s.loop.AtEmpty? && Legal(w, s, after)
    ensures var s := Run(w, Init(w, blank), before);
      var t := Run(w, s, after);
      && (forall step | step in after :: BySink(step))
      && t.ring.accepted == s.ring.accepted
      && |t.ring.popped| == |s.ring.popped| + Iterations(w, s, after) + InHand(t)
      && |after| <= Queued(s) * (Max(w.retrySize, 0) + 10) + 1
      && (t.loop.SinkExited? ==> Iterations(w, s, after) == Queued(s))
      && (!t.loop.SinkExited? ==> exists step :: Enabled(w, t, step))
  {
    hide Enabled, NextStep, Legal, Run, Iterations;
    Reached(w, blank, before);
    var s := Run(w, Init(w, blank), before);
    StopWasRead(w, s);
    StoppingBegins(w, s);
    hide Stopping;
    FinishesFrom(w, s, after);
  }

  lemma StopWasRead(w: World, s: Pipe)
    requires Inv(w, s) && s.loop.AtEmpty?
    ensures s.stopRead
  {
    hide TableOk, ThreadsOk, SinkRunOk, QueueOk, TagsOk, CountOk;
  }
}
