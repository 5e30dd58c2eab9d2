/** The sink thread as a transition system: the retry drain, the pop, and one fresh attempt per
    iteration, with produce succeeding or failing as it likes.

    Popped events are named by their position in the popped sequence, so that the places an
    event can end up in are sequences of positions. */
module SinkProtocol {
  import opened Numbers

  datatype Phase =
    | Retrying                        // draining the retry buffer
    | Popping(blocked: bool)          // blocked: the drain stopped on a failed produce
    | Holding(id: nat, blocked: bool) // about to attempt a popped event

  datatype Outcome = Sent | Refused | Unserializable

  datatype Action<T> =
    | RetrySent
    | RetryRefused
    | RetryDiscarded
    | RetryDone
    | PopNothing
    | Pop(evt: T)
    | Attempt(outcome: Outcome)

  datatype Sink<T> = Sink(
    capacity: int,
    phase: Phase,
    popped: seq<T>,
    retry: seq<nat>,     // waiting in the retry buffer, front first
    produced: seq<nat>,  // handed to Kafka, in order
    direct: seq<nat>,    // of those, at the first attempt
    retried: seq<nat>,   // of those, from the retry buffer
    discarded: seq<nat>, // could not be serialized
    dropped: seq<nat>,   // found the retry buffer full
    refusals: nat,       // produce calls that failed
    overtook: bool)      // a fresh event was sent while the retry drain was blocked

  function Init<T>(capacity: int): Sink<T> {
    Sink(capacity, Retrying, [], [], [], [], [], [], [], 0, false)
  }

  predicate Enabled<T>(ok: T -> bool, s: Sink<T>, a: Action<T>) {
    var front := s.phase.Retrying? && s.retry != [] && s.retry[0] < |s.popped|;
    match a
    case RetrySent => front && ok(s.popped[s.retry[0]])
    case RetryRefused => front && ok(s.popped[s.retry[0]])
    case RetryDiscarded => front && !ok(s.popped[s.retry[0]])
    case RetryDone => s.phase.Retrying? && s.retry == []
    case PopNothing => s.phase.Popping?
    case Pop(_) => s.phase.Popping?
    case Attempt(outcome) =>
      s.phase.Holding? && s.phase.id < |s.popped| && (outcome.Unserializable? <==> !ok(s.popped[s.phase.id]))
  }

  function Apply<T>(ok: T -> bool, s: Sink<T>, a: Action<T>): Sink<T>
    requires Enabled(ok, s, a)
  {
    match a
    case RetrySent =>
      s.(retry := s.retry[1..], produced := s.produced + [s.retry[0]], retried := s.retried + [s.retry[0]])
    case RetryRefused => s.(phase := Popping(true), refusals := s.refusals + 1)
    case RetryDiscarded => s.(retry := s.retry[1..], discarded := s.discarded + [s.retry[0]])
    case RetryDone => s.(phase := Popping(false))
    case PopNothing => s.(phase := Retrying)
    case Pop(evt) => s.(phase := Holding(|s.popped|, s.phase.blocked), popped := s.popped + [evt])
    case Attempt(outcome) =>
      var id, next := s.phase.id, s.(phase := Retrying);
      match outcome
      case Sent =>
        next.(produced := s.produced + [id], direct := s.direct + [id], overtook := s.overtook || s.phase.blocked)
      case Refused =>
        if |s.retry| < s.capacity then next.(retry := s.retry + [id], refusals := s.refusals + 1)
        else next.(dropped := s.dropped + [id], refusals := s.refusals + 1)
      case Unserializable => next.(discarded := s.discarded + [id])
  }

  predicate Legal<T>(ok: T -> bool, capacity: int, actions: seq<Action<T>>)
    decreases |actions|, 0
  {
    actions != [] ==>
      var earlier := actions[..|actions| - 1];
      Legal(ok, capacity, earlier) && Enabled(ok, After(ok, capacity, earlier), actions[|actions| - 1])
  }

  function After<T>(ok: T -> bool, capacity: int, actions: seq<Action<T>>): Sink<T>
    requires Legal(ok, capacity, actions)
    decreases |actions|, 1
  {
    if actions == [] then Init(capacity)
    else Apply(ok, After(ok, capacity, actions[..|actions| - 1]), actions[|actions| - 1])
  }

  lemma Extend<T>(ok: T -> bool, capacity: int, actions: seq<Action<T>>, a: Action<T>)
    requires Legal(ok, capacity, actions) && Enabled(ok, After(ok, capacity, actions), a)
    ensures Legal(ok, capacity, actions + [a])
    ensures After(ok, capacity, actions + [a]) == Apply(ok, After(ok, capacity, actions), a)
  {
    assert (actions + [a])[..|actions|] == actions;
  }

  // ---------------------------------------------------------------- the invariant

  function InHand<T>(s: Sink<T>): seq<nat> {
    if s.phase.Holding? then [s.phase.id] else []
  }

  predicate Increasing(ids: seq<nat>) {
    forall i, j | 0 <= i < j < |ids| :: ids[i] < ids[j]
  }

  predicate Below(ids: seq<nat>, n: nat) {
    forall i | 0 <= i < |ids| :: ids[i] < n
  }

  /** merged interleaves a and b, keeping the order of each. */
  predicate IsMerge(merged: seq<nat>, a: seq<nat>, b: seq<nat>) {
    if merged == [] then a == [] && b == []
    else
      var last, earlier := merged[|merged| - 1], merged[..|merged| - 1];
      || (a != [] && a[|a| - 1] == last && IsMerge(earlier, a[..|a| - 1], b))
      || (b != [] && b[|b| - 1] == last && IsMerge(earlier, a, b[..|b| - 1]))
  }

  /** How often a position occurs. */
  function Times(ids: seq<nat>, id: nat): nat {
    multiset(ids)[id]
  }

  /** How often a position occurs over all the places a popped event can be in. */
  function TimesOver<T>(s: Sink<T>, id: nat): nat {
    Times(InHand(s), id) + Times(s.retry, id) + Times(s.produced, id) + Times(s.discarded, id) + Times(s.dropped, id)
  }

  /** Every popped event is in exactly one place, once. */
  ghost predicate Ledger<T>(s: Sink<T>) {
    forall id: nat ::
      TimesOver(s, id) == if id < |s.popped| then 1 else 0
  }

  ghost predicate Shape<T>(ok: T -> bool, s: Sink<T>) {
    && |s.retry| <= Max(s.capacity, 0)
    && Below(s.retry, |s.popped|)
    && (forall i | 0 <= i < |s.retry| :: ok(s.popped[s.retry[i]]))
    && (s.phase.Popping? || s.phase.Holding? ==> (s.phase.blocked <==> s.retry != []))
    && (s.phase.Holding? ==> s.phase.id + 1 == |s.popped|)
  }

  /** Positions older than the event in hand. */
  function Settled<T>(s: Sink<T>): nat {
    if s.phase.Holding? then s.phase.id else |s.popped|
  }

  ghost predicate Order<T>(s: Sink<T>) {
    && Below(s.produced + s.retry, Settled(s))
    && Increasing(s.direct) && Below(s.direct, Settled(s))
    && Increasing(s.retried + s.retry) && Below(s.retried, Settled(s))
    && IsMerge(s.produced, s.direct, s.retried)
    && (Increasing(s.produced + s.retry) <==> !s.overtook)
  }

  ghost predicate Inv<T>(ok: T -> bool, s: Sink<T>) {
    Ledger(s) && Shape(ok, s) && Order(s)
  }

  lemma TimesSnoc(ids: seq<nat>, x: nat, id: nat)
    ensures Times(ids + [x], id) == Times(ids, id) + Times([x], id)
  {
  }

  lemma TimesRest(ids: seq<nat>, id: nat)
    requires ids != []
    ensures Times(ids, id) == Times([ids[0]], id) + Times(ids[1..], id)
  {
    assert ids == [ids[0]] + ids[1..];
  }

  lemma TimesOne(x: nat, id: nat)
    ensures Times([x], id) == if id == x then 1 else 0
    ensures Times([], id) == 0
  {
  }

  lemma LedgerStep<T>(ok: T -> bool, s: Sink<T>, a: Action<T>)
    requires Ledger(s) && Enabled(ok, s, a)
    ensures Ledger(Apply(ok, s, a))
  {
    hide Times;
    var t := Apply(ok, s, a);
    forall id: nat
      ensures TimesOver(t, id) == if id < |t.popped| then 1 else 0
    {
      assert TimesOver(s, id) == if id < |s.popped| then 1 else 0;
      TimesOne(|s.popped|, id);
      match a
      case RetrySent =>
        TimesRest(s.retry, id);
        TimesSnoc(s.produced, s.retry[0], id);
      case RetryDiscarded =>
        TimesRest(s.retry, id);
        TimesSnoc(s.discarded, s.retry[0], id);
      case Attempt(_) =>
        TimesSnoc(s.produced, s.phase.id, id);
        TimesSnoc(s.retry, s.phase.id, id);
        TimesSnoc(s.dropped, s.phase.id, id);
        TimesSnoc(s.discarded, s.phase.id, id);
      case _ =>
    }
  }

  lemma ShapeStep<T>(ok: T -> bool, s: Sink<T>, a: Action<T>)
    requires Shape(ok, s) && Enabled(ok, s, a)
    ensures Shape(ok, Apply(ok, s, a))
  {
  }

  lemma MergeSnoc(merged: seq<nat>, a: seq<nat>, b: seq<nat>, x: nat)
    requires IsMerge(merged, a, b)
    ensures IsMerge(merged + [x], a + [x], b) && IsMerge(merged + [x], a, b + [x])
  {
    assert (merged + [x])[..|merged|] == merged && (a + [x])[..|a|] == a && (b + [x])[..|b|] == b;
  }

  lemma Rotate(a: seq<nat>, b: seq<nat>)
    requires b != []
    ensures (a + [b[0]]) + b[1..] == a + b
  {
  }

  lemma RetrySentOrder<T>(ok: T -> bool, s: Sink<T>)
    requires Order(s) && Shape(ok, s) && Enabled(ok, s, RetrySent)
    ensures Order(Apply(ok, s, RetrySent))
  {
    Rotate(s.produced, s.retry);
    Rotate(s.retried, s.retry);
    MergeSnoc(s.produced, s.direct, s.retried, s.retry[0]);
    assert (s.retried + s.retry)[|s.retried|] == s.retry[0];
  }

  lemma IncreasingSnoc(ids: seq<nat>, x: nat)
    requires Below(ids, x)
    ensures Increasing(ids + [x]) <==> Increasing(ids)
  {
    if Increasing(ids + [x]) {
      IncreasingPrefix(ids, x);
    }
  }

  lemma IncreasingPrefix(ids: seq<nat>, x: nat)
    requires Increasing(ids + [x])
    ensures Increasing(ids)
  {
    forall i, j | 0 <= i < j < |ids|
      ensures ids[i] < ids[j]
    {
      assert (ids + [x])[i] < (ids + [x])[j];
    }
  }

  lemma Overtaken(a: seq<nat>, x: nat, b: seq<nat>)
    requires b != [] && Below(b, x)
    ensures !Increasing((a + [x]) + b)
  {
    var all := (a + [x]) + b;
    assert all[|a|] == x && all[|a| + 1] == b[0];
  }

  lemma BelowParts(a: seq<nat>, b: seq<nat>, n: nat)
    ensures Below(a + b, n) <==> Below(a, n) && Below(b, n)
  {
    if Below(a + b, n) {
      forall i | 0 <= i < |a|
        ensures a[i] < n
      {
        assert (a + b)[i] < n;
      }
      forall i | 0 <= i < |b|
        ensures b[i] < n
      {
        assert (a + b)[|a| + i] < n;
      }
    }
  }

  lemma BelowSnoc(ids: seq<nat>, x: nat)
    requires Below(ids, x)
    ensures Below(ids + [x], x + 1) && Below(ids, x + 1)
  {
  }

  /** A fresh event sent past a non-empty retry buffer breaks the order for good. */
  lemma SentInOrder(produced: seq<nat>, id: nat, retry: seq<nat>)
    requires Below(produced + retry, id)
    ensures Increasing((produced + [id]) + retry) <==> Increasing(produced + retry) && retry == []
  {
    hide Increasing;
    BelowParts(produced, retry, id);
    if retry == [] {
      assert produced + retry == produced && (produced + [id]) + retry == produced + [id];
      IncreasingSnoc(produced, id);
    } else {
      Overtaken(produced, id, retry);
    }
  }

  lemma SentBelow(produced: seq<nat>, retry: seq<nat>, direct: seq<nat>, retried: seq<nat>, id: nat)
    requires Below(produced + retry, id) && Below(direct, id) && Below(retried, id)
    ensures Below((produced + [id]) + retry, id + 1) && Below(direct + [id], id + 1) && Below(retried, id + 1)
  {
    hide Below;
    BelowSnoc(direct, id);
    BelowSnoc(retried, id);
    BelowParts(produced, retry, id);
    BelowSnoc(produced, id);
    BelowSnoc(retry, id);
    BelowParts(produced + [id], retry, id + 1);
  }

  lemma SentOrder<T>(ok: T -> bool, s: Sink<T>)
    requires Order(s) && Shape(ok, s) && Enabled(ok, s, Attempt(Sent))
    ensures Order(Apply(ok, s, Attempt(Sent)))
  {
    hide IsMerge, Increasing, Below;
    var id := s.phase.id;
    MergeSnoc(s.produced, s.direct, s.retried, id);
    IncreasingSnoc(s.direct, id);
    SentBelow(s.produced, s.retry, s.direct, s.retried, id);
    SentInOrder(s.produced, id, s.retry);
  }

  lemma RefusedOrder<T>(ok: T -> bool, s: Sink<T>)
    requires Order(s) && Shape(ok, s) && Enabled(ok, s, Attempt(Refused))
    ensures Order(Apply(ok, s, Attempt(Refused)))
  {
    var id := s.phase.id;
    if |s.retry| < s.capacity {
      assert s.produced + (s.retry + [id]) == (s.produced + s.retry) + [id];
      assert s.retried + (s.retry + [id]) == (s.retried + s.retry) + [id];
      assert Below(s.retry, id) by {
        forall i | 0 <= i < |s.retry|
          ensures s.retry[i] < id
        {
          assert (s.produced + s.retry)[|s.produced| + i] == s.retry[i];
        }
      }
      IncreasingSnoc(s.produced + s.retry, id);
      IncreasingSnoc(s.retried + s.retry, id);
    }
  }

  lemma StepKeepsInv<T>(ok: T -> bool, s: Sink<T>, a: Action<T>)
    requires Inv(ok, s) && Enabled(ok, s, a)
    ensures Inv(ok, Apply(ok, s, a)) && !a.RetryDiscarded?
  {
    LedgerStep(ok, s, a);
    ShapeStep(ok, s, a);
    match a
    case RetrySent => RetrySentOrder(ok, s);
    case Attempt(outcome) =>
      match outcome {
        case Sent => SentOrder(ok, s);
        case Refused => RefusedOrder(ok, s);
        case Unserializable =>
      }
    case _ =>
  }

  lemma {:induction false} AlwaysInv<T>(ok: T -> bool, capacity: int, actions: seq<Action<T>>)
    requires Legal(ok, capacity, actions)
    ensures Inv(ok, After(ok, capacity, actions))
  {
    if actions != [] {
      AlwaysInv(ok, capacity, actions[..|actions| - 1]);
      StepKeepsInv(ok, After(ok, capacity, actions[..|actions| - 1]), actions[|actions| - 1]);
    }
  }

  // ---------------------------------------------------------------- what every run satisfies

  /** Each popped event is in exactly one place, none is in two, the retry buffer stays within
      its size, and an event taken from it always serializes. */
  lemma Conserved<T>(ok: T -> bool, capacity: int, actions: seq<Action<T>>)
    requires Legal(ok, capacity, actions)
    ensures var s := After(ok, capacity, actions);
      && (forall id: nat ::
            TimesOver(s, id) == if id < |s.popped| then 1 else 0)
      && |s.retry| <= Max(capacity, 0)
      && !Enabled(ok, s, RetryDiscarded)
  {
    AlwaysInv(ok, capacity, actions);
    CapacityFixed(ok, capacity, actions);
  }

  lemma {:induction false} CapacityFixed<T>(ok: T -> bool, capacity: int, actions: seq<Action<T>>)
    requires Legal(ok, capacity, actions)
    ensures After(ok, capacity, actions).capacity == capacity
  {
    if actions != [] {
      CapacityFixed(ok, capacity, actions[..|actions| - 1]);
    }
  }

  /** What was sent, followed by what still waits to be retried, is in popped order exactly when
      no fresh event was sent in an iteration whose retry drain had stopped on a failure. When
      nothing waits, that decides whether the sent sequence itself is in popped order. */
  lemma InOrderIffNoOvertake<T>(ok: T -> bool, capacity: int, actions: seq<Action<T>>)
    requires Legal(ok, capacity, actions)
    ensures var s := After(ok, capacity, actions);
      && (Increasing(s.produced + s.retry) <==> !s.overtook)
      && (s.retry == [] ==> (Increasing(s.produced) <==> !s.overtook))
      && (!s.overtook ==> Increasing(s.produced))
  {
    AlwaysInv(ok, capacity, actions);
    var s := After(ok, capacity, actions);
    assert s.retry == [] ==> s.produced + s.retry == s.produced;
    if Increasing(s.produced + s.retry) {
      forall i, j | 0 <= i < j < |s.produced|
        ensures s.produced[i] < s.produced[j]
      {
        assert (s.produced + s.retry)[i] < (s.produced + s.retry)[j];
      }
    }
  }

  /** Overtaking or not, what was sent interleaves two sequences in popped order: the events sent
      at once and the events sent from the retry buffer. */
  lemma MergeOfOrdered<T>(ok: T -> bool, capacity: int, actions: seq<Action<T>>)
    requires Legal(ok, capacity, actions)
    ensures var s := After(ok, capacity, actions);
      IsMerge(s.produced, s.direct, s.retried) && Increasing(s.direct) && Increasing(s.retried)
  {
    AlwaysInv(ok, capacity, actions);
    var s := After(ok, capacity, actions);
    forall i, j | 0 <= i < j < |s.retried|
      ensures s.retried[i] < s.retried[j]
    {
      assert (s.retried + s.retry)[i] < (s.retried + s.retry)[j];
    }
  }

  /** A run whose first event was refused and waits to be retried. */
  lemma RefusedRun<T>(ok: T -> bool, a: T) returns (actions: seq<Action<T>>)
    requires ok(a)
    ensures Legal(ok, 1, actions) && actions == [RetryDone, Pop(a), Attempt(Refused)]
    ensures After(ok, 1, actions) == Init<T>(1).(popped := [a], retry := [0], refusals := 1)
  {
    actions := [];
    assert Legal(ok, 1, actions) && After(ok, 1, actions) == Init(1);
    hide Legal, After;
    Extend(ok, 1, actions, RetryDone);
    actions := actions + [RetryDone];
    Extend(ok, 1, actions, Pop(a));
    actions := actions + [Pop(a)];
    Extend(ok, 1, actions, Attempt(Refused));
    actions := actions + [Attempt(Refused)];
  }

  /** Two events popped, the first refused twice, the second about to be attempted. */
  lemma BlockedRun<T>(ok: T -> bool, a: T, b: T) returns (actions: seq<Action<T>>)
    requires ok(a) && ok(b)
    ensures Legal(ok, 1, actions)
    ensures After(ok, 1, actions) ==
            Init<T>(1).(phase := Holding(1, true), popped := [a, b], retry := [0], refusals := 2)
  {
    actions := RefusedRun(ok, a);
    hide Legal, After;
    Extend(ok, 1, actions, RetryRefused);
    actions := actions + [RetryRefused];
    Extend(ok, 1, actions, Pop(b));
    actions := actions + [Pop(b)];
  }

  /** First-in first-out delivery is false: the second event popped can be sent first. */
  lemma FifoFails<T>(ok: T -> bool, a: T, b: T)
    requires ok(a) && ok(b)
    ensures exists actions: seq<Action<T>> ::
      Legal(ok, 1, actions) && After(ok, 1, actions).popped == [a, b] && After(ok, 1, actions).produced == [1, 0]
  {
    var actions := BlockedRun(ok, a, b);
    hide Legal, After;
    Extend(ok, 1, actions, Attempt(Sent));
    actions := actions + [Attempt(Sent)];
    Extend(ok, 1, actions, RetrySent);
    actions := actions + [RetrySent];
    assert After(ok, 1, actions).produced == [1, 0];
  }

  /** The loop can end with an event still waiting to be retried: it tests the queue, not the
      retry buffer. */
  lemma EventMayBeLeftOver<T>(ok: T -> bool, a: T)
    requires ok(a)
    ensures exists actions: seq<Action<T>> ::
      && Legal(ok, 1, actions) && After(ok, 1, actions).phase.Retrying?
      && After(ok, 1, actions).popped == [a] && After(ok, 1, actions).retry == [0]
  {
    var actions := RefusedRun(ok, a);
    assert After(ok, 1, actions).retry == [0];
  }

  lemma TimesPresent(ids: seq<nat>, id: nat)
    ensures Times(ids, id) > 0 <==> id in ids
  {
  }

  /** Between iterations a position is in one of four places if it was popped, else in none. */
  lemma Whereabouts<T>(s: Sink<T>, id: nat)
    requires Ledger(s) && s.phase.Retrying?
    ensures id < |s.popped| <==> id in s.retry || id in s.produced || id in s.discarded || id in s.dropped
    ensures id in s.retry || id in s.dropped ==> id !in s.produced && id !in s.discarded
  {
    hide Times;
    TimesOne(0, id);
    assert TimesOver(s, id) == if id < |s.popped| then 1 else 0;
    TimesPresent(s.retry, id);
    TimesPresent(s.produced, id);
    TimesPresent(s.discarded, id);
    TimesPresent(s.dropped, id);
  }
}
