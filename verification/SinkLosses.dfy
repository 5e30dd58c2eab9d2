/** What the sink thread drops and what it leaves behind, told by the producer's answers alone. */
module SinkLosses {
  import opened Numbers
  import opened SinkProtocol

  // ---------------------------------------------------------------- the loop's test

  /** The outer loop tests its condition at the start and at the end of each iteration. */
  predicate AtLoopTest<T>(actions: seq<Action<T>>) {
    actions == [] || actions[|actions| - 1].PopNothing? || actions[|actions| - 1].Attempt?
  }

  /** The last iteration drained the retry buffer to the end, and its fresh attempt, if it made
      one, was not refused, or was refused with no buffer to wait in. */
  predicate EndsClean<T>(capacity: int, actions: seq<Action<T>>) {
    var n := |actions|;
    || n == 0
    || (n >= 2 && actions[n - 2].RetryDone? && actions[n - 1].PopNothing?)
    || (&& n >= 3 && actions[n - 3].RetryDone? && actions[n - 2].Pop?
        && actions[n - 1].Attempt? && (actions[n - 1].outcome.Refused? ==> capacity <= 0))
  }

  /** The last actions of a run, and with them the phase they lead to. */
  lemma PhaseFromLast<T>(ok: T -> bool, capacity: int, actions: seq<Action<T>>)
    requires Legal(ok, capacity, actions)
    ensures var s, n := After(ok, capacity, actions), |actions|;
      && (s.phase.Popping? ==>
            n >= 1 && (actions[n - 1].RetryDone? <==> !s.phase.blocked))
      && (s.phase.Holding? ==>
            n >= 2 && actions[n - 1].Pop? && (actions[n - 2].RetryDone? <==> !s.phase.blocked))
  {
    if actions != [] {
      var earlier := actions[..|actions| - 1];
      if After(ok, capacity, earlier).phase.Popping? {
        assert earlier != [] && earlier[|earlier| - 1] == actions[|actions| - 2];
      }
    }
  }

  /** Ending an iteration leaves nothing waiting when nothing did and nothing came to wait. */
  lemma IterationEnds<T>(ok: T -> bool, s: Sink<T>, a: Action<T>)
    requires Shape(ok, s) && Enabled(ok, s, a) && (a.PopNothing? || a.Attempt?)
    ensures Apply(ok, s, a).phase.Retrying?
    ensures Apply(ok, s, a).retry == [] <==>
            !s.phase.blocked && (a.Attempt? && a.outcome.Refused? ==> s.capacity <= 0)
  {
  }

  /** When the loop tests its condition, nothing waits to be retried exactly when the iteration
      just finished ended clean. */
  lemma NothingLeftIff<T>(ok: T -> bool, capacity: int, actions: seq<Action<T>>)
    requires Legal(ok, capacity, actions) && AtLoopTest(actions)
    ensures After(ok, capacity, actions).phase.Retrying?
    ensures After(ok, capacity, actions).retry == [] <==> EndsClean(capacity, actions)
  {
    if actions != [] {
      var earlier, last := actions[..|actions| - 1], actions[|actions| - 1];
      var s := After(ok, capacity, earlier);
      AlwaysInv(ok, capacity, earlier);
      CapacityFixed(ok, capacity, earlier);
      PhaseFromLast(ok, capacity, earlier);
      IterationEnds(ok, s, last);
      assert Enabled(ok, s, last) && After(ok, capacity, actions) == Apply(ok, s, last);
      hide Ledger, Shape, Order, Legal, After, Apply;
      assert |actions| >= 2 ==> actions[|actions| - 2] == earlier[|earlier| - 1];
      assert |actions| >= 3 ==> actions[|actions| - 3] == earlier[|earlier| - 2];
    }
  }

  // ---------------------------------------------------------------- the full buffer

  /** How many events wait to be retried: one fewer for each retry that succeeded, one more for
      each fresh attempt that was refused while there was room. */
  function Backlog<T>(capacity: int, actions: seq<Action<T>>): int {
    if actions == [] then 0
    else
      var before := Backlog(capacity, actions[..|actions| - 1]);
      match actions[|actions| - 1]
      case RetrySent => before - 1
      case RetryDiscarded => before - 1
      case Attempt(outcome) => if outcome.Refused? && before < capacity then before + 1 else before
      case _ => before
  }

  lemma {:induction false} BacklogIsRetry<T>(ok: T -> bool, capacity: int, actions: seq<Action<T>>)
    requires Legal(ok, capacity, actions)
    ensures |After(ok, capacity, actions).retry| == Backlog(capacity, actions)
  {
    if actions != [] {
      BacklogIsRetry(ok, capacity, actions[..|actions| - 1]);
      CapacityFixed(ok, capacity, actions[..|actions| - 1]);
    }
  }

  /** Action j is a refusal that finds no room. */
  predicate RefusedFull<T>(capacity: int, actions: seq<Action<T>>, j: nat)
    requires j < |actions|
  {
    actions[j] == Attempt(Refused) && Backlog(capacity, actions[..j]) >= capacity
  }

  predicate NeverRefusedFull<T>(capacity: int, actions: seq<Action<T>>) {
    forall j | 0 <= j < |actions| :: !RefusedFull(capacity, actions, j)
  }

  lemma NeverRefusedFullSnoc<T>(capacity: int, actions: seq<Action<T>>)
    requires actions != []
    ensures var n := |actions| - 1;
      NeverRefusedFull(capacity, actions) <==>
      NeverRefusedFull(capacity, actions[..n]) && !RefusedFull(capacity, actions, n)
  {
    var earlier := actions[..|actions| - 1];
    forall j | 0 <= j < |earlier|
      ensures RefusedFull(capacity, earlier, j) <==> RefusedFull(capacity, actions, j)
    {
      assert earlier[..j] == actions[..j];
    }
  }

  /** Nothing was dropped exactly when the producer never refused a fresh event while as many
      were waiting as may wait. */
  lemma {:induction false} NothingDroppedIff<T>(ok: T -> bool, capacity: int, actions: seq<Action<T>>)
    requires Legal(ok, capacity, actions)
    ensures After(ok, capacity, actions).dropped == [] <==> NeverRefusedFull(capacity, actions)
  {
    if actions != [] {
      var earlier, last := actions[..|actions| - 1], actions[|actions| - 1];
      NothingDroppedIff(ok, capacity, earlier);
      NeverRefusedFullSnoc(capacity, actions);
      BacklogIsRetry(ok, capacity, earlier);
      CapacityFixed(ok, capacity, earlier);
      DropStep(ok, After(ok, capacity, earlier), last);
      hide Apply, Enabled, NeverRefusedFull, Backlog;
    }
  }

  lemma DropStep<T>(ok: T -> bool, s: Sink<T>, a: Action<T>)
    requires Enabled(ok, s, a)
    ensures Apply(ok, s, a).dropped == [] <==> s.dropped == [] && !(a == Attempt(Refused) && |s.retry| >= s.capacity)
  {
  }

  /** A refusal with the buffer full as the design document has it: the oldest event is dropped
      and the new one waits. */
  function OldestDropped<T>(s: Sink<T>): Sink<T>
    requires s.phase.Holding?
  {
    var waiting := s.retry + [s.phase.id];
    s.(phase := Retrying, retry := waiting[1..], dropped := s.dropped + [waiting[0]], refusals := s.refusals + 1)
  }

  lemma LastsDiffer(a: seq<nat>, x: nat, y: nat)
    ensures a + [x] == a + [y] <==> x == y
  {
    assert (a + [x])[|a|] == x && (a + [y])[|a|] == y;
  }

  /** With the oldest dropped instead, the sink would be in the same state only if none waited. */
  lemma DroppedAsDocumentedIff<T>(ok: T -> bool, s: Sink<T>)
    requires Enabled(ok, s, Attempt(Refused)) && |s.retry| >= s.capacity && Below(s.retry, s.phase.id)
    ensures Apply(ok, s, Attempt(Refused)) == OldestDropped(s) <==> s.retry == []
  {
    var id := s.phase.id;
    LastsDiffer(s.dropped, id, (s.retry + [id])[0]);
    if s.retry == [] {
      assert s.retry + [id] == [id] && [id][1..] == [];
    } else {
      assert (s.retry + [id])[0] == s.retry[0] < id;
    }
  }

  /** The code drops the event in hand, which is newer than all that wait, and leaves those
      waiting. That is what the document says exactly when no event may wait at all. */
  lemma FullBufferDropsNewest<T>(ok: T -> bool, capacity: int, actions: seq<Action<T>>)
    requires Legal(ok, capacity, actions)
    requires Enabled(ok, After(ok, capacity, actions), Attempt(Refused))
    requires |After(ok, capacity, actions).retry| >= capacity
    ensures var s := After(ok, capacity, actions);
      var t := Apply(ok, s, Attempt(Refused));
      && t.retry == s.retry && t.dropped == s.dropped + [s.phase.id] && Below(s.retry, s.phase.id)
      && (t == OldestDropped(s) <==> capacity <= 0)
  {
    AlwaysInv(ok, capacity, actions);
    CapacityFixed(ok, capacity, actions);
    var s := After(ok, capacity, actions);
    BelowParts(s.produced, s.retry, s.phase.id);
    hide Legal, After, Ledger, IsMerge, Increasing, Below, OldestDropped;
    DroppedAsDocumentedIff(ok, s);
  }

  /** With room for one, the newer of two events is dropped while the older waits. */
  lemma NewerDropped<T>(ok: T -> bool, a: T, b: T)
    requires ok(a) && ok(b)
    ensures exists actions: seq<Action<T>> ::
      && Legal(ok, 1, actions) && After(ok, 1, actions).popped == [a, b]
      && After(ok, 1, actions).retry == [0] && After(ok, 1, actions).dropped == [1]
  {
    var actions := BlockedRun(ok, a, b);
    hide Legal, After;
    Extend(ok, 1, actions, Attempt(Refused));
    actions := actions + [Attempt(Refused)];
    assert After(ok, 1, actions).dropped == [1];
  }

  // ---------------------------------------------------------------- nothing lost

  /** What was sent serializes and what was discarded does not. */
  ghost predicate Sorted<T>(ok: T -> bool, s: Sink<T>) {
    && (forall id | id in s.produced :: id < |s.popped| && ok(s.popped[id]))
    && (forall id | id in s.discarded :: id < |s.popped| && !ok(s.popped[id]))
  }

  lemma SortedSnoc<T>(ok: T -> bool, popped: seq<T>, ids: seq<nat>, id: nat, wanted: bool)
    requires forall i | i in ids :: i < |popped| && ok(popped[i]) == wanted
    requires id < |popped| && ok(popped[id]) == wanted
    ensures forall i | i in ids + [id] :: i < |popped| && ok(popped[i]) == wanted
  {
  }

  lemma SortedStep<T>(ok: T -> bool, s: Sink<T>, a: Action<T>)
    requires Sorted(ok, s) && Enabled(ok, s, a)
    ensures Sorted(ok, Apply(ok, s, a))
  {
    match a
    case RetrySent => SortedSnoc(ok, s.popped, s.produced, s.retry[0], true);
    case RetryDiscarded => SortedSnoc(ok, s.popped, s.discarded, s.retry[0], false);
    case Attempt(outcome) =>
      SortedSnoc(ok, s.popped, if outcome.Unserializable? then s.discarded else s.produced, s.phase.id,
                 !outcome.Unserializable?);
    case _ =>
  }

  lemma {:induction false} AlwaysSorted<T>(ok: T -> bool, capacity: int, actions: seq<Action<T>>)
    requires Legal(ok, capacity, actions)
    ensures Sorted(ok, After(ok, capacity, actions))
  {
    if actions != [] {
      hide Sorted, Apply, Enabled;
      AlwaysSorted(ok, capacity, actions[..|actions| - 1]);
      SortedStep(ok, After(ok, capacity, actions[..|actions| - 1]), actions[|actions| - 1]);
    } else {
      assert Sorted(ok, Init(capacity));
    }
  }

  lemma SettledIff<T>(s: Sink<T>)
    requires Ledger(s) && s.phase.Retrying?
    ensures (forall id: nat | id < |s.popped| :: id in s.produced || id in s.discarded) <==>
            s.retry == [] && s.dropped == []
  {
    hide Ledger;
    if s.retry == [] && s.dropped == [] {
      forall id: nat | id < |s.popped|
        ensures id in s.produced || id in s.discarded
      {
        Whereabouts(s, id);
      }
    } else {
      Whereabouts(s, if s.retry != [] then s.retry[0] else s.dropped[0]);
    }
  }

  /** When the loop tests its condition, every popped event has been sent or discarded exactly
      when the last iteration ended clean and the producer never refused a fresh event with the
      buffer full; every one has been sent exactly when, besides, all of them serialize. */
  lemma AllDeliveredIff<T>(ok: T -> bool, capacity: int, actions: seq<Action<T>>)
    requires Legal(ok, capacity, actions) && AtLoopTest(actions)
    ensures var s := After(ok, capacity, actions);
      var clean := EndsClean(capacity, actions) && NeverRefusedFull(capacity, actions);
      && ((forall id: nat | id < |s.popped| :: id in s.produced || id in s.discarded) <==> clean)
      && ((forall id: nat | id < |s.popped| :: id in s.produced) <==> clean && forall x | x in s.popped :: ok(x))
  {
    AlwaysInv(ok, capacity, actions);
    AlwaysSorted(ok, capacity, actions);
    NothingLeftIff(ok, capacity, actions);
    NothingDroppedIff(ok, capacity, actions);
    var s := After(ok, capacity, actions);
    SettledIff(s);
    hide Ledger, Shape, Order, Legal, After, EndsClean, NeverRefusedFull;
    if forall id: nat | id < |s.popped| :: id in s.produced {
      assert forall x | x in s.popped :: ok(x);
    } else if forall id: nat | id < |s.popped| :: id in s.produced || id in s.discarded {
      var id: nat :| id < |s.popped| && id !in s.produced;
      assert s.popped[id] in s.popped;
    }
  }
}
