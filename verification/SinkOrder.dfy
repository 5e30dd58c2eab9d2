/** The order in which Kafka gets a chosen part of the events, such as those of one flow. */
module SinkOrder {
  import opened SinkProtocol

  predicate Belongs<T>(mine: T -> bool, popped: seq<T>, id: nat) {
    id < |popped| && mine(popped[id])
  }

  /** The positions whose events are mine, in order. */
  function Mine<T>(mine: T -> bool, popped: seq<T>, ids: seq<nat>): seq<nat> {
    if ids == [] then []
    else
      var last := ids[|ids| - 1];
      Mine(mine, popped, ids[..|ids| - 1]) + (if Belongs(mine, popped, last) then [last] else [])
  }

  /** The step sends a fresh event of mine while another of mine waits to be retried. */
  predicate Overtakes<T>(mine: T -> bool, s: Sink<T>, a: Action<T>) {
    && a == Attempt(Sent) && s.phase.Holding?
    && Belongs(mine, s.popped, s.phase.id) && Mine(mine, s.popped, s.retry) != []
  }

  /** The step sends an event of mine from the retry buffer. */
  predicate Retries<T>(mine: T -> bool, s: Sink<T>, a: Action<T>) {
    a == RetrySent && s.retry != [] && Belongs(mine, s.popped, s.retry[0])
  }

  /** Some event of mine was sent at its first attempt while another of mine waited. */
  predicate Overtook<T>(ok: T -> bool, capacity: int, mine: T -> bool, actions: seq<Action<T>>)
    requires Legal(ok, capacity, actions)
  {
    && actions != []
    && var earlier := actions[..|actions| - 1];
       || Overtook(ok, capacity, mine, earlier)
       || Overtakes(mine, After(ok, capacity, earlier), actions[|actions| - 1])
  }

  /** After that, some event of mine was sent from the retry buffer. */
  predicate LateRetry<T>(ok: T -> bool, capacity: int, mine: T -> bool, actions: seq<Action<T>>)
    requires Legal(ok, capacity, actions)
  {
    && actions != []
    && var earlier := actions[..|actions| - 1];
       || LateRetry(ok, capacity, mine, earlier)
       || (Overtook(ok, capacity, mine, earlier)
           && Retries(mine, After(ok, capacity, earlier), actions[|actions| - 1]))
  }

  // ---------------------------------------------------------------- picking out

  lemma {:induction false} MineConcat<T>(mine: T -> bool, popped: seq<T>, a: seq<nat>, b: seq<nat>)
    ensures Mine(mine, popped, a + b) == Mine(mine, popped, a) + Mine(mine, popped, b)
  {
    if b == [] {
      assert a + b == a;
    } else {
      assert (a + b)[..|a + b| - 1] == a + b[..|b| - 1];
      MineConcat(mine, popped, a, b[..|b| - 1]);
    }
  }

  lemma MineOne<T>(mine: T -> bool, popped: seq<T>, id: nat)
    ensures Mine(mine, popped, [id]) == if Belongs(mine, popped, id) then [id] else []
  {
    assert [id][..0] == [];
  }

  lemma {:induction false} MineStable<T>(mine: T -> bool, popped: seq<T>, x: T, ids: seq<nat>)
    requires Below(ids, |popped|)
    ensures Mine(mine, popped + [x], ids) == Mine(mine, popped, ids)
  {
    if ids != [] {
      MineStable(mine, popped, x, ids[..|ids| - 1]);
    }
  }

  lemma {:induction false} MineBelow<T>(mine: T -> bool, popped: seq<T>, ids: seq<nat>, n: nat)
    requires Below(ids, n)
    ensures Below(Mine(mine, popped, ids), n)
  {
    if ids != [] {
      MineBelow(mine, popped, ids[..|ids| - 1], n);
    }
  }

  lemma {:induction false} MineIncreasing<T>(mine: T -> bool, popped: seq<T>, ids: seq<nat>)
    requires Increasing(ids)
    ensures Increasing(Mine(mine, popped, ids))
  {
    if ids != [] {
      var earlier, last := ids[..|ids| - 1], ids[|ids| - 1];
      MineIncreasing(mine, popped, earlier);
      MineBelow(mine, popped, earlier, last);
      hide Increasing;
      IncreasingSnoc(Mine(mine, popped, earlier), last);
      assert Mine(mine, popped, earlier) + [] == Mine(mine, popped, earlier);
    }
  }

  lemma {:induction false} MineAll<T>(mine: T -> bool, popped: seq<T>, ids: seq<nat>)
    requires Below(ids, |popped|) && forall x :: mine(x)
    ensures Mine(mine, popped, ids) == ids
  {
    if ids != [] {
      MineAll(mine, popped, ids[..|ids| - 1]);
    }
  }

  // ---------------------------------------------------------------- one step

  /** My events sent, in order. */
  function Out<T>(mine: T -> bool, s: Sink<T>): seq<nat> {
    Mine(mine, s.popped, s.produced)
  }

  /** My events sent, and behind them those waiting to be retried. */
  function Line<T>(mine: T -> bool, s: Sink<T>): seq<nat> {
    Mine(mine, s.popped, s.produced + s.retry)
  }

  lemma LineParts<T>(mine: T -> bool, s: Sink<T>)
    ensures Line(mine, s) == Out(mine, s) + Mine(mine, s.popped, s.retry)
  {
    MineConcat(mine, s.popped, s.produced, s.retry);
  }

  lemma MineSnoc<T>(mine: T -> bool, popped: seq<T>, ids: seq<nat>, id: nat)
    ensures Mine(mine, popped, ids + [id]) == Mine(mine, popped, ids) + (if Belongs(mine, popped, id) then [id] else [])
  {
    MineConcat(mine, popped, ids, [id]);
    MineOne(mine, popped, id);
  }

  /** A fresh event, if it is mine, joins those sent, before those waiting. */
  lemma SentJoins(out: seq<nat>, joining: seq<nat>, waiting: seq<nat>, id: nat)
    requires Below(out + waiting, id) && (joining == [] || joining == [id])
    ensures Increasing((out + joining) + waiting) <==> Increasing(out + waiting) && (joining == [] || waiting == [])
  {
    hide Increasing, Below;
    if joining == [] {
      assert out + joining == out;
    } else {
      SentInOrder(out, id, waiting);
    }
  }

  lemma SentLine<T>(ok: T -> bool, mine: T -> bool, s: Sink<T>)
    requires Order(s) && Enabled(ok, s, Attempt(Sent))
    ensures Increasing(Line(mine, Apply(ok, s, Attempt(Sent)))) <==>
            Increasing(Line(mine, s)) && !Overtakes(mine, s, Attempt(Sent))
  {
    hide Increasing, Below, IsMerge, Mine;
    var id := s.phase.id;
    MineBelow(mine, s.popped, s.produced + s.retry, id);
    LineParts(mine, s);
    MineConcat(mine, s.popped, s.produced + [id], s.retry);
    MineSnoc(mine, s.popped, s.produced, id);
    SentJoins(Out(mine, s), if Belongs(mine, s.popped, id) then [id] else [], Mine(mine, s.popped, s.retry), id);
  }

  lemma RefusedLine<T>(ok: T -> bool, mine: T -> bool, s: Sink<T>)
    requires Order(s) && Enabled(ok, s, Attempt(Refused))
    ensures Increasing(Line(mine, Apply(ok, s, Attempt(Refused)))) <==> Increasing(Line(mine, s))
  {
    hide Increasing, Below, IsMerge, Mine;
    var id, line := s.phase.id, s.produced + s.retry;
    if |s.retry| < s.capacity {
      assert s.produced + (s.retry + [id]) == line + [id];
      MineBelow(mine, s.popped, line, id);
      MineSnoc(mine, s.popped, line, id);
      IncreasingSnoc(Line(mine, s), id);
      assert Line(mine, s) + [] == Line(mine, s);
    }
  }

  lemma OtherLine<T>(ok: T -> bool, mine: T -> bool, s: Sink<T>, a: Action<T>)
    requires Order(s) && Enabled(ok, s, a) && !a.RetryDiscarded? && !a.Attempt?
    ensures Line(mine, Apply(ok, s, a)) == Line(mine, s)
    ensures !a.RetrySent? ==> Out(mine, Apply(ok, s, a)) == Out(mine, s)
  {
    match a
    case RetrySent => Rotate(s.produced, s.retry);
    case Pop(evt) =>
      BelowParts(s.produced, s.retry, |s.popped|);
      MineStable(mine, s.popped, evt, s.produced + s.retry);
      MineStable(mine, s.popped, evt, s.produced);
    case _ =>
  }

  /** A step keeps my events in order, those waiting at the end, unless it overtakes. */
  lemma LineStep<T>(ok: T -> bool, mine: T -> bool, s: Sink<T>, a: Action<T>)
    requires Inv(ok, s) && Enabled(ok, s, a)
    ensures Increasing(Line(mine, Apply(ok, s, a))) <==> Increasing(Line(mine, s)) && !Overtakes(mine, s, a)
  {
    StepKeepsInv(ok, s, a);
    hide Ledger, Shape, Increasing, Below, IsMerge, Mine;
    match a
    case Attempt(outcome) =>
      match outcome {
        case Sent => SentLine(ok, mine, s);
        case Refused => RefusedLine(ok, mine, s);
        case Unserializable =>
      }
    case _ => OtherLine(ok, mine, s, a);
  }

  lemma IncreasingParts(a: seq<nat>, b: seq<nat>)
    requires Increasing(a + b)
    ensures Increasing(a) && Increasing(b)
  {
    forall i, j | 0 <= i < j < |a|
      ensures a[i] < a[j]
    {
      assert (a + b)[i] < (a + b)[j];
    }
    forall i, j | 0 <= i < j < |b|
      ensures b[i] < b[j]
    {
      assert (a + b)[|a| + i] < (a + b)[|a| + j];
    }
  }

  /** Increasing sequences that meet in one position join to an increasing sequence. */
  lemma IncreasingGlued(a: seq<nat>, x: nat, b: seq<nat>)
    requires Increasing(a + [x]) && Increasing([x] + b)
    ensures Increasing(a + ([x] + b))
  {
    var all := a + ([x] + b);
    forall i, j | 0 <= i < j < |all|
      ensures all[i] < all[j]
    {
      if i < |a| {
        assert (a + [x])[i] < (a + [x])[|a|] == x;
        if j <= |a| {
          assert (a + [x])[j] == all[j];
        } else {
          assert ([x] + b)[0] < ([x] + b)[j - |a|];
        }
      } else {
        assert ([x] + b)[i - |a|] < ([x] + b)[j - |a|];
      }
    }
  }

  /** Moving the front of what waits to the end of what was sent. */
  lemma FrontMoved(sent: seq<nat>, r: nat, rest: seq<nat>)
    requires Increasing([r] + rest)
    ensures Increasing(sent + [r]) <==> Increasing(sent) && Increasing(sent + ([r] + rest))
  {
    hide Increasing;
    assert sent + ([r] + rest) == (sent + [r]) + rest;
    if Increasing(sent + [r]) {
      IncreasingGlued(sent, r, rest);
      IncreasingParts(sent, [r]);
    } else if Increasing((sent + [r]) + rest) {
      IncreasingParts(sent + [r], rest);
    }
  }

  lemma MineWaiting<T>(mine: T -> bool, s: Sink<T>)
    requires Order(s) && s.retry != [] && Belongs(mine, s.popped, s.retry[0])
    ensures var rest := Mine(mine, s.popped, s.retry[1..]);
      Increasing([s.retry[0]] + rest) && Line(mine, s) == Out(mine, s) + ([s.retry[0]] + rest)
  {
    LineParts(mine, s);
    IncreasingParts(s.retried, s.retry);
    MineIncreasing(mine, s.popped, s.retry);
    assert s.retry == [s.retry[0]] + s.retry[1..];
    MineConcat(mine, s.popped, [s.retry[0]], s.retry[1..]);
    MineOne(mine, s.popped, s.retry[0]);
  }

  /** Sending the front of the retry buffer keeps what was sent in order exactly when the whole
      line was in order. */
  lemma RetryOut<T>(ok: T -> bool, mine: T -> bool, s: Sink<T>)
    requires Order(s) && Enabled(ok, s, RetrySent) && Belongs(mine, s.popped, s.retry[0])
    ensures Increasing(Out(mine, Apply(ok, s, RetrySent))) <==> Increasing(Out(mine, s)) && Increasing(Line(mine, s))
  {
    MineSnoc(mine, s.popped, s.produced, s.retry[0]);
    MineWaiting(mine, s);
    hide Increasing, Order, Mine, Line;
    FrontMoved(Out(mine, s), s.retry[0], Mine(mine, s.popped, s.retry[1..]));
  }

  lemma AttemptOut<T>(ok: T -> bool, mine: T -> bool, s: Sink<T>, outcome: Outcome)
    requires Order(s) && Enabled(ok, s, Attempt(outcome))
    ensures Increasing(Out(mine, Apply(ok, s, Attempt(outcome)))) <==> Increasing(Out(mine, s))
  {
    hide Increasing, Below, IsMerge, Mine;
    if outcome.Sent? {
      var id := s.phase.id;
      BelowParts(s.produced, s.retry, id);
      MineBelow(mine, s.popped, s.produced, id);
      MineSnoc(mine, s.popped, s.produced, id);
      IncreasingSnoc(Out(mine, s), id);
      assert Out(mine, s) + [] == Out(mine, s);
    }
  }

  lemma OutStep<T>(ok: T -> bool, mine: T -> bool, s: Sink<T>, a: Action<T>)
    requires Inv(ok, s) && Enabled(ok, s, a)
    ensures Increasing(Out(mine, Apply(ok, s, a))) <==>
            Increasing(Out(mine, s)) && (Retries(mine, s, a) ==> Increasing(Line(mine, s)))
  {
    StepKeepsInv(ok, s, a);
    hide Ledger, Shape, Increasing, Below, IsMerge, Order;
    match a
    case RetrySent =>
      if Belongs(mine, s.popped, s.retry[0]) {
        RetryOut(ok, mine, s);
      } else {
        MineSnoc(mine, s.popped, s.produced, s.retry[0]);
        assert Out(mine, s) + [] == Out(mine, s);
      }
    case Attempt(outcome) => AttemptOut(ok, mine, s, outcome);
    case _ => OtherLine(ok, mine, s, a);
  }

  // ---------------------------------------------------------------- whole runs

  /** Whichever events are chosen as mine: those sent, followed by those waiting to be retried,
      are in popped order exactly when no fresh one was sent while another waited; those sent
      are in popped order exactly when, after such a send, none was sent from the retry buffer. */
  lemma {:induction false} OrderIff<T>(ok: T -> bool, capacity: int, mine: T -> bool, actions: seq<Action<T>>)
    requires Legal(ok, capacity, actions)
    ensures Increasing(Line(mine, After(ok, capacity, actions))) <==> !Overtook(ok, capacity, mine, actions)
    ensures Increasing(Out(mine, After(ok, capacity, actions))) <==> !LateRetry(ok, capacity, mine, actions)
  {
    if actions != [] {
      hide Line, Out, Inv, Increasing, Overtakes, Retries, Apply, Enabled;
      var earlier, last := actions[..|actions| - 1], actions[|actions| - 1];
      var s := After(ok, capacity, earlier);
      OrderIff(ok, capacity, mine, earlier);
      AlwaysInv(ok, capacity, earlier);
      LineStep(ok, mine, s, last);
      OutStep(ok, mine, s, last);
    }
  }

  /** Everything sent is in popped order exactly when no event was sent from the retry buffer
      after a fresh one had overtaken it. */
  lemma SentInOrderIff<T>(ok: T -> bool, capacity: int, actions: seq<Action<T>>)
    requires Legal(ok, capacity, actions)
    ensures Increasing(After(ok, capacity, actions).produced) <==> !LateRetry(ok, capacity, _ => true, actions)
  {
    var all: T -> bool, s := _ => true, After(ok, capacity, actions);
    AlwaysInv(ok, capacity, actions);
    BelowParts(s.produced, s.retry, |s.popped|);
    MineAll(all, s.popped, s.produced);
    OrderIff(ok, capacity, all, actions);
  }

  /** Two events of mine are enough to be sent out of order. */
  lemma OrderFails<T>(ok: T -> bool, mine: T -> bool, a: T, b: T)
    requires ok(a) && ok(b) && mine(a) && mine(b)
    ensures exists actions: seq<Action<T>> ::
      Legal(ok, 1, actions) && After(ok, 1, actions).popped == [a, b] && Out(mine, After(ok, 1, actions)) == [1, 0]
  {
    FifoFails(ok, a, b);
    var actions: seq<Action<T>> :|
      Legal(ok, 1, actions) && After(ok, 1, actions).popped == [a, b] && After(ok, 1, actions).produced == [1, 0];
    hide Legal, After;
    MineOne(mine, [a, b], 1);
    MineSnoc(mine, [a, b], [1], 0);
    assert [1] + [0] == [1, 0];
    assert Out(mine, After(ok, 1, actions)) == [1, 0];
  }
}
