/** The single-producer single-consumer ring as a protocol of atomic steps.

    Each step is one load, one store or one access to a buffer slot. The two index cells are
    kept as their modification orders, so a load of the other thread's index may return any
    value from the newest one that thread has already read up to the current one. A stored
    index carries a clock: how many buffer accesses the storing thread made before the store.
    A load that reads it orders those accesses before everything the loading thread does next.
    A buffer access is race free when every conflicting access so far is ordered before it. */
module RingProtocol {
  import opened Numbers

  datatype Message = Message(value: nat, clock: nat)

  /** Program counter of push, with the locals alive at that point. */
  datatype Producer<T> =
    | PIdle
    | PTail(evt: T, tail: nat)
    | PRoom(evt: T, tail: nat, next: nat)
    | PWritten(evt: T, next: nat)

  /** Program counter of pop, with the locals alive at that point. */
  datatype Consumer<T> =
    | CIdle
    | CHead(head: nat)
    | CReady(head: nat)
    | CTaken(head: nat, evt: T)

  datatype Ring<T> = Ring(
    k: nat,                  // capacity is 2^k slots
    buffer: seq<T>,
    headOrder: seq<Message>, // every value of head_, oldest first
    tailOrder: seq<Message>, // every value of tail_, oldest first
    producer: Producer<T>,
    consumer: Consumer<T>,
    headSeen: nat,           // newest entry of headOrder the producer has read
    tailSeen: nat,           // newest entry of tailOrder the consumer has read
    producerView: nat,       // buffer reads ordered before the producer's next access
    consumerView: nat,       // buffer writes ordered before the consumer's next access
    slotsRead: seq<nat>,         // slots read, in order
    slotsWritten: seq<nat>,        // slots written, in order
    accepted: seq<T>,        // events whose push has published them
    popped: seq<T>           // events whose pop has released them
  ) {
    function N(): nat { Pow2(k) }

    function Head(): nat
      requires headOrder != []
    {
      headOrder[|headOrder| - 1].value
    }

    function Tail(): nat
      requires tailOrder != []
    {
      tailOrder[|tailOrder| - 1].value
    }

    /** What the real state holds: the slots from head_ up to tail_, wrapping around. */
    function Contents(): seq<T>
      requires headOrder != [] && tailOrder != [] && |buffer| == N()
      requires Head() < N() && Tail() < N()
    {
      RingContents(buffer, Head(), Tail(), N())
    }
  }

  function RingContents<T>(buffer: seq<T>, head: nat, tail: nat, n: nat): seq<T>
    requires |buffer| == n && head < n && tail < n
  {
    seq((tail - head + n) % n, j requires 0 <= j => buffer[(head + j) % n])
  }

  datatype Action<T> =
    | LoadOwnTail(evt: T)  // push: load tail_
    | LoadHead(i: nat)     // push: load head_, reading entry i of its modification order
    | WriteSlot            // push: store the event in the buffer
    | StoreTail            // push: publish
    | LoadOwnHead          // pop: load head_
    | LoadTail(i: nat)     // pop: load tail_, reading entry i of its modification order
    | ReadSlot             // pop: take the event from the buffer
    | StoreHead            // pop: release the slot
    | Observe(i: nat)      // consumer learns of entry i of tail_ outside pop

  function Init<T>(k: nat, blank: T): Ring<T> {
    Ring(k, seq(Pow2(k), _ => blank), [Message(0, 0)], [Message(0, 0)],
         PIdle, CIdle, 0, 0, 0, 0, [], [], [], [])
  }

  predicate Enabled<T>(s: Ring<T>, a: Action<T>) {
    match a
    case LoadOwnTail(_) => s.producer.PIdle? && s.tailOrder != []
    case LoadHead(i) => s.producer.PTail? && s.headSeen <= i < |s.headOrder|
    case WriteSlot => s.producer.PRoom? && s.producer.tail < |s.buffer|
    case StoreTail => s.producer.PWritten?
    case LoadOwnHead => s.consumer.CIdle? && s.headOrder != []
    case LoadTail(i) => s.consumer.CHead? && s.tailSeen <= i < |s.tailOrder|
    case ReadSlot => s.consumer.CReady? && s.consumer.head < |s.buffer|
    case StoreHead => s.consumer.CTaken?
    case Observe(i) => s.consumer.CIdle? && s.tailSeen <= i < |s.tailOrder|
  }

  /** push returns false at this load. */
  predicate Rejects<T>(s: Ring<T>, i: nat)
    requires Enabled(s, LoadHead(i))
  {
    And(s.producer.tail + 1, s.N() - 1) == s.headOrder[i].value
  }

  /** pop returns nothing at this load. */
  predicate FindsNothing<T>(s: Ring<T>, i: nat)
    requires Enabled(s, LoadTail(i))
  {
    s.consumer.head == s.tailOrder[i].value
  }

  function Apply<T>(s: Ring<T>, a: Action<T>): Ring<T>
    requires Enabled(s, a)
  {
    match a
    case LoadOwnTail(evt) => s.(producer := PTail(evt, s.Tail()))
    case LoadHead(i) =>
      var s1 := s.(headSeen := i, producerView := Max(s.producerView, s.headOrder[i].clock));
      if Rejects(s, i) then s1.(producer := PIdle)
      else s1.(producer := PRoom(s.producer.evt, s.producer.tail, And(s.producer.tail + 1, s.N() - 1)))
    case WriteSlot =>
      s.(buffer := s.buffer[s.producer.tail := s.producer.evt],
         slotsWritten := s.slotsWritten + [s.producer.tail],
         producer := PWritten(s.producer.evt, s.producer.next))
    case StoreTail =>
      s.(tailOrder := s.tailOrder + [Message(s.producer.next, |s.slotsWritten|)],
         accepted := s.accepted + [s.producer.evt],
         producer := PIdle)
    case LoadOwnHead => s.(consumer := CHead(s.Head()))
    case LoadTail(i) =>
      var s1 := s.(tailSeen := i, consumerView := Max(s.consumerView, s.tailOrder[i].clock));
      if FindsNothing(s, i) then s1.(consumer := CIdle)
      else s1.(consumer := CReady(s.consumer.head))
    case ReadSlot =>
      s.(slotsRead := s.slotsRead + [s.consumer.head],
         consumer := CTaken(s.consumer.head, s.buffer[s.consumer.head]))
    case StoreHead =>
      s.(headOrder := s.headOrder + [Message(And(s.consumer.head + 1, s.N() - 1), |s.slotsRead|)],
         popped := s.popped + [s.consumer.evt],
         consumer := CIdle)
    case Observe(i) =>
      s.(tailSeen := i, consumerView := Max(s.consumerView, s.tailOrder[i].clock))
  }

  /** No access that conflicts with this one is unordered with it. */
  ghost predicate RaceFree<T>(s: Ring<T>, a: Action<T>)
    requires Enabled(s, a)
  {
    match a
    case WriteSlot => forall r | 0 <= r < |s.slotsRead| && s.slotsRead[r] == s.producer.tail :: r < s.producerView
    case ReadSlot => forall w | 0 <= w < |s.slotsWritten| && s.slotsWritten[w] == s.consumer.head :: w < s.consumerView
    case _ => true
  }

  predicate Legal<T>(s: Ring<T>, actions: seq<Action<T>>)
    decreases |actions|
  {
    actions == [] || (Enabled(s, actions[0]) && Legal(Apply(s, actions[0]), actions[1..]))
  }

  function Run<T>(s: Ring<T>, actions: seq<Action<T>>): Ring<T>
    requires Legal(s, actions)
    decreases |actions|
  {
    if actions == [] then s else Run(Apply(s, actions[0]), actions[1..])
  }

  // ---------------------------------------------------------------- the invariant

  ghost predicate Counted(order: seq<Message>, n: nat)
    requires n > 0
  {
    forall i | 0 <= i < |order| :: order[i] == Message(i % n, i)
  }

  ghost predicate Cycles(slots: seq<nat>, n: nat)
    requires n > 0
  {
    forall i | 0 <= i < |slots| :: slots[i] == i % n
  }

  /** Every index cell and log counts in step with the histories, modulo the capacity. */
  ghost predicate InStep<T>(s: Ring<T>) {
    && |s.buffer| == s.N()
    && |s.headOrder| == |s.popped| + 1 && Counted(s.headOrder, s.N())
    && |s.tailOrder| == |s.accepted| + 1 && Counted(s.tailOrder, s.N())
    && s.producerView == s.headSeen && s.consumerView == s.tailSeen
    && |s.slotsWritten| == |s.accepted| + (if s.producer.PWritten? then 1 else 0) && Cycles(s.slotsWritten, s.N())
    && |s.slotsRead| == |s.popped| + (if s.consumer.CTaken? then 1 else 0) && Cycles(s.slotsRead, s.N())
  }

  /** What each side has read of the other, in unmasked counts. */
  ghost predicate Bounded<T>(s: Ring<T>) {
    && s.headSeen <= |s.popped| <= s.tailSeen <= |s.accepted|
    && |s.accepted| - s.headSeen <= s.N() - 1
  }

  ghost predicate ProducerOk<T>(s: Ring<T>)
    requires |s.buffer| == s.N()
  {
    var slot := |s.accepted| % s.N();
    match s.producer
    case PIdle => true
    case PTail(_, t) => t == slot
    case PRoom(_, t, next) =>
      t == slot && next == (|s.accepted| + 1) % s.N() && |s.accepted| + 1 - s.headSeen <= s.N() - 1
    case PWritten(e, next) =>
      next == (|s.accepted| + 1) % s.N() && |s.accepted| + 1 - s.headSeen <= s.N() - 1 && s.buffer[slot] == e
  }

  ghost predicate ConsumerOk<T>(s: Ring<T>) {
    var slot := |s.popped| % s.N();
    match s.consumer
    case CIdle => true
    case CHead(h) => h == slot
    case CReady(h) => h == slot && |s.popped| < s.tailSeen
    case CTaken(h, e) =>
      h == slot && |s.popped| < s.tailSeen && |s.popped| < |s.accepted| && e == s.accepted[|s.popped|]
  }

  /** The unread slots hold the accepted events that have not been popped. */
  ghost predicate Stored<T>(s: Ring<T>)
    requires |s.buffer| == s.N()
  {
    && s.popped <= s.accepted
    && forall j | |s.popped| <= j < |s.accepted| :: s.buffer[j % s.N()] == s.accepted[j]
  }

  ghost predicate Inv<T>(s: Ring<T>) {
    InStep(s) && Bounded(s) && ProducerOk(s) && ConsumerOk(s) && Stored(s)
  }

  // ---------------------------------------------------------------- one step keeps it

  lemma InitInv<T>(k: nat, blank: T)
    ensures Inv(Init(k, blank))
  {
  }

  /** A push is refused exactly when N-1 accepted events are not yet known to be popped. */
  lemma RejectedIffFull<T>(s: Ring<T>, i: nat)
    requires Inv(s) && Enabled(s, LoadHead(i))
    ensures Rejects(s, i) <==> |s.accepted| - i == s.N() - 1
  {
    var n := s.N();
    MaskedSuccessor(|s.accepted|, s.k);
    if |s.accepted| - i == n - 1 {
      LapSameSlot(i, n);
    } else {
      SlotsDiffer(i, |s.accepted| + 1, n);
    }
  }

  /** A pop comes back empty exactly when it has seen nothing beyond what was popped. */
  lemma EmptyIffNothingSeen<T>(s: Ring<T>, i: nat)
    requires Inv(s) && s.headOrder != [] && s.tailSeen <= i < |s.tailOrder|
    ensures s.Head() == s.tailOrder[i].value <==> i == |s.popped|
  {
    if i != |s.popped| {
      SlotsDiffer(|s.popped|, i, s.N());
    }
  }

  lemma NothingFoundIff<T>(s: Ring<T>, i: nat)
    requires Inv(s) && Enabled(s, LoadTail(i))
    ensures FindsNothing(s, i) <==> i == |s.popped|
  {
    EmptyIffNothingSeen(s, i);
  }

  /** Whichever entry of tail_ its load returns, pop goes on to read the next slot exactly when that
      entry is newer than the events popped, and otherwise gives up with nothing changed. */
  lemma PopGoesOnIff<T>(s: Ring<T>, i: nat)
    requires Inv(s) && Enabled(s, LoadTail(i))
    ensures var t := Apply(s, LoadTail(i));
      && (t.consumer.CReady? <==> i > |s.popped|) && (t.consumer.CIdle? <==> i == |s.popped|)
      && (i > |s.popped| ==> t.consumer.head == |s.popped| % s.N() && Enabled(t, ReadSlot))
      && t.popped == s.popped && t.headOrder == s.headOrder && t.tailSeen == i
  {
    NothingFoundIff(s, i);
  }

  /** Whichever entry of head_ its load returns, push goes on to write the next slot exactly when
      fewer than N-1 events are not known by it to be popped, and otherwise gives up. */
  lemma PushGoesOnIff<T>(s: Ring<T>, i: nat)
    requires Inv(s) && Enabled(s, LoadHead(i))
    ensures var t := Apply(s, LoadHead(i));
      && (t.producer.PRoom? <==> |s.accepted| - i < s.N() - 1) && (t.producer.PIdle? <==> |s.accepted| - i == s.N() - 1)
      && (t.producer.PRoom? ==> t.producer.tail == |s.accepted| % s.N() && t.producer.evt == s.producer.evt)
      && t.accepted == s.accepted && t.tailOrder == s.tailOrder && t.headSeen == i
  {
    RejectedIffFull(s, i);
  }

  lemma WriteIsRaceFree<T>(s: Ring<T>)
    requires Inv(s) && Enabled(s, WriteSlot)
    ensures RaceFree(s, WriteSlot)
    ensures forall j | |s.popped| <= j < |s.accepted| :: j % s.N() != s.producer.tail
  {
    forall r | s.headSeen <= r < |s.accepted|
      ensures r % s.N() != s.producer.tail
    {
      SlotsDiffer(r, |s.accepted|, s.N());
    }
  }

  lemma ReadIsRaceFree<T>(s: Ring<T>)
    requires Inv(s) && Enabled(s, ReadSlot)
    ensures RaceFree(s, ReadSlot)
  {
    forall w | s.tailSeen <= w < |s.slotsWritten|
      ensures w % s.N() != s.consumer.head
    {
      SlotsDiffer(|s.popped|, w, s.N());
    }
  }

  lemma RoomStep<T>(s: Ring<T>, i: nat)
    requires Inv(s) && Enabled(s, LoadHead(i))
    ensures Inv(Apply(s, LoadHead(i)))
  {
    RejectedIffFull(s, i);
    MaskedSuccessor(|s.accepted|, s.k);
  }

  lemma WriteStep<T>(s: Ring<T>)
    requires Inv(s) && Enabled(s, WriteSlot)
    ensures Inv(Apply(s, WriteSlot))
  {
    WriteIsRaceFree(s);
  }

  lemma PublishStep<T>(s: Ring<T>)
    requires Inv(s) && Enabled(s, StoreTail)
    ensures Inv(Apply(s, StoreTail))
  {
  }

  lemma LookStep<T>(s: Ring<T>, a: Action<T>)
    requires Inv(s) && Enabled(s, a) && (a.LoadOwnHead? || a.LoadTail? || a.Observe?)
    ensures Inv(Apply(s, a))
  {
    if a.LoadTail? {
      EmptyIffNothingSeen(s, a.i);
    }
  }

  lemma ReadStep<T>(s: Ring<T>)
    requires Inv(s) && Enabled(s, ReadSlot)
    ensures Inv(Apply(s, ReadSlot))
  {
  }

  lemma ReleaseStep<T>(s: Ring<T>)
    requires Inv(s) && Enabled(s, StoreHead)
    ensures Inv(Apply(s, StoreHead))
  {
    MaskedSuccessor(|s.popped|, s.k);
  }

  lemma StepKeepsInv<T>(s: Ring<T>, a: Action<T>)
    requires Inv(s) && Enabled(s, a)
    ensures Inv(Apply(s, a)) && RaceFree(s, a)
  {
    match a
    case LoadOwnTail(_) =>
    case LoadHead(i) => RoomStep(s, i);
    case WriteSlot => WriteStep(s); WriteIsRaceFree(s);
    case StoreTail => PublishStep(s);
    case ReadSlot => ReadStep(s); ReadIsRaceFree(s);
    case StoreHead => ReleaseStep(s);
    case _ => LookStep(s, a);
  }

  lemma Lengths<T>(s: Ring<T>)
    requires Inv(s)
    ensures |s.tailOrder| == |s.accepted| + 1 && |s.headOrder| == |s.popped| + 1
    ensures |s.popped| <= s.tailSeen <= |s.accepted|
  {
  }

  // ---------------------------------------------------------------- whole runs

  lemma {:induction false} RunKeepsInv<T>(s: Ring<T>, actions: seq<Action<T>>)
    requires Inv(s) && Legal(s, actions)
    ensures Inv(Run(s, actions))
    decreases |actions|
  {
    if actions != [] {
      StepKeepsInv(s, actions[0]);
      RunKeepsInv(Apply(s, actions[0]), actions[1..]);
    }
  }

  /** Decoding masked indices yields the items stored between the unmasked ones. */
  lemma MaskedContents<T>(buffer: seq<T>, items: seq<T>, h: nat, n: nat)
    requires |buffer| == n > 0 && h <= |items| < h + n
    requires forall j | h <= j < |items| :: buffer[j % n] == items[j]
    ensures RingContents(buffer, h % n, |items| % n, n) == items[h..]
  {
    var contents := RingContents(buffer, h % n, |items| % n, n);
    MaskedDistance(h, |items|, n);
    forall j: nat | j < |items| - h
      ensures contents[j] == items[h..][j]
    {
      MaskedSum(h, j, n);
      assert buffer[(h + j) % n] == items[h + j];
    }
  }

  /** The ring is a bounded first-in first-out queue on every run, however stale the loads:
      popped events are a prefix of the accepted ones, the rest are exactly what the slots
      hold, at most N-1 events are held, and no next step races on the buffer. */
  lemma Linearizable<T>(k: nat, blank: T, actions: seq<Action<T>>)
    requires Legal(Init(k, blank), actions)
    ensures var s := Run(Init(k, blank), actions);
      && |s.buffer| == s.N() && s.headOrder != [] && s.tailOrder != []
      && s.Head() < s.N() && s.Tail() < s.N()
      && s.popped + s.Contents() == s.accepted
      && |s.Contents()| <= s.N() - 1
      && forall a: Action<T> | Enabled(s, a) :: RaceFree(s, a)
  {
    InitInv(k, blank);
    RunKeepsInv(Init(k, blank), actions);
    var s := Run(Init(k, blank), actions);
    MaskedContents(s.buffer, s.accepted, |s.popped|, s.N());
    forall a: Action<T> | Enabled(s, a)
      ensures RaceFree(s, a)
    {
      StepKeepsInv(s, a);
    }
  }
}
