/** The sink thread as the program runs it. Its object carries the history of SinkProtocol actions
    it has taken, so every result about legal action sequences is a result about it. */
module AvroKafkaSink {
  import opened Numbers
  import opened Events
  import opened AvroSerializer
  import opened EventQueue
  import opened FlowNames
  import opened Options
  import RingProtocol
  import opened Sequences
  import opened SinkLosses
  import opened SinkProtocol

  /** What the producer is handed for one event. */
  datatype Message = Message(key: string, payload: seq<u8>)

  function MessageOf(schemaId: i32, evt: FlowEvent, mixed: bool): Message {
    Message(FlowId(evt.state.key, mixed), Wire(schemaId, evt, mixed))
  }

  /** The messages are those of the events at the places, in order. */
  predicate HandedAre(schemaId: i32, mixed: bool, handed: seq<Message>, popped: seq<FlowEvent>, places: seq<nat>) {
    && |handed| == |places| && Below(places, |popped|)
    && forall i | 0 <= i < |handed| :: handed[i] == MessageOf(schemaId, popped[places[i]], mixed)
  }

  lemma HandedSnoc(schemaId: i32, mixed: bool, handed: seq<Message>, popped: seq<FlowEvent>, places: seq<nat>, id: nat)
    requires HandedAre(schemaId, mixed, handed, popped, places) && id < |popped|
    ensures HandedAre(schemaId, mixed, handed + [MessageOf(schemaId, popped[id], mixed)], popped, places + [id])
  {
    hide MessageOf;
  }

  lemma HandedPop(schemaId: i32, mixed: bool, handed: seq<Message>, popped: seq<FlowEvent>, places: seq<nat>,
                  x: FlowEvent)
    requires HandedAre(schemaId, mixed, handed, popped, places)
    ensures HandedAre(schemaId, mixed, handed, popped + [x], places)
  {
    hide MessageOf;
  }

  /** Nothing in the history, of what was sent, or of what the producer took, is taken back. */
  ghost predicate Grew(h0: seq<Action<FlowEvent>>, h1: seq<Action<FlowEvent>>, p0: seq<nat>, p1: seq<nat>,
                       m0: seq<Message>, m1: seq<Message>) {
    h0 <= h1 && p0 <= p1 && m0 <= m1
  }

  lemma GrewFurther(h0: seq<Action<FlowEvent>>, h1: seq<Action<FlowEvent>>, h2: seq<Action<FlowEvent>>,
                    p0: seq<nat>, p1: seq<nat>, p2: seq<nat>, m0: seq<Message>, m1: seq<Message>, m2: seq<Message>)
    requires Grew(h0, h1, p0, p1, m0, m1) && Grew(h1, h2, p1, p2, m1, m2)
    ensures Grew(h0, h2, p0, p2, m0, m2)
  {
  }

  class AvroKafkaSink {
    const schemaId: i32
    const mixed: bool // how the platform writes the addresses ::a.b.c.d
    const serializable: FlowEvent -> bool // serialize does not throw
    const srBufferSize: int
    const queue: EventQueue<FlowEvent>
    var retryBuf: seq<FlowEvent>

    // metrics
    var schemaRegistryRetries: nat
    var avroSerializationErrors: nat
    var kafkaDeliveryErrors: nat
    var kafkaMessagesProduced: nat

    ghost var handed: seq<Message> // every message the producer took
    ghost var history: seq<Action<FlowEvent>>
    ghost var state: Sink<FlowEvent>

    ghost predicate Valid()
      reads this
    {
      && Legal(serializable, srBufferSize, history)
      && state == After(serializable, srBufferSize, history)
      && state.capacity == srBufferSize
      && Tracks()
    }

    /** The deque and the counters are what the history says. */
    ghost predicate Tracks()
      reads this
    {
      && Shape(serializable, state)
      && |retryBuf| == |state.retry|
      && (forall i | 0 <= i < |retryBuf| :: retryBuf[i] == state.popped[state.retry[i]])
      && schemaRegistryRetries == |state.retried|
      && avroSerializationErrors == |state.discarded|
      && kafkaDeliveryErrors == state.refusals + |state.dropped|
      && kafkaMessagesProduced == |state.produced|
      && HandedAre(schemaId, mixed, handed, state.popped, state.produced)
    }

    constructor (schemaId: i32, mixed: bool, serializable: FlowEvent -> bool, srBufferSize: int,
                 queue: EventQueue<FlowEvent>)
      ensures Valid() && state == Init(srBufferSize)
      ensures this.schemaId == schemaId && this.mixed == mixed
      ensures this.serializable == serializable && this.srBufferSize == srBufferSize && this.queue == queue
    {
      this.schemaId, this.mixed := schemaId, mixed;
      this.serializable, this.srBufferSize, this.queue := serializable, srBufferSize, queue;
      retryBuf := [];
      schemaRegistryRetries, avroSerializationErrors, kafkaDeliveryErrors, kafkaMessagesProduced := 0, 0, 0, 0;
      handed, history, state := [], [], Init(srBufferSize);
    }

    ghost method Record(a: Action<FlowEvent>)
      requires Legal(serializable, srBufferSize, history) && state == After(serializable, srBufferSize, history)
      requires Enabled(serializable, state, a) && Shape(serializable, state)
      modifies `history, `state
      ensures history == old(history) + [a] && state == Apply(serializable, old(state), a)
      ensures Legal(serializable, srBufferSize, history) && state == After(serializable, srBufferSize, history)
      ensures Shape(serializable, state)
    {
      Extend(serializable, srBufferSize, history, a);
      ShapeStep(serializable, state, a);
      history, state := history + [a], Apply(serializable, state, a);
    }

    /** The producer's answer, about which nothing is known, and its counters; a message it takes is
        recorded here and nowhere else. */
    method Produce(key: string, payload: seq<u8>) returns (ok: bool)
      modifies `kafkaDeliveryErrors, `kafkaMessagesProduced, `handed
      ensures handed == if ok then old(handed) + [Message(key, payload)] else old(handed)
      ensures kafkaMessagesProduced == old(kafkaMessagesProduced) + (if ok then 1 else 0)
      ensures kafkaDeliveryErrors == old(kafkaDeliveryErrors) + (if ok then 0 else 1)
    {
      ok := *;
      if ok {
        kafkaMessagesProduced := kafkaMessagesProduced + 1;
        handed := handed + [Message(key, payload)];
      } else {
        kafkaDeliveryErrors := kafkaDeliveryErrors + 1;
      }
    }

    /** Retries the front of the buffer, which leaves it when the producer takes it. */
    method RetryFront() returns (sent: bool)
      requires Valid() && state.phase.Retrying? && retryBuf != []
      modifies this
      ensures Valid() && old(handed) <= handed
      ensures var a := if sent then RetrySent else RetryRefused;
        && Enabled(serializable, old(state), a) && state == Apply(serializable, old(state), a)
        && history == old(history) + [a]
      ensures retryBuf == if sent then old(retryBuf)[1..] else old(retryBuf)
    {
      hide Legal, After, HandedAre, Wire, FlowId;
      var evt := retryBuf[0];
      if serializable(evt) {
        HandedSnoc(schemaId, mixed, handed, state.popped, state.produced, state.retry[0]);
        var payload := Serialize(schemaId, evt, mixed);
        var key := FlowId(evt.state.key, mixed);
        sent := Produce(key, payload);
        if !sent {
          Record(RetryRefused);
          return;
        }
        schemaRegistryRetries := schemaRegistryRetries + 1;
        Record(RetrySent);
        retryBuf := retryBuf[1..];
      } else {
        // Discarding here is dead code: the event was buffered because the producer refused
        // it, so it serialized then, and it serializes the same way again.
        assert false;
      }
    }

    /** Retries the buffered events in order until one is refused or none is left. */
    method DrainRetryBuffer()
      requires Valid() && state.phase.Retrying?
      modifies this
      ensures Valid() && state.phase.Popping?
      ensures Grew(old(history), history, old(state).produced, state.produced, old(handed), handed)
      ensures state.produced + state.retry == old(state.produced + state.retry)
      ensures state.popped == old(state).popped && state.direct == old(state).direct
      ensures state.dropped == old(state).dropped && state.discarded == old(state).discarded
    {
      hide Legal, After, HandedAre;
      while retryBuf != []
        invariant Valid() && state.phase.Retrying?
        invariant Grew(old(history), history, old(state).produced, state.produced, old(handed), handed)
        invariant state.produced + state.retry == old(state.produced + state.retry)
        invariant state.popped == old(state).popped && state.direct == old(state).direct
        invariant state.dropped == old(state).dropped && state.discarded == old(state).discarded
        decreases |retryBuf|
      {
        Rotate(state.produced, state.retry);
        var sent := RetryFront();
        if !sent {
          return;
        }
      }
      Record(RetryDone);
    }

    /** One attempt at a fresh event: true unless the producer refused it. */
    method AttemptProduce(evt: FlowEvent) returns (done: bool, ghost outcome: Outcome)
      modifies `avroSerializationErrors, `kafkaDeliveryErrors, `kafkaMessagesProduced, `handed
      ensures done <==> !outcome.Refused?
      ensures handed == if outcome.Sent? then old(handed) + [MessageOf(schemaId, evt, mixed)] else old(handed)
      ensures outcome.Unserializable? <==> !serializable(evt)
      ensures avroSerializationErrors == old(avroSerializationErrors) + (if outcome.Unserializable? then 1 else 0)
      ensures kafkaMessagesProduced == old(kafkaMessagesProduced) + (if outcome.Sent? then 1 else 0)
      ensures kafkaDeliveryErrors == old(kafkaDeliveryErrors) + (if outcome.Refused? then 1 else 0)
    {
      if serializable(evt) {
        var payload := Serialize(schemaId, evt, mixed);
        var key := FlowId(evt.state.key, mixed);
        done := Produce(key, payload);
        outcome := if done then Sent else Refused;
      } else {
        avroSerializationErrors := avroSerializationErrors + 1;
        done, outcome := true, Unserializable;
      }
    }

    /** Sends a popped event, or keeps it for later, or drops it when the buffer is full. */
    method Handle(evt: FlowEvent) returns (ghost outcome: Outcome)
      requires Valid() && state.phase.Holding? && state.phase.id < |state.popped| && state.popped[state.phase.id] == evt
      modifies this
      ensures Valid() && Enabled(serializable, old(state), Attempt(outcome)) && old(handed) <= handed
      ensures history == old(history) + [Attempt(outcome)]
      ensures state == Apply(serializable, old(state), Attempt(outcome))
      ensures retryBuf == old(retryBuf) + (if outcome.Refused? && |old(retryBuf)| < srBufferSize then [evt] else [])
      ensures kafkaDeliveryErrors == old(kafkaDeliveryErrors) +
              (if !outcome.Refused? then 0 else if |old(retryBuf)| < srBufferSize then 1 else 2)
    {
      hide Legal, After, Shape, HandedAre, MessageOf;
      HandedSnoc(schemaId, mixed, handed, state.popped, state.produced, state.phase.id);
      var done;
      done, outcome := AttemptProduce(evt);
      Record(Attempt(outcome));
      if !done {
        if |retryBuf| < srBufferSize {
          retryBuf := retryBuf + [evt];
        } else {
          kafkaDeliveryErrors := kafkaDeliveryErrors + 1;
        }
      }
    }

    /** The event just taken off the queue is the newest popped one, and in hand. */
    ghost method RecordPop(evt: FlowEvent)
      requires Valid() && state.phase.Popping?
      modifies `history, `state
      ensures Valid() && history == old(history) + [Pop(evt)] && state == Apply(serializable, old(state), Pop(evt))
    {
      hide Legal, After, HandedAre;
      HandedPop(schemaId, mixed, handed, state.popped, state.produced, evt);
      Record(Pop(evt));
    }

    ghost method RecordPopNothing()
      requires Valid() && state.phase.Popping?
      modifies `history, `state
      ensures Valid() && history == old(history) + [PopNothing] && state == Apply(serializable, old(state), PopNothing)
    {
      hide Legal, After, HandedAre;
      Record(PopNothing);
    }


    /** Takes one event off the queue, if there is one, and deals with it. */
    method Consume()
      requires Valid() && state.phase.Popping? && queue.Valid() && queue as object != this
      modifies this, queue, queue.buffer
      ensures Valid() && queue.Valid() && AtLoopTest(history) && state.phase.Retrying?
      ensures Grew(old(history), history, old(state).produced, state.produced, old(handed), handed)
      ensures state.popped + queue.Contents() == old(state.popped + queue.Contents())
      ensures |queue.Contents()| == Max(old(|queue.Contents()|) - 1, 0)
    {
      hide Legal, After, Shape, Tracks;
      var evt := queue.PopWait(None);
      match evt {
        case None =>
          RecordPopNothing();
        case Some(e) =>
          RecordPop(e);
          ghost var outcome := Handle(e);
          ConcatAssoc(old(state).popped, [e], queue.Contents());
      }
    }

    /** The thread's loop. The run is described from outside by the batches the producer gets into
        the queue, one in each iteration before stop is requested; batches that do not fit are cut
        short. Once stop is requested, exactly the queued events' number of iterations remain,
        whatever the producer answers, and every event that entered the queue has been popped.
        What has been sent stays sent, and the history ends where the loop tests its condition. */
    method SinkThreadFunc(batches: seq<seq<FlowEvent>>)
      returns (ghost accepted: seq<FlowEvent>, ghost queued: nat, ghost remaining: nat)
      requires Valid() && AtLoopTest(history) && queue.Valid() && queue as object != this
      modifies this, queue, queue.buffer
      ensures Valid() && AtLoopTest(history) && queue.Valid() && queue.Contents() == []
      ensures Grew(old(history), history, old(state).produced, state.produced, old(handed), handed)
      ensures state.popped == old(state).popped + old(queue.Contents()) + accepted
      ensures remaining == queued
    {
      NothingLeftIff(serializable, srBufferSize, history);
      assert Grew(history, history, state.produced, state.produced, handed, handed);
      hide Legal, After, Shape, Tracks, Grew;
      accepted, queued, remaining := [], |queue.Contents()|, 0;
      ghost var before := state.popped + queue.Contents();
      var i := 0;
      while true
        invariant 0 <= i <= |batches|
        invariant Valid() && AtLoopTest(history) && state.phase.Retrying? && queue.Valid()
        invariant Grew(old(history), history, old(state).produced, state.produced, old(handed), handed)
        invariant state.popped + queue.Contents() == before + accepted
        invariant if i < |batches| then remaining == 0 else remaining + |queue.Contents()| == queued
        decreases |batches| - i, |queue.Contents()|
      {
        label loopHead:
        var stop := i == |batches|;
        var empty := queue.Empty();
        if stop && empty {
          break;
        }
        DrainRetryBuffer();
        ghost var h, p, m := history, state.produced, handed;
        if !stop {
          ghost var more := PushAll(batches[i]);
          JoinedBehind(state.popped, old@loopHead(queue.Contents()), more, before, accepted);
          accepted := accepted + more;
        }
        Consume();
        GrewFurther(old@loopHead(history), h, history, old@loopHead(state).produced, p, state.produced,
                    old@loopHead(handed), m, handed);
        GrewFurther(old(history), old@loopHead(history), history,
                    old(state).produced, old@loopHead(state).produced, state.produced,
                    old(handed), old@loopHead(handed), handed);
        if stop {
          remaining := remaining + 1;
        } else {
          i := i + 1;
          queued := |queue.Contents()|;
        }
      }
    }

    /** Message i that Kafka took, read back, is event i of those sent: its flow from the key, and
        all of it that is on the wire from the payload. */
    lemma HandedReadBack(i: nat)
      requires Valid() && i < |handed|
      ensures i < |state.produced| && state.produced[i] < |state.popped|
      ensures ParseFlowId(handed[i].key) == state.popped[state.produced[i]].state.key
      ensures ReadWire(handed[i].payload).Some?
      ensures EventOf(ReadWire(handed[i].payload).value.1) == OnWire(state.popped[state.produced[i]])
    {
      hide Legal, After, Shape, MessageOf;
      MessageReadsBack(schemaId, state.popped[state.produced[i]], mixed);
    }

    /** The producer's side: what fits of the batch enters the queue, in order. */
    method PushAll(batch: seq<FlowEvent>) returns (ghost more: seq<FlowEvent>)
      requires queue.Valid()
      modifies queue, queue.buffer
      ensures queue.Valid() && queue.Contents() == old(queue.Contents()) + more
      ensures more == batch[..Min(|batch|, Pow2(queue.k) - 1 - old(|queue.Contents()|))]
    {
      hide RingProtocol.RingContents, Pow2, Min;
      queue.Bounded();
      ghost var room := Pow2(queue.k) - 1 - |queue.Contents()|;
      more := [];
      NothingFit(batch, room);
      var j := 0;
      while j < |batch|
        invariant queue.Valid() && queue.Contents() == old(queue.Contents()) + more
        invariant 0 <= j <= |batch| && 0 <= Min(j, room) <= j
        invariant more == batch[..Min(j, room)]
      {
        var ok := queue.Push(batch[j]);
        NextFit(batch, j, room);
        if ok {
          ConcatAssoc(old(queue.Contents()), more, [batch[j]]);
          more := more + [batch[j]];
        }
        j := j + 1;
      }
    }
  }

  lemma NothingFit<T>(batch: seq<T>, room: nat)
    ensures Min(0, room) == 0 && batch[..0] == []
  {
  }

  /** How much of a batch fits grows by the next event while there is room. */
  lemma NextFit<T>(batch: seq<T>, j: nat, room: nat)
    requires j < |batch|
    ensures 0 <= Min(j, room) <= j && 0 <= Min(j + 1, room) <= j + 1
    ensures Min(j, room) < room <==> j < room
    ensures batch[..Min(j + 1, room)] == batch[..Min(j, room)] + (if j < room then [batch[j]] else [])
  {
  }

  /** A consumer that reads key and payload gets the event's flow back, and the event as far as it
      is on the wire. */
  lemma MessageReadsBack(schemaId: i32, evt: FlowEvent, mixed: bool)
    ensures var m := MessageOf(schemaId, evt, mixed);
      && ParseFlowId(m.key) == evt.state.key
      && ReadWire(m.payload).Some? && ReadWire(m.payload).value.0 == schemaId % 0x1_0000_0000
      && ReadWire(m.payload).value.2 == [] && EventOf(ReadWire(m.payload).value.1) == OnWire(evt)
  {
    hide FlowId, Wire, ReadWire, RecordOf, EventOf, OnWire;
    FlowIdRoundTrip(evt.state.key, mixed);
    WireRoundTrip(schemaId, evt, mixed, []);
    EventRoundTrip(evt, mixed);
    assert Wire(schemaId, evt, mixed) + [] == Wire(schemaId, evt, mixed);
  }

  lemma JoinedBehind<T>(popped: seq<T>, queued: seq<T>, more: seq<T>, before: seq<T>, accepted: seq<T>)
    requires popped + queued == before + accepted
    ensures popped + (queued + more) == before + (accepted + more)
  {
    ConcatAssoc(popped, queued, more);
    ConcatAssoc(before, accepted, more);
  }
}
