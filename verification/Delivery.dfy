/** What reaches Kafka by the time the sink thread has exited, and in what order the events of one
    flow reach it, in every interleaving of the pipeline. */
module Delivery {
  import opened Events
  import opened Pipeline
  import S = SinkProtocol
  import SL = SinkLosses
  import SO = SinkOrder

  // ---------------------------------------------------------------- the order of one flow

  function OfFlow(k: FlowKey): Tagged -> bool {
    (x: Tagged) => x.evt.state.key == k
  }

  /** The flow's events handed to Kafka, in order, by their positions among all events offered. */
  function FlowSent(k: FlowKey, s: S.Sink<Tagged>): seq<nat>
    requires S.Below(SO.Out(OfFlow(k), s), |s.popped|)
  {
    IdsAt(s.popped, SO.Out(OfFlow(k), s))
  }

  /** The same, followed by the flow's events that wait to be retried. */
  function FlowLine(k: FlowKey, s: S.Sink<Tagged>): seq<nat>
    requires S.Below(SO.Line(OfFlow(k), s), |s.popped|)
  {
    IdsAt(s.popped, SO.Line(OfFlow(k), s))
  }

  lemma FlowPlaces(w: World, k: FlowKey, s: S.Sink<Tagged>)
    requires S.Inv(w.Ok(), s)
    ensures S.Below(SO.Out(OfFlow(k), s), |s.popped|) && S.Below(SO.Line(OfFlow(k), s), |s.popped|)
  {
    S.BelowParts(s.produced, s.retry, |s.popped|);
    SO.MineBelow(OfFlow(k), s.popped, s.produced, |s.popped|);
    SO.MineBelow(OfFlow(k), s.popped, s.produced + s.retry, |s.popped|);
  }

  lemma FlowOrderOf(w: World, p: Pipe, k: FlowKey)
    requires Inv(w, p)
    ensures S.Legal(w.Ok(), w.retrySize, p.sinkRun) && p.sink == S.After(w.Ok(), w.retrySize, p.sinkRun)
    ensures S.Below(SO.Out(OfFlow(k), p.sink), |p.sink.popped|)
    ensures S.Below(SO.Line(OfFlow(k), p.sink), |p.sink.popped|)
    ensures S.Increasing(FlowSent(k, p.sink)) <==> !SO.LateRetry(w.Ok(), w.retrySize, OfFlow(k), p.sinkRun)
    ensures S.Increasing(FlowLine(k, p.sink)) <==> !SO.Overtook(w.Ok(), w.retrySize, OfFlow(k), p.sinkRun)
  {
    hide TableOk, ThreadsOk, SinkLoopOk, TagsOk, CountOk, S.Inv, S.Legal, S.After;
    hide S.Increasing, SO.Out, SO.Line, SO.Overtook, SO.LateRetry;
    var s := p.sink;
    PoppedInOrder(w, p);
    FlowPlaces(w, k, s);
    SO.OrderIff(w.Ok(), w.retrySize, OfFlow(k), p.sinkRun);
    SelectedOrder(Ids(s.popped), SO.Out(OfFlow(k), s), FlowSent(k, s));
    SelectedOrder(Ids(s.popped), SO.Line(OfFlow(k), s), FlowLine(k, s));
  }

  /** Kafka promises order within a flow, and gets a flow's events in the order the table offered
      them exactly when, once a fresh event of the flow was sent while another of the same flow
      waited to be retried, no event of the flow was sent from the retry buffer; with the waiting
      events taken to follow, exactly when no such fresh event was sent. What other flows do does
      not matter. */
  lemma FlowOrderIff(w: World, blank: Tagged, steps: seq<Step>, k: FlowKey)
    requires Legal(w, Init(w, blank), steps)
    ensures var s := Run(w, Init(w, blank), steps);
      && S.Legal(w.Ok(), w.retrySize, s.sinkRun) && s.sink == S.After(w.Ok(), w.retrySize, s.sinkRun)
      && S.Below(SO.Out(OfFlow(k), s.sink), |s.sink.popped|)
      && S.Below(SO.Line(OfFlow(k), s.sink), |s.sink.popped|)
      && (S.Increasing(FlowSent(k, s.sink)) <==> !SO.LateRetry(w.Ok(), w.retrySize, OfFlow(k), s.sinkRun))
      && (S.Increasing(FlowLine(k, s.sink)) <==> !SO.Overtook(w.Ok(), w.retrySize, OfFlow(k), s.sinkRun))
  {
    hide Legal, Run, Inv, S.Increasing, S.Below, S.Legal, S.After, SO.Out, SO.Line, SO.Overtook, SO.LateRetry;
    Reached(w, blank, steps);
    FlowOrderOf(w, Run(w, Init(w, blank), steps), k);
  }

  // ---------------------------------------------------------------- nothing lost

  /** The events handed to Kafka, by their positions among all events offered. */
  function SentIds(s: Pipe): seq<nat>
    requires S.Below(s.sink.produced, |s.sink.popped|)
  {
    IdsAt(s.sink.popped, s.sink.produced)
  }

  ghost predicate AllSerialize(w: World, s: Pipe) {
    forall e | e in s.offered :: w.serializable(e)
  }

  /** The sink's losses, told by the producer's answers. */
  predicate SinkKeptUp(w: World, s: Pipe) {
    SL.EndsClean(w.retrySize, s.sinkRun) && SL.NeverRefusedFull(w.retrySize, s.sinkRun)
  }

  /** A pipeline whose sink has exited: everything is rejected, or has come to rest in the sink. */
  ghost predicate AtRest(w: World, s: Pipe) {
    && Inv(w, s) && s.loop.SinkExited? && s.next == |s.offered|
    && s.ring.producer.PIdle? && s.sink.popped == s.ring.accepted && S.InHand(s.sink) == []
  }

  lemma AtRestPlaces(w: World, s: Pipe, id: nat)
    requires AtRest(w, s)
    ensures S.Below(Places(s.sink), |s.sink.popped|)
    ensures S.Below(s.sink.produced, |s.sink.popped|)
    ensures S.Below(s.sink.retry, |s.sink.popped|) && S.Below(s.sink.discarded, |s.sink.popped|)
    ensures S.Below(s.sink.dropped, |s.sink.popped|)
    ensures S.Times(s.rejected, id) + S.Times(SentIds(s), id) + S.Times(IdsAt(s.sink.popped, s.sink.retry), id)
            + S.Times(IdsAt(s.sink.popped, s.sink.discarded), id)
            + S.Times(IdsAt(s.sink.popped, s.sink.dropped), id) == if id < |s.offered| then 1 else 0
  {
    hide S.Times, S.Below, TableOk, ThreadsOk, SinkLoopOk, SinkRunOk, TagsOk;
    FoundOnce(w, s, id);
    PlacesParts(s.sink, id);
    S.TimesOne(0, id);
    assert s.ring.accepted[|s.ring.popped|..] == [] && Ids([]) == [];
    assert IdsAt(s.sink.popped, []) == [];
  }

  ghost predicate AllSent(s: Pipe)
    requires S.Below(s.sink.produced, |s.sink.popped|)
  {
    forall id: nat | id < |s.offered| :: id in SentIds(s)
  }

  predicate NothingElsewhere(s: Pipe) {
    s.rejected == [] && s.sink.retry == [] && s.sink.discarded == [] && s.sink.dropped == []
  }

  lemma SentWhenNowhereElse(w: World, s: Pipe, id: nat)
    requires AtRest(w, s) && NothingElsewhere(s)
    ensures S.Below(s.sink.produced, |s.sink.popped|)
    ensures S.Times(SentIds(s), id) == if id < |s.offered| then 1 else 0
  {
    AtRestPlaces(w, s, id);
    hide S.Times, S.Below, AtRest;
    S.TimesOne(0, id);
    assert IdsAt(s.sink.popped, []) == [];
  }

  lemma SentNotElsewhere(w: World, s: Pipe, others: seq<nat>)
    requires AtRest(w, s) && S.Below(s.sink.produced, |s.sink.popped|) && AllSent(s)
    requires forall id: nat :: S.Times(others, id) + S.Times(SentIds(s), id) <= if id < |s.offered| then 1 else 0
    ensures others == []
  {
    hide S.Times, AtRest;
    if others != [] {
      HeadPresent(others);
      S.TimesPresent(SentIds(s), others[0]);
    }
  }

  lemma AllSentIffNowhereElse(w: World, s: Pipe)
    requires AtRest(w, s)
    ensures S.Below(s.sink.produced, |s.sink.popped|)
    ensures AllSent(s) <==> NothingElsewhere(s)
  {
    AtRestPlaces(w, s, 0);
    hide S.Times, S.Below, AtRest, IdsAt;
    if NothingElsewhere(s) {
      forall id: nat | id < |s.offered|
        ensures id in SentIds(s)
      {
        SentWhenNowhereElse(w, s, id);
        S.TimesPresent(SentIds(s), id);
      }
    }
    if AllSent(s) {
      var popped, sink := s.sink.popped, s.sink;
      forall id: nat
        ensures S.Times(s.rejected, id) + S.Times(IdsAt(popped, sink.retry), id)
                + S.Times(IdsAt(popped, sink.discarded), id) + S.Times(IdsAt(popped, sink.dropped), id)
                + S.Times(SentIds(s), id) == if id < |s.offered| then 1 else 0
      {
        AtRestPlaces(w, s, id);
      }
      SentNotElsewhere(w, s, s.rejected);
      SentNotElsewhere(w, s, IdsAt(popped, sink.retry));
      SentNotElsewhere(w, s, IdsAt(popped, sink.discarded));
      SentNotElsewhere(w, s, IdsAt(popped, sink.dropped));
      IdsAtLength(popped, sink.retry);
      IdsAtLength(popped, sink.discarded);
      IdsAtLength(popped, sink.dropped);
    }
  }

  lemma IdsAtLength(popped: seq<Tagged>, places: seq<nat>)
    requires S.Below(places, |popped|)
    ensures |IdsAt(popped, places)| == |places|
  {
  }

  /** Events travel unchanged, so those that do not serialize are those that were discarded. */
  lemma SerializeIff(w: World, s: Pipe)
    requires AtRest(w, s) && S.Below(s.sink.produced, |s.sink.popped|)
    ensures AllSerialize(w, s) ==> s.sink.discarded == []
    ensures AllSent(s) ==> AllSerialize(w, s)
  {
    SL.AlwaysSorted(w.Ok(), w.retrySize, s.sinkRun);
    hide TableOk, ThreadsOk, SinkLoopOk, CountOk, QueueOk, S.Legal, S.After, S.Below, S.Increasing;
    if s.sink.discarded != [] {
      assert s.sink.discarded[0] in s.sink.discarded;
      var x := s.sink.popped[s.sink.discarded[0]];
      assert !w.serializable(x.evt) && x in s.ring.accepted;
      assert x.evt in s.offered;
    }
    if AllSent(s) {
      forall e | e in s.offered
        ensures w.serializable(e)
      {
        var id: nat :| id < |s.offered| && s.offered[id] == e;
        SentCarries(w, s, id);
      }
    }
  }

  lemma SentCarries(w: World, s: Pipe, id: nat)
    requires TagsOk(s) && s.sink.popped == s.ring.accepted && SL.Sorted(w.Ok(), s.sink)
    requires S.Below(s.sink.produced, |s.sink.popped|) && id in SentIds(s)
    ensures id < |s.offered| && w.serializable(s.offered[id])
  {
    var i :| 0 <= i < |SentIds(s)| && SentIds(s)[i] == id;
    var x := s.sink.popped[s.sink.produced[i]];
    assert x.id == id && TagOk(x, s.offered, s.next);
  }

  lemma KeptUpIff(w: World, s: Pipe)
    requires SinkRunOk(w, s) && s.loop.SinkExited?
    ensures SinkKeptUp(w, s) <==> s.sink.retry == [] && s.sink.dropped == []
  {
    hide S.Legal, S.After, SL.EndsClean, SL.NeverRefusedFull, SL.AtLoopTest;
    SL.NothingLeftIff(w.Ok(), w.retrySize, s.sinkRun);
    SL.NothingDroppedIff(w.Ok(), w.retrySize, s.sinkRun);
  }

  lemma ComesToRest(w: World, blank: Tagged, steps: seq<Step>)
    requires Legal(w, Init(w, blank), steps) && Run(w, Init(w, blank), steps).loop.SinkExited?
    ensures AtRest(w, Run(w, Init(w, blank), steps))
  {
    hide Legal, Run, Inv;
    Reached(w, blank, steps);
    ShutdownClosure(w, blank, steps);
  }

  /** When the sink has exited, every event the table offered has been handed to Kafka exactly
      when the ring never refused one, every one serializes, the producer never refused a fresh
      event with the retry buffer full, and the last iteration drained that buffer and left
      nothing in it. */
  lemma AllDeliveredIff(w: World, blank: Tagged, steps: seq<Step>)
    requires Legal(w, Init(w, blank), steps) && Run(w, Init(w, blank), steps).loop.SinkExited?
    ensures var s := Run(w, Init(w, blank), steps);
      && S.Below(s.sink.produced, |s.sink.popped|)
      && (AllSent(s) <==> s.rejected == [] && AllSerialize(w, s) && SinkKeptUp(w, s))
  {
    var s := Run(w, Init(w, blank), steps);
    ComesToRest(w, blank, steps);
    AllSentIffNowhereElse(w, s);
    SerializeIff(w, s);
    KeptUpIff(w, s);
  }

  /** And it has got them all in the order they were offered exactly when, besides, no fresh event
      was sent in an iteration whose retry drain had stopped on a refusal. */
  lemma AllDeliveredInOrderIff(w: World, blank: Tagged, steps: seq<Step>)
    requires Legal(w, Init(w, blank), steps) && Run(w, Init(w, blank), steps).loop.SinkExited?
    ensures var s := Run(w, Init(w, blank), steps);
      && S.Below(s.sink.produced, |s.sink.popped|)
      && (SentIds(s) == seq(|s.offered|, i requires 0 <= i < |s.offered| => i) <==>
          s.rejected == [] && AllSerialize(w, s) && SinkKeptUp(w, s) && !s.sink.overtook)
  {
    var s := Run(w, Init(w, blank), steps);
    AllDeliveredIff(w, blank, steps);
    DeliveryOrder(w, blank, steps);
    ComesToRest(w, blank, steps);
    hide Legal, Run, AtRest, AllSerialize, SinkKeptUp;
    InOrderIff(w, s);
    hide S.Increasing;
    assert s.sink.retry == [] ==> s.sink.produced + s.sink.retry == s.sink.produced;
  }

  lemma InOrderIff(w: World, s: Pipe)
    requires AtRest(w, s) && S.Below(s.sink.produced, |s.sink.popped|)
    ensures SentIds(s) == seq(|s.offered|, i requires 0 <= i < |s.offered| => i) <==>
            AllSent(s) && S.Increasing(SentIds(s))
    ensures AllSent(s) ==> s.sink.retry == []
  {
    AllSentIffNowhereElse(w, s);
    hide AtRest;
    if AllSent(s) && S.Increasing(SentIds(s)) {
      forall id: nat
        ensures S.Times(SentIds(s), id) == if id < |s.offered| then 1 else 0
      {
        SentWhenNowhereElse(w, s, id);
      }
      IncreasingCover(SentIds(s), |s.offered|);
    }
    if SentIds(s) == seq(|s.offered|, i requires 0 <= i < |s.offered| => i) {
      forall id: nat | id < |s.offered|
        ensures id in SentIds(s)
      {
        assert SentIds(s)[id] == id;
      }
    }
  }
}
