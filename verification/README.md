# PacketPipe in Dafny

PacketPipe turns captured frames into flow lifecycle events and sends them to Kafka. Capture and
timer threads drive a flow table under one mutex; the table's events cross a lock-free ring to a
sink thread, which serializes them and retries what the producer refuses. This project models
every stage of that path and proves what the stages promise, alone and composed, on all inputs and
all runs.

| module | what it is |
|---|---|
| `Numbers`, `Options`, `Sequences`, `Events` | machine integers, bitwise operators, small helpers, the values that travel |
| `RingProtocol` | the ring as atomic loads, stores and buffer accesses of two threads; a load of the other thread's index may be stale, and happens-before is tracked by clocks |
| `EventQueue` | the ring as a class over an array and two masked indices |
| `FlowTableSpec` | the table as a transition system over turns (one turn is one critical section), open only in the order of a hash map's iteration |
| `FlowTable` | the table as a class; every method is one turn |
| `FlowLifetimes` | one flow as a fold over its own packets, and the refinement between the two |
| `FlowIdentity` | which packets make up a flow |
| `FlowExpiry` | when a flow ends, against what the requirements say |
| `FlowAccounting`, `FlowTiming` | where packets and bytes go; when heartbeats and idle ends are sent |
| `SinkProtocol` | the sink thread as a transition system over positions of popped events |
| `SinkLosses`, `SinkOrder` | what the sink drops or leaves behind, and the order in which Kafka gets any chosen part of the events, told by the producer's answers |
| `AvroKafkaSink` | the sink thread as a class with its loops |
| `Pipeline` | all threads and the shutdown of `main`, one load, store or produce per step |
| `Delivery`, `SinkExit` | what has reached Kafka when the pipeline has come to rest, in what order, and how it comes to rest |
| `PacketDecoder`, `Frames` | the frame decoder, and a grammar of frames that it accepts exactly |
| `AddressText`, `AddressForm`, `FlowNames` | numbers and addresses as text, the canonical form of that text, and the flow's name and message key |
| `FrameNames` | from the bytes of a frame to the name of its flow |
| `AvroSerializer` | the wire format, and a reader of that format independent of the writer |
| `FlowKeyHash` | the FNV-1a hash of the key |

The protocol modules speak about values and legal sequences of steps; the classes carry the history
of steps they took, so a theorem about every legal sequence is a theorem about every object.

## Where the code differs from its documents

The code is followed in each case.

- `docs/requirements/srs.md` (FR-FLOW-3) calls a flow expired when no packet came within the
  timeout. The table looks at the last packet's timestamp, which may be older than an earlier one:
  `FlowExpiry.ExpiryNotAsDocumented` is a run of three turns on which it fails,
  `FlowExpiry.ExpiryAsDocumentedIff` the exact condition for a flow of any table reached.
- FR-FLOW-4 ends a TCP flow at a FIN or RST. A FIN or RST that is the flow's first packet opens the
  flow and leaves it open (`FlowExpiry.FirstTeardownStays`). `FlowExpiry.TeardownAsDocumentedIff` is
  the exact condition; `FlowExpiry.TeardownsReported` and `FlowExpiry.OnlyFirstTearsDown` say which
  packets tear flows down on whole runs.
- `docs/design/architecture.md:678` drops the oldest event from a full retry buffer. The code drops
  the newest, the one in hand (`SinkLosses.NewerDropped` is a run); the two agree exactly when no
  event may wait at all (`SinkLosses.FullBufferDropsNewest`).
- Delivery is not first-in first-out: after a refused retry the sink still tries a fresh event
  (`SinkProtocol.FifoFails`). `SinkOrder.SentInOrderIff` is the exact condition for what was sent,
  `SinkProtocol.InOrderIffNoOvertake` for what was sent with what waits behind it.
- `docs/design/architecture.md:670` promises order within a flow. Two events of one flow are enough
  to break it (`SinkOrder.OrderFails`); `Delivery.FlowOrderIff` is the exact condition, flow by flow.
- The sink's loop ends on an empty queue, not on an empty retry buffer
  (`SinkProtocol.EventMayBeLeftOver`). `SinkLosses.AllDeliveredIff` says, by the producer's answers,
  when nothing is left or lost; `Delivery.AllDeliveredIff` says it for the whole pipeline.
- `packets_dropped` counts packets turned away by the cap and events refused by the queue alike
  (`FlowTable.FlowTable.Books`), and a refused retry and a dropped event both count as delivery
  errors (`AvroKafkaSink.AvroKafkaSink.Tracks`).

## Model

| member | source | states |
|---|---|---|
| `RingProtocol.Linearizable` | src/events/event_queue.hpp:26-47 | On every run of interleaved atomic steps, with loads of the other index as stale as coherence allows: popped followed by what the masked indices decode to is the accepted sequence, at most N-1 events are held, and no enabled buffer access races. |
| `RingProtocol.StepKeepsInv` | src/events/event_queue.hpp:26-47 | Each single load, store or buffer access keeps the protocol invariant, whose core bounds tail against the head the producer last saw, and is race free. |
| `RingProtocol.RunKeepsInv` | src/events/event_queue.hpp:26-47 | The invariant holds after every legal sequence of steps from a state where it holds. |
| `RingProtocol.RejectedIffFull` | src/events/event_queue.hpp:26-31 | push returns false exactly when N-1 accepted events are not yet known to the producer to be popped. |
| `RingProtocol.EmptyIffNothingSeen` | src/events/event_queue.hpp:39-43 | The index comparison of pop and empty says empty exactly when the tail that was read is the count of popped events. |
| `RingProtocol.PopGoesOnIff` | src/events/event_queue.hpp:39-45 | For every entry of tail_ the load may return, pop goes on to the next slot exactly when that entry is newer than what was popped, and else gives up. |
| `RingProtocol.PushGoesOnIff` | src/events/event_queue.hpp:26-33 | For every entry of head_ the load may return, push goes on to the next slot exactly when fewer than N-1 events are not known to be popped, and else gives up. |
| `RingProtocol.WriteIsRaceFree` | src/events/event_queue.hpp:29-33 | The slot about to be written has every earlier read of it ordered before, and holds no unread event. |
| `RingProtocol.ReadIsRaceFree` | src/events/event_queue.hpp:41-45 | The slot about to be read has every write to it ordered before. |
| `RingProtocol.MaskedContents` | src/events/event_queue.hpp:18-20 | Decoding two masked indices yields the items stored between the unmasked ones. |
| `EventQueue.EventQueue.constructor` | src/events/event_queue.hpp:15-20 | A new queue is empty. |
| `EventQueue.EventQueue.Push` | src/events/event_queue.hpp:26-36 | Appends the event, or changes nothing and returns false exactly when N-1 events are held. |
| `EventQueue.EventQueue.Pop` | src/events/event_queue.hpp:39-47 | Removes the oldest event, or returns nothing exactly when the queue is empty. |
| `EventQueue.EventQueue.PopWait` | src/events/event_queue.hpp:50-59 | The oldest event if there is one; else, after the wait, what the other thread pushed meanwhile, if it pushed and the queue has room. |
| `EventQueue.EventQueue.Empty` | src/events/event_queue.hpp:61-64 | True exactly when no event is held. |
| `EventQueue.EventQueue.Size` | src/events/event_queue.hpp:66-70 | The wrapping 64-bit subtraction and the mask give the number of events held. |
| `EventQueue.UndisturbedPush` | src/events/event_queue.hpp:26-36 | The protocol's push, run without interference and with an up-to-date load, appends unless N-1 events are held. |
| `EventQueue.UndisturbedPop` | src/events/event_queue.hpp:39-47 | The protocol's pop, run without interference and with an up-to-date load, removes the oldest event if there is one. |
| `Numbers.MaskIsMod` | src/events/event_queue.hpp:28 | The bitwise mask by N-1 is the remainder modulo N for N a power of two. |
| `FlowTable.FlowTable.constructor` | src/flowtable/flow_table.cpp:23-30 | A new table is empty, has taken no turn and offered nothing. |
| `FlowTable.FlowTable.Emit` | src/flowtable/flow_table.cpp:32-37 | Hands one event to the callback and counts a drop exactly when it is refused. |
| `FlowTable.FlowTable.ExpireFlow` | src/flowtable/flow_table.cpp:39-51 | Offers the flow's End with its final state, removes exactly that flow, and moves the gauge and the counter of the reason. |
| `FlowTable.FlowTable.Process` | src/flowtable/flow_table.cpp:53-97 | One packet turn: the history grows by that packet with the events it offered, all of them about the flow of its five fields; table, counters, gauge and drop count stay those of a legal run. |
| `FlowTable.FlowTable.ProcessLocked` | src/flowtable/flow_table.cpp:59-96 | The table becomes the specified next table and exactly the specified events are offered. |
| `FlowTable.FlowTable.UpdateFlow` | src/flowtable/flow_table.cpp:86-96 | A known flow's last-seen time is overwritten and its counters grow with wrap-around; a TCP FIN or RST ends it with that state. |
| `FlowTable.FlowTable.TimerSweep` | src/flowtable/flow_table.cpp:99-123 | One sweep turn, as for Process: exactly the flows whose last packet is less than the timeout, in seconds, ago stay, and the heartbeat clock moves exactly when the interval, in seconds, has passed. |
| `FlowTable.FlowTable.TimerSweepLocked` | src/flowtable/flow_table.cpp:102-122 | The two loops together leave exactly the live flows and offer one End per idle flow and, when due, one heartbeat per live flow, heartbeats first. |
| `FlowTable.FlowTable.SweepLive` | src/flowtable/flow_table.cpp:105-115 | Lists each idle flow once and offers a heartbeat for each live flow exactly when due, in any iteration order. |
| `FlowTable.FlowTable.SweepIdle` | src/flowtable/flow_table.cpp:117-120 | Every listed flow is found again, ended once and removed; no other flow is touched. |
| `FlowTable.FlowTable.DrainAll` | src/flowtable/flow_table.cpp:125-138 | One drain turn, after which the table is empty. |
| `FlowTable.FlowTable.DrainAllLocked` | src/flowtable/flow_table.cpp:127-137 | Every flow is ended once with the idle reason and removed, whatever the order. |
| `FlowTableSpec.AlwaysWellKept` | src/flowtable/flow_table.cpp:53-138 | On every run each flow is filed under its own key, the cap holds, and created is live plus expired. |
| `FlowTableSpec.PacketEventsNamed` | src/flowtable/flow_table.cpp:11-19 | Whatever a packet makes the table offer is about the flow with the packet's own source and destination addresses, ports and protocol. |
| `FlowIdentity.StartNamesPacket` | src/flowtable/flow_table.cpp:71-85 | A packet that opens a flow is announced by exactly one Start, with the packet's own five fields, time and length and a count of one. |
| `FlowIdentity.PacketTouchesOwnFlow` | src/flowtable/flow_table.cpp:55-96 | A packet leaves every flow of other fields alone, and ends the open flow of its own fields or is counted in it. |
| `FlowIdentity.EventsNamePackets` | src/flowtable/flow_table.cpp:53-138 | On every run, each offered event is about the five fields of a packet that has come in by then. |
| `FlowIdentity.SameFlowIffSameFields` | src/flowtable/flow_table.cpp:11-19 | On every run, two admitted packets go into the same flow exactly when their five fields are equal. |
| `FlowLifetimes.PacketAgrees` | src/flowtable/flow_table.cpp:53-97 | One packet moves the table, seen through any one key, as it moves that key's list of packets, and offers the same events. |
| `FlowLifetimes.ClockAgrees` | src/flowtable/flow_table.cpp:99-138 | So do a sweep and a drain. |
| `FlowLifetimes.RunIsFold` | src/flowtable/flow_table.cpp:53-138 | On every run, a flow's events are those made from the list of its admitted packets since its Start, so counts (modulo 2^64), bytes, start and last-seen times are exact; the flow is in the table exactly while that list is open. |
| `FlowLifetimes.EveryFlowHasLifecycle` | src/flowtable/flow_table.cpp:39-51 | Every flow's events form (Start Stats* End)* with Start Stats* at the end exactly when the flow is in the table. |
| `FlowLifetimes.NonInterference` | src/flowtable/flow_table.cpp:53-138 | On a run that never hit the cap, a flow's events are all the events of a table fed that flow's packets alone with the same sweeps and drains. |
| `FlowLifetimes.IterationOrderIrrelevant` | src/flowtable/flow_table.cpp:105-137 | Runs with the same inputs end in the same table and offer the same events as multisets, however the maps were iterated. |
| `FlowLifetimes.SameInputsSameFlows` | src/flowtable/flow_table.cpp:105-137 | Such runs also offer the same sequence of events about each flow. |
| `FlowExpiry.ExpiryAsDocumentedIff` | src/flowtable/flow_table.cpp:88-106 | For every flow of every table a run reaches: the table's idle test agrees with the documented rule at every time exactly when no earlier packet of the flow's life is stamped later than its last. |
| `FlowExpiry.ExpiryNotAsDocumented` | src/flowtable/flow_table.cpp:88-120 | A legal run of two packets and a sweep: the sweep offers the flow's idle End one second after a packet of it, under a sixty second timeout. |
| `FlowExpiry.TeardownAsDocumentedIff` | src/flowtable/flow_table.cpp:59-95 | After a TCP FIN or RST the flow is out of the table exactly when it was in it before, or could not be taken in. |
| `FlowExpiry.FirstTeardownStays` | src/flowtable/flow_table.cpp:60-85 | A legal run whose one packet is a FIN or RST offers a Start and ends with the flow in the table. |
| `FlowExpiry.OnlyFirstTearsDown` | src/flowtable/flow_table.cpp:60-95 | On every run, a flow in the table has had a FIN or RST in its life exactly when its first packet was one. |
| `FlowExpiry.TeardownsReported` | src/flowtable/flow_table.cpp:86-95 | On every run, the events with the teardown reason are exactly those of a FIN or RST that found its flow open, each with the summary of the flow's packets up to and including it, at least two. |
| `FlowLifetimes.EmptyTableIsSilent` | src/flowtable/flow_table.cpp:99-138 | A sweep or drain of an empty table offers nothing and leaves it empty. |
| `FlowLifetimes.DrainCloses` | src/main.cpp:132-136 | After the drain, with sweeps still coming in, nothing more is offered, every flow's events are closed and created equals expired. |
| `FlowAccounting.NothingLost` | src/flowtable/flow_table.cpp:53-138 | For packets and for bytes, live counts plus the counts of all End events equal what was admitted: modulo 2^64 always, exactly while the total fits. |
| `FlowAccounting.FlowsAndPacketsCounted` | src/flowtable/flow_table.cpp:53-97 | Packets received are admitted plus turned away; the flow gauge is created less expired and never above the cap. |
| `FlowAccounting.CountersAreEvents` | src/flowtable/flow_table.cpp:39-85 | On every run the created counter is the number of Start events offered, and each expiry counter the number of End events with its reason. |
| `FlowAccounting.EndedIsClosed` | src/flowtable/flow_table.cpp:39-51 | The End events of a turn report exactly the counts of the flows it closed, in whatever order. |
| `FlowTiming.BeatsSpaced` | src/flowtable/flow_table.cpp:102-122 | Heartbeat sweeps are at least the interval apart, whatever the clock does. |
| `FlowTiming.BeatIff` | src/flowtable/flow_table.cpp:102-122 | A sweep is a heartbeat sweep exactly when the interval, in seconds, has passed since the last one or since time zero, so the first one comes too. |
| `FlowTiming.SweepDoesIff` | src/flowtable/flow_table.cpp:27-28 | On every run, a sweep offers a flow's End exactly when the flow is in the table and its last packet is the timeout, in seconds, or more ago, and its heartbeat exactly when it is in the table, stays, and the interval, in seconds, has passed. |
| `FlowTiming.StatsAtBeats` | src/flowtable/flow_table.cpp:108-113 | Every heartbeat event is stamped with the time of such a sweep. |
| `FlowTiming.BeatsKeepUp` | src/flowtable/flow_table.cpp:102-122 | On a steady clock with sweeps at most G apart, heartbeat sweeps are less than the interval plus G apart. |
| `FlowTiming.IdleEndsOnTime` | src/flowtable/flow_table.cpp:105-120 | An End from a sweep comes no sooner than the timeout, in seconds, after the flow's last packet, and on such a clock sooner than the timeout plus G. |
| `FlowTiming.NominalTiming` | src/main.cpp:119-126 | The timer's own period is half the smaller setting; with it as G, both stay below one and a half times the setting, in seconds. |
| `SinkProtocol.Conserved` | src/kafka/avro_kafka_sink.cpp:45-80 | On every run each popped event is in exactly one of hand, retry buffer, sent, discarded, dropped, and only once; the retry buffer keeps its bound; discarding on retry never happens. |
| `SinkProtocol.InOrderIffNoOvertake` | src/kafka/avro_kafka_sink.cpp:48-77 | Sent followed by waiting is in popped order exactly when no fresh event was sent in an iteration whose retry drain had stopped on a refusal. |
| `SinkProtocol.MergeOfOrdered` | src/kafka/avro_kafka_sink.cpp:48-77 | Without that condition, what was sent still interleaves the direct and the retried events, each in popped order. |
| `SinkProtocol.FifoFails` | src/kafka/avro_kafka_sink.cpp:55-69 | A legal run sends the second of two events first. |
| `SinkProtocol.EventMayBeLeftOver` | src/kafka/avro_kafka_sink.cpp:48-82 | A legal run reaches the loop test with an event in the retry buffer. |
| `SinkLosses.AllDeliveredIff` | src/kafka/avro_kafka_sink.cpp:48-82 | At the loop test every popped event was sent or discarded exactly when the last iteration drained the buffer and left nothing in it, and no fresh event was refused with the buffer full; every one was sent exactly when, besides, all serialize. |
| `SinkLosses.NothingLeftIff` | src/kafka/avro_kafka_sink.cpp:48-77 | At the loop test the retry buffer is empty exactly when the last iteration's drain ran to its end and its fresh attempt was not a refusal that could be buffered. |
| `SinkLosses.NothingDroppedIff` | src/kafka/avro_kafka_sink.cpp:69-76 | Nothing was dropped exactly when no fresh event was refused while as many waited as may wait, counted from the producer's answers. |
| `SinkLosses.BacklogIsRetry` | src/kafka/avro_kafka_sink.cpp:50-72 | That count is the size of the retry buffer on every run. |
| `SinkLosses.FullBufferDropsNewest` | src/kafka/avro_kafka_sink.cpp:69-76 | On every run, a refusal with the buffer full leaves the buffer alone and drops the event in hand, newer than all that wait; the documented rule would lead to the same state exactly when the capacity is not positive. |
| `SinkLosses.NewerDropped` | src/kafka/avro_kafka_sink.cpp:69-76 | A legal run with room for one: the newer of two events is dropped while the older waits. |
| `SinkOrder.OrderIff` | src/kafka/avro_kafka_sink.cpp:48-77 | Whichever events are chosen: those sent, with those waiting behind, are in popped order exactly when no fresh one was sent while another waited; those sent are exactly when none was sent from the buffer after that. |
| `SinkOrder.OrderFails` | src/kafka/avro_kafka_sink.cpp:55-69 | A legal run sends the second of two chosen events, such as two of one flow, first. |
| `SinkOrder.SentInOrderIff` | src/kafka/avro_kafka_sink.cpp:48-77 | Everything sent is in popped order exactly when no event was sent from the buffer after a fresh one had overtaken it. |
| `SinkProtocol.StepKeepsInv` | src/kafka/avro_kafka_sink.cpp:50-77 | Every sink action keeps ledger, bound and order, and is never a discard on retry. |
| `AvroKafkaSink.AvroKafkaSink.constructor` | src/kafka/avro_kafka_sink.cpp:8-18 | The thread starts with an empty history. |
| `AvroKafkaSink.AvroKafkaSink.RetryFront` | src/kafka/avro_kafka_sink.cpp:51-59 | The front of the buffer is handed to the producer under its own key and with its own payload, leaves the buffer exactly when it is taken, and the history grows by that retry. |
| `AvroKafkaSink.AvroKafkaSink.DrainRetryBuffer` | src/kafka/avro_kafka_sink.cpp:50-64 | The inner loop terminates for any answers of the producer; history, what was sent and what Kafka took only grow; events move only from the front of the buffer to the end of what was sent, each handed over as its own message; deque and counters are what the history says. |
| `AvroKafkaSink.AvroKafkaSink.AttemptProduce` | src/kafka/avro_kafka_sink.cpp:33-43 | False exactly when the producer refuses; an unserializable event is counted and reported as done; exactly the event's own key and payload are handed over. |
| `AvroKafkaSink.AvroKafkaSink.Produce` | src/kafka/kafka_producer.cpp:56-72 | Any answer, with its counter; exactly the key and payload given are recorded as taken. |
| `AvroKafkaSink.AvroKafkaSink.Handle` | src/kafka/avro_kafka_sink.cpp:68-77 | The history grows by one attempt with the producer's answer; a refused event is kept at the back of the buffer and counted once, or dropped and counted twice when the buffer is full; else the buffer stays. |
| `AvroKafkaSink.AvroKafkaSink.Consume` | src/kafka/avro_kafka_sink.cpp:66-77 | Moves the oldest queued event to the popped ones and deals with it; the history and what was sent only grow, and the loop's test is next. |
| `AvroKafkaSink.AvroKafkaSink.SinkThreadFunc` | src/kafka/avro_kafka_sink.cpp:45-85 | For any batches pushed before stop: every accepted event is popped in order, the queue ends empty, after stop exactly as many iterations run as events were queued, and the history only grows, to a point where the loop tests its condition. |
| `AvroKafkaSink.AvroKafkaSink.PushAll` | src/kafka/avro_kafka_sink.cpp:25-27 | Of a batch, exactly what fits enters the queue, in order. |
| `AvroKafkaSink.AvroKafkaSink.HandedReadBack` | src/kafka/avro_kafka_sink.cpp:33-59 | Message i that Kafka took is that of event i of those sent: a reader gets the event's flow from its key and the event's on-wire part from its payload. |
| `AvroKafkaSink.MessageReadsBack` | src/kafka/avro_kafka_sink.cpp:35-37 | Key and payload of an event read back as its flow and its on-wire part. |
| `Pipeline.StepKeepsInv` | src/main.cpp:95-142 | Every step of every thread keeps the invariant that ties table, mutex, ring, sink and shutdown together. |
| `Pipeline.Conservation` | src/main.cpp:110-142 | In every reachable interleaving each event taken from the table is found exactly once over all places: refused by the ring, being pushed, in the ring, in hand, waiting to be retried, sent, discarded, dropped; and each event being pushed, in the ring or popped is the one that was offered. |
| `Pipeline.DeliveryOrder` | src/kafka/avro_kafka_sink.cpp:48-77 | Sent followed by waiting is in the order the table offered, exactly when no fresh event overtook a blocked retry. |
| `Pipeline.ShutdownClosure` | src/main.cpp:128-142 | When the sink has exited, every offered event was pushed or refused, the ring is empty with every accepted event popped, the table is empty, and every flow's events are closed. |
| `Pipeline.CleanRunDeliversAll` | src/main.cpp:110-142 | A run that refused, dropped, discarded, left over and overtook nothing has sent exactly the table's events in the table's order. |
| `Delivery.FlowOrderIff` | src/kafka/avro_kafka_sink.cpp:48-77 | In every interleaving and for every flow: Kafka gets the flow's events in the order offered exactly when no event of it was sent from the retry buffer after a fresh event of the same flow had been sent past one that waited. |
| `Delivery.AllDeliveredIff` | src/main.cpp:110-142 | When the sink has exited, every offered event was handed to Kafka exactly when the ring refused none, all serialize, no fresh event was refused with the retry buffer full, and the last iteration left that buffer empty. |
| `Delivery.AllDeliveredInOrderIff` | src/main.cpp:110-142 | They were handed over once each in the order offered exactly when, besides, no fresh event overtook a blocked retry. |
| `SinkExit.SinkFinishes` | src/kafka/avro_kafka_sink.cpp:48-80 | From the read that sees stop requested on, in every interleaving and for any answers: only the sink moves, each complete iteration pops one event, the number of steps is bounded by the queued events and the buffer size, another step can be taken until the sink exits, and by then as many iterations were completed as events were queued. |
| `SinkExit.StoppingRun` | src/kafka/avro_kafka_sink.cpp:48-77 | The same count at every point of the way, between iterations and inside them. |
| `Pipeline.PlacesCover` | src/kafka/avro_kafka_sink.cpp:67-76 | Places naming every popped position once carry the popped identities, each as often as it was popped. |
| `PacketDecoder.SetIpv4Mapped` | src/packets/packet_decoder.cpp:22-27 | The sixteen bytes become the IPv4-mapped form of the four. |
| `PacketDecoder.DecodeFrame` | src/packets/packet_decoder.cpp:31-123 | The offset-by-offset decoder computes Decode of the captured bytes alone. |
| `PacketDecoder.TransportOffset` | src/packets/packet_decoder.cpp:34-87 | The offset before the transport check lies within the capture, between 34 and 78, and is 78 exactly for a tagged IPv4 frame with the longest header. |
| `PacketDecoder.ReadNetwork` | src/packets/packet_decoder.cpp:55-84 | The IP header at the offset fills addresses, protocol and length, and moves the offset by the header's own length of 20 to 60 bytes, within the capture. |
| `PacketDecoder.ReadIpv4` | src/packets/packet_decoder.cpp:55-68 | The IPv4 case. |
| `PacketDecoder.ReadIpv6` | src/packets/packet_decoder.cpp:70-80 | The IPv6 case. |
| `PacketDecoder.ReadTransport` | src/packets/packet_decoder.cpp:87-120 | The transport header at the offset fills ports and flags, or the frame is refused. |
| `Frames.BuiltDecodes` | src/packets/packet_decoder.cpp:31-123 | Every well-formed frame, with any payload behind it, decodes to its own fields. |
| `Frames.DecodesIffFrame` | src/packets/packet_decoder.cpp:31-123 | A capture decodes to a packet exactly when it begins with a well-formed frame of that packet. |
| `Frames.TrailingBytesIgnored` | src/packets/packet_decoder.cpp:34-120 | Appending bytes to a frame that decodes changes nothing. |
| `Frames.TagTransparent` | src/packets/packet_decoder.cpp:43-50 | One 802.1Q tag before an IP EtherType changes nothing, whether or not the frame decodes. |
| `AddressText.DottedRoundTrip` | src/avro/avro_serializer.cpp:26-29 | IPv4 text reads back as the same four bytes. |
| `AddressText.V6RoundTrip` | src/avro/avro_serializer.cpp:30-34 | IPv6 text, in either notation of the ::a.b.c.d addresses, reads back as the same address and uses only hexadecimal digits, colons and dots. |
| `AddressText.LongestRun` | src/avro/avro_serializer.cpp:30-34 | The run of zero groups written as "::" is a longest one and the first such. |
| `AddressForm.V6Canonical` | src/avro/avro_serializer.cpp:30-34 | "::" is present exactly when two zero groups are adjacent, then stands for all of the first longest run of zero groups, and nothing else is left out; no group has a leading zero. |
| `AddressForm.MixedIff` | src/avro/avro_serializer.cpp:30-34 | The notation with an embedded IPv4 address is used exactly for six zero groups followed by a group that is not zero. |
| `AddressForm.DigitsCanonical` | src/avro/avro_serializer.cpp:65-67 | A number starts with the digit zero only when it is zero. |
| `AddressForm.DottedNotPadded` | src/avro/avro_serializer.cpp:26-29 | No byte of a dotted address has a leading zero. |
| `FlowNames.IpPartRoundTrip` | src/avro/avro_serializer.cpp:59-66 | An endpoint, bracketed when it is not IPv4-mapped, is split from what follows and read back. |
| `FlowNames.FlowIdRoundTrip` | src/avro/avro_serializer.cpp:55-68 | The key is recovered from its text. |
| `FlowNames.FlowIdInjective` | src/avro/avro_serializer.cpp:55-68 | Different flows have different names, and so different message keys. |
| `FlowNames.FlowIdAscii` | src/avro/avro_serializer.cpp:55-68 | The name is ASCII. |
| `FrameNames.V4FrameNamed` | src/avro/avro_serializer.cpp:55-68 | An IPv4 frame decodes to a packet of the flow named by the dotted addresses of its header, its ports or ICMP type and code, and the protocol number. |
| `FrameNames.V6FrameNamed` | src/avro/avro_serializer.cpp:55-68 | An IPv6 frame likewise, with brackets around addresses that are not IPv4-mapped. |
| `FrameNames.ExampleName` | tests/test_kafka_key.cpp:27-32 | One flow's name, letter by letter. |
| `AvroSerializer.Serialize` | src/avro/avro_serializer.cpp:70-153 | Filling the record field by field and appending header and payload yields the wire bytes. |
| `AvroSerializer.FilledRecord` | src/avro/avro_serializer.cpp:95-129 | Each of the thirteen schema positions gets its own field of the event. |
| `AvroSerializer.WireRoundTrip` | src/avro/avro_serializer.cpp:70-153 | A reader written from the Avro specification recovers schema id and all named fields, a reason exactly for End, and consumes exactly the message. |
| `AvroSerializer.ReasonOnWire` | src/avro/avro_serializer.cpp:118-129 | The reader finds "idle_timeout" exactly for an idle End, "tcp_teardown" exactly for a TCP teardown, and no reason exactly for any other event. |
| `AvroSerializer.RecordRoundTrip` | schemas/FlowEvent.avsc:6-41 | The same for the record, in schema order. |
| `AvroSerializer.EventRoundTrip` | src/avro/avro_serializer.cpp:93-128 | The event is recovered from its record, with counters modulo 2^64, except for what the wire leaves out. |
| `AvroSerializer.SameMessageIffSameOnWire` | src/avro/avro_serializer.cpp:70-153 | Two events make the same message exactly when they agree on all but the last-seen time and, unless Ends, the reason. |
| `AvroSerializer.VarintRoundTrip` | src/avro/avro_serializer.cpp:133-138 | Variable-length integers read back, leaving what follows. |
| `AvroSerializer.StringRoundTrip` | src/avro/avro_serializer.cpp:133-138 | ASCII strings read back, leaving what follows. |
| `FlowKeyHash.Hash` | src/events/flow_key.hpp:22-35 | The loops over the fields compute the hash of the 37-byte encoding. |
| `FlowKeyHash.PublishedValues` | src/events/flow_key.hpp:24-26 | The hashes of no bytes and of the letter a are the published ones. |
| `FlowKeyHash.UnmixMix` | src/events/flow_key.hpp:26 | A mixing step can be undone. |
| `FlowKeyHash.MixUnmix` | src/events/flow_key.hpp:26 | Every state is reached by a mixing step, which is thus a bijection. |
| `FlowKeyHash.MixInjective` | src/events/flow_key.hpp:26 | Equal results with equal states or equal bytes come from equal states and bytes. |
| `FlowKeyHash.EncodingInjective` | src/events/flow_key.hpp:17-33 | The hashed bytes tell keys apart. |
| `FlowKeyHash.NearbyKeysSeparated` | src/events/flow_key.hpp:22-35 | Keys whose encodings differ in exactly one byte never share a hash. |

## Left out

- `EventQueue.EventQueue.PopWait`: of the other thread's pushes during the bounded wait only the first is given, and nothing is claimed about wake-up latency; `Pipeline` interleaves the waiting thread's looks at the index with the producer.
- `AvroKafkaSink.AvroKafkaSink.SinkThreadFunc`: the producer's pushes come as one batch per iteration, because a Dafny method runs alone; `Pipeline` has the step-by-step interleaving, and `SinkExit.SinkFinishes` the same count of iterations for it.
- `AvroKafkaSink.AvroKafkaSink.DrainRetryBuffer`: the discard of an unserializable event is dead code there and stands as an assertion, because serialization is taken to be a function of the event.
- Memory model: relaxed, acquire and release accesses of the two index cells are modelled as per-cell modification orders with clocks; fences and read-modify-write operations do not occur in the source.
- The capture and timer threads are one producer of the ring because they push under the table's mutex; that the mutex orders their accesses is assumed.
- Timestamp subtraction and the drop count are unbounded integers; the source leaves their overflow undefined.
- Timestamps of a frame whose seconds and microseconds do not fit 64-bit microseconds are excluded by a precondition of the decoder.
- librdkafka: produce is any boolean; delivery reports, poll and flush are not modelled.
- avro-cpp and inet_ntop are modelled from the Avro specification and from RFC 4291 and RFC 5952, not from their code; their failure paths are one predicate, serializable.
- Schema Registry client, schema parsing, Prometheus registry, configuration parsing, logging, signals and packet capture are not part of this model.
- Undecodable frames are counted by the capture callbacks as dropped; that one increment is not modelled.
