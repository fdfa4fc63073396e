# TickForge ingestion: a verified model

TickForge takes market events from a live WebSocket feed or from a capture file, passes them
through a bounded queue to a publisher, and reads them back from Kafka or from the capture.
What its comments and documents promise about that path are statements about interleavings,
runs and files: order, no loss, drain on shutdown, no hang, replay of what was recorded.
This project models the code in Dafny 4.11 and proves those statements. Verify it with
`dafny verify dfyconfig.toml`.

## How it is built

**The queue.** `BoundedQueues` has the code that runs under the mutex, as functions on what
the mutex guards and as a mutable class with ghost histories. `QueueMonitor` is the monitor:
any number of pushers, poppers and shutdown callers, one mutex, two wait sets, signalling
after the unlock, spurious wakeups. `QueueInvariants` counts, for every parked thread, who
still owes it a wakeup. `QueueTheorems` has the promises, and runs every schedule on the class.

**The pipeline.** `Pipeline` is the owner, ingest and publish threads around the same monitor,
with a source that keeps `SourceContract` and a publisher that answers anything.
`PipelineInvariants`, `PipelineTheorems` and `PipelineProgress` have safety, the final state
and termination of `stop()`. `IngestionPipelines` is the object with its loops;
`PipelineObjects` runs every interleaving on it, by the same small methods. `StatsSnapshot` says
exactly when `stats()` is consistent.

**The live source.** `LiveMachine` interleaves `next()` with any number of `stop()` callers and
`start()`; `LiveTheorems` has the race with connecting, transparent reconnection and the end of
`next()`; `LiveContract` shows that it keeps `SourceContract`, and `LivePipeline` runs `Pipeline`
and `LiveMachine` together. `LiveSources` is the class with its loops, and `Backoff` the
arithmetic of its waits.

**Capture and replay.** `Json` is a strict parser and a printer of flat objects, at the level
of characters; `JsonRoundTrip`, `JsonPrefix` and `JsonAppend` say what the parser makes of a
printed object, of its beginnings, and of beginnings glued to each other. `JsonNumbers` has the
numbers that the library's parser converts while it reads, in its order: at the first that is
out of range of a double it throws; `JsonNumbersMet` says which are met in printed objects and
their beginnings. `MarketEvents` and `CodecTheorems` are the event format (an event *survives*
it if its symbol is not empty, its price is finite and its time is whole milliseconds);
`LineFiles` and `SkipAndCount` the theory of files of lines and of the loop shared by the replay
source and the Kafka consumer, exceptions included; `Sessions` that of a file written in several
sessions, each cut short anywhere; `Capture` the two classes, `CaptureTheorems` what a replay
gives, and `ReplayContract` that the replay source keeps `SourceContract` too.

**Kafka and the ends.** `Kafka` has the producer and consumer classes, `PartitionedLog` and
`PerSymbolOrder` the order of events through partitions, `EndToEnd` joins pipeline, Kafka and
capture. `Binance` is the trade parser with the decimal conversion it uses, `Symbols` the way
from the configured list to the stream request.

## What the proofs found

- A capture that was cut anywhere but right after a newline, and is then opened for appending
  (src/event_recorder.cpp:10), loses the first new event together with the unfinished one
  (`CaptureTheorems.AppendAfterCrash`, for every cut and all events). After any number of such
  sessions, each cut anywhere, the replay gives just the events alone on their line; every
  restart costs at most two whole objects, and every session leaves at most one malformed line
  (`CaptureTheorems.SessionsReplay`, `Sessions.LossIsBounded`).
- A number too large for a double, such as `1e999`, makes the JSON library throw `out_of_range`
  where it reads it, also in a text that is malformed further on. src/replay_source.cpp:34, src/kafka_event_consumer.cpp:88 and
  src/binance_trade_parser.cpp:26 catch `parse_error` only, so the exception leaves `next()` and
  the line is not skipped. A file is replayed to its end if and only if no line of it
  meets such a number (`Capture.ReplaySource.ReplayAll`); no recording, however often it was cut
  and appended to, has such a line (`CaptureTheorems.SessionsReplay`).
- The trade parser accepts the price texts `inf` and `nan`, because the only test after the
  conversion is `price <= 0.0` (src/binance_trade_parser.cpp:67-74). Such an event is recorded
  and published with price `null`, and no reader accepts it
  (`Binance.NonFinitePriceAccepted`, `Binance.TradeThroughCodec`).
- It also accepts a price text with anything after the number (`Binance.TrailingTextIgnored`).
- The format is called an inverse (include/tickforge/market_event_json.hpp:28), which holds for
  an event if and only if its symbol is not empty, its price is finite and its time is whole
  milliseconds (`CodecTheorems.RoundTripExactly`).
- A stored time of more than 9223372036854 ms on either side of the epoch does not fit the
  nanosecond clock. The time read is the time stored if and only if it fits, and what was read
  survives another trip if and only if the overflow lost a multiple of 15625 times 2^64
  (`CodecTheorems.Normalisation`, where the overflow that C++ leaves undefined wraps).
- `stats()` reads received, then published, then failures, while the threads run on. Called by
  the owner, as everywhere in the repository, it shows no more outcomes than events received, in
  every run, if and only if the pipeline has not been started, the queue has capacity 0, or no
  further event can be counted. For a caller on another thread, which `start()` and `stop()` may
  overtake too, it is if and only if one of the last two holds
  (`StatsSnapshot.SnapshotConsistency`). So the periodic report of a running pipeline may show
  more published than received (`StatsSnapshot.SnapshotMayDisagree`), and one made after
  `ingestFinished()` returned true may not. Reading the counters in the other order would be
  consistent at all times (`PipelineTheorems.OutcomesBeforeReceived`).
- On a source that is bound to end, `stop()` on the pipeline comes to its end if and only if the
  queue has room for an item or the source never delivered one (`PipelineProgress.StopReturns`);
  with capacity 0 one delivered event is enough for it never to return
  (`PipelineProgress.CapacityZeroNeverStops`). On a live source it also needs `requestStop()`
  (`PipelineTheorems.StopNeedsAnEndingSource`).
- `stop()` on the live source ends a read, but not a connection attempt: resolving, connecting
  and the handshakes run on a connection that is not stored yet (src/live_source.cpp:52-81). That
  is the only place where `next()` can still wait for something outside
  (`LiveTheorems.StopAndNextNeverStuck`).

## Model

| member | source | states |
|---|---|---|
| BoundedQueues.BoundedQueue.Push | include/tickforge/bounded_queue.hpp:33-49 | The part of `push` under the mutex: it lets the item in at the back exactly if the queue is open and has room, refuses if it is shut, else waits; the high-water mark follows; the history of accepted items grows by just that item. |
| BoundedQueues.BoundedQueue.Pop | include/tickforge/bounded_queue.hpp:54-65 | The part of `pop` under the mutex: it takes the front item whenever there is one, shut or not, and reports the end only when shut and when everything ever accepted has been handed out. |
| BoundedQueues.BoundedQueue.Shutdown | include/tickforge/bounded_queue.hpp:70-77 | Only the flag changes; nothing queued is dropped. |
| QueueInvariants.EmptyWakeStep | include/tickforge/bounded_queue.hpp:54-64 | Every step keeps: while a popper is parked, there are at least as many woken poppers and unsignalled pushers as queued items. |
| QueueInvariants.FullWakeStep | include/tickforge/bounded_queue.hpp:33-49 | Every step before shutdown keeps: while a pusher is parked, there are at least as many woken pushers and unsignalled poppers as free slots. |
| QueueInvariants.ShutWakeStep | include/tickforge/bounded_queue.hpp:70-77 | Every step keeps: while a thread is parked on a shut queue, a notify_all on its condition is still to come. |
| QueueInvariants.LogStep | include/tickforge/bounded_queue.hpp:33-65 | Every step keeps the agreement of each thread's own record of its calls with the history in lock order. |
| QueueInvariants.InvStep | include/tickforge/bounded_queue.hpp:33-77 | Every step of any thread keeps all parts of the invariant: mutual exclusion, order, the threads' own records, the wakeup counts, shutdown. |
| QueueTheorems.NoLostWakeup | include/tickforge/bounded_queue.hpp:33-77 | In every reachable state each parked thread is answered for: by counted threads while the queue is open, by a pending notify_all once it is shut. |
| QueueTheorems.BusyThreadMoves | include/tickforge/bounded_queue.hpp:33-77 | A thread in the queue that is not parked always lets some thread make a step. |
| QueueTheorems.StuckOnlyForCause | include/tickforge/bounded_queue.hpp:19-25 | When nothing in the queue can move, every thread in it is parked, poppers on an open empty queue and pushers on an open full one; with capacity 1 or more not both. |
| QueueTheorems.LinearisedFifo | include/tickforge/bounded_queue.hpp:33-65 | Popped items, then the queue, are the accepted pushes in lock order; each producer's items leave in its own order; each consumer got just what the history says; the length stays within capacity. |
| QueueTheorems.HighWaterIsPeak | include/tickforge/bounded_queue.hpp:43-45 | The high-water mark is the largest length of the queue in any state of the run. |
| QueueTheorems.DrainedMeansAllDelivered | include/tickforge/bounded_queue.hpp:22-25 | Once one pop has reported the end, everything ever accepted has been popped, and nothing is accepted or popped any more. |
| QueueTheorems.PerformStep | include/tickforge/bounded_queue.hpp:33-77 | One step of the monitor is at most one critical section run on the class. |
| QueueTheorems.PerformRun | include/tickforge/bounded_queue.hpp:33-77 | Any schedule of any number of threads, run on a fresh queue object, ends with the contents and histories of the monitor. |
| PipelineInvariants.OrderStep | src/ingestion_pipeline.cpp:22-50 | Every step keeps the order of the life of the threads: spawn, join ingest, shut down, join publish. |
| PipelineInvariants.CloseStep | src/ingestion_pipeline.cpp:39-45 | Every step keeps: only the owner shuts the queue, after the ingest thread has ended, and no push is ever refused. |
| PipelineInvariants.FlowStep | src/ingestion_pipeline.cpp:62-90 | Every step keeps conservation: taken from the source = tried at the publisher, then held, queued and held again, in order. |
| PipelineInvariants.CountStep | src/ingestion_pipeline.cpp:65-84 | Every step keeps the three counters and the flush record equal to what has happened, up to the positions of the threads. |
| PipelineInvariants.RecorderStep | src/ingestion_pipeline.cpp:66-68 | Every step keeps the recorder's contents equal to what was taken, up to the event in hand. |
| PipelineTheorems.Reached | src/ingestion_pipeline.cpp:22-90 | The whole invariant holds in every state of every interleaving, whatever the capacity and the source. |
| PipelineTheorems.Conservation | src/ingestion_pipeline.cpp:62-90 | In every reachable state what the source delivered is what `publish` was called on followed by what is in transit, and received, published + failures and the recorder lag by at most one. |
| PipelineTheorems.ShutOnlyAfterIngest | src/ingestion_pipeline.cpp:35-50 | A shut queue means the ingest thread has finished; `push` never returns false to it, the `break` is never taken; the publish loop ends only on an empty queue. |
| PipelineTheorems.StopDrainsEverything | include/tickforge/ingestion_pipeline.hpp:62-67 | When `stop()` has returned, publish was called on exactly the delivered sequence, received = published + failures, the queue is empty, the recorder is complete, flush ran once after the last publish; later requestStop, stop or destructor calls change nothing. |
| PipelineTheorems.StopNeedsAnEndingSource | include/tickforge/ingestion_pipeline.hpp:27-35 | `stop()` alone does not return on a source that never ends: ingest finishes only after requestStop or when the source has run out. |
| PipelineTheorems.BoundedOverrun | src/ingestion_pipeline.cpp:29-33 | After `requestStop()` the received counter grows by at most one in any continuation. |
| PipelineTheorems.OutcomesBeforeReceived | src/ingestion_pipeline.cpp:52-60 | Published + failures read at one moment never exceed received read at a later one. |
| StatsSnapshot.SnapshotConsistency | src/ingestion_pipeline.cpp:52-60 | In every reachable state, and however the other threads run between the reads, `stats()` called by the owner shows no more outcomes than events received if and only if the pipeline is not started, the capacity is 0, or no further event can be counted; called by any thread, if and only if one of the last two holds; none can be counted once `ingestFinished()` is true. |
| StatsSnapshot.Overtaken | src/ingestion_pipeline.cpp:52-60 | From every state that keeps the invariant, with room in the queue and an event still to be counted, some run without failing publishes leads to more outcomes than were received at its beginning; once the threads run, without a step of the owner. |
| StatsSnapshot.SnapshotMayDisagree | src/ingestion_pipeline.cpp:52-60 | For example, for every capacity above 0 the owner of a running pipeline can be shown more events published than received, by steps of the other two threads alone. |
| PipelineProgress.NeverStuck | src/ingestion_pipeline.cpp:35-50 | While `stop()` runs and the source is bound to end, some thread can work; the queue must have room for one item unless nothing was ever taken. |
| PipelineProgress.WorkLeftStep | src/ingestion_pipeline.cpp:22-90 | Every step but a spurious wakeup lowers a measure over source, queue, signals and thread positions; a spurious wakeup raises it by at most 2. |
| PipelineProgress.WorkIsBounded | src/ingestion_pipeline.cpp:22-90 | However the threads are scheduled, the measure bounds the steps they can still take. |
| PipelineProgress.StopReturns | include/tickforge/ingestion_pipeline.hpp:27-35 | Once `stop()` is called on a source bound to end, every schedule takes a bounded number of steps; one that comes to rest has returned from `stop()` if and only if the capacity is above 0 or nothing was taken, and then everything has been delivered. |
| PipelineProgress.CapacityZeroNeverStops | src/ingestion_pipeline.cpp:62-74 | With capacity 0 the first delivered event is held in push for ever: nothing is published, ingest never finishes, `stop()` never returns. |
| IngestionPipelines.IngestionPipeline.RequestStop | src/ingestion_pipeline.cpp:29-33 | The source is stopped if and only if the pipeline was started (or it was stopped before). |
| IngestionPipelines.IngestionPipeline.PublishOne | src/ingestion_pipeline.cpp:78-87 | One turn of the publish loop: the front item goes to the publisher, and the counter of its answer goes up. |
| IngestionPipelines.IngestionPipeline.PushWaiting | src/ingestion_pipeline.cpp:69-71 | A push that waits while the publish thread makes turns lets the item in, or returns false on a shut queue. |
| IngestionPipelines.IngestionPipeline.RunIngest | src/ingestion_pipeline.cpp:62-74 | The ingest loop, with any number of publish turns in between: every event is counted, recorded and let in, in order; on a shut queue it ends at the first push. |
| IngestionPipelines.IngestionPipeline.RunPublish | src/ingestion_pipeline.cpp:76-90 | On a shut queue the publish loop empties it and then flushes once. |
| IngestionPipelines.IngestionPipeline.Stop | src/ingestion_pipeline.cpp:35-50 | `stop()` leaves a pipeline that was not started, or is already stopped, untouched; else the ingest loop runs to its end if it has not, all that was accepted has been tried in order, and the publisher flushed. |
| IngestionPipelines.IngestionPipeline.Close | src/ingestion_pipeline.cpp:17-20 | requestStop and stop, as the destructor calls them: after an earlier `stop()` queue and publisher stay as they are, else everything let in has been tried and flushed once. |
| IngestionPipelines.IngestAndStop | src/ingestion_pipeline.cpp:17-50 | Start, the ingest loop, requestStop, stop and the destructor's calls: attempts, recorder and counters equal what was delivered, with one flush. |
| PipelineObjects.PerformStep | src/ingestion_pipeline.cpp:17-90 | Each step of the machine is one of the small methods the loops are made of, or one critical section of the queue, run on the object, whose fields stay equal to the machine's state. |
| PipelineObjects.PerformRun | src/ingestion_pipeline.cpp:17-90 | Any interleaving of the three threads with any publisher, run on a fresh object; if `stop()` has returned, attempts, recorder, counters and flush agree with what was delivered. |
| LiveTheorems.InvRun | src/live_source.cpp:52-187 | Mutex, connection and counters stay consistent over every interleaving of next, stop and start. |
| LiveTheorems.StopLeavesNothingOpen | src/live_source.cpp:176-187 | Once `stop()` has completed, and until `start()`, no open connection is stored or about to be stored, so `next()` is never in a read on an open one. |
| LiveTheorems.EachStopLeavesNothingOpen | src/live_source.cpp:176-187 | The same from the moment one call of `stop()` completes, even while others are pending. |
| LiveTheorems.ReconnectionIsTransparent | src/live_source.cpp:122-174 | `connected_` implies a stored connection; between calls received = malformed + returned; reconnects = successful connects less one. |
| LiveTheorems.FalseOnlyWhenStopped | include/tickforge/live_source.hpp:35-38 | `next()` turns to returning false only at a moment at which stop is requested. |
| LiveTheorems.DisconnectsNeverEndNext | include/tickforge/live_source.hpp:35-38 | In a run without a call of `stop()` no disconnect or failed connect makes `next()` return false. |
| LiveTheorems.NextEndsSoon | src/live_source.cpp:122-174 | Once the flag is set, the call of `next()` in progress takes at most 13 more steps. |
| LiveTheorems.StopAndNextNeverStuck | src/live_source.cpp:52-94 | Once stop is requested and until both are done, some thread has a step that waits for nothing outside if and only if `next()` is not inside a connection attempt or some `stop()` is still at work. |
| LiveContract.LiveKeepsContract | include/tickforge/market_data_source.hpp:36-45 | Every step of the live source is one that the contract of a source allows. |
| LiveContract.LiveOverrun | src/live_source.cpp:122-174 | After `stop()`, and until `start()`, at most one more event is returned. |
| LivePipeline.LiveRunsAreRuns | include/tickforge/ingestion_pipeline.hpp:27-35 | Every run of pipeline and live source together is, as the pipeline sees it, a run of the pipeline on an endless source; neither ever refuses a step of the other. |
| LivePipeline.LiveStopDrainsEverything | include/tickforge/ingestion_pipeline.hpp:62-67 | When `stop()` has returned on a pipeline with a live source, everything delivered has been published, and no open connection is left once the source's own `stop()` calls have completed. |
| LivePipeline.LiveBoundedOverrun | src/live_source.cpp:122-174 | In the two together the received counter grows by at most one once a stop has been requested. |
| LiveSources.LiveSource.ConnectOnce | src/live_source.cpp:52-94 | It reports success only with a connection stored and the flag seen unset after the handshake; one made while `stop()` ran is thrown away. |
| LiveSources.LiveSource.EnsureConnected | src/live_source.cpp:96-120 | It gives up only when stopped; its waits are the backoff schedule from its beginning; the reconnect counter stays one below the successful connects. |
| LiveSources.LiveSource.Turn | src/live_source.cpp:123-172 | One turn of the loop of `next()`, with its branch for a missing connection: a good message is handed out, any other counted as malformed, a failed read ends it only if stopped. |
| LiveSources.LiveSource.Next | src/live_source.cpp:122-174 | It returns nothing only when stopped, else the first good message it reads; at every return received = malformed + returned, where malformed and returned are just the bad and good messages read. |
| Backoff.NextDelay | src/live_source.cpp:118 | Doubling with a ceiling equals min(initial * 2^k, max). |
| Backoff.DefaultTotal | include/tickforge/live_source.hpp:29-30 | With the defaults n >= 5 failures of one outage wait 31000 + 30000 * (n - 5) ms in all. |
| Backoff.AttemptsInFiveMinutes | docs/milestone-1-ingestion.md:19 | At most 14 attempts of one outage begin within any 5 minutes, far below the limit of 300. |
| JsonRoundTrip.CharsParse | src/event_recorder.cpp:21 | Any string, escaped as it is printed, parses back to itself with what follows left over. |
| JsonRoundTrip.ObjectParses | src/event_recorder.cpp:21 | A printed flat object parses to the object of its members. |
| JsonPrefix.ValuePrefix | src/replay_source.cpp:31-37 | What the strict parser does on any beginning of a text it parses: the same if what it consumed is there; else it fails, or is at the end of a number cut short. |
| JsonAppend.AppendedIsRejected | src/event_recorder.cpp:10-14 | A beginning of a printed object, or the whole of it, with such beginnings, any number of them, right after it is no JSON text. |
| JsonNumbersMet.ParsedIsMet | src/replay_source.cpp:31-37 | Of a number text the parser accepts, just that text is converted to a double, unless it is an integer of 64 bits. |
| JsonNumbersMet.ObjectMet | src/replay_source.cpp:31-37 | In a printed object, in any beginning of it, and with beginnings glued to it, every number the parser converts is in range if those of the object are, however they are cut. |
| MarketEvents.MembersAreTheObject | src/market_event_json.cpp:21-33 | The members as printed, each key once, make up the encoded object. |
| MarketEvents.MembersAscend | replay/btcusdt_ethusdt_sample.jsonl:1 | The keys are printed in strictly ascending order. |
| CodecTheorems.MillisAndBack | src/market_event_json.cpp:25-27 | Times are cut toward zero to the millisecond without overflow, and come back exactly if and only if they are whole milliseconds. |
| CodecTheorems.DecodeEncode | src/market_event_json.cpp:21-67 | What decoding makes of any encoded event: rejected without a symbol or a finite price, else the event cut to milliseconds. |
| CodecTheorems.RoundTripExactly | include/tickforge/market_event_json.hpp:28-35 | Printing, parsing and decoding gives the same event if and only if its symbol is not empty, its price is finite and its time is whole milliseconds. |
| CodecTheorems.StoredTime | src/market_event_json.cpp:57-58 | For every stored number of milliseconds: the time read is that time if and only if it is within the bound, and is whole milliseconds if and only if the overflow lost a multiple of 15625 times 2^64. |
| CodecTheorems.Normalisation | src/market_event_json.cpp:35-67 | What was decoded from any accepted object, whatever else it held, decodes to itself again if and only if its stored time lost a multiple of 15625 times 2^64, above all none; its time is the stored one if and only if that is within the bound. |
| CodecTheorems.TimeBeyondTheBound | src/market_event_json.cpp:57-58 | An example: one millisecond above the bound an accepted object no longer survives. |
| LineFiles.LinesOfFile | src/replay_source.cpp:26 | Reading a file of lines, with or without a last newline, gives the lines. |
| LineFiles.CutFile | src/event_recorder.cpp:21 | A file cut at any character is some complete lines and the beginning of the next. |
| SkipAndCount.NothingUnaccounted | src/replay_source.cpp:24-54 | Delivered, malformed and ignored inputs are never more than the inputs, and just as many if and only if none raises an exception. |
| SkipAndCount.StoppedEarlier | src/replay_source.cpp:20-26 | Stopped at any moment, the loop has handed out the first part of what the full run hands out. |
| SkipAndCount.TakenSoFar | src/replay_source.cpp:24-54 | What the loop has delivered at any moment is a prefix of what the inputs before the first exception hold, and all of it at the end or at an exception. |
| Sessions.SessionsRead | src/event_recorder.cpp:10-14 | For any format of one line per record in which beginnings are malformed, alone or glued: what is read of a file written in any number of sessions, each cut anywhere. |
| Sessions.LossIsBounded | src/event_recorder.cpp:10-14 | Every restart costs at most two whole objects, and every session leaves at most one bad line. |
| ReplayContract.ReplayKeepsContract | include/tickforge/market_data_source.hpp:36-45 | Every step of the replay source is one that the contract of a source allows, its supply being the events the rest of the file holds before a line that throws; an exception comes from such a line and nothing else. |
| ReplayContract.ReplayOverrun | src/replay_source.cpp:20-54 | After `stop()` at most one more event is returned. |
| Capture.EventRecorder.Record | src/event_recorder.cpp:16-23 | One printed object and a newline are appended. |
| Capture.ReplaySource.Next | src/replay_source.cpp:24-54 | `next()` hands out the event of the first good line, having skipped blank lines and counted malformed ones; nothing only if stopped or at the end; it throws just at a line with a number out of range; no line is read once stop is seen. |
| Capture.ReplaySource.ReplayAll | src/replay_source.cpp:24-54 | All calls together deliver the events of the lines read, a prefix of those before the first line that throws; lines = events + malformed + blank, and one more if it threw; without a stop all those lines are read, and the whole file if and only if no line throws. |
| CaptureTheorems.PrintedIsOneLine | src/event_recorder.cpp:21 | Whatever its strings hold, an event is printed without a raw newline. |
| CaptureTheorems.RecordReplay | include/tickforge/event_recorder.hpp:11-15 | A recording is replayed to its end, giving each event back cut to milliseconds, or one malformed line; the recorded list itself if and only if every event survives. |
| CaptureTheorems.NoiseIsSkipped | include/tickforge/replay_source.hpp:29-31 | Blank lines and lines without an event, inserted anywhere among any recorded events, change nothing of what comes back of these; they add to the malformed count the number of those not blank. The replay gets to the end if and only if none of them holds a number out of range; else this is true of what comes before the first that does. |
| CaptureTheorems.NoiseAmongSurvivors | include/tickforge/replay_source.hpp:29-31 | Among events that survive, the events themselves come back and the count is that number, all of them if no line throws. |
| CaptureTheorems.LoneNumber | src/replay_source.cpp:31-37 | A line that is a number and nothing else is malformed, but throws if and only if it is converted to a double and out of range. |
| CaptureTheorems.TornObject | src/replay_source.cpp:31-37 | No proper non-empty beginning of a printed event is accepted. |
| CaptureTheorems.CrashSafe | src/event_recorder.cpp:18-22 | A recording of any events cut after any character is replayed to its end and gives exactly what comes back of those whose objects are complete, a prefix of the full replay, with one more malformed line if and only if the cut is inside an object. |
| CaptureTheorems.CrashAmongSurvivors | src/event_recorder.cpp:18-22 | Of events that survive it gives the first ones themselves, and at most one malformed line. |
| CaptureTheorems.SessionsReplay | src/event_recorder.cpp:10-14 | A capture written in any number of sessions, each opened for appending and cut after any character, is replayed to its end: what comes back is what comes back of the events alone on their line; every line of glued objects, and a last one that is not whole, is one malformed line. |
| CaptureTheorems.AppendAfterCrash | src/event_recorder.cpp:10-14 | For any events: appending after a cut loses nothing more if the cut was right after a newline; else exactly the first new event is lost with the unfinished one, in one malformed line. |
| CaptureTheorems.AppendAmongSurvivors | src/event_recorder.cpp:10-14 | The same for events that survive, which come back themselves. |
| CaptureTheorems.RecordAndReplay | src/replay_source.cpp:24-54 | The recorder and the replay source, run one after the other on the same file, return what comes back of each event, without an exception. |
| Kafka.KafkaEventProducer.Publish | src/kafka_event_producer.cpp:58-83 | A message with the symbol as key and the printed event as payload is produced exactly if the client accepts it; delivery reports are counted by outcome. |
| Kafka.KafkaEventProducer.PublishAll | src/ingestion_pipeline.cpp:76-90 | The publish loop produces the messages of the accepted attempts, in order. |
| Kafka.KafkaEventConsumer.PollOnce | src/kafka_event_consumer.cpp:66-103 | One poll is ignored, counted as malformed, or handed out with its own partition and offset, or throws. |
| Kafka.KafkaEventConsumer.Next | src/kafka_event_consumer.cpp:65-106 | It returns false only if stopped, else the next good record, or throws at a payload with a number out of range; polls = consumed + malformed + ignored, and one more if it threw, at every return. |
| Kafka.KafkaEventConsumer.ConsumeAll | src/kafka_event_consumer.cpp:65-106 | All calls together hand out exactly the good records polled, in order, before the first payload that throws; the consumer gets to the end if and only if there is none. |
| PartitionedLog.OrderPerKey | docs/milestone-2-queue-kafka.md:105-114 | For any partitioning and any order of polls, the messages consumed of a key are a prefix of those accepted. |
| PartitionedLog.AllOfKey | docs/milestone-2-queue-kafka.md:105-114 | Once its partition is read to the end, none of a key is missing. |
| PartitionedLog.NoOrderAcrossPartitions | docs/milestone-2-queue-kafka.md:105-114 | Two messages in different partitions can be consumed either way round. |
| PerSymbolOrder.ConsumedPerSymbol | src/kafka_event_consumer.cpp:65-106 | The events consumed of a symbol are a prefix of what comes back of its accepted publishes, and all of it once the partition is read to the end. |
| PerSymbolOrder.UnchangedPerSymbol | src/kafka_event_producer.cpp:58-83 | If the accepted events survive the format, it is a prefix of those publishes themselves. |
| EndToEnd.ConsumedInSourceOrder | src/ingestion_pipeline.cpp:62-90 | At any moment of any pipeline run the accepted events are a subsequence of what the source delivered; what is consumed of a symbol is a prefix of what comes back of them, and of all the symbol's events at the source if no publish failed. |
| EndToEnd.CaptureOfRun | src/ingestion_pipeline.cpp:66-68 | If the process dies at any moment and the file is cut anywhere, the replay is a prefix of what comes back of the source's deliveries; after `stop()` it is all of it; and that is the deliveries themselves if and only if all survive the format. |
| Binance.AcceptedTrade | src/binance_trade_parser.cpp:22-85 | An accepted trade has a symbol and a price that is not at most zero; its time is the field T if and only if that is within the bound, and whole milliseconds if and only if T lost a multiple of 15625 times 2^64; its price is finite exactly if the text began with a decimal. |
| Binance.TradeThroughCodec | src/binance_trade_parser.cpp:22-85 | It passes through the format unchanged if and only if its price text was a decimal and its field T lost a multiple of 15625 times 2^64, above all none; if not a decimal, it is lost. |
| Binance.MessageThroughCodec | src/live_source.cpp:157-172 | The same for the text of a whole message that is parsed without an exception, by the fields of its trade object, with the source name that `next()` sets. |
| Binance.NonFinitePriceAccepted | src/binance_trade_parser.cpp:66-75 | Price texts beginning with `inf` or `NaN` are accepted, `-inf` is not. |
| Binance.TrailingTextIgnored | src/binance_trade_parser.cpp:66-70 | What follows a decimal and does not continue it makes no difference. |
| Symbols.SplitSymbols | services/ingestion/main.cpp:27-37 | The result is the non-empty fields of the comma-separated list, in order. |
| Symbols.BuildTarget | src/live_source.cpp:38-50 | The target is the prefix and the lower-cased symbols with their suffix, joined by `/`. |
| Symbols.JoinedFields | src/live_source.cpp:38-50 | Joined parts split into the same parts again if and only if none contains the separator. |
| Symbols.SymbolsFromTarget | src/live_source.cpp:38-50 | The lower-cased symbols can be read off the target if and only if none contains a `/`. |
| Symbols.TargetFor | services/ingestion/main.cpp:27-37 | From the list to the target and back: the lower-cased non-empty fields are recovered if and only if the list contains no `/`. |

## Left out

- Boost, TLS, DNS and WebSocket framing: connecting and reading are oracles that may succeed or fail, and a read on a closed connection can only fail.
- librdkafka: broker retries, rebalancing, auto-commit and delivery timing. The order through Kafka assumes that an accepted message is appended once, in order of acceptance, to the partition of its key, and that partitions are read from their start. Duplicates after a crash (docs/milestone-2-queue-kafka.md section 6) are therefore not in the model.
- Floating point: a finite price is the token it is printed as. Which texts are out of range, and to which double a text is rounded, is an arbitrary but fixed conversion (`MarketEvents.DOUBLES`). Assumed of it: a printed double is read back as itself, and no beginning of a printed double is too large.
- An exception in a live source: a message with a number out of range makes `Binance.ParseTradeMessage` throw, and `next()` does not catch it; the process ends, and `LiveMachine` and `LiveSources` do not follow it there. `ReplayContract` has a state for it, in which `next()` never returns.
- Non-finite prices: written as `null`, as `dump()` prints them. An in-memory JSON value holding NaN, which only exists between encode and print, is not modelled.
- Milliseconds to nanoseconds: where the signed multiplication overflows, which C++ leaves undefined, the model wraps.
- Characters are Unicode scalar values: invalid UTF-8, for which the library throws when printing or parsing, and byte order marks are not modelled.
- `ingest_time`, clocks, console output, signals, environment variables, command-line parsing, benchmarks, Docker and CMake files.
- Other exceptions, failed opens, short writes reported by the stream, thread creation errors, and a second call of `start()` on the pipeline.
- The pipeline machine takes `publish`, `flush`, `record` and each counter update as single steps: they run on one thread each and wait for nobody. That `flush` gives up after ten seconds is not in the model.
- Scheduling: `StopReturns` bounds the steps of every schedule by the number of spurious wakeups in it, but no fairness or real time is modelled. In `LiveMachine` a sleep is a step that ends, and the end of a connection attempt is an outcome from outside.
- LiveContract.LiveKeepsContract: does not cover `start()`, which clears a stop request; the pipeline never calls it again after it has started the source.
- IngestionPipelines.IngestionPipeline.RunIngest: takes what the other thread does in between as a parameter; every interleaving is treated in `Pipeline` and run on the object by `PipelineObjects.PerformRun`.
- IngestionPipelines.IngestionPipeline.Stop: the two joins are calls of the loops; that `stop()` waits for running threads, and for how long, is in `PipelineProgress`. With capacity 0 and events still to come the join never returns, so that case is not a call of it.
- Symbols.BuildTarget: lower-cases ASCII letters only, as `std::tolower` does in the "C" locale.
- LiveSources.LiveSource.Next: runs with the flag and the connection as oracles; the interleaving with `stop()` is in `LiveMachine`, on values, because the two threads share fields between single accesses.
- Error texts of the decoders, apart from a fixed reason for each failed test.
- `services/consumer/main.cpp` and `src/ingestion_demo_main.cpp`: printing loops around code that is modelled.
