# UAOP verification

A Dafny model of the stateful core of the UAOP platform, with proofs about whole runs of it. `dafny verify dfyconfig.toml`
checks everything.

- **At-least-once delivery made exactly-once.** `Dedup` is the TTL set, `JetStream` the in-memory stream; both are
  classes with a specification function each. `ExactlyOnce` composes them into a step system in which publish,
  redeliver, handler calls, clock readings and the set's lock interleave freely; `Overlap` finds all inserts such runs can
  make, and `DeliveryOrder` when a subscription sees its messages in order.
- **Gateway streams.** `StreamShaping` is the rate limiter over rational times, `StreamSession` the pumps, subscribes
  and frames of one WebSocket session, with the await inside a subscribe between two steps, `StreamClients` what its
  client can rebuild, and `StreamHistory` what each stream asked for carries and at which rate.
- **Encoders.** `Json`, `Logger` (module `Logging`) and `LogRuns` are the log line, its events and their life; `UuidV7`,
  `Metrics`, `ConfigText`, `EnvNames` and `Config` the identifiers, series keys and configuration; `LogFormat`,
  `LogTopics` and `FlightLog` the ULog writer and `Dataflash` the ArduPilot one. Each has a decoder or an order that is
  proved exact; `FlightData`, `DataflashColumns` and `MetricsReader` are decoders that know the formats only and get the
  written values back by name.
- **State machines with a history.** `AuditChain` is the audit table with its trigger; `LinkMonitor` and
  `SuperviseLink` (modules `LinkMonitoring` and `LinkSupervision`) supervise a link; `SequenceGaps` counts per key and
  finds losses; `Revocation` is logout, the denylist and the two-step request check.
- `Spacing`, `Sequences`, `Strings`, `Bits`, `Bytes`, `Words` and `Wrappers` hold what several of these share.

For sessions, logouts and log events the laws are told by the list of steps alone: who is live, whose logout has ended,
what an event holds and which level is in force are functions of the steps, and the machine's state is proved to equal
them.

Source code whose loops update variables is a method with loop invariants, proved against a specification function; the
lemmas then speak about that function over all runs.

Where the code falls short of a promise, the model keeps the code, has a lemma with a failing input, and another one
with the exact condition:

- `Dedup`, `Overlap`: the clock is read before the lock, so the rate bound needs readings that are not stale, and a
  single effect an entry that is not swept away early; the window law needs a positive ttl.
- `DeliveryOrder`: handlers are called outside the lock, so interleaved publishes can reach a subscription out of order.
- `StreamShaping`: `lastForwardedAt` starts at 0, so optimality needs a first arrival at or after one interval.
- `StreamClients`: overlapping subscribes both end up live, and a key they share shows the client frames of both.
- `Metrics`: `metrics.h` promises one handle per name and labels. A series already registered as the other kind gets
  none, and label values are not escaped, so two series can share a key.
- `Config`: `config.h` says the environment is scanned for variables; the code only asks for the variables of keys it
  already knows. `require` does not notice a missing empty key.
- `SuperviseLink`: a refused publication is not repeated, so delivered messages can break the chain of attempted ones.
- `AuditChain`: the trigger checks linkage, not the hash formula of the migration's header; the formula is the writer's
  part and appears as a condition.
- `Revocation`: verification and denylist lookup are separate awaited steps, which leaves one window after expiry.

## Model

| member | source | states |
|---|---|---|
| Dedup.DedupSet.Sweep | backend/services/common/include/uaop/common/dedup.h:45-49 | Whatever the order in which the loop visits the map, the sweep leaves exactly the entries whose expiry lies after the reading, values unchanged. |
| Dedup.DedupSet.Insert | backend/services/common/include/uaop/common/dedup.h:28-37 | One insert sweeps at its own reading, then adds the key with reading + ttl and answers true, or leaves a live key and its expiry alone and answers false. |
| Dedup.StoredAreSurvivors | backend/services/common/include/uaop/common/dedup.h:28-49 | Whatever the clock readings, a key is stored exactly if some acceptance of it has not been reached by a later sweep, and then under that acceptance's expiry. |
| Dedup.SweepBetweenAcceptances | backend/services/common/include/uaop/common/dedup.h:28-31 | With the clock read before the lock, two acceptances of one key always have a sweep between them, the second's own included, at a reading of at least the first stamp + ttl. |
| Dedup.NovelIffNoRecentAcceptance | backend/services/common/include/uaop/common/dedup.h:23-27 | In clock order and for every ttl, insert answers true exactly if no acceptance of the key is younger than ttl. |
| Dedup.StoredIsTheWindow | backend/services/common/include/uaop/common/dedup.h:28-37 | For a positive ttl and clock order the stored map is exactly the keys accepted within the last ttl, each under its acceptance; rejected duplicates extend nothing. |
| Dedup.WindowNeedsPositiveTtl | backend/services/common/include/uaop/common/dedup.h:21 | The stored map is that window on every run in clock order if and only if ttl is positive. |
| Dedup.EffectRate | backend/services/common/include/uaop/common/dedup.h:23-37 | In whatever order the readings come, if none is stale, a key takes effect at most floor(L / ttl) + 1 times in any span of length L. A reading is stale if it lies within ttl of an earlier call's although a sweep between the two was already past that call's expiry. |
| Dedup.EffectRateIff | backend/services/common/include/uaop/common/dedup.h:28-37 | For a list of readings in lock order: that bound holds for every run with these readings, every key and every span if and only if none is stale. |
| Dedup.StaleReadingBreaksTheRate | backend/services/common/include/uaop/common/dedup.h:29-31 | A concrete run with a stale reading takes effect twice in a span that allows one. |
| Dedup.OnceIff | backend/services/common/include/uaop/common/dedup.h:28-37 | In whatever order the readings come: a key whose later calls have read the clock within ttl of its first call takes effect exactly once, at the first, if and only if no sweep reaches the first call's expiry before the key's last call. |
| Dedup.OnceWithinTtl | backend/services/common/include/uaop/common/dedup.h:23-37 | In clock order, if all calls of a key come within ttl of its first one, it takes effect exactly once, at the first. |
| Dedup.NothingLost | backend/services/common/include/uaop/common/dedup.h:32-36 | Whatever the readings, a key takes effect at all exactly if it was ever called. |
| JetStream.InMemoryJetStream.PublishLocked | backend/services/common/src/in_memory_jetstream.cpp:9-18 | Under the lock: the next number, the log entry, and a snapshot of the matching subscriptions, as one step beside any other tasks under way. |
| JetStream.InMemoryJetStream.RedeliverLocked | backend/services/common/src/in_memory_jetstream.cpp:44-54 | Under the lock: nothing for an unknown number, otherwise a snapshot for the logged message. |
| JetStream.InMemoryJetStream.PublishMessage | backend/services/common/src/in_memory_jetstream.cpp:5-24 | A whole publish without interference: the locked step, then the snapshot's handlers one after the other. |
| JetStream.InMemoryJetStream.RedeliverMessage | backend/services/common/src/in_memory_jetstream.cpp:40-59 | A whole redeliver without interference: the locked step, then the snapshot's handlers. |
| JetStream.InMemoryJetStream.AddSubscription | backend/services/common/src/in_memory_jetstream.cpp:26-31 | Appends the subscription and changes nothing else. |
| JetStream.InMemoryJetStream.AckMessage | backend/services/common/src/in_memory_jetstream.cpp:33-38 | Raises the ack position to a higher number and ignores others. |
| JetStream.DrainedCallsInOrder | backend/services/common/src/in_memory_jetstream.cpp:20-22 | Notifying calls each snapshotted handler once, in subscription order, with the message of the task. |
| JetStream.DrainedIsRun | backend/services/common/src/in_memory_jetstream.cpp:5-24 | An uninterrupted publish or redeliver is itself a run of the step system, so what holds in every run holds after it. |
| JetStream.LogIsHistory | backend/services/common/src/in_memory_jetstream.cpp:12-13 | In every run the log holds exactly the numbers 1 to the last one given, each the message published under it, and the subscriptions are those made. |
| JetStream.BytesAreOriginal | backend/services/common/src/in_memory_jetstream.cpp:9-13 | Every handler call, made or still to come, carries subject, bytes and number as published, re-entrant and interleaved handlers included. |
| JetStream.DeliveryIsExact | backend/services/common/src/in_memory_jetstream.cpp:5-59 | For every subscription i and message s, calls made plus calls to come equal what the history alone asks for: one if i existed on the subject at the publish of s, plus one for each later redeliver of s. |
| JetStream.MatchingIsExact | backend/services/common/src/in_memory_jetstream.cpp:14-18 | A snapshot names every matching subscription once and no other. |
| JetStream.AckIsMaximum | backend/services/common/src/in_memory_jetstream.cpp:33-38 | The ack position is the maximum number acked so far, whatever order and repetition. |
| JetStream.AckWithinStream | backend/services/common/src/in_memory_jetstream.cpp:33-38 | The position stays within the stream if and only if only published numbers are acked; ack itself checks nothing. |
| DeliveryOrder.InOrderIff | backend/services/common/include/uaop/common/jetstream.h:4-5 | Without redelivery, once all handlers have been called: every subscription has seen its messages in the order of their numbers if and only if no handler was called while an older notification of its subscription was under way. |
| DeliveryOrder.OneByOneIsInOrder | backend/services/common/src/in_memory_jetstream.cpp:5-24 | If every publish is notified through before the next one, the order holds at every moment. |
| DeliveryOrder.InterleavedIsOutOfOrder | backend/services/common/src/in_memory_jetstream.cpp:20-22 | Two publishes that notify outside the lock can reach a subscription in the opposite order. |
| ExactlyOnce.EveryGuardedCallInserts | backend/services/common/src/in_memory_jetstream.cpp:56-58 | Inserts made plus guarded handlers under way equal the calls of guarded handlers, per subscription and message, in every interleaving. |
| ExactlyOnce.AcceptedAgainOnlyAfterTtl | backend/services/common/include/uaop/common/dedup.h:28-37 | In every run, however handlers interleave, a key is accepted again only once the clock has reached the first acceptance's reading + ttl. |
| ExactlyOnce.OneAtATimeIsInClockOrder | backend/services/common/include/uaop/common/dedup.h:29-30 | If no handler starts while another holds an unused reading, the readings come in lock order. |
| ExactlyOnce.AskedAboutWhatIsOwed | backend/services/common/src/in_memory_jetstream.cpp:20-22 | When nothing is left to call, the set has been asked about exactly the events that the publish, subscribe and redeliver history owes to guarded handlers. |
| ExactlyOnce.EffectiveIffOwed | backend/services/common/include/uaop/common/dedup.h:23-27 | In every settled run an event has taken effect exactly if some guarded handler was owed it: nothing lost, nothing invented. |
| ExactlyOnce.EffectRateOfRuns | backend/services/common/include/uaop/common/dedup.h:23-37 | In every run without stale readings, overlapping handlers included, at most floor(L / ttl) + 1 effects of an event in any span of length L. |
| ExactlyOnce.OneAtATimeIsNotStale | backend/services/common/include/uaop/common/dedup.h:29-30 | With one handler at a time no reading is stale. |
| Overlap.EveryOrderHappens | backend/services/common/include/uaop/common/dedup.h:28-30 | For any readings from time zero on, in any order, and any keys, some run of overlapping handlers makes exactly these inserts. |
| Overlap.EffectRateOfRunsIff | backend/services/common/include/uaop/common/dedup.h:28-37 | All runs of the system whose inserts have given readings keep the rate bound, for every consumer and event, if and only if none of the readings is stale. |
| ExactlyOnce.ExactlyOnceIff | backend/services/common/include/uaop/common/dedup.h:23-37 | In every settled run, overlapping handlers included, an event whose later deliveries read the clock within ttl of the first takes effect exactly once if owed and never otherwise, if and only if no sweep reaches the first one's expiry before the last of them. |
| ExactlyOnce.ExactlyOnceWithinTtl | backend/services/common/include/uaop/common/dedup.h:23-37 | With one handler at a time that is always so: such an event takes effect exactly once if owed and never otherwise. |
| StreamShaping.MinInterval | backend/api-gateway/src/streams/websocket.js:25 | The interval is 1000 / rate for a positive rate and 0, meaning no shaping, exactly for a missing or non-positive one. |
| StreamShaping.StreamState.ShouldForward | backend/api-gateway/src/streams/websocket.js:31-41 | The decision and the whole new state of a stream on one arrival. |
| StreamShaping.ForwardsAreSpaced | backend/api-gateway/src/streams/websocket.js:31-41 | The messages a shaped stream forwards are at least one interval apart, counted from the last forward before. |
| StreamShaping.ForwardRate | backend/api-gateway/src/streams/websocket.js:31-41 | Any window of length W carries at most floor(W / interval) + 1 of them. |
| StreamShaping.ShaperIsOptimal | backend/api-gateway/src/streams/websocket.js:31-41 | For every non-decreasing arrival list, no other selection that keeps the spacing from the last forward on forwards more messages. |
| StreamShaping.NewStreamOptimalIff | backend/api-gateway/src/streams/websocket.js:25-26 | A new stream counts its first interval from time zero: it is optimal against every spaced selection on all arrival lists starting at t if and only if t is at least one interval. |
| StreamShaping.EarlyMessageIsHeld | backend/api-gateway/src/streams/websocket.js:26 | A single message before the first interval is held back although sending it would keep every spacing. |
| StreamSession.ClientSession.PumpOne | backend/api-gateway/src/streams/websocket.js:113-129 | One turn of a pump: the new stream state, and on an open socket the optional gap frame and the data frame; on a closed one no frame. |
| StreamSession.ClientSession.Pump | backend/api-gateway/src/streams/websocket.js:112-130 | A whole uninterrupted pump equals the turns one after the other. |
| StreamSession.ClientSession.Establish | backend/api-gateway/src/streams/websocket.js:87-107 | After its await a subscribe makes one fresh stream for each opening of its requests, in order. |
| StreamHistory.OpensWhatIsAsked | backend/api-gateway/src/streams/websocket.js:87-107 | The c-th opening of request r comes behind those of all earlier requests; for telemetry its key names the request's vehicle and c-th category and its rate is the requested one, for events it names the c-th domain and has no rate. |
| StreamSession.KeyReadsBackIff | backend/api-gateway/src/streams/websocket.js:90-99 | A key tells its vehicle and category, or its domain, exactly if the vehicle's name has no dot. |
| StreamHistory.PumpIsHistory | backend/api-gateway/src/streams/websocket.js:82-130 | In every run a pump's state and frames are what its loop makes of the messages that reached it while it was live, starting from the opening at its place among the served requests. |
| StreamHistory.MadeIsServed | backend/api-gateway/src/streams/websocket.js:82-108 | Those openings are, in order, what the subscribes that resumed asked for, first come first served. |
| StreamHistory.LiveFrom | backend/api-gateway/src/streams/websocket.js:85-108 | Live are exactly the pumps made since a subscribe last arrived or the socket closed. |
| StreamHistory.RateIsKept | backend/api-gateway/src/streams/websocket.js:25-41 | In every run, a vehicle's category asked for at a rate r above zero is sent data frames under its key that carry messages that reached it, in order, at most floor(W * r / 1000) + 1 of them in any window of W milliseconds. |
| StreamHistory.UnshapedSendsAll | backend/api-gateway/src/streams/websocket.js:25-34 | Events, and telemetry asked for without a rate above zero, are sent one data frame per message. |
| StreamSession.FramesAreForwards | backend/api-gateway/src/streams/websocket.js:112-129 | The data frames of a pump are exactly the arrivals its shaper forwards, in order, with their payloads and numbered without a hole. |
| StreamSession.FrameRate | backend/api-gateway/src/streams/websocket.js:31-41 | So any window of length W carries at most floor(W / interval) + 1 data frames of a shaped pump. |
| StreamSession.NothingUnaccounted | backend/api-gateway/src/streams/websocket.js:112-130 | For every pump at every point of every interleaving: received = forwarded + reported + not yet reported, and the data frame with number s after g reported drops is received message s + g. |
| StreamSession.GapsAlwaysPrecedeData | backend/api-gateway/src/streams/websocket.js:118-128 | On the wire every gap frame is directly followed by a data frame of its stream and reports a positive count. |
| StreamSession.WireIsPrefix | backend/api-gateway/src/streams/websocket.js:57-61 | The wire carries what was sent, without holes, up to the point where the socket closed. |
| StreamClients.ErasDoNotMix | backend/api-gateway/src/streams/websocket.js:82-108 | Without overlapping subscribes and repeated keys, live pumps belong to one subscribe, differ in their keys, and sent all frames since they exist. |
| StreamClients.SendersAreLive | backend/api-gateway/src/streams/websocket.js:82-108 | In every run, overlapping subscribes included, whoever has sent since a live pump exists is live itself. |
| StreamClients.ClientRebuildsPositions | backend/api-gateway/src/streams/websocket.js:110-130 | On an open socket, overlaps included, what a client sees under a live key since the stream opened is what its pump sent, and it rebuilds the source positions, if no other live stream has the key. |
| StreamClients.RebuildsIffNoTwin | backend/api-gateway/src/streams/websocket.js:82-130 | Exactly: this stays so whatever messages arrive next if and only if no other live stream has the key. |
| StreamClients.NoTwinsIffDistinct | backend/api-gateway/src/streams/websocket.js:85-107 | No two live streams share a key if and only if the subscribes resumed since one last arrived or the socket closed, taken together, name no key twice. |
| StreamClients.NoOverlapRebuilds | backend/api-gateway/src/streams/websocket.js:82-130 | Without overlapping subscribes and repeated keys the client rebuilds every live stream. |
| StreamClients.OverlapSendsTwice | backend/api-gateway/src/streams/websocket.js:85-107 | Two subscribes whose awaits overlap both end up live: the client gets one message twice under one key and number and cannot rebuild. |
| Logging.Logger.WriteJsonEscaped | backend/services/common/src/logger.cpp:14-33 | Writes the quoted, escaped text of any string, character by character. |
| Logging.LogEvent.Emit | backend/services/common/src/logger.cpp:77-125 | Appends the event's line once, unless already dealt with or of a level below the logger's; afterwards the event is emitted. |
| Logging.RankTellsBelow | backend/services/common/include/uaop/common/logger.h:25 | The numbers of the levels order them DEBUG, INFO, WARN, ERROR, pair by pair. |
| Logging.LogEvent.Move | backend/services/common/src/logger.cpp:59-69 | The new object takes over everything including what is left to emit; the old one is left emitted. |
| Logging.LogEvent.Destroy | backend/services/common/src/logger.cpp:71-75 | The destructor emits what has not been emitted. |
| LogRuns.EmittedOrHeldOnce | backend/services/common/src/logger.cpp:59-86 | In every run of creating, setting, moving, emitting and destroying, each event is emitted once and held by nobody, or held by exactly one object that has yet to emit it. |
| LogRuns.HandleIsHistory | backend/services/common/src/logger.cpp:56-86 | In every run each object is as the steps tell: for which event, alive or not, still to emit or not, and while it has to emit, holding the event as created and last set through the objects that held it. |
| LogRuns.EmissionsAreTold | backend/services/common/src/logger.cpp:77-85 | Every run emits what its steps tell: each event as created and last set, at its first emission or its holder's destruction, shown exactly if its level is not below the level set last before. |
| LogRuns.EachEventEmittedOnce | backend/services/common/src/logger.cpp:71-81 | Once no object exists any more every event created has been emitted exactly once. |
| Json.DecodeInvertsText | backend/services/common/src/logger.cpp:14-33 | A decoder for sections 4 to 7 of RFC 8259 recovers the ordered members of every printed object of strings, integers and booleans, for every string. |
| Json.ObjectIsOneLine | backend/services/common/src/logger.cpp:14-33 | The printed object holds no line feed, whatever its strings hold. |
| LogRuns.LogReadsBack | backend/services/common/src/logger.cpp:77-125 | In every run the output splits at line feeds into one line per event that the steps tell and whose level is not below the one in force, in order, and each decodes to exactly its ordered members. |
| LogRuns.EventReadsBackIff | backend/services/common/src/logger.cpp:101-123 | The event itself is read back if and only if it does not have an empty msg with a first text field named msg. |
| LogRuns.PosingFieldPrintsTheSame | backend/services/common/src/logger.cpp:103-123 | Such a field prints the same line as a msg would. |
| LogRuns.LineTellsTheEvent | backend/services/common/src/logger.cpp:88-124 | Equal lines come from equal events, times and services, once such a field counts as the msg. |
| UuidV7.Pack | backend/services/common/include/uaop/common/uuid.h:37-53 | Fills a 16-byte array with the fields, byte by byte, version and variant set by the bit operations. |
| UuidV7.Format | backend/services/common/include/uaop/common/uuid.h:55-65 | Two hexadecimal digits a byte with dashes before bytes 4, 6, 8 and 10. |
| UuidV7.Uuid | backend/services/common/include/uaop/common/uuid.h:27-66 | The text for a clock reading and two draws cut down to 12 and 62 bits. |
| UuidV7.PackedIsThreeNumbers | backend/services/common/include/uaop/common/uuid.h:25-53 | The bytes are three big-endian numbers in a row: 48 bits of time, version 7 with the first field, the variant with the second. |
| UuidV7.TextSortsLikeFields | backend/services/common/include/uaop/common/uuid.h:1-3 | For all fields in range, two texts compare as strings exactly as (ms, rand_a, rand_b) compare lexicographically. |
| UuidV7.ParseInvertsText | backend/services/common/include/uaop/common/uuid.h:25-66 | Reading the text by section 5.7 of RFC 9562 gives back the time, version 7, both random fields and the variant. |
| FlightLog.WriteUlog | tests/data/sample_logs/generate_sample_logs.py:97-208 | The writer's loops produce the header and the framed messages: flags, formats, parameters, subscriptions, and the data of all rows sorted by time. |
| Sequences.SortIsStable | tests/data/sample_logs/generate_sample_logs.py:206 | The sort orders by time, keeps records of equal time in their order, and neither loses nor invents records. |
| FlightLog.StreamSplits | tests/data/sample_logs/generate_sample_logs.py:138-156 | A stream of framed messages splits by its own length fields into exactly those messages. |
| FlightLog.LogDescribesItself | tests/data/sample_logs/generate_sample_logs.py:128-208 | For every profile, the bytes behind the 16-byte header split into exactly the messages written, and a reader that trusts only earlier messages accepts all: formats and parameters before subscriptions, subscriptions of known formats, data of subscribed ids with exactly the size of the format's fields, times never decreasing. |
| FlightData.UlogReadsBack | tests/data/sample_logs/generate_sample_logs.py:128-151 | A decoder that knows the stream only gets, for every profile, the version, the start time, forty unset flag bytes, and every parameter's name and value in order. |
| FlightData.RatesReadBack | tests/data/sample_logs/generate_sample_logs.py:163-170 | For every profile, decoding vehicle_angular_velocity by topic and field name gives back time and the roll, pitch and yaw rates of all rows, in time order with ties in row order. |
| FlightData.AccelReadsBack | tests/data/sample_logs/generate_sample_logs.py:172-179 | The same for sensor_accel and x, y and z. |
| FlightData.BatteryReadsBack | tests/data/sample_logs/generate_sample_logs.py:181-189 | battery_status gives back voltage, current and remaining of rows 0, 4, 8 and so on. |
| FlightData.GpsReadsBack | tests/data/sample_logs/generate_sample_logs.py:191-199 | vehicle_gps_position gives back position, fix type 3, satellites and hdop of those rows. |
| FlightData.EstimatorReadsBack | tests/data/sample_logs/generate_sample_logs.py:201-204 | estimator_status gives back flags 0 and 63 for those rows. |
| FlightData.ColumnOfLog | tests/data/sample_logs/generate_sample_logs.py:158-208 | A topic's column in the whole log is that field of the records of the rows it logs, in the stable time order. |
| Sequences.KeptSorted | tests/data/sample_logs/generate_sample_logs.py:206 | Sorting all records and then keeping one topic's is the same as sorting that topic's. |
| LogFormat.FormatReadsBack | tests/data/sample_logs/generate_sample_logs.py:140-142 | The text of a format reads back to its topic name and fields. |
| Dataflash.WriteDataflash | tests/data/sample_logs/generate_sample_logs.py:242-290 | The writer's loops produce the format, banner, parameter and row records in that order. |
| Dataflash.FmtIsReadable | tests/data/sample_logs/generate_sample_logs.py:220-226 | A format record announces exactly the length its own column letters come to. |
| Dataflash.StreamWalksExactly | tests/data/sample_logs/generate_sample_logs.py:217-290 | For every banner, parameter table and profile, walking the stream by the lengths its own format records announce visits exactly the records written. |
| DataflashColumns.ImuReadsBack | tests/data/sample_logs/generate_sample_logs.py:258-267 | For every stream written, a decoder that finds columns by the names and letters of the FMT records gets back times, rates and accelerations of all rows in order. |
| DataflashColumns.BatReadsBack | tests/data/sample_logs/generate_sample_logs.py:269-277 | The same for voltage, current and the constants of BAT, rows 0, 4, 8 and so on. |
| DataflashColumns.GpsReadsBack | tests/data/sample_logs/generate_sample_logs.py:278-290 | The same for status, latitude, longitude, altitude, hdop and satellites of GPS. |
| DataflashColumns.ParametersReadBack | tests/data/sample_logs/generate_sample_logs.py:249-251 | Every parameter comes back in order, by the first fifteen characters of its name and its value. |
| DataflashColumns.BannerReadsBack | tests/data/sample_logs/generate_sample_logs.py:246-247 | One message comes back: the first 63 characters of the banner. |
| Metrics.RenderLabels | backend/services/common/src/metrics.cpp:22-38 | The label text as written by the loop, a comma before all labels but the first. |
| Metrics.KeyReadsBackIff | backend/services/common/src/metrics.cpp:41-43 | A key decodes to its name and labels if and only if the name has no brace, no label name an equals sign and no label value a quote. |
| Metrics.KeyIsUnique | backend/services/common/src/metrics.cpp:41-43 | Among such series two keys are equal exactly if name and labels are. |
| Metrics.QuoteMergesSeries | backend/services/common/src/metrics.cpp:34 | Values are not escaped: two different label sets with one key. |
| Metrics.ListingIsUnique | backend/services/common/include/uaop/common/metrics.h:22 | An ordered label map has one listing: maps are equal exactly if their listings are. |
| Metrics.MetricRegistry.GetCounter | backend/services/common/src/metrics.cpp:45-62 | Registers the series unless its key is taken, never moves an entry, and returns the counter at the key's only position, which is none if a gauge holds it; a new one is fresh and zero. |
| Metrics.MetricRegistry.GetGauge | backend/services/common/src/metrics.cpp:64-81 | The same for gauges. |
| Metrics.MetricRegistry.Render | backend/services/common/src/metrics.cpp:83-100 | The exposition text of the loop over the entries with its last_name variable. |
| Metrics.SlotsGrow | backend/services/common/src/metrics.cpp:59-60 | Entries are only ever added at the end, so positions never move. |
| Metrics.FirstOwns | backend/services/common/src/metrics.cpp:49-52 | After a call its key has an entry, made by the first call with that key. |
| Metrics.NoHandleIff | backend/services/common/src/metrics.cpp:50-52 | A call gets no handle exactly if the first call with its key was of the other kind. |
| Metrics.OtherKindGetsNone | backend/services/common/src/metrics.cpp:50-51 | A counter asked for after a gauge of the same key gets none. |
| Metrics.SameHandleIffSameSeries | backend/services/common/include/uaop/common/metrics.h:58-64 | Over every list of calls, two calls that got handles and whose names have no brace, label names no equals sign and label values no quote got the same one exactly if name and label map are equal. |
| Metrics.ExpositionIsLines | backend/services/common/src/metrics.cpp:83-100 | The text splits at line feeds into exactly the lines that are due, two header lines where the name changes and one sample line per entry, if and only if none of them holds a line feed. |
| MetricsReader.ExpositionReadsBack | backend/services/common/src/metrics.cpp:83-100 | For entries with plain names, readable labels and no line feeds, the lines of the exposition read back as exactly the name and help, the name and kind wherever the name changes, and each entry's name, labels and value. |
| Metrics.KindsAreRightIff | backend/services/common/src/metrics.cpp:88-93 | The header above a sample announces the sample's kind for all entries if and only if entries of one name that follow each other are of one kind. |
| Metrics.OneHeaderIffGrouped | backend/services/common/src/metrics.cpp:86-93 | A name gets exactly one HELP and TYPE header if and only if its entries were registered without another name in between. |
| AuditChain.AuditTable.Execute | infrastructure/postgres/migrations/0004_audit.sql:23-75 | One statement of the service's role: an insert that passes the trigger and the NOT NULL columns appends its row, a refused one only uses up a number, and anything else is denied. |
| AuditChain.ChainIsLinked | infrastructure/postgres/migrations/0004_audit.sql:23-70 | In every run of accepted and refused statements the rows in the order of their numbers form one linked list, the first without a previous hash, and refused inserts leave gaps in the numbers only. |
| AuditChain.AcceptedIffLinksToHead | infrastructure/postgres/migrations/0004_audit.sql:60-68 | A row is accepted if and only if it is complete, falls into a partition, and names the hash of the last row. |
| AuditChain.RefusalReasons | infrastructure/postgres/migrations/0004_audit.sql:60-68 | Why an insert is refused, in terms of the last row: first the partition, then the link, then missing values. |
| AuditChain.GapsAreRefusals | infrastructure/postgres/migrations/0004_audit.sql:24 | With every statement committed on its own, a number is missing from the chain if and only if its insert was refused. |
| AuditChain.ChainOnlyGrows | infrastructure/postgres/migrations/0004_audit.sql:89-90 | No statement of the role changes or removes a row. |
| AuditChain.SameHeadSameEvents | infrastructure/postgres/migrations/0004_audit.sql:1-3 | Two chains that follow the hash formula and end in one hash hold the same events or contain a collision of the hash function. |
| AuditChain.EqualHeadsIffEqualEvents | infrastructure/postgres/migrations/0004_audit.sql:1-3 | With a hash free of collisions, two runs that follow the formula have equal heads if and only if they recorded the same events in the same order. |
| AuditChain.WriterIsAccepted | infrastructure/postgres/migrations/0004_audit.sql:2-3 | A writer that keeps to the formula, at a time a partition covers, is never refused and its rows keep to it. |
| AuditChain.FormulaKeptIff | infrastructure/postgres/migrations/0004_audit.sql:2-3 | An accepted row keeps the chain to the formula if and only if its hash was computed by it from the head. |
| AuditChain.LinkageAloneIsNotEnough | infrastructure/postgres/migrations/0004_audit.sql:56-70 | The trigger checks linkage alone: without the formula two accepted chains can tell different events under one head. |
| LinkMonitoring.LinkMonitor.OnHeartbeat | tools/service-template/src/domain/link_monitor.h:33-41 | The new state; an error exactly for a time before the last accepted one, otherwise the transition to alive. |
| LinkMonitoring.LinkMonitor.OnTick | tools/service-template/src/domain/link_monitor.h:44-49 | The new state with the elapsed time in unsigned 64-bit arithmetic, and the transition made. |
| LinkMonitoring.StateIsHistory | tools/service-template/src/domain/link_monitor.h:33-62 | For all runs the state is a function of the input history: never seen without heartbeats, lost exactly if some tick since the latest heartbeat that counts found it older than the timeout. |
| LinkMonitoring.RejectedIff | tools/service-template/src/domain/link_monitor.h:31-38 | A heartbeat is rejected exactly if some earlier one has a later time, and then changes nothing. |
| LinkMonitoring.StaleTickLosesIff | tools/service-template/src/domain/link_monitor.h:45 | Ticks past the heartbeat find plain lateness; an earlier tick wraps around and reports a loss exactly if it is early by less than 2^64 minus the timeout. |
| LinkMonitoring.LossFoundInTime | tools/service-template/src/domain/link_monitor.h:43-49 | Ticks at most P apart find a loss by last + timeout + P: alive until the first tick past the timeout, lost after it. |
| LinkMonitoring.RunFindsLossInTime | tools/service-template/src/domain/link_monitor.h:43-49 | The same for every whole run that has the monitor alive and goes on with such ticks and rejected heartbeats. |
| LinkSupervision.SuperviseLink.HeartbeatReceived | tools/service-template/src/app/supervise_link.h:23-29 | Monitor and published messages after a heartbeat; an error exactly for a rejected time or a refused publication. |
| LinkSupervision.SuperviseLink.Tick | tools/service-template/src/app/supervise_link.h:31-33 | Monitor and published messages after a tick; an error exactly for a refused publication. |
| LinkSupervision.MessagesTellChanges | tools/service-template/src/app/supervise_link.h:42-45 | Each published text tells its two states back. |
| LinkSupervision.AttemptsFormAChain | tools/service-template/src/app/supervise_link.h:36-46 | Over every run the attempted publications are: never seen to alive, then alive to lost and lost to alive in turn, up to the monitor's present state. |
| LinkSupervision.OneLossPerSilence | tools/service-template/src/app/supervise_link.h:31-46 | There is exactly one loss message for each silence in the input history. |
| LinkSupervision.UnbrokenIffFailuresEven | tools/service-template/src/app/supervise_link.h:39-45 | Refused publications are not repeated: subscribers see no break if and only if none fails before the first delivered one and those between two delivered ones come in even numbers. |
| LinkSupervision.LostMessageBreaksTheChain | tools/service-template/src/app/supervise_link.h:39-45 | A concrete run: the loss falls into an outage, the recovery does not, and subscribers see a break. |
| ConfigText.Trim | backend/services/common/src/config.cpp:13-23 | Both index loops together: the part between the outer white space of the C locale. |
| ConfigText.ParseConfigLine | backend/services/common/src/config.cpp:34-55 | A pair, nothing for blank and comment lines, or one of the two syntax errors: the function whose layout laws follow. |
| ConfigText.LayoutReads | backend/services/common/src/config.cpp:25-55 | For all clean keys, white space and trimmed values, the line binds the key to the value as it stands if and only if it is not at least two characters between one and the same kind of quote; if it is, to its inside. |
| ConfigText.PairHasLayout | backend/services/common/src/config.cpp:34-55 | Every line that binds a pair has that layout. |
| ConfigText.BindsNothingIff | backend/services/common/src/config.cpp:35-38 | A line binds nothing if and only if it is blank or its first character behind white space is a hash sign. |
| ConfigText.MalformedIff | backend/services/common/src/config.cpp:40-51 | Any other line is malformed if and only if it has no colon or its first character behind white space is one. |
| ConfigText.ReadKeyIsClean | backend/services/common/src/config.cpp:35-51 | A key that was read is not empty, is trimmed, has no colon and does not start with a hash sign. |
| ConfigText.LineReadsBackIff | backend/services/common/src/config.cpp:25-55 | A pair printed with a quoted value is read back if and only if its key is clean, for every value. |
| Config.ConfigStore.LoadFile | backend/services/common/src/config.cpp:57-78 | An absent file changes nothing; otherwise the store is the merge of the lines before the first malformed one, whose number and error are returned. |
| Config.FailureCountsLines | backend/services/common/src/config.cpp:63-73 | The error is of the first malformed line, and its number counts the lines up to and including that one. |
| Config.ConfigStore.ApplyEnvironment | backend/services/common/src/config.cpp:80-102 | In whatever order the keys are visited, exactly the known keys whose own variable is set get its value. |
| Config.ConfigStore.Require | backend/services/common/src/config.cpp:166-180 | The joined list of missing keys as an error, success if it is empty. |
| Config.PrintLoadIff | backend/services/common/src/config.cpp:13-78 | A map printed as lines, in any order, is restored by loading it into an empty store if and only if its keys are clean and nothing holds a newline; then no line is malformed. |
| Config.LayeredLookup | backend/services/common/include/uaop/common/config.h:4-8 | After defaults, any files and the environment, a key's value is its variable's if the key is known and the variable set, else the last effective binding among the files, else the default. |
| Config.VariableOverridesOneKey | backend/services/common/src/config.cpp:93-101 | Setting the variable of one readable key changes no other readable key. |
| Config.UnknownVariableIsIgnored | backend/services/common/src/config.cpp:88-101 | The variable of a key the store does not know is not looked at. |
| Config.MissingEmptyKeyPasses | backend/services/common/src/config.cpp:169-176 | A missing empty key does not make require fail. |
| Config.RequireOkIff | backend/services/common/src/config.cpp:166-179 | require succeeds exactly if every key but the empty one is there. |
| Config.RequireNamesAll | backend/services/common/include/uaop/common/config.h:58-62 | A failure names every missing key. |
| Config.MissingReadsBack | backend/services/common/src/config.cpp:166-180 | For keys without commas the failure text lists the missing ones and no others, in the order they were asked. |
| EnvNames.BuildEnvName | backend/services/common/src/config.cpp:94-97 | The variable's name as built by the loop. |
| EnvNames.NameReadsBackIff | backend/services/common/src/config.cpp:94-97 | The natural left-to-right reading of a variable gives back the key if and only if it has no upper case and no underscore directly before a dot or underscore. |
| EnvNames.OneKeyPerVariable | backend/services/common/src/config.cpp:94-97 | Among such keys two have one variable only if they are equal. |
| EnvNames.PlainKeyIsReadable | backend/services/common/include/uaop/common/config.h:8 | Keys of lower-case letters, digits and non-adjacent separators are such keys. |
| EnvNames.DotAndUnderscoresShare | backend/services/common/src/config.cpp:96 | Other keys can share a variable. |
| SequenceGaps.SequenceCounter.Next | backend/services/common/include/uaop/common/sequence.h:25 | One more than before, in unsigned 64-bit arithmetic. |
| SequenceGaps.KeyedSequenceCounter.Next | backend/services/common/include/uaop/common/sequence.h:39-42 | Makes the key's counter on first use; that key advances and no other. |
| SequenceGaps.EachKeyCounts | backend/services/common/include/uaop/common/sequence.h:33-42 | However calls of different keys interleave, a key's i-th call gets i, modulo 2^64. |
| SequenceGaps.FindGaps | tests/integration/idempotency/test_gap_detection.py:24-29 | The loop over adjacent pairs computes the gap list. |
| SequenceGaps.GapsAreTheMissing | tests/integration/idempotency/test_gap_detection.py:24-29 | For increasing numbers the open intervals of the reported pairs hold exactly the numbers missing between the first and the last. |
| SequenceGaps.SpanIsReceivedPlusGaps | tests/integration/idempotency/test_gap_detection.py:24-29 | Numbers received and numbers inside gaps add up to the whole span. |
| SequenceGaps.NoGapIffConsecutive | tests/integration/idempotency/test_gap_detection.py:24-29 | For any list, no gap is reported if and only if each number is one more than the one before. |
| SequenceGaps.NoLossNoGapIff | backend/services/common/include/uaop/common/sequence.h:23-25 | Without losses a key shows no gap if and only if its counter has not wrapped around. |
| SequenceGaps.LossesAreLocated | tests/integration/idempotency/test_gap_detection.py:24-29 | Counter and detector together: the gaps hold exactly the key's lost numbers that have some received number before and some after them. |
| Revocation.Verify | backend/api-gateway/src/auth/middleware.js:11-22 | The part of the check before its await: success exactly for a bearer token whose claims verify and whose expiry lies after the clock's whole seconds. |
| Revocation.BearerTokenIff | backend/api-gateway/src/auth/middleware.js:11-15 | The token is the second word of a header that starts with Bearer and one space. |
| Revocation.Denylist.Revoke | backend/api-gateway/src/auth/denylist.js:16-21 | Sets the key with the given lifetime, nothing for a non-positive one. |
| Revocation.Denylist.IsRevoked | backend/api-gateway/src/auth/denylist.js:23-26 | True exactly while the key is there. |
| Revocation.EntryOutlivesToken | backend/api-gateway/src/routes/auth.js:33-34 | The entry lives at least until the token's expiry however late it is written, and less than a second plus that delay beyond. |
| Revocation.SkippedIsExpired | backend/api-gateway/src/auth/denylist.js:17-19 | A logout that writes nothing was of a token that had expired. |
| Revocation.RunsAreSound | backend/api-gateway/src/routes/auth.js:29-35 | The invariant of all interleavings: every revoked token is denied until its expiry or has expired, only revoked tokens are denied, and every verdict obeys the law below. |
| Revocation.RevokedIsRefused | backend/api-gateway/src/auth/middleware.js:17-29 | Over every run and every request answered, with the ended logouts taken from the steps before the answer: the verdict is on the request whose turn it is; a token passes if no logout of it has ended; after one has, it is refused whenever the denylist is asked before its expiry, and passes exactly if verified before the expiry and looked up after both expiry and denial. |
| Revocation.EndedIsHistory | backend/api-gateway/src/routes/auth.js:29-36 | Revoked are exactly the tokens of the logouts that the steps begin and end, each ended by its place among the open ones. |
| Revocation.DenialIsHistory | backend/api-gateway/src/auth/denylist.js:16-21 | A token's denial runs out when its last logout to end, of those that began before the expiry, says so. |
| Revocation.DenialReachesExpiry | backend/api-gateway/src/routes/auth.js:33-34 | After a logout has ended the denial reaches the token's expiry, and goes beyond it by less than a second plus the slowest logout. |
| Revocation.VerdictsAreAnswers | backend/api-gateway/src/auth/middleware.js:24-26 | One verdict for each answered request, in the order of the answers. |
| Revocation.SlowLookupPasses | backend/api-gateway/src/auth/middleware.js:19-25 | The two awaited steps leave such a request: verified and looked up after the revocation, it passes. |
| Revocation.RevocationStays | backend/api-gateway/src/auth/denylist.js:16-21 | A token whose logout has ended stays so in every longer run. |

## Left out

- JetStream.InMemoryJetStream.RedeliverMessage: speaks, like PublishMessage, of handlers that do not call back.
- JetStream.InMemoryJetStream.PublishMessage: speaks of a publish whose handlers do not call back; re-entrant and concurrent calls are interleaved steps of `JetStream.Next`, and handler bodies are outside code.
- StreamSession.ClientSession.Pump: drains one subscription without interference; interleaved pumps are steps of `StreamSession.Next`.
- StreamSession.ClientSession.Establish: leaves out the session's map of stream states, which is only written, the list of subscription handles, which the steps of `StreamSession.Next` stand for, and the NATS subjects.
- Sequences.SortIsStable: Python's in-place sort appears as a stable insertion-sort function on values, not as its own algorithm.
- Metrics.MetricRegistry.Render: the printed values of counters and gauges are inputs; a gauge's value stays uninterpreted bits, and its set and add are not modelled.
- Metrics.MetricRegistry.GetCounter: label maps are lists in name order with characters compared by code, the order of the map type.
- Revocation.RevokedIsRefused: gateway and Redis share one clock, a Redis that loses its keys is not modelled, and signature checking is an uninterpreted function from tokens to claims.
- Revocation.Verify: `req.user` on logout is taken as given; as wired, `index.js` mounts the logout route before `authenticate`, so it would never be set.
- AuditChain.AuditTable.Execute: one writer, as the schema demands; columns outside the chain, creation of partitions, direct access to partitions and the end of the BIGINT range are not modelled.
- FlightLog.LogDescribesItself: parameter names are given as their UTF-8 bytes; a key has at most 255 bytes, since its length is packed into one byte.
- FlightLog.WriteUlog: floats and scaled integers are given as the four bytes they pack to.
- Dataflash.WriteDataflash: floats and scaled integers are given as the four bytes they pack to; names are characters below 256.
- Logging.LogEvent.Emit: fields are strings, integers and booleans; double fields are not modelled.
- LogRuns.LogReadsBack: without double fields, like `Logging.LogEvent.Emit`.
- Json.DecodeInvertsText: without fractions and exponents, which only doubles print.
- AuditChain.GapsAreRefusals: rolled-back transactions, whose accepted inserts also leave gaps, are not modelled.
- AuditChain.WriterIsAccepted: the request is taken to fall into an existing partition.
- UuidV7.TextSortsLikeFields: the clock is below 2^48 milliseconds, the range of the field.
- LinkSupervision.SuperviseLink.Tick: the subject of the published messages, a constant, and the texts of errors are not modelled.
- StreamHistory.RateIsKept: speaks of frames passed to send; on an open socket these are on the wire, by `StreamSession.WireIsPrefix`. Payloads are the messages themselves, not their base64 text, and frames carry no time stamp.
- MetricsReader.ExpositionReadsBack: speaks of entries whose names have no space or brace, whose label names have no equals sign, whose label values no quote, and whose texts no line feed; without that the text is ambiguous.
- Floating point: double log fields, sensor values (four bytes each), `get_double` and the numpy profiles.
- Wrap-around of the 64-bit stream sequence and metric counters, and of microsecond times past 2^64.
- The typed getters of the configuration store, and `rfc3339_now`, whose text is an input.
- Log events without an owner are covered by `Emit`, but the Logger's factory methods are not modelled.
- The tlog writer, MBTiles and map projection code, the QML views, health registry and role table.
- Sockets, HTTP and Express wiring, gRPC loading, NATS and Redis connections, and threads below the level of locks.
- CI scripts, protos, the other SQL migrations, and features that exist only in documentation.
