# IronClaw event counting, modelled and proved

IronClaw counts system-call events. A kernel probe emits records, an agent batches them and posts them to the
edge (spooling to disk while the edge is down), a bus carries the batches to an aggregator, the aggregator
collects events into windows and publishes each window, and a store adds the windows up per device. Its promise
is that every accepted event is counted exactly once, whatever fails, is retried or is redelivered.

This project models the parts that promise rests on and proves it, together with the laws of the pieces:

- **Counting** – `Domain`, `KeyCollisions`, `Tallies`, `Aggregation`, `AggregatorObject`, `AggregatorHistory`, `Publishing`,
  `MemoryStore`, `StoreConvergence`, `ExactlyOnce`. The aggregator's two-phase collection, the publish loop, the
  window fan-out and the deduplicating store, each as the source has it (objects with fields and loops, proved
  against functions on values), and then the whole as a machine in which any number of emits, publish failures,
  partial fan-outs, repeated and reordered deliveries and resets interleave.
- **The bus and shutdown** – `Bus`, `BusAttempts`, `Broker`, `Shutdown`, `Stopping`, `Composition`, `Lossless`. Senders, a closer
  and one consumer per partition as atomic steps; such buses around the aggregator, one for batches, one for each
  store and one for commands; the stages of `Stop`, what they lose (nothing), that they end, and that every run of
  the whole is a run of the counting machine.
- **The sketch** – `SketchMath`, `Buckets`, `Sketches`, `DefaultSketch`. Quantiles in exact arithmetic.
- **The agent** – `RateLimiter`, `Pipeline`, `SpoolNames`, `SpoolIndex`, `Spool`, `SpoolRuns`, `Transport`,
  `Https`.
- **Redis** – `RedisStore`, `Locks`, `Fencing`. The scripts against the in-memory implementations.

`Ordering` and `DecimalText` hold sorting and number formatting as the Go library does them.

Concurrent code is a machine: a state, a step for each critical section, channel operation, script or file
operation, `Enabled` saying when a step can happen and `Next` what it does. A theorem about all runs quantifies
over every sequence of enabled steps. Times are integers in nanoseconds (seconds in `RedisStore`); clocks, file
faults, answers of the edge, publish results and handler results are arguments or parts of steps, and nothing is
assumed of them beyond what a contract states.

Some laws turned out to need a condition, which is proved exact:

- An event lies between the start and the end of its window exactly when its time is not before the epoch or is the
  start itself; before the epoch, where Go's division truncates toward zero, a window takes in the times above the
  start of the window before it, up to its own start (`Aggregation.CoversMeansWithin`,
  `AggregatorHistory.EventInItsWindow`).
- A window counts as closed exactly when it has ended, except for watermarks before the epoch that fall inside
  it, by the same division (`Aggregation.ClosedMeansEnded`).
- A device of a user shares its scope with another exactly when `}:` comes after something in the user id or before
  something in the device id (`KeyCollisions.ScopeSharedIff`); two users have devices with one scope exactly when
  one user id goes on, after the other, with `}:` (`KeyCollisions.UsersMeetIff`), and with one set of Redis keys
  exactly when it goes on with `}:device:` (`RedisStore.KeysMeetIff`). A device reads exactly its own events exactly
  when no admitted event of another has its scope (`ExactlyOnce.ReadsOwnIff`).
- A correlation key shares its text with another key exactly when its user or device id has such a `}:`, its device
  id has a process id (a 32-bit number as printed) after a colon that follows something, up to the end or another
  colon, or its pod id has one before a colon, from the start or another colon on
  (`KeyCollisions.SharedIffAmbiguous`).
- A spool directory is read back in one way exactly when no two of its entries carry the same two numbers
  (`SpoolIndex.ListingUniqueIff`), which holds of every directory a spool has grown from an empty one
  (`SpoolRuns.RunFromEmpty`).
- Redis recognises a redelivery exactly when the last new application to its device came less than the time to
  live after the emission's own last one, and less than the time to live ago (`RedisStore.RecognisedIff`); both
  stores agree throughout exactly when every redelivery passes that test (`RedisStore.AgreeIffRecognised`).
- Both lock implementations grant the same lease and agree from then on exactly when the time to live is a whole
  number of milliseconds or the lock is not free (`Locks.AcquireAgrees`): Redis rounds down, and for less than a
  millisecond it has already moved the fence when it refuses.
- A blocking batcher can lose a batch in a run that is cancelled, and in no other
  (`Pipeline.BlockingLosesIffCancelled`); room in the queue does not help, since a cancelled offer may be given up
  although the queue is empty (`Pipeline.CancelledLoses`). `docs/availability.md` promises no loss without that
  condition.
- The spool-drop metric is never below the spool's counter once the sends are back, and equals it exactly when no
  recorded reading rises after one has fallen (`Transport.MetricMeetsCounter`); `recordSpoolDrops` reads the
  counter before it takes the lock, so readings of concurrent sends can be recorded in the other order. With one
  sender the metric is exact (`Transport.OneSenderInTurn`).

The kernel limiter does better than twice its cap: twice the cap less one, and that is attained
(`RateLimiter.CapPerSecond`, `RateLimiter.BoundAttained`). Where the documentation and the code differ the model
follows the code: besides the blocking policy above, `docs/state-sync.md` credits the last window id with stopping a
window from being applied again after a reset, where the code relies on the set of applied identities.

## Model

| member | source | states |
|---|---|---|
| `ExactlyOnce.EndToEnd` | internal/aggregate/aggregator.go:129-282 | for every run, with any resets: once nothing is open or pending and every emission a target took was delivered at least once, each device of each user reads in that target exactly the sums over its admitted events, apart from those delivered there before a later reset of the device; and at no time more than the sums over all of them (no other user's id goes on after this one, nor this one after another, with `}:`) |
| `ExactlyOnce.NeverResetReadsAll` | internal/store/memory.go:57-145 | a device never reset in a target reads there, drained, exactly the sums over all its admitted events |
| `ExactlyOnce.WipedIffReset` | internal/store/memory.go:122-145 | in every run a store has received what was delivered to it, and has wiped exactly the emissions whose device was reset there after the delivery |
| `ExactlyOnce.ReadsOwnIff` | internal/domain/key.go:42-50 | drained and with nothing wiped, a device reads exactly its own admitted events if and only if no admitted event of another device has its scope |
| `ExactlyOnce.ExactlyOnceWhenDrained` | internal/aggregator/service.go:97-119 | the same for every store key, whatever the identifiers contain: the tally of its admitted events not in a wiped emission |
| `ExactlyOnce.NeverTooMuch` | internal/store/memory.go:57-120 | at every moment no store shows more for a device than the tally of its admitted events |
| `ExactlyOnce.NextKeeps` | internal/app/fanout.go:19-29 | every step (ingest, collect, one target asked to take one window and succeeding, failing, or taking it and failing, the end of a window's fan-out, commit, delivery, reset) keeps: calls list emissions on record, what is committed was taken by every target, every store shows the tally of what reached it and stands; deliveries interleave between the targets of one fan-out |
| `ExactlyOnce.RunKeeps` | internal/aggregator/service.go:81-119 | all of that holds in every state of every run from the start |
| `AggregatorHistory.RunSound` | internal/aggregate/aggregator.go:114-282 | in every run with any batches, sketch failures and commits: open windows and emissions show exactly the tally of the events placed in them, pending agrees with what was emitted, and open plus pending stays within a positive ceiling |
| `AggregatorHistory.EventInOnePlace` | internal/aggregate/aggregator.go:198-282 | each admitted event is in exactly one open window, pending emission or committed emission, of its own key |
| `AggregatorHistory.EveryEventInItsWindow` | internal/aggregate/aggregator.go:95-158 | in every run every admitted event is in an open window or an emission that carries its user, device, process and pod ids and whose window takes in its time; from the epoch on its time lies from the window's start up to its end |
| `AggregatorHistory.EventInItsWindow` | internal/aggregate/aggregator.go:246-278 | of an emitted event: the same, and its time lies from the emission's window start up to its window end exactly when it is not before the epoch or is the window start |
| `AggregatorHistory.RetryKeepsEmission` | internal/aggregate/aggregator.go:225-282 | a pending emission keeps its identity, sequence and contents through any later collection, failed or not, and is listed again |
| `AggregatorHistory.NewIdentity` | internal/aggregate/aggregator.go:258-278 | a new emission's sequence and identity differ from every earlier one, so no pending entry is overwritten |
| `AggregatorHistory.EmitKeysSound` | internal/aggregate/aggregator.go:246-282 | collection keeps the invariant and every pending emission, even when it fails part-way |
| `AggregatorHistory.AdmitBatchSound` | internal/aggregate/aggregator.go:160-180 | ingesting any batch keeps the invariant, even when a sketch cannot be made part-way |
| `AggregatorHistory.CommitSound` | internal/aggregate/aggregator.go:198-205 | committing any list of windows keeps the invariant |
| `Aggregation.ClosedMeansEnded` | internal/aggregate/aggregator.go:98-100 | when `windowID < watermark/size` is the same as the window having ended: always, except for a negative watermark strictly inside the window |
| `Aggregation.ClosedMeansEndedAfterEpoch` | internal/aggregate/aggregator.go:182-189 | for non-negative watermarks a window is collected exactly when its end is at or before the watermark |
| `Aggregation.KeyHoldsEvent` | internal/aggregate/aggregator.go:95-141 | the key an event is counted under has the event's four identifiers and the window that takes in its time, written as bounds in multiples of the window size |
| `Aggregation.CoversMeansWithin` | internal/aggregate/aggregator.go:95-112 | a window that takes in a time has it between start and end exactly when the time is not before the epoch or is the start |
| `Aggregation.IngestMeaning` | internal/aggregate/aggregator.go:129-158 | an event is shed exactly when no open window takes it in and open plus pending is at a positive ceiling, fails exactly when a sketch is then needed and cannot be made, and else is counted once in the one window that takes it in, all others unchanged |
| `Aggregation.CollectMeaning` | internal/aggregate/aggregator.go:225-282 | a collection lists every pending emission, by identity, then one new emission for each selected window, in the order of window id, user, device, process and pod, with the window's bounds, counts and percentiles; those windows leave, all others stay |
| `Aggregation.BatchAccounting` | internal/aggregate/aggregator.go:129-180 | every event of a batch that ran through is admitted or counted as shed |
| `Aggregation.KeyBeforeTotal` | internal/aggregate/aggregator.go:284-298 | `before` is a total order, so the sorted list does not depend on map order |
| `Aggregation.EmitKeysEmpties` | internal/aggregate/aggregator.go:225-282 | with a sketch that always answers, a collection never fails, empties exactly the selected windows and lists all it makes pending |
| `AggregatorObject.Aggregator.IngestLocked` | internal/aggregate/aggregator.go:129-158 | shed exactly when no open window takes the event in and open plus pending is at a positive ceiling; else the event is counted in the window of its identifiers that takes in its time, opened if need be; a sketch that cannot be made changes nothing |
| `AggregatorObject.Aggregator.IngestBatch` | internal/aggregate/aggregator.go:160-180 | an invalid event anywhere refuses the batch untouched; otherwise events go in one by one, shed ones are passed over, and a sketch failure ends the batch with the earlier events kept |
| `AggregatorObject.Aggregator.SelectKeys` | internal/aggregate/aggregator.go:225-233 | whatever order the map is ranged in, the keys come out as the selected ones in `before` order |
| `AggregatorObject.Aggregator.EmitAll` | internal/aggregate/aggregator.go:246-281 | the emit loop moves windows to pending one by one under fresh sequences and stops at a sketch failure |
| `AggregatorObject.Aggregator.CollectWindowsBefore` | internal/aggregate/aggregator.go:182-189 | lists all pending emissions and emits exactly the windows closed by the watermark, told by window end and watermark, in order, leaving every other window untouched; never fails with a sketch that always answers |
| `AggregatorObject.Aggregator.CollectAll` | internal/aggregate/aggregator.go:191-196 | lists all pending emissions and emits every open window, in order, and none stays open |
| `AggregatorObject.Aggregator.Commit` | internal/aggregate/aggregator.go:198-205 | the loop forgets exactly the listed identities |
| `AggregatorObject.FailureEndsCollection` | internal/aggregate/aggregator.go:249-256 | after a failure the rest of the collection changes nothing |
| `AggregatorObject.FailureEndsBatch` | internal/aggregate/aggregator.go:170-177 | after a failure the rest of the batch changes nothing |
| `Publishing.FanOut` | internal/app/fanout.go:19-29 | every target is asked; the first error is returned |
| `Publishing.NoFirstError` | internal/app/fanout.go:19-29 | the fan-out succeeds exactly when every target did |
| `Publishing.PublishedOnes` | internal/aggregator/service.go:97-119 | a window is committed exactly when its publication succeeded |
| `Publishing.Service.Publish` | internal/aggregator/service.go:97-119 | the loop tries every window, commits those that succeeded, returns the first error, counts both |
| `Publishing.Service.HandleBatch` | internal/aggregator/service.go:54-79 | ingests the batch; the shed metric equals what the aggregator has shed |
| `MemoryStore.CountersAreStanding` | internal/store/memory.go:57-145 | after any deliveries and resets a device's counters are the sums over the emissions first applied to it since its last reset |
| `MemoryStore.ApplyEffect` | internal/store/memory.go:57-120 | one application adds its emission to its own device, or nothing if applied before, and leaves every other device alone |
| `MemoryStore.AppliedIsDelivered` | internal/store/memory.go:84-89 | the identities remembered for a device are those delivered to it |
| `MemoryStore.Memory.ApplyWindow` | internal/store/memory.go:57-120 | the in-place update is one application in the sense of the laws above: duplicate counted and ignored, else added once with the percentile rules |
| `MemoryStore.Memory.ResetDevice` | internal/store/memory.go:122-145 | zeroes what is shown and keeps last window id and applied identities; reports an unknown device |
| `StoreConvergence.Convergence` | internal/store/memory.go:57-120 | any two delivery orders of the same emissions, with any repeats, end with equal counters, last window id, last-seen time and percentile sample, and percentiles from an emission attaining the maximum |
| `StoreConvergence.CountersAreSums` | internal/store/memory.go:84-93 | counters are the sums over the set of emissions delivered |
| `StoreConvergence.PeakHolds` | internal/store/memory.go:95-112 | last window id and sample are the lexicographic maximum of (window id, count) |
| `StoreConvergence.LatestHolds` | internal/store/memory.go:91-94 | the last-seen time is the latest end among the emissions delivered for the last window |
| `Domain.IdentityRoundTrip` | internal/domain/key.go:66-74 | window id, sequence and key text can be read back from an identity, whatever the identifiers contain |
| `Domain.IdentityDeterminesEmission` | internal/domain/key.go:66-82 | equal identities have equal sequence, window id and key text |
| `Domain.IdentityDeterminesKey` | internal/domain/key.go:26-82 | among keys whose user id has no `}` and whose device id has no `:` the identity determines the key, with any pod id |
| `Domain.AmbiguousKeys` | internal/domain/key.go:26-50 | concrete keys and scopes that collide |
| `Domain.ValidateEvent` | internal/domain/event.go:61-81 | returns nothing exactly for a valid event, else the first of its faults: device id, user id, kind, latency, bytes, time |
| `Domain.ValidateCommand` | internal/domain/command.go:46-60 | returns nothing exactly for a valid command, else the first of its faults: kind, user id, device id, actor |
| `Domain.TextForms` | internal/domain/key.go:26-82 | the spelling of scopes, keys and identities: separators, order of the fields, sign of the process id |
| `KeyCollisions.SharedIffAmbiguous` | internal/domain/key.go:26-36 | among keys with non-empty user and device ids and int32 process ids: another has the same text exactly when the key's own fields are ambiguous, the four ways written out |
| `KeyCollisions.IdentityFixesKeyIff` | internal/domain/key.go:66-82 | an emission's identity determines its key among those keys exactly when the key is not ambiguous |
| `KeyCollisions.ScopeSharedIff` | internal/domain/key.go:42-50 | a device of a user shares its scope with another exactly when `}:` comes after something in the user id or before something in the device id |
| `KeyCollisions.UsersMeetIff` | internal/domain/key.go:42-50 | two users have devices with the same scope exactly when one user id goes on, after the other, with `}:` |
| `Domain.DeviceScopeInjective` | internal/domain/key.go:42-50 | for two users of whom neither id goes on after the other with `}:`, a device scope names one device of one user |
| `Bus.RunStrandsNothing` | internal/bus/bus.go:128-169 | in every run, once all consumers have returned, the values finalised are those enqueued, once each, in enqueue order within a partition, and are those whose send returned nil; handler calls = retried + delivered + dead-lettered |
| `Bus.NothingStranded` | internal/bus/bus.go:255-318 | the same of every state the invariant admits, with no send left in flight and the published counter exact |
| `Bus.NextKeeps` | internal/bus/bus.go:128-318 | every step keeps: the in-flight counter counts the sends, none is in flight after shutdown, each partition's puts are its finalised, in-hand and queued values in order |
| `Bus.CloseProgresses` | internal/bus/bus.go:306-318 | a close that waits is never stuck: it can finish or a send can move |
| `BusAttempts.CapacityHolds` | internal/bus/bus.go:128-147 | in every run no partition ever holds more than its capacity |
| `BusAttempts.DeadAfterAllAttempts` | internal/bus/bus.go:285-304 | in every run a dead letter failed exactly the allowed number of times and a delivered value fewer; a value in hand failed one time less than its attempt, one in a queue never |
| `Broker.FateMeaning` | internal/bus/bus.go:285-304 | a value is dead-lettered exactly when every attempt failed uncancelled, delivered exactly when one succeeded after failures only |
| `Broker.Broker.Deliver` | internal/bus/bus.go:285-304 | retries until success, cancellation or the last attempt; calls, counters and dead-letter list are those of the fate above |
| `Broker.Broker.Claim` | internal/bus/bus.go:171-182 | claims the first free partition; fails exactly when none is free |
| `Broker.Broker.ClaimAll` | internal/bus/bus.go:184-197 | claims all partitions or, if any is taken, none |
| `Broker.Broker.Release` | internal/bus/bus.go:199-206 | frees one partition, ignores a number out of range |
| `Lossless.StopLosesNothing` | internal/app/runtime.go:290-324 | in every run, once `Stop` has returned, for every store (live or archive) whose window bus dead-lettered nothing: store count + events wiped by resets + shed + events of dead-lettered batches = events of accepted batches; nothing is wiped from any store but the live one |
| `Lossless.DevicesAtStop` | internal/app/runtime.go:290-324 | in such a store each device of each user reads the sums over its admitted events, apart from those that had reached the live store before a command reset the device |
| `Lossless.CommandsHandled` | internal/app/runtime.go:319-320 | once `Stop` has returned, the commands whose publication returned nil are those handled to the end, once each |
| `Lossless.DeadMeansInvalid` | internal/aggregator/service.go:54-79 | in every run a finalised batch was delivered exactly when all its events are valid, so nothing else is dead-lettered |
| `Lossless.AgentsNeverRefused` | internal/app/runtime.go:296-320 | in every run the batch bus closes only when no agent is sending, so no batch is refused for closing, and the command bus only once the window buses are done |
| `Composition.RunRefines` | internal/app/runtime.go:214-324 | every run of the runtime makes, step by step, a run of the counting machine that leads to the same counting state |
| `Composition.DeviceReading` | internal/store/memory.go:57-145 | so, whenever a store has received all it was to, each device reads there the sums over its admitted events not reset since; in every store but the live one, over all of them |
| `Lossless.BatchesAccounted` | internal/bus/bus.go:285-318 | once the batch consumers are done, ingested events and those of dead-lettered batches add up to the accepted ones |
| `Lossless.AllPersisted` | internal/app/runtime.go:311-317 | with no dead letters on its bus, all that was put on a window bus reached its store |
| `Shutdown.NextKeeps` | internal/app/runtime.go:271-324 | every step of agents, consumers, emitter, fan-out to the window buses, command bus and shutdown keeps the composed invariant: ingested = delivered, a target took exactly what was put on its bus, all pending is being published, only the live store is reset, the stages are in order |
| `Shutdown.RunKeeps` | internal/app/runtime.go:271-324 | the composed invariant holds in every state of every run |
| `Shutdown.NeverRefused` | internal/app/runtime.go:307-311 | while an emit is in progress every window bus is open, so no publication of it is refused |
| `Stopping.Progress` | internal/app/runtime.go:290-324 | in every state before the last some step is enabled that is no new send, command or tick and no cancellation: no full queue, waiting close or failing handler blocks `Stop` |
| `Stopping.StepLess` | internal/bus/bus.go:255-318 | every step but a new send, command or tick leaves strictly less to do, in a well-founded order |
| `Stopping.RunStops` | internal/app/runtime.go:290-324 | from every state of every run, every schedule with finitely many further sends, commands and ticks, however many, reaches the stopped stage |
| `Sketches.QuantileAccuracy` | internal/aggregate/sketch.go:142-164 | for any values and any q in [0,1]: 0 when the exact order statistic is non-positive, else within alpha times it plus one half, the order statistic told by counting: with k the floor of q(n-1), at most k values are below it and more than k are at most it |
| `Sketches.StatisticByCounting` | internal/aggregate/sketch.go:142-164 | a value is the order statistic of a list exactly when it is in the list, at most k of its values are less and more than k are not greater, k being the floor of q(n-1) |
| `Sketches.QuantileMonotone` | internal/aggregate/sketch.go:142-164 | quantiles never decrease in q |
| `Sketches.MergeIsOneSketch` | internal/aggregate/sketch.go:114-140 | merging is sketching the concatenation; commutative and associative, in buckets, counts, extremes and quantiles |
| `Sketches.QuantileOrderFree` | internal/aggregate/sketch.go:63-81 | the order of adding does not matter |
| `Sketches.Sketch.Quantile` | internal/aggregate/sketch.go:142-164 | the bucket walk returns the reference quantile of the values added, never the fall-through, and so answers for the value of that rank within the accuracy; out of range is an error |
| `Sketches.Sketch.Add` | internal/aggregate/sketch.go:63-81 | the summary stays that of the values added, the cached order is never stale |
| `Sketches.Sketch.Merge` | internal/aggregate/sketch.go:114-140 | refuses nil and different accuracies; else equals one sketch of both |
| `Sketches.Sketch.Clone` | internal/aggregate/sketch.go:166-181 | an independent sketch of the same values |
| `Sketches.Sketch.SortedIndexes` | internal/aggregate/sketch.go:83-99 | the cached list is the bucket indexes in order, each once |
| `Sketches.Sketch.Max` | internal/aggregate/sketch.go:49-54 | 0 for no values, else the greatest value added |
| `Sketches.Sketch.Min` | internal/aggregate/sketch.go:56-61 | 0 for no values, else the least value added |
| `Sketches.NewSketch` | internal/aggregate/sketch.go:30-43 | refuses accuracies outside (0,1) |
| `SketchMath.Index` | internal/aggregate/sketch.go:101-103 | the least i with v <= gamma^i |
| `SketchMath.EstimateAccuracy` | internal/aggregate/sketch.go:101-112 | a bucket's value is within alpha of every value in it, plus rounding, also under the clamp to MaxInt64 |
| `SketchMath.EstimateMonotone` | internal/aggregate/sketch.go:105-112 | bucket values never decrease |
| `Buckets.MergeHomomorphism` | internal/aggregate/sketch.go:114-140 | the summary of a concatenation is the combination of the summaries |
| `Buckets.CombineLaws` | internal/aggregate/sketch.go:114-140 | combination is commutative and associative on all summaries |
| `Buckets.RankedCell` | internal/aggregate/sketch.go:150-163 | walking the buckets to a rank and sorting the values agree |
| `DefaultSketch.EmittedPercentiles` | internal/aggregate/aggregator.go:74-93 | in every run every emitted window has p95 <= p99, each within the accuracy of the value of that rank, told by counting, among the latencies of the very events it counts, and as its maximum their greatest latency |
| `DefaultSketch.SketchAlwaysAnswers` | internal/aggregate/aggregator.go:249-256 | the default sketch never cuts a collection short |
| `SpoolNames.NameRoundTrip` | internal/spool/spool.go:167-195 | a printed name parses back to its ordinal and sequence, for every int64 ordinal from zero and every uint64 sequence |
| `SpoolNames.EntryIff` | internal/spool/spool.go:167-185 | a name is an entry of an ordinal and a sequence exactly when it is a number in the int64 range, a dash, a number in the uint64 range and the suffix |
| `SpoolNames.NameForm` | internal/spool/spool.go:187-195 | every printed name is twenty digits, a dash, twenty digits and the suffix |
| `SpoolNames.PartialIsNoEntry` | internal/spool/spool.go:101-109 | a partly written file is never taken for an entry, nor an entry for one |
| `SpoolNames.EntryIsPlain` | internal/spool/spool.go:330-333 | an entry's name always passes the plain-name guard |
| `SpoolIndex.RemoveOk` | internal/spool/spool.go:330-358 | removing an entry keeps the index invariant; bytes stay the sum of sizes, so the clamp never fires |
| `SpoolIndex.SortedByNumbers` | internal/spool/spool.go:130-140 | entries in name order are in order of ordinal, then sequence, oldest first |
| `SpoolIndex.ListingUniqueIff` | internal/spool/spool.go:130-140 | a directory is read back in one way exactly when no two of its entries carry the same two numbers |
| `SpoolIndex.CrashRecovery` | internal/spool/spool.go:94-143 | what is read back from a directory left by a crash is a suffix of the surviving order, or what was to be kept then the new entry, payloads whole, also when files had vanished; entries of different numbers in exactly that order |
| `SpoolRuns.ReopenAfterCrash` | internal/spool/spool.go:60-156 | stop between any two file operations of an enqueue and reopen with the same budget: that order, whole, within the budget, so nothing is trimmed |
| `SpoolRuns.ReopenAfterRelease` | internal/spool/spool.go:314-328 | after a release: the surviving order without the released entry, within the budget, so nothing is trimmed |
| `SpoolRuns.Perform` | internal/spool/spool.go:197-328 | one enqueue or release with no failed removal does what its law says, and every disk along the way reopens to the surviving order and at most the payload on its way |
| `SpoolRuns.Run` | internal/spool/spool.go:197-328 | the same of every point of every run of enqueues and releases, and no two entries come to carry the same numbers |
| `SpoolRuns.RunFromEmpty` | internal/spool/spool.go:60-328 | the same from an empty directory, where no two entries ever carry the same numbers |
| `SpoolRuns.Restart` | internal/spool/spool.go:60-156 | opening what a stop has left trims and drops nothing, gives the surviving order and a spool that can run on; in one order only if no two entries carry the same numbers |
| `Spool.FreshName` | internal/spool/spool.go:187-195 | the next name is new and sorts after every entry, so it overwrites nothing |
| `Spool.Spool.Enqueue` | internal/spool/spool.go:197-247 | keeps the longest suffix that leaves room, then the new entry; counts every loss; refuses rather than evicts for the number of entries; within budget while no removal failed; every disk along the way is crash-safe |
| `Spool.Spool.Admit` | internal/spool/spool.go:224-246 | names, publishes and indexes the payload; a failed directory sync leaves it in the spool |
| `Spool.Spool.Publish` | internal/spool/spool.go:225-235 | temporary file then rename: whatever fails, no entry is lost or damaged at any point |
| `Spool.Spool.EvictFor` | internal/spool/spool.go:211-217 | evicts the fewest oldest entries; stops at a removal that fails |
| `Spool.Spool.Remove` | internal/spool/spool.go:330-358 | unlinks, then forgets exactly that entry; a failed unlink changes nothing |
| `Spool.Spool.NextName` | internal/spool/spool.go:187-195 | the first candidate is never taken |
| `Spool.Spool.Peek` | internal/spool/spool.go:280-312 | the oldest entry with its payload, found exactly when there is one to read; a vanished file is forgotten |
| `Spool.Spool.Vanish` | internal/spool/spool.go:289-299 | a file taken away by other hands leaves the index and its laws standing |
| `Spool.Spool.Release` | internal/spool/spool.go:314-328 | removes the named entry and no other; an unknown name is left alone |
| `Spool.Spool.Recover` | internal/spool/spool.go:94-143 | the index becomes the directory's listing, in order; exactly the partly written files that can be removed are; the counters are the highest ordinal and sequence seen |
| `Spool.Spool.TrimToBudget` | internal/spool/spool.go:145-156 | removes the fewest entries from the front that bring the spool within its bytes and its number of entries, none when within; over budget at the end only with a front entry that cannot be removed |
| `Spool.Open` | internal/spool/spool.go:60-86 | refuses no directory and no budget; else the listing less the fewest front entries, in bytes on disk and in number, counted as dropped; over budget only with a front entry that cannot be removed; counters at the highest numbers seen |
| `Spool.EntryLimit` | internal/spool/spool.go:60-86 | the number of entries allowed is one for each whole KiB of the budget, and at least 64 |
| `Transport.NothingLostSilently` | internal/transport/https.go:155-257 | from any opened spool, in every interleaving of sends and drain: a batch whose send returned nil, or that was in the spool at the start, was accepted, is spooled, was permanently refused, or was evicted; evictions and refusals by the spool are exactly the rise of the drop counter |
| `Transport.ReleaseIsOwn` | internal/transport/https.go:218-263 | from any opened spool, no name is ever used twice, so a release, however late, removes the entry that was read or nothing |
| `Transport.OldestFirst` | internal/spool/spool.go:211-217 | in every run nothing that stays sorts before what is evicted, and the drain reads an entry none sorts before |
| `Transport.SpoolDecides` | internal/spool/spool.go:197-221 | a send that reaches the spool can be put in exactly one way or is turned away, and is turned away exactly if its payload is empty or over the budget, or the spool is full in number and the payload would fit without an eviction |
| `Transport.JudgeIff` | internal/transport/https.go:194-216 | accepted exactly on 2xx, refused for good exactly on 4xx other than 408 and 429, tried again on anything else and on no answer |
| `Transport.NextKeeps` | internal/transport/https.go:155-257 | every step keeps the ledger of names, batches and fates |
| `Transport.MetricMeetsCounter` | internal/transport/https.go:290-301 | in every run, when no send is between spool and metric and one has recorded: the metric is at least the drop counter, and equals it exactly when no recorded reading rises after one has fallen |
| `Transport.RecordedIffNoRise` | internal/transport/https.go:290-301 | for any list of readings the metric is at least the highest, and exceeds it exactly when a reading rises after one has fallen |
| `Transport.OneSenderInTurn` | internal/transport/https.go:290-301 | with at most one send at a time between spool and metric the metric is exact |
| `Transport.SwappedReadingsOvercount` | internal/transport/https.go:290-301 | from every opened spool, under every configuration, a run of twelve steps whose metric ends one above the counter: two sends record their readings in the other order, and a third follows |
| `Https.HTTPS.Send` | internal/transport/https.go:155-204 | with the edge's answer: accepted or permanently refused leaves spool, disk and counters as they are, refused being the error; else the payload is enqueued, with the spool's own answer, evictions, sequence and drops, ok exactly when it is held as the newest entry, and the drop metric follows; without a spool, an error |
| `Https.HTTPS.DrainOnce` | internal/transport/https.go:218-263 | with nothing to read nothing changes; else the oldest entry leaves, index and disk, exactly on a 2xx or a permanent refusal if its file can be removed, and the rest is untouched; an entry whose file had vanished is forgotten |
| `Https.HTTPS.RecordSpoolDrops` | internal/transport/https.go:290-301 | adds the rise since the last reading |
| `Https.OpenedSpoolStarts` | internal/spool/spool.go:60-86 | whatever index is recovered, the runs of `Transport` can start from it |
| `Https.TakePut` | internal/spool/spool.go:197-247 | an enqueue with no fault is the step `Put` of `Transport`, with as many evictions, or its `TurnAway`, and leaves the spool holding that step's queue |
| `Https.TakeRelease` | internal/spool/spool.go:314-328 | a release with no fault is the step `Release` of `Transport` |
| `Https.TakeSend` | internal/transport/https.go:155-178 | a send with no fault is the steps of `Transport` from its `Send` on: alone if judged, else followed by `Put` or `TurnAway` and the reading and recording of the drops; it returns ok exactly when those steps return the batch; spool and metric end as theirs |
| `Https.TakeDrain` | internal/transport/https.go:218-257 | one turn of the drain with no fault is the steps of `Transport`'s drainer: none on an empty spool, else reading and posting, with the release exactly when judged |
| `Pipeline.Conservation` | internal/pipeline/batcher.go:98-219 | at every moment of every run, under every strategy: accepted = pending + on its way + queued + dropped + handed over, and every flushed batch is in exactly one place |
| `Pipeline.HandedInOrder` | internal/pipeline/sender.go:51-59 | batches handed over are flushed batches of the accepted stream, in order, of 1 to MaxEvents valid events of this device |
| `Pipeline.RunAccounts` | internal/pipeline/batcher.go:98-139 | when `Run` returns accepted = dropped + handed over, and every batch handed over was sent or counted as a failure |
| `Pipeline.BlockingLosesIffCancelled` | internal/pipeline/overflow.go:51-60 | for every blocking configuration a run that has lost a batch, cancelled or not as given, exists exactly when cancelled is given |
| `Pipeline.CancelledLoses` | internal/pipeline/overflow.go:51-60 | for every blocking configuration and acceptable event, a run of three or four steps that loses its batch with the queue empty throughout: room does not help |
| `Pipeline.BlockingLosesByGivingUp` | internal/pipeline/overflow.go:51-60 | in every run a blocking batcher loses in exactly the steps that give up, which can happen exactly when a batch is on offer and the run is cancelled |
| `Pipeline.BlockingLosesNothing` | internal/pipeline/overflow.go:51-60 | in every run a blocking batcher that is not cancelled has dropped nothing, and has at its end handed over all it accepted |
| `Pipeline.EvictsTheOldest` | internal/pipeline/overflow.go:18-38 | drop-oldest evicts a batch older than all that stays, and its second try always has room |
| `Pipeline.LossByPolicy` | internal/pipeline/overflow.go:18-60 | in every step of every run a batch is lost only as its policy means: drop-newest the one on offer and only with the queue full, drop-oldest the oldest queued while the one on offer goes in, or the one on offer only if the queue is found empty, blocking only by giving up |
| `Pipeline.RunBatches` | internal/pipeline/batcher.go:141-174 | in every run the batches flushed are the admitted input cut at the maximum and at every tick, the rest at the end |
| `Pipeline.NextKeeps` | internal/pipeline/overflow.go:18-60 | every step of the loop, the strategies and the sender keeps the invariant |
| `Pipeline.Batcher.Collect` | internal/pipeline/batcher.go:141-174 | the loop flushes everything accepted, in order, cut at MaxEvents, at every tick and at the end, and nowhere else; every arrival is counted as accepted or rejected |
| `Pipeline.Batcher.Accept` | internal/pipeline/batcher.go:176-187 | accepts valid events of this device and counts the rest as rejected |
| `RateLimiter.CapPerSecond` | bpf/ironclaw.c:114-131 | for every trace with positive non-decreasing clock and cap C > 0, any half-open second admits at most 2C - 1 |
| `RateLimiter.BoundAttained` | bpf/ironclaw.c:114-131 | a trace attains 2C - 1 for every cap |
| `RateLimiter.CapPerWindow` | bpf/ironclaw.c:120-123 | one limiter window admits at most C |
| `RateLimiter.ZeroClockUnlimited` | bpf/ironclaw.c:120-123 | a clock reading of zero defeats the limiter |
| `RateLimiter.ObservedAccounted` | bpf/ironclaw.c:154-204 | observed = emitted + filter + rate + ring-buffer drops, modulo 2^64 |
| `RateLimiter.CountersCount` | bpf/ironclaw.c:154-204 | each counter counts its own outcome, modulo 2^64 |
| `RateLimiter.FilteredIff` | bpf/ironclaw.c:154-204 | in every trace an exit is filtered exactly when enabled, paired with its entry and faster than the least latency, in 64-bit arithmetic |
| `RateLimiter.LimitedIff` | bpf/ironclaw.c:114-204 | refused by the limiter exactly when it passes that filter, the cap is positive, no new window opens and the window has admitted the cap |
| `RateLimiter.NoCapNoLimit` | bpf/ironclaw.c:125-126 | a cap of zero never limits |
| `RateLimiter.SampledOutIff` | bpf/ironclaw.c:107-112 | a process is tracked exactly when the modulus is at most one or divides its id |
| `RateLimiter.Probe.SysExit` | bpf/ironclaw.c:154-204 | one exit: pairing, filter, limiter, ring buffer, counters, and the record submitted |
| `RateLimiter.Probe.SysEnter` | bpf/ironclaw.c:133-152 | remembers the entry time of tracked processes only |
| `RateLimiter.Probe.RateLimited` | bpf/ironclaw.c:114-131 | opens a window after a second or at start, refuses at the cap, else counts; in wrapping 64-bit arithmetic |
| `RedisStore.RecognisedIff` | internal/redisstore/store.go:34-44 | after every run with a non-decreasing clock and users of whom no id goes on after another with `}:`, Redis takes an emission for a duplicate exactly when the last new application to its device came less than the time to live after the emission's own last, and less than the time to live ago |
| `RedisStore.AgreeIffRecognised` | internal/redisstore/store.go:34-94 | for what the aggregator emits (window ids from zero, counts from one) to users of whom no id goes on after another with `}:`: both stores agree after every call on every device's counters, last window id, percentiles and sample exactly when every redelivery passes that test |
| `RedisStore.RunsAgree` | internal/redisstore/store.go:34-94 | the agreement, under the test, for every device after every run |
| `RedisStore.SameVerdict` | internal/redisstore/store.go:34-44 | both stores take a delivery that passes the test for a duplicate, or neither does |
| `RedisStore.UnrecognisedCountsAgain` | internal/redisstore/store.go:36-76 | a redelivery that fails the test is counted again in Redis and not in memory |
| `RedisStore.InTimeIsRecognised` | internal/redisstore/store.go:36-44 | redeliveries within the time to live of the first delivery all pass the test |
| `RedisStore.CountAgrees` | internal/redisstore/store.go:49-71 | the script's defaults (-1, 0) and the record's zero values lead to the same fields |
| `RedisStore.KeysApart` | internal/redisstore/store.go:145-153 | for two users of whom neither id goes on after the other with `}:device:`, each device of each has its own keys |
| `RedisStore.KeysMeetIff` | internal/redisstore/store.go:145-153 | two users have devices with the same keys exactly when that is not so |
| `RedisStore.KeyForms` | internal/redisstore/store.go:145-153 | the spelling of the two keys of a device |
| `RedisStore.AloneCountedAgainIffLate` | internal/redisstore/store.go:36-76 | in every run, an emission newly applied and with nothing delivered to its device since is recognised when it comes within the time to live, and counted again exactly when it comes later |
| `RedisStore.LateRedeliveryCountsTwice` | internal/redisstore/store.go:36-44 | an emission delivered alone and again the time to live or more later is counted twice |
| `RedisStore.AnotherKeepsItKnown` | internal/redisstore/store.go:41-44 | another emission of the device in between keeps a late redelivery recognised, for up to twice the time to live |
| `RedisStore.Store.ApplyWindow` | internal/redisstore/store.go:34-76 | the script command by command: duplicate check, add, trim, expire, counters, percentile rules; answers whether the emission was new |
| `RedisStore.Store.ResetDevice` | internal/redisstore/store.go:78-94 | zeroes the six fields, keeps last window id and the applied set; answers whether the device was known |
| `Locks.RunsAgree` | internal/redisstore/lock.go:23-59 | after every operation of every run under one clock both lockers have the same locks in force and the same fences (whole-millisecond times to live) |
| `Locks.AnswersAgree` | internal/store/lock.go:47-117 | every acquire and guard of every run has the same outcome in both |
| `Locks.AcquireAgrees` | internal/redisstore/lock.go:69-93 | same lease and agreement ever after exactly when the lock is not free or the time to live is whole milliseconds |
| `Locks.LocalGrant` | internal/store/lock.go:47-75 | when each answer is given, exactly; a grant takes the next token, holds until now plus what was asked (15 s if nothing positive), and changes no other resource |
| `Locks.RedisGrant` | internal/redisstore/lock.go:23-93 | the same on Redis, whose own deadline is the asked one rounded down to whole milliseconds; below a millisecond the expiry is refused with the fence already moved |
| `Locks.ReleaseAgrees` | internal/redisstore/lock.go:34-45 | same effect on the locks in force; the answers differ exactly for a stale token on an expired lock not yet forgotten |
| `Locks.GuardAgrees` | internal/redisstore/lock.go:47-59 | the guards agree |
| `Locks.Locker.AcquireLock` | internal/store/lock.go:47-75 | refuses an empty name and a lock in force; else grants the next token until now plus the time to live, 15 s if none is given |
| `Locks.Locker.ReleaseLock` | internal/store/lock.go:77-95 | deletes the lock only for its own token; nothing held is success; any other token is superseded |
| `Locks.Locker.GuardLock` | internal/store/lock.go:97-117 | passes exactly the held token, not behind the fence, before its expiry |
| `Locks.RedisLocks.AcquireLock` | internal/redisstore/lock.go:23-32 | the same on visible keys, in whole milliseconds; a refused expiry leaves the fence moved |
| `Locks.RedisLocks.ReleaseLock` | internal/redisstore/lock.go:34-45 | deletes a visible lock only for its own token; an expired one reads as nothing held |
| `Locks.RedisLocks.GuardLock` | internal/redisstore/lock.go:47-59 | refuses a token behind the fence, an invisible lock and another token |
| `Fencing.LeasesInTurn` | internal/store/lock.go:61-75 | in every run tokens of a resource strictly increase and lifetimes of leases never overlap |
| `Fencing.HeldIsFence` | internal/store/lock.go:66-72 | a held token is always the fence |
| `Fencing.OnePasses` | internal/store/lock.go:97-117 | at any instant at most one issued lease of a resource passes the guard: the latest, within its lifetime |
| `Fencing.RefusedForever` | internal/store/lock.go:97-117 | an issued lease once refused is refused by every later guard |
| `Fencing.StaleReleaseFreesNothing` | internal/store/lock.go:85-92 | releasing any but the latest lease of a resource changes nothing |

## Left out

- Kafka, Postgres, tracing, metrics export and the eBPF loader: they rest on foreign clients; Kafka appears only as a window delivered at least once.
- Surviving a crash of the aggregator with open windows: batch offsets are committed once the handler returns, so the source does not promise it.
- Several aggregator instances: they share no sequence source.
- The wire codecs, HTTP ingest, MCP server, persister and configuration: they copy fields and check arguments, with no law beyond their own text.
- Watch notifications, device listings by user and `last_seen` in Redis: best effort or display, no effect on what is counted.
- IEEE rounding in the sketch: arithmetic is exact, with the clamp to MaxInt64 kept; Lua's doubles are exact integers.
- Cancellation of bus consumers and of `ReceivePartition` without a claim: the ordering and no-loss laws are for consumers that run until the bus is shut.
- The archive's own database: every store behind a window bus is taken to deduplicate as the live one does.
- Actors and rejection metrics of commands, and quarantine, which no handler supports: a command other than a valid reset fails.
- int64 and uint64 wrap-around of sequences, counters and tokens: integers are unbounded, except in the kernel model, whose words wrap.
- Spool.Spool.Enqueue: assumes that the ordinal and sequence counters have not reached the int64 and uint64 limits, where names would stop sorting.
- Spool.Spool.Admit: the same.
- Spool.Spool.NextName: the same.
- Https.HTTPS.Send: the same, of the spool it uses.
- Stopping.RunStops: a ticker that never falls silent could keep the emitter busy for ever; the schedules covered hold any finite number of ticks.
- Non-regular files, permissions, symbolic links and power loss in the spool: process stop with atomic rename is modelled.
- Redis rounding of expiry within a second, and a server clock different from the caller's: one clock serves both.
- Locks: contexts are not cancelled and Redis answers every call.
- Backoff and jitter of the drain loop, TLS and encoding in the transport: `Https` starts from the encoded payload.
- The sender's shutdown grace, after which sends are cancelled: a cancelled send counts as a failure like any other.
- The LRU eviction order of entry times in the kernel map: an entry may be forgotten at any time.
