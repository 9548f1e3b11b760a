# A verified model of the toll pipeline

On-board units (OBUs) send positions through a WebSocket receiver and Kafka to a distance calculator,
which calls an aggregator that keeps the invoices. Delivery is at least once. The pipeline's central
claim is that, because calculator and aggregator are idempotent, the *effect on the invoices* is
exactly once. This project models the code that carries that claim, the load generator's concurrent
accounting, and the percentile arithmetic of the benchmark, and proves what they promise.

`dafny verify dfyconfig.toml` checks everything.

## What is modelled, and where

| modules | what they hold |
|---|---|
| `Types`, `Words`, `Fingerprints` | records, 64-bit words, the order-independent reconciliation record |
| `Store`, `Aggregator` | the invoice store as functions, and the aggregator's objects proved against them |
| `Calculator`, `Pipeline`, `Replays` | the calculator; one clean pass over a log; repeated IDs, interleavings, path lengths |
| `Delivery`, `ExactlyOnce`, `Drain` | the delivery protocol as a step system, and safety and progress of all its runs |
| `Restarts`, `Crashes`, `Overcharge`, `Losses`, `Trips` | what a restarted calculator measures, what every run with restarts has billed, exactly when that is too much, and what is lost |
| `Consumer` | the consumer loop as code, proved to be a run of that step system |
| `EventIdentity`, `Routing`, `LoadGenerator`, `LoadRuns`, `LoadStops` | the load generator as interleaved atomic steps |
| `Reconciled` | from the generator's summary to the aggregator's record, through every run |
| `Histograms`, `Quantiles`, `Accuracy`, `Percentiles`, `Benchmark`, `TransportPool` | scrapes, quantiles, percentiles and the worker pool |

The delivery step system has one step for each point at which something can go wrong: a request is put
on the network and may be served once, late, repeatedly or never; a reply may be lost; a commit may be
refused, or land and have its acknowledgement lost; a rewind may fail and end the loop; the calculator
may crash at any step, which empties both of its maps and moves the position back to the committed
offset. The aggregator lives on. `prevPoints` is advanced *before* aggregation succeeds, so every retry
rests on the memo, the processed set and the commit order together.

Modelling choices:

- A float64 is `Finite(real)` or `NonFinite` (NaN and the infinities); rounding and overflow are not modelled.
- `calcDist` is any function of two points. The theorems need only that it is finite and not negative;
  `Types.Euclidean` states what `calcDist` computes, and some trips in `Trips` are measured with that.
- `EventIDFingerprint` is any function from strings to 64-bit words. Sums and counts wrap at 2^64. An XOR
  is the set of its one-bits (`Words.Bits`): their powers of two add up to the word (`Words.BitsDenote`).
- `int32(data.OBUID)` is modelled exactly, by `Types.Narrow`.
- A Kafka partition is a fixed sequence of records. A log that grows while it is read adds no behaviour,
  since a read may come arbitrarily late. A record is unreadable JSON (`Garbled`) or an event.
- Locks and atomics make the steps: what a mutex protects is one step, each atomic operation is one step.
  In max mode a worker's look at the context and the sequence number it then takes are one step.
- Clocks, deadlines, tickers and contexts become nondeterministic steps, or the script that
  `Consumer.KafkaConsumer.Start` runs against.
- Some state components are history that the program does not keep, and are marked so where they are declared:
  `paid`, `starts`, `consumed`, `failures` (`Delivery`); `done`, `misses`, `broke`, `owners`, `stamps`
  (`LoadGenerator`); `phases` (`TransportPool`).

Where the promises turn out to need a condition:

- Removing repeated event IDs preserves the meaning of a log if and only if no repetition turns an OBU ID
  that narrows to a non-positive number into one that narrows to a positive one
  (`Replays.DeduplicationPreservesMeaning`).
- `design/04-distance-calculator.md` says that a bad record does not block the partition. The code discards only what fails the
  consumer's own check; a record that passes it and is refused by the aggregator is retried as long as the calculator
  lives (`Drain.UnacceptableRecordBlocks`). If it is refused for its distance, a restart gets past it; if for its
  OBU ID, nothing does (`Delivery.UnbillableRecordBlocks`, and `Drain.BlockedLog` for an example). So some run drains a log, restarts
  allowed, if and only if every valid record's OBU ID is still positive after the narrowing (`Drain.DrainableIffPassable`).
- OBUs whose IDs narrow to the same number share a bill (`Types.NarrowCollision`); the total is the sum of
  their path lengths (`ExactlyOnce.BillIsJourney`).
- Restarts of the calculator can overcharge when event IDs are repeated in the log. With the program's own
  distances, a trip straight ahead from 0 to 1 to 2, whose first record is repeated, can be billed as 3
  (`Trips.StraightTripOvercharges`). Exactly when this happens, for given distances and a given log, depends on
  what is asked. No *record* is ever charged more than its true segment, in any run, if and only if a restart leaves no
  first occurrence farther from its OBU's last point than it truly is (`Overcharge.ChargesFairlyIff`). No *total* is
  ever too large if and only if the legs billed after a restart are never longer together than the true ones
  (`Overcharge.NeverOverchargesIff`). Both conditions are read off the log and the distances, as far as the consumer can
  get in the log; the first implies the second (`Restarts.DistancesKeepLengths`). Over all distances they become conditions
  on the log alone: no restart gives a first occurrence a false previous point (`Overcharge.AnyDistancesFairIff`), and none makes
  a leg be billed more often than the journey contains it (`Overcharge.AnyDistancesIff`). Distinct event IDs
  suffice for all of this. None of these implications can be reversed: see `Trips.RepetitionCanBeHarmless`,
  `Trips.ReturnTripIsHarmless` and `Trips.LostSegmentMakesUp`.
- For a load without events `histogramQuantile` returns NaN (`Benchmark.EmptyLoadIsNotANumber`), which the caller
  converts to a `time.Duration` with an implementation-defined result; `Accuracy.NotANumberIff` is the exact condition
  for every histogram and rank.

## Model

| member | source | states |
|---|---|---|
| `Delivery.StepKeepsInv` | dist-calc/consumer.go:96-175 | Every step, crashes included, keeps the protocol invariant: position and committed offset are equal or one apart, the calculator is a replay from its last start up to the cursor or one beyond, every request on the network is the one its start and record determine, nothing committed is lost |
| `Delivery.InvHolds` | dist-calc/consumer.go:96-175 | The invariant holds in every reachable state |
| `Delivery.NothingCommittedIsLost` | dist-calc/consumer.go:116-148 | In every run, every offset below the committed one holds a record that is unreadable or lacks an event ID, a timestamp or an OBU ID, or its event ID is in the aggregator's processed set |
| `Delivery.RequestsCarryTheirRecords` | dist-calc/consumer.go:157-162 | Every request of every run carries the event ID and the timestamp of its record, and its OBU ID reduced modulo 2^32 to the range of `int32`; no record that lacks one of them is sent |
| `Delivery.AnythingMayGoWrong` | dist-calc/consumer.go:96-175 | From every reachable state, any request may arrive again or late, the calculator may crash, an awaited call be given up, a commit fail with or without landing, and a rewind fail |
| `ExactlyOnce.SyncHolds` | dist-calc/consumer.go:127-175 | In every crash-free run the aggregator is at a clean pass up to the cursor or one record beyond, and a confirmed record has had its effect |
| `ExactlyOnce.ExactlyOnceEffect` | aggregator/store.go:17-32 | In every crash-free run, under any losses, late and repeated deliveries, failed commits and rewinds, the aggregator's whole state is that of one in-order pass over a prefix of the log, all of it billable |
| `ExactlyOnce.DrainedIsWholePass` | dist-calc/consumer.go:96-125 | Once drained, calculator and aggregator are exactly where one clean pass over the whole log ends |
| `ExactlyOnce.BillIsJourney` | dist-calc/service.go:32-49 | At any moment of a crash-free run the total under any key is the sum of the path lengths, repeated event IDs removed, of all OBUs that narrow to it, and exists exactly if one of them has a point; once drained, of the whole paths |
| `ExactlyOnce.BillIsOwnPath` | dist-calc/service.go:32-49 | An OBU that shares its key with no other one is billed for the length of its own path |
| `ExactlyOnce.DrainedRunsAgree` | data_receiver/producer.go:55-61 | Two deployments that drain different interleavings of the same per-OBU streams, each with its own failures, end with the same store and calculator |
| `Crashes.BooksBalance` | aggregator/store.go:20-30 | In every run, with crashes, for every log: each stored total is the length of the legs charged for the applied first occurrences, each measured from the start of the calculator that sent it |
| `Crashes.AppliedPrefix` | dist-calc/consumer.go:127-148 | In every run the applied records are exactly the first occurrences of a prefix of the log that covers the committed part |
| `Crashes.ChargedByTurns` | dist-calc/service.go:25-30 | Successive calculators charge for successive stretches of the log |
| `Restarts.ReplayRemembers` | dist-calc/service.go:32-49 | A calculator started cold at any offset holds each OBU's last point since then, repetitions ignored, and remembers exactly the IDs since then |
| `Overcharge.NeverOverchargesIff` | dist-calc/service.go:40-47 | For given distances and a given log: no run, with any restarts, ever has a total above the true distance of the applied first occurrences, if and only if the legs billed after a restart at any offset are never longer together than the true ones |
| `Overcharge.ChargesFairlyIff` | dist-calc/service.go:40-47 | For given distances and a given log: no first occurrence is ever charged more than an uninterrupted calculator would have charged, if and only if no restart leaves one farther from its OBU's last point than it truly is |
| `Overcharge.AnyDistancesIff` | dist-calc/service.go:40-47 | A log never overcharges in total, whatever the distances, if and only if no leg is billed more often after a restart than the journey contains it |
| `Overcharge.AnyDistancesFairIff` | dist-calc/service.go:40-47 | It never overcharges a record, whatever the distances, if and only if a restart gives every first occurrence its true previous point or none |
| `Overcharge.LengthsStayTrueIsEnough` | dist-calc/service.go:40-47 | The sufficient half for one run and one bill |
| `Restarts.DistancesKeepLengths` | dist-calc/service.go:40-47 | If no restart leaves a record farther than it is, the legs after it are never too long together |
| `Overcharge.CrashOnceBills` | dist-calc/consumer.go:141-146 | What a run bills in which the calculator dies after billing a record and before committing it |
| `Restarts.DistinctIDsAreHarmless` | dist-calc/service.go:35-47 | Distinct event IDs satisfy the condition on records |
| `Restarts.SegmentsImplyLegs` | dist-calc/service.go:35-47 | The condition on records implies the one on totals |
| `Losses.TrueOrZero` | dist-calc/service.go:40-47 | Under the condition on records, a calculator restarted anywhere sends the true distance of a first occurrence, or zero because it knows no previous point |
| `Losses.OneSegmentPerRestart` | dist-calc/service.go:25-30 | Then an OBU loses at most one segment per restart |
| `Losses.CrashesOnlyLose` | dist-calc/service.go:32-49 | Then a record not charged its true segment was charged nothing, and every total plus the lost segments is the true distance of what was applied |
| `Losses.LegsAreJourneys` | dist-calc/service.go:40-47 | The true legs billed under a key are the paths of all OBUs that narrow to it |
| `Losses.CrashesNeverOvercharge` | dist-calc/service.go:32-49 | With distances and a log that satisfy the exact condition on totals, after any restarts, no total exceeds the path lengths of the OBUs billed under it |
| `Losses.DrainedAfterCrashes` | dist-calc/consumer.go:141-146 | Once everything is committed, total plus lost segments is exactly the path lengths |
| `Trips.RepeatedIDsOvercharge` | dist-calc/service.go:35-47 | A log with one repeated ID and a run with one restart whose bill exceeds the journey, for any distances in which the third point is farther from the first than from the second |
| `Trips.TripOvercharges` | dist-calc/service.go:35-47 | For given distances that log can be billed too much if and only if its last point is farther from the repeated one than from the one before |
| `Trips.StraightTripOvercharges` | dist-calc/service.go:50-52 | With Euclidean distances, a run that bills 3 for a journey of length 2 |
| `Trips.ReturnTripIsHarmless` | dist-calc/service.go:50-52 | With Euclidean distances a return trip with a repeated record is never billed too much, record by record and in total, although a restart measures a leg that the journey does not contain |
| `Trips.RepetitionCanBeHarmless` | dist-calc/service.go:35-39 | A log that repeats an ID and still satisfies the condition on records |
| `Trips.LostSegmentMakesUp` | dist-calc/service.go:35-47 | A log on which, with any distances, no total is ever too large, although a record is charged too much whenever one leg is longer than another |
| `Drain.CommittedNeverDecreases` | dist-calc/consumer.go:127-148 | No step of any run moves the committed offset back |
| `Drain.IterationsToDrain` | dist-calc/consumer.go:98-124 | At rest the position is the committed offset or one behind it; draining n records with f failed attempts takes exactly n + f iterations |
| `Drain.UnacceptableRecordBlocks` | dist-calc/consumer.go:116-123 | No crash-free run gets past a record the aggregator will not take |
| `Drain.SucceedOnce` | dist-calc/consumer.go:127-175 | From rest, a record the aggregator takes can be processed in one iteration, with exactly the effect of one clean step |
| `Drain.DrainOn` | dist-calc/consumer.go:96-125 | A calculator started anywhere can go on to any offset below which the aggregator takes what it sends |
| `Drain.DrainableIffAccepted` | dist-calc/consumer.go:96-148 | Some crash-free run drains the log if and only if the aggregator takes every record |
| `Drain.TakenIffBillable` | dist-calc/consumer.go:157-162 | For non-negative distances and a calculator started anywhere, it takes exactly the records whose OBU ID is positive as an `int32` |
| `Drain.DrainableIffPassable` | dist-calc/consumer.go:96-148 | With any distances, some run, restarts included, drains the log if and only if every valid record's OBU ID is positive as an `int32` |
| `Drain.BlockedLog` | dist-calc/consumer.go:159-159 | A log of one record that no run ever commits |
| `Drain.DrainedMeansFirsts` | dist-calc/service.go:35-48 | A drained log means what its first occurrences mean |
| `Delivery.UnbillableRecordBlocks` | dist-calc/consumer.go:116-123 | With any distances and restarts, no run gets past a valid record whose OBU ID is not positive as an `int32` |
| `Consumer.KafkaConsumer.constructor` | dist-calc/consumer.go:86-93 | A new consumer is at the initial state of the step system |
| `Consumer.KafkaConsumer.Restart` | dist-calc/service.go:25-30 | A new process takes over from a dead one by a crash step, with or without a landed commit: empty maps, committed offset, same aggregator and network |
| `Consumer.KafkaConsumer.Aggregate` | dist-calc/consumer.go:163-174 | The client call is exactly: send, the strays, and then being served and answered or giving up; it succeeds exactly if the request was served, answered and acceptable, and leads to the commit or to the rewind |
| `Consumer.KafkaConsumer.ServeStray` | dist-calc/consumer.go:163-165 | Late requests arrive in the order of the script, and do not answer the call being waited for |
| `Consumer.KafkaConsumer.ProcessEvent` | dist-calc/consumer.go:150-175 | One request is sent; it has the record's event ID and timestamp, its OBU ID as an `int32`, and the distance that the calculator has remembered for it; success leads to the commit, failure to the rewind |
| `Consumer.KafkaConsumer.CommitMessage` | dist-calc/consumer.go:144-146 | A commit is acknowledged, refused with the offset unchanged, or lands with its acknowledgement lost |
| `Consumer.KafkaConsumer.ProcessMessage` | dist-calc/consumer.go:127-148 | A record that is unreadable or lacks an event ID, a timestamp or an OBU ID is committed without a request, any other one is sent once and committed only after aggregation succeeded |
| `Consumer.KafkaConsumer.TakeTurn` | dist-calc/consumer.go:98-124 | One turn reads at most one record and moves the position past it exactly if it was processed and committed; a failed rewind ends the loop |
| `Consumer.KafkaConsumer.Start` | dist-calc/consumer.go:96-125 | Against every script the loop is a run of the step system that reads a record in every turn in which one is readable, and without a restart leaves the aggregator with one pass over a prefix of the log |
| `Calculator.CalcService.CalculateDist` | dist-calc/service.go:32-49 | A remembered event gets its first distance and changes nothing; any other one gets the distance from the OBU's previous point, or zero, which becomes its new previous point and is remembered unless the event has no ID |
| `Calculator.ReplayIsIdempotent` | dist-calc/service.go:35-39 | A repeated event leaves both maps alone and gets its first distance |
| `Pipeline.MemoKeys` | dist-calc/service.go:45-47 | The memo holds exactly the event IDs of the valid records seen |
| `Pipeline.ProcessedAreBillable` | aggregator/service.go:31-37 | After any log, exactly the IDs carried by some record with a billable OBU are processed |
| `Replays.DeduplicationPreservesMeaning` | dist-calc/service.go:35-48 | A log means the same as its first occurrences alone, if and only if no repetition becomes billable |
| `Replays.IndependentEventsCommute` | aggregator/store.go:24-30 | Events of different OBUs with different IDs can be processed in either order |
| `Replays.InterleavingsAgree` | data_receiver/producer.go:55-61 | Any two interleavings that keep each OBU's order end with the same points, memo, totals, processed set and reconciliation record |
| `Replays.RepetitionCanMatter` | dist-calc/consumer.go:159-159 | A log on which it does not: the first event narrows to a negative ID, its repetition to a positive one |
| `Replays.PreviousEndsPath` | dist-calc/service.go:40-44 | After a pass each OBU's previous point is the last of its path |
| `Replays.BillIsJourneys` | dist-calc/service.go:40-47 | After a pass over a billable log the total under a key is the sum of the path lengths of the OBUs that narrow to it |
| `Replays.BillIsPathLength` | dist-calc/service.go:40-47 | After a pass an OBU that shares its key with no other one is billed for its own path |
| `Store.StoreInvariant` | aggregator/store.go:17-49 | After any calls: the processed set is the acceptable IDs, the record its digest, an OBU has a total exactly if an event was applied for it, and the total bills each ID once, at its first acceptable call |
| `Store.RecordMeaning` | aggregator/store.go:24-28 | After any calls the record holds the number of billed event IDs and the sum of their fingerprints, both modulo 2^64, and a bit of its XOR is set exactly if an odd number of the fingerprints have it |
| `Store.OutcomeMeaning` | aggregator/service.go:31-37 | A call is reported applied, duplicate or rejected exactly when it is the first acceptable one of its ID, a later one, or not acceptable |
| `Store.TotalsNeverDecrease` | aggregator/store.go:30-30 | More calls never lower a total or make it disappear |
| `Store.AggregateFacts` | aggregator/service.go:31-37 | Acceptable calls end up processed; repeated and rejected ones change nothing |
| `Aggregator.MemoryStore.constructor` | aggregator/store.go:51-56 | A new store is empty |
| `Aggregator.MemoryStore.Insert` | aggregator/store.go:17-32 | A known event ID changes nothing; a new one, or none, adds the value to the OBU's total and to no other; a new one is also marked as processed, counted, added and XORed bit by bit |
| `Aggregator.MemoryStore.Get` | aggregator/store.go:40-49 | The lookup fails exactly when there is no total |
| `Aggregator.InvoiceAggregator.AggregateDistance` | aggregator/service.go:31-37 | Rejects exactly the calls without event ID, timestamp or OBU ID, or with a negative or non-finite distance, and then changes nothing; otherwise inserts |
| `Aggregator.InvoiceAggregator.CalculateInvoice` | aggregator/service.go:39-50 | Charges 3.15 times the stored total; after any calls there is an invoice exactly for OBUs with an applied event, over the distance owed and 3.15 times that |
| `Aggregator.MetricsMiddleware.AggregateDistance` | aggregator/middleware.go:87-108 | Passes the outcome on; every call leaves a duration; the counters are the numbers of applied and duplicate outcomes of all calls; only applied events with non-negative age leave a sample |
| `Aggregator.OutcomesAddUp` | aggregator/middleware.go:87-108 | Applied, duplicate and rejected calls add up to all calls, and the applied ones to the distinct acceptable IDs |
| `Types.Narrow` | dist-calc/consumer.go:159-159 | The conversion to `int32` lies in range, is congruent to its argument modulo 2^32, and is the identity exactly on that range |
| `Types.NarrowCollision` | dist-calc/consumer.go:159-159 | Two OBU IDs share a bill exactly when they differ by a multiple of 2^32 |
| `Words.BitsDenote` | types/types.go:27-31 | The powers of two at a word's one-bits, all below 64, add up to the word |
| `Words.BitsAreInjective` | types/types.go:27-31 | A 64-bit word is determined by its one-bits |
| `Words.XorIsBitwise` | aggregator/store.go:27-27 | A bit of an XOR is set exactly if it differs in the two words |
| `Words.SumIsModular` | aggregator/store.go:28-28 | Addition wraps at 2^64 |
| `Fingerprints.FoldMeaning` | obu/main.go:308-319 | Recording IDs one by one counts them and adds up their fingerprints, both modulo 2^64, and sets the bits that an odd number of them have |
| `Fingerprints.DigestInsert` | aggregator/store.go:24-28 | The digest of a set does not depend on the order in which its IDs were recorded |
| `Fingerprints.FoldIsDigest` | obu/main.go:308-319 | Recording distinct IDs in any order gives the digest of their set |
| `Fingerprints.DigestCount` | aggregator/store.go:26-26 | The count is the size of the set, modulo 2^64 |
| `Fingerprints.ReconciliationAgrees` | aggregator/store.go:20-29 | The generator's fold equals the aggregator's record whenever written and applied sets are equal |
| `Fingerprints.EqualCountsForceEqualSets` | aggregator/store.go:26-26 | If nothing foreign was applied, the counts agree if and only if nothing is missing |
| `Fingerprints.SwapIsSeenUnlessCollision` | aggregator/store.go:25-28 | Replacing one ID by another leaves sum or XOR unchanged if and only if their fingerprints collide |
| `EventIdentity.DecodeReadsBack` | obu/main.go:291-294 | Seed, run and sequence can be read back from an event ID, negative numbers included |
| `EventIdentity.EventIDsAreInjective` | obu/main.go:291-294 | Two events share an ID only if seed, run and sequence are equal |
| `Routing.AssignedOBUs` | obu/main.go:238-241 | The OBUs a max-mode connection strides over are exactly those fixed mode routes to it, in order, once each, within the reserved capacity |
| `LoadRuns.EventsRotate` | obu/main.go:285-289 | In every fixed-mode run, every event held by the scheduler, queued, being worked on or recorded is for the OBU whose turn its sequence number is |
| `LoadRuns.TicksAreFair` | obu/main.go:209-211 | In every fixed-mode run, n ticks give every OBU n / obus events and the first n % obus OBUs one more, so any two counts differ by at most one |
| `Routing.RoundRobinIsFair` | obu/main.go:285-289 | The same count for the round-robin function |
| `LoadGenerator.StepKeepsCounts` | obu/main.go:266-324 | Every atomic step keeps attempted = written + failed + pending |
| `LoadGenerator.SwapKeepsHashes` | obu/main.go:312-317 | A successful compare-and-swap applies exactly its own fingerprint, ABA or not |
| `LoadGenerator.StepKeepsHashes` | obu/main.go:308-319 | Every atomic step keeps sum and XOR equal to the contributions of the connections |
| `LoadRuns.InvHolds` | obu/main.go:179-283 | In every interleaving: queue bound, affinity, order on each connection, swap accounting, counters and hashes |
| `LoadRuns.Conservation` | obu/main.go:179-231 | After all writers stopped, attempted = written + failed + queued, at most 1024 queued per connection; none if nothing failed or was cancelled, and never any in max mode |
| `LoadStops.FailedMeans` | obu/main.go:214-218 | In every run, what is counted as failed are the failed writes and the events offered to a full queue |
| `LoadStops.MaxModeGoesRound` | obu/main.go:249-252 | In every max-mode run, the k-th event recorded by a connection is for the k-th of its OBUs, counted round |
| `LoadStops.NothingMintedAfterCancel` | obu/main.go:250-251 | Once a max-mode run is cancelled, no further event is minted |
| `LoadStops.FinishWorker` | obu/main.go:312-317 | A worker that runs alone comes to its end, whatever the others have left in the shared words |
| `LoadStops.CanBeStopped` | obu/main.go:227-230 | After any run the generator can be stopped: the scheduler and all workers come to their end |
| `LoadStops.IDReadsBack` | obu/main.go:294-294 | The ID of an event names the seed, the run and its sequence number, in this order |
| `LoadRuns.SwapsAreLockFree` | obu/main.go:312-317 | A worker loses a compare-and-swap at most once per success of another worker, so the retry loops are bounded in every interleaving |
| `LoadRuns.SummaryIsDigest` | obu/main.go:308-319 | Whenever no recording is under way, count, XOR and sum are the digest of the set of written IDs, which are all different |
| `LoadRuns.SummaryMeaning` | obu/main.go:308-319 | The sum is that of the recorded fingerprints modulo 2^64, and a bit of the XOR is set exactly if an odd number of them have it |
| `LoadRuns.SummaryMatchesAggregator` | aggregator/store.go:34-38 | The generator's summary equals the aggregator's record if the same events were applied, whatever the order and repetition |
| `Reconciled.RecordIsDigest` | aggregator/store.go:20-29 | In every run of the pipeline, restarts included, the record is the digest of the processed set |
| `Reconciled.ProcessedAreFromLog` | dist-calc/consumer.go:127-148 | Only IDs of the log are ever processed, and all of them once everything is committed |
| `Reconciled.SummaryReconciles` | obu/main.go:308-319 | If the log carries exactly the written events, in any order and repeated, then once it is committed, after any failures and restarts, the aggregator's record is the generator's summary |
| `LoadRuns.OrderPerOBU` | obu/main.go:210-218 | An OBU's written events are all on one connection, with increasing sequence numbers |
| `Histograms.Subtract` | benchmark/main.go:311-320 | Fails exactly if some bucket went backwards; otherwise the bucketwise difference over the later scrape's bounds |
| `Histograms.DifferenceIsBetween` | benchmark/main.go:311-320 | If the later scrape extends the earlier one's samples, there is no reset and the difference is the histogram of the samples in between |
| `Histograms.ScrapesAreCumulative` | benchmark/main.go:300-320 | Such a histogram does not decrease in the bound, and its +Inf bucket counts all samples |
| `Quantiles.SortedBounds` | benchmark/main.go:323-327 | The keys in ascending order, each once |
| `Quantiles.Scan` | benchmark/main.go:329-340 | The result lies on the straight line across the first bucket whose count reaches the rank: (r - low) * (count - before) = (bound - low) * (rank - before), not finite if the bucket is empty, the lower bound in the +Inf bucket, and zero if no bucket reaches the rank |
| `Quantiles.HistogramQuantile` | benchmark/main.go:322-341 | The same for the rank q times the +Inf count, over the ascending bounds of the histogram |
| `Accuracy.NotANumberIff` | benchmark/main.go:336-336 | For every histogram and rank, the result is NaN or infinite if and only if the first bucket is finite and empty and the rank is not positive |
| `Accuracy.ScanStops` | benchmark/main.go:330-341 | For ranks above zero and up to the total, the scan stops in a bucket with a finite result |
| `Accuracy.EstimateIsInBucket` | benchmark/main.go:332-337 | The estimate lies in its own bucket, and at the lower end of the unbounded one |
| `Accuracy.QuantileIsMonotone` | benchmark/main.go:322-341 | A higher rank never gets a lower estimate, within and across buckets |
| `Accuracy.NearestRankIsUnique` | benchmark/main.go:343-346 | A rank has one nearest-rank sample |
| `Accuracy.QuantileIsAccurate` | benchmark/main.go:322-346 | Estimate and exact percentile fall in the same bucket; past the first and below +Inf they are within the bucket factor; in the +Inf bucket the estimate is a lower bound |
| `Percentiles.Percentile` | benchmark/main.go:343-346 | Sorts the slice in place, panics exactly without latencies or outside 0 < q <= 1, and otherwise returns the nearest-rank sample of the original slice |
| `Percentiles.SortedHasRank` | benchmark/main.go:345-345 | The element at the rounded-up rank of the sorted slice has that rank among the unsorted samples |
| `Percentiles.CountsIgnoreOrder` | benchmark/main.go:344-344 | Sorting changes no count below or up to a value |
| `Benchmark.LayoutFacts` | aggregator/middleware.go:31-34 | The bounds of the exponential layout are positive and neighbours are one factor apart |
| `Benchmark.ListingIsUnique` | benchmark/main.go:323-327 | A set of bounds has one ascending listing, so all quantiles of a histogram scan the same buckets |
| `Benchmark.ReportLoad` | benchmark/main.go:209-220 | A load is reported exactly if there was no reset and the sample count matches. For scrapes that surround the load, over exponential buckets: exactly if the count is right, and then p95 and p99 agree with the exact percentiles of the load's own latencies (same bucket, within the bucket factor past the first and below +Inf, a lower bound in the +Inf bucket) and p95 never exceeds p99 |
| `Benchmark.LayoutIsAccurate` | benchmark/main.go:322-346 | Over the exponential layout every quantile of a histogram agrees with the exact percentile of the samples behind it |
| `Benchmark.LayoutIsOrdered` | benchmark/main.go:322-341 | Over the exponential layout a higher rank never gets a lower quantile |
| `Benchmark.ReportDescribes` | benchmark/main.go:216-220 | Two quantiles of the histogram of a load, at 0.95 and 0.99, describe its latencies |
| `Benchmark.RanksOfScrape` | benchmark/main.go:328-328 | Quantiles with 0 < q <= q' <= 1 give ranks above zero, in order and up to the number of samples |
| `Benchmark.EmptyLoadIsNotANumber` | benchmark/main.go:336-336 | For a load without events `histogramQuantile` returns NaN |
| `TransportPool.InvHolds` | benchmark/main.go:153-176 | In every schedule each job is waiting, held by one worker, owed or done, and slots, workers and errors agree with that |
| `TransportPool.NothingBlocksOrOverwrites` | benchmark/main.go:160-168 | In every schedule a worker writes only an empty slot, and when it sends an error fewer than `requests` are in the channel |
| `TransportPool.FinishedMeansMeasured` | benchmark/main.go:176-182 | When all workers are done every slot has been written, and an error waits exactly for each failed request |
| `TransportPool.SampleStays` | benchmark/main.go:164-164 | In every schedule the slot of a job holds, from its measurement on, the sample measured for it |
| `TransportPool.NeverStuck` | benchmark/main.go:158-176 | Until all workers are done some worker can move |
| `TransportPool.SchedulesAreBounded` | benchmark/main.go:158-176 | No schedule takes more than three steps a request and one a worker |

`Benchmark` proves the accuracy for every start above zero, factor above one and number of buckets; the pipeline
histogram is the instance 0.00025, 1.3, 44.

## Left out

- WebSocket, HTTP, gRPC and Kafka clients: foreign calls. A nil client error means that the server's `AggregateDistance` returned nil; an error says nothing about whether it ran.
- JSON and protobuf encoding; an unreadable record is `Garbled`.
- Kafka brokers, partition assignment and rebalancing; the model is one consumer on one partition.
- The FNV-1a computation, and the probability of its collisions.
- IEEE 754 rounding and overflow of sums, distances and quantiles.
- Restart of the aggregator, which loses all totals by design.
- Real time: rates, tickers, deadlines, ramp phases, drain timeouts.
- Flag, environment and ramp parsing, report formatting, metric scraping, the log middleware, the gateway.
- The Prometheus counters of the consumer and the generator that mirror modelled ones.
- 64-bit wrap-around of the generator's `attempted`, `written`, `failed` and `sequence` counters and of histogram counts; the reconciliation record does wrap.
- The WebSocket read loop of the receiver and the randomness of positions.
- Aggregator.MetricsMiddleware.AggregateDistance: does not model the store-error counter, which an in-memory store never moves.
- Percentiles.Percentile: latencies are reals, so that they can be compared with histogram samples; `time.Duration` is an integer number of nanoseconds. How `sort.Slice` sorts is replaced by an insertion that yields the same slice.
- Quantiles.SortedBounds: bounds are finite or +Inf; a NaN or -Inf key, which no scrape of the pipeline histogram contains, is not modelled.
- Consumer.KafkaConsumer.Restart: takes over wherever a method of the dead object has returned; the step system of `Delivery` has crashes at every step.
- TransportPool.NothingBlocksOrOverwrites: each worker's request is one step; the warm-up requests before the pool are not modelled.
