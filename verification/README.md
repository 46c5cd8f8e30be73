# Pulse, modelled in Dafny

Pulse is a customer-experience backend grown module by module. This project models the parts of it
that are hard to get right and proves what they promise:

- `Pipeline`, `PipelinePool`: the bounded worker pool `pipeline.Run` (feeder, workers, closer,
  collector, one-slot error channel, cancellable context).
- `Merge`, `MergeRun`: the fan-in `pipeline.Merge`; `Interleavings`: what merging means.
- `Dispatcher`, `DispatcherResults`, `DispatcherAttempts`, `DispatcherRun`, `Backoff`: the retrying
  notification dispatcher with its counters, its bounded dead-letter channel and its backoff arithmetic.
- `Stream`, `StreamResults`, `ConsumerHandler`: the at-least-once stream with its idempotent,
  dead-lettering consumer, in both versions the repository has.
- `Capstone`: `POST /v1/customers` in front of that stream.
- `Enrolment`: the Postgres repository's transactional enrolment with a denormalised counter.
- `CustomerRepo`: the in-memory repository whose IDs rest on a hand-written decimal printer.
- `Genx`: `Map` and `Paginate`. `Text`: the string checks all validators share. `Prelude`: options,
  sums, 64-bit integers.

## How to read it

A concurrent component is a state (every goroutine's position, every channel's condition, and some
history) with a function `Step` that takes one goroutine one indivisible step, or says that the
step cannot be taken. A schedule is any sequence of steps, so a lemma over all schedules covers every
interleaving, every choice of a `select` with several ready arms, and every outcome of `work`,
`Send`, a publish or an acknowledgement. Channels that a component does not own are environment
steps: whoever sends on an input, drains the dead letters or reads a merged output may do so at any
time or never. Beside the step functions of the worker pools stand classes whose methods update the
same state in place, one method a step, each tied to `Step`, and drivers that run them to their end
under an arbitrary scheduler. The classes of the stream consumer, the HTTP handler and the two
repositories follow the source's methods; each is tied to a function of the state before the call,
and `HandlerRunIsHandle`, `UninterruptedIsServed` and `AloneIsSerial` tie those functions to the steps.

Where a promise does not hold of the code on all inputs, the project keeps the code as it is, shows an
input, and proves the exact condition:

- A nil error from `Run` does not mean complete results. When the caller's context is cancelled `Run`
  can return untouched slots with a nil error, because only the error channel is looked at; its comment
  (pipeline.go:10-12) speaks of the first error only. `CompletenessCondition` says for which calls a
  nil error comes with complete results.
- `Merge` keeps each channel's order exactly when no channel is passed to it twice
  (`InOrderIffDistinct`), and needs a reader: without one it waits for ever (`StuckIffWaiting`).
- A dispatcher without workers returns at once (`DrainsIffItHasWorkers`), and one whose dead letters
  nobody drains returns only when there are at most 64 of them (`UndrainedRunReturnsIff`).
- One send per event needs handler runs on a shared dedup store not to overlap
  (`AtMostOnceIffExclusive`), and "sent or dead-lettered, never both" needs a single consumer
  (`SentXorParkedIffOneConsumer`).
- In the first version of the handler the over-delivery check precedes the dedup check;
  `VersionsAgree` shows that this makes no difference, since the branch is never reached.
- `Paginate` is exact on 64-bit integers for precisely the sizes in `Fits` (`PaginateIsExactIff`),
  and all pages of a slice are when `len(items) + size - 1` fits (`PagesPartitionOn64Bits`).
- The backoff does not wrap for precisely the base and attempts in `WaitsAreExactIff`.

Assumptions, stated as hypotheses or built into the steps: `work` and `Send` return; one `Run` per
dispatcher; MsgID deduplication does not expire and every event is published with its ID; a
consumer handles its deliveries of one message in order and handles every counted delivery;
metadata is present; dead-letter publishes succeed; no crash between a send and its mark;
`maxDeliver >= 1`; at most 2^63-1 calls of the in-memory repository.

## Model

| member | source | states |
|---|---|---|
| Pipeline.Width | m03-concurrency/solution-pipeline/pipeline.go:16-18 | the worker count is the argument, except that fewer than one is taken as one |
| Pipeline.InitInv | m03-concurrency/solution-pipeline/pipeline.go:19-33 | a call starts with all workers idle, nothing fed and nothing closed, which meets the invariant |
| Pipeline.StepInv | m03-concurrency/solution-pipeline/pipeline.go:30-76 | every step of feeder, worker, closer, collector or caller keeps the invariant |
| Pipeline.NilErrorIsComplete | m03-concurrency/solution-pipeline/pipeline.go:67-76 | when the caller did not cancel, a nil error comes with slot i holding the value `work` returned for item i, for all i, on every schedule |
| Pipeline.CancelledCallReturnsZeros | m03-concurrency/solution-pipeline/pipeline.go:71-76 | for any cancellable call there is a schedule that returns nil error and untouched slots without calling `work` |
| Pipeline.CompletenessCondition | m03-concurrency/solution-pipeline/pipeline.go:10-14 | nil-error results are complete on all schedules if and only if the context cannot be cancelled or there are no items |
| Pipeline.PureRunIsMap | m03-concurrency/solution-pipeline/pipeline.go:10-13 | when every executed call returned f(item), an uncancelled Run returns exactly the sequential Map |
| Pipeline.ErrorIffWorkFailed | m03-concurrency/solution-pipeline/pipeline.go:36-44 | Run returns an error if and only if some executed call of `work` failed, and the error is one that a call returned |
| Pipeline.FirstErrorWins | m03-concurrency/solution-pipeline/pipeline.go:28-44 | once an error is in the one-slot channel no later one replaces it, and it is what Run returns |
| Pipeline.WorkIsConserved | m03-concurrency/solution-pipeline/pipeline.go:31-70 | fed indices are a prefix; each is held by one worker, delivered to its own slot, failed, or dropped after cancellation; all other slots are untouched |
| Pipeline.FateIsFinal | m03-concurrency/solution-pipeline/pipeline.go:45-50 | an ended index keeps its fate, its slot and its only outcome for ever: slots are written at most once |
| Pipeline.EachLossCostsAWorker | m03-concurrency/solution-pipeline/pipeline.go:36-50 | a worker that reports an error or drops a result takes no further item: lost indices never outnumber the workers that are gone |
| Pipeline.UnfinishedCanStep | m03-concurrency/solution-pipeline/pipeline.go:30-70 | in every unfinished state some goroutine can move, a worker inside `work` with whatever outcome it has; reporting an error never blocks |
| Pipeline.StepLowersMeasure | m03-concurrency/solution-pipeline/pipeline.go:30-76 | every step lowers a measure of the work left |
| Pipeline.EveryRunIsFinite | m03-concurrency/solution-pipeline/pipeline.go:30-76 | no schedule is longer than 3 steps an item, one a worker and four |
| Pipeline.StuckIffDone | m03-concurrency/solution-pipeline/pipeline.go:54-76 | the pool stops exactly when Run has returned and all goroutines ended; then both channels were closed once |
| Pipeline.NoGoroutineLeaks | m03-concurrency/solution-pipeline/pipeline.go:20-76 | after Run returned all workers are gone and a feeder still looping can leave |
| Pipeline.ChannelsCloseOnce | m03-concurrency/solution-pipeline/pipeline.go:55-65 | jobs and out are closed at most once and out only after the last worker has left |
| PipelinePool.Pool.constructor | m03-concurrency/solution-pipeline/pipeline.go:19-67 | sets up the goroutines and the zeroed results slice |
| PipelinePool.Pool.Feed | m03-concurrency/solution-pipeline/pipeline.go:54-59 | the feeder's handover to an idle worker, as the step function says |
| PipelinePool.Pool.StopFeeding | m03-concurrency/solution-pipeline/pipeline.go:55-63 | the feeder leaves its loop and closes jobs |
| PipelinePool.Pool.WorkReturns | m03-concurrency/solution-pipeline/pipeline.go:36-37 | a worker receives the value or error of its call |
| PipelinePool.Pool.ReportError | m03-concurrency/solution-pipeline/pipeline.go:38-43 | fills the error slot or drops the error when it is full |
| PipelinePool.Pool.Cancel | m03-concurrency/solution-pipeline/pipeline.go:39-43 | the worker that filled the slot cancels and leaves |
| PipelinePool.Pool.Deliver | m03-concurrency/solution-pipeline/pipeline.go:45-69 | the collector stores the result in its item's slot and nowhere else |
| PipelinePool.Pool.Drop | m03-concurrency/solution-pipeline/pipeline.go:47-48 | a finished result is given up only when the context is done |
| PipelinePool.Pool.Leave | m03-concurrency/solution-pipeline/pipeline.go:35-51 | an idle worker leaves when jobs is closed |
| PipelinePool.Pool.CloseOut | m03-concurrency/solution-pipeline/pipeline.go:65 | out is closed after wg.Wait |
| PipelinePool.Pool.Finish | m03-concurrency/solution-pipeline/pipeline.go:71-76 | returns the slot's error or the results, and cancels |
| PipelinePool.Pool.FirstActive | m03-concurrency/solution-pipeline/pipeline.go:65 | what wg.Wait waits for: the first worker that has not exited |
| PipelinePool.Pool.Fire | m03-concurrency/solution-pipeline/pipeline.go:30-76 | takes a step exactly when the step function allows it and keeps the invariant |
| PipelinePool.Execute | m03-concurrency/solution-pipeline/pipeline.go:13-77 | under any scheduler the call ends and all goroutines with it; unless the caller cancels, it returns work's values item by item exactly when no item fails and an item's error otherwise; a cancelled one an item's error or values and untouched slots; the answer is that of the schedule picked |
| Merge.StepInv | m03-concurrency/solution-pipeline/pipeline.go:81-95 | every step keeps: what is taken from each channel interleaves what its forwarders received, and the output interleaves what the forwarders passed on |
| Merge.ClosedOutputIsMerged | m03-concurrency/solution-pipeline/pipeline.go:79-95 | a closed output holds everything sent on the inputs, each value once, all inputs are closed and the output is closed once; each forwarder kept the order, and so did the output when no channel was passed twice |
| Merge.DistinctInputsInOrder | m03-concurrency/solution-pipeline/pipeline.go:86-92 | at any time, with no channel passed twice, the output interleaves beginnings of what was sent on each |
| Merge.TwoReadersOvertake | m03-concurrency/solution-pipeline/pipeline.go:86-92 | a channel passed twice can come out in another order than it was sent |
| Merge.InOrderIffDistinct | m03-concurrency/solution-pipeline/pipeline.go:86-92 | every channel's order is kept in every run if and only if no channel is passed twice |
| Interleavings.InterleavingKeepsValues | m03-concurrency/solution-pipeline/pipeline.go:88-90 | an interleaving neither loses nor duplicates values |
| Interleavings.InterleavingKeepsOrder | m03-concurrency/solution-pipeline/pipeline.go:88-90 | an interleaving keeps each input's order |
| Interleavings.SubsequenceMeans | m03-concurrency/solution-pipeline/pipeline.go:88-90 | keeping the order means standing at increasing places of the output |
| Merge.StuckIffWaiting | m03-concurrency/solution-pipeline/pipeline.go:86-93 | Merge can stop exactly when finished, or when every forwarder left waits on an open empty input or holds a value nobody receives |
| Merge.EveryMergeIsFinite | m03-concurrency/solution-pipeline/pipeline.go:81-95 | at most two steps a value sent, one a forwarder and one more, whatever senders and reader do |
| Merge.OnlySendersAndReaderDecide | m03-concurrency/solution-pipeline/pipeline.go:81-95 | a channel holds exactly what was sent on it, is closed exactly when its sender closed it, and every receive on the open output waits or got one value |
| Merge.FinishedShares | m03-concurrency/solution-pipeline/pipeline.go:86-92 | a finished channel's values, in the order sent, were dealt out to the forwarders that read it |
| MergeRun.Merger.constructor | m03-concurrency/solution-pipeline/pipeline.go:82-86 | one forwarder for each argument, all receiving |
| MergeRun.Merger.Receive | m03-concurrency/solution-pipeline/pipeline.go:88 | a forwarder takes its channel's next value |
| MergeRun.Merger.Forward | m03-concurrency/solution-pipeline/pipeline.go:89 | a forwarder passes its value to a waiting receive |
| MergeRun.Merger.Leave | m03-concurrency/solution-pipeline/pipeline.go:87-91 | a forwarder leaves when its channel is closed and drained |
| MergeRun.Merger.CloseOut | m03-concurrency/solution-pipeline/pipeline.go:93 | the output is closed after all forwarders left |
| MergeRun.Merger.FirstActive | m03-concurrency/solution-pipeline/pipeline.go:93 | what wg.Wait waits for: the first forwarder that has not left |
| MergeRun.MergeAll | m03-concurrency/solution-pipeline/pipeline.go:81-95 | for closed channels, a reader that ranges over the output and any scheduler, the output interleaves what the forwarders passed on, to whom each channel's values were dealt in order: the same values, in each channel's order when none is passed twice |
| Dispatcher.InitInv | m03-concurrency/solution-dispatcher/dispatcher.go:56-69 | a new dispatcher meets the invariant for any number of workers and attempts |
| Dispatcher.StepInv | m03-concurrency/solution-dispatcher/dispatcher.go:78-130 | every step keeps conservation, counters and attempt bounds |
| DispatcherResults.NothingIsLost | m03-concurrency/solution-dispatcher/dispatcher.go:91-130 | in every reachable state each copy taken is delivered, on the dead-letter channel, given up or in one worker's hands, and the counters add up |
| DispatcherResults.FinishedRunAccounts | m03-concurrency/solution-dispatcher/dispatcher.go:75-89 | after Run the taken notifications are the disjoint union of delivered, dead-lettered and given up, and completed sends are Sent plus Failed |
| DispatcherResults.UncancelledRunDrains | m03-concurrency/solution-dispatcher/dispatcher.go:75-89 | without cancellation the whole input is handled, Sent + DeadLettered is its length and the dead-letter channel carried exactly the unsent |
| DispatcherResults.DrainsIffItHasWorkers | m03-concurrency/solution-dispatcher/dispatcher.go:80-88 | that holds for every uncancelled run if and only if there is at least one worker |
| DispatcherResults.AttemptAccounting | m03-concurrency/solution-dispatcher/dispatcher.go:105-125 | maxAttempts*DeadLettered <= Failed <= maxAttempts*DeadLettered + (maxAttempts-1)*Sent after an uncancelled run |
| DispatcherAttempts.CountersDoNotDependOnTheSchedule | m03-concurrency/solution-dispatcher/dispatcher.go:105-130 | with a fixed sender every uncancelled run ends with the same counters: Sent and DeadLettered count sendable and unsendable inputs, Failed adds up each input's sends before its first success or all its attempts |
| DispatcherResults.DeadChannelClosesOnce | m03-concurrency/solution-dispatcher/dispatcher.go:63-88 | the dead-letter channel never holds more than 64, is closed at most once and never sent on afterwards |
| DispatcherResults.OutcomesFollowTheSender | m03-concurrency/solution-dispatcher/dispatcher.go:105-130 | at any moment of any run, cancelled or not, what was delivered is sendable within the allowed attempts and what was dead-lettered is not |
| DispatcherResults.DeadLettersAreTheUnsendable | m03-concurrency/solution-dispatcher/dispatcher.go:105-130 | with a fixed sender the dead letters of every uncancelled run are exactly the unsendable inputs and the delivered ones exactly the sendable, whatever the interleaving |
| DispatcherResults.StuckIffStopped | m03-concurrency/solution-dispatcher/dispatcher.go:91-130 | the dispatcher can be stuck exactly when it has returned, or, uncancelled, all workers left wait on an open empty input or a full dead-letter channel |
| DispatcherResults.EnqueueIffRoom | m03-concurrency/solution-dispatcher/dispatcher.go:63-127 | a dead letter can be put on the channel exactly while fewer than 64 are buffered |
| DispatcherResults.UndrainedRunReturnsIff | m03-concurrency/solution-dispatcher/dispatcher.go:66-88 | when nobody drains, an uncancelled run over a closed input comes to its end exactly when at most 64 notifications cannot be sent, and waits for ever otherwise |
| DispatcherResults.SmallInputNeverJams | m03-concurrency/solution-dispatcher/dispatcher.go:63-88 | at most 64 notifications never jam an uncancelled run, whatever Send answers and whoever drains |
| DispatcherResults.WorkersEndInTheirSelect | m03-concurrency/solution-dispatcher/dispatcher.go:91-104 | a worker ends only in its own select, on a drained input or a done context, never from inside a notification |
| DispatcherResults.FleeingIsEnabled | m03-concurrency/solution-dispatcher/dispatcher.go:94-128 | in a cancelled dispatcher every worker's exit step is enabled |
| DispatcherResults.CancelledCanFinish | m03-concurrency/solution-dispatcher/dispatcher.go:75-128 | after cancellation the workers can all leave and Run can return without any help from input or drainer, however pending sends end |
| DispatcherResults.StepLowersMeasure | m03-concurrency/solution-dispatcher/dispatcher.go:91-130 | every step but a new input lowers a measure |
| DispatcherResults.EveryRunIsFinite | m03-concurrency/solution-dispatcher/dispatcher.go:91-130 | finitely many inputs give runs of bounded length |
| DispatcherRun.Machine.constructor | m03-concurrency/solution-dispatcher/dispatcher.go:56-69 | a fresh dispatcher with all counters zero |
| DispatcherRun.Machine.Take | m03-concurrency/solution-dispatcher/dispatcher.go:96-106 | a worker takes the next input into its first attempt, or out of attempts when there are none |
| DispatcherRun.Machine.SendReturns | m03-concurrency/solution-dispatcher/dispatcher.go:116 | Send returns to the worker |
| DispatcherRun.Machine.Count | m03-concurrency/solution-dispatcher/dispatcher.go:117-121 | bumps Sent and ends, or bumps Failed and retries |
| DispatcherRun.Machine.TimerFires | m03-concurrency/solution-dispatcher/dispatcher.go:110-113 | the backoff ends and the attempt is made |
| DispatcherRun.Machine.GiveUp | m03-concurrency/solution-dispatcher/dispatcher.go:111-112 | a backoff is left on cancel |
| DispatcherRun.Machine.CountDead | m03-concurrency/solution-dispatcher/dispatcher.go:124-125 | DeadLettered is bumped before the enqueue |
| DispatcherRun.Machine.Enqueue | m03-concurrency/solution-dispatcher/dispatcher.go:127 | the dead letter goes on the bounded channel |
| DispatcherRun.Machine.Forsake | m03-concurrency/solution-dispatcher/dispatcher.go:128 | the enqueue is left on cancel |
| DispatcherRun.Machine.Leave | m03-concurrency/solution-dispatcher/dispatcher.go:94-99 | a worker exits on a drained input or a done context |
| DispatcherRun.Machine.CloseDead | m03-concurrency/solution-dispatcher/dispatcher.go:87-88 | the channel is closed after all workers exited |
| DispatcherRun.Machine.FirstActive | m03-concurrency/solution-dispatcher/dispatcher.go:87 | what wg.Wait waits for |
| DispatcherRun.Machine.FireWorker | m03-concurrency/solution-dispatcher/dispatcher.go:91-130 | a worker's step is taken exactly when the step function allows it |
| DispatcherRun.Execute | m03-concurrency/solution-dispatcher/dispatcher.go:78-130 | over a closed input and any scheduler the dead letters are exactly the inputs no attempt can send and all three counters are exact; without workers nothing happens |
| Backoff.WaitsAreExactIff | m03-concurrency/solution-dispatcher/dispatcher.go:51-109 | for any base, zero and negative too, no wait wraps in int64 if and only if maxAttempts <= 1 or base*2^(maxAttempts-2) fits |
| Backoff.WaitIsIdealModulo | m03-concurrency/solution-dispatcher/dispatcher.go:109 | every wait is the intended one modulo 2^64, also where the shifted one has fallen off the register |
| Backoff.DefaultBaseAllows41 | m03-concurrency/solution-dispatcher/dispatcher.go:61-109 | for the default 10 ms base that is exactly up to 41 attempts |
| Backoff.RetryWaits | m03-concurrency/solution-dispatcher/dispatcher.go:106-115 | the retry loop's waits, one between attempts; they double and total base*(2^k-1) when they fit |
| Stream.PublishInv | m09-jetstream/solution-stream/stream.go:42-50 | a repeated publish stores nothing: each event ID is stored at most once |
| Stream.DeliverInv | m09-jetstream/solution-stream/stream.go:87-103 | deliveries never exceed MaxDeliver and go to .created messages only |
| Stream.BeginInv | m09-jetstream/solution-stream/stream.go:105-123 | the checks of handle keep each consumer's account of each message |
| Stream.SendReturnsInv | m09-jetstream/solution-stream/stream.go:125 | so does the send |
| Stream.ConcludeInv | m09-jetstream/solution-stream/stream.go:126-138 | so do the mark, the dead letter and the reply, lost or not |
| Stream.SubjectsMatch | m09-jetstream/solution-events/events.go:5-12 | the stream's wildcard covers events and dead letters, the consumers' filter events only |
| Stream.MatchingMeans | m09-jetstream/solution-events/events.go:5-12 | a subject without wildcard covers itself, one with a final > whatever goes on from the rest |
| StreamResults.AtMostOnceIffExclusive | m09-jetstream/solution-stream/stream.go:119-137 | an event is sent at most once in every run, with redelivery, lost replies, repeated publishes and replay consumers, if and only if handler runs cannot overlap |
| StreamResults.OverlapSendsTwice | m09-jetstream/solution-stream/stream.go:61-71 | Seen and Mark lock separately: two overlapping runs send the same event twice |
| StreamResults.DuplicateIsOnlyAcked | m09-jetstream/solution-stream/stream.go:119-123 | in every reachable state a delivery whose ID is marked is acknowledged and has no other effect, in both versions |
| StreamResults.MarkedStaysDone | m09-jetstream/solution-stream/stream.go:119-137 | once an event is marked and no handler is inside it, no later step of any run sends or dead-letters it |
| StreamResults.SettledIsFinal | m09-jetstream/solution-stream/stream.go:87-103 | a message acknowledged or terminated stays so and is never delivered to that consumer again |
| StreamResults.GarbageIsTerminated | m09-jetstream/solution-stream/stream.go:105-110 | bytes that do not parse are terminated without send, mark or dead letter, and once the Term arrives never redelivered |
| StreamResults.FinishedIsSentOrParked | m09-jetstream/solution-stream/stream.go:105-138 | whatever a consumer has finished with was sent, or it dead-lettered it once after exactly maxDeliver failed sends |
| StreamResults.OneConsumerNeverBoth | m09-jetstream/solution-stream/stream.go:125-136 | with one consumer a dead-lettered event was never sent |
| StreamResults.TwoConsumersCanDoBoth | m09-jetstream/solution-stream/stream.go:87-103 | a second consumer on the store can send what the first dead-lettered |
| StreamResults.SentXorParkedIffOneConsumer | m09-jetstream/solution-stream/stream.go:105-138 | finished events are sent or dead-lettered, never both, in every run if and only if there is at most one consumer |
| StreamResults.NeverOverDelivered | m09-jetstream/solution-stream/stream.go:112-117 | the delivery number never exceeds the consumer's cap, so the over-delivery branch is not taken |
| StreamResults.VersionsAgree | m14-capstone/events/events.go:106-128 | whichever version of the handler each consumer runs, the runs are the same |
| StreamResults.DeadLettersDoNotFeedBack | m09-jetstream/solution-events/events.go:7-11 | dead letters lie in the same stream but are never delivered, and no message is handled more often than its consumer's own cap |
| StreamResults.StuckIffQuiet | m09-jetstream/solution-stream/stream.go:87-103 | without further publishes the protocol moves until every created message is finished |
| StreamResults.StepLowersMeasure | m09-jetstream/solution-stream/stream.go:87-138 | every step but a publish lowers the remaining deliveries |
| StreamResults.EveryRunIsFinite | m09-jetstream/solution-stream/stream.go:87-138 | redelivery terminates: for each publish at most four steps a delivery, over all consumers' caps |
| ConsumerHandler.DedupStore.Seen | m09-jetstream/solution-stream/stream.go:61-66 | membership of the store |
| ConsumerHandler.DedupStore.Mark | m09-jetstream/solution-stream/stream.go:67-71 | adds the ID to the store |
| ConsumerHandler.Server.PublishCreated | m14-capstone/events/events.go:44-53 | the event's ID is its MsgID; a repeated one is not stored |
| ConsumerHandler.Handler.Handle | m14-capstone/events/events.go:106-128 | case by case, for both versions: Term for bytes that do not parse, Ack for a marked event, mark and Ack after a successful send, dead letter and Term after the last failure, Nak after an earlier one |
| ConsumerHandler.HandlerRunIsHandle | m09-jetstream/solution-stream/stream.go:105-138 | the protocol's steps without interruption are one run of handle |
| Capstone.Api.Create | m14-capstone/api/handler.go:48-76 | 400 exactly for bad JSON, no @ or a blank name, with nothing stored or published; otherwise the customer with the request's fields is stored, and an event with the same fields published if the publish arrives |
| Capstone.UninterruptedIsServed | m14-capstone/api/handler.go:48-76 | the request's steps without interruption do to map and stream what the handler method does, and leave the consumers alone |
| Capstone.StepInv | m14-capstone/api/handler.go:48-76 | every step of any number of concurrent requests and of the stream keeps the provenance invariant |
| Capstone.Provenance | m14-capstone/api/handler.go:65-73 | welcomed IDs are published and published IDs are stored in every reachable state: a message leaves only after its store |
| Capstone.SetsAreThoseOfTheRequests | m14-capstone/api/handler.go:50-75 | the stored IDs are those of accepted requests past their store, the published those whose message landed, so rejected requests add to none and a failed publish to the first only; who got 201 is stored |
| Capstone.WelcomesAreAcceptedRequests | m14-capstone/api/handler.go:54-74 | every welcome carries, field by field, the ID, email, name and time of a valid request that arrived, already stored |
| Capstone.WelcomedAtMostOnce | m14-capstone/events/events.go:112-127 | with exclusive handler runs no ID is welcomed twice |
| Capstone.SetsOnlyGrow | m14-capstone/api/handler.go:65-73 | the three sets only grow |
| Text.TrimmedEmptyIffBlank | m10-project-structure/pulse/internal/customer/customer.go:36-38 | a name trims to nothing exactly when it is all white space |
| Text.TrimSpaceCuts | m10-project-structure/pulse/internal/customer/customer.go:36-38 | trimming cuts off the white space at both ends, all of it and nothing else |
| Text.SpacesAre | m10-project-structure/pulse/internal/customer/customer.go:36-38 | the white space characters one by one, six of them ASCII |
| Enrolment.ApplyKeepsConsistent | m06-postgresql/solution-customer/customer.go:152-176 | every committed write keeps counters equal to rows, references whole and emails distinct |
| Enrolment.SerialIsConsistent | m06-postgresql/migrations/0002_campaigns.sql:2-15 | so does any sequence of them |
| Enrolment.StepInv | m06-postgresql/solution-customer/customer.go:130-140 | every statement, commit or rollback of any connection keeps the serialisation invariant |
| Enrolment.InterleavingsAreSerial | m06-postgresql/solution-customer/customer.go:130-176 | the committed database is that of the committed writes run one by one in commit order, each succeeding |
| Enrolment.EverySerialHistoryHappens | m06-postgresql/solution-customer/customer.go:130-176 | conversely every sequence of writes that succeed one by one is the history of some run |
| Enrolment.WaitsAreForRows | m06-postgresql/solution-customer/customer.go:152-176 | a statement waits exactly for another connection's uncommitted row with the same key or counter; commit and rollback never wait |
| Enrolment.CountersNeverDrift | m06-postgresql/solution-customer/customer.go:152-176 | in every committed state each counter equals its rows and every enrolment refers to existing rows |
| Enrolment.AbortedLeavesNoTrace | m06-postgresql/solution-customer/customer.go:130-140 | a transaction that never commits can be taken out of any interleaving: the others run the same and the tables come out the same |
| Enrolment.AloneIsSerial | m06-postgresql/solution-customer/customer.go:152-176 | the statements of EnrollCustomer without interruption are the serial operation, whichever of them fails |
| Enrolment.OpenTransactionsProgress | m06-postgresql/solution-customer/customer.go:152-176 | row and key locks never deadlock the enrolments |
| Enrolment.PostgresRepo.Create | m06-postgresql/solution-customer/customer.go:64-79 | inserts, or ErrConflict for a taken key or email |
| Enrolment.PostgresRepo.CreateCampaign | m06-postgresql/solution-customer/customer.go:143-150 | inserts with counter zero, or fails for a taken key |
| Enrolment.PostgresRepo.InsertEnrolment | m06-postgresql/solution-customer/customer.go:154-168 | unique and foreign-key violations become ErrConflict and ErrNotFound |
| Enrolment.PostgresRepo.BumpCount | m06-postgresql/solution-customer/customer.go:169-173 | adds one to the campaign's counter, failing when the column is full |
| Enrolment.PostgresRepo.EnrollCustomer | m06-postgresql/solution-customer/customer.go:152-176 | both statements or neither, whichever of them fails |
| CustomerRepo.DecimalParses | m10-project-structure/pulse/internal/customer/customer.go:101-113 | parsing the printed numeral gives the number back, and the numeral is canonical |
| CustomerRepo.ParsePrints | m10-project-structure/pulse/internal/customer/customer.go:101-113 | printing a parsed canonical numeral gives the numeral back |
| CustomerRepo.FitsIn19Digits | m10-project-structure/pulse/internal/customer/customer.go:105-106 | no int64 needs more than 19 of the 20 bytes |
| CustomerRepo.Itoa | m10-project-structure/pulse/internal/customer/customer.go:101-113 | the buffer loop prints the numeral and never runs out of its buffer |
| CustomerRepo.RepositoryIsNumbered | m10-project-structure/pulse/internal/customer/customer.go:52-89 | after any calls the keys are exactly "cus_" and the decimal numerals of 1 to seq, as many as seq, with distinct emails and valid customers under their own IDs |
| CustomerRepo.StoredCustomersStay | m10-project-structure/pulse/internal/customer/customer.go:84-88 | a fresh ID never overwrites a stored customer |
| CustomerRepo.CreateAnswers | m10-project-structure/pulse/internal/customer/customer.go:52-89 | Service.Create answers validation error for no @ or a blank name, conflict for a taken email, and otherwise stores the customer under the next ID; only the last changes anything |
| CustomerRepo.InMemoryRepo.Create | m10-project-structure/pulse/internal/customer/customer.go:76-89 | the scan over stored emails, the counter and the insert |
| CustomerRepo.InMemoryRepo.ByID | m10-project-structure/pulse/internal/customer/customer.go:91-99 | finds exactly the stored customers |
| CustomerRepo.Service.Create | m10-project-structure/pulse/internal/customer/customer.go:52-57 | validation before the repository |
| Genx.Map | m02-generics-and-idioms/solution-genx/genx.go:6-12 | fills slot i with f of item i |
| Genx.PaginateIsExactIff | m02-generics-and-idioms/solution-genx/genx.go:86-111 | in 64-bit arithmetic the page is the intended one if and only if the sizes fit |
| Genx.WindowMeans | m02-generics-and-idioms/solution-genx/genx.go:86-111 | the intended page for the size asked for: its items, number, size, total, the pages it takes, and whether items follow |
| Genx.PaginateMeans | m02-generics-and-idioms/solution-genx/genx.go:86-111 | in 64-bit arithmetic the caller gets that page when page*size and len(items)+size-1 fit |
| Genx.DefaultsMean | m02-generics-and-idioms/solution-genx/genx.go:87-93 | a page below 1 is page 1, a size below 1 is 20 |
| Genx.WrappedOffsetPanics | m02-generics-and-idioms/solution-genx/genx.go:95-106 | an offset that wraps below zero panics |
| Genx.HasNextIffMoreItems | m02-generics-and-idioms/solution-genx/genx.go:102-109 | HasNext holds exactly when the next page has items |
| Genx.PagesPartition | m02-generics-and-idioms/solution-genx/genx.go:86-111 | on unbounded integers pages 1 to TotalPages give back the slice, all but the last full, the last not empty, later ones empty |
| Genx.PagesPartitionOn64Bits | m02-generics-and-idioms/solution-genx/genx.go:86-111 | in 64-bit arithmetic every page that holds items is the intended one if and only if len(items)+size-1 fits, and then pages 1 to TotalPages give back the slice |

## Left out

- Connection handling, JSON encoding, HTTP routing, gRPC, Mongo, NATS core, configuration, logging, metrics export: library plumbing without state of its own.
- The exercise stubs, `errorx`, `Set`, `Store`, `Filter`, `Summarize`, functional options: easy members.
- Real time and fairness: a timer may fire at any moment, and a `select` with several ready arms may take any of them. Progress is stated as an enabled step and a decreasing measure.
- The deduplication window, the stream's 24-hour age limit and stream or consumer reconfiguration.
- A consumer crash between a send and its mark, and a restart with an empty in-memory dedup store: the code's own comments place a durable store there.
- Several processes sharing one durable consumer: its deliveries of a message are handled in order here.
- Messages without metadata in the protocol; `ConsumerHandler.Handler.Handle` itself covers them.
- An ambiguous commit error (a commit that took effect but whose answer was lost) in `inTx`.
- Reads (`List`, `CampaignEnrolledCount`) and timestamps of the Postgres repository, and the HTTP handler around the in-memory repository.
- Pagination across separate requests over a map, whose iteration order changes between calls.
- Dispatcher.Step: a worker's wait is a step of its own; its length is the subject of `Backoff` and not tied to a clock.
