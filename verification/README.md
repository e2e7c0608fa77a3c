# GPU metrics streamer: verified model of its delivery path

A Dafny model of how telemetry travels through the system: the streamer publishes CSV batches under a
distributed lock, a Redis-backed competing-consumer queue delivers them, consumers acknowledge or reject
them, and collectors store them. The model keeps the branches, constants and error cases of the Go code and
proves what holds of every run; where something the documentation promises does not hold, it says exactly
when it does.

`dafny verify dfyconfig.toml` checks everything (Dafny 4.11).

## How it is organised

| file | what it holds |
|---|---|
| `Messages.dfy`, `RedisStore.dfy` | messages, pending entries, and the Redis commands (LPUSH, RPUSH, BRPOP, ZADD, ZREM, ZRANGE, ZRANGEBYSCORE, KEYS) as functions of the stored values |
| `DeliveryMachine.dfy` | the queue service as a machine whose steps are single Redis commands, clock readings and local steps of any number of concurrent operations |
| `NoLoss.dfy`, `DeliveryOrder.dfy`, `PendingEntries.dfy`, `Stampings.dfy`, `Redelivery.dfy`, `AckFinality.dfy` | what holds in every interleaving of that machine |
| `OneMessage.dfy` | small runs of the machine, for the lemmas that show something can happen |
| `WholeOperations.dfy` | whole calls as functions, and the proof that calls made one after the other are runs of the machine |
| `Conservation.dfy`, `FetchAndExpiry.dfy`, `SerialFinality.dfy` | what holds of calls made one after the other |
| `RedisQueue.dfy` | the queue object: methods with the loops of the source, proved against the functions above |
| `Consumer.dfy` | the batch-polling client, composed with the queue |
| `InMemoryQueue.dfy`, `InMemoryQueueObject.dfy` | the channel-based queue: as a machine over its atomic steps, and as an object with one caller |
| `ServiceClose.dfy` | the queue service after its context is cancelled, with every command failing |
| `LockProtocol.dfy` | the lock key shared by many instances, with a clock and lapsing leases |
| `BatchLock.dfy` | acquiring and releasing the lock as one instance does it, with others changing the key in between |
| `Telemetry.dfy`, `Streamer.dfy` | CSV rows to telemetry points, one pass over a file, and the loop that runs passes under the lock |
| `LoopInProtocol.dfy` | the streamer's loop among other instances, as a run of the lock protocol |
| `Collector.dfy` | the collector's workers and counters, and its shutdown |
| `Handover.dfy` | what the client acknowledges, and where it then is in the collector |

## Where the code departs from what is said about it

- A requeued message is delivered next, not later: RPUSH goes to the end BRPOP takes from, against the comment
  at `internal/queueservice/redis_queue.go:519`. `DeliveryOrder.RequeuedGoFirst`,
  `Consumer.FailedComeBackReversed` and `FetchAndExpiry.ExpiredComeBackReversed` say what follows.
- "Failed messages moved to DLQ after max retries" (`README.md:126`) holds without Nacks only for a limit of at most
  one, and with Nacks for none. Expiry dead-letters at once when the limit is at most one and never when it is two or
  more (the default is three): `Redelivery.DeadLettersIff`. While no consumer Nacks and no ZADD is refused, a message is delivered at most as
  often as it was published exactly when the limit is at most one, and any number of times otherwise:
  `Redelivery.RetryLimitHoldsIff`, `Redelivery.ExpiredWithoutLimitIff`. A Nack carries no count, so a message
  rejected every time is redelivered without end whatever the limit: `Redelivery.DeliveredWithoutLimit`.
- `FetchBatch` dereferences a nil message when the list runs dry (`redis_queue.go:138-145`, `:329-331`): the request
  dies and what it took stays pending. The model keeps this as the outcome `Panicked` and proves exactly when it
  happens (`FetchAndExpiry.FullBatch`, `Consumer.PollNeedsAFullBatch`).
- An acknowledged message can come back if an expiry pass or a Nack read the pending set before the Ack.
  `AckFinality.AckFinalIff` is the exact condition on the state; the Nack race exists in every configuration
  (`AckFinality.AckUndoneByNack`), the expiry race exactly when the limit is two or more
  (`AckFinality.AckUndoneByExpiryIff`).
- Entries may be taken before their timeout is over: by every amount that is no more than the visibility timeout and less
  than a second, and no other (`Redelivery.TakenEarlyIff`); so never exactly when the timeout is zero
  (`Redelivery.NeverEarlyIff`).
- Instances sharing an ID (the default is one fixed value, `internal/config/defaults.go:26`) lose mutual exclusion:
  `LockProtocol.ExclusionIffDistinctIds`.
- `Publish` on the in-memory queue can report success for a message the drain misses, also with no Stop, when the
  context given to Start is cancelled: `InMemoryQueue.LeftBehindExactly`, `InMemoryQueue.SendAfterDrainIsLeft`,
  `InMemoryQueue.LeftBeforeStop`. Such a message is dispatched if the queue is stopped and started again, and lost if
  not: `InMemoryQueue.LostIffNotRestarted`.
- "ACK/NACK ensures no message loss" (`README.md:124`): the client acknowledges once handleMessage has put the message
  in the work queue or dropped it (`internal/collector/collector.go:113-132`). `Handover.AcknowledgedThenWhere` and
  `Handover.LostAfterAcknowledgement` say what is lost. In the service itself nothing is, as long as it runs
  (`NoLoss.NoMessageIsLost`); closing it loses what an operation has in hand (`ServiceClose.CloseLosesExactly`,
  `ServiceClose.CloseCanLose`).
- The totals logged by Stop miss panicked runs not yet counted: `InMemoryQueue.TotalsAtStopIff`,
  `InMemoryQueue.TotalsMissAPanic`.
- "Close work queue and wait for workers to finish" (`internal/collector/collector.go:105`): the wait is for the
  monitor to find the queue empty once, so `Start` may never return (`Collector.ShutdownReturnsIff`), or return with
  messages in hand or even queued behind workers that have left (`Collector.ReturnsBeforeWorkersFinish`,
  `Collector.ReturnsWithMessageQueued`). `Collector.AllSettledIff` says exactly when all is done, and
  `Collector.UnsettledAtReturn` what a return does guarantee.

## Assumptions

Redis commands are atomic and, except that ZADD may be refused and BRPOP may fail, succeed; Redis neither evicts nor
restarts. JSON encoding and decoding are inverse to each other. Clocks do not run backwards. Lists are indexed by
topic, the key `queue:<topic>` being injective in it; pending sets are indexed by their real key. Members of a
sorted set that tie on their score are ordered by the message ID their JSON begins with; entries that agree in
that too stay in insertion order.

## Model

| member | source | states |
|---|---|---|
| `NoLoss.NoMessageIsLost` | internal/queueservice/redis_queue.go:324-614 | in every interleaving, a published message whose Ack has not sent its ZREM is in its list, a pending set, the dead letters, or in the hands of a running operation |
| `NoLoss.NoLossAtRest` | internal/queueservice/redis_queue.go:324-614 | with no operation running such a message is in one of the three stores |
| `DeliveryOrder.TopicIsQueueBehindStack` | internal/queueservice/redis_queue.go:99-525 | in every run, identical messages included, a topic's list refines a first-in-first-out queue behind a stack of returned messages: that is what BRPOP hands out next, and first deliveries happen in publish order |
| `DeliveryOrder.ReachableShape` | internal/queueservice/redis_queue.go:99-121 | in every run a topic's list is its published messages not yet delivered, newest first, followed by messages delivered before; all published earlier has been delivered |
| `DeliveryOrder.ReachableRouted` | internal/queueservice/redis_queue.go:100-108 | in every run every listed message is in the list of its own topic |
| `DeliveryOrder.FirstDeliveriesInPublishOrder` | internal/queueservice/redis_queue.go:107-110 | in every run the first deliveries of a topic, in order, are a prefix of the first publishes to it, whatever is requeued in between |
| `DeliveryOrder.RequeuedGoFirst` | internal/queueservice/redis_queue.go:510-525 | a message is delivered for the first time only when nothing returned waits on its topic; it is then the oldest waiting, and all published to the topic before what waits has been delivered |
| `PendingEntries.ReachableEntries` | internal/queueservice/redis_queue.go:350-384 | in every run each pending entry is filed under its own topic and group with delivery count one and a deadline between one visibility timeout and the clock plus one, and sets are in order of score and, on ties, message ID |
| `Stampings.ReachableBuilt` | internal/queueservice/redis_queue.go:350-373 | in every run every entry pending, dead or carried by an operation was built in addToPEL, with the message, group and consumer it was built for, a first delivery, and a deadline one visibility timeout after the clock reading it was built at |
| `PendingEntries.KeyCollision` | internal/queueservice/redis_queue.go:351 | two (topic, group) pairs share a pending set exactly when a colon-separated tail moves from one topic to the other's group |
| `PendingEntries.FoundUnderOwnPair` | internal/queueservice/redis_queue.go:438-453 | with colon-free topics an entry is found by Ack and Nack only under the topic and group it was fetched under |
| `Stampings.TakenNoSoonerThan` | internal/queueservice/redis_queue.go:554-571 | an expiry pass takes an entry only after more than the visibility timeout less one second since the clock reading it was built at |
| `Stampings.ReadTakesTheExpired` | internal/queueservice/redis_queue.go:558-561 | a pass takes every entry that by its clock reading has waited out the visibility timeout since the reading it was built at, and none a second or more short of it |
| `Redelivery.TakenEarlyIff` | internal/queueservice/redis_queue.go:368-561 | some run takes an entry d nanoseconds before a visibility timeout is over since the clock reading it was built at if and only if d is at most the timeout and less than a second |
| `Redelivery.NeverEarlyIff` | internal/queueservice/redis_queue.go:368-561 | no run takes an entry before a visibility timeout is over since the clock reading it was built at if and only if the timeout is zero |
| `PendingEntries.ExpiryDecides` | internal/queueservice/redis_queue.go:578-597 | whether an expired entry is dead-lettered or requeued is settled by maxRetries being at most one |
| `Redelivery.DeadLettersIff` | internal/queueservice/redis_queue.go:578-600 | some run dead-letters something if and only if maxRetries is at most one |
| `Redelivery.DeliveriesBalance` | internal/queueservice/redis_queue.go:99-614 | in every run a message is delivered once per publish and once per put-back by Nack, expiry or a refused ZADD, less the times it is still listed |
| `Redelivery.RetryLimitHoldsIff` | internal/queueservice/redis_queue.go:578-600 | in all runs with no Nack and no refused ZADD a message is delivered at most as often as it was published, if and only if maxRetries is at most one |
| `Redelivery.ExpiredWithoutLimitIff` | internal/queueservice/redis_queue.go:592-600 | in such runs one message published once is delivered any number of times if and only if maxRetries is two or more |
| `Redelivery.DeliveredWithoutLimit` | internal/queueservice/redis_queue.go:472-508 | whatever maxRetries, in a run with no expiry pass and no refused ZADD one message published once is delivered any number of times and never dead-lettered |
| `AckFinality.GoneForGoodIff` | internal/queueservice/redis_queue.go:438-614 | a message never reappears in a store, however the service runs on, exactly when it is in no store and no operation has it in hand, found it for a Nack, or holds it in an expiry snapshot |
| `AckFinality.AckFinalIff` | internal/queueservice/redis_queue.go:455 | an Ack's ZREM is final exactly when, apart from the entry it removes, the message was nowhere |
| `AckFinality.AckUndoneByExpiryIff` | internal/queueservice/redis_queue.go:558-600 | in some run with no Nack and no refused ZADD a message published once and acknowledged is back in its list, if and only if maxRetries is two or more |
| `AckFinality.AckUndoneByNack` | internal/queueservice/redis_queue.go:455-508 | in every configuration some run with no expiry pass and no refused ZADD, so by a Nack, has an acknowledged message back in its list |
| `ServiceClose.CloseLosesExactly` | internal/queueservice/redis_queue.go:664-674 | of the messages published and not acknowledged a Close loses exactly those in no store at that moment, all of them in the hands of running operations, except what an expiry pass still dead-letters; with maxRetries two or more it dead-letters nothing |
| `ServiceClose.CloseCanLose` | internal/queueservice/redis_queue.go:150-152 | in every configuration a Close can lose a message: one popped whose ZADD and RPUSH then fail |
| `WholeOperations.CallsRefineMachine` | internal/queueservice/redis_queue.go:99-614 | any sequence of whole Publish, FetchBatch, Ack, Nack and expiry calls is a run of the command machine |
| `Conservation.PublishedIsConserved` | internal/queueservice/redis_queue.go:99-614 | with calls made one after the other, published equals lists plus pending sets plus dead letters plus acknowledged, each message once |
| `SerialFinality.AckExactly` | internal/queueservice/redis_queue.go:438-469 | whatever is pending, Ack answers not-found and changes nothing if and only if no entry of the set carries the ID; otherwise it takes out the first that does and changes nothing else |
| `SerialFinality.NackExactly` | internal/queueservice/redis_queue.go:472-508 | Nack likewise, and puts the message at the popping end of its list |
| `SerialFinality.AckIsFinal` | internal/queueservice/redis_queue.go:438-508 | after a successful Ack and any further calls the message is nowhere, no fetch returns it, and Ack or Nack of its ID reports not-found and changes nothing |
| `SerialFinality.AttainedPending` | internal/queueservice/redis_queue.go:350-373 | what is pending for a colon-free topic and a group is that topic's, fetched by that group, counted once, in score order |
| `SerialFinality.ExpiryInService` | internal/queueservice/redis_queue.go:545-612 | in any attained service with colon-free topics a pass over one set takes exactly the entries of its second; with maxRetries two or more it requeues them all and whatever the next fetch returns begins with them in reverse score order, otherwise it dead-letters them all |
| `FetchAndExpiry.FetchStopsAtError` | internal/queueservice/redis_queue.go:138-142 | a failing BRPOP ends the batch: what comes after it does not matter |
| `FetchAndExpiry.FetchExactly` | internal/queueservice/redis_queue.go:125-167 | FetchBatch dies if it meets an empty list, otherwise returns one message per successful ZADD in pop order; the list and the pending set change by exactly those; a refused ZADD changes nothing |
| `FetchAndExpiry.PendTimesExactly` | internal/queueservice/redis_queue.go:352 | the clock readings of a fetch that count are those of exactly the iterations whose ZADD is accepted, in order |
| `FetchAndExpiry.FullBatch` | internal/queueservice/redis_queue.go:125-167 | with no refusals a fetch of n returns if and only if the list holds n, and takes exactly its last n |
| `FetchAndExpiry.ExpireExactly` | internal/queueservice/redis_queue.go:545-613 | an expiry pass leaves each set its entries beyond the pass's second, appends what may be retried to the lists in the order taken, and dead-letters the rest |
| `FetchAndExpiry.TakenByConcat` | internal/queueservice/redis_queue.go:554-558 | a pass takes the sets one after the other, in the order of the keys |
| `FetchAndExpiry.ExpiredComeBackReversed` | internal/queueservice/redis_queue.go:596-600 | after a pass over one set whatever the next fetch returns begins with the expired messages that may be retried, last to expire first, ahead of all others |
| `RedisStore.SplitAtSecond` | internal/queueservice/redis_queue.go:558-561 | in a sorted set the expired entries are a prefix, and what ZRANGEBYSCORE reads and leaves make up the set |
| `RedisQueueService.RedisQueue.PopMessage` | internal/queueservice/redis_queue.go:324-347 | takes the message at the popping end; from an empty list neither a message nor an error; an error changes nothing |
| `RedisQueueService.RedisQueue.FetchBatch` | internal/queueservice/redis_queue.go:125-167 | the loop computes Fetch, hence the closed form of FetchExactly |
| `RedisQueueService.RedisQueue.FindEntry` | internal/queueservice/redis_queue.go:447-453 | the scan finds the first entry of the set with the ID, or none if no entry has it |
| `RedisQueueService.RedisQueue.Ack` | internal/queueservice/redis_queue.go:438-469 | removes the entry found, or reports not-found and changes nothing |
| `RedisQueueService.RedisQueue.Nack` | internal/queueservice/redis_queue.go:472-508 | removes the entry found and requeues its message, or reports not-found and changes nothing |
| `RedisQueueService.RedisQueue.CheckExpiredMessages` | internal/queueservice/redis_queue.go:545-614 | the nested loops compute Expire: every set keeps exactly its unexpired entries, lists and dead letters grow by exactly what was taken |
| `Consumer.SettleExactly` | internal/mq/http_queue_client.go:238-262 | answering for a batch removes exactly the batch from the pending set and appends exactly the failed messages, in order, to the popping end |
| `Consumer.FailedExactly` | internal/mq/http_queue_client.go:238-262 | the failures of a batch are the messages at exactly the positions the handler failed at, in order |
| `Consumer.PollExactly` | internal/mq/http_queue_client.go:166-265 | after every iteration whose fetch succeeds, whatever ZADDs were refused and wherever a BRPOP failed, the pending set is as before the fetch and the list has lost the batch and gained the failures |
| `Consumer.FetchGainsOneEach` | internal/queueservice/redis_queue.go:144-155 | whatever BRPOP and ZADD answer, the pending set gains exactly one entry per message moved off the end of the list: for the consumer and its group, with a first delivery and a deadline one visibility timeout after the clock reading of the iteration whose ZADD was accepted |
| `Consumer.FailedComeBackReversed` | internal/mq/http_queue_client.go:240-247 | whatever the next fetch returns begins with the messages that failed, in reverse order of failure |
| `Consumer.AttainedIdsSeparate` | internal/queueservice/redis_queue.go:447-453 | with unique message IDs, calls made one after the other keep waiting and pending IDs apart, as PollExactly needs |
| `Consumer.PollNeedsAFullBatch` | internal/mq/http_queue_client.go:157 | an iteration dies if and only if it finds the list empty, with all that was listed left pending and unanswered; when nothing is refused, that is with fewer than 500 listed |
| `Consumer.HTTPQueueClient.Poll` | internal/mq/http_queue_client.go:165-265 | one iteration fetches and sends exactly one request per message, in batch order: an Ack of its ID if the handler succeeded and a Nack of it otherwise |
| `Consumer.HTTPQueueClient.Answer` | internal/mq/http_queue_client.go:238-262 | the loop over a batch computes Settle and sends for each message an Ack of its ID if the handler succeeded and a Nack of it otherwise |
| `InMemoryQueue.NewConfig` | internal/mq/inmemory_queue.go:63-69 | sizes that are not positive become 1000 and 100, others are kept |
| `InMemoryQueue.DispatchOrder` | internal/mq/inmemory_queue.go:221-239 | in every interleaving messages are dispatched in send order, none skipped and none twice |
| `InMemoryQueue.DispatchedToRegistered` | internal/mq/inmemory_queue.go:175-246 | each dispatch goes to exactly the handlers subscribed to its topic when they are looked up, since the topic was last unsubscribed, in subscription order |
| `InMemoryQueue.WaitOutlastsDispatcher` | internal/mq/inmemory_queue.go:222-265 | the wait group cannot reach zero while the dispatcher selects, dispatches or drains |
| `InMemoryQueue.GracefulStop` | internal/mq/inmemory_queue.go:106-130 | when Stop returns everything sent before the context was cancelled, by Stop or earlier, has been dispatched, with one run per registered handler in order, and every body has ended |
| `InMemoryQueue.StopLosesNothing` | internal/mq/inmemory_queue.go:106-130 | Stop of a queue whose context is live returns with everything sent before its cancellation dispatched, in order, whatever happens meanwhile |
| `InMemoryQueue.DrainedAll` | internal/mq/inmemory_queue.go:297-310 | the drain ends only when every message sent has been dispatched |
| `InMemoryQueue.StopCanReturn` | internal/mq/inmemory_queue.go:106-130 | from every reachable state in which Stop waits the queue can run on, bodies ending, so that Stop returns |
| `InMemoryQueue.SubscriberGetsItsRun` | internal/mq/inmemory_queue.go:152-265 | when Stop returns a handler subscribed before a message was sent, its topic not unsubscribed since, has had a run for it if and only if it was dispatched, which it was if sent before the cancellation |
| `InMemoryQueue.LeftBehindExactly` | internal/mq/inmemory_queue.go:297-310 | once the dispatcher has gone, stopped or not, what it left behind is exactly what was sent after its drain found the channel empty, and none of it is dispatched until the queue is started again |
| `InMemoryQueue.LostIffNotRestarted` | internal/mq/inmemory_queue.go:81-130 | a message left behind has been dispatched by the time the dispatcher is next gone, in send order, if and only if the queue was started again |
| `InMemoryQueue.SendAfterDrainIsLeft` | internal/mq/inmemory_queue.go:161-169 | a run in which Stop returns with a counted publish not dispatched |
| `InMemoryQueue.LeftBeforeStop` | internal/mq/inmemory_queue.go:90-169 | with the context given to Start cancelled and no Stop, a run in which a counted publish is not dispatched unless the queue is started again |
| `InMemoryQueue.HandlerAccounting` | internal/mq/inmemory_queue.go:243-294 | runs started are delivered, errors or not yet counted; slots in use never exceed maxWorkers; sends are counted or about to be |
| `InMemoryQueue.TotalsCountResults` | internal/mq/inmemory_queue.go:269-293 | in every run totalDelivered is the number of bodies that succeeded and totalErrors the number that failed or panicked, each less those not yet counted |
| `InMemoryQueue.TotalsAtStop` | internal/mq/inmemory_queue.go:106-130 | when Stop returns totalDelivered is the number of bodies that succeeded, and totalErrors the number that failed or panicked less the panics not yet counted |
| `InMemoryQueue.ResultsWithoutPanics` | internal/mq/inmemory_queue.go:283-293 | with no panic, totalErrors at Stop is the number of bodies that failed |
| `InMemoryQueue.BoundedPool` | internal/mq/inmemory_queue.go:257-264 | no more handler bodies run at once than there are workers |
| `InMemoryQueue.TotalsAtStopIff` | internal/mq/inmemory_queue.go:269-293 | the totals at Stop cover every run if and only if no panicked run is still short of its count |
| `InMemoryQueue.TotalsWithoutPanics` | internal/mq/inmemory_queue.go:269-293 | in every run in which no handler panics the totals at Stop cover every run |
| `InMemoryQueue.TotalsMissAPanic` | internal/mq/inmemory_queue.go:269-281 | a run in which Stop returns with a panicked run in neither total |
| `InMemoryQueueObject.InMemoryQueue.Subscribe` | internal/mq/inmemory_queue.go:175-191 | adds the handler after the topic's others, unless the queue is closed |
| `InMemoryQueueObject.InMemoryQueue.Unsubscribe` | internal/mq/inmemory_queue.go:194-202 | removes the topic's handlers and no others |
| `InMemoryQueueObject.InMemoryQueue.Publish` | internal/mq/inmemory_queue.go:152-170 | the error for each state and each case of the select, and the message in the channel exactly when there is none |
| `InMemoryQueueObject.InMemoryQueue.DispatchMessage` | internal/mq/inmemory_queue.go:243-265 | starts one goroutine per handler of the topic, in order |
| `InMemoryQueueObject.InMemoryQueue.DrainMessages` | internal/mq/inmemory_queue.go:297-310 | empties the channel, dispatching in order |
| `InMemoryQueueObject.InMemoryQueue.Stop` | internal/mq/inmemory_queue.go:106-130 | with no publisher racing it nothing is left in the channel and every message reaches every handler of its topic, unless the context was cancelled before: then nothing more is dispatched |
| `InMemoryQueueObject.InMemoryQueue.Close` | internal/mq/inmemory_queue.go:133-148 | idempotent; stops first, with what that does to the channel's content, and closes the channel |
| `InMemoryQueueObject.SpawnedForAllHas` | internal/mq/inmemory_queue.go:243-265 | a goroutine is started for a message and handler exactly when the handler is subscribed to its topic |
| `InMemoryQueueObject.SpawnedInOrder` | internal/mq/inmemory_queue.go:297-310 | goroutines are started message by message in channel order, one per handler of the topic in subscription order |
| `InMemoryQueueObject.SpawnedForConcat` | internal/mq/inmemory_queue.go:297-310 | what is started for messages one after the other is started in that order, and nothing else |
| `LockProtocol.ExclusionIffDistinctIds` | internal/streamer/batch_lock.go:52-135 | at most one instance is inside an unexpired lease in every run if and only if instance IDs are distinct |
| `LockProtocol.LapsedIsHarmless` | internal/streamer/batch_lock.go:88-130 | releasing or extending after the lease has lapsed neither removes nor prolongs the key |
| `LockProtocol.DeferredIsHarmless` | internal/streamer/batch_lock.go:88-112 | a deferred release never takes the key from an instance inside its lease |
| `LockProtocol.OverlapIff` | internal/streamer/batch_lock.go:59 | two passes overlap in a run exactly when an instance acquires while another is still in a pass past its lease |
| `LockProtocol.PromptPassesNeverOverlap` | internal/streamer/batch_lock.go:12-16 | if every pass ends or extends within the time to live, passes never overlap |
| `BatchLocking.AcquireIff` | internal/streamer/batch_lock.go:12-85 | acquiring succeeds if and only if some round finds the key free before a cancellation is met, and holds the key for five minutes from the first such round |
| `BatchLocking.BatchLock.AcquireLock` | internal/streamer/batch_lock.go:52-85 | the loop's result and the key it leaves in every case; one successful SETNX if it acquires and none otherwise |
| `BatchLocking.BatchLock.ReleaseLock` | internal/streamer/batch_lock.go:88-112 | the key after the script; once it reaches Redis the key is not this instance's, and another's live key is untouched |
| `BatchLocking.ReleasesSpareOthers` | internal/streamer/batch_lock.go:88-112 | any number of releases, whatever others do in between, leaves another's live key as it would be without them |
| `BatchLocking.FirstDeferredLast` | internal/streamer/streamer.go:74-78 | the release deferred first runs last: what another instance does to the key just before it is what remains |
| `Streamer.Streamer.StreamFile` | internal/streamer/streamer.go:129-205 | what a pass publishes, in order, and how much each counter grows; which passes fail or are cancelled |
| `Streamer.Streamer.RunTurn` | internal/streamer/streamer.go:62-109 | with a lock there is a pass if and only if the lock is acquired, between the acquisition and the release; what the turn publishes and counts, and the key it leaves |
| `Streamer.Streamer.ReadRecords` | internal/streamer/streamer.go:153-167 | collects exactly the rows that parse and counts the others |
| `Streamer.Streamer.PublishBatch` | internal/streamer/streamer.go:178-195 | publishes records in order up to a cancellation, counting exactly those accepted |
| `Streamer.Streamer.Start` | internal/streamer/streamer.go:48-125 | exactly which turns pass; as many successful SETNXs and deferred releases as passes; what all passes publish and add to the counters; the result; the key on return |
| `Streamer.LoopPassesIff` | internal/streamer/streamer.go:56-123 | the k-th turn passes if and only if every turn up to it was uncancelled and acquired the lock and every pass before it let the loop go round again |
| `Streamer.LoopGoesOn` | internal/streamer/streamer.go:81-123 | there is another pass only in loop mode and only if the last one saw no cancellation |
| `Streamer.LoopKey` | internal/streamer/streamer.go:62-109 | the key the loop leaves is that after its passes' acquisitions and releases, followed by a last acquisition if that failed |
| `Streamer.LoopResult` | internal/streamer/streamer.go:82-115 | outside loop mode there is at most one pass and its outcome is the result; in loop mode only cancellation ends Start |
| `Streamer.StartGivesUp` | internal/streamer/streamer.go:74-109 | on return the key is not this instance's if there was no pass, or the release after the last pass or any deferred one reached Redis |
| `LoopInProtocol.AcquireInProtocol` | internal/streamer/batch_lock.go:52-85 | among other instances AcquireLock is a run of the lock protocol; if it succeeds the instance is inside its lease, and with distinct IDs no other is |
| `LoopInProtocol.StartInProtocol` | internal/streamer/streamer.go:48-125 | among other instances a whole Start is a run of the lock protocol |
| `Streamer.Streamer.RunDeferred` | internal/streamer/streamer.go:74-78 | the key after the deferred releases, last acquired first, each deleting it only if it is this instance's |
| `Streamer.SentExactly` | internal/streamer/streamer.go:178-257 | a pass publishes exactly the records accepted before a cancellation is seen, in order, under one timestamp and batch ID |
| `Streamer.SentFromLines` | internal/streamer/streamer.go:153-213 | the k-th point published comes from the k-th line of the file among those that parse, are reached and are accepted, with that line's uuid, metric, value and labels columns |
| `Streamer.PassMeans` | internal/streamer/streamer.go:129-205 | a pass fails exactly if the file does not open, is cancelled exactly if a cancellation is seen before one of the lines that parse, and counts the lines that do not parse |
| `Streamer.SentIsValid` | internal/streamer/streamer.go:209-213 | whatever the file, validateTelemetry rejects nothing a pass publishes unless the clock reads the zero time |
| `Streamer.PassBalance` | internal/streamer/streamer.go:152-195 | in an uncancelled pass sent, refused and unparsable lines add up to all lines |
| `Telemetry.RowParsesIff` | internal/parser/csv_parser.go:63-102 | a row parses exactly when its uuid and metric_name columns are there and not blank |
| `Telemetry.TrimSpaceExactly` | internal/parser/csv_parser.go:76-81 | trimming takes off exactly the white space around a column |
| `Telemetry.TrimSpaceEmptyIff` | internal/parser/csv_parser.go:76-81 | trimming empties exactly the blank columns |
| `Telemetry.ParsedExactly` | internal/parser/csv_parser.go:63-102 | the records of a file are those of exactly the lines that parse, in file order, each field the trimmed column of its name |
| `Telemetry.ParsedAreComplete` | internal/parser/csv_parser.go:96-99 | no record of a file lacks its uuid or metric name |
| `Telemetry.ValidateTelemetry` | internal/collector/collector.go:240-251 | accepts exactly points with a uuid, a metric name and a timestamp |
| `Collector.Collector.ProcessMessage` | internal/collector/collector.go:174-237 | the point the payload decodes to is stored exactly if it has a uuid, a metric name and a timestamp and the repository takes it; otherwise nothing is stored; each message is stored or counted as an error, once; a GPU failure stops nothing |
| `Collector.CountersBalance` | internal/collector/collector.go:113-237 | in every interleaving accepted messages are processed, queued or just dequeued; processed plus dropped is stored plus errors plus in progress; GPUs never exceed processed; stored points are valid |
| `Collector.WhereMessagesAre` | internal/collector/collector.go:113-237 | in every interleaving each copy of an accepted message is settled (stored or counted as an error), queued or in a worker's hand; one accepted once is unsettled if and only if it is queued or in hand |
| `Collector.StoredExactly` | internal/collector/collector.go:174-219 | in every interleaving each point stored is what an accepted message decodes to, with a uuid, a metric name and a timestamp; no message is stored more often than accepted; a settled message counted as stored is one whose valid point was stored, and the other settled ones are the errors |
| `Collector.GpusExactly` | internal/collector/collector.go:199-213 | the GPUs counted are exactly those the repository accepted, less those a worker is about to count |
| `Collector.ShutdownReturnsIff` | internal/collector/collector.go:105-151 | after cancellation Start can still return unless all workers have exited with messages queued and the monitor waiting |
| `Collector.ShutdownCanHang` | internal/collector/collector.go:158-162 | a run that ends so: a worker's select may pick cancellation over a queued message |
| `Collector.AllSettledIff` | internal/collector/collector.go:113-237 | in every reachable state what the counters fall short of is what is queued and what workers hold, so everything accepted or dropped is counted if and only if the queue is empty and every worker idle or gone |
| `Collector.UnsettledAtReturn` | internal/collector/collector.go:105-151 | when Start returns everything accepted before the monitor found the queue empty has been handed to a worker; what is not settled is what workers hold and what was accepted after and is still queued |
| `Collector.DrainsAfterReturnIff` | internal/collector/collector.go:155-170 | after Start has returned, queued messages can still be worked off if and only if some worker has not exited |
| `Collector.ReturnsWithMessageQueued` | internal/collector/collector.go:143-162 | a run in which Start returns with a message queued and every worker gone |
| `Collector.ReturnsBeforeWorkersFinish` | internal/collector/collector.go:143-150 | a run in which Start returns with a message begun and neither stored nor counted as an error |
| `Handover.AfterIteration` | internal/collector/collector.go:113-132 | after an iteration a message of the batch is listed again if and only if the context was done when it was handled, otherwise it is neither listed nor pending |
| `Handover.AcknowledgedThenWhere` | internal/collector/collector.go:113-132 | a message acknowledged because it was enqueued is nowhere in the queue service, and is settled unless it is in the work queue or in a worker's hand |
| `Handover.LostAfterAcknowledgement` | internal/collector/collector.go:105-170 | with Start returned and every worker gone, an accepted message is never stored nor counted as an error if and only if it is still queued |

Methods that run a single store command or flip a single flag (`Publish`, `AddToPEL` and `RequeueMessage` of
`RedisQueue`, `Start` and `CancelContext` of `InMemoryQueue`) have contracts but no row.

## Left out

- Network failures, evictions and restarts of Redis, other than a refused ZADD and a failing BRPOP: in particular a requeue whose RPUSH fails after the ZREM, which loses the message.
- Messages published after the queue service's Close, and Close's wait for its own goroutines.
- HTTP routing, status codes, JSON plumbing and the deprecated event-stream path: a request is a direct call of the operation.
- RegisterConsumer, UnregisterConsumer, deliverMessagesToGroup and GetStats, which are marked for removal or only report.
- The commands of one queue call interleaved with those of another in `RedisQueueService.RedisQueue`: its methods run whole calls; interleaving is the subject of `DeliveryMachine`, which is on values.
- The goroutines of the in-memory queue and of the collector are steps of a machine on values, since a method cannot be interrupted by another; update in place and aliasing of subscriber slices are not captured there.
- Publish racing with Close on the in-memory queue, which sends on a closed channel; handleMessage racing with the closing of the work queue.
- The collector's GPU metadata, which is copied field by field from the message; its stored value plays no part in any count.
- The CSV header check: `Telemetry` works for any header map. A read error other than end of file that repeats forever is not modelled.
- InMemoryQueueObject.InMemoryQueue.Stop: a sequential stand-in with no wait group and no handler bodies; those, and what racing publishers do, are in `InMemoryQueue.GracefulStop` and `InMemoryQueue.LeftBehindExactly`.
- InMemoryQueueObject.InMemoryQueue.Close: a flag stands for the closed channel; sending on it is not part of this model.
- Sleeps, tickers and the five-second waits, except as steps that may happen at any time.
- The format of batch IDs and random message IDs; uniqueness of IDs is a hypothesis where it is needed.
- GPU, telemetry and MongoDB repositories, the API gateway, configuration, charts and logging.
