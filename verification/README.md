# Flare core: a verified model

Flare is a Rust workspace of building blocks for messaging services. This project models its message-queue consumer
pipeline and the self-contained algorithms around it, and proves what they promise.

- **Consumer tasks** (`Settlement`, `BatchSettlement`, `Processing`, `BatchSafety`, `Disposition`). A delivery is
  checked against the idempotency store, handed to its handler, and settled with the broker: recorded and acknowledged,
  copied to a retry topic and acknowledged, copied to a dead-letter topic and terminated, or handed back. Every call to
  the outside may fail. A task's program is a function from the events so far to the next operation; the methods,
  written with the code's own branches and early returns, are shown to follow it, and the safety theorems are about
  every history that follows it, finished or not. `Disposition` tells, by message fields and configuration alone, which
  operations an answer calls for, and shows that exactly those are performed.
- **Many tasks at once** (`KeyedConcurrency`, `RecordedTwice`, `KeyedProgress`, `ConsumeLoop`, `OrderedBatch`,
  `OrderedSettlement`). State machines over any interleaving: key locks and the shared store, permits and draining at
  shutdown, and the key tasks of an ordered batch.
- **Failure handling and dispatch** (`Failure`, `RetryCycle`, `Dispatcher`). Retry policy, failure headers, publishers,
  the retry forwarder, and the whole trip of a message that is always refused.
- **Discovery** (`Discovery`). The refresh loop that turns backend snapshots into Insert and Remove events.
- **Start order** (`Topology`, `TaskManager`). The topological sort with its counters and worklist, and the task manager
  that starts tasks in that order.
- **Ids** (`Bits`, `Snowflake`). Bit packing on 64-bit words, and the generator over an arbitrary clock.
- **Context headers** (`ContextCodec`, `Text`). A context as string headers and back.
- **Routing, caching, limits** (`SubjectRouting`, `ConsulCache`, `RateLimit`, `PublishBackoff`).

The outside world is a parameter or an oracle: brokers, handlers, stores and publishers answer arbitrarily, clock
readings and fresh ids are arguments, and maps are iterated in an arbitrary order. `dfyconfig.toml` lists all files.

Where the code does less than its documentation or its evident intent suggests, the code is modelled and the exact
condition is proved:

- Snowflake ids of one generator are said to be unique. They are exactly when no call reads the millisecond in which
  waiting for the next one had failed (`Snowflake.IdsGrowUnlessReused`; a run that repeats an id exists by
  `Snowflake.ReuseHappens`).
- De-duplication under the key locks depends on the message key, which the idempotency key ignores: of two deliveries
  with one idempotency key, handled by tasks of one message each, both can be recorded exactly when they do not have
  the same ordered key (`RecordedTwice.RecordedTwiceExactly`). Without the locks, which is the default configuration,
  and inside one batch, which checks all members before it records any, both can be recorded in any case
  (`RecordedTwice.UnorderedRecordsTwice`, `RecordedTwice.OneBatchRecordsTwice`).
- `ConsumerError::should_dead_letter` excludes a shutdown error, but the failure policy does not ask it: a message whose
  handler fails with one is dead-lettered like any other that no retry mends (`ConsumerTypes.RetryableKinds`,
  `Disposition.SingleDisposes`).
- Idempotency keys of one topic coincide for messages with different ids exactly when the id given for one spells the
  broker position of the other, which has none (`ConsumerTypes.KeysTellMessagesApart`).
- The first discovery load leaves the channel cache in agreement with the instance table exactly when for every id the
  last entry has the address of the first that a channel can be made for (`Discovery.LoadIsConsistent`;
  `Discovery.TwoAddressesDisagree` breaks it). A channel that leads to the wrong address stays until the id's entry
  changes (`Discovery.ServiceDiscover.FollowBackend`).
- Which wildcard handler a topic gets does not depend on hash-map order exactly when the topic is registered itself or
  all wildcards it matches share a handler (`Dispatcher.FindIgnoresOrder`).
- The rate limiter adds tokens in 32 bits. Over a run every bucket and every decision is that of the intended, unbounded
  bucket exactly when no check's sum leaves 32 bits (`RateLimit.RunsAsIntended`); a client that pauses for fifty days
  can meet this and be refused (`RateLimit.PauseOverflows`).
- A context survives the headers exactly when it is in normal form (`ContextCodec.RoundTrip`).

## Model

| member | source | states |
|---|---|---|
| Processing.ApplyFailureAction | flare-core-messaging/src/mq/consumer/runtime.rs:913-970 | the calls made, and the outcome, are those of the failure plan: publish then settle, stop at the first failure, native nack only where the handle supports it |
| Processing.ApplyVerdict | flare-core-messaging/src/mq/consumer/runtime.rs:669-733 | one message is settled by the plan for its handler's answer or error; tells whether recording the message failed |
| Processing.ProcessMessage | flare-core-messaging/src/mq/consumer/runtime.rs:641-733 | whatever the outside answers, the calls made follow the program of one message and the result is the one the program returns |
| Processing.ProcessBatch | flare-core-messaging/src/mq/consumer/runtime.rs:735-911 | the calls made are a batch run: all members taken in, one batch dispatch of those not seen before, each settled by its verdict, first error kept, a failed recording ends the batch, a miscounting handler fails it |
| Disposition.SingleDisposes | flare-core-messaging/src/mq/consumer/runtime.rs:676-733 | a message that was new to the store and answered by its handler has no operation performed on it but those its answer calls for: Ack records and acknowledges it; DeadLetter, an error that no retry mends, or used-up retries publish the dead letter, with reason, error text and count, and term it, when dead letters are enabled; everything else publishes the retry copy and acknowledges it, or nacks where only the broker can retry. The task ends well if and only if the publisher needed is there and none of them failed, and then all were performed; otherwise its error is that of the one that failed, or says which publisher is missing |
| Disposition.SingleSkips | flare-core-messaging/src/mq/consumer/runtime.rs:658-667 | a message whose handler is never called has its check answered: a failing check is the error returned, and a duplicate is acknowledged and nothing else |
| Disposition.BatchChecks | flare-core-messaging/src/mq/consumer/runtime.rs:750-770 | every member of a batch is checked first, in order; a failing check or acknowledgement ends the batch before any is handled and is the error returned; duplicates are acknowledged and new members left alone |
| Disposition.BatchDisposes | flare-core-messaging/src/mq/consumer/runtime.rs:776-911 | each member handed to the batch handler has exactly the operations performed on it that its own result calls for, or, when the handler failed or returned a wrong number of results, that the error does, up to the one that fails; when the batch ends well all of them were performed on every member |
| Disposition.BatchReports | flare-core-messaging/src/mq/consumer/runtime.rs:793-911 | a failed recording ends the batch there and is the error returned; otherwise all members are settled and the error is the first failed settlement's, or the miscount's when none failed |
| ConsumerTypes.RetryableKinds | flare-core-messaging/src/mq/consumer/types.rs:140-153 | an error is retryable if and only if it is none of serialization, deserialization, dead-letter, shutdown, configuration and missing handler |
| ConsumerTypes.ErrorTextsDiffer | flare-core-messaging/src/mq/consumer/types.rs:104-138 | different errors have different texts, so the text that a copy carries determines the error |
| Settlement.PlanSettles | flare-core-messaging/src/mq/consumer/runtime.rs:913-970 | a plan cut short anywhere settles its handle at most once; exactly once and with success when it ends well; an error return means the broker was never successfully told to let go |
| Settlement.SingleHandsOffSafely | flare-core-messaging/src/mq/consumer/runtime.rs:641-733 | in every prefix of a message's history an ack is preceded by a duplicate answer, by the handler's Ack with the key recorded, or by the retry copy; a term by the dead-letter copy; a nack needs native retry; only the message's own handle is settled |
| Settlement.SingleSettlesOnce | flare-core-messaging/src/mq/consumer/runtime.rs:641-733 | a delivery is settled at most once on every path, exactly once with success when the task returns Ok, and never let go of when it returns an error |
| BatchSafety.KeptAt | flare-core-messaging/src/mq/consumer/runtime.rs:747-774 | the members handed to the batch handler are exactly those not reported as duplicates, in their order |
| BatchSafety.BatchHandsOffSafely | flare-core-messaging/src/mq/consumer/runtime.rs:735-911 | the safe hand-off holds in every prefix of a batch's history, through batch errors, length mismatch and early returns |
| BatchSafety.BatchSettlesOnce | flare-core-messaging/src/mq/consumer/runtime.rs:735-911 | with distinct handles every delivery of a batch is settled at most once, and exactly once with success when the batch returns Ok |
| KeyedConcurrency.StepKeepsInv | flare-core-messaging/src/mq/consumer/runtime.rs:451-471 | every step of any task keeps the invariant: one lock per key, one holder per lock, tasks of one message follow their program, holders are not interrupted, records are in the store |
| KeyedConcurrency.TasksNeverOverlap | flare-core-messaging/src/mq/consumer/runtime.rs:451-471 | in every reachable state of any interleaving, between two operations of a task there is none of another task that has a message with the same key - both carry the same one, or neither carries one and the topics agree, or the one carried names the other's topic - be they tasks of one message or key tasks of different ordered batches |
| KeyedConcurrency.RecordedAtMostOnce | flare-core-messaging/src/mq/consumer/runtime.rs:658-703 | of the deliveries that have the same key in that sense and the same idempotency key at most one has its handler's Ack recorded |
| KeyedConcurrency.TasksSettleSafely | flare-core-messaging/src/mq/consumer/runtime.rs:451-733 | whatever other tasks do, each task's part of the shared trace hands off safely and settles at most once |
| ConsumerTypes.OrderedKeyShared | flare-core-messaging/src/mq/consumer/runtime.rs:550-556 | two messages have one ordered key if and only if they have the same key in that sense |
| RecordedTwice.SideBySideExactly | flare-core-messaging/src/mq/consumer/runtime.rs:453-462 | two tasks hold their locks at once in some run if and only if no message of the one has the key of a message of the other |
| KeyedProgress.EveryTaskCanFinish | flare-core-messaging/src/mq/consumer/runtime.rs:451-471 | the key locks never deadlock: from every reachable state every task that has not ended can get its lock, come to the end of its program and give the lock back |
| RecordedTwice.RecordedTwiceExactly | flare-core-messaging/src/mq/consumer/runtime.rs:453-462 | for two messages with one idempotency key and a store, a run that reaches a state with both recorded exists if and only if they do not have the same key in that sense |
| RecordedTwice.UnorderedRecordsTwice | flare-core-messaging/src/mq/consumer/runtime.rs:472-482 | without the locks, two deliveries with one idempotency key can both be handled and recorded, each following the program and the store answering truthfully |
| RecordedTwice.OneBatchRecordsTwice | flare-core-messaging/src/mq/consumer/runtime.rs:750-825 | any two deliveries with one idempotency key in one batch have a run, ending well, that handles and records both |
| KeyedConcurrency.InMemoryIdempotencyStore.IsConsumed | flare-core-messaging/src/mq/consumer/runtime.rs:74-76 | the in-memory store answers a check as the state machine assumes of a store |
| KeyedConcurrency.InMemoryIdempotencyStore.RecordConsumed | flare-core-messaging/src/mq/consumer/runtime.rs:78-81 | and a recording likewise |
| ConsumerTypes.KeysTellMessagesApart | flare-core-messaging/src/mq/consumer/runtime.rs:972-987 | for any two messages of colon-free topics the idempotency keys are equal if and only if the topics are and: one id is given for both, by the envelope header or, where that is missing or blank, by the message id; or none is given for either and partition and offset agree; or the only id given spells the other message's partition and offset |
| ConsumeLoop.FetchBatch | flare-core-messaging/src/mq/consumer/runtime.rs:396-428 | a batch is the first message and what was fetched after it, in order, never over max(batch_size, 1); shorter only after an empty reply or the time limit; a broken fetch fails it |
| ConsumeLoop.StepKeepsInv | flare-core-messaging/src/mq/consumer/runtime.rs:301-380 | every step of the loop or a task keeps permits, messages and tasks accounted for |
| ConsumeLoop.BoundedConcurrency | flare-core-messaging/src/mq/consumer/runtime.rs:294-372 | in every reachable state free permits, running tasks and the permit of a fetching loop add up to the configured concurrency, or one when that is zero |
| ConsumeLoop.ConcurrencyReached | flare-core-messaging/src/mq/consumer/runtime.rs:294-372 | and for every configuration there is a run in which exactly that many tasks run at once |
| ConsumeLoop.BoundedBatches | flare-core-messaging/src/mq/consumer/runtime.rs:396-428 | in every reachable state every batch handed to a task has between one and the configured number of messages, or one when that is zero |
| ConsumeLoop.BatchSizeReached | flare-core-messaging/src/mq/consumer/runtime.rs:396-428 | and for every configuration some run hands over a batch of exactly that size |
| ConsumeLoop.DrainedWhenReturned | flare-core-messaging/src/mq/consumer/runtime.rs:374-384 | when the loop has returned no task is outstanding, as many permits are free as configured, or one when that is zero, and the fetched messages are, in order, those spawned and those dropped |
| ConsumeLoop.HandledUnlessBroken | flare-core-messaging/src/mq/consumer/runtime.rs:318-370 | as long as no fetch breaks inside a batch, every fetched message is with a task or in the batch being gathered |
| ConsumeLoop.StopHeard | flare-core-messaging/src/mq/consumer/runtime.rs:301-380 | from every reachable state in which it has not stopped the loop can come to drain: it gives its permit back, keeps all running tasks, loses no message, and makes a batch under way the last task |
| ConsumeLoop.NoWorkAfterStop | flare-core-messaging/src/mq/consumer/runtime.rs:301-384 | after the shutdown signal is taken nothing more is fetched or spawned, and every move lowers what is left to do |
| ConsumeLoop.DrainingGoesOn | flare-core-messaging/src/mq/consumer/runtime.rs:374-384 | a draining loop always has a move: a task that ends, a join, or the return |
| ConsumeLoop.StopReturns | flare-core-messaging/src/mq/consumer/runtime.rs:374-384 | so after the stop no run goes on for more than two moves for each running task, one for each finished one, and the return |
| OrderedBatch.GroupMeans | flare-core-messaging/src/mq/consumer/runtime.rs:571-579 | a group is the batch at the places, in order, of all messages that have the same key as its first one |
| OrderedBatch.GroupsPartition | flare-core-messaging/src/mq/consumer/runtime.rs:571-579 | every place of the batch belongs to exactly one group, and two places to the same one if and only if their messages have the same key |
| OrderedBatch.FirstKeysInOrder | flare-core-messaging/src/mq/consumer/runtime.rs:571-579 | the groups come in the order of their first messages |
| OrderedBatch.GroupByKey | flare-core-messaging/src/mq/consumer/runtime.rs:571-579 | the loop builds exactly the groups, in the order of their first messages; two messages are in one group if and only if they have the same key |
| OrderedBatch.ProcessOrderedBatch | flare-core-messaging/src/mq/consumer/runtime.rs:558-638 | every group's task is started at most once, at most 64 are outstanding at any point, a task is waited for only when there are 64 or none is left to start, each join is of a started task; on Ok all were started and joined without error; on an error it is the last join's |
| OrderedBatch.TasksShareNoKey | flare-core-messaging/src/mq/consumer/runtime.rs:558-638 | in the log of such a run two messages of started tasks have the same key if and only if the tasks are one |
| OrderedBatch.JoinsAreOfStarts | flare-core-messaging/src/mq/consumer/runtime.rs:558-638 | a join is of a task started before it and not joined yet |
| OrderedBatch.AtMost64 | flare-core-messaging/src/mq/consumer/runtime.rs:558-638 | the tasks started and not joined are never more than 64, and one is joined only when they are 64 or all groups have been started |
| OrderedBatch.AllHandledWhenPassed | flare-core-messaging/src/mq/consumer/runtime.rs:558-638 | when the run ends well every message of the batch was in the group of a task that was started and then joined without error |
| OrderedSettlement.OrderedBatchSettlesOnce | flare-core-messaging/src/mq/consumer/runtime.rs:558-638 | with distinct handles every delivery of an ordered batch is settled at most once by all key tasks together, even when an early error cuts some off, and exactly once with success when the batch returns Ok |
| Failure.FailureHeadersAt | flare-core-messaging/src/mq/consumer/failure.rs:358-389 | a failed copy carries the given count, the reason and error, and topic, id, partition and offset of the message it copies |
| Failure.FailureHeadersKeep | flare-core-messaging/src/mq/consumer/failure.rs:358-389 | all other headers are the message's own, and nothing else is added but a content type where there was none |
| Failure.ContentTypeAt | flare-core-messaging/src/mq/consumer/failure.rs:383-399 | the content type of a copy is the message's own header, or else that of its payload |
| Failure.ResolveMeans | flare-core-messaging/src/mq/consumer/failure.rs:143-149 | a copy goes back to the message's topic exactly for the original topic, that very topic or an empty suffix; a suffix extends the topic; a fixed topic ignores it |
| Failure.RetryRecordWaits | flare-core-messaging/src/mq/consumer/failure.rs:180-192 | a retry copy carries the deadline it is given, or what the message carried; everything else is as in any failed copy |
| Failure.ForwardDropsDeadline | flare-core-messaging/src/mq/consumer/failure.rs:272-305 | a copy is forwarded if and only if it names an original topic that is not blank, to that topic, with key, payload and all headers but the deadline |
| Failure.RetryCountRead | flare-core-messaging/src/mq/consumer/failure.rs:351-356 | a count is read exactly from a header that holds a 32-bit number, and counts as zero otherwise |
| Failure.ProducerRetryPublisher.PublishRetry | flare-core-messaging/src/mq/consumer/failure.rs:174-201 | sends one retry copy with the count one higher, or nothing and a retry error |
| Failure.ProducerDeadLetterPublisher.PublishDeadLetter | flare-core-messaging/src/mq/consumer/failure.rs:215-234 | sends one dead-letter copy with the count unchanged, or nothing and a dead-letter error |
| Failure.RetryForwarder.Handle | flare-core-messaging/src/mq/consumer/failure.rs:272-311 | acknowledges exactly when the copy for the original topic was sent; a missing original topic is not retryable, a failed send is |
| RetryCycle.HopReturns | flare-core-messaging/src/mq/consumer/failure.rs:174-311 | one trip through the retry topic keeps payload, key and original topic, raises the count by one, through printing and parsing, and comes back without a deadline from a retry topic of its own; it fails exactly for a blank topic with a retry topic of its own |
| RetryCycle.HopKeepsId | flare-core-messaging/src/mq/consumer/failure.rs:174-311 | on that trip a message whose id is in its header keeps it, and another one gets a new id |
| RetryCycle.DecodedRetries | flare-core-messaging/src/mq/nats/consumer.rs:462-587 | a delivery counts as many retries as its header says or as its broker attempted beyond the first, whichever are more, within 32 bits |
| RetryCycle.EncodedHeadersAre | flare-core-base/src/utils/context.rs:55-117 | the codec of contexts writes only headers of the names by which a trip through the retry topic may carry a context |
| RetryCycle.RefusedMessageIsDeadLettered | flare-core-messaging/src/mq/consumer/failure.rs:66-97 | a message arriving with count r and always refused is handed to its handler exactly max(max_retries - r, 0) + 1 times, with counts r, r + 1, ..., and then dead-lettered once, still with its payload, key and topic |
| RetryCycle.FinalErrorIsDeadLettered | flare-core-messaging/src/mq/consumer/failure.rs:70-78 | one whose handler fails with an error that no retry mends is handed to it once and dead-lettered at once |
| Dispatcher.FirstWildcardFinds | flare-core-messaging/src/mq/consumer/dispatcher.rs:54-71 | the wildcard search finds a matching pattern's handler if there is one |
| Dispatcher.WildcardMeans | flare-core-messaging/src/mq/consumer/dispatcher.rs:60-68 | a pattern matches a topic if and only if it ends in a star and the topic starts with the rest of it |
| Dispatcher.FindIgnoresOrder | flare-core-messaging/src/mq/consumer/dispatcher.rs:54-71 | the handler of a topic is independent of the map's iteration order if and only if the topic is registered or all its wildcards share a handler |
| Dispatcher.TopicDispatcher.Register | flare-core-messaging/src/mq/consumer/dispatcher.rs:149-163 | fails exactly for a topic already registered and then changes nothing |
| Dispatcher.TopicDispatcher.FindHandler | flare-core-messaging/src/mq/consumer/dispatcher.rs:54-71 | the search returns the topic's own handler if there is one, and else that of the first matching pattern in the current iteration order, or none if none matches |
| Dispatcher.TopicDispatcher.Dispatch | flare-core-messaging/src/mq/consumer/dispatcher.rs:82-96 | calls the topic's handler once and returns its answer, or calls nothing and reports that there is none |
| Dispatcher.TopicDispatcher.DispatchBatch | flare-core-messaging/src/mq/consumer/dispatcher.rs:98-147 | one batch call exactly when all messages go to handlers of the first one's name and it takes batches; otherwise each message's own handler once, in order, errors counting as Nack, up to the first message without a handler |
| Dispatcher.MiscountNeedsBatchHandler | flare-core-messaging/src/mq/consumer/runtime.rs:776-811 | in a batch run whose handler results come from this dispatcher, a miscount means that the first member's handler takes batches; unless all went to one such handler each is settled by its own handler's answer, an error counting as Nack, and the run ends as its settlements do |
| Dispatcher.BatchGoesToOwnHandler | flare-core-messaging/src/mq/consumer/dispatcher.rs:98-147 | when names tell handlers apart, the handler that gets the batch is every message's own |
| Dispatcher.BatchPathExactly | flare-core-messaging/src/mq/consumer/dispatcher.rs:98-126 | then the batch goes to one handler if and only if that takes batches and is the handler of every message |
| Discovery.ServiceDiscover.CreateChannelService | flare-core-transport/src/discovery/discover.rs:332-361 | a cached channel is returned whatever its address; otherwise a new one to "http://" and the instance's address is cached exactly when that URI is valid |
| Discovery.ServiceDiscover.Refresh | flare-core-transport/src/discovery/discover.rs:249-291 | for any iteration order the table becomes the snapshot, each id's announcements are exactly its difference (none when unchanged, Remove before Insert when changed), the listener's view is the cache, and cache and table agree if they did before and for every id that changed |
| Discovery.MoveIsAnnounced | flare-core-transport/src/discovery/discover.rs:256-291 | an instance whose address changed is removed and then announced at the URI of the new address, where its channel then leads |
| Discovery.OnlyChangesAnnounced | flare-core-transport/src/discovery/discover.rs:256-291 | an id whose entry stays is left alone with its channel; one that is gone is removed, and a new one announced if it can be reached, each with no other event |
| Discovery.TableLast | flare-core-transport/src/discovery/discover.rs:249-255 | of snapshot entries with one id the last one counts |
| Discovery.ServiceDiscover.InitialLoad | flare-core-transport/src/discovery/discover.rs:168-192 | after the first load each id's entry is its last one, its channel that of its first reachable one, with one Insert for each entry from there on |
| Discovery.ServiceDiscover.FollowBackend | flare-core-transport/src/discovery/discover.rs:168-292 | after any load and any successful and failed refreshes, replaying the log gives the channel cache, the table is the last successful snapshot, an id's channel leads to its address if and only if the load left it so or its entry changed since, and events of each id alternate when all URIs are valid and the loaded ids distinct |
| Discovery.AgreeingChannels | flare-core-transport/src/discovery/discover.rs:337-352 | where cache and table agree on an id its channel leads to "http://" and its entry's address, and two such channels to the same URI if and only if the addresses are the same |
| Discovery.LoadIsConsistent | flare-core-transport/src/discovery/discover.rs:168-192 | the first load leaves cache and table in agreement if and only if for every id the last entry has the address of the first that a channel can be made for |
| Discovery.TwoAddressesDisagree | flare-core-transport/src/discovery/discover.rs:168-192 | a load of one id with two different addresses leaves them in disagreement |
| Discovery.DistinctLoadAgrees | flare-core-transport/src/discovery/discover.rs:168-192 | distinct ids are enough for that |
| Discovery.RefreshKeepsTurns | flare-core-transport/src/discovery/discover.rs:256-291 | a refresh of reachable instances keeps each id's log alternating, ending in an Insert exactly when a channel is cached |
| Topology.CountDown | flare-core-runtime/src/utils/topology.rs:94-104 | the counters still count what is pending, none is zero when counted down, and exactly those reaching zero are queued |
| Topology.StuckReachesCycle | flare-core-runtime/src/utils/topology.rs:110-118 | a name among names that each wait for another of them reaches a cycle |
| Topology.OrderedReachesNoCycle | flare-core-runtime/src/utils/topology.rs:79-108 | no cycle can be reached from a name placed in an order with dependencies first |
| Topology.DepsOfLast | flare-core-runtime/src/utils/topology.rs:39-45 | a name has the dependencies of its last item |
| Topology.TopologicalSort | flare-core-runtime/src/utils/topology.rs:35-121 | sorts if and only if names are distinct, dependencies registered and there is no cycle; the order has every name once, dependencies first; otherwise it names the first item with an unregistered dependency and the first such dependency, or else lists, in order and at every place, exactly the item names from which a cycle is reachable |
| TaskManager.PickedInOrder | flare-core-runtime/src/task/manager.rs:269-286 | tasks picked by the sorted names are all the tasks, each once, after those they depend on |
| TaskManager.TaskManager.AddTask | flare-core-runtime/src/task/manager.rs:86-89 | appends the task |
| TaskManager.TaskManager.SortTasks | flare-core-runtime/src/task/manager.rs:255-288 | succeeds if and only if the tasks can be started; loses and repeats no task and leaves none to append at the end; on failure the task list is untouched and the error names the first unregistered dependency, or else exactly the tasks from which a cycle is reachable, in their order |
| TaskManager.TaskManager.StartAll | flare-core-runtime/src/task/manager.rs:112-173 | registers all tasks, then marks and spawns each in start order, with one shutdown sender each in that order; on failure nothing is registered or spawned, and the error is that of the sort |
| TaskManager.StartLogAt | flare-core-runtime/src/task/manager.rs:112-173 | the log of a start event by event: all registrations in start order, then each task marked as starting and at once spawned |
| TaskManager.SpawnsFollowDependencies | flare-core-runtime/src/task/manager.rs:120-173 | in the log of a start no task is spawned before all are registered and a task of each name it depends on is spawned |
| Bits.OrAdds | flare-core-base/src/id/snowflake.rs:94-97 | or-ing a number into the zeros below a shifted one adds it |
| Snowflake.FieldsRecovered | flare-core-base/src/id/snowflake.rs:12-22 | an id fits in 64 bits, and shifting and masking gives back timestamp, datacenter, worker and sequence |
| Snowflake.SnowflakeGenerator.Create | flare-core-base/src/id/snowflake.rs:52-67 | accepts exactly numbers up to 31, and names the one that is out of range |
| Snowflake.SnowflakeGenerator.WaitNextMillis | flare-core-base/src/id/snowflake.rs:113-120 | waits for the first reading past the last timestamp unless one before it fails, and for ever if there is none |
| Snowflake.SnowflakeGenerator.NextId | flare-core-base/src/id/snowflake.rs:70-98 | reply and new state of a call for any clock readings; it reports a clock that went back exactly when it did, a clock that cannot be read as such, takes over a later time, and leaves the last timestamp alone when it fails |
| Snowflake.MillisecondHolds4096 | flare-core-base/src/id/snowflake.rs:78-98 | up to 4096 calls that read one millisecond get consecutive ids, starting with the one computed in plain arithmetic from the milliseconds since 2024 and the generator's numbers |
| Snowflake.NumbersRunOut | flare-core-base/src/id/snowflake.rs:78-98 | one call more waits for the first later millisecond and starts it at zero, fails if the clock does first, and otherwise keeps waiting |
| Snowflake.IdsGrowUnlessReused | flare-core-base/src/id/snowflake.rs:70-98 | over every run with readings in the span, ids are strictly increasing, and distinct, if and only if no call reads the millisecond in which waiting had failed |
| Snowflake.IdsGrow | flare-core-base/src/id/snowflake.rs:70-98 | in particular they increase while no wait fails |
| Snowflake.ReuseHappens | flare-core-base/src/id/snowflake.rs:81-86 | a run that reuses a millisecond exists |
| Snowflake.GeneratorsDisjoint | flare-core-base/src/id/snowflake.rs:93-97 | generators that differ in datacenter or worker never give the same id, over any runs |
| ContextCodec.CtxToMap | flare-core-base/src/utils/context.rs:55-117 | the headers are exactly those of the context, absent and empty values left out, the user id falling back to an acting user's id |
| ContextCodec.CarriesDetermines | flare-core-base/src/utils/context.rs:55-117 | which determines the map, whatever order attributes come in |
| ContextCodec.EncodedHeaders | flare-core-base/src/utils/context.rs:58-92 | the header of each id by its name on the wire: absent exactly for an absent or empty id |
| ContextCodec.EncodedActor | flare-core-base/src/utils/context.rs:94-114 | the headers of an actor by their names: id, number of the kind, roles joined by commas, an attribute under its own name; its id is the user id if it is a user and there is no other |
| ContextCodec.MapToCtx | flare-core-base/src/utils/context.rs:122-156 | decodes any headers into the context they describe, a missing request id replaced by the new one |
| ContextCodec.DecodeActor | flare-core-base/src/utils/context.rs:158-192 | the actor of any headers, by its id or the user id, with its trimmed roles and non-empty attributes |
| ContextCodec.RolesKept | flare-core-base/src/utils/context.rs:170-180 | the roles read are the pieces that are not all white space, in their order, each trimmed |
| ContextCodec.DecodedFields | flare-core-base/src/utils/context.rs:122-156 | each id read is that of its header by name, empty ones left out, the trace id empty and the request id new where missing |
| ContextCodec.DecodedActor | flare-core-base/src/utils/context.rs:158-192 | there is an actor if and only if its id is given and not empty, or not given and there is a user id, which it then has; its kind is that of the number in the header, one to five, and unspecified for anything else; its attributes are the non-empty ones by name |
| ContextCodec.EncodedDecodes | flare-core-base/src/utils/context.rs:55-192 | decoding what was encoded gives the normalized context |
| ContextCodec.RoundTrip | flare-core-base/src/utils/context.rs:55-192 | a context comes back unchanged if and only if it has a request id, no empty optional id, an actor for its user id, and an actor with an id, a user id if it is a user, trimmed non-empty comma-free roles and non-empty attribute values |
| ContextCodec.SecondTripChangesNothing | flare-core-base/src/utils/context.rs:55-192 | whatever went through the headers once goes through again unchanged |
| SubjectRouting.SubjectMatches | flare-core-messaging/src/mq/nats/config.rs:76-102 | the loop decides the recursive token-by-token definition, or plain equality |
| SubjectRouting.MatchMeans | flare-core-messaging/src/mq/nats/config.rs:84-101 | that definition place by place: ">" only at the end standing for one or more tokens, every other place a star or the same token |
| SubjectRouting.ShortcutRedundant | flare-core-messaging/src/mq/nats/config.rs:77-79 | comparing whole strings first is redundant if and only if ">" stands only at the end |
| SubjectRouting.OrderIsIrrelevant | flare-core-messaging/src/mq/nats/config.rs:104-113 | where no two streams own a subject the order of streams does not matter |
| SubjectRouting.DefaultStreamsExclusive | flare-core-messaging/src/mq/nats/config.rs:55-74 | no subject whatever is owned by two default streams, so dead letters never reach a consumed stream |
| SubjectRouting.DefaultRouting | flare-core-messaging/src/mq/nats/config.rs:55-74 | by default a subject belongs to the message stream if and only if it has four tokens starting with flare, im and message or conversation, to the push stream if four starting with flare, im, push, to the dead-letter stream if four or more starting with flare, im, dlq |
| SubjectRouting.ResolvesToFirst | flare-core-messaging/src/mq/nats/config.rs:104-113 | a subject resolves to the first stream that owns it, and to none if and only if none does |
| SubjectRouting.GroupSubjects | flare-core-messaging/src/mq/nats/consumer.rs:314-342 | fails if and only if some subject belongs to no stream, naming the first; otherwise there is a group for each stream that owns a subject, with all its subjects in order |
| SubjectRouting.EachInItsGroup | flare-core-messaging/src/mq/nats/consumer.rs:323-339 | every subject is in the group of the stream it resolves to and in no other |
| SubjectRouting.SubjectsAt | flare-core-messaging/src/mq/nats/consumer.rs:323-339 | a group lists the subjects at the places of those that resolve to its stream, in order |
| SubjectRouting.GroupIsOfOneStream | flare-core-messaging/src/mq/nats/consumer.rs:323-339 | with distinct stream names every subject of a group resolves to the group's stream |
| SubjectRouting.ResolveStream | flare-core-messaging/src/mq/nats/consumer.rs:344-366 | succeeds if and only if there are subjects and all belong to one stream, and returns it; otherwise tells that one belongs to none, or the names of all their streams |
| CacheKey.DiscoverCacheKey | flare-core-transport/src/discovery/backend/consul.rs:42-65 | the key lists service, namespace, version and the tags in ascending order, for any iteration order |
| CacheKey.KeyIsDetermined | flare-core-transport/src/discovery/backend/consul.rs:54-63 | so a query has one key |
| CacheKey.KeyTellsQueriesApart | flare-core-transport/src/discovery/backend/consul.rs:42-65 | queries free of the separators with the same key are the same, but that an absent namespace, version or tag list counts as an empty one |
| ConsulCache.ConsulBackend.Discover | flare-core-transport/src/discovery/backend/consul.rs:298-346 | answer and cache after a call: from the cache while fresh, else from Consul, else stale, else the error |
| ConsulCache.CacheIsLatestFetch | flare-core-transport/src/discovery/backend/consul.rs:298-346 | after any serial run the cache holds for each key exactly its latest successful fetch |
| ConsulCache.AnswersAreLatest | flare-core-transport/src/discovery/backend/consul.rs:298-346 | every answer is the latest successful fetch for its key; if not fetched by this call it is younger than the time to live or Consul was asked and failed; an error means there never was a fetch |
| ConsulCache.StaleOnlyWhileFailing | flare-core-transport/src/discovery/backend/consul.rs:311-344 | while an answer is kept past its time to live, every call for the key has asked Consul in vain |
| ConsulCache.FetchesAreSpaced | flare-core-transport/src/discovery/backend/consul.rs:311-318 | with a clock that does not go back, two fetches for one key are a time to live apart |
| RateLimit.RateLimiter.Check | flare-core-transport/src/http/middleware/rate_limit.rs:29-51 | the client's new bucket and the decision, with saturating cast and wrap-around sum; no other client changes |
| RateLimit.TokensBounded | flare-core-transport/src/http/middleware/rate_limit.rs:41-50 | no bucket ever holds more than the burst |
| RateLimit.ClientsAreIsolated | flare-core-transport/src/http/middleware/rate_limit.rs:33-36 | after any run a client's bucket is what it would be without the other clients' checks |
| RateLimit.AdmissionsBounded | flare-core-transport/src/http/middleware/rate_limit.rs:29-51 | over any stretch of checks of all clients, a client is admitted at most burst + floor(rate * t / 10^9) times, for a stretch of t nanoseconds |
| RateLimit.BurstIsGranted | flare-core-transport/src/http/middleware/rate_limit.rs:33-47 | conversely a client that made no more checks than the burst had all of them admitted, whatever the others did, as long as the refill stays within 32 bits |
| RateLimit.RefilledAsIntended | flare-core-transport/src/http/middleware/rate_limit.rs:39-42 | one refill adds floor(rate * t / 10^9) for t nanoseconds since the last, nothing when the clock went back, up to the burst, if and only if there is no burst or tokens and added tokens stay below 2^32; it is never more |
| RateLimit.RunsAsIntended | flare-core-transport/src/http/middleware/rate_limit.rs:29-51 | over a run of all clients every bucket and every decision is that of the unbounded bucket if and only if no check's sum reaches 2^32 |
| RateLimit.PauseOverflows | flare-core-transport/src/http/middleware/rate_limit.rs:40-41 | a run of four checks, a pause and a fifth overflows, and the fifth is refused |
| RateLimit.RefusedExactly | flare-core-transport/src/http/middleware/rate_limit.rs:40-50 | a check is refused against the bucket it meets if and only if there is no burst, nothing is left and nothing added, or the sum wraps to zero |
| PublishBackoff.Send | flare-core-messaging/src/mq/nats/producer.rs:169-217 | stops at the first acknowledged attempt or after retries + 1 attempts with the last error, for any failure pattern, sleeping once between attempts |
| PublishBackoff.BackoffBounds | flare-core-messaging/src/mq/nats/producer.rs:209-216 | successive sleeps do not get shorter and none exceeds 64b + floor(64b / 100) * 24 for base b, whatever saturates |
| PublishBackoff.FactorDoubles | flare-core-messaging/src/mq/nats/producer.rs:209-213 | the base doubles with each failure, from one up to sixty-four times, and then stays |
| PublishBackoff.JitterMeans | flare-core-messaging/src/mq/nats/producer.rs:214 | the jitter is below 25 percent and the same for two ids exactly if their last bytes differ by a multiple of 25 |
| PublishBackoff.BackoffAtLeastBase | flare-core-messaging/src/mq/nats/producer.rs:214-216 | jitter only lengthens a sleep |
| PublishBackoff.JitterShare | flare-core-messaging/src/mq/nats/producer.rs:209-216 | while nothing saturates the sleep exceeds the doubled base by the jitter's percentage of it, up to rounding; no sleep is longer than the longest duration |
| PublishBackoff.TotalSleepBounded | flare-core-messaging/src/mq/nats/producer.rs:169-217 | all sleeping of n sleeps is at most 1.24 times b (2^n - 1) for up to seven and b (127 + 64 (n - 7)) beyond, and at least once that while nothing saturates |
| Text.SplitJoin | flare-core-base/src/utils/context.rs:109-112 | joined pieces free of the separator split into the same pieces |
| Text.TrimParts | flare-core-base/src/utils/context.rs:175 | trimming takes white space, and nothing else, off both ends |
| Text.ParsePrint | flare-core-messaging/src/mq/consumer/failure.rs:351-356 | a printed 32-bit number reads back as itself |
| Text.ParseSigned | flare-core-messaging/src/mq/consumer/failure.rs:351-356 | a printed number with or without a sign reads back as itself, or as none where it does not fit 32 bits |
| Text.ParseStranger | flare-core-messaging/src/mq/consumer/failure.rs:351-356 | a text with anything but digits after its sign is no number |

## Left out

- Broker, HTTP, gRPC, Redis, etcd and JWT traffic: oracles whose answers are arbitrary; a call is atomic, so a fetch
  that is cancelled halfway by the batch time limit is not modelled.
- JetStream's own de-duplication: a retry copy keeps the `x-message-id` header of the message it copies, which the
  producer uses as the broker's message id; that the broker may discard such a copy inside its window is not modelled.
- Kafka offsets: an ack commits the next offset and thereby all before it, so safety per handle does not say that no
  Kafka message is skipped.
- KeyedConcurrency.RecordedAtMostOnce: is for tasks of one message each and a store that remembers; the no-op store
  that is configured by default does not.
- KeyedConcurrency.TasksNeverOverlap: mutual exclusion only; the order in which waiting tasks get a key's lock is not
  specified.
- RetryCycle.RefusedMessageIsDeadLettered: assumes a topic that is not blank, that publishing and forwarding succeed
  and that each copy is delivered once. A forwarder that fails overwrites the original topic when it is itself
  retried.
- OrderedBatch.ProcessOrderedBatch: the method starts and joins the key tasks; what they do, and their being cut off
  by an early error, is in OrderedSettlement, and their locks in KeyedConcurrency.
- ConsumeLoop.FetchBatch: that reaching the time limit loses a reply already on its way is not modelled, because a
  fetch is one atomic operation of the oracle.
- The consume loop without a shutdown signal (`run`).
- The wait until a retry copy is due, idle and error backoff, logging and metrics.
- Long error messages are shortened; no decision depends on their text.
- Discovery.ServiceDiscover.FollowBackend: the event channel is an unbounded log; its capacity of 16 and who drains it
  are not modelled, nor are the load balancer and `filter_by_tags`.
- Discovery.RefreshKeepsTurns: an instance's address is any string and whether its URI is valid any predicate; the
  code's socket addresses are expected to give valid URIs, so for them every entry is reachable.
- TaskManager.TaskManager.StartAll: state updates by the started tasks themselves and stopping are not modelled; a
  task is its name and dependencies.
- Snowflake.SnowflakeGenerator.NextId: the lock is not modelled beyond calls being one after the other; lock poisoning
  cannot arise. A call that still waits has not returned and ends the run. Timestamps before 2024 and beyond the span
  wrap around and are excluded from the run theorems.
- ContextCodec.MapToCtx: deadline, cancellation, audit record and typed data of a context are not carried by the
  headers.
- SubjectRouting.GroupSubjects: retention and replica settings of a stream, task names and durable consumer names.
- ConsulCache.AnswersAreLatest: serial calls against one Consul; the cache is shared by backends with different URLs.
- RateLimit.RateLimiter.Check: refill is exact; the floating-point rounding of the code is not modelled. The sum wraps
  as in release builds. Fractional refill is discarded at every check, so no lower bound beyond the burst holds.
- PublishBackoff.Send: a message id is taken as given; dividing a duration by 100 rounds down in nanoseconds.
- `RegistryDispatcher`, error-code tables, builders, interceptors, adapters and telemetry: plumbing.
