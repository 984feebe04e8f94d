# Delivery guarantees of the Spark Push chat system

A Dafny model of the reliability layer of a chat push system, with proofs. The system takes messages from
Kafka (Job and the Logic consumers), pushes them to gateway nodes (Comet) over a gRPC stream, and fans them out
to WebSocket connections. The model covers what carries the guarantees:

- **Kafka consumption** (`KafkaBroker`, `KafkaConsumer`, `KafkaBatch`, `KafkaControl`, `KafkaProgress`, `KafkaLookahead`,
  `KafkaSessions`). One
  abstract consumer, which may settle any record and may commit only past settled records, and the three loops of
  `common/kafka_consumer.cpp` as refinements of it: one record at a time, parallel batches with a lane per
  key, and look-ahead with a control lane. Worker threads and the main thread interleave step by step; callbacks,
  dead letters, commits and stop requests have arbitrary outcomes; a crash is a session that ends anywhere and is
  followed by one that resumes from the committed offsets.
- **Job to Comet push** (`JobStream`, `PushReply`, `CometPush`, `PushLedger`, `PushDelivery`). Write-once completions between
  a caller, a writer, a reader and reconnects; the receiver's in-flight set and window of recent ids; and both
  together with unary fallback and redelivery. Replies can be lost, late or duplicated.
- **Comet upstream and rooms** (`UpstreamStream`, `RoomTables`, `RoomNotices`, `RoomAccess`). The bounded queue with
  once-only callbacks, the derived room index, the join and leave notices that are decided under its lock and issued
  after it, and the generation counters that guard joins and pushes against revocation.
- **Parsers and codecs** (`IncrementalParsing`, `WebSocketFrames`, `WebSocketPeers`, `SseParser`, `SseStreams`, `Base64`). Parsing that does not
  depend on how a stream is cut; RFC 6455 sections 5.2 and 5.3 in both directions; the terminal-state rules of
  the agent's event stream; RFC 4648 section 4 with a 32-bit accumulator that wraps.
- **Resources** (`ConnectionPool`, `RateLimiter`). Connection pools that drop the lock around blocking calls, and
  a token bucket filled lazily.
- **Prompt plan** (`PromptPlan`, `PromptCommands`). The fold over the persisted conversation and its declarative
  meaning, and what users type.

`Basics` holds what several of them share.

Where the source updates an object, a class has its fields and its methods are proved against the step functions
of the value-level machine; the theorems are about every run of that machine. Each section of code that holds a
lock, and each callback of an IO loop, is one step. Fields and parameters marked `ghost`, and the fields that a
comment calls history, exist only to state properties.

## Where the code and its comments disagree

- `job/service.h:38-39` says that an offset is committed only after Comet's reply has arrived. Without a
  dead-letter topic the one-record loop also commits after the retries are exhausted
  (`common/kafka_consumer.cpp:389-408`). `BestEffortExactlyWhen` says exactly when such a run still commits only
  a durable prefix, and `BestEffortLosesRecord` gives a run that does not.
- The generation check and the effect it guards are separate lock-held sections, for a join
  (`comet/comet_server.cpp:1262-1266`) and for a push (`comet/comet_server.cpp:710-714`), so a revocation can fall
  between them. `EffectsAreAuthorized` says exactly when an effect is free of one; `JoinCanOutliveRevocation` is a
  run in which a revoked user ends up in the room.
- Join and leave notices are decided under the lock of the room tables and issued after it
  (`comet/comet_server.cpp:1113`, `1126`, `1136`), by a pool of threads. They are decided in strict alternation
  (`DecidedAlternates`) but need not be issued so: `LeaveAfterRejoin` ends with a leave notice for a member.
  `IssuedAlternatesExactlyWhen` and `SafeExactlyWithoutOverlap` say exactly when they are.
- `logic/hermes_command.cpp:53-55` says that the provider-browse form of /model never changes state. It clears the
  override and the model and sets the provider (`logic/hermes_command.cpp:58-67`); `ChooseModel` follows the code.
- `common/rate_limiter.cpp:44-50` uses reading 0 of the clock for "never used". `ZeroReadingUnlimited` shows that
  calls at that reading are never limited; the bound is proved for positive readings.
- `common/rate_limiter.cpp:39-41` says that the scene prefix keeps buckets apart. That holds for scenes without a
  colon (`PlainScenesApart`) and fails for every scene with one (`ColonScenesCollide`).
- `common/mysql_pool.h:116-117` says that validation writes back a new connection. It only closes the dead one, and
  the next round of Acquire connects again; the model follows the code.
- `common/mysql_pool.h:108` says that Stop takes back the idle connections. It leaves them in the queue and in the count;
  `StoppedDrains` says what remains.
- `common/mysql_pool.h:135` calls the count "lent plus idle". It also contains the connections being created or
  checked (`Counted` in `ConnectionPool`).

## What holds only in part

- A registration belongs to a request id and not to a call. A second call of an id, after a redelivery, takes over the
  registration of the first (`job/service.cpp:428-436`), which then waits for its deadline although its request was
  written. `NoCallLost` says that this is the only way in which a call can be lost; `RedeliveryLosesFirst` is such a run.
- A question to the knowledge base that was refused, because it is empty or would change the base, is still part of the
  context of later prompts (`logic/hermes_command.cpp:151-154`): `LaterContext`.
- The name under which creative commands are reported is none of the words that ask for one: `NamesReadBack`.

## Model

| member | source | states |
|---|---|---|
| KafkaBroker.ReachesSafe | common/kafka_consumer.cpp:389-408 | any number of abstract steps: offsets never move back, settled records stay settled, and nothing unsettled gets below a committed offset |
| KafkaBroker.CommitFetched | common/kafka_consumer.cpp:473-484 | committing, in order, freshly fetched records that are all settled is a run of the abstract consumer, however partitions are mixed |
| KafkaConsumer.Consumer.CallBack | common/kafka_consumer.cpp:294-326 | the retries stop at the first success, use at most the configured attempts, and report failure only after all of them |
| KafkaConsumer.HandledExactlyWhen | common/kafka_consumer.cpp:302-318 | the callback counts as successful if and only if one of the configured attempts succeeds, or the only one if less than one is configured |
| KafkaProgress.HandleExactly | common/kafka_consumer.cpp:294-419 | a record is settled exactly if an allowed attempt succeeds or its dead letter is confirmed; when it is committed, when the flags change and what is returned |
| KafkaProgress.AcceptedModes | common/kafka_consumer.cpp:59-66 | an accepted configuration that promises durability commits by hand, and parallel workers and the control lane exclude each other |
| KafkaProgress.EveryModeAccepted | common/kafka_consumer.cpp:59-66 | no other bound on workers, batch size or mode is enforced |
| KafkaConsumer.Consumer.HandleMessage | common/kafka_consumer.cpp:272-419 | flags, settled records, committed offset and verdict for every outcome of callback, dead letter and commit |
| KafkaConsumer.Consumer.Run | common/kafka_consumer.cpp:155-195 | the one-record loop over any sequence of polls leaves the state of the loop specification |
| KafkaConsumer.DurableHandle | common/kafka_consumer.cpp:328-408 | with a dead-letter topic, one record is an abstract run, and while the consumer keeps running all that was fetched is settled |
| KafkaConsumer.DurableLoopRefines | common/kafka_consumer.cpp:155-195 | the durable one-record loop refines the abstract consumer wherever it ends |
| KafkaConsumer.NothingAfterHalt | common/kafka_consumer.cpp:155-195 | after a halt or a stop request nothing more is handled or committed |
| KafkaProgress.HealthyLoop | common/kafka_consumer.cpp:155-195 | a loop that meets nothing bad keeps running, settles everything and commits everything it fetched |
| KafkaProgress.StopsAtBadRecord | common/kafka_consumer.cpp:328-408 | with a dead-letter topic the first record that is neither handled nor dead-lettered, or not acknowledged, stops the loop for good with everything before it committed |
| KafkaConsumer.LoopIsBestEffort | common/kafka_consumer.cpp:389-408 | without a dead-letter topic every record seen is committed unless the broker refuses, handled or not |
| KafkaConsumer.BestEffortExactlyWhen | common/kafka_consumer.cpp:389-408 | without a dead-letter topic the durable prefix holds if and only if no unhandled record lies at or before an applied commit of its partition |
| KafkaConsumer.BestEffortLosesRecord | common/kafka_consumer.cpp:389-408 | a concrete accepted configuration and outcome that commits past a lost record |
| KafkaBatch.AssignLanes | common/kafka_consumer.cpp:430-446 | lanes partition the batch, every key has one lane, each lane is increasing, and with distinct keys lane sizes differ by at most one |
| KafkaBatch.LanesRun | common/kafka_consumer.cpp:447-460 | under every interleaving each worker is at one place of its lane and every job behind it has started, once, and is settled unless a failure was noted |
| KafkaBatch.SameKeyInOrder | common/kafka_consumer.cpp:434-460 | under every interleaving no record starts twice, records of one key start in batch order, and only after the earlier ones are settled |
| KafkaBatch.StartsAfterEarlier | common/kafka_consumer.cpp:434-460 | under every interleaving every started record, the first one too, has all earlier records of its key settled |
| KafkaBatch.LanesReach | common/kafka_consumer.cpp:447-460 | workers only settle records; no offset moves before they are joined |
| KafkaBatch.CommitPassIsPrefix | common/kafka_consumer.cpp:473-484 | commits follow batch order and stop, halting the consumer, at the first that is not acknowledged |
| KafkaBatch.BatchAllOrNothing | common/kafka_consumer.cpp:461-484 | commits start only if every record of the batch is settled; otherwise no offset moves and the consumer halts |
| KafkaBatch.BatchConsumer.Finish | common/kafka_consumer.cpp:461-486 | after the join: halt, or the commit pass |
| KafkaBatch.BatchRefines | common/kafka_consumer.cpp:430-486 | a parallel batch refines the abstract consumer under every interleaving and every commit outcome |
| KafkaProgress.HealthyBatch | common/kafka_consumer.cpp:430-486 | however the workers interleave: with all records handled or dead-lettered and all commits acknowledged, the whole batch is settled and committed and the consumer goes on |
| KafkaProgress.BatchCanFinish | common/kafka_consumer.cpp:447-460 | the workers can always handle the whole batch and be joined |
| KafkaProgress.NoStartAfterFailure | common/kafka_consumer.cpp:447-460 | once a worker has failed no record is started |
| KafkaBatch.BatchLoopRefines | common/kafka_consumer.cpp:155-195 | any number of batches does |
| KafkaControl.ControlSafety | common/kafka_consumer.cpp:197-261 | in every interleaving: commits are a prefix of what was polled and settled, the worker runs the non-durable front, ordinary records run in poll order, no record runs twice, the byte count is exact |
| KafkaControl.StartsBehindCommittedPrefix | common/kafka_consumer.cpp:197-261 | the worker starts a record only when everything polled before it is committed |
| KafkaControl.OnlyControlsOvertake | common/kafka_consumer.cpp:245-253 | in every run the records handled at once, ahead of the queue, are exactly those for which the interrupt predicate holds, and the worker never gets one |
| KafkaControl.HaltedNeverCommits | common/kafka_consumer.cpp:197-261 | once either thread has set failed_, no interleaving commits anything |
| KafkaLookahead.HealthyNeverHalts | common/kafka_consumer.cpp:197-261 | no interleaving of good answers stops the loop |
| KafkaLookahead.CanDrain | common/kafka_consumer.cpp:197-261 | from any state at the top of a running loop there are good answers under which everything polled is committed, in order, with the loop still running |
| KafkaLookahead.TakenExactlyWhen | common/kafka_consumer.cpp:231-250 | a record is taken if and only if fewer than the configured number of records and less than 16 MiB are pending |
| KafkaLookahead.WorkExactly | common/kafka_consumer.cpp:211-230 | the worker's record is settled and marked durable if it is handled or dead-lettered; otherwise the loop stops |
| KafkaLookahead.BadAnswersHalt | common/kafka_consumer.cpp:216-253 | a control record that fails, a commit that is not acknowledged and a predicate that throws stop the loop |
| KafkaLookahead.FailureStopsCommits | common/kafka_consumer.cpp:328-360 | once the worker has met a record that is neither handled nor dead-lettered, no interleaving commits anything |
| KafkaLookahead.StopIsSeen | common/kafka_consumer.cpp:209-224 | a stop request ends the loop the next time the main thread looks, after the durable front has been committed |
| KafkaLookahead.ExitIsFinal | common/kafka_consumer.cpp:254-261 | after that nothing is polled, started or committed |
| KafkaLookahead.CommitsAreStored | common/kafka_consumer.cpp:219-222 | in every run the offsets at the broker are those of the records committed |
| KafkaControl.ControlRefines | common/kafka_consumer.cpp:197-261 | the control loop refines the abstract consumer under every interleaving |
| KafkaControl.CommitWhileRuns | common/kafka_consumer.cpp:216-224 | the inner commit loop is a run of the step machine, whatever the broker answers |
| KafkaControl.CommitWhileTakesDurablePrefix | common/kafka_consumer.cpp:216-224 | with an acknowledging broker one pass commits and retires exactly the longest durable prefix, in order |
| KafkaControl.ControlConsumer.CollectFinishedWork | common/kafka_consumer.cpp:211-215 | a finished job marks the front durable or halts the loop |
| KafkaControl.ControlConsumer.CommitFrontRecord | common/kafka_consumer.cpp:219-222 | one commit of the front: retired if acknowledged, otherwise the loop halts with the record still queued |
| KafkaControl.ControlConsumer.CommitDurablePrefix | common/kafka_consumer.cpp:216-224 | the loop over the front of the queue computes the commit pass |
| KafkaControl.ControlConsumer.StartFrontRecord | common/kafka_consumer.cpp:225-230 | an idle worker gets the front record |
| KafkaControl.ControlConsumer.TakeNext | common/kafka_consumer.cpp:231-250 | polling stops at either limit; otherwise the record is queued and counted |
| KafkaControl.ControlConsumer.RunControlRecord | common/kafka_consumer.cpp:250-253 | a control record is handled at once, without commit, and marked durable or halts the loop |
| KafkaSessions.SessionRefines | common/kafka_consumer.cpp:155-486 | a session of any of the three durable loops, cut off anywhere, refines the one abstract consumer |
| KafkaSessions.ReplayIsDurable | common/kafka_consumer.cpp:155-486 | over any chain of crashes and replays every record below a committed offset was handled or dead-lettered |
| PushLedger.CompleteKeepsWindow | comet/comet_server.cpp:753-762 | the recent set is exactly the last 100000 completed ids, oldest forgotten first; the id leaves the in-flight set |
| PushLedger.AcceptKeepsValid | comet/comet_server.cpp:741-752 | an id is accepted only if neither in flight nor recent, and a duplicate is reported exactly for recent ids |
| PushLedger.PushRequests.AcceptPushRequest | comet/comet_server.cpp:741-752 | verdict and new state for every id, including the empty one and a full in-flight set |
| PushLedger.PushRequests.CompletePushRequest | comet/comet_server.cpp:753-762 | the eviction loop computes the completed ledger |
| PushLedger.PushRequests.ForgetPushRequest | comet/comet_server.cpp:763-766 | only the reservation is released |
| CometPush.FanOutsFarApart | comet/comet_grpc_service.cpp:26-85 | two fan-outs of one id have more than a whole window of completions between them, under every interleaving of handlers |
| CometPush.OkMeansCompleted | comet/comet_grpc_service.cpp:143-188 | a reply without error is given only for an id that was completed |
| CometPush.FailureReleasesOnlyItself | comet/comet_grpc_service.cpp:26-85 | after a failed attempt the id can be accepted again, and other handlers keep their reservations |
| CometPush.InflightBounded | comet/comet_server.cpp:741-752 | the in-flight set never exceeds its bound |
| CometPush.FreshRequestIsPushed | comet/comet_grpc_service.cpp:26-119 | after any run: a request neither in flight nor recent, with room, is fanned out and answered without error, and the next one of its id is answered without error and not fanned out |
| CometPush.BusyOrUnavailableIsRetried | comet/comet_grpc_service.cpp:26-119 | a request that is in flight or finds no room gets error 503 and changes nothing, and one whose authorization is unavailable gets 503 and is no longer in flight |
| JobStream.DoneStays | job/service.cpp:206-566 | no step of caller, writer, reader or reconnect changes a completion that is done |
| JobStream.WriteOnce | job/service.cpp:206-566 | nor does any run of steps |
| JobStream.StepInv | job/service.cpp:301-566 | every registered entry names its own request, and a success is backed by a reply that was read |
| JobStream.TrueMeansReply | job/service.cpp:520-566 | in every run SendToStream has returned true only if a reply with its request id and error 0 was actually read, and that reply is the one it returns |
| JobStream.TrueExactlyWhen | job/service.cpp:520-566 | in every run a call that has returned has returned true if and only if its completion was done by a reply with error 0 and its deadline had not passed |
| JobStream.ReplyWakesCaller | job/service.cpp:328-341 | a waiting caller whose reply has been matched returns what the reply says, with the reply |
| JobStream.RegisteredCallReturns | job/service.cpp:301-371 | so does the caller of any registered request when the reply to its id is read |
| JobStream.QueuedExactlyWhen | job/service.cpp:520-537 | a call is queued if and only if it has an id and the queue has room |
| JobStream.WriterTakesOldest | job/service.cpp:373-402 | in every run the writer takes the oldest queued call |
| JobStream.OldestIsWritten | job/service.cpp:415-445 | which an idle writer registers and writes |
| JobStream.AnsweredIsNotWritten | job/service.cpp:428-436 | a call that is already answered is not written |
| JobStream.FailedWriteIsRetried | job/service.cpp:445-465 | after a failed write the call is not registered, unless another one is under its id, and is tried again or failed |
| JobStream.DeadlineReturnsFalse | job/service.cpp:538-562 | a caller whose deadline passes returns false and takes its own registration with it and no other |
| JobStream.LostStreamFailsCall | job/service.cpp:206-255 | when the stream is lost every registered call that is still waited for returns false |
| JobStream.OtherRepliesDropped | job/service.cpp:301-327 | a reply to an id that is not registered is dropped |
| JobStream.NoCallLost | job/service.cpp:373-566 | in every run a call that is still waited for is queued, with the writer, registered, matched or being failed, unless another call has the same id |
| JobStream.RedeliveryLosesFirst | job/service.cpp:428-436 | a run in which a second call of an id takes over the registration of the first, which then only has its deadline |
| JobStream.Stream.Enqueue | job/service.cpp:520-537 | a request is queued exactly if the queue has room; otherwise the call is refused |
| JobStream.Stream.RegisterWrite | job/service.cpp:428-436 | the writer registers a request unless its caller has already been answered |
| JobStream.Stream.WithdrawOwn | job/service.cpp:445-455 | a registration is removed only by the request it belongs to |
| JobStream.Stream.Match | job/service.cpp:301-371 | a reply takes the registration of its id, an unknown one is dropped |
| JobStream.Stream.DeliverReply | job/service.cpp:301-371 | a matched reply completes its request unless it is done |
| JobStream.Stream.FailPending | job/service.cpp:206-255 | a reconnect fails every registered completion that is not done and no other |
| PushDelivery.SuccessMeansCompleted | job/service.cpp:583-681 | Job reports success for a call only if Comet completed its request id, through stream, refusal by the stream, fallback and redelivery |
| PushDelivery.FannedOutOncePerWindow | job/service.cpp:618-681 | frames for one id are fanned out at most once per window of completions |
| PushDelivery.ReportIsFinal | job/service.cpp:618-681 | a reported result never changes |
| PushDelivery.StreamFirst | job/service.cpp:640-660 | a call that the stream delivered is reported as a success, any other goes on to the unary calls |
| PushDelivery.StreamDelivers | job/service.cpp:640-660 | a registered request whose reply without error is read is reported as a success |
| PushDelivery.UnarySucceeds | job/service.cpp:660-680 | a unary reply without error makes the call a success at any attempt |
| PushDelivery.UnaryFallbackDelivers | job/service.cpp:660-680 | end to end: a request that fell back to the unary call and is fresh at Comet is fanned out there and reported as a success |
| PushDelivery.ThreeUnaryAttempts | job/service.cpp:660-680 | a call that the stream did not deliver is reported as failed exactly at its third failed unary attempt |
| PushDelivery.ErrorRepliesCount | job/service.cpp:660-680 | a unary reply with an error counts as a failed attempt, and without a stub there is none |
| UpstreamStream.Bounded | comet/comet_server.cpp:603-629 | the byte count is exact and at most 8 MiB; queue, hand and registrations together never exceed 513 |
| UpstreamStream.NoCallbackLost | comet/comet_server.cpp:465-629 | an admitted request whose callback has not fired is queued, in the writer's hand, registered, or taken by the thread about to fire it |
| UpstreamStream.AtMostOnce | comet/comet_server.cpp:295-346 | no callback fires twice |
| UpstreamStream.QuiescentExactlyOnce | comet/comet_server.cpp:465-663 | when nothing is left anywhere, every request, admitted or refused, has had its callback fired exactly once |
| UpstreamStream.AcceptedWriteIsTracked | comet/comet_server.cpp:465-549 | a request whose write was accepted is registered, taken or already answered |
| UpstreamStream.AdmittedExactlyWhen | comet/comet_server.cpp:603-629 | after any run a request is admitted if and only if the stream runs, fewer than 512 requests are queued or registered and the queue stays within 8 MiB; a refused one is told 429 |
| UpstreamStream.NothingAfterShutdown | comet/comet_server.cpp:603-629 | after the shutdown of a stream none is admitted |
| UpstreamStream.WriterTakesOldest | comet/comet_server.cpp:465-490 | in every run the writer takes the oldest request and leaves the others queued |
| UpstreamStream.HealthyRequestIsAnswered | comet/comet_server.cpp:465-629 | a request that is sent, written and replied to has its callback told the code of the reply |
| UpstreamStream.FailedWriteIsTakenBack | comet/comet_server.cpp:490-549 | a failed write takes the registration back, so that the request can be tried again |
| UpstreamStream.CodesHandedOn | comet/comet_server.cpp:295-346 | a registered callback is told the code of its reply, and 503 when the stream is lost or its deadline passes |
| UpstreamStream.QueueTimesOut | comet/comet_server.cpp:645-663 | a queued request is told 504 when its deadline passes |
| UpstreamStream.QueueKeepsTimely | comet/comet_server.cpp:645-663 | only overdue requests at the front leave the queue, and what is left begins with one that is not |
| UpstreamStream.FiredAsTaken | comet/comet_server.cpp:559-585 | a callback that fires for the first time is told the code it was taken with |
| UpstreamStream.CodesAreSourced | comet/comet_server.cpp:295-346 | in every run a callback is told 429, 503, 504 or the code of a reply to it that was read |
| UpstreamStream.StreamState.SendToStream | comet/comet_server.cpp:603-629 | admission by count and bytes, and the new state |
| UpstreamStream.StreamState.ExpireStreamPending | comet/comet_server.cpp:318-346 | exactly the overdue registrations are removed |
| UpstreamStream.StreamState.ExpireSendQueue | comet/comet_server.cpp:645-663 | exactly the overdue front of the queue is removed, with its bytes |
| RoomTables.OpInv | comet/comet_server.cpp:1108-1137 | join, leave and removal keep the index exact and the notices they decide on alternating |
| RoomTables.RunInv | comet/comet_server.cpp:1108-1156 | so does any run: a user is in the index exactly when its connection set is present and non-empty, and the decided notices alternate |
| RoomTables.AlternationReadForwards | comet/comet_server.cpp:1108-1137 | the notices decided on for one room and user strictly alternate, starting with join, and the last one decided tells the membership |
| RoomTables.RoomTable.AddUserToRoom | comet/comet_server.cpp:1108-1114 | both tables after a join, and that a notice is due exactly for the first connection |
| RoomTables.RoomTable.LeaveRoomConnection | comet/comet_server.cpp:1115-1127 | both tables after a leave, and that a notice is due exactly for the last connection |
| RoomTables.RoomTable.RemoveUserFromRoom | comet/comet_server.cpp:1128-1137 | both tables after a removal, and that a notice is due exactly for a member |
| RoomNotices.DecidedAlternates | comet/comet_server.cpp:1108-1137 | in every run of operations and notices, the decided ones strictly alternate and their number tells the membership |
| RoomNotices.IssuedBalance | comet/comet_server.cpp:1113-1136 | when no notice is due, the joins issued are one more than the leaves for a member and as many for anyone else, in whatever order they were issued |
| RoomNotices.IssuedAlternatesExactlyWhen | comet/comet_server.cpp:1113-1136 | the issued notices of a room and user strictly alternate, starting with join, if and only if none overtakes a decision of the other kind |
| RoomNotices.NextIssueSafeExactlyWhen | comet/comet_server.cpp:1113-1136 | while they alternate, they go on doing so whichever is issued next if and only if at most one is due |
| RoomNotices.SafeExactlyWithoutOverlap | comet/comet_server.cpp:1108-1137 | nothing due can break the alternation at any point of a run if and only if no operation decides on this room and user between the lock-held section and the notice of another |
| RoomNotices.WithoutOverlap | comet/comet_server.cpp:1108-1137 | without such overlaps the issued notices alternate, and when none is due the last one tells the membership |
| RoomNotices.LeaveAfterRejoin | comet/comet_server.cpp:1128-1136 | a run that issues join, join, leave and ends with the user in the room |
| RoomAccess.EffectsAreAuthorized | comet/comet_server.cpp:682-732 | every frame and join has a positive answer and no revocation between snapshot and check; between snapshot and effect there is none if and only if none fell between check and effect |
| RoomAccess.StaleJoinNeverAdds | comet/comet_server.cpp:1248-1274 | a join takes effect only if no later join, leave or revocation callback of its connection and room came before |
| RoomAccess.OnlyOpenConnections | comet/comet_server.cpp:919-925 | every connection in a room is open, belongs to that user, and the user is in the index |
| RoomAccess.PassesExactlyWhen | comet/comet_server.cpp:1256-1266 | after any run a callback passes its checks if and only if the answer was positive and since the request its user was not revoked from the room and, for a join, its own connection did nothing with the room |
| RoomAccess.PassedTakesEffect | comet/comet_server.cpp:1266-1268 | a join that has passed puts its connection and nothing else into its room; a push changes no room |
| RoomAccess.RequestsAreRemembered | comet/comet_server.cpp:1248-1253 | a request remembers what had happened when it was made |
| RoomAccess.OperationsCount | comet/comet_server.cpp:1143-1156 | a leave and the callback of a revocation make joins that still wait for their answer come too late |
| RoomAccess.LeaverIsOut | comet/comet_server.cpp:1115-1127 | a leave takes its connection out of the room |
| RoomAccess.ClosedIsOut | comet/comet_server.cpp:919-925 | a connection that closes leaves every room, and only that connection |
| RoomAccess.RevokedIsOut | comet/comet_server.cpp:1143-1156 | the removal that completes a revocation takes every connection of the user out of the room and no other |
| RoomAccess.WhoOutlivesRevocation | comet/comet_server.cpp:1143-1156 | every connection in a room is there by a join that took effect after the last removal of its user; a completed revocation makes that join out of date if and only if it came between the join's check and its effect |
| RoomAccess.JoinCanOutliveRevocation | comet/comet_server.cpp:1143-1156 | a run in which a revocation falls between check and effect and the user stays in the room |
| IncrementalParsing.DrainSplit | comet/comet_server.cpp:1040-1105 | draining a buffer and then the leftover with more bytes is draining all at once, up to the last item |
| IncrementalParsing.FeedAllIsDrain | comet/comet_server.cpp:1040-1105 | so is any number of pieces |
| WebSocketFrames.ParseMore | comet/comet_server.cpp:1040-1105 | a frame or error that has been decided is not changed by later bytes |
| WebSocketFrames.ChunkingIrrelevant | comet/comet_server.cpp:1040-1105 | for arbitrary bytes, what the server does up to the first close or protocol error does not depend on the chunks |
| WebSocketFrames.ParseClientFrame | load_test/ws_client_lib.cpp:305-338 | the server reads a client frame back to its payload and consumes exactly the frame, or closes, as the payload is within 64 KiB or not |
| WebSocketFrames.ClientToServer | load_test/ws_client_lib.cpp:305-338 | any list of payloads within the limit, printed and delivered in any chunks, is received in order with nothing left over |
| WebSocketPeers.ServerReads | comet/comet_server.cpp:1040-1105 | any frame of RFC 6455 section 5.2, with any length encoding: the server consumes it exactly and answers a ping with a pong of the same payload and a close with a close, or closes if it is not a final, masked text, close, ping or pong frame without reserved bits, a control frame is long, or the payload exceeds 64 KiB |
| WebSocketPeers.AnyClient | comet/comet_server.cpp:1040-1105 | any frames of a client, in any chunks, have their effects in order up to the first that closes the connection |
| WebSocketPeers.MaskedBit | comet/comet_server.cpp:1084-1091 | masking flips exactly the bits of the key, byte i mod 4 of the key for byte i of the payload |
| WebSocketPeers.BigEndian | comet/websocket_utils.cpp:103-124 | lengths are written with the most significant byte first |
| WebSocketFrames.ServerToClient | load_test/ws_client_lib.cpp:153-197 | the reader returns the payload and consumes exactly the frame across all three length encodings, or fails above 10 MiB |
| WebSocketFrames.TruncatedServerFrame | load_test/ws_client_lib.cpp:153-197 | a frame cut short anywhere is never taken for a complete one |
| WebSocketPeers.AnyServer | load_test/ws_client_lib.cpp:153-197 | the reader returns the payload of any final text frame within 10 MiB, masked or not, and fails for any other |
| WebSocketPeers.OwnFrames | load_test/ws_client_lib.cpp:305-338 | the frames that both printers write are final text frames with the shortest length encoding |
| WebSocketFrames.BuildServerFrame | comet/websocket_utils.cpp:103-124 | the server's printer writes the frame of the specification |
| WebSocketFrames.BuildClientFrame | load_test/ws_client_lib.cpp:305-338 | the client's printer writes the masked frame of the specification |
| WebSocketFrames.ReadServerFrame | load_test/ws_client_lib.cpp:153-197 | the reading loop computes the reader that the round trip is about |
| WebSocketFrames.ParseFront | comet/comet_server.cpp:1040-1105 | one round of the server's loop computes the parser |
| WebSocketFrames.Socket.HandleFrames | comet/comet_server.cpp:1040-1105 | the loop emits exactly the items of the buffer, in order, and keeps exactly the leftover |
| SseParser.FeedTwice | hermes_bridge/sse_parser.cpp:45-74 | within the buffer limit, two feeds equal one feed of the concatenation: fields, callbacks, failure and leftover |
| SseParser.DivisionMattersExactlyWhen | hermes_bridge/sse_parser.cpp:45-74 | for streams of any length: a division is read as the stream itself, in fields, callbacks, failure and leftover, if and only if no arrival finds the buffer too full |
| SseParser.ChunkingIrrelevant | hermes_bridge/sse_parser.cpp:45-74 | so any two fitting divisions of any stream agree |
| SseParser.ShortStreams | hermes_bridge/sse_parser.cpp:45-74 | and every division of a stream within the limit agrees with its arrival at once |
| SseParser.FinishIgnoresChunking | hermes_bridge/sse_parser.cpp:76-93 | the outcome of Finish is the same for any two fitting divisions of any stream |
| SseParser.LimitMatters | hermes_bridge/sse_parser.cpp:50-53 | a stream that fits in pieces and not at once |
| SseParser.SuccessIsTerminal | hermes_bridge/sse_parser.cpp:76-206 | Finish succeeds only if the end marker came once and last after a final or a stop; the text is the one agreed answer or else all deltas, non-empty and within 16 MiB |
| SseStreams.SucceedsExactlyWhen | hermes_bridge/sse_parser.cpp:45-206 | the stream of any events and the end marker, in any fitting division, succeeds if and only if no event is bad, nothing is said after an end, all final answers agree, not too much is said, there is an end and there is an answer; then text, metadata, citations, finish reason, chunk count and the whole callback sequence are those of the events |
| SseStreams.FinalAnswerIsRead | hermes_bridge/sse_parser.cpp:149-173 | a well-formed final answer followed by the end marker is what the caller gets |
| SseStreams.DeltasAreRead | hermes_bridge/sse_parser.cpp:174-202 | pieces of text ended by the reason stop are what the caller gets |
| SseStreams.AgentErrorIsReported | hermes_bridge/sse_parser.cpp:122-134 | an error of the agent after a faultless beginning is reported as such whatever follows, and its status survives the clearing of the result |
| SseStreams.SpaceAfterData | hermes_bridge/sse_parser.cpp:64-70 | one space after the colon of a data field belongs to the syntax |
| SseStreams.SpaceAfterEvent | hermes_bridge/sse_parser.cpp:61-63 | and after that of an event field |
| SseStreams.OtherLines | hermes_bridge/sse_parser.cpp:57-71 | a line break may be written with a carriage return; other fields and comments mean nothing |
| SseStreams.WrittenRead | hermes_bridge/sse_parser.cpp:45-74 | lines in any fitting division are handled in order with nothing left over |
| SseStreams.FinishClosesLine | hermes_bridge/sse_parser.cpp:80-84 | the last line break, and the blank line after the last event, may be missing |
| SseStreams.FailuresAreNamed | hermes_bridge/sse_parser.cpp:115-206 | what is reported for each event that no stream survives |
| SseStreams.EndingsAreNamed | hermes_bridge/sse_parser.cpp:85-114 | what is reported when there was no end or no answer |
| SseParser.FailureAbsorbs | hermes_bridge/sse_parser.cpp:27-43 | after a failure nothing changes, whatever is fed or finished |
| SseParser.FailureClears | hermes_bridge/sse_parser.cpp:27-43 | every failure clears text, citations and metadata |
| SseParser.HermesSseParser.Feed | hermes_bridge/sse_parser.cpp:45-74 | the loop over complete lines computes the specification, up to the leftover after a failure |
| SseParser.HermesSseParser.DispatchEvent | hermes_bridge/sse_parser.cpp:95-206 | one dispatched event, the end marker or a decoded one, changes the fields as specified |
| SseParser.HermesSseParser.Handle | hermes_bridge/sse_parser.cpp:117-206 | every kind of event changes the fields and calls back as specified |
| SseParser.HermesSseParser.HandleFinal | hermes_bridge/sse_parser.cpp:149-173 | a final answer is taken over, or refused for its type, size, metadata or a conflict with the one before |
| SseParser.HermesSseParser.HandleChoice | hermes_bridge/sse_parser.cpp:174-202 | a piece of text is appended and shown unless it is late or too long; only the reason stop ends the text |
| SseParser.HermesSseParser.Finish | hermes_bridge/sse_parser.cpp:76-93 | the verdict and the fields after the last line and event |
| Base64.DecodeBase64 | common/image_attachment.cpp:53-74 | the loop with a wrapping 32-bit accumulator decodes in groups of four digits, and fails with empty output exactly for illegal text |
| Base64.FailsExactlyWhen | common/image_attachment.cpp:58-65 | decoding fails if and only if a foreign character stands before the first padding character |
| Base64.WhiteSpaceIsSkipped | common/image_attachment.cpp:58-60 | each of the six white space characters may stand anywhere |
| Base64.ForeignCharacterFails | common/image_attachment.cpp:60-65 | any other character outside the alphabet before the padding makes decoding fail |
| Base64.WrapKeepsLowBits | common/image_attachment.cpp:66-71 | the low bits of the wrapped accumulator are those of an unbounded one |
| Base64.RoundTrip | common/image_attachment.cpp:53-102 | white space may be put anywhere into the encoding of any bytes; decoding returns the bytes |
| Base64.SextetsOfBytes | common/image_attachment.cpp:53-102 | encoding what was decoded gives the digits back if and only if there is no stray digit and no non-zero spare bit |
| Base64.EncodeBase64 | common/image_attachment.cpp:76-102 | the attachment encoder writes the specified encoding |
| Base64.Examples | common/image_attachment.cpp:76-102 | the examples of RFC 4648 section 10, and the two digits that are no letters or numbers |
| Base64.HandshakeEncode | comet/comet_server.cpp:63-98 | the handshake encoder writes the same encoding on every input |
| ConnectionPool.NormalisedSizes | common/mysql_pool.cpp:125-132 | normalised sizes satisfy 1 <= min <= max, and sizes that do are kept |
| ConnectionPool.SizesNotGiven | common/mysql_pool.cpp:125-132 | sizes that are not given come from the pool size |
| ConnectionPool.CleanupExact | common/mysql_pool.cpp:257-276 | cleanup closes only expired connections, never goes below the minimum, and leaves an expired one only at the minimum |
| ConnectionPool.RunInv | common/mysql_pool.cpp:171-223 | in every interleaving the count is idle plus lent plus created or checked and within the limit, no connection is shared, the idle queue is ordered by last use |
| ConnectionPool.BlockedExactlyWhen | common/redis_pool.cpp:132-171 | a caller gets neither a connection nor room for one exactly when none is idle and callers hold the whole capacity |
| ConnectionPool.AskExactly | common/mysql_pool.cpp:171-183 | a caller gets the connection used least recently of those the cleanup leaves; it must be checked exactly if MySQL pings on borrowing or Redis finds it unused for the check interval; with none left, room is reserved exactly below the limit |
| ConnectionPool.CheckedExactly | common/mysql_pool.cpp:186-196 | a connection is lent after its check if and only if the pool is not stopping and it answered or did not have to; otherwise it is gone and its place is free |
| ConnectionPool.CreatedExactly | common/redis_pool.cpp:141-160 | a new connection is lent without a check, and a failed connect gives its place back |
| ConnectionPool.GiveBackExactly | common/redis_pool.cpp:256-278 | a returned connection is the last of the idle queue, unless the pool is stopping or it is a Redis connection in error |
| ConnectionPool.DeadStaysOut | common/mysql_pool.cpp:186-196 | over runs: a connection that failed a check it had to pass, or a Redis connection returned in error, is neither lent nor idle until a connect brings it in again |
| ConnectionPool.ServedWhenHealthy | common/mysql_pool.cpp:171-200 | unless callers hold the whole capacity, a caller of a running pool gets a connection when connects and checks succeed |
| ConnectionPool.StoppedOnlyShrinks | common/redis_pool.cpp:132-177 | after Stop nothing more is lent and the count never rises |
| ConnectionPool.NothingLentAfterStop | common/redis_pool.cpp:173-177 | after Stop only callers that had a connection before still have one |
| ConnectionPool.StoppedDrains | common/mysql_pool.cpp:208-233 | when all callers of a stopped pool are done, the count is that of the idle connections |
| ConnectionPool.StartInv | common/mysql_pool.cpp:119-154 | a successful Init establishes the invariant |
| ConnectionPool.Pool.Init | common/redis_pool.cpp:97-129 | the minimum number of connections, or none: on a failure exactly those already made are closed again |
| ConnectionPool.Pool.CleanupIdle | common/mysql_pool.cpp:257-276 | the loop takes exactly the expiring entries off the front |
| ConnectionPool.Pool.TakeOrReserve | common/redis_pool.cpp:132-147 | an idle connection, room for a new one reserved under the lock, or neither |
| ConnectionPool.Pool.AfterCreate | common/mysql_pool.cpp:177-185 | a failed connect gives its reservation back |
| ConnectionPool.Pool.AfterCheck | common/mysql_pool.cpp:186-196 | a checked connection is handed out unless it is dead or the pool has stopped |
| ConnectionPool.Pool.Release | common/redis_pool.cpp:256-278 | back to the idle queue, or closed when stopped or broken |
| RateLimiter.SceneRateLimiter.Allow | common/rate_limiter.cpp:30-62 | decision and buckets after one call, for every scene and reading |
| RateLimiter.WindowBound | common/rate_limiter.cpp:30-62 | in every window of every run a bucket admits at most burst + rate * (latest - earliest reading), although readings may come out of order; a closed rule admits nothing |
| RateLimiter.AdmitsWholeTokens | common/rate_limiter.cpp:43-61 | after any run, of n calls at one time a bucket admits exactly as many as it has whole tokens |
| RateLimiter.NewCallerGetsBurst | common/rate_limiter.cpp:14-50 | a new caller gets exactly the burst configured for single chats, for broadcasts, or for groups, which is also that of every other scene, and nothing if rate or burst is not positive |
| RateLimiter.RefusalLeavesNoTrace | common/rate_limiter.cpp:51-61 | a refused call changes no later decision of any caller, in whatever order the readings are, provided the calls that share its bucket have neutral rules |
| RateLimiter.PlainNeutral | common/rate_limiter.cpp:39-43 | scenes without a colon always do |
| RateLimiter.NeutralExactlyWhen | common/rate_limiter.cpp:51-61 | for a later rule that admits anything, neutral is exactly what is needed: otherwise some refused call changes some later decision |
| RateLimiter.PatientNeverRefused | common/rate_limiter.cpp:51-61 | a caller that leaves 1/rate between its calls, with burst at least 1, is never refused whatever others do |
| RateLimiter.ZeroReadingUnlimited | common/rate_limiter.cpp:43-50 | at clock reading 0 any number of calls is admitted |
| RateLimiter.PlainScenesApart | common/rate_limiter.cpp:39-43 | scenes without a colon share a bucket only for the same scene and key |
| RateLimiter.PlainOneRule | common/rate_limiter.cpp:14-23 | so with such scenes every call on a bucket is subject to one rule |
| RateLimiter.ColonScenesCollide | common/rate_limiter.cpp:39-43 | every scene with a colon shares buckets with another scene |
| PromptPlan.FoldFromCut | logic/hermes_command.cpp:100-171 | the fold is: messages said from the entry that confirmed the latest start on, and the last model snapshot from there on |
| PromptPlan.FoldWithoutCut | logic/hermes_command.cpp:100-171 | with nothing confirmed: all messages, the last snapshot, start 0 |
| PromptPlan.CutExists | logic/hermes_command.cpp:100-171 | one of the two always applies |
| PromptPlan.StartIsLargestCut | logic/hermes_command.cpp:100-118 | the context start is the largest confirmed number |
| PromptPlan.StartNeverDecreases | logic/hermes_command.cpp:100-118 | it never decreases as the conversation grows |
| PromptPlan.InertExactlyWhen | logic/hermes_command.cpp:122-170 | a user entry changes nothing, whatever came before, if and only if it has no snapshot and neither prompts nor asks for a new context |
| PromptPlan.ErasingInert | logic/hermes_command.cpp:122-170 | such entries can be erased anywhere without changing the fold |
| PromptPlan.LimitedIsLongest | logic/hermes_command.cpp:173-190 | what is kept is the one longest suffix within the budget, or the last message alone |
| PromptPlan.PromptKeepsInput | logic/hermes_command.cpp:294-382 | the prompt is the longest fitting end of the context followed by the whole current input |
| PromptPlan.ChosenIsWhatWasTyped | logic/hermes_command.cpp:42-98 | whatever model was in force, an accepted /model leaves it or puts the well-formed provider:model that was typed in force, and a rejected one puts none |
| PromptPlan.RejectedKeepsModel | logic/hermes_command.cpp:42-98 | rejected arguments keep the override flag, and provider and model too unless they had already been split at a colon |
| PromptPlan.RejectedChangesExactlyWhen | logic/hermes_command.cpp:58-95 | arguments can be rejected and still change the model state if and only if they are a provider listing with a second colon or provider:model with an empty half |
| PromptPlan.RejectedMayChangeModel | logic/hermes_command.cpp:84-95 | a rejected argument that changes the model in force |
| PromptPlan.Plan.ApplyPersistedEntry | logic/hermes_command.cpp:100-171 | one entry updates the plan as the fold does |
| PromptPlan.Plan.LimitPrompt | logic/hermes_command.cpp:173-190 | the walk from the newest message computes the limited prompt and its size |
| PromptPlan.Interpret | logic/hermes_command.cpp:302-377 | what each command adds to the plan |
| PromptPlan.BuildPlan | logic/hermes_command.cpp:294-382 | history, command and limit together give the planned result |
| PromptCommands.CommandIsRead | logic/hermes_command.cpp:194-252 | a command may have blanks around it and around its arguments and any letter case; it has a kind exactly if its word is one of the words for it, and an alias is reported under one name |
| PromptCommands.WordsAreKinds | logic/hermes_command.cpp:211-250 | each kind of command has exactly its words, and every other word is unknown |
| PromptCommands.PlainIsNoCommand | logic/hermes_command.cpp:194-197 | a text that does not begin with a slash is no command |
| PromptCommands.NamesReadBack | logic/hermes_command.cpp:254-292 | the reported name of a command, typed, is that command again, except for creative commands |
| PromptCommands.LocalCommands | logic/hermes_command.cpp:308-377 | whatever is neither a question nor a retry stays local: no model call, nothing added, and only /model touches the model state |
| PromptCommands.ConfirmationCommands | logic/hermes_command.cpp:308-319 | /new and /restart accept no argument or a confirmation |
| PromptCommands.RetryCommand | logic/hermes_command.cpp:331-342 | a confirmed /retry calls the model on the context as it is, and any other does not |
| PromptCommands.KnowledgeQuestions | logic/hermes_command.cpp:343-361 | a question goes to the model with retrieval forced and is the last message; an empty one and a /kb that would change the base are refused |
| PromptCommands.ManagementVerbs | logic/hermes_command.cpp:32-40 | which is decided by the first word of the arguments in any letter case |
| PromptCommands.LaterContext | logic/hermes_command.cpp:122-170 | what a typed text adds to later prompts is the text itself, exactly if it was prompted or was a refused question to the knowledge base |
| PromptCommands.ConfirmedNewStartsOver | logic/hermes_command.cpp:100-118 | a /new in any spelling starts the context and the model over when the assistant confirms it and not before |
| PromptCommands.ReportedState | logic/hermes_command.cpp:100-126 | reported context starts and model snapshots are taken over |
| PromptCommands.TypedModelIsChosen | logic/hermes_command.cpp:84-97 | a well-formed provider:model is accepted and chosen |
| PromptCommands.OtherModelArguments | logic/hermes_command.cpp:45-67 | asking changes nothing, default and reset go back to the default, and a listing leaves no model chosen |
| PromptCommands.ControlCharactersRefused | logic/hermes_command.cpp:68-74 | arguments with a blank or a control character inside are refused |
| PromptCommands.ContextIsCounted | logic/hermes_command.cpp:379-380 | the plan counts the messages before the budget is applied |

## Left out

- RefusalLeavesNoTrace: for neutral rules, which every two scenes without a colon have; NeutralExactlyWhen says what the others can do to each other.
- WindowBound: for clock readings other than 0 and one rule per bucket; `PlainOneRule` shows that scenes without a colon have one. Readings need not be in order, since Allow reads the clock before it takes the lock.
- StoppedDrains: connections idle at Stop stay in the count until the pool is destroyed, as in the code; destruction is not modelled.
- Release: of no connection at all; both guards release only real ones (`common/mysql_pool.cpp:40-44`, `common/redis_pool.cpp:15-19`).
- The periodic revalidation of rooms, which later removes a user that a revocation missed.
- Kafka: automatic offset commits, gaps in offsets after compaction or transactions, rebalances, and the time between retries.
- Parsing of Kafka payloads into push requests, and the split of a scene into per-node requests (`job/service.cpp:583-606` beyond its verdict).
- A restart of Comet, which empties the recent window; the once-per-window property is about one lifetime.
- Wrap-around of 64-bit counters (request ids, generations) and of the byte counters, which their limits keep small.
- Shutdown of streams and destruction of pools, parsers and threads; liveness and real time: clock readings are arbitrary, or monotone where a property says so.
- A join or leave notice whose RPC fails, which is logged and not repeated, and what Logic does with the notices.
- Slow-connection closing, and delivery counts of PushToUsers.
- Batching of membership queries in FilterRoomUsers by 1000 users; an answer is one arbitrary boolean per user.
- JSON decoding and the checks on agent events in the event-stream parser: an arbitrary function from event name and data to a decoded event.
- Null result pointers in the event-stream parser and the decoders; callers always pass one.
- WebSocket handshake, TLS, SHA-1 and the UTF-8 validity of text frames; fragmented frames are refused by the code and so by the model.
- The raw socket under the client's reader: a read error at byte n is an input that ends at n.
- Rounding of floating-point numbers in the token bucket; rates and tokens are real numbers.
- Redis reads the clock twice in one section of Acquire; the model uses one reading for cleanup and health check.
- Growth of the rate limiter's bucket map, metrics, logging, configuration and administration endpoints.
- Sequence allocation, safe prefix and delivered watermark, whose SQL bodies are elsewhere.
