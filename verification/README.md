# FerroMQ: a verified model of its replication, storage and protocol logic

This project models the parts of FerroMQ whose correctness does not show in any single function, and
proves what they guarantee over every run and every input.

- **Replicated-log driver** (`Batching`, `Selection`, `Driver`, `BatchTiming`, `Replies`, `ClientAnswers`,
  `RaftNodeLoop`): a node collects client proposals into batches, numbers each batch, parks the reply
  channels under that number, hands the batch to the log and later unpacks committed entries, applies
  them and answers the clients. The batch is reversed when it is taken and popped from the end when it
  is applied. The driver is a state machine (requests, idle timeouts, replication of other nodes' and
  of its own entries, truncation of the uncommitted tail, restored snapshots, commits) and a class
  whose handlers are proved to take exactly its steps.
- **Snapshots across a cluster** (`LogStorage`, `Cluster`, `SnapshotOrigin`, `Retention`, `StoreLaw`):
  snapshots carry a label that can be older than their data, are read by spawned tasks, compact the log
  and restore followers that make snapshots of their own. The store is any type with any `apply`: in
  every run of the cluster every snapshot is sound if and only if a repeated block of operations does
  nothing to the store.
- **Small pieces of the driver** (`Breaker`, `Availability`, `TimeoutWindow`, `Heartbeat`).
- **Redis storage** (`RedisIndex`, `RedisList`, `RedisMap`): the sorted set behind `len`, limited
  pushes, paged iteration and prefix deletion.
- **MQTT bytes** (`VarInt`, `Utf8`, `Fields`, `Version`), **the shared counter** (`Counter`) and **the
  WebSocket reader** (`WsStream`).

Several promises turn out not to hold unconditionally. Each comes with a failing case and the exact
condition under which the code meets it:

- A batch is first in, first out unless the batch size is one and more than one proposal is queued
  (`TakeIsFifoIff`); no run of the driver gets there (`BatchingKeepsBatches`).
- Committed proposals are first in, first out unless own entries return by replication in another
  order (`CommitsAreFifoIff`, `IncreasingStepIff`, `ReturningEntriesSwap`).
- A client is answered with its own result unless another node's entry commits under a parked number
  (`EntryIsHarmlessIff`, `CollidingNumberMisdirectsReply`).
- The served snapshot and the retained log leave no gap unless a snapshot served earlier made the log
  forget an entry after the present label (`NoGapIff`, `LateSnapshotLeavesGap`, `LateSnapshotIsReachable`).
- A node that reports the cluster available by counting reaches a majority unless its own entry is
  marked down, where the count is one short or wraps around (`ReportsMajorityIff`,
  `AvailableNodesOverlapIff`, `EverybodyDownIsAvailable`).
- The length of the key-value store counts every live key but those at their deadline whose score is
  gone (`LenMissesExactly`, `ExpiringKeyIsMissed`).
- The recorder's window count is right unless a bucket was restarted too early or is seen too late
  (`CountIsExactIff`, `EarlyReuseUndercounts`).

The same form is used for the length index (`StaysExactIff`, `LenIsExact`), the list limit
(`PushesStayWithinLimitIff`) and the stores that tolerate a lagging snapshot label
(`SnapshotsAreSoundIff`, `LagIsSafeIff`).

## How the outside appears

The consensus library is a log that appends a proposal or not (it may refuse it, or forward it to
another node), receives entries by replication, may replace its uncommitted tail, hands out committed
entries once and in order, and installs a snapshot only ahead of what it has committed. Clock
readings, the answers of remote peers, leadership and load checks, channel cancellation, the server's choice during a scan and its pattern matching are parameters, so every
theorem holds for all of them. In the key-value model the client and the server share one clock, and
an expiring key is live up to and including its deadline. Unsigned subtraction in the availability
check wraps around, as in a release build; a build with overflow checks stops there instead. A command that fails inside an atomic
pipeline changes nothing, and the other commands of the pipeline still take effect.

## Where code and comments differ

The model follows the code.

- The comment on the variable-length reader gives 0xFFFFFF7F as the largest value; that is its encoding, the value is 268,435,455.
- The version detector's comments tie each protocol name to certain levels; the code accepts any of the three levels with either name.
- The timeout recorder is described as spreading events over its buckets; the code computes the bucket from a time span that is always about zero.
- The availability check is described as counting the other nodes; the code deducts the node's own entry even when it was not counted.
- The page size of the list iterator is 20 in name; its inclusive bounds read 21 values.

## Model

| member | source | states |
|---|---|---|
| `Batching.Merger.Add` | ferromq-raft/src/message.rs:248-251 | a proposal and its channel join the queue together, at its end |
| `Batching.Merger.Take` | ferromq-raft/src/message.rs:267-297 | a batch leaves exactly when something is queued and it fills a batch or the clock is past the start of the collection plus the timeout; payload and channels are the same items in the same order, and the rest of the queue stays |
| `Batching.TakeIsFifoIff` | ferromq-raft/src/message.rs:267-291 | what leaves and what stays are the queue in order if and only if it is not over-full with batch size one |
| `Batching.TakeEmptiesQueue` | ferromq-raft/src/message.rs:268-285 | a queue of at most one batch leaves entirely |
| `Batching.PackInOrder` | ferromq-raft/src/message.rs:279-285 | reversing a batch and popping it from the end restores arrival order, for proposals and channels |
| `Driver.HandleCalls` | ferromq-raft/src/raft_node.rs:1207-1285 | a committed entry makes the store apply exactly its proposals, oldest first, whatever is parked or canceled |
| `Driver.TakeAndProposeOrder` | ferromq-raft/src/raft_node.rs:793-802 | taking a batch and proposing it, appended or not, keeps the queue below the batch size, the accepted proposals in order and every logged batch tied to its number |
| `Driver.OrderStep` | ferromq-raft/src/raft_node.rs:829-965 | every event keeps that: requests, idle timeouts, replication of foreign and of own entries, truncation, a restored snapshot, commits |
| `Driver.BatchingKeepsBatches` | ferromq-raft/src/raft_node.rs:1199-1285 | in every state of every run the store calls since the last snapshot are those of the committed entries, the accepted proposals are the numbered batches followed by the queue, and each entry of this node holds exactly the items of its number |
| `Driver.CommitsAreFifoIff` | ferromq-raft/src/raft_node.rs:793-802 | in every run the items of this node's committed batches are an in-order selection of the accepted proposals if and only if the numbers of those batches go up |
| `Driver.CallsAreOwnItems` | ferromq-raft/src/raft_node.rs:1199-1285 | with one proposer the store calls since the last snapshot are exactly those items, refused and truncated batches left out |
| `Driver.IncreasingStepIff` | ferromq-raft/src/raft_node.rs:905-964 | an event puts own entries out of order if and only if one returns by replication behind an equal or higher number |
| `Driver.DirectRunsIncrease` | ferromq-raft/src/raft_node.rs:905-920 | in every run without returning own entries the numbers go up and commits are first in, first out |
| `Driver.ReturningEntriesSwap` | ferromq-raft/src/raft_node.rs:962-964 | for any two proposals a run in which they return the other way round and are applied that way |
| `Selection.SelectedIff` | ferromq-raft/src/message.rs:267-291 | non-empty batches taken out of a sequence of distinct items are an in-order selection of it if and only if their numbers go up |
| `Driver.LossFreeRunIsFifo` | ferromq-raft/src/raft_node.rs:905-920 | with one proposer, rising numbers and nothing refused or truncated, store calls since the last snapshot, log and queue together are the accepted proposals in arrival order |
| `Driver.MembershipFollowsLog` | ferromq-raft/src/raft_node.rs:1134-1160 | the peers a node knows and whether it quits depend on its committed log since the last snapshot alone |
| `Driver.EntriesAreHandledOnce` | ferromq-raft/src/raft_node.rs:1006-1063 | in every run, since the last restored snapshot as many entries were handled as commits happened, each the next of the log, and the log holds nothing from before |
| `BatchTiming.BatchLeavesExactlyWhenDue` | ferromq-raft/src/message.rs:267-297 | in every run, at every accepted proposal and idle loop, the whole queue takes the next number, is parked and proposed in order if it fills a batch or its collection time is over, and otherwise queue, table, numbers and log stay |
| `BatchTiming.NumberedIffDue` | ferromq-raft/src/raft_node.rs:793-802 | in every run a queued proposal has a number later if and only if a batch was due in between |
| `BatchTiming.NoProposalOutwaitsTheTimeout` | ferromq-raft/src/raft_node.rs:962-964 | in every run an accepted proposal has a number after the first idle loop or accepted proposal past the start of its collection plus the timeout |
| `Replies.DrainItems` | ferromq-raft/src/raft_node.rs:1247-1284 | draining a batch side by side with its channels gives each waiting client the result of its own proposal and drops the canceled ones |
| `Replies.HandleKeepsChans` | ferromq-raft/src/raft_node.rs:1207-1284 | a committed entry, whoever proposed it and whatever shapes payload and parked channels have, settles the parked channels without losing or adding one |
| `Replies.TableStep` | ferromq-raft/src/raft_node.rs:829-965 | every event of any run keeps parked shapes and the whereabouts of every channel |
| `Replies.ReplyStep` | ferromq-raft/src/raft_node.rs:829-965 | every event that commits no foreign entry under a parked number keeps results with their proposers |
| `Replies.EveryChannelInOnePlace` | ferromq-raft/src/raft_node.rs:1207-1284 | in every run, contested or not, every channel received is in exactly one of queue, table, answered or dropped, exactly once, and no other channel is anywhere |
| `Replies.ResultsGoToTheirProposers` | ferromq-raft/src/raft_node.rs:1219-1244 | in runs where no foreign entry commits under a parked number, a result is only sent to the client whose own proposal, told apart from equal ones of others, that store call carried out |
| `Replies.ParkedShapesMatch` | ferromq-raft/src/raft_node.rs:795-796 | in every run, parked numbers are below the next one and hold exactly the channels of their batch, in its shape |
| `Replies.ParkedUntilCommitted` | ferromq-raft/src/raft_node.rs:1207-1210 | in every run a number is parked if and only if it was given out and no entry with it has committed since |
| `Replies.CommittedBatchIsAnswered` | ferromq-raft/src/raft_node.rs:1247-1284 | in every run, when a node's own batch commits, its clients are answered in arrival order with the results of their own calls, canceled ones dropped, if and only if no entry with its number committed before; otherwise nobody is |
| `Replies.EntryIsHarmlessIff` | ferromq-raft/src/raft_node.rs:1207-1210 | in every run, a committing entry leaves this node's clients alone if and only if it is blank or its number is not parked |
| `Replies.CollidingNumberMisdirectsReply` | ferromq-raft/src/raft_node.rs:1207-1244 | a run in which a client is answered with the result of somebody else's proposal |
| `ClientAnswers.DrainSettles` | ferromq-raft/src/raft_node.rs:1247-1284 | payload and channels of any two lengths are popped side by side: clients get the results of the calls in order, canceled and surplus ones are dropped |
| `ClientAnswers.ClientsAreTold` | ferromq-raft/src/raft_node.rs:829-965 | at every event of every run, all that clients are told: wrong leader, busy, the results of a committed batch to those waiting under its number in order, or their dropping when the shapes differ, the outcome of a committed change; nobody else is told or dropped |
| `ClientAnswers.CommittedChangeIsAnswered` | ferromq-raft/src/raft_node.rs:1178-1194 | in every run, when a node's own change commits, exactly its client is answered, with the peers after an addition, with success for a removal, with a refusal otherwise, if and only if no entry with its number committed before |
| `RaftNodeLoop.RaftNode.constructor` | ferromq-raft/src/raft_node.rs:476-501 | a node starts with nothing queued, parked, logged or answered and number 0 |
| `RaftNodeLoop.RaftNode.TakeAndPropose` | ferromq-raft/src/raft_node.rs:793-802 | the code takes the step whose order and reply laws are proved |
| `RaftNodeLoop.RaftNode.OnPropose` | ferromq-raft/src/raft_node.rs:905-916 | a request is turned away, or queued and possibly proposed, as the step says |
| `RaftNodeLoop.RaftNode.OnConfigChange` | ferromq-raft/src/raft_node.rs:836-864 | a configuration change takes a number and parks one channel, or is turned away |
| `RaftNodeLoop.RaftNode.HandleNormal` | ferromq-raft/src/raft_node.rs:1199-1285 | the popping loops do what the drain specification says, for every shape of parked channels |
| `RaftNodeLoop.RaftNode.HandleConfigChange` | ferromq-raft/src/raft_node.rs:1134-1194 | the code takes the step whose membership and answers are proved: peers, quitting and the reply follow the change |
| `RaftNodeLoop.RaftNode.Restore` | ferromq-raft/src/raft_node.rs:1018-1029 | a received snapshot takes the place of the log and leaves queue, table, clients and the record of past store calls alone |
| `RaftNodeLoop.RaftNode.HandleCommittedEntries` | ferromq-raft/src/raft_node.rs:1087-1101 | a list of entries is handled one after the other, blank ones skipped |
| `LogStorage.SetSnapshotNoGapIff` | ferromq-raft/src/storage.rs:152-190 | after serving or receiving a snapshot the log reaches back to it if and only if it did before, and always when labels do not fall |
| `LogStorage.MemStorage.Append` | ferromq-raft/raft-rs/src/storage.rs:322-345 | new entries replace those from their first index on and all others stay |
| `LogStorage.MemStorage.Compact` | ferromq-raft/raft-rs/src/storage.rs:292-314 | only entries before the index go, all others keep their index; one past the last entry the log is empty and begins after its last reset again |
| `LogStorage.MemStorage.ApplyReceived` | ferromq-raft/src/storage.rs:167-174 | a received snapshot replaces the held one and resets the log, unless the log is past it |
| `LogStorage.MemStorage.Install` | ferromq-raft/src/raft_node.rs:1351-1359 | the node's own snapshot is served and the log begins at it, losing no later entry, if and only if its label is not one past the last entry |
| `StoreLaw.PartIsAbsorbed` | ferromq-raft/src/raft_node.rs:1295-1317 | for a store that forgives a repeated block, repeating a part between two rounds of the whole does nothing |
| `StoreLaw.ReadingOnGivesTheLog` | ferromq-raft/src/raft_node.rs:1018-1031 | for such a store any reading of a log that never skips an entry, however often it goes back, ends with what one reading gives |
| `StoreLaw.HashStoreForgivesRepeats` | ferromq-raft/README.md:46-86 | the last-writer-wins store is such a store |
| `Cluster.InvStep` | ferromq-raft/src/raft_node.rs:1006-1063 | whatever the store, every step, a read in the middle of an entry included, keeps stores, held, unread and travelling snapshots the outcome of a reading of the operations without skips that got at least as far as the label |
| `Cluster.SnapshotsAreSoundIff` | ferromq-raft/src/raft_node.rs:1319-1349 | whatever the store, every snapshot held or sent in every run, also one read in the middle of an entry, rebuilds the full store from the entries after its label, if and only if a repeated block of operations does nothing |
| `Cluster.HashStoreSnapshotsAreSound` | ferromq-raft/README.md:46-86 | so every snapshot of the last-writer-wins store is sound in every run |
| `Cluster.LabelsNeverLeadTheStore` | ferromq-raft/src/raft_node.rs:1295-1349 | a label never exceeds the log position of the store its data is read from (the exact label is `DeliveredIsWhatWasBegun`) |
| `Cluster.ReplicasConverge` | ferromq-raft/src/raft_node.rs:1018-1031 | with such a store, nodes that applied the whole log hold the same store, the one the whole log gives, whatever snapshots they were built from |
| `SnapshotOrigin.DeliveredIsWhatWasBegun` | ferromq-raft/src/raft_node.rs:1319-1359 | in every run a snapshot begun at one step and delivered at another is served with the index applied when it was begun and the store of the step at which it was read, and the log begins at that index or already later |
| `SnapshotOrigin.HeldIsLastServed` | ferromq-raft/src/raft_node.rs:1295-1359 | in every run what a node serves comes from its last serving step: a spawned snapshot as begun and read, one made at once with the index and store of that moment, or one received as it was held when sent |
| `SnapshotOrigin.RestoredServesTheSame` | ferromq-raft/src/raft_node.rs:1018-1029 | a restored node that serves a snapshot at once serves the one it received, and keeps only entries after it |
| `SnapshotOrigin.EveryNodeCanCatchUp` | ferromq-raft/src/raft_node.rs:1006-1063 | from every reachable state every node, a new one included, can get to the end of the log, and then holds what the whole log gives if repeats are harmless |
| `Retention.FirstIsHighestFloor` | ferromq-raft/src/storage.rs:152-190 | in every run the log starts at the highest label served so far, or one after the highest label received |
| `Retention.NoGapIff` | ferromq-raft/src/raft_node.rs:1351-1359 | in every run the held snapshot and the log leave no gap if and only if no snapshot served or received before made the log forget an entry after the held label |
| `Retention.SnapshotAndLogCoverEverything` | ferromq-raft/src/raft_node.rs:1167-1170 | in runs that serve snapshots in label order, a node's snapshot and the entries it retains itself rebuild its own store, in the middle of an entry too, and with the rest of the cluster's log the full store |
| `Retention.LateSnapshotLeavesGap` | ferromq-raft/src/raft_node.rs:947-949 | whenever a spawned snapshot has fallen two behind, serving one at once and then the late one leaves a gap |
| `Retention.LateSnapshotIsReachable` | ferromq-raft/src/raft_node.rs:1319-1324 | a run reaches such a state |
| `StoreLaw.LagIsSafeIff` | ferromq-raft/src/raft_node.rs:1295-1317 | one restore from a lagging label is safe for exactly the stores that do not notice a repeated block |
| `StoreLaw.AddingStoreIsNotSafe` | ferromq-raft/src/raft_node.rs:1295-1317 | a store that adds up its operations is not one of them |
| `Breaker.Peer.Send` | ferromq-raft/src/raft_node.rs:306-327 | a call goes out if and only if the breaker is open to it, and its result moves the breaker |
| `Breaker.FailsAreTheStreak` | ferromq-raft/src/raft_node.rs:396-405 | the failure count is the length of the failure streak among the calls let through |
| `Breaker.LetThroughIff` | ferromq-raft/src/raft_node.rs:412-418 | in every run a call is let through if and only if the failure streak is below the threshold or more than the retry interval has passed since the last recorded failure |
| `Breaker.FailureRateIsBounded` | ferromq-raft/src/raft_node.rs:412-418 | in any window without a success at most the threshold (or one, if it is zero) plus one call per retry interval fail, however often the peer is called |
| `Availability.ReportsMajorityIff` | ferromq-raft/src/message.rs:99-147 | the counting branches report a strict majority exactly, if and only if the own entry is not marked down, or nobody is up in a cluster of one, or somebody is up but not exactly half of the peers, rounded down |
| `Availability.FollowersReachTheirLeader` | ferromq-raft/src/message.rs:111-119 | a node with a leader that does not lead itself reports exactly whether that leader is up, so two such nodes reach a common one |
| `Availability.AvailableNodesOverlapIff` | ferromq-raft/src/message.rs:120-147 | two nodes of one cluster that report it available this way reach a common node if and only if each of them whose count wraps around is within reach of the other |
| `Availability.EverybodyDownIsAvailable` | ferromq-raft/src/message.rs:134-147 | with everybody down two nodes report available and share nobody |
| `TimeoutWindow.TimeoutRecorder.Record` | ferromq-raft/src/timeout_recorder.rs:62-76 | an event resets an old bucket and is counted in it |
| `TimeoutWindow.TimeoutRecorder.Count` | ferromq-raft/src/timeout_recorder.rs:81-88 | the count is the sum of the buckets young enough |
| `TimeoutWindow.CountsNeverOverstate` | ferromq-raft/src/timeout_recorder.rs:62-94 | at any instant and for any bucket choice neither the window count nor the recent count exceeds the events of its span, the recent one never exceeds the window one, and the maximum is the number of all events |
| `TimeoutWindow.CountIsExactIff` | ferromq-raft/src/timeout_recorder.rs:62-88 | for any bucket choice and at any instant the window count is the number of events in the window if and only if each of them is in the present epoch of its bucket, as the event times alone tell it, and that began within the window |
| `TimeoutWindow.EpochIsCounted` | ferromq-raft/src/timeout_recorder.rs:138-147 | at any instant the recent count is the number of events in the epoch of the bucket up to a bucket length after that began, and zero later; the window count has all of them while the epoch began within the window |
| `TimeoutWindow.BurstIsCounted` | ferromq-raft/src/timeout_recorder.rs:62-76 | events put in one bucket sooner than a bucket length after the one that began its epoch are all in the recent and the window count at the last of them |
| `TimeoutWindow.FirstBurstIsCounted` | ferromq-raft/src/timeout_recorder.rs:42-76 | of the events sooner than a bucket length after the start none is forgotten |
| `TimeoutWindow.EarlyReuseUndercounts` | ferromq-raft/src/timeout_recorder.rs:62-76 | so whenever an event finds its bucket in use and a bucket length but not more than a window old, the count falls short |
| `Heartbeat.Run` | ferromq-raft/src/raft_node.rs:967-984 | the loop keeps the remaining period and the tick count of the specification |
| `Heartbeat.LeftIsExact` | ferromq-raft/src/raft_node.rs:967-984 | what is left is the period minus the time since the last tick, and is never used up except by a period of zero |
| `Heartbeat.TicksExactlyWhenDue` | ferromq-raft/src/raft_node.rs:970-984 | a tick fires in exactly the iterations that bring the time since the last one to the period |
| `Heartbeat.NoExtraTicks` | ferromq-raft/src/raft_node.rs:980-981 | there are never more ticks than whole periods of measured time |
| `RedisIndex.CoveredStep` | ferromq-storage/src/storage_redis.rs:241-261 | every operation and every wait keeps each key that outlasts this instant indexed with a score not before its deadline |
| `RedisIndex.LenNeverUndercounts` | ferromq-storage/src/storage_redis.rs:706-717 | in every run, now and later, `len` misses no live key but those in the last instant of their life |
| `RedisIndex.LenMissesExactly` | ferromq-storage/src/storage_redis.rs:98-114 | in every run, now and later, `len` is below the number of live keys if and only if it misses more than it counts stale scores, and it misses a live key if and only if that is at its deadline and its score is gone or purged |
| `RedisIndex.ExpiringKeyIsMissed` | ferromq-storage/src/storage_redis.rs:706-717 | a run in which `len` is zero and a key is live |
| `RedisIndex.ExactIffCountsStayRight` | ferromq-storage/src/storage_redis.rs:706-717 | the index is exact if and only if `len` is the number of lasting keys at every later time |
| `RedisIndex.StaysExactIff` | ferromq-storage/src/storage_redis.rs:742-796 | an operation keeps an exact index exact if and only if it is none of: a future expiry for a key that is not live, an expiry before the epoch, a counter change on a live key with a deadline, a refused decrement of a counter that is not live |
| `RedisIndex.LenIsExact` | ferromq-storage/src/storage_redis.rs:706-717 | in runs of such operations `len` is the number of live keys, now and later, if and only if none of them is at its deadline; those are the ones it misses |
| `RedisIndex.BatchInsertIsInserts` | ferromq-storage/src/storage_redis.rs:294-323 | the bulk commands leave what single insertions in order leave |
| `RedisIndex.InsertReadsBack` | ferromq-storage/src/storage_redis.rs:241-261 | an inserted value reads back, and removing it leaves neither key nor score |
| `RedisIndex.IncrThenDecrRestoresIff` | ferromq-storage/src/storage_redis.rs:378-449 | raising and lowering a counter by the same amount restores it, its deadline included, if and only if the amount is not the lowest 64-bit number |
| `RedisIndex.ParsesIff` | ferromq-storage/src/storage_redis.rs:378-398 | a stored byte string counts as a number if and only if it is the decimal spelling of a 64-bit number |
| `RedisIndex.RedisStorageDB.Insert` | ferromq-storage/src/storage_redis.rs:241-261 | the value reads back and is live forever, no other key or score changes, a covered index stays covered and an exact one exact |
| `RedisIndex.RedisStorageDB.BatchInsert` | ferromq-storage/src/storage_redis.rs:268-325 | each key reads back its last value in the batch, no other key or score changes, coverage and exactness are kept |
| `RedisIndex.RedisStorageDB.Remove` | ferromq-storage/src/storage_redis.rs:516-526 | neither key nor score is left, nothing else changes, coverage and exactness are kept |
| `RedisIndex.RedisStorageDB.BatchRemove` | ferromq-storage/src/storage_redis.rs:329-350 | none of the keys and scores is left, nothing else changes, coverage and exactness are kept |
| `RedisIndex.RedisStorageDB.CounterIncr` | ferromq-storage/src/storage_redis.rs:378-398 | the counter, or a stored decimal string, reads the sum, or its old value where the server refuses, its lifetime and all other keys stay, coverage is kept and exactness exactly without a deadline |
| `RedisIndex.RedisStorageDB.CounterDecr` | ferromq-storage/src/storage_redis.rs:429-449 | the same with the amount subtracted, which the server refuses for the lowest number |
| `RedisIndex.RedisStorageDB.CounterSet` | ferromq-storage/src/storage_redis.rs:479-499 | the number reads back and is live forever, nothing else changes, coverage and exactness are kept |
| `RedisIndex.RedisStorageDB.ExpireAt` | ferromq-storage/src/storage_redis.rs:756-767 | a live key reads the same value up to and including the time given, or is gone if that is not in the future; nothing else changes; coverage is kept, exactness exactly under the stated condition |
| `RedisIndex.RedisStorageDB.Expire` | ferromq-storage/src/storage_redis.rs:784-795 | the same for a duration from now |
| `RedisIndex.RedisStorageDB.Cleanup` | ferromq-storage/src/storage_redis.rs:98-114 | no value changes; a covered index keeps all lasting keys, and an exact one is left with exactly those |
| `RedisIndex.RedisStorageDB.Len` | ferromq-storage/src/storage_redis.rs:708-717 | purges, then counts: never too few for a covered index, exactly right for an exact one, keys at their deadline apart |
| `RedisList.RedisStorageList.PushLimit` | ferromq-storage/src/storage_redis.rs:1588-1612 | pushes, evicts the front or refuses, as the length and the caller say |
| `RedisList.PushesConserve` | ferromq-storage/src/storage_redis.rs:1597-1607 | over any run of evicting pushes, evicted values followed by the list are the old list followed by the pushes |
| `RedisList.PushesKeepTheNewest` | ferromq-storage/src/storage_redis.rs:1597-1607 | over any run of evicting pushes nothing goes while there is room, then one value for each further push, always the oldest |
| `RedisList.PushesAreRefusedWhenFull` | ferromq-storage/src/storage_redis.rs:1597-1611 | over any run of pushes that may not evict, those that fit are kept in order and all others refused |
| `RedisList.PushesStayWithinLimitIff` | ferromq-storage/src/storage_redis.rs:1597-1607 | every run that starts within the limit stays within it if and only if the limit is at least one |
| `RedisList.ListIterator.Next` | ferromq-storage/src/storage_redis.rs:1877-1903 | hands out the next value of the rest of the list, and None when nothing is left |
| `RedisList.ListIterator.NextMany` | ferromq-storage/src/storage_redis.rs:1845-1903 | iterating in inclusive pages yields the list in order, then None forever |
| `RedisMap.RedisStorageMap.RemoveWithPrefix` | ferromq-storage/src/storage_redis.rs:1262-1288 | ends although each pass restarts the scan and collects duplicates, removes exactly the fields the server matches, and leaves the trailing delete nothing to do |
| `RedisMap.RedisStorageMap.RemoveLiteralPrefix` | ferromq-storage/src/storage_redis.rs:1262-1288 | with a prefix free of pattern characters exactly the fields with that prefix go |
| `VarInt.DecodeVariableLength` | ferromq-codec/src/utils.rs:127-155 | the shifting loop computes the recursive meaning, with both error cases |
| `VarInt.EncodeRest` | ferromq-codec/src/utils.rs:286-307 | the writer's four cases are one rule, the low seven bits and then the rest |
| `VarInt.RoundTrip` | ferromq-codec/src/utils.rs:127-155 | a written value reads back whatever follows, with exactly the written length |
| `VarInt.ValueIsPositional` | ferromq-codec/src/utils.rs:142-155 | the value is what the low seven bits of its bytes spell, least significant first, the last byte being the first one below 128 |
| `VarInt.StrictPrefixIsIncomplete` | ferromq-codec/src/utils.rs:127-134 | no strict prefix of a written value decodes to anything but incomplete |
| `VarInt.IncompleteIff` | ferromq-codec/src/utils.rs:145-147 | exactly inputs of up to three continuing bytes are incomplete |
| `VarInt.WriterIsShortest` | ferromq-codec/src/utils.rs:286-307 | no decoded value exceeds 268,435,455, and the writer's form is the shortest accepted and the only one of its length |
| `VarInt.MoreBytesKeepVerdict` | ferromq-codec/src/utils.rs:142-155 | later bytes never change a result or an error already given |
| `Fields.FieldReadsBack` | ferromq-codec/src/utils.rs:182-280 | every well-typed field takes its announced size and reads back |
| `Fields.FieldOnTheWire` | ferromq-codec/src/utils.rs:182-280 | a flag is 1 or 0, numbers have their fixed width in network byte order, a byte string follows its two-byte length |
| `Fields.DecodesExactly` | ferromq-codec/src/utils.rs:67-114 | a field is read exactly where its encoding stands, so every value has one encoding and nothing else decodes |
| `Fields.FailsExactly` | ferromq-codec/src/utils.rs:67-114 | every error with the bytes it leaves: too short, a flag above one, a forbidden zero, text that is not UTF-8 |
| `Utf8.Utf8Iff` | ferromq-codec/src/utils.rs:110-114 | a byte string is accepted as text if and only if it encodes some sequence of Unicode scalar values |
| `Fields.FieldsRoundTrip` | ferromq-codec/src/utils.rs:67-114 | any sequence of fields takes the sum of the announced sizes and reads back, leaving any suffix |
| `Fields.PropertiesSplitOff` | ferromq-codec/src/utils.rs:117-121 | a property block behind its length is split off exactly and its fields read back |
| `Fields.TakesPropertiesExactly` | ferromq-codec/src/utils.rs:117-121 | a block is split off exactly where a length and that many bytes stand |
| `Fields.PropertiesFailExactly` | ferromq-codec/src/utils.rs:117-121 | an unfinished length is malformed, one of more than four bytes or longer than what follows invalid; nothing else fails |
| `Fields.Buffer.Put` | ferromq-codec/src/utils.rs:182-280 | appends the field, or refuses an over-long byte string with nothing written |
| `Fields.Buffer.Take` | ferromq-codec/src/utils.rs:67-114 | advances the buffer by the field or up to the error, with the error of each type |
| `Version.VerdictIsFinal` | ferromq-codec/src/version.rs:36-87 | an accepted or rejected prefix keeps its verdict however the stream goes on |
| `Version.ChunksDoNotMatter` | ferromq-codec/src/version.rs:36-87 | however the stream is cut, each look asks for more or gives the verdict on the whole |
| `Version.FourteenBytesDecide` | ferromq-codec/src/version.rs:49-67 | fourteen bytes are never answered with a request for more |
| `Version.DetectsExactlyConnect` | ferromq-codec/src/version.rs:36-87 | MQTT 5.0 is detected exactly in CONNECT packets of either protocol name with level 5, MQTT 3 exactly in those with level 3 or 4 |
| `Version.RejectsExactly` | ferromq-codec/src/version.rs:36-87 | each rejection exactly: a length of more than four bytes, another packet type behind a complete length, a finished name of another length or other letters, another level |
| `Counter.PeakIsReached` | ferromq-utils/src/counter.rs:106-109 | under every interleaving of two-step increments and sets with decrements, the mark or a pending value is the highest value the operations have produced, and none exceeds it |
| `Counter.CountIsTheTally` | ferromq-utils/src/counter.rs:106-186 | under every interleaving no update is lost: the count is the tally of all increments, sets and decrements in order |
| `Counter.UndisturbedOperations` | ferromq-utils/src/counter.rs:106-186 | any thread not in the middle of an operation can start one, and undisturbed it changes count and mark as it says |
| `Counter.MarkIsExactWhenQuiet` | ferromq-utils/src/counter.rs:155-158 | when no thread is between its steps the mark is the highest value ever produced, and the count is not above it if it started so and no decrement was negative |
| `Counter.Atomic.Incs` | ferromq-utils/src/counter.rs:106-109 | count and mark after an increment |
| `Counter.Atomic.Sets` | ferromq-utils/src/counter.rs:155-158 | count and mark after a set |
| `Counter.Atomic.Merge` | ferromq-utils/src/counter.rs:314-333 | each mode combines counts and marks, also when a counter is merged into itself |
| `Counter.MergesKeepOrder` | ferromq-utils/src/counter.rs:314-333 | no merge lifts the count above the mark, and the three real merges commute |
| `Counter.MergesCombineAll` | ferromq-utils/src/counter.rs:314-333 | merging any counters one after the other gives the sum, the greatest or the least of all counts and marks; modes without a rule change nothing |
| `WsStream.WsStream.PollRead` | ferromq-net/src/ws.rs:46-86 | as many bytes as fit are delivered; delivered and cached bytes are those cached before and those received, with the index strictly inside the cache |
| `WsStream.WsStream.ReadMany` | ferromq-net/src/ws.rs:46-86 | each read asks the socket exactly when nothing is cached and delivers what fits; so over any reads and socket events, delivered bytes followed by the cached tail are those cached before and the payloads in order, and no buffer overflows |

## Left out

- Driver.BatchingKeepsBatches: sequence numbers are unbounded, so the wrap-around of the 64-bit counter is not modelled; runs have a batch size of at least one, since a size of zero never proposes anything.
- Driver.HandleCalls: every `apply` completes; the five-second timeout around it leaves no state that could be described.
- Driver.LossFreeRunIsFifo: speaks of runs without loss; Driver.CommitsAreFifoIff and Driver.CallsAreOwnItems are the statements for all others.
- RaftNodeLoop.RaftNode.HandleConfigChange: the configuration state is not modelled, and the snapshot taken on the spot is a step of the cluster model instead.
- Cluster.InvStep: terms, configuration states and the bytes of snapshots are not modelled; a configuration change counts as an operation that leaves the store alone.
- TimeoutWindow.CountsNeverOverstate: holds for any bucket choice, because the code computes its bucket from a time span that is always about zero.
- RedisIndex.LenNeverUndercounts: the client reads the server's clock, and scores are exact integers rather than doubles.
- RedisMap.RedisStorageMap.RemoveWithPrefix: no other client writes during the deletion.
- Counter.MarkIsExactWhenQuiet: arithmetic does not overflow, and the methods that set or raise only one of the two values are not part of the runs.
- Breaker.FailureRateIsBounded: for one caller at a time; calls that are in flight together can each pass the check before any of them fails.
- RedisIndex.RedisStorageDB.BatchInsert: the expiry branch is not modelled, because both callers pass no expiry.
- Fields.FieldsRoundTrip: an optional value is no field or one field, and a pair of strings is two.
- WsStream.WsStream.PollRead: the kinds of socket errors are one failure, and the writing side is not modelled.
- Raft consensus itself, the gRPC server and client, and message forwarding: they are library code or wiring around the modelled steps.
- The serialisation of entries: a payload and its number read back as written.
- Map and list expiry through the handle-local empty flag: it promises nothing once a list was emptied by other means.
- The MQTT packet codecs, the sled, redb and cluster backends, the external storage breaker, configuration, listeners, TLS, QUIC, logging and macros.
