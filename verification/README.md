# A verified model of the Redis clone

This project models the hard parts of the server and proves what they promise.

- **Wire format.** `Resp` gives RESP2 as a recursive-descent parser and a serialiser; `RespParser` holds the
  iterative stack parser of the source and proves it against the recursive one. Round trips, framing and
  independence of what follows are proved for every value and every byte string.
- **Replication.** `Session` is the replica's side of the link as a step function on bytes, `Synchronisation`
  relates it to what a master really sends, and `Cluster` with `ClusterRuns` is the step system of one master
  and any number of replicas: writes, registration, the PSYNC reply, bytes in flight, buffered bytes, the
  replica's store thread, ACKs on their way back as bytes that are cut into reads anywhere (`AckStream`), the error
  replies this provokes, and WAIT with its reply. What a command does and what the master makes of a read are
  parameters of that system (`Replay.Machine`); `RedisMachine` and `RedisCluster` put the server's own in. The classes
  `ReplicationSession`, `ReplicaRegistry` and `Connection` are the source's objects, proved against these functions.
  `AckLaws` says what the master knows of a replica in terms of the reads it made.
- **Transactions.** `Registrations` and `Watches` describe the WATCH index, `Transactions` what one request on one
  connection does, `TransactionRuns` all runs of all connections. `Dispatching` holds the objects: its
  `StoreThread.Dispatch` takes exactly the step that the run theorems speak of. `RedisTransactions` puts the server's
  own commands in. `ClientHistory` and `TransactionHistory` tell queue, watches and the fate of EXEC from the requests
  alone. There an EXEC is one step. `Suspension` looks closer: it runs the store thread command by command,
  with a stack of commands that have begun and not yet replied, because a BLPOP that has to wait suspends its EXEC and
  the rest of it runs later, inside the push that serves it. `SuspensionRuns` proves wakeups, dirty flags and
  check-and-set over all such runs, and `StoreThreadRest` that the thread always comes to rest, and that an EXEC of
  commands that reply at once is the one step of the other model. `StoreThreadLedger` accounts for every command
  of such runs, and `SuspensionHistory` ties them to the requests sent. `Mirroring` with `ReplicatedTransactions` joins
  transactions to what is propagated, and `ServingMaster` with `RedisServing` joins them to the replicas.
- **Blocking.** `Blocking` and `BlockingRuns` treat BLPOP waiters, `BlockingManager` their objects, `BlockingHistory` how
  long they wait, `ServingOrder` and `SuspensionOrder` in which order they are served, `StreamBlocking` what XREAD BLOCK
  with `$` asks for and finds, and `StreamBlockingRuns` all runs of writes, blocked reads and timeouts.
- **Streams and the store.** `StreamIds`, `Streams`, `StoreOps`, `Store` and `Commands` give ID generation, order, range
  reads, the data operations and the write commands. `ListLaws`, `StreamLaws`, `CommandLaws`, `BlpopLaws` and `ReplyLaws`
  state what a client observes of them: what comes out of a list and in which order, which IDs are accepted, which
  entries a read returns, and what each reply says.

## Conventions

A `char` stands for one byte. Integers are unbounded, and every place where the source's width matters says so:
RESP lengths are 32-bit, offsets and stream IDs 64-bit, and sequence numbers wrap from 2^63 - 1 to -2^63 as they do
in two's complement. Links are FIFO, which one network thread gives. One command runs on the store thread at a time.

Registration of a replica and the PSYNC reply are two separate steps. The replication theorems assume that nothing is
propagated between the two for the same replica (`Cluster.NoSnapshotPending`, in the guards of `ClusterRuns.Next`);
`Synchronisation.LinkComesUpIffNoCommandSlipsIn` shows that the link comes up exactly under that condition.

Where the code does not do what one would expect, the model follows the code:

- of several ACK messages in one read, only the first is recorded (`Connection.AckReadRecordsFirst`);
- a read that does not begin with a whole ACK is answered with an error reply on the replica's own socket, and there
  the replica's session gets stuck (`AckStream.EveryReadOk`, `Synchronisation.NoiseKeepsInStep`). The bytes of commands are
  conserved exactly as long as every read began with a whole ACK (`ClusterRuns.BytesAreConserved`); ACKs and WAIT
  are safe in any case;
- UNWATCH drops the watches but keeps the dirty flag (`Dispatching.TransactionManager.ClearWatches`);
- the pop of an immediate BLPOP is announced to no watcher, so an EXEC may run although a watched list changed
  (`RedisTransactions.PopBehindTheWatchersBack`), and nothing else can bring that about
  (`SuspensionRuns.CleanValueIffNotPopped`);
- that pop may belong to an EXEC that another client sent long before and that was suspended until now
  (`SuspensionRuns.PopInsideAnotherPush`);
- an XADD at an absent key whose ID cannot be read or is 0-0 leaves an empty stream there, and that is the only write
  that changes a key without announcing it (`RedisTransactions.SilentChangeIsRejectedXAdd`);
- the error reply to an LPOP of a key that holds no list has no end of line, so the next reply runs into it; no other
  reply to a write does that (`ReplyLaws.RepliesAreWhole`);
- insertion compares sequence numbers as signed 64-bit numbers and range reads as unsigned ones. An accepted XADD
  puts its stream out of order exactly when its milliseconds are 2^63 or above, or it follows a sequence of 2^63 or
  above with one below 2^63 in the same millisecond (`Streams.XAddKeepsOrderExactly`, `Streams.OrderCanBeLost`). Exactly
  then a reader blocked with `$` is woken without the new entry (`StreamBlocking.ReadAfterXAdd`,
  `StreamBlocking.NewestCanBeMissed`).

## Model

| member | source | states |
|---|---|---|
| `Resp.ParseIgnoresWhatFollows` | src/resp/RespParser.cpp:83-120 | a successful parse is unchanged by any bytes after it and by cutting the input at the consumed length |
| `Resp.RoundTrip` | src/resp/RespParser.cpp:122-141 | a serialised value followed by anything parses to that value and consumes exactly its own length, nested arrays and embedded CRLF included |
| `Resp.ReserialisationIsLossless` | src/resp/RespParser.cpp:83-172 | whatever the parser yields from any bytes can be serialised and read back unchanged, whatever follows |
| `Resp.StrictPrefixDoesNotParse` | src/resp/RespParser.cpp:157-172 | no strict prefix of a serialised value parses |
| `Resp.ParseValueWellFormed` | src/resp/RespParser.cpp:143-172 | every parsed value is one the serialiser writes faithfully: no CRLF inside a line, lengths within 32 bits |
| `Resp.SerializeAllConcat` | src/resp/RespParser.cpp:122-141 | the bytes of two lists of values one after the other are the bytes of the joined list |
| `RespParser.ProcessStack` | src/resp/RespParser.cpp:60-75 | completing frames neither changes what the whole input will parse to nor leaves a finished value beside an open frame |
| `RespParser.HandleArrayHeader` | src/resp/RespParser.cpp:39-58 | an array header opens a frame, completes an empty or null array, or fails, as the recursive parser would |
| `RespParser.ParseIterative` | src/resp/RespParser.cpp:83-120 | the stack parser agrees with the recursive-descent parser on every byte string: success, value and consumed count; it terminates |
| `Decimal.NatTextRoundTrip` | src/resp/RespParser.cpp:122-141 | the decimal text of a number consists of digits and reads back as that number |
| `Decimal.FromCharsOfIntText` | src/resp/RespParser.cpp:34-37 | `from_chars` reads back a printed number that fits its type, whatever non-digit follows |
| `Session.AdvanceThenFeed` | src/replication/ReplicationSession.cpp:155-200 | a session that already consumed what it could loses nothing when more bytes arrive |
| `Session.ReadBoundariesDoNotMatter` | src/replication/ReplicationSession.cpp:76-200 | for every byte string and every division into reads, the session ends as if the bytes came in one read |
| `Synchronisation.ReplyStep` | src/replication/ReplicationSession.cpp:64-89 | the FULLRESYNC line is dropped from the buffer and its offset becomes the replica's |
| `Synchronisation.RdbHeaderStep` | src/replication/ReplicationSession.cpp:91-124 | the RDB header is dropped and announces exactly the body's size |
| `Synchronisation.RdbBodyStep` | src/replication/ReplicationSession.cpp:126-148 | exactly the body's bytes are dropped |
| `Synchronisation.CommandStep` | src/replication/ReplicationSession.cpp:172-200 | the next sent command is taken, its bytes are counted, and a GETACK is answered with the offset after itself |
| `Synchronisation.StepKeepsInStep` | src/replication/ReplicationSession.cpp:64-200 | at every step the buffered bytes and the bytes on the wire are exactly what is left of what was sent |
| `Synchronisation.PropagateKeepsInStep` | src/replication/ReplicaRegistry.cpp:24-30 | propagating one more command keeps the link in step |
| `Synchronisation.LinkIsReadExactly` | src/replication/ReplicationSession.cpp:64-200 | however the reply, RDB, commands and error bytes after them are divided into reads, the replica holds exactly the sent commands in order, the error bytes as its buffer, the right offset and one ACK for each GETACK |
| `Synchronisation.NoiseKeepsInStep` | src/net/Connection.cpp:69-71 | whatever the master writes after an error reply, commands included, stays in the buffer or on the wire and changes nothing else |
| `Synchronisation.ReadKeepsAckOrder` | src/replication/ReplicationSession.cpp:183-217 | ACKs never decrease, never exceed the offset, and every consumed GETACK has been answered |
| `Synchronisation.EarlyCommandStops` | src/net/Connection.cpp:115-125 | a command that reaches the socket before the PSYNC reply stops the session |
| `Synchronisation.LinkComesUpIffNoCommandSlipsIn` | src/command/impl/ReplicationCommands.cpp:46-53 | the link comes up if and only if nothing was propagated between registration and the PSYNC reply |
| `ReplicationSession.ReplicationSession.constructor` | src/replication/ReplicationSession.cpp:27-34 | a session starts waiting for the reply, with an empty buffer and offset 0 |
| `ReplicationSession.ReplicationSession.ReadPsyncReply` | src/replication/ReplicationSession.cpp:237-261 | takes the reply step exactly when a whole line is there |
| `ReplicationSession.ReplicationSession.ReceiveRdb` | src/replication/ReplicationSession.cpp:91-124 | takes the RDB-header step exactly when a whole line is there |
| `ReplicationSession.ReplicationSession.ReceiveRdbBody` | src/replication/ReplicationSession.cpp:126-148 | takes the RDB-body step exactly when all its bytes are there |
| `ReplicationSession.ReplicationSession.TryProcessOneBufferedCommand` | src/replication/ReplicationSession.cpp:172-200 | takes the command step exactly when a whole command is there |
| `ReplicationSession.CutsCommand` | src/replication/ReplicationSession.cpp:183-199 | that step counts the command's bytes, answers a GETACK with the new offset and posts everything else |
| `ReplicationSession.ReplicationSession.SendAck` | src/replication/ReplicationSession.cpp:212-217 | the current offset is sent and nothing else changes |
| `ReplicationSession.ReplicationSession.ReceiveCommands` | src/replication/ReplicationSession.cpp:155-170 | the drain loop takes every complete command |
| `ReplicationSession.ReplicationSession.OnRead` | src/replication/ReplicationSession.cpp:155-200 | a read leaves the object in the state of the specified session that was fed the bytes and advanced as far as it goes |
| `ReplicaRegistry.ReplicaRegistry.constructor` | src/replication/ReplicaRegistry.cpp:12-17 | a registry starts with offset 0 and no replicas |
| `ReplicaRegistry.ReplicaRegistry.Add` | src/replication/ReplicaRegistry.cpp:12-17 | a new replica gets a new id, an empty wire and ACK 0 |
| `ReplicaRegistry.ReplicaRegistry.Remove` | src/replication/ReplicaRegistry.cpp:19-22 | the replica is gone and no other changes |
| `ReplicaRegistry.ReplicaRegistry.Propagate` | src/replication/ReplicaRegistry.cpp:24-30 | the offset grows by the length and every replica's wire by the bytes, whatever the order of the loop |
| `ReplicaRegistry.ReplicaRegistry.RecordAck` | src/replication/ReplicaRegistry.cpp:37-42 | the ACK of a registered replica is replaced; an unknown id changes nothing |
| `ReplicaRegistry.ReplicaRegistry.RequestGetAck` | src/replication/ReplicaRegistry.cpp:67-78 | GETACK is propagated and counted like a command |
| `ReplicaRegistry.ReplicaRegistry.CountAckedAtLeast` | src/replication/ReplicaRegistry.cpp:80-85 | the count is the size of the set of replicas whose ACK reached the offset |
| `ReplicaRegistry.WaitStart` | src/command/impl/ReplicationCommands.cpp:75-88 | WAIT takes the current offset as target and answers at once or asks for ACKs |
| `ReplicaRegistry.WaitPoll` | src/command/impl/ReplicationCommands.cpp:100-114 | a poll answers with the count exactly when it is enough or the time is up |
| `Replay.ReplayedPosted` | src/replication/ReplicationSession.cpp:183-199 | running only the commands that are not GETACK leaves the same state as replaying all of them |
| `RedisMachine.ClockDoesNotMatter` | src/command/execution/TransactionDispatcher.cpp:41-52 | a write without expiry, BLPOP or `XADD *` has the same effect whenever it runs |
| `RedisMachine.RedisIsDeterministic` | src/command/execution/TransactionDispatcher.cpp:41-52 | the replicated write commands are deterministic and none is a GETACK |
| `RedisMachine.RedisReadsAcks` | src/net/Connection.cpp:59-145 | the server's own reading of ACKs meets what the cluster asks of it, for every cut into reads |
| `Cluster.WriteKeepsInv` | src/command/execution/TransactionDispatcher.cpp:41-52 | an executed and propagated write keeps the whole invariant: links in step, stores replayed, ACKs in order, WAIT targets right |
| `Cluster.RegisterKeepsInv` | src/net/Connection.cpp:115-125 | registering a replica keeps it |
| `Cluster.SnapshotKeepsInv` | src/command/impl/ReplicationCommands.cpp:46-53 | building the PSYNC reply from the current offset keeps it |
| `Cluster.DisconnectKeepsInv` | src/net/Connection.cpp:50-57 | losing a replica keeps it |
| `Cluster.ReadSocketKeepsInv` | src/replication/ReplicationSession.cpp:155-200 | a replica reading any number of bytes keeps it |
| `Cluster.RunPostedKeepsInv` | src/replication/ReplicationSession.cpp:183-199 | a replica's store thread running the next command, at its own time, keeps it |
| `Cluster.TimerAckKeepsInv` | src/replication/ReplicationSession.cpp:202-217 | a periodic ACK keeps it |
| `Cluster.RecordedKeepsInv` | src/net/Connection.cpp:131-145 | a read that begins with a whole ACK keeps it and never lowers the recorded offset |
| `Cluster.ComplaintKeepsInv` | src/net/Connection.cpp:69-92 | an error reply on the replica's socket keeps it |
| `Cluster.ReadAcksKeepsInv` | src/net/Connection.cpp:59-145 | the master reading any number of bytes of ACKs keeps it and never lowers the recorded offset |
| `Cluster.StartWaitKeepsInv` | src/command/impl/ReplicationCommands.cpp:75-88 | starting a WAIT keeps it |
| `ClusterRuns.StepKeepsInv` | src/replication/ReplicaRegistry.cpp:12-85 | every step of the cluster keeps the invariant |
| `ClusterRuns.RunKeepsInv` | src/replication/ReplicaRegistry.cpp:12-85 | the invariant holds in every reachable state |
| `ClusterRuns.ErrorsIffBrokenRead` | src/net/Connection.cpp:59-92 | in every reachable state a replica has been sent error bytes if and only if some read of its ACKs did not begin with a whole message |
| `ClusterRuns.BytesAreConserved` | src/replication/ReplicaRegistry.cpp:24-30 | in every reachable state the master's offset plus the bytes of error replies is a synced replica's offset plus the bytes in its buffer plus the bytes in flight; without the error bytes the equation holds if and only if every read of its ACKs began with a whole message |
| `ClusterRuns.ReplicaEqualsMasterAtItsOffset` | src/replication/ReplicationSession.cpp:172-200 | from equal stores, in every reachable state the replica's store after its consumed commands is the master's store at any moment its offset was the replica's |
| `ClusterRuns.ReplicaWasTheMaster` | src/replication/ReplicationSession.cpp:172-200 | there was such a moment, and a replica that has run everything it consumed is in that state |
| `ClusterRuns.CaughtUpReplicaIsTheMaster` | src/replication/ReplicationSession.cpp:172-200 | a replica at the master's offset that has run everything is in the master's state |
| `ClusterRuns.AckedHaveConsumed` | src/replication/ReplicaRegistry.cpp:80-85 | whoever acknowledged an earlier offset of the master has consumed every command propagated before it |
| `ClusterRuns.WaitBegan` | src/command/impl/ReplicationCommands.cpp:75-88 | a WAIT in progress has as its target the master's offset of the moment it began |
| `ClusterRuns.WaitReplyIsSafe` | src/command/impl/ReplicationCommands.cpp:75-114 | whenever a WAIT is answered, its reply is the number of distinct registered replicas whose ACKs reached the offset at which it began; each has consumed every command propagated before; they are as many as asked for unless time was up |
| `ClusterRuns.GetAckIsAnsweredBeyondTarget` | src/command/impl/ReplicationCommands.cpp:85-88 | a replica that has consumed a WAIT's GETACK has sent an ACK beyond that WAIT's target |
| `ClusterRuns.AcksNeverDecrease` | src/replication/ReplicaRegistry.cpp:37-42 | the recorded ACK of a replica never goes down while it stays registered, however its messages are cut into reads |
| `AckLaws.AckedIsTheLastRead` | src/replication/ReplicaRegistry.cpp:37-42 | in every reachable state the offset recorded for a replica is the one in the ACK with which the latest readable read from it began, and 0 if there was none |
| `AckLaws.CountedIffLastReadReachesTarget` | src/replication/ReplicaRegistry.cpp:80-85 | WAIT counts a replica towards its target if and only if it is registered and that latest ACK said at least so much |
| `AckLaws.TimerAckGetsThrough` | src/replication/ReplicationSession.cpp:202-217 | with the earlier ACKs read, a periodic ACK read whole makes the master record the replica's present offset and count it for that offset |
| `RedisCluster.RedisIsSound` | src/command/execution/TransactionDispatcher.cpp:41-52 | the server's own commands meet what the cluster theorems ask of a command |
| `RedisCluster.RedisReplicaWasTheMaster` | src/replication/ReplicationSession.cpp:172-200 | a caught-up replica holds exactly the keys and values the master held when its offset was the replica's |
| `Connection.HandshakeRecords` | src/net/Connection.cpp:98-129 | while undecided, the handshake state and counter record exactly the PINGs and REPLCONFs seen |
| `Connection.ModeIsFinal` | src/net/Connection.cpp:98-129 | a decided mode never changes |
| `Connection.DecidingCommand` | src/net/Connection.cpp:98-129 | one command decides the mode |
| `Connection.ReplicaIffHandshakeComplete` | src/net/Connection.cpp:98-129 | a connection becomes a replica if and only if some PSYNC comes after only PING, REPLCONF and PSYNC, with at least two REPLCONFs after the first PING and a REPLCONF as the latest of the two |
| `Connection.RegisteredOnce` | src/net/Connection.cpp:115-125 | it is registered exactly once if it becomes a replica and never otherwise |
| `Connection.UndecidedIff` | src/net/Connection.cpp:98-129 | the mode is open exactly while only PING, REPLCONF and PSYNC have come and the handshake is not complete |
| `Connection.RefusedIff` | src/net/Connection.cpp:98-129 | a request is refused if and only if the handshake is open and it is a REPLCONF before any PING or a PSYNC that nothing prepared |
| `Connection.ReplicationHandlesIff` | src/net/Connection.cpp:131-156 | a dispatched request goes to the replication handler if and only if the handshake is complete with it, or it is a REPLCONF or PSYNC of a handshake still open |
| `Connection.AckReadRecordsFirst` | src/net/Connection.cpp:131-145 | a synced replica's read that begins with an ACK records exactly that offset, whatever follows |
| `Connection.PartOfAckIsParseError` | src/net/Connection.cpp:67-71 | a read that ends before its first ACK does is answered with a parse error |
| `Connection.InsideAckIsComplaint` | src/net/Connection.cpp:67-92 | a read that begins inside an ACK is a parse error or an invalid command format, and is never taken for an ACK |
| `Connection.AcksAreTakenIn` | src/net/Connection.cpp:59-145 | together: what a read of ACK bytes does depends only on whether it begins with a whole message, and on that message |
| `AckStream.EveryReadOk` | src/net/Connection.cpp:59-145 | for every sequence of messages and every read of it: the offset of the message it begins with is recorded, or it gets an error reply if it begins with none |
| `Connection.Connection.DecideMode` | src/net/Connection.cpp:98-129 | the object follows the handshake function, and adds one replica to the registry exactly when it turns into one |
| `Connection.Connection.OnRead` | src/net/Connection.cpp:59-156 | one read: parse error, bad format, handshake error, ACK intake or dispatch, with the registry changed only as that says |
| `Registrations.ErasingListedKeysPurges` | src/state/WatchManager.cpp:22-37 | erasing an id from the keys listed for it erases it everywhere |
| `Registrations.EraseEach` | src/state/BlockingManager.hpp:35-41 | the erase loop, duplicates of a key included |
| `Watches.AddedConsistent` | src/state/WatchManager.cpp:8-13 | a new watch keeps the two maps describing one relation with unique nonzero ids |
| `Watches.PurgedConsistent` | src/state/WatchManager.cpp:15-40 | so does dropping any set of ids |
| `Watches.ClearRemovesExactly` | src/command/execution/TransactionManager.cpp:26-37 | clearing one connection's watches removes all of its registrations and none of any other's |
| `Watches.ClearKeepsAgreed` | src/command/execution/TransactionManager.cpp:26-37 | afterwards index and connections still agree, whether the connection stays or goes |
| `Watches.AddAllKeepsAgreed` | src/command/impl/WatchCommands.cpp:22-29 | WATCH with any keys, repeated ones included, keeps index and connections in agreement |
| `Watches.AddedAllWatches` | src/command/impl/WatchCommands.cpp:22-29 | after WATCH the connection watches its old keys, with their old ids, and the new ones |
| `Watches.OwnersAreWatchers` | src/state/WatchManager.cpp:42-55 | a write to a key reaches exactly the connections that watch it |
| `Transactions.WritesPropagated` | src/command/impl/TransactionCommands.cpp:70-81 | commands run in order propagate exactly the serialised writes among them, in order |
| `Transactions.CleanExecIsAFold` | src/command/impl/TransactionCommands.cpp:34-90 | a clean EXEC yields the store and the ordered replies of running the queue one by one and propagates its writes in queue order |
| `Transactions.ReplyAt` | src/command/impl/TransactionCommands.cpp:73-85 | the k-th reply is that of the k-th command on the store after the first k |
| `Transactions.ExecIsDispatchingOneByOne` | src/command/impl/TransactionCommands.cpp:55-87 | each queued command does and replies what the dispatcher would have done with it outside MULTI |
| `Transactions.ConnsAfter` | src/state/WatchManager.cpp:42-55 | commands that run change nothing of a connection but its dirty flag, set exactly if it watches a key they announce |
| `Transactions.OnlyRunningCommandsHaveEffect` | src/command/execution/TransactionDispatcher.cpp:18-38 | a queued, discarded or aborted command changes neither the store nor what is propagated |
| `TransactionRuns.DispatchKeepsInv` | src/command/execution/TransactionDispatcher.cpp:13-56 | every request keeps the indexes in agreement and transaction control out of every queue |
| `TransactionRuns.StepDirty` | src/command/execution/TransactionManager.cpp:39-60 | after a step a connection is dirty exactly if it was and did not just end a transaction, or a key it watches was announced |
| `TransactionRuns.IndexesAlwaysAgree` | src/state/WatchManager.cpp:8-40 | in every reachable state both maps and all connections' watched keys describe the same relation, and queues hold no control command |
| `TransactionRuns.DirtyIsExact` | src/command/execution/TransactionManager.cpp:20-60 | in every reachable state a connection is dirty if and only if a key it watched was announced since its last completed EXEC or DISCARD |
| `TransactionRuns.ExecAbortsExactly` | src/command/impl/TransactionCommands.cpp:28-35 | EXEC inside MULTI aborts if and only if that happened |
| `TransactionRuns.EndLeavesIdle` | src/command/execution/TransactionManager.cpp:20-24 | a completed EXEC or DISCARD leaves its connection clean, not even its own writes dirty it |
| `ClientHistory.QueueIsWhatWasSent` | src/command/execution/TransactionManager.cpp:15-74 | for any history of one connection: from MULTI on its queue is the commands sent since, in order |
| `ClientHistory.WatchesWhatWasAsked` | src/command/impl/WatchCommands.cpp:8-45 | for any history of one connection: it watches exactly the keys of the WATCHes that still count |
| `TransactionHistory.ActiveIffInMulti` | src/command/impl/TransactionCommands.cpp:12-19 | over all runs a connection is in a transaction if and only if its client sent MULTI and nothing since that ends it |
| `TransactionHistory.QueueHoldsWhatWasSent` | src/command/execution/TransactionDispatcher.cpp:34-38 | over all runs the queue inside MULTI is exactly the ordinary requests the client sent since MULTI, in the order sent |
| `TransactionHistory.WatchesIffAsked` | src/command/impl/WatchCommands.cpp:8-45 | over all runs a connection watches a key if and only if its client named it in a WATCH outside MULTI and has since sent no UNWATCH, EXEC or DISCARD that drops it |
| `TransactionHistory.ExecAnswersWhatWasSent` | src/command/impl/TransactionCommands.cpp:34-90 | over all runs a clean EXEC runs the requests sent since MULTI one by one: their store, their writes propagated in that order, and as k-th reply that of the k-th request sent |
| `TransactionHistory.ExecAbortsIffWatchedKeyWritten` | src/command/impl/TransactionCommands.cpp:28-35 | over all runs EXEC aborts if and only if a command announced a key the client had asked to watch, and the client has ended no transaction since |
| `RedisTransactions.SilentChangeIsRejectedXAdd` | src/store/impl/StreamStore.cpp:4-35 | a write changes a key unannounced if and only if it is an XADD at an absent key whose ID cannot be read or is 0-0 |
| `RedisTransactions.BlpopMoves` | src/command/impl/ListCommands.cpp:111-147 | a BLPOP shortens the first list among its keys and changes no other key |
| `RedisTransactions.PopBehindTheWatchersBack` | src/command/impl/ListCommands.cpp:123-131 | whenever another connection's BLPOP takes from a watched list, that list changes and the watcher's EXEC still runs |
| `Suspension.BegunLists` | src/command/impl/ListCommands.cpp:10-147 | no command leaves an empty list, and only a push makes a list where there was none |
| `Suspension.ServedOneOk` | src/state/BlockingManager.cpp:15-35 | a round of the serve loop keeps the queues right, serves nobody twice and changes no other key |
| `Suspension.StepKeepsInv` | src/command/impl/TransactionCommands.cpp:55-87 | every request, command, round of serving, timeout and resumption keeps the invariant: whoever waits at a key with a list is about to be served, and whoever watches a key being served is dirty |
| `SuspensionRuns.NoLostWakeup` | src/command/impl/ListCommands.cpp:10-158 | over all runs, with EXECs suspended at BLPOPs and resumed inside pushes: whenever the store thread is idle no stored list is empty, no key has both a waiter and a list, and no waiter was served twice |
| `SuspensionRuns.StepDirty` | src/command/execution/TransactionManager.cpp:39-60 | after a step a connection is dirty exactly if it was and its transaction goes on, or a key it watches was announced |
| `SuspensionRuns.DirtyIsExact` | src/command/execution/TransactionManager.cpp:20-60 | over all such runs a connection is dirty if and only if a key it watched was announced since its last clean start, by whichever command and however late |
| `SuspensionRuns.ExecRunsExactly` | src/command/impl/TransactionCommands.cpp:28-35 | EXEC inside MULTI runs its commands if and only if that did not happen |
| `SuspensionRuns.BegunMoves` | src/command/impl/ListCommands.cpp:10-147 | a command changes the contents of a key it does not announce if and only if it is a BLPOP taking from it, and then it shortens the list |
| `SuspensionRuns.CleanValueIffNotPopped` | src/command/impl/TransactionCommands.cpp:28-35 | check-and-set over all such runs: while a connection watches a key and stays clean, the key has what it had if and only if no BLPOP that began in between took from it |
| `SuspensionRuns.PopInsideAnotherPush` | src/state/BlockingManager.cpp:15-35 | while a push on one key is served, an EXEC suspended there goes on and its BLPOP takes from another key, making no watcher of it dirty |
| `SuspensionHistory.WatchesIffAsked` | src/command/impl/WatchCommands.cpp:8-45 | also with suspended EXECs a connection watches exactly what its client asked to watch |
| `SuspensionHistory.ExecRunsWhatWasSent` | src/command/impl/TransactionCommands.cpp:34-57 | a clean EXEC sets out to run exactly the requests sent since MULTI, in the order sent |
| `SuspensionOrder.RoundServesFirst` | src/state/BlockingManager.cpp:15-35 | a round of serving hands the front item to whoever came first, who leaves all queues and goes on with the rest of its EXEC |
| `SuspensionOrder.FirstComeFirstServed` | src/state/BlockingManager.cpp:15-35 | over all runs with suspended EXECs, the waiters served at a key came in the order in which they are served, and before all who still wait there |
| `StoreThreadRest.GoWeighs` | src/state/BlockingManager.cpp:15-35 | each thing the store thread does uses up some of what it and all waiters still have to do |
| `StoreThreadRest.ComesToRest` | src/state/BlockingManager.cpp:15-35 | however servings and suspended EXECs are nested, the store thread is idle again after a bounded number of steps |
| `StoreThreadRest.ExecAtOnceIsDispatch` | src/command/impl/TransactionCommands.cpp:55-87 | an EXEC none of whose commands has to wait, with nobody blocked, ends exactly as dispatching it in one step does |
| `StoreThreadRest.OrdinaryAtOnceIsDispatch` | src/command/execution/TransactionDispatcher.cpp:41-55 | so does a command outside MULTI that need not wait |
| `StoreThreadLedger.BooksBalance` | src/command/impl/TransactionCommands.cpp:55-87 | over all runs every command loaded has begun once or is pending, and every command begun has replied once or is unanswered, wherever it waits |
| `StoreThreadLedger.NothingIsLost` | src/state/BlockingManager.cpp:15-35 | when the thread is idle and nobody waits, everything loaded has begun exactly once and replied exactly once |
| `StoreThreadLedger.WritesAreSentWhenTheyReply` | src/command/impl/TransactionCommands.cpp:70-81 | over all runs the propagated bytes are the writes that have replied, each once, in the order of their replies |
| `StoreThreadLedger.RestsKeepTheirOrder` | src/command/impl/TransactionCommands.cpp:55-87 | over all runs what is still to run, on the stack, of a blocked BLPOP or of a parked command, is the end of what some request loaded, in the order sent |
| `Mirroring.RanAllFollows` | src/command/impl/TransactionCommands.cpp:70-81 | the writes of an EXEC extend the propagated log just as if they had run one by one |
| `Mirroring.StreamReplaysToStore` | src/command/execution/TransactionDispatcher.cpp:41-52 | in every reachable state the propagated bytes are the serialisation of a log that replays to the master's store |
| `ReplicatedTransactions.RedisStreamReplaysToStore` | src/command/impl/TransactionCommands.cpp:70-81 | the same for the server's own commands, inside and outside transactions, as far as they reply at once and replicas can repeat them |
| `ServingMaster.WritesAreSteps` | src/command/impl/TransactionCommands.cpp:70-81 | the writes of one request, an EXEC included, prolong a run of the cluster |
| `ServingMaster.ServingIsAClusterRun` | src/command/execution/TransactionDispatcher.cpp:13-56 | the replication side of a master that serves clients is in every reachable state reached by a run of the cluster, and its store is the server's |
| `ServingMaster.ServingConservesBytes` | src/replication/ReplicaRegistry.cpp:24-30 | so the bytes are accounted for while clients use transactions |
| `ServingMaster.CaughtUpReplicaHoldsTheServersData` | src/replication/ReplicationSession.cpp:172-200 | a replica that has consumed and run everything holds exactly what the clients' commands and transactions left on the master |
| `RedisServing.RedisReplicaHoldsTheServersData` | src/replication/ReplicationSession.cpp:172-200 | the same for the server's own commands, as far as they reply at once and replicas can repeat them |
| `Dispatching.WatchManager.constructor` | src/state/WatchManager.cpp:8-13 | no registrations, next id 1 |
| `Dispatching.WatchManager.Watch` | src/state/WatchManager.cpp:8-13 | the registration goes to the back of the key's list under a new id |
| `Dispatching.WatchManager.Unwatch` | src/state/WatchManager.cpp:15-40 | exactly the id's registrations leave both maps; an unknown id changes nothing |
| `Dispatching.WatchManager.NotifyWrite` | src/state/WatchManager.cpp:42-55 | exactly the owners at the key become dirty |
| `Dispatching.TransactionManager.constructor` | src/command/execution/TransactionManager.cpp:12-13 | a connection starts idle |
| `Dispatching.TransactionManager.Begin` | src/command/execution/TransactionManager.cpp:15-18 | active with an empty queue; dirty flag and watches stay |
| `Dispatching.TransactionManager.PopQueuedCommands` | src/command/execution/TransactionManager.cpp:70-74 | the queue is handed over and left empty |
| `Dispatching.TransactionManager.WatchKey` | src/command/execution/TransactionManager.cpp:47-49 | a key is noted once |
| `Dispatching.TransactionManager.AssociateWatchId` | src/command/execution/TransactionManager.cpp:51-55 | a noted key gets its id |
| `Dispatching.TransactionManager.ClearWatches` | src/command/execution/TransactionManager.cpp:26-37 | all watches leave the index, in whatever order they are visited; the dirty flag stays |
| `Dispatching.TransactionManager.Reset` | src/command/execution/TransactionManager.cpp:20-24 | idle again, and its registrations are gone |
| `Dispatching.StoreThread.Connect` | src/net/Connection.cpp:16-27 | a new connection is a step of the run system |
| `Dispatching.StoreThread.Disconnect` | src/command/execution/TransactionManager.cpp:8-10 | a closed connection takes its watches along |
| `Dispatching.StoreThread.Notify` | src/state/WatchManager.cpp:42-55 | announcing keys one after the other makes dirty exactly the connections watching one of them |
| `Dispatching.StoreThread.RunCommand` | src/command/execution/TransactionDispatcher.cpp:41-55 | an ordinary command: store, notifications, propagation of writes, reply, and the error for unknown ones |
| `Dispatching.StoreThread.RunQueue` | src/command/impl/TransactionCommands.cpp:55-87 | the EXEC loop: all effects in order and every result in its place |
| `Dispatching.StoreThread.Multi` | src/command/impl/TransactionCommands.cpp:12-19 | MULTI begins a transaction and refuses to nest |
| `Dispatching.StoreThread.RegisterWatches` | src/command/impl/WatchCommands.cpp:22-29 | the WATCH loop registers each key not yet watched, in both places |
| `Dispatching.StoreThread.Watch` | src/command/impl/WatchCommands.cpp:8-32 | WATCH, refused inside MULTI and without keys |
| `Dispatching.StoreThread.Unwatch` | src/command/impl/WatchCommands.cpp:34-45 | UNWATCH, refused with arguments |
| `Dispatching.StoreThread.Exec` | src/command/impl/TransactionCommands.cpp:21-90 | EXEC: refused outside MULTI, aborted when dirty, otherwise reset first and then run |
| `Dispatching.StoreThread.Discard` | src/command/impl/TransactionCommands.cpp:92-100 | DISCARD ends the transaction and is refused outside MULTI |
| `Dispatching.StoreThread.Ordinary` | src/command/execution/TransactionDispatcher.cpp:34-55 | inside MULTI queued, outside run |
| `Dispatching.StoreThread.Dispatch` | src/command/execution/TransactionDispatcher.cpp:13-56 | one request takes the server, objects and all, exactly one step of the run system and gives its reply |
| `Blocking.ServeIsFair` | src/state/BlockingManager.cpp:15-35 | item i goes to the i-th distinct waiter as far as both last, the list keeps the rest in order, and exactly the served waiters leave all their keys |
| `Blocking.HandedAt` | src/state/BlockingManager.cpp:15-35 | min(w, n) items are handed out, the i-th to waiter i |
| `Blocking.WaitersOldestFirst` | src/state/BlockingManager.hpp:22-29 | waiters are served in the order they registered, none twice |
| `Blocking.EveryIdWaits` | src/state/BlockingManager.hpp:22-29 | nobody registered at the key is passed over |
| `Blocking.RestKeepWaiting` | src/state/BlockingManager.hpp:31-43 | those not served wait on in the order they had |
| `Blocking.ServeConservesItems` | src/state/BlockingManager.cpp:15-35 | the items handed out and those left make the list, in order |
| `BlockingRuns.EnlistedAt` | src/state/BlockingManager.hpp:22-29 | a key's queue grows by the new waiter once for every time the key is named |
| `BlockingRuns.FirstListFinds` | src/command/impl/ListCommands.cpp:123-131 | the key BLPOP takes from is one of its keys and holds a list; if there is none, no key holds a list |
| `BlockingRuns.FirstListIsFirst` | src/command/impl/ListCommands.cpp:123-131 | that key is the one with the least position among those that hold a list |
| `BlockingRuns.BlpopTakesFromTheFirst` | src/command/impl/ListCommands.cpp:123-131 | BLPOP takes the front item of the first key that holds a list, and nothing else changes |
| `BlockingRuns.BlpopWaits` | src/command/impl/ListCommands.cpp:133-147 | if none does, nothing is taken and the waiter is last in line at each key, once for every time the key is named |
| `BlockingRuns.OneSideRunsOut` | src/state/BlockingManager.cpp:15-35 | after serving a key its waiters or its items are used up |
| `BlockingRuns.OtherWritesMakeNoList` | src/store/impl/ListStore.cpp:87-105 | only a push makes a list and no write leaves an empty one |
| `BlockingRuns.CommandsAreChecked` | src/command/impl/ListCommands.cpp:12-18 | a push that passes its argument check carries a value |
| `BlockingRuns.StepKeepsInv` | src/command/impl/ListCommands.cpp:10-158 | every push, pop, other write, BLPOP and timeout keeps the blocking invariant |
| `BlockingRuns.NoLostWakeup` | src/command/impl/ListCommands.cpp:10-158 | in every reachable state no stored list is empty, no key has both a waiter and a stored list, and no waiter was served twice or waits on after being served |
| `BlockingRuns.NeverServedAfterTimeout` | src/command/impl/ListCommands.cpp:150-157 | over all runs a waiter that times out before it is served is never served |
| `BlockingHistory.WaitsUntilServedOrTimedOut` | src/command/impl/ListCommands.cpp:133-157 | over all runs a BLPOP that found no list queues at all its keys until it is served or times out, and from then on at none |
| `ServingOrder.FirstComeFirstServed` | src/state/BlockingManager.cpp:15-35 | over all runs the waiters served at a key came in the order in which they are served, and before all who still wait there |
| `BlpopLaws.BlpopSent` | src/command/impl/ListCommands.cpp:111-131 | BLPOP k1 .. kn timeout: the reply is the first key that holds a list and its front item, which is gone; nothing else changes, nothing is announced |
| `BlpopLaws.BlpopSentWaits` | src/command/impl/ListCommands.cpp:133-147 | if none does, it sends nothing, takes nothing and queues at every key |
| `BlockingManager.BlockingRegistry.constructor` | src/state/BlockingManager.hpp:54-57 | nobody waits, next id 1 |
| `BlockingManager.BlockingRegistry.RegisterCallbacks` | src/state/BlockingManager.hpp:22-29 | the waiter queues at each of its keys under one new id |
| `BlockingManager.BlockingRegistry.Unregister` | src/state/BlockingManager.hpp:31-43 | the id leaves all queues and keys without waiters go |
| `BlockingManager.ServeBlpopWaiters` | src/state/BlockingManager.cpp:15-35 | the serve loop on store and registry does what the specified serving does |
| `BlockingManager.RPush` | src/command/impl/ListCommands.cpp:10-24 | push then serve; the reply is the length before anyone is served |
| `BlockingManager.LPush` | src/command/impl/ListCommands.cpp:26-40 | the same at the front |
| `BlockingManager.Blpop` | src/command/impl/ListCommands.cpp:111-147 | if some key holds a list, the front item of the one with the least position; otherwise a place in all queues |
| `StreamIds.IdRoundTrip` | src/store/types/StreamIdUtils.cpp:33-42 | a printed ID reads back, both as last ID and as bound |
| `StreamIds.NegativeSequenceReads` | src/store/types/StreamIdUtils.cpp:68-90 | range reads take a stored negative sequence for a large unsigned one |
| `Streams.XAddKeepsOrderExactly` | src/store/types/StreamIdUtils.cpp:8-66 | an accepted XADD leaves the stream's IDs readable, above 0-0 and increasing if and only if its milliseconds are below 2^63 and it does not follow a sequence of 2^63 or above with one below 2^63 in the same millisecond |
| `Streams.InRangeKeepsOrder` | src/store/types/StreamIdUtils.cpp:8-66 | on a stream with numbers below 2^63, an XADD with such numbers meets that condition |
| `Streams.XAddStaysInRange` | src/store/types/StreamIdUtils.cpp:8-66 | an accepted XADD on a stream with numbers below 2^63 leaves them so if and only if its own are |
| `Streams.OrderCanBeLost` | src/store/types/StreamIdUtils.cpp:8-66 | two accepted IDs whose order in range reads is the wrong way round |
| `Streams.ScanRangeIsFilter` | src/store/impl/StreamStore.cpp:37-65 | XRANGE with its early exit is the filter start <= id <= end |
| `Streams.CutAt` | src/store/impl/StreamStore.cpp:67-99 | what lies up to a bound and what lies after it make the stream |
| `Streams.XRangeThenXReadIsEverything` | src/store/impl/StreamStore.cpp:37-99 | XRANGE from `-` to any full ID followed by XREAD from it is the whole stream |
| `StreamLaws.ExplicitIdAcceptedIffAbove` | src/store/types/StreamIdUtils.cpp:51-66 | an explicit ID is accepted, and stored as given, if and only if it is above the newest one and above 0-0; otherwise which error |
| `StreamLaws.AutoIdIsLeastAbove` | src/store/types/StreamIdUtils.cpp:44-66 | `ms-*` gets the least sequence number above the newest ID, and is refused if and only if that millisecond has none left |
| `StreamLaws.StarIsNow` | src/store/types/StreamIdUtils.cpp:8-31 | `*` is the clock's millisecond with an automatic sequence number |
| `StreamLaws.IdWithoutDashIsInvalid` | src/store/types/StreamIdUtils.cpp:8-31 | an ID without a dash other than `*` is refused |
| `StreamLaws.XRangeByMilliseconds` | src/store/types/StreamIdUtils.cpp:68-90 | XRANGE between bare milliseconds returns exactly the entries with those milliseconds, both ends included |
| `StreamLaws.XRangeByIds` | src/store/impl/StreamStore.cpp:37-65 | XRANGE between full IDs returns exactly the entries from the one to the other, both included |
| `StreamLaws.XRangeAll` | src/store/impl/StreamStore.cpp:37-65 | XRANGE from `-` to `+` returns the whole stream |
| `StreamLaws.XReadFromMilliseconds` | src/store/impl/StreamStore.cpp:67-99 | XREAD from a bare millisecond returns exactly the entries above its sequence 0 |
| `StreamLaws.XReadFromId` | src/store/impl/StreamStore.cpp:67-99 | XREAD from a full ID returns exactly the entries above it |
| `Store.Store.Incr` | src/store/impl/StringStore.cpp:30-68 | one more, 1 at an absent key, refused for other types, bad numbers and the maximum |
| `Store.Store.RPush` | src/store/impl/ListStore.cpp:29-43 | the values follow the list; another type is replaced |
| `Store.Store.LPush` | src/store/impl/ListStore.cpp:45-59 | the values precede the list in reverse |
| `Store.Store.LPop` | src/store/impl/ListStore.cpp:87-105 | up to count items from the front; an emptied list goes with its key |
| `Store.Store.XAdd` | src/store/impl/StreamStore.cpp:4-35 | the entry is appended under the generated ID, or an error with at most an empty stream created |
| `Store.Store.XRange` | src/store/impl/StreamStore.cpp:37-65 | the loop with early exit computes the specified scan |
| `Store.Store.XRead` | src/store/impl/StreamStore.cpp:67-99 | for each key its entries after the ID, keys without any left out |
| `ListLaws.RPushComesOutLast` | src/store/impl/ListStore.cpp:29-43 | first in, first out: what RPUSH adds is popped after all that was there, in the order given; no other key changes |
| `ListLaws.LPushComesOutFirst` | src/store/impl/ListStore.cpp:45-59 | last in, first out: what LPUSH adds is popped before all that was there, the last value first; no other key changes |
| `ListLaws.LPopTakesFromTheFront` | src/store/impl/ListStore.cpp:87-105 | a pop with a count takes what that many single pops would take and leaves what they would leave; an emptied list is gone |
| `ListLaws.LPopLeavesTheRest` | src/store/impl/ListStore.cpp:87-105 | a pop changes no other key; it fails exactly if there is no list, and then changes nothing |
| `ListLaws.IncrCountsUp` | src/store/impl/StringStore.cpp:30-68 | n INCRs from a stored number answer and store one more each time |
| `ListLaws.IncrStartsAtZero` | src/store/impl/StringStore.cpp:30-68 | an absent key counts from 0 |
| `ListLaws.IncrRefuses` | src/store/impl/StringStore.cpp:30-68 | the greatest number and other types are refused and stay |
| `CommandLaws.RequestIsCommand` | src/command/core/Command.hpp:49-82 | a request is the write or transaction command its first word names in any case, and no other, with the other words as arguments in order |
| `CommandLaws.RPushSent` | src/command/impl/ListCommands.cpp:10-24 | RPUSH key v1 .. vn: they are popped last and in this order, the reply is how many can be popped, and the key is announced |
| `CommandLaws.LPushSent` | src/command/impl/ListCommands.cpp:26-40 | LPUSH key v1 .. vn: they are popped first and in reverse, with the same reply |
| `CommandLaws.LPopSent` | src/command/impl/ListCommands.cpp:75-103 | LPOP key: the reply is the item that was to be popped first, and it is gone |
| `CommandLaws.LPopCountSent` | src/command/impl/ListCommands.cpp:75-109 | LPOP key n: the reply is the array of the first n items, or of all, and they are gone |
| `CommandLaws.LPopOfNothing` | src/command/impl/ListCommands.cpp:75-92 | LPOP of an absent key: a null reply, nothing changes, nothing is announced |
| `CommandLaws.SetThenIncr` | src/command/impl/BasicCommands.cpp:153-223 | SET key n, then INCR key: the reply is n + 1 and no other key changes |
| `CommandLaws.XAddSent` | src/command/impl/StreamCommands.cpp:181-204 | XADD key id f1 v1 .. fn vn: one more entry with these pairs in order and its ID as the reply, or an error line and no entry |
| `ReplyLaws.RepliesAreWhole` | src/command/impl/ListCommands.cpp:84-92 | the reply to a write is a RESP value or an error line, and so has a readable end, if and only if it is not an LPOP of a key holding something other than a list |
| `ReplyLaws.ExecRepliesWithAnArray` | src/command/impl/TransactionCommands.cpp:73-85 | the reply to EXEC is the RESP array of the values its commands replied, and parses back to them |
| `Commands.RejectedXAddChangesNoEntries` | src/store/impl/StreamStore.cpp:4-35 | a rejected XADD changes no stream's entries |
| `Commands.StreamsStayOrdered` | src/store/impl/StreamStore.cpp:4-35 | in every store reached by writes none of which puts a stream out of order, each stream's IDs decode to strictly increasing pairs above 0-0 |
| `Commands.StreamsStayInRange` | src/store/impl/StreamStore.cpp:4-35 | writes with numbers below 2^63 are of that kind in every run, and keep all stored numbers below 2^63 |
| `StreamBlocking.ResolveStreamIds` | src/command/impl/StreamCommands.cpp:108-122 | each `$` becomes the last ID XRANGE finds, or 0-0 |
| `StreamBlocking.DollarIsNewest` | src/command/impl/StreamCommands.cpp:108-122 | on a stream in order that is its newest ID |
| `StreamBlocking.ReadAfterNewest` | src/store/impl/StreamStore.cpp:67-99 | reading after the newest ID finds nothing, and after one more XADD exactly the new entry |
| `StreamBlocking.XReadFindsTheNewEntry` | src/store/impl/StreamStore.cpp:67-99 | over distinct keys the read returns that key with that entry and no other |
| `StreamBlocking.ReadMissesOutOfOrder` | src/store/impl/StreamStore.cpp:67-99 | an entry that is out of order is not found by a read from the newest ID before it, or makes the read fail |
| `StreamBlocking.NewestCanBeMissed` | src/store/types/StreamIdUtils.cpp:8-66 | two accepted IDs, the second of which a reader from `$` does not find |
| `StreamBlocking.ReadAfterXAdd` | src/command/impl/StreamCommands.cpp:133-161 | a read from the newest IDs of distinct keys, after the first successful XADD on one of them, finds exactly that key and entry if that XADD keeps its stream in order, and nothing or an error if it does not |
| `StreamBlocking.ServeXreadWaiters` | src/state/BlockingManager.cpp:45-55 | XADD wakes everyone registered at its key, in order, and takes them out of all their queues |
| `StreamBlockingRuns.StepKeepsInv` | src/command/impl/StreamCommands.cpp:133-268 | every write, blocked read and timeout keeps the registry of readers consistent |
| `StreamBlockingRuns.XAddWakes` | src/state/BlockingManager.cpp:45-55 | an accepted XADD on a key of a waiting reader gives it exactly one answer, its read of the new store, and takes it out of every queue |
| `StreamBlockingRuns.StepKeepsWaiting` | src/state/BlockingManager.hpp:22-43 | any other step that leaves its streams alone and is not its own timeout leaves a reader waiting at each of its keys, unanswered |
| `StreamBlockingRuns.DollarWaits` | src/command/impl/StreamCommands.cpp:108-122 | XREAD BLOCK with `$` on streams in order finds nothing at once and waits for what is newer |
| `StreamBlockingRuns.BlockedReadWaits` | src/command/impl/StreamCommands.cpp:133-171 | over any run it waits on as long as its streams stay as they are and it does not time out |
| `StreamBlockingRuns.BlockedReadIsWokenByFirstXAdd` | src/command/impl/StreamCommands.cpp:133-204 | over any run it is unanswered until the first successful XADD on one of its keys, which gives it exactly one answer and takes it out of every queue; the answer is that key with that entry if and only if the XADD keeps its stream in order |
| `StreamBlockingRuns.AnswerIsFinal` | src/command/impl/StreamCommands.cpp:133-171 | over any run, what a reader that no longer waits has been told is all it is ever told |
| `StreamBlockingRuns.TimedOutIsToldOnce` | src/command/impl/StreamCommands.cpp:162-171 | over any run, a reader that times out is told exactly once that nothing came |
| `StreamBlockingRuns.AnswerAll` | src/command/impl/StreamCommands.cpp:149-160 | the callbacks of all woken readers: each reads the store from its own IDs |
| `StreamBlockingRuns.XAdd` | src/command/impl/StreamCommands.cpp:181-204 | XADD on store and registry takes the step of the run system |
| `StreamBlockingRuns.XReadBlocking` | src/command/impl/StreamCommands.cpp:235-268 | so does XREAD BLOCK: resolve, read, and register if nothing was found |

## Left out

- Expiry (`EX`, `PX`, lazy deletion), `XADD *` and propagated BLPOP in the replica theorems: their effect depends on clocks or on who is blocked.
- Commands.Run: gives no effect for SET with an expiry, BLPOP or an LPOP whose count cannot be read. BLPOP is given in `RedisTransactions.RunBlpop`; the other two are excluded from the transaction theorems by `RedisTransactions.Handled`.
- RedisTransactions.RunRequest: read commands leave the store alone but their replies are not given, because they are settled by one branch each.
- Transactions.DoExec: EXEC is one step here, also when one of its commands would have to wait. `Suspension` gives what the store thread then does; what `Dispatching` and the replica theorems say of EXEC is for commands that reply at once (`StoreThreadRest.ExecAtOnceIsDispatch`, `ReplicatedTransactions.Repeatable`).
- Suspension.Go: that each command of a suspended EXEC replies once, and in which order, is in `StoreThreadLedger`; the joined text of a suspended EXEC is not, only that of an EXEC that runs at once (`TransactionHistory.ExecAnswersWhatWasSent`).
- GET, TYPE, ECHO, PING, INFO, LLEN and LRANGE.
- Suspension.Next: a WAIT or blocking XREAD inside EXEC may reply at once or suspend it, and may resume at any time between two things the store thread does; which of these happens is not tied to ACKs or entries.
- XREAD waiters have a run system of their own and do not appear in one state with WATCH: a blocked read changes no key.
- ServingMaster.JointNext: a client's request, an EXEC included, is one step, so no link moves between two writes of one EXEC, and the clients' writes are repeatable ones with nobody blocked.
- ClusterRuns.Next: an error reply to a replica is written to the end of its FIFO channel at the moment of the read.
- Sockets, executors, threads, timers and their races: a timeout is one atomic step, a channel is a FIFO string.
- The formatting of XRANGE and XREAD replies, and the parsing of XREAD's arguments.
- The contents of the RDB payload: only its length matters.
- The uncaught exceptions of `stoull` and `stod` on malformed LPOP counts, timeouts and stream IDs: a read that throws is `None`, and a BLPOP timeout is not read.
- ClusterRuns.Next: writes and GETACKs keep the master's offset within 64 bits; the model does not describe what happens beyond.
- ClusterRuns.Next: the sending side of the handshake (PING, REPLCONF, PSYNC from the replica) is not part of the step system; `Connection` treats the master's reading of it.
- Replica ids, watch ids and waiter ids are unbounded; the source's are 64-bit counters.
