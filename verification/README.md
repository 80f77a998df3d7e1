# netsvr: verified models of the ring queue, the WebSocket decoder, the registry and the outbound side

netsvr is a gateway between WebSocket clients and business processes. This project models its four stateful
cores in Dafny and proves what they promise.

| part | files |
|---|---|
| the lock-free queue with many producers and one consumer | `RingIndex`, `QueueProtocol`, `QueueInvariant`, `QueueSteps`, `QueueTheorems`, `QueueProgress` |
| values shared by all parts | `Options`, `Octets` |
| the WebSocket receive side | `CodecSpec`, `CodecChunking`, `CodecInvariant`, `CodecRoundTrip`, `CodecMessages`, `CodecVerdicts`, `MessagePayload`, `Connection` |
| the connection registry and its commands | `ShardedIndex`, `TopicIndex`, `ConnectionManager`, `RegistrySpec`, `RegistryAgreement`, `RegistryEffects`, `Gateway`, `CloseRace`, `CloseTheorems`, `CloseProgress`, `RateLimiter` |
| the outbound side | `PacketStream`, `WorkerLine`, `WorkerTheorems`, `WorkerConn`, `PacketOwnership`, `PacketLoops`, `TokenPools`, `PoolOutcomes`, `RoundRobin` |

`dafny verify dfyconfig.toml` checks everything.

## How to read the models

* **Queue, close race, token pools, packet ownership** are transition systems. One action of the queue, of the
  close race and of the pools is one atomic load, store, compare-and-swap, channel operation or lock operation;
  in packet ownership, where the queue is taken as given, `Enqueue` and `Dequeue` are one action each. A run is
  any sequence of actions, and an action that is not enabled changes nothing, so a theorem about every
  sequence is a theorem about every interleaving. Threads are indexed by numbers without bound.
* **Decoder**: `CodecSpec` says as functions what one frame, one message and one arrival do; the classes
  `MessagePayload`, `BytePool` and `Connection` do it with mutable fields and pooled arrays, and each method
  is proved equal to its function. `CodecRoundTrip` has an independent reference for legal frame sequences
  (sections 5.2 to 5.5 of RFC 6455, section 6 of RFC 7692).
* **Registry**: `ShardedIndex`, `TopicIndex`, `ConnectionManager` and `Gateway` work on shards, shared inner
  maps and a separate counter; they are proved equal to operations on flat maps, and `RegistryAgreement`
  proves the agreement of the flat maps over all runs.
* **Worker connection**: `WorkerLine` says what the wire shows under any script of transport failures and
  foreign closers; `WorkerConn` is the send loop with its buffers.
* **Outcomes**: `QueueProgress`, `CodecVerdicts`, `RegistryEffects`, `CloseProgress` and `PoolOutcomes` say what a
  call comes to: that it ends, with which answer, and what it leaves changed and unchanged. They name events,
  status codes and index entries outright.

Assumptions: the queue's atomics are sequentially consistent, its counters do not wrap at 2^64, and it has
one consumer, as the code demands. Buffers hold fewer than 2^63 bytes. The hash of a key is any function.

## What the proofs found

* `Enqueue` looks at `head` a second time before it returns false. The look decides nothing about fullness:
  a sequence number below the loaded head already means that the ring was full at that moment
  (`QueueTheorems.EntersReload`).
* The comment at pkg/queue/queue.go:188-189 says that a sequence number above the loaded head does not occur
  in theory. It does, after a stale load of `head`: `QueueTheorems.LargerNumberIsReachable` is a run,
  `QueueInvariant.SequenceAgainstHead` the exact condition; the retry handles it.
* The comment at internal/wsServer/codec.go:45 says that one field for the RSV bits is enough because control
  frames have none. Line 392 overwrites it for control frames too and nothing restores it, so a deflated
  message with a control frame between its fragments is delivered without being inflated.
  `CodecMessages.DeflatedMessageExact` gives the exact condition.
* A frame length of 2^63-4 or more makes the addition of the mask size overflow and the slice expression
  panic (`CodecRoundTrip.PanicsExactly`, and `CodecRoundTrip.HugeLengthPanics` for an input).
* Section 5.2 of RFC 6455 asks for the shortest length encoding; the decoder also takes longer ones
  (`CodecRoundTrip.OverlongIsTaken`, and `CodecRoundTrip.TakesExactly` for what it takes beside legal frames).
* A control frame without FIN is taken; it is refused only when the next frame arrives, and never delivered
  (`CodecRoundTrip.AcceptedIffLegal`, `CodecRoundTrip.UnfinishedControlIsRefusedNext`).
* Close code 1015, which section 7.4.1 of RFC 6455 keeps out of close frames, is accepted
  (`CodecRoundTrip.Code1015IsEchoed`; `CodecRoundTrip.CloseFrameExactly` says what happens to every close frame).
* The worker's `send` closes a connection on which a write was cut short. `Close` does nothing when another
  goroutine holds the close lock but has not closed the socket yet; packets written in that window follow the
  torn one (`WorkerTheorems.TornIsTheEndIff`, reached by `WorkerTheorems.WindowIsReachable`).
* The log that follows a failed write walks the rest of the slices in pairs. After a cut inside a header it
  reads past a slice and panics, and after some cuts inside a body too; that ends the send loop and keeps the
  batch from the object pool. `WorkerTheorems.LogPanicsExactly` and `WorkerTheorems.ReturnedOnceExactly` give
  the exact conditions.
* Round robin stays fair across the wrap of its 32-bit counter exactly when the number of members divides
  2^32 (`RoundRobin.FairAlwaysIff`).
* `OnClose` has to set the closed flag itself before the cleanup; without it there is a run that leaves the
  connection in the topic index for ever (`CloseTheorems.FlagIsNeeded`).

## Model

| member | source | states |
|---|---|---|
| RingIndex.IndexIsModulo | pkg/queue/queue.go:162-162 | masking a position with capacity - 1 is taking it modulo the capacity, for every power of two |
| RingIndex.WithinLapDistinct | pkg/queue/queue.go:162-163 | positions less than a lap apart lie in different slots |
| RingIndex.NextLapSameSlot | pkg/queue/queue.go:266-272 | the position one lap later lies in the same slot |
| RingIndex.SmearRoundsUp | pkg/queue/queue.go:100-107 | the shifts and ors round up to the least power of two not below the capacity |
| QueueTheorems.Ring.constructor | pkg/queue/queue.go:93-142 | head, tail, mask, flag, channel, sequence numbers and data of a new queue are the initial state of the protocol; the capacity is the least power of two not below the clamped request |
| QueueInvariant.MatchMeansFree | pkg/queue/queue.go:163-166 | a slot whose sequence number equals a loaded head belongs to a position less than a lap ahead of the released ones |
| QueueInvariant.SequenceAgainstHead | pkg/queue/queue.go:163-190 | a slot shows more than a loaded head exactly when that position was claimed meanwhile and published or handed back, and less exactly when the ring is full at that head |
| QueueTheorems.LargerNumberIsReachable | pkg/queue/queue.go:188-190 | a run from the initial state in which a producer meets a sequence number above its loaded head |
| QueueSteps.DoKeeps | pkg/queue/queue.go:155-302 | every atomic step of every thread keeps the whole protocol invariant |
| QueueSteps.InvAlways | pkg/queue/queue.go:155-302 | the protocol invariant holds after every schedule of any number of producers, closers and the consumer |
| QueueTheorems.FirstInFirstOut | pkg/queue/queue.go:220-276 | the returned batches, concatenated, are a prefix of the items in the order of their successful compare-and-swaps |
| QueueTheorems.RefinesAbstractQueue | pkg/queue/queue.go:155-276 | a won compare-and-swap appends one item to a queue with room, the tail store removes a batch from the front, no other step changes the contents |
| QueueTheorems.AcceptedOnce | pkg/queue/queue.go:155-218 | of all accepted calls of all producers, earlier ones included, each has its own position, with its item in the log there |
| QueueTheorems.Bounded | pkg/queue/queue.go:161-166 | claimed positions never exceed released ones by more than the capacity, and no batch exceeds the capacity |
| QueueTheorems.SlotLifeCycle | pkg/queue/queue.go:165-168 | sequence numbers only go from p to p+1 by the claiming producer, and from p+1 to p+capacity by the consumer for the oldest unreleased p |
| QueueTheorems.NoDataRace | pkg/queue/queue.go:167-167 | no two threads are ever about to access the data of the same slot |
| QueueTheorems.EntersReload | pkg/queue/queue.go:182-187 | a producer that loads a smaller sequence number does so at a moment when the ring is full |
| QueueTheorems.RefusalMeansClosedOrFull | pkg/queue/queue.go:153-191 | Enqueue returns false only if the queue is closed or capacity positions were claimed and unreleased at one instant during that very call |
| QueueTheorems.NoLostWakeup | pkg/queue/queue.go:245-261 | a consumer heading for sleep whose slot is published, or whose queue is closed, has a token or somebody still about to send one |
| QueueTheorems.SleeperHasHelper | pkg/queue/queue.go:245-253 | a sleeping consumer without token, while an item is claimed, has a producer on its way to notify about just that position |
| QueueTheorems.SleeperIsWoken | pkg/queue/queue.go:166-176 | three steps of that helper put the token there, whatever else is scheduled |
| QueueTheorems.CloserWakesSleeper | pkg/queue/queue.go:295-302 | one step of a closer that has set the flag puts the token there, whatever else is scheduled |
| QueueTheorems.AsleepMeansDrained | pkg/queue/queue.go:245-261 | asleep without token and with nobody mid-call means an open queue with everything accepted delivered |
| QueueTheorems.DrainedOnClose | pkg/queue/queue.go:254-259 | Dequeue returns 0 only when closed and everything claimed so far has been delivered |
| QueueProgress.AloneAccepted | pkg/queue/queue.go:155-218 | on an open queue with room a call of Enqueue or TryEnqueue that runs alone is accepted after seven steps: the item is at the end of the log, stored in its slot, published, and a token is there |
| QueueProgress.AloneRefused | pkg/queue/queue.go:182-187 | on an open full queue such a call is refused, by the first look of TryEnqueue and the second of Enqueue, and nothing else changes |
| QueueProgress.TryEnqueueReturns | pkg/queue/queue.go:193-218 | under any scheduling TryEnqueue returns within seven steps of its own |
| QueueProgress.RefusedOnceClosed | pkg/queue/queue.go:157-159 | once the queue is closed, every call that starts later is refused by its first step, whatever happened in between |
| QueueProgress.CloseMeansClosed | pkg/queue/queue.go:295-302 | after every schedule a Close that has taken a step means a closed queue |
| QueueProgress.AloneCloses | pkg/queue/queue.go:295-302 | on an open queue two steps of Close set the flag and put a token there, and change nothing else |
| QueueProgress.ScanGoesOn | pkg/queue/queue.go:230-243 | a batch ends only at the limit or at a slot that is seen unpublished |
| QueueProgress.AloneDequeues | pkg/queue/queue.go:221-276 | a Dequeue that runs alone with n items ready, up to its limit, returns exactly these in the order of their claims, and empties and hands back their slots |
| QueueProgress.AloneEnds | pkg/queue/queue.go:254-259 | on a closed queue from which everything was taken Dequeue returns 0 after six steps |
| QueueProgress.AloneWaits | pkg/queue/queue.go:245-253 | on an open queue with nothing ready Dequeue looks four times, then waits for a token |
| CodecSpec.CipherTwice | internal/wsServer/messagePayload.go:56-57 | masking twice with the same key gives the payload back |
| CodecChunking.FrameAppend | internal/wsServer/codec.go:285-403 | an incomplete frame leaves a state from which more bytes lead to the same place; a complete or faulty one does not depend on what follows |
| CodecChunking.DrainJoined | internal/wsServer/server.go:101-165 | handling two arrivals one after the other is handling them joined |
| CodecChunking.ChunkingIndependent | internal/wsServer/server.go:101-165 | any split of any byte stream into arrivals gives the events and end state of the whole stream at once |
| CodecChunking.SplitsAgree | internal/wsServer/codec.go:285-453 | two splits of one stream agree |
| CodecInvariant.DrainKeeps | internal/wsServer/codec.go:321-344 | every arrival keeps the invariant of codec and unconsumed bytes |
| CodecInvariant.InvAlways | internal/wsServer/codec.go:92-103 | at every return the save slot is empty or holds a data message, and if it holds one the current message is a control message or a control frame is waiting; no message means no fragments |
| CodecInvariant.WaitingBytesMatter | internal/wsServer/codec.go:328-333 | the invariant needs the waiting bytes: without them a data frame could end up beside a saved data message |
| CodecInvariant.SaveSlotNeverOverwritten | internal/wsServer/codec.go:328-333 | under the invariant, whenever a message is set aside the slot is empty, and it then holds just that message |
| CodecInvariant.SaveSlotInEveryRun | internal/wsServer/codec.go:328-333 | on a new connection, after any arrivals and any number of frames of the next one, the slot is empty when a message is moved into it |
| CodecInvariant.DispatchedOpcode | internal/wsServer/codec.go:385-404 | under the invariant a taken frame continues a data message or is a control message of one frame of at most 125 bytes |
| CodecInvariant.DeliveredAreProper | internal/wsServer/server.go:118-157 | in every run every delivered message has a data or control opcode and a control payload of at most 125 bytes, so the branch for reserved opcodes is never taken |
| Octets.BigEndianRoundTrip | internal/wsServer/codec.go:366-376 | big-endian fields of any width decode to what was encoded |
| CodecRoundTrip.TakeEncoded | internal/wsServer/codec.go:285-403 | a frame in any legal length form and with any mask is taken whole and unmasked, whatever follows |
| CodecRoundTrip.PanicsExactly | internal/wsServer/codec.go:381-399 | for any decoder and any bytes: it panics exactly on a masked data frame header that passes the checks, with a 64-bit length of at least 2^63-4 and its top bit clear |
| CodecRoundTrip.HugeLengthPanics | internal/wsServer/codec.go:381-399 | fourteen bytes on which a new connection panics |
| CodecRoundTrip.AcceptedIffLegal | internal/wsServer/codec.go:298-398 | between any two frames the decoder takes, of the complete masked frames, exactly the legal ones of RFC 6455 sections 5.2 to 5.5, those whose only fault is an overlong length, and control frames without FIN; it refuses every other one at once |
| CodecRoundTrip.OverlongIsTaken | internal/wsServer/codec.go:350-376 | two frames that break the minimal-length rule of section 5.2 and are taken |
| CodecRoundTrip.TakesExactly | internal/wsServer/codec.go:285-403 | for arbitrary bytes: a frame is taken exactly if the bytes begin with the encoding of one of those three classes, and just that encoding is consumed |
| CodecRoundTrip.OnlyIncompleteWaits | internal/wsServer/codec.go:295-384 | for arbitrary bytes: only an incomplete masked frame is waited for; an unmasked frame and a 64-bit length with the top bit set are refused at once |
| CodecRoundTrip.UnfinishedControlIsRefusedNext | internal/wsServer/codec.go:323-326 | after a control frame without FIN every further frame is refused |
| CodecRoundTrip.CloseCodes | internal/wsServer/codec.go:433-445 | of the close codes that section 7.4 of RFC 6455 keeps out of frames the code's list lacks exactly 1015; it has four that are merely unassigned |
| CodecRoundTrip.CloseFrameExactly | internal/wsServer/codec.go:427-451 | on the wire, between any two frames: a close frame of 2 to 125 bytes with a valid reason is delivered and echoed unless its code is on the list; otherwise the connection fails for the code |
| CodecRoundTrip.Code1015IsEchoed | internal/wsServer/server.go:126-132 | a new connection delivers and echoes a close frame with code 1015 |
| CodecRoundTrip.DecodesAsReference | internal/wsServer/codec.go:285-453 | every sequence of frames that fit one after the other, in any length form, decodes to what an independent frame-by-frame reference says, control messages in place |
| CodecMessages.MessageRoundTrip | internal/wsServer/messagePayload.go:49-84 | an uncompressed message in one frame or in any fragments, with pings and pongs in between and any arrivals, comes out with its opcode and payload |
| CodecMessages.DeflatedMessageExact | internal/wsServer/codec.go:387-414 | a deflated message is inflated on delivery if and only if no control frame stands between its fragments |
| CodecMessages.StreamAsSpecified | internal/wsServer/server.go:101-165 | any stream of fitting frames without an interrupted deflated message shows exactly the events of the RFC reference, in any arrivals |
| CodecMessages.ForgetfulOnlyWhenInterrupted | internal/wsServer/codec.go:45-45 | forgetting the RSV bits makes a difference only for interrupted deflated messages |
| CodecVerdicts.MessageVerdict | internal/wsServer/codec.go:404-426 | for every message in one frame or in many and any arrivals: delivered with its bytes, inflated if it is marked and no control frame came in between; failed with 1007 if inflating fails or if it is a text that is not UTF-8 |
| CodecVerdicts.CloseVerdict | internal/wsServer/codec.go:427-451 | any close frame between any two frames, in any arrivals: failed with 1002 for a payload of one byte or a refused code, with 1007 for a reason that is not UTF-8, else delivered and echoed unless this side has sent one |
| CodecVerdicts.PingVerdict | internal/wsServer/server.go:134-146 | a ping is delivered and answered with its payload; decoding goes on with the open message as it was, or the connection is given up when the answer cannot be written |
| CodecVerdicts.PongVerdict | internal/wsServer/server.go:147-154 | a pong is delivered, leads to nothing, and leaves the open message as it was |
| CodecVerdicts.FrameFaultsAre1002 | internal/wsServer/server.go:101-110 | whatever is wrong with a frame, the connection is failed with 1002 |
| CodecVerdicts.IllegalFrameIs1002 | internal/wsServer/codec.go:298-398 | a complete frame that may not come now fails the connection with 1002, in any arrivals |
| CodecVerdicts.UnmaskedIs1002 | internal/wsServer/codec.go:345-347 | so does an unmasked frame that passes the checks of its first byte |
| CodecVerdicts.HelloIsDelivered | internal/wsServer/codec.go:285-453 | eleven literal bytes: a text of five letters on a new connection |
| CodecVerdicts.CipherBits | internal/wsServer/messagePayload.go:57-57 | masking is exclusive or, bit by bit, of octet i with octet i modulo 4 of the mask |
| CodecVerdicts.GivenUpExactly | internal/wsServer/server.go:101-165 | in every run the connection is given up exactly when it has shown a failure, a panic, a close message or an answer that could not be written |
| MessagePayloads.MessagePayload.Append | internal/wsServer/messagePayload.go:49-59 | the contents grow by the unmasked fragment; only later fragments use pooled buffers |
| MessagePayloads.MessagePayload.Merge | internal/wsServer/messagePayload.go:61-84 | the result is the concatenation of the fragments, in a buffer that no reset gives to the pool |
| MessagePayloads.MessagePayload.Reset | internal/wsServer/messagePayload.go:34-47 | all fragments but the first go back to the pool, and none is kept |
| MessagePayloads.CipherInPlace | internal/wsServer/messagePayload.go:57-57 | unmasking in place is the masking function |
| Connections.DrainByMessages | internal/wsServer/codec.go:404-452 | decoding message by message, as the code does, is decoding frame by frame |
| Connections.Connection.ResetCurrMessage | internal/wsServer/codec.go:92-103 | back to no message, or to the message set aside, with the RSV bits as they are |
| Connections.Connection.SaveCurrent | internal/wsServer/codec.go:328-333 | the half-received message moves to the save slot |
| Connections.Connection.CheckOpening | internal/wsServer/codec.go:303-343 | the checks on the first byte find the fault of the specification |
| Connections.Connection.ReadFrame | internal/wsServer/codec.go:285-403 | one turn of the decode loop takes, refuses or awaits a frame as the specification says, on pooled buffers |
| Connections.Connection.Check | internal/wsServer/codec.go:404-451 | deflate, UTF-8 and close-code checks as specified; the result is the merged buffer or a new one |
| Connections.Connection.Decode | internal/wsServer/codec.go:285-454 | collects frames up to a final one and checks the message; the payload shares no buffer with the pool or with earlier payloads |
| Connections.Connection.Handle | internal/wsServer/server.go:118-157 | dispatches a message as specified; the callback keeps its buffer, which nothing here touches again |
| Connections.Connection.OnTraffic | internal/wsServer/server.go:101-165 | shows exactly the events of the specification for the buffered bytes, sets the closed flag exactly for a failure or a close message, and leaves every payload handed out before unchanged and outside the pool |
| Connections.Connection.Arrival | internal/wsServer/server.go:86-165 | the same for one more chunk on a pool that others use too; the connection touches only its own objects and the pool's |
| Connections.ArrivalBeside | internal/wsServer/messagePayload.go:34-59 | an arrival on one connection leaves another connection on the same pool as it is, with the payloads it delivered |
| ShardedIndex.LinkedAt | internal/customer/topic/topic.go:72-81 | linking adds exactly the new pairs and leaves no empty set |
| ShardedIndex.UnlinkedAt | internal/customer/topic/topic.go:106-114 | unlinking removes exactly the pairs and leaves no empty set |
| ShardedIndex.UnlinkUndoesLink | internal/customer/topic/topic.go:86-117 | unlinking undoes linking a connection that was not there |
| ShardedIndex.CountsExactly | internal/customer/topic/topic.go:238-238 | the int32 count of an entry is its number of connections exactly below 2^31, and off by a multiple of 2^32 beyond |
| ShardedIndex.Index.SetIn | internal/customer/topic/topic.go:70-81 | the work on one key in the shard at hand; as one flat map the index gains exactly the pair |
| ShardedIndex.Index.DelIn | internal/customer/topic/topic.go:104-114 | the work on one key in the shard at hand; as one flat map the index loses exactly the pair, and an emptied key |
| ShardedIndex.Index.SetRelation | internal/customer/binder/binder.go:51-62 | one shard changes; as one flat map the index gains exactly the pair |
| ShardedIndex.Index.DelRelation | internal/customer/binder/binder.go:64-75 | one shard changes; as one flat map the index loses exactly the pair, and an emptied key |
| TopicIndex.AllGroups | internal/customer/topic/topic.go:57-65 | grouping by shard neither loses nor invents a topic, for any hash |
| TopicIndex.Group | internal/customer/topic/topic.go:57-65 | every non-empty topic of the input is in the group of its shard and in no other |
| TopicIndex.SetRelation | internal/customer/topic/topic.go:53-84 | the loop over groups, each on the shard of its index, equals linking all non-empty topics in one flat map; nothing for nil |
| TopicIndex.DelRelationByMap | internal/customer/topic/topic.go:87-117 | the loop over groups, each on the shard of its index, equals unlinking a set of topics in one flat map |
| TopicIndex.DelRelationBySlice | internal/customer/topic/topic.go:120-150 | the same for a list with duplicates and empty strings |
| TopicIndex.Del | internal/customer/topic/topic.go:152-187 | the topics leave the index; the caller gets the inner maps themselves, unchanged, and the index no longer owns them |
| TopicIndex.CountConn | internal/customer/topic/topic.go:224-243 | ranging over every shard gives the counts of all topics, as int32 |
| TopicIndex.CountConnByTopic | internal/customer/topic/topic.go:246-275 | the counts of exactly the known topics among those asked for |
| TopicIndex.GetConnListByTopic | internal/customer/topic/topic.go:279-297 | nothing for an unknown or empty topic, else every connection once |
| TopicIndex.GetConnListByTopics | internal/customer/topic/topic.go:300-333 | for each known topic among those asked for every connection once |
| TopicIndex.GetConnList | internal/customer/topic/topic.go:336-359 | ranging over every shard gives for every topic every connection once |
| ConnectionManager.Manager.Get | internal/customer/manager/manager.go:66-78 | the shard lookup equals the flat lookup |
| ConnectionManager.Manager.Set | internal/customer/manager/manager.go:80-94 | the flat map gains the entry, and the counter stays the number of entries modulo 2^32 |
| ConnectionManager.Manager.Del | internal/customer/manager/manager.go:96-108 | the flat map loses the entry, and the counter stays the number of entries modulo 2^32 |
| ConnectionManager.Manager.Len | internal/customer/manager/manager.go:110-112 | the counter is the number of entries modulo 2^32 |
| RegistryAgreement.OneConnection | internal/task/process/connInfoUpdate.go:46-76 | a command that rewires both indexes to one connection's new info keeps the agreement of all |
| RegistryAgreement.UpdateKeeps | internal/task/process/connInfoUpdate.go:42-76 | an update keeps the agreement |
| RegistryAgreement.DeleteKeeps | internal/task/process/connInfoDelete.go:42-66 | a deletion of info keeps the agreement |
| RegistryAgreement.SubscribeKeeps | internal/task/process/topicSubscribe.go:41-51 | subscribing and unsubscribing keep the agreement |
| RegistryAgreement.OpenKeeps | internal/customer/websocket.go:170-193 | registration on open keeps the agreement |
| RegistryAgreement.CloseKeeps | internal/customer/websocket.go:235-245 | closing keeps the agreement and unregisters the connection |
| RegistryAgreement.TopicDeleteKeeps | internal/task/process/topicDelete.go:38-67 | deleting topics keeps the agreement |
| RegistryAgreement.NotifiedExactly | internal/task/process/topicDelete.go:56-72 | told are exactly the registered connections that had one of the topics, and afterwards none has |
| RegistryAgreement.AgreementAlways | internal/customer/topic/topic.go:53-187 | after every run of commands a registered connection is indexed under exactly its topics and its customerId, nothing else is indexed, and no entry is empty |
| RegistryAgreement.ClosedForGood | internal/customer/websocket.go:235-245 | a closed connection is in no index after any further commands |
| RegistryEffects.SubscribeEffect | internal/task/process/topicSubscribe.go:45-51 | for a known connection that is not flagged: it enters the entries of exactly the listed non-empty topics, its info gains exactly these, and nothing else changes |
| RegistryEffects.UnsubscribeEffect | internal/task/process/topicUnsubscribe.go:45-51 | it leaves the entries of exactly the listed topics, its info loses exactly these, and nothing else changes |
| RegistryEffects.DeleteEffect | internal/task/process/connInfoDelete.go:44-66 | topics, session and customerId of the info are cleared, each exactly when asked for |
| RegistryEffects.DeleteInIndexes | internal/task/process/connInfoDelete.go:44-66 | the connection leaves the entries of its topics and of its customerId, each exactly when asked for |
| RegistryEffects.DeleteLeavesNothing | internal/task/process/connInfoDelete.go:49-66 | if connection and indexes agreed, what was deleted is in no entry any more |
| RegistryEffects.UpdateEffect | internal/task/process/connInfoUpdate.go:51-76 | a session, customerId or topic list that is not empty replaces the one of the info, an empty one changes nothing |
| RegistryEffects.UpdateInIndexes | internal/task/process/connInfoUpdate.go:54-76 | the connection moves from its old entries to exactly those of the new customerId and the new non-empty topics |
| RegistryEffects.NoEffect | internal/task/process/connInfoUpdate.go:39-50 | the four commands change nothing for a uniqId that is empty, unknown or flagged |
| RegistryEffects.TopicDeleteEffect | internal/task/process/topicDelete.go:38-72 | the listed entries go, and each listed topic goes from the info of exactly those in its entry; nothing else changes |
| RegistryEffects.OpenEffect | internal/customer/websocket.go:170-193 | opening registers the name, sets session, customerId and topics of the info where given, and enters exactly their entries |
| RegistryEffects.CloseEffect | internal/customer/websocket.go:235-245 | closing removes the name and leaves the entries of the topics and the customerId; the info is flagged and stays otherwise |
| Gateways.Gateway.SubscribeTopics | internal/wsServer/info.go:195-207 | the loop adds exactly the non-empty topics of the list |
| Gateways.Gateway.UnsubscribeTopics | internal/wsServer/info.go:210-214 | the loop removes exactly the topics of the list |
| Gateways.Gateway.PullTopics | internal/wsServer/info.go:188-192 | hands the topics over and leaves none |
| Gateways.Gateway.TopicSubscribe | internal/task/process/topicSubscribe.go:38-51 | the command on shards does what the command on flat maps does, including all early returns |
| Gateways.Gateway.TopicUnsubscribe | internal/task/process/topicUnsubscribe.go:38-51 | likewise |
| Gateways.Gateway.ConnInfoUpdate | internal/task/process/connInfoUpdate.go:39-76 | likewise, with rebinding of the customerId and replacement of the topics |
| Gateways.Gateway.ConnInfoDelete | internal/task/process/connInfoDelete.go:39-66 | likewise |
| Gateways.Gateway.TopicDelete | internal/task/process/topicDelete.go:38-72 | the nested loops do what the command on flat maps does, and each connection that lost a topic is sent the data exactly once |
| Gateways.Gateway.OnWebsocketOpen | internal/customer/websocket.go:170-193 | the registration tail does what the command on flat maps does |
| Gateways.Gateway.OnClose | internal/wsServer/server.go:64-80 | flag and cleanup do what the command on flat maps does |
| CloseRace.PerformLeadsThere | internal/task/process/connInfoUpdate.go:46-76 | one operation under the lock, or the part of it on one shard, does not change what the command leads to |
| CloseRace.CommandAsAWhole | internal/task/process/connInfoUpdate.go:46-76 | the steps of a command, run to the end, are the command as a whole and keep agreement |
| CloseTheorems.InvAlways | internal/wsServer/server.go:64-80 | the invariant of connection, lock, indexes and close handler holds over every interleaving |
| CloseTheorems.NoResidue | internal/customer/websocket.go:235-245 | once the close handler has ended the connection is in neither index, in every interleaving with any number of commands, and never re-enters |
| CloseTheorems.AgreementBetweenCommands | internal/task/process/topicSubscribe.go:45-51 | before the close handler's snapshot, connection and indexes agree whenever no command holds the lock |
| CloseTheorems.SnapshotIsFinal | internal/wsServer/info.go:108-116 | after the snapshot no step changes the topics or the customerId of the connection |
| CloseTheorems.FlagIsNeeded | internal/wsServer/server.go:67-76 | without the flag there is a run that ends with a topic left in the index |
| CloseProgress.CommandCompletes | internal/task/process/connInfoUpdate.go:46-76 | a command on a managed open connection whose lock is free runs to its end in its own steps, with the effect of the whole command and the lock free again |
| CloseProgress.CommandGivesUp | internal/task/process/topicSubscribe.go:45-48 | a command that finds the flag set gives up and changes nothing |
| CloseProgress.CloseCompletes | internal/wsServer/server.go:64-80 | when no writer holds the lock the close handler ends after seven steps: flagged, not managed, and out of the entries of its topics and its customerId |
| CloseProgress.NothingLeft | internal/customer/websocket.go:235-245 | so from agreement nothing is left in either index |
| RateLimiter.Limiter.Allow | internal/wsServer/info.go:88-106 | answers and changes its state as the step function says |
| RateLimiter.RateBound | internal/wsServer/info.go:88-106 | at most Z + M (1 + floor((tn - t1)/(W + 1))) calls are allowed on any clock that does not run backwards; t1 is the first reading, or 0 if that one fell into the initial window |
| RateLimiter.FirstCallsAllowed | internal/wsServer/info.go:89-93 | the first Z + M calls are never refused |
| RateLimiter.RefusalMeansBusy | internal/wsServer/info.go:94-105 | a refusal means that M calls were allowed since a moment at most W seconds ago |
| PacketStream.Process | internal/worker/process.go:63-152 | the read loop yields the commands and the end of the specification for any stream |
| PacketStream.ReaderRecovers | internal/worker/packet.go:71-75 | the reader recovers exactly the commands and bodies of acceptable packets, whatever follows them |
| PacketStream.CutPacket | internal/worker/process.go:95-105 | a packet that is cut off yields no command |
| PacketStream.OverLimit | internal/worker/process.go:83-93 | a length above the limit ends the reading, whatever follows, before a byte of it is awaited |
| PacketStream.CutShort | internal/worker/process.go:71-103 | fewer than four bytes, or fewer than announced, are the end of the stream |
| PacketStream.HeartbeatIsSkipped | internal/worker/process.go:105-107 | a heartbeat is passed over |
| PacketStream.TooSmall | internal/worker/process.go:109-116 | a packet below four bytes that is no heartbeat ends the reading |
| PacketStream.Unknown | internal/worker/process.go:142-150 | so does a command that nobody knows |
| PacketStream.ActedOnIsAcceptable | internal/worker/process.go:63-152 | on any stream every command that is acted on is known and fits the limit |
| PacketStream.HeaderOctets | internal/worker/packet.go:71-75 | the header is the length of command and body in four octets, then the command in four, highest first |
| WorkerTheorems.SendKeeps | internal/worker/conn.go:149-174 | every call of send keeps the wire accounted for, aligned, and shut once a packet is torn, unless it fails while another goroutine is between taking the close lock and closing the socket |
| WorkerTheorems.CallAlone | internal/worker/conn.go:149-174 | one call without other closers: all packets in order on the wire, or on a failure exactly the bytes that got through; the connection is closed exactly if there were any or the deadline could not be set |
| WorkerTheorems.WritesOfABatch | internal/worker/conn.go:111-135 | a batch below the limit goes out in one write, any other in one write for each packet |
| WorkerTheorems.TornIsTheEndIff | internal/worker/conn.go:56-68 | a torn packet ends the stream, whatever batches follow in whatever weather, exactly when nobody else was in that window or the failure log has ended the loop |
| WorkerTheorems.WindowIsReachable | internal/worker/conn.go:56-68 | a first write on a new line that tears a packet inside the window and leaves the loop running |
| WorkerTheorems.WireIsAligned | internal/worker/conn.go:93-147 | over whole runs in which no write fails part-way while another goroutine is between taking the close lock and closing the socket (`LuckyRun`), the wire is packets in order, each whole or absent, with at most one torn packet after which nothing follows |
| WorkerTheorems.PromptIsLuckyRun | internal/worker/conn.go:56-68 | closers without that window make every run satisfy the hypothesis of alignment |
| WorkerTheorems.InOrderAndReturnedOnce | internal/worker/conn.go:136-146 | packets go out in queue order and back to the pool once each, all of them while the loop runs |
| WorkerTheorems.LogPanicsExactly | internal/worker/conn.go:162-173 | the failure log panics exactly if the written bytes end inside a header, or inside a body that is not the last when the buffer behind the rest of it, or behind a later body that is not the last, is shorter than a header |
| WorkerTheorems.CallPanicsExactly | internal/worker/conn.go:149-174 | a call of send panics exactly if its write fails after the deadline was set, with such a cut |
| WorkerTheorems.RunningExactly | internal/worker/conn.go:70-147 | the loop is still running exactly when no call of any batch was of that kind |
| WorkerTheorems.ReturnedOnceExactly | internal/worker/conn.go:136-146 | every dequeued packet has been returned, once and in order, exactly when no call was of that kind |
| WorkerTheorems.PanicMeansTorn | internal/worker/conn.go:162-173 | the failure log ends the loop only if a packet was torn |
| WorkerTheorems.TornHeaderPanics | internal/worker/conn.go:166-167 | a cut inside any header, the first or a later one, makes the failure log panic |
| WorkerTheorems.BatchesOrSinglesAreTheSame | internal/worker/conn.go:111-135 | without failures the wire is all packets, whichever go out in batches and whichever one by one |
| WorkerTheorems.ReaderSeesWholePackets | internal/worker/process.go:63-119 | the reader of an aligned wire recovers exactly the packets written whole |
| WorkerConn.Conn.Send | internal/worker/conn.go:149-174 | the method changes the line as the function says, closes after a partial write, and panics in the log exactly when a slice is too short |
| WorkerConn.Conn.Fill | internal/worker/conn.go:98-110 | the buffer holds header and body of every packet in order, and the size is right |
| WorkerConn.Conn.SendSingles | internal/worker/conn.go:121-135 | the packet-by-packet loop is the specified one |
| WorkerConn.Conn.Release | internal/worker/conn.go:136-145 | every packet goes back once, and the buffer and the array are cleared |
| WorkerConn.Conn.Turn | internal/worker/conn.go:93-147 | one turn of the send loop is one batch of the specification |
| PacketOwnership.OwnedAlways | internal/worker/conn.go:194-230 | after every run of senders, queue, loop and workers every packet ever made is in exactly one place, once |
| PacketLoops.SendLoop.CopyOut | internal/queue/amqp091/queue.go:83-91 | the copy is the batch, and afterwards no entry of the batch array names a packet |
| PacketLoops.SendLoop.SubmitBatch | internal/queue/redisQueue/queue.go:114-140 | on the arrays a batch goes to a worker, or back to the pool when it is refused, as in the protocol |
| PacketLoops.SendLoop.SubmitSingles | internal/queue/redisQueue/queue.go:141-162 | on the array the packets go out one by one, each entry cleared after its packet was handed over, as in the protocol |
| PacketLoops.SendLoop.WorkerDone | internal/queue/redisQueue/queue.go:123-128 | the deferred loop of a worker gives its copy back, once and in order |
| PacketLoops.ReturnedIsStepwise | internal/queue/redisQueue/queue.go:131-134 | giving a refused batch back in a loop is what the single steps of the protocol do |
| PacketLoops.WorkerReturnedIsStepwise | internal/queue/amqp091/queue.go:101-104 | and so is a worker's deferred loop |
| PacketLoops.SentIsQueued | internal/worker/conn.go:209-222 | a packet that the queue accepts is at its end, and no longer with the sender or in the pool |
| PacketLoops.RefusedIsReturned | internal/worker/conn.go:203-220 | a packet that the queue refuses or that could not be filled is back in the pool, and the queue is as it was |
| PacketLoops.BatchReturns | internal/worker/conn.go:93-147 | a batch that the loop has written is back in the pool, in the order of the queue |
| PacketLoops.CopyReturns | internal/queue/amqp091/queue.go:83-104 | so is one whose copy a worker has sent |
| PacketOwnership.PooledPacketsAreFree | internal/queue/amqp091/queue.go:81-119 | a packet in the object pool is there once and held by no sender, queue, loop or worker |
| PacketOwnership.QuietMeansAllReturned | internal/worker/conn.go:194-230 | when everyone is done every packet is back, except those of a loop that died of a panic |
| TokenPools.PoolConserved | internal/queue/amqp091/connPool.go:37-55 | tokens, idle sockets and goroutines that owe one always add up to the pool size |
| TokenPools.SendsNeverBlock | internal/queue/amqp091/connPool.go:149-155 | no goroutine about to send on either channel ever finds it full |
| TokenPools.SocketsAreExclusive | internal/queue/amqp091/channelPool.go:256-308 | a socket in use is used by one goroutine, has reference count one and is not in the pool |
| TokenPools.QuietPoolIsWhole | internal/queue/amqp091/channelPool.go:97-112 | when nobody owes anything the pool can again hand out all its sockets |
| PoolOutcomes.ReleaseEnds | internal/queue/amqp091/channelPool.go:296-308 | under any scheduling a release is still under way, or one of its steps put the socket into the pool and nothing else, or put a token back for a closed one |
| PoolOutcomes.OpenIsReturned | internal/queue/amqp091/channelPool.go:303-307 | a socket that stays open goes back into the pool, and the tokens stay as they are |
| PoolOutcomes.ClosedIsRefunded | internal/queue/amqp091/connPool.go:149-155 | for a closed socket a token goes back |
| PoolOutcomes.AloneReleases | internal/queue/amqp091/channelPool.go:296-308 | in any reachable state a release that runs alone ends with an open socket in the pool, or with one more token for a closed one |
| PoolOutcomes.ClosedSocketIsGone | internal/queue/amqp091/channelPool.go:303-306 | a closed socket that was released is in nobody's hands and not in the pool, whatever happens afterwards |
| PoolOutcomes.AloneTakesIdle | internal/queue/amqp091/channelPool.go:257-262 | a get that runs alone takes the idle socket that has waited longest |
| PoolOutcomes.AloneCreates | internal/queue/amqp091/channelPool.go:263-279 | with nothing idle and a token free it uses the token for a new open socket |
| PoolOutcomes.AloneFails | internal/queue/amqp091/channelPool.go:265-271 | if dialing fails the token goes back |
| PoolOutcomes.AloneDialsClosed | internal/queue/amqp091/channelPool.go:266-271 | so it does if the new socket is closed when it is looked at |
| PoolOutcomes.AloneWaits | internal/queue/amqp091/channelPool.go:280-288 | with nothing idle and no token it waits |
| PoolOutcomes.AloneBeats | internal/queue/amqp091/channelPool.go:97-112 | a heartbeat that runs alone keeps exactly the open idle sockets, in order, and exchanges each closed one for a token |
| RoundRobin.Collect.Get | internal/worker/collect.go:30-38 | chooses by the 32-bit counter, nobody from an empty list |
| RoundRobin.Collect.Set | internal/worker/collect.go:40-53 | registers a member once, at the end; the list stays free of duplicates |
| RoundRobin.Collect.Del | internal/worker/collect.go:55-68 | removes the first member of the name and keeps the order of the others |
| RoundRobin.Collect.GetMany | internal/worker/collect.go:30-38 | consecutive choices are the places after the counter value, and each member is chosen as often as its place is counted |
| RoundRobin.Share | internal/worker/collect.go:31-37 | without a wrap each member is chosen its share of the times: exactly when the number of members divides the number of choices, else rounded down or up |
| RoundRobin.FairWithoutWrap | internal/worker/collect.go:31-37 | without a wrap no two members' numbers of choices differ by more than one |
| RoundRobin.FairAlwaysIff | internal/worker/collect.go:31-37 | that holds in every run, wraps included, if and only if the number of members divides 2^32 |

## Left out

- HTTP upgrade, header negotiation and SHA-1: string handling without state that the other parts depend on.
- Inflating, UTF-8 validity and whether a pong can be written are functions of the environment; the theorems hold for all of them.
- The 16-byte blocks of the masking routine: modelled byte by byte.
- The memory layout of the queue (stride, padding, unsafe access): the slots are two arrays; Gosched is no step.
- Real time, timers and heartbeat intervals: a timer that fires is an environment choice.
- TopicIndex.SetRelation: the connection objects in the inner maps are named by their ids, which are assumed distinct; the objects' own fields are in `Gateway`.
- Gateways.Gateway.OnWebsocketOpen: runs as one step, as `TopicDelete` does; a close between the last closed check of the open tail (internal/customer/websocket.go:151) and its registration is not interleaved.
- Gateways.Gateway.SubscribeTopics: the infos of all connections are entries of one map that the methods reassign, so two names for one connection object are not modelled.
- CloseTheorems.NoResidue: assumes that the open registration has finished and that no topic deletion runs at the same time.
- PacketStream.ReaderRecovers: bodies are below 2^32 - 4 bytes, where the length field wraps.
- PacketOwnership.OwnedAlways: the garbage collector emptying the object pool is not a step.
- TokenPools.PoolConserved: a panic inside the AMQP library while a goroutine holds a token is not a step.
- WorkerConn.Conn.Release: the slices of the buffer that are still set while packets go back are never read again and count as dropped.
- The listing members Len, Get, GetCustomerIds, GetUniqIds and GetConnections: the same loops as those modelled.
- The reading loop of internal/task/process/process.go: the same framing as `PacketStream.Process`, with other commands.
- Confirm accounting of AMQP channels: its size map and the confirm channel race, so the code does not decide exact counts.
- Metrics, logging other than the panic above, configuration, callbacks over HTTP, Redis and AMQP network calls, id generation.
