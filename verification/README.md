# HurriCache Python client: a verified model

This project models the parts of the HurriCache gRPC client (`hurricache/grpc`) that carry its
promises: splitting bulk requests into messages below the size limit, sending the pieces and
reporting partial progress, routing operations over a changing topology, operation deadlines,
and folding response streams. The synchronous and asynchronous clients run the same algorithms;
each is modelled once.

The modules, bottom up:

- `Basics`, `Wire`, `Messages`, `Recovery`, `WireExamples`: the Protocol Buffers encoding (varints and length-delimited
  records, Protocol Buffers Encoding, "Base 128 Varints" and "Length-Delimited Records") and the
  request messages of `proto/cache.proto` with their field numbers. `ByteSize` is the length of
  the actual encoding; `Recovery` shows that requests are recovered from it, and `WireExamples`
  lists the records of every message.
- `Greedy`, `Chunker`, `Batching`: greedy cutting as an abstract problem, the linear chunker, and
  the planner with its preflight, binary search, position shift, hint reserve and reversal.
  `Batching.PlanOf` is what the imperative `Batching.Plan` returns unless the deadline passes.
- `PlanItems`, `PlanTheorems`, `Continuations`: cover, fit, acceptance, positions, maximality,
  optimality, refinement of the linear chunker, sizes of the continuations of a creation.
- `Containers`, `Server`, `Meaning`, `InsertBefore`, `Creations`, `Resuming`: an abstract server, the
  preservation of meaning under chunking, and what a partly executed plan leaves.
- `LargeRequests`, `PivotCaptured`, `OversizedHeaders`: concrete requests at the size limit.
- `Operation`, `Sender`, `SenderTheorems`, `Acknowledged`, `Router`: the context variables, the
  sending loops over a server that may answer anything, and the two attempts of a smart client.
- `Topology`, `Shards`, `Refresh`, `SmartClient`: route tables, shard selection, and the smart
  client as a state machine whose steps interleave arbitrarily.
- `Payloads`, `Streams`, `StreamTheorems`, `Decoding`: decoding, and folding the batches of a stream.

The abstract server is an assumption, taken from the comments of `proto/cache.proto:646-656` and
from what `tests/test_live_parity.py:45-57` demands of chunked and unchunked calls: adding to the
tail appends; adding to the head pushes one element after the other; adding at a position inserts
there, 0xFFFFFFFF appends and a position past the end changes nothing; insertion by value acts on
the first occurrence of the pivot, and without one changes nothing; maps and sets overwrite.

## Where the obvious claim is false

- Insert-before: chunking changes the result when an inserted value equals the pivot and later
  chunks then find the copy. `InsertBefore.ChunkedInsertBefore` gives the exact condition on the
  chunks, `PivotCaptured.ChunkingInsertsElsewhere` a concrete request of two large values.
- A creation of container type UNDEFINED (0): its continuations write the type, which the create
  chunk leaves out, and can be two bytes too large although the plan succeeded; this is found
  before the first RPC. `Continuations.ContinuationPreflight` says exactly when,
  `OversizedHeaders.UntypedCreationRefused` is such a request. Every public creator passes a
  nonzero type (`hurricache/grpc/client.py:638-782`, `hurricache/grpc/async_client.py:308-331`), so
  only a direct call of the private `_create_container_chunked` gets there.
- Overflow of the uint32 total: the overflowing chunk is reported as completed but its reply is
  not in the reported total (`SenderTheorems.ReportedTotal`, and `SenderTheorems.OverflowLosesReply`
  for the replies 0xFFFFFFFF and 1).
- Merging coordinator responses: a response with max_shards 0 is passed over before a positive one
  and refused after it (`Topology.MergeAcceptsExactly`, `Topology.MergeOrderMatters`).
- A topology with a target that cannot be parsed stops the application halfway: the old table
  stays in force while some of its clients are already retired. `Refresh.FailedApplyConsistent`
  says when the old routes still resolve and `Refresh.FlushExactly` when a retired client is left
  on an idle object; `Refresh.FailedApplyLeavesDeadRoute` is a concrete run.
- Streams: an empty first batch makes the result a list, so later map batches add only their keys
  (`StreamTheorems.MapCollectedExactly`, `StreamTheorems.EmptyFirstBatchExample`); a list batch
  after a map batch fails but is counted (`StreamTheorems.FailureCarriesPrefix`).
- Round robin reaches every shard once per max_shards calls if and only if the counter does not
  wrap meanwhile or max_shards divides 2^31 (`Shards.RoundRobinExact`).
- The linear chunker and the planner differ on a request without items whose header is over the
  limit: the linear one returns one empty chunk without looking at the header, the planner refuses
  it (`PlanTheorems.PlanRefinesLinear`, and `OversizedHeaders.LinearMissesHeader` for a large key).
- One deadline: the clock is read to compute the timeout, once more by the size check, and then
  time passes until the request leaves. Both readings are before the deadline, but the timeout
  may exceed the time left when the request leaves, and the request may even leave after the
  deadline. `Operation.TimeoutFits` says exactly when the timeout fits and bounds how long an RPC
  can outlive the deadline. `Operation.LateIsLast` says that of all RPCs made one after the other
  under a deadline only the last can leave late, so that all leave in time if and only if the last
  one does; `Operation.LastMayBeLate` that a last one always may, however the others went;
  `Operation.OverrunningReadings` gives readings. It holds of every program of nested operations
  (`Operation.Context.Run`) and across both attempts of a smart operation (`Router.Execute`).

## Model

| member | source | states |
|---|---|---|
| Wire.EncodeRoundTrip | proto/cache.proto:210-256 | a list of records is read back from its encoding |
| Recovery.RequestsAreRecovered | proto/cache.proto:210-256 | two requests of one message type with the same bytes are the same request, down to every key, value, hint and lock |
| WireExamples.FormatExamples | hurricache/grpc/batching.py:69 | the varints and records that the description of the wire format spells out, byte for byte |
| WireExamples.PartRecords | proto/cache.proto:1-50 | records of payloads, hints, compression and locks, and what is left out when it is zero |
| WireExamples.KeyRecords | proto/cache.proto:29-43 | the records of a key and an ordered key with all fields set |
| WireExamples.ValueRecords | proto/cache.proto:53-67 | the records of a value and an ordered value with all fields set |
| WireExamples.CreateRecords | proto/cache.proto:210-223 | the records of a create request with all fields set, and of an empty one |
| WireExamples.AddRecords | proto/cache.proto:226-240 | the records of an add request with all fields set |
| WireExamples.OtherRecords | proto/cache.proto:243-257 | the records of an insertion by value and of a removal |
| Messages.ByteSizeSplits | hurricache/grpc/batching.py:69 | the encoded length is the header plus tag, length and body of every item, for all four request types |
| Messages.ReservedKeyIsLargest | hurricache/grpc/batching.py:43-45 | a key with both hash words set to 0xFFFFFFFF is at least as long as with any hint or none |
| Greedy.DroppingShrinks | hurricache/grpc/batching.py:50-53 | leaving out the first items makes a chunk smaller even if the position varint grows |
| Greedy.StaysAhead | hurricache/grpc/batching.py:62-74 | greedy cutting never needs more pieces than any other fitting cutting, from any start not behind it |
| Greedy.GreedyIsUnique | hurricache/grpc/batching.py:62-74 | a cutting whose pieces fit and are maximal is the greedy one |
| Batching.Check | hurricache/grpc/batching.py:10-13 | fails exactly for an expired deadline or an encoded size over the limit |
| Batching.BuildChunk | hurricache/grpc/batching.py:47-57 | builds the header shifted by start with items start..end, or fails when pos + end leaves uint32 |
| Batching.BuildSize | hurricache/grpc/batching.py:47-57 | the size of a built chunk is the load the greedy problem assigns to those items |
| Batching.FurthestEnd | hurricache/grpc/batching.py:66-72 | the binary search finds the furthest end that fits |
| Batching.PreflightExact | hurricache/grpc/batching.py:60-61 | the preflight passes if and only if every single item passes |
| Batching.Plan | hurricache/grpc/batching.py:35-79 | the imperative planner returns PlanOf of its input, unless the deadline has passed |
| PlanItems.BuiltItems | hurricache/grpc/batching.py:16-32 | taking apart a message built from well-shaped items gives back those items: no pair is split, removal keys and values stay apart and in order |
| PlanItems.ListItemsAre | hurricache/grpc/batching.py:22-32 | which field combinations form items, item i in terms of the fields, and when lengths are reported as unequal |
| PlanItems.OtherItemsAre | hurricache/grpc/batching.py:17-21 | the items of insertions by value and of removals, keys before values |
| PlanItems.Rebuilt | hurricache/grpc/batching.py:36-40 | clearing a request and appending its own items restores it |
| PlanTheorems.ChunksCoverExactly | hurricache/grpc/batching.py:62-79 | with the reversal undone, chunk i holds exactly the next count items under the shifted header; all items are covered once and only an empty request gives an empty chunk |
| PlanTheorems.ChunksFit | hurricache/grpc/batching.py:59-74 | every chunk of a successful plan, as sent, is within MAX_RPC_SIZE |
| PlanTheorems.PlanAccepts | hurricache/grpc/batching.py:35-79 | a plan exists if and only if fields form items, header and each item alone fit, and the position stays in uint32 |
| PlanTheorems.PlanErrors | hurricache/grpc/batching.py:10-61 | planning fails for size or shape of the input only |
| PlanTheorems.PositionTest | hurricache/grpc/batching.py:50-53 | when sizes fit, planning fails if and only if pos + n > 0xFFFFFFFF for a position other than the sentinel, with the position error |
| PlanTheorems.ChunkPosition | hurricache/grpc/batching.py:50-53 | chunk i is at the requested position plus the items before it, and never at the append sentinel |
| PlanTheorems.ChunksAreMaximal | hurricache/grpc/batching.py:66-73 | no chunk but the last could hold one more item, measured with the reserved header |
| PlanTheorems.PlanIsOptimal | hurricache/grpc/batching.py:62-74 | no partition of the items into consecutive fitting requests has fewer parts than the plan |
| PlanTheorems.FittingRequestIsWhole | hurricache/grpc/batching.py:35-79 | a request is sent unchanged in one piece if and only if it is within the limit |
| Chunker.ChunkMessages | hurricache/grpc/utils.py:182-194 | the linear loop fails if and only if one element is too large and otherwise returns the greedy slices |
| PlanTheorems.PlanRefinesLinear | hurricache/grpc/batching.py:35-79 | without a position, planner and linear chunker cut at the same places and reject the same inputs, except for an oversized header without items |
| OversizedHeaders.LinearMissesHeader | hurricache/grpc/utils.py:182-194 | a concrete request without items that the planner refuses and the linear chunker accepts |
| Continuations.ContinuationSize | hurricache/grpc/batching.py:82-88 | exact size of a continuation against the reserved create chunk, including the two bytes of type 0 |
| Continuations.ContinuationsFit | hurricache/grpc/client.py:203-207 | for every other type, each continuation with any uint32 hint or none is within the limit |
| Continuations.ContinuationPreflight | hurricache/grpc/client.py:204-207 | for every type, exactly when the preflight of a continuation passes, and that it covers every hint |
| OversizedHeaders.UntypedCreationRefused | hurricache/grpc/client.py:203-207 | a concrete creation of type 0 whose plan succeeds and whose continuation is two bytes over the limit |
| Meaning.ChunkingPreservesMeaning | hurricache/grpc/batching.py:47-79 | on every container, the transmitted chunks in planned order have the effect of the one unbounded request (all requests but insert-before; insert-after unconditionally) |
| Meaning.PlanIsLive | hurricache/grpc/client.py:231-232 | all planned chunks are transmitted, except the single empty chunk of an empty request |
| Server.OneElement | proto/cache.proto:646-653 | the assumed effect of adding one element to a sequence: tail, head, position, sentinel, past the end |
| Server.BesidePivot | proto/cache.proto:655-656 | the assumed effect of inserting one element before or after the first occurrence of a pivot, or without one |
| Server.MapHolds | proto/cache.proto:652-653 | in a map the last value added for a key counts and other keys are left alone |
| Server.OrderedMapHolds | proto/cache.proto:652-653 | the same for an ordered map, by key and weight |
| Server.SetHolds | proto/cache.proto:652-653 | a set holds what it held and what was added |
| Server.WeightsHold | proto/cache.proto:652-653 | in a weighted set the last weight added for an element counts |
| Server.RemovesOne | proto/cache.proto:636 | the assumed effect of one removal on each kind of container |
| Server.ContainerOfType | proto/cache.proto:198-207 | the numbers of the container types, and the container and continuation call of each |
| Resuming.PrefixMeaning | hurricache/grpc/batching.py:62-74 | the first k chunks have the effect of the first items of the request, for insert-before if no inserted value is the pivot |
| Resuming.SuffixMeaning | hurricache/grpc/batching.py:77-78 | the last k chunks of an insert-after, last one first, have the effect of its last items |
| Resuming.ResumingCompletes | hurricache/grpc/batching.py:47-79 | after k chunks the container is that of the first (or last) items alone, and the items left, applied as one request, complete the whole |
| Resuming.PartIsPlanned | hurricache/grpc/batching.py:47-61 | any nonempty run of items of a planned request, with the position moved along, is accepted by the planner |
| Resuming.RemainingCanBeSent | hurricache/grpc/batching.py:35-79 | so the request of the items left is accepted, and its own chunks complete the whole |
| Resuming.ResumeAfterPartial | hurricache/grpc/client.py:233-247 | the same from the partial error itself: its item count says what has been done, and sending the rest completes the whole |
| InsertBefore.InsertBeforeExact | hurricache/grpc/batching.py:77-78 | inserting parts before a pivot one after the other equals one insertion if and only if the pivot is missing or the parts are pivot-safe |
| InsertBefore.ChunkedInsertBefore | hurricache/grpc/batching.py:77-78 | the same for the planned chunks of an insert-before request |
| InsertBefore.ChunkedInsertBeforeFree | hurricache/grpc/batching.py:77-78 | meaning is preserved when no inserted value equals the pivot |
| LargeRequests.TwoChunks | hurricache/grpc/batching.py:62-74 | two items that fit alone but not together are planned as two chunks |
| PivotCaptured.PlannedInTwo | hurricache/grpc/client.py:1477-1484 | a concrete request, built as the client builds it from two values of 1,250,000 bytes, is planned as two chunks |
| PivotCaptured.ChunkingInsertsElsewhere | hurricache/grpc/batching.py:77-78 | for that request, whose first value is the pivot, chunking changes the result |
| Creations.CreationPreservesMeaning | hurricache/grpc/client.py:198-222 | creating from the first chunk and continuing with the others gives the container of the whole request, for every type and hint |
| Creations.SharedTtlKeeps | hurricache/grpc/client.py:199-202 | sharing the ttl changes the expiration of the values of MAP, ORDERED_MAP and ORDERED_SET, and nothing else: key, lock, keys, places, payloads and orders stay |
| Creations.SharedTtlCreates | hurricache/grpc/client.py:199-202 | the request with the shared ttl creates the same container |
| Creations.SentCreationPreservesMeaning | hurricache/grpc/client.py:198-222 | what is really planned and sent creates the container the caller asked for |
| Creations.OneExpiration | hurricache/grpc/client.py:199-202 | in every create chunk and continuation of a map or ordered set, values expire with the container |
| Operation.Context.Remaining | hurricache/grpc/operation.py:24-31 | fails exactly when the deadline has passed, else the smaller of timeout and time left |
| Operation.Context.AbsoluteTtl | hurricache/grpc/operation.py:19-21 | expiration relative to the operation's start, or to the wall clock without one |
| Operation.Context.Enter | hurricache/grpc/operation.py:34-48 | an outer deadline and time base win over own ones; on failure the context is unchanged, and why it failed |
| Operation.Context.Leave | hurricache/grpc/operation.py:49-52 | the three saved values are back |
| Operation.Context.Run | hurricache/grpc/operation.py:34-52 | over every program of nested operations, sequences, exceptions and handlers: the events are the program's, nothing is refused without a reason, context restored, every RPC budgeted and checked under the deadline, RPCs in turn and at most the last one late, one time base |
| Operation.Context.RunOperation | hurricache/grpc/operation.py:34-52 | the outermost operation with a timeout fixes one deadline, the outermost operation one time base, for all RPCs and expirations inside; at most the last RPC leaves late |
| Operation.TimeoutFits | hurricache/grpc/client.py:160-164 | exactly when an RPC's timeout fits the time left as it leaves, and how long it can outlive the deadline |
| Operation.LateIsLast | hurricache/grpc/operation.py:24-31 | of the RPCs made in turn under a deadline all but the last leave before it, and all do if and only if the last does |
| Operation.LastMayBeLate | hurricache/grpc/client.py:160-164 | after any such RPCs, one that passes both its checks may leave at any time from the deadline on |
| Operation.OverrunningReadings | hurricache/grpc/client.py:160-164 | clock readings for which it does not fit, and for which the request leaves after the deadline |
| Operation.RefusedExactly | hurricache/grpc/operation.py:24-31 | an RPC is refused if and only if the deadline has passed at one of its two checks |
| Sender.Node.Invoke | hurricache/grpc/client.py:158-169 | an RPC is budgeted, checked and then sent, with the three moments and the timeout on record, or refused for deadline or size; the log grows by this call |
| Sender.AddChunked | hurricache/grpc/client.py:224-248 | plan errors come before any RPC; otherwise all calls go to the given method, they and the outcome match the ledger Settled, and no call fails for its size |
| Sender.SendPlanned | hurricache/grpc/async_client.py:477-496 | the sending loop: calls carry a prefix of the chunks, none follows a failure, counters and total are those of the calls |
| Sender.LedgerStep | hurricache/grpc/client.py:233-247 | every possible answer to the next chunk extends the ledger or settles the operation |
| Sender.PreflightContinuations | hurricache/grpc/client.py:204-207 | succeeds only if every continuation with the full hint fits, and fails only if one does not or the deadline has passed |
| Sender.CreateChunked | hurricache/grpc/client.py:198-222 | plans the request with its shared ttl; the create chunk goes first, continuations follow in order with the returned hint; size errors come before any RPC |
| Sender.SendCreation | hurricache/grpc/async_client.py:292-306 | the creation's loop: outcome and counters are those of the calls |
| SenderTheorems.AddOutcomeIsDetermined | hurricache/grpc/client.py:229-248 | the calls leave no choice of outcome |
| SenderTheorems.CreationOutcomeIsDetermined | hurricache/grpc/client.py:208-222 | the same for creations |
| SenderTheorems.CountVerdict | hurricache/grpc/client.py:229-248 | exactly when a counted add raises, returns a total (the sum of all replies) or is partial, and why |
| SenderTheorems.PartialFlag | hurricache/grpc/client.py:235-245 | in boolean mode the partial result is true unless a chunk was answered with zero |
| SenderTheorems.CreationVerdict | hurricache/grpc/client.py:208-222 | exactly when a creation raises, succeeds or is partial, by the answers and the container type |
| SenderTheorems.CreationCalls | hurricache/grpc/client.py:208-215 | the create request goes to createContainer with the caller's key, type, ttl and lock; continuations go to the method for the type and carry it, the items of their chunk and the hint the server sent (or the caller's own), and the caller gets that hint |
| SenderTheorems.ReportedTotal | hurricache/grpc/client.py:239-241 | a partial total is at most 0xFFFFFFFF, and equals the replies of the reported chunks if and only if all replies together fit uint32 |
| SenderTheorems.OverflowLosesReply | hurricache/grpc/client.py:239-241 | the outcome for the replies 0xFFFFFFFF and 1 |
| SenderTheorems.BooleanVerdict | hurricache/grpc/client.py:242-248 | True iff no planned chunk got zero, False iff the first did, partial error iff a later one did |
| SenderTheorems.ReportedItems | hurricache/grpc/client.py:229-247 | reported items are exactly an input prefix, or for insert-after an input suffix |
| SenderTheorems.CreationPreflightPasses | hurricache/grpc/client.py:203-207 | a planned creation of any type but UNDEFINED passes the continuation preflight |
| Acknowledged.RaisedMeansNothingAnswered | hurricache/grpc/client.py:235-238 | an error raised as such, not as partial, means that no chunk was acknowledged |
| Acknowledged.OnceEach | hurricache/grpc/client.py:224-248 | one attempt acknowledges each item at most once, as a prefix or suffix of the input |
| Acknowledged.NoReplay | hurricache/grpc/smart_client.py:282-294 | over both attempts each item is acknowledged at most once |
| Router.EndpointsFromSnapshot | hurricache/grpc/smart_client.py:268-281 | at most two distinct endpoints, clients of the snapshot, none only if neither role has a client |
| Router.EndpointsFollowRoutes | hurricache/grpc/smart_client.py:268-292 | read off routes and clients: which client is called first in every mode, which one after an unavailable node, and which one after a redirect |
| Router.UnavailableTriesBoth | hurricache/grpc/smart_client.py:270-292 | an unavailable node is followed by the other role's client exactly when mode and topology allow two, and in a one-role mode the other client is reached by a redirect only |
| Router.FallbackIsOther | hurricache/grpc/smart_client.py:285-292 | the second attempt goes to a different client of the snapshot, after an unavailable node or a redirect only |
| Router.Perform | hurricache/grpc/client.py:224-248 | a client method in its own nested operation: context restored, calls in time, outcome as settled |
| Router.Attempt | hurricache/grpc/smart_client.py:282-294 | both attempts: who is called, that the second follows only unacknowledged work, no replay, at most the last RPC late |
| Router.Execute | hurricache/grpc/smart_client.py:254-294 | the whole operation with its wait for readiness, on a snapshot: the clients the routes, the mode and a redirect demand, one deadline for all RPCs, which are made in turn with the caller's timeout and at most the last one late, no replay, context restored |
| Topology.TopologyFrom | hurricache/grpc/smart_client.py:56-74 | succeeds if and only if the response is usable, with exactly the declared routes and targets |
| Topology.TwoPeers | hurricache/grpc/smart_client.py:61-74 | the table of a concrete response with a master and a backup |
| Topology.PeerOrderIsIrrelevant | hurricache/grpc/smart_client.py:61-71 | permuting or repeating peers changes neither acceptance nor the table |
| Topology.MergeTopology | hurricache/grpc/smart_client.py:77-84 | succeeds if and only if the counts are mergeable and the merged response is usable |
| Topology.MergeAcceptsExactly | hurricache/grpc/smart_client.py:80-82 | a positive count results if and only if zeros come first and all other counts agree |
| Topology.MergeOrderMatters | hurricache/grpc/smart_client.py:80-82 | two responses accepted in one order and refused in the other |
| Topology.MergeIsInvariant | hurricache/grpc/smart_client.py:77-84 | responses sharing one positive count may be permuted, split or joined |
| Shards.HintSurvivesWire | hurricache/grpc/utils.py:31-38 | a hint selects the same shard before and after it was written to and read from a message |
| Shards.HintWords | hurricache/grpc/utils.py:31-38 | each written hash word is its own hash modulo 2^32, and present exactly when that is |
| Shards.SelectsOne | hurricache/grpc/smart_client.py:239 | a hash selects at most one shard |
| Shards.SmallHashes | hurricache/grpc/smart_client.py:239 | a hash below the shard count is the shard, and adding the shard count within a word changes nothing |
| Shards.WholeWords | hurricache/grpc/smart_client.py:239 | adding any multiple of 2^32 to the hash changes nothing |
| Shards.HashModuloWord | hurricache/grpc/smart_client.py:239 | hinted routing depends on the hash modulo 2^32 only |
| Shards.RoundRobinExact | hurricache/grpc/smart_client.py:235-238 | max_shards consecutive hintless calls hit each shard once if and only if the counter does not wrap or max_shards divides 2^31 |
| Refresh.ClientsAreConserved | hurricache/grpc/smart_client.py:207-232 | in every run, failing applications included, each created client is current, retired, pending or closed, exactly once |
| Refresh.NothingPending | hurricache/grpc/smart_client.py:229-232 | with no close outstanding, every client ever created is current, retired or closed |
| Refresh.NoneClosedInFlight | hurricache/grpc/smart_client.py:257-302 | in every run the active counter is the number of operations in flight and none of their clients is closed or about to be |
| Refresh.IdleMeansFlushed | hurricache/grpc/smart_client.py:229-232 | if all targets parse, nothing is retired whenever nothing is in flight |
| Refresh.FlushExactly | hurricache/grpc/smart_client.py:211-232 | the one step that breaks this is a failing application on an idle client that dropped a target |
| Refresh.ApplyExact | hurricache/grpc/smart_client.py:211-227 | when an application fails, which targets have a client afterwards, and that kept targets keep theirs |
| Refresh.SnapshotsAreConsistent | hurricache/grpc/smart_client.py:257-260 | if all targets parse, every snapshot has shards and a client for each of its routes |
| Refresh.SnapshotIsKept | hurricache/grpc/smart_client.py:257-260 | an operation in flight holds the table and the clients of the moment it began, whatever happened since |
| Refresh.FailedApplyConsistent | hurricache/grpc/smart_client.py:211-216 | after a failed application the old routes resolve if and only if the new topology lists all their targets |
| Refresh.FailedApplyLeavesDeadRoute | hurricache/grpc/smart_client.py:211-216 | a concrete run that ends ready, idle and with a dead route |
| Refresh.PicksAreConsecutive | hurricache/grpc/smart_client.py:236-238 | hintless selections of a run use consecutive counters, whatever interleaves |
| Refresh.PicksReachEveryShard | hurricache/grpc/smart_client.py:236-238 | max_shards of them in a row reach every shard once if and only if the counter does not wrap or max_shards divides 2^31 |
| SmartClient.Client.constructor | hurricache/grpc/smart_client.py:118-137 | the start state |
| SmartClient.Client.Enter | hurricache/grpc/smart_client.py:257-260 | takes the step Begin and returns the current table and clients as the snapshot |
| SmartClient.Client.Shard | hurricache/grpc/smart_client.py:234-239 | with a hash, selects the remainder of its low word and leaves the state alone; without one, advances the counter and selects its remainder |
| SmartClient.Client.Leave | hurricache/grpc/smart_client.py:295-300 | takes the step End |
| SmartClient.Client.CloseNext | hurricache/grpc/smart_client.py:301-302 | takes the step CloseOne: that client leaves the pending ones and is the last one closed |
| SmartClient.Client.ApplyTopology | hurricache/grpc/smart_client.py:207-232 | takes the step Apply for some iteration order of its sets, also when it fails |
| SmartClient.NoEndpointMeansNoRoute | hurricache/grpc/smart_client.py:268-281 | an operation finds no endpoint if and only if its own topology routes the shard in neither role |
| SmartClient.EndpointsAreOpen | hurricache/grpc/smart_client.py:268-294 | in every run an endpoint of an operation in flight is neither closed nor about to be |
| Payloads.PackRoundTrip | hurricache/grpc/utils.py:41-44 | compressed or not, a payload decodes to the original if and only if it is within 64 MiB |
| Payloads.PackedMessage | hurricache/grpc/utils.py:41-56 | a payload is compressed exactly when wanted and longer than the threshold; what the message then says |
| Payloads.UnpackIsBounded | hurricache/grpc/utils.py:121-140 | nothing over the limit, or of another length than announced, is decoded |
| Streams.UpdateIsPutAll | hurricache/grpc/client.py:183-184 | updating with a decoded dictionary is adding its pairs in order |
| Streams.LastWriteWins | hurricache/grpc/utils.py:166-176 | a key's value is the last one written for it |
| Streams.JoinDecodes | hurricache/grpc/utils.py:161-179 | decoding two joined batches is decoding both and merging, with the first error |
| Decoding.KeyedBatch | hurricache/grpc/utils.py:163-176 | a keyed batch decodes to exactly its unpacked keys, each with the unpacked value beside its last occurrence |
| Decoding.UnkeyedBatch | hurricache/grpc/utils.py:177-179 | entry i of a list is the unpacked value i, with its order if it has one |
| Decoding.BatchDecodesExactly | hurricache/grpc/utils.py:161-179 | a batch decodes if and only if keys are paired and every payload read unpacks |
| Decoding.FirstFailure | hurricache/grpc/utils.py:173-176 | the error reported is that of the first payload that does not unpack, keys before their values |
| Decoding.FirstOccurrenceOrder | hurricache/grpc/utils.py:166-176 | a dictionary lists its keys once each, in the order of their first occurrence |
| Decoding.OneTwoDecodes | hurricache/grpc/utils.py:173-176 | a concrete entry with different key and value |
| Decoding.OutcomeMeans | hurricache/grpc/client.py:187-196 | for every way a stream ends, what the caller gets: the result, the plain error, or both counters, the result so far and the cause |
| Streams.CollectStream | hurricache/grpc/client.py:171-196 | the loop returns the fold of the batches received, with matching counters, however it ends |
| StreamTheorems.FoldIsDecode | hurricache/grpc/async_client.py:119-126 | folding same-shape batches is decoding their concatenation, down to the error |
| StreamTheorems.SplitInvariance | hurricache/grpc/client.py:177-186 | two splits of the same list or map give the same result or the same error |
| StreamTheorems.MapCollectedExactly | hurricache/grpc/client.py:181-186 | a map is collected as a map if and only if the first batch is not empty or nothing is sent at all |
| StreamTheorems.EmptyFirstBatchLosesValues | hurricache/grpc/client.py:181-186 | the two outcomes for one and the same map batch |
| StreamTheorems.EmptyFirstBatchExample | hurricache/grpc/client.py:181-186 | the same for a concrete entry with an empty key and an empty value |
| StreamTheorems.MixedExactly | hurricache/grpc/client.py:181-186 | decodable batches fail to be collected if and only if a map comes first and a nonempty list later |
| StreamTheorems.FoldCounts | hurricache/grpc/client.py:179-180 | without an error the counters are the number of batches and of decoded items |
| StreamTheorems.FailureCarriesPrefix | hurricache/grpc/client.py:187-195 | a failure at batch k carries the fold of the k batches before, and when batch k is counted |

## Left out

- Containers.Apply: the server is an assumption, as described above; what a server does on a type mismatch is arbitrary (nothing happens).
- Router.Execute: shard and mode are arguments, and whether the topology became ready in time is one; the shard is chosen by SmartClient.Client.Shard. Other operations on the same nodes and refreshes interleave in the machine of Refresh, not in this sequential method.
- Sender.SendPlanned: does not model the cancellation of an asynchronous task, whose exception is not caught and escapes without a partial report even after acknowledged chunks (`hurricache/grpc/async_client.py:481-486`).
- Sender.SendCreation: the same for a cancelled continuation (`hurricache/grpc/async_client.py:297-303`).
- Acknowledged.RaisedMeansNothingAnswered: holds of every exception the loops catch, so not of such a cancellation.
- Resuming.ResumeAfterPartial: a chunk whose RPC failed counts as not executed, though the server may have executed it, and so does a rejected one; insert-before is covered when no inserted value is the pivot.
- Topology.TopologyFrom: when a response has several defects, which of the errors is raised is not specified, except for max_shards 0.
- Streams.CollectStream: a failing batch carries the first decoding error in the order of its items; how Python words it is not modelled.
- Operation.Context.Run: time is an integer that may pass by any amount between two readings; floating-point rounding is not modelled.
- Sender.Node.Invoke: the server may answer anything and takes no time to do so; that a failed RPC may also have executed on the server is not modelled, only acknowledgements are.
- SmartClient.Client.ApplyTopology: parsing of targets is a given set of parsable targets; behaviour after close() is not modelled, and neither is cancellation within a closing loop, after which clients stay pending.
- close() of the smart clients, its join timeout and its cancellation: the code gives no guarantee to state.
- Locks, threads and the event loop: what they make atomic is one step of the machine.
- The refresh loop, its retries, back-off and coordinator fail-over; any topology may be applied at any time instead.
- gRPC channels, stubs and credentials; an RPC is an answer or an error.
- GZIP itself: a compressor and a bounded reader with an inverse law.
- The key field of a request is always present, as in every request the clients build.
- Lock expiration, atomics, getters and the public wrappers: thin request builders.
- Choosing the mode from the override, the operation's name and the configuration.
- `_endpoints` of the smart clients, which `_execute` does not use.
