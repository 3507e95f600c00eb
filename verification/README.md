# teranode-bridge: a verified model

teranode-bridge stands between an object fabric and a Teranode cluster. It receives transactions,
subtrees and blocks on delivery lanes, hands transactions to the cluster in batches, announces
subtrees and blocks and serves the pulls that follow, and sends what its own cluster produces back up.
This project models that behaviour in Dafny and proves what the design relies on.

How it is built. State that the program updates in place is a class; each of its methods is proved
equal to a function on plain values (`Value()` before and after), and what the design promises is
proved of those functions, over single calls and over arbitrary runs. Loops are methods with
invariants. The network, the clock, the HTTP server, Kafka and the fabric are parameters that may do
anything; a theorem over "every run" quantifies over all of them.

| file | part of the program |
|---|---|
| Bytes, VarInt, Transaction, SubtreeFrame, BlockFrame | codecs: CompactSize integers, BRC-12 and BRC-30 transactions, BRC-143 and BRC-144 frames, Teranode blocks |
| HashId | wire and display byte order |
| Registry, ObjectCache, TxCache | the seen-registry, the LRU object cache, the two-generation transaction cache |
| Batching, Submission, Report, PipeRuns, PipeLimits | the transaction pipe: builder, one submission and its retries, failure reports, the whole pipe with everything interleaved; the server's contract and the runs that break it |
| Bridge, BridgeObject, BridgeRuns | delivery handlers and reverse path of one bridge; the handlers as they run; what holds over every run |
| Fabric, FabricLimits | many bridges, one per cluster, around one fabric; what each hypothesis of loop freedom is for |
| UpTunnel, Promoter, Slab | the up-tunnel, submitter failover, the lane's slab owner |

Where the code and its comments differ, the code is modelled, and the documented property is given its
failing input and the exact condition under which it holds:

- The server forbids a parent and its child in one request, in either order. The builder checks a job against
  the jobs before it, so a batch meets that contract exactly when no member spends a later one, which holds
  when builders take parents first (`SealedMeetsServer`, `PostsMeetServer`); a child taken before its parent
  breaks it (`ChildFirstBreaksServer`).
- The shutdown arm of the builder appends without the dependency check, the id set and the caps. The one-sided
  contract and the caps then hold exactly when the skipped checks would not have fired (`DrainIsExact`,
  `PostsKeepContract`); a queued parent and child, or a long queue, break them (`ShutdownBreaksContract`,
  `ShutdownBreaksCap`).
- A failed announce is retried by the next delivery, unless a publication in between found the hash forgotten
  and claimed it as this bridge's own (`RetryIsExact`, `FailedAnnounceIsLost`).
- A registry of fewer than 128 entries holds up to 128 (`SmallCeilingIsExceeded`, `CeilingIsExact`).
- "An entry lives between ttl/2 and ttl" has no upper half: a hash that is left alone is forgotten exactly when
  its shard has rotated twice, which takes traffic (`RegistryForgetsExactly`, `IdleShardOutlivesTtl`).
- "live total ≤ 2×" of the transaction cache holds exactly when no body is longer than one byte
  (`TwiceTheThresholdIsExact`); it is exceeded by up to one body a generation, and that is attained
  (`LiveTotalIsBounded`, `TwiceTheThresholdIsExceeded`).
- An object larger than its cache shard is evicted by its own insert, and kept exactly when it fits
  (`PutOutcome`, `PublishedState`).

## Model

| member | source | states |
|---|---|---|
| VarInts.ReadsEncoded | tnwire/block.go:194-235 | decoding undoes `AppendVarInt` wherever the bytes sit |
| VarInts.ShortestIsUnique | tnwire/block.go:194-235 | a decoded integer was written the shortest way exactly when it took as many bytes as the shortest encoding, and never took fewer |
| VarInts.ReadIsLocal | internal/txpipe/txpipe.go:907-934 | decoding depends on the decoded bytes alone |
| VarInts.EncodeLayout | tnwire/block.go:194-212 | the bytes of each width, tag first and least significant byte next |
| Transactions.InputRefs | internal/txpipe/txpipe.go:861-905 | the one-pass walk reports the prevouts of the specified walk, also when it fails half-way, and fails when it does |
| Transactions.WalkLoop | internal/txpipe/txpipe.go:876-903 | the input loop reports one prevout per input until the transaction ends or is malformed |
| Transactions.SkipInput | internal/txpipe/txpipe.go:883-902 | stepping over one input, with the spent value and script in extended format |
| Transactions.WalkUndoesSerialization | internal/txpipe/txpipe.go:861-905 | for every transaction with an input, in BRC-12 or BRC-30, followed by any bytes: the walk succeeds, reports exactly its prevout txids in order, and the size found is the size serialized |
| Transactions.MarkerIsUnambiguous | internal/txpipe/txpipe.go:866-870 | the extended-format marker is seen exactly in extended format |
| Transactions.DependsOnBatch | internal/txpipe/txpipe.go:850-858 | true exactly when a reported prevout is in the set |
| Transactions.DependencyIsExact | internal/txpipe/txpipe.go:846-858 | for a well-formed transaction: true exactly when some input spends a member |
| Transactions.TxSizeIsPrefixStable | encode/encode.go:78-82 | a transaction keeps its size whatever follows it, so the in-band coinbase delimits itself |
| Transactions.TxLayout | internal/txpipe/txpipe.go:861-890 | where version, marker, input count and first prevout stand, and what the marker is |
| SubtreeFrames.Encode | encode/encode.go:39-53 | the append loop builds the BRC-143 frame, or refuses |
| SubtreeFrames.BuildSubtree | internal/tnasset/client.go:65-78 | the 32-byte cutting loop rebuilds the frame from a served body |
| SubtreeFrames.FrameParses | encode/encode.go:32-53 | a frame exists exactly for a non-empty node list; it declares its own length, starts with its root and serves its nodes |
| SubtreeFrames.RebuildAccepts | internal/tnasset/client.go:65-78 | a body is rebuilt exactly when it is a whole number of hashes, and not none |
| SubtreeFrames.SubtreeIsLossless | retrieval/server.go:213-222 | every well-sized frame with a node comes back byte for byte from the served body and its root |
| BlockFrames.EncodeFrame | encode/encode.go:71-106 | the encoder's checks and appends give the frame layout, or a refusal |
| BlockFrames.Transcode | tnwire/block.go:32-94 | one pass from a frame to the Teranode form |
| BlockFrames.ParseTeranode | tnwire/block.go:101-158 | one pass from the Teranode form to a block |
| BlockFrames.ParseTail | tnwire/block.go:140-157 | height, then an optional BUMP; a body may stop after the height |
| BlockFrames.CheckRoots | tnwire/block.go:56-62 | the loop accepts exactly the root lists without an all-zero root |
| BlockFrames.CopyRoots | tnwire/block.go:124-131 | the copy loop yields the roots at their offsets |
| BlockFrames.BlockIsLossless | tnwire/block.go:1-18 | every frame the bridge serves parses back and re-encodes to the same bytes |
| BlockFrames.BlockIsNormalized | internal/tnasset/client.go:99-107 | publishing a cluster's block and serving it again gives the same block, and the same bytes exactly when the body used shortest integers, had a BUMP field and nothing after it |
| BlockFrames.CanonicalIsLayout | tnwire/block.go:101-158 | the canonical bodies are exactly those the bridge would write |
| BlockFrames.EncodeAcceptsParsed | encode/encode.go:71-106 | of parsed blocks the encoder refuses exactly those with an all-zero root |
| BlockFrames.EncodeAccepts | encode/encode.go:71-106 | accepted exactly with an 80-byte header, a coinbase that is one transaction and no zero root, and then laid out |
| BlockFrames.ReadersRefuse | tnwire/block.go:168-262 | the readers refuse exactly a short prefix, roots that overrun, and a coinbase that is no transaction |
| BlockFrames.ReadersAgree | tnwire/block.go:168-182 | `CoinbaseOf` and `SubtreeRootsOf` of an encoded block return its coinbase and its roots |
| BlockFrames.SizedFrameNamesRoots | tnwire/block.go:248-262 | a frame that can be served names its roots to the origin filter |
| BlockFrames.FrameLayout | encode/encode.go:57-106 | where each field of a frame stands |
| BlockFrames.TeranodeLayout | tnwire/block.go:64-94 | the order of the fields of a Teranode block |
| BlockFrames.ParserIsTolerant | tnwire/block.go:140-157 | bytes after the BUMP are ignored, and a body that stops after the height is a block without one |
| HashIds.DisplayOf | hashid/hashid.go:43-49 | the reversing loop gives the display string |
| HashIds.ParseDisplayOf | hashid/hashid.go:56-69 | the inverse loop, with its length and digit errors |
| HashIds.DisplayRoundTrips | hashid/hashid.go:41-69 | parsing undoes display |
| HashIds.ParseRoundTrips | hashid/hashid.go:54-69 | display undoes parsing up to letter case |
| HashIds.DisplayIsInjective | hashid/hashid.go:41-49 | two hashes share a display string only if they are equal |
| HashIds.DisplayLayout | hashid/hashid.go:41-49 | two digits a byte, high digit first, last byte first |
| HashIds.ParseAccepts | hashid/hashid.go:54-69 | accepted exactly when it is 64 hex digits of either case |
| RegistryObjects.ShardObject.Mark | registry/registry.go:118-145 | a mark rotates when due, then reports and refreshes or adds the key |
| RegistryObjects.RegistryObject.Mark | registry/registry.go:126-145 | a mark changes the key's shard and no other |
| RegistryObjects.RegistryObject.Lookup | registry/registry.go:148-159 | a lookup records nothing |
| RegistryObjects.RegistryObject.Stats | registry/registry.go:169-180 | entries, hits, adds and pruned over all shards |
| RegistryObjects.RegistryObject.constructor | registry/registry.go:84-106 | 64 empty shards with the split capacity |
| Registries.RegistryIsFlat | registry/registry.go:124-159 | after the rotation step the sharded registry is one map: a mark adds an absent key, changes no direction, and the rotation step can only forget |
| Registries.EntriesAreAccounted | registry/registry.go:111-145 | over every run of a shard, adds plus promotions are the entries held plus the entries pruned |
| Registries.RegistryIsAccounted | registry/registry.go:126-180 | the same over the whole registry, and every mark counts as one hit or one add |
| Registries.RegistryIsBounded | registry/registry.go:82-106 | over every run both generations together stay within `maxEntries` from 128 up, and within 128 below |
| Registries.SmallCeilingIsExceeded | registry/registry.go:82-106 | for every `maxEntries` from 1 to 127 a run that holds 128 entries |
| Registries.CeilingIsExact | registry/registry.go:82-106 | "at most `maxEntries`" holds over every run exactly when `maxEntries` is defaulted or at least 128 |
| Registries.CapacityIsShared | registry/registry.go:88-94 | a shard's threshold is the 128th part of `maxEntries`, at least one, with the default |
| Registries.CapacityIsRemembered | registry/registry.go:82-145 | from a new registry, for half the ttl, a shard that sees at most its 128th of `maxEntries` distinct hashes remembers all of them |
| Registries.RoomyShardDoesNotRotate | registry/registry.go:116-122 | below its threshold and within half the ttl a shard does not rotate |
| Registries.RegistryFillsUp | registry/registry.go:84-106 | a run that fills a registry to 128 times the threshold |
| Registries.ForgettingTakesTwoRotations | registry/registry.go:111-145 | a shard forgets a just-marked key only by two rotations, the second half a ttl after the first or after a threshold's worth of entries |
| Registries.ForgettingClosesWindow | registry/registry.go:108-145 | the same for the whole registry |
| Registries.ForgottenExactlyByRotations | registry/registry.go:20-29 | a key that is left alone is forgotten exactly when its shard has rotated twice |
| Registries.RegistryForgetsExactly | registry/registry.go:20-29 | the same for a marked hash of the whole registry |
| Registries.IdleShardOutlivesTtl | registry/registry.go:82-83 | a hash left alone on an idle shard is still reported by the next mark, however late |
| Registries.DirectionsPersist | registry/registry.go:124-145 | a key that is not forgotten keeps its direction for good |
| Registries.RemembersUntilSecondRotation | registry/registry.go:84-145 | from an empty previous generation nothing is forgotten before a shard's second rotation |
| ObjectCacheObjects.LruObject.Put | cache/cache.go:100-138 | map, list, byte counter and counters move together to the specified recency list |
| ObjectCacheObjects.LruObject.Get | cache/cache.go:141-160 | a miss, an expiry or a hit that becomes the most recent |
| ObjectCacheObjects.LruObject.EvictLocked | cache/cache.go:171-180 | the eviction loop leaves the longest prefix that fits and counts what it dropped |
| ObjectCacheObjects.LruObject.RemoveLocked | cache/cache.go:182-186 | removal keeps map, list and byte counter in step |
| ObjectCacheObjects.LruObject.Has | cache/cache.go:163-169 | presence, by the same expiry rule |
| ObjectCacheObjects.CacheObject.Put | cache/cache.go:90-112 | a put changes the key's shard and no other |
| ObjectCacheObjects.CacheObject.Get | cache/cache.go:141-160 | a get changes the key's shard and no other |
| ObjectCaches.PutOutcome | cache/cache.go:92-138 | one entry a key, under the ceiling, stored = live + evicted + expired; a held key keeps its bytes and becomes most recent, a new one is kept exactly when it fits |
| ObjectCaches.GetOutcome | cache/cache.go:140-160 | a hit goes to the front and the rest keep their order, an expired entry leaves, a miss changes nothing; one hit or miss is counted |
| ObjectCaches.RecencyIsLastUse | cache/cache.go:100-160 | over every run of puts and gets the list is in order of last use |
| ObjectCaches.EvictsLeastRecentlyUsed | cache/cache.go:131-180 | what an insert evicts was last used before everything it keeps |
| ObjectCaches.EvictsOnlyOverCeiling | cache/cache.go:171-180 | an insert evicts nothing exactly when everything fits |
| ObjectCaches.CeilingIsShared | cache/cache.go:66-88 | every shard gets its 64th of the ceiling, at least a byte, and the ttl |
| ObjectCaches.FitIsLongest | cache/cache.go:171-180 | what eviction keeps is the longest recency prefix under the ceiling |
| TxCaches.GenObject.AdmitOwned | cache/generational.go:100-129 | the two-probe insert answers new exactly when neither generation holds the key after ageing |
| TxCaches.AdmissionIsSetInsert | cache/generational.go:92-129 | generations stay disjoint, stored = current + previous + evicted, membership changes as a set's would |
| TxCaches.ByteCountersStayExact | cache/generational.go:111-127 | the byte counters stay exact if and only if no duplicate in the current generation changes length |
| TxCaches.RunOk | cache/generational.go:75-129 | with bodies determined by keys: over every run the counters are exact and each generation is below its threshold plus one body |
| TxCaches.ReadmissionTakesTwoRotations | cache/generational.go:75-129 | a key admitted twice saw two rotations in between |
| TxCaches.ForgottenExactlyByRotations | cache/generational.go:75-129 | a key that is left alone is new again exactly after two rotations |
| TxCaches.TimeForgets | cache/generational.go:106-108 | two later admissions, each half a ttl after the rotation before, make a key new again |
| TxCaches.AdmissionsAreCounted | cache/generational.go:100-129 | every admission counts once, as stored or as duplicate |
| TxCaches.RoomyShardKeepsAll | cache/generational.go:100-129 | within half a ttl and below the threshold nothing rotates and every admitted key stays a duplicate |
| TxCaches.CapacityIsShared | cache/generational.go:47-72 | a shard's threshold is the 128th part of the ceiling, at least a byte; the ttl is kept |
| TxCaches.LiveTotalIsBounded | cache/generational.go:47-129 | over every run from a new shard each generation stays below the threshold plus one body |
| TxCaches.TwiceTheThresholdIsExceeded | cache/generational.go:37-37 | for every threshold and every body size a run, with one-byte bodies besides, that attains that bound in both generations |
| TxCaches.TwiceTheThresholdIsExact | cache/generational.go:37-37 | "live total ≤ 2×", over every run with bodies up to a size, holds if and only if that size is at most one byte |
| Batching.BuilderObject.AddJob | internal/txpipe/txpipe.go:381-401 | seal the parent's batch, append, seal a full batch |
| Batching.BuilderObject.TakeRun | internal/txpipe/txpipe.go:403-409 | a run of jobs keeps every sealing guarantee, loses and reorders nothing |
| Batching.BuilderObject.LingerFires | internal/txpipe/txpipe.go:428-429 | the linger seal keeps guarantees and order |
| Batching.BuilderObject.Shutdown | internal/txpipe/txpipe.go:431-447 | after draining and sealing, the sealed batches hold everything taken, in order |
| Batching.AddKeepsOk | internal/txpipe/txpipe.go:359-401 | outside the shutdown arm every sealed batch has no member spending an earlier one, at most the capped number of transactions, and overshoots the byte cap by less than its last one |
| Batching.SealsOnlyWhenNeeded | internal/txpipe/txpipe.go:381-401 | a job leaves the batch open exactly when it spends no member and both caps have room |
| Batching.DrainKeepsOrder | internal/txpipe/txpipe.go:434-441 | the shutdown arm keeps order and content |
| Batching.DrainIsExact | internal/txpipe/txpipe.go:431-447 | what the shutdown arm appends keeps the batch contract exactly when the skipped dependency check would not fire on it, and each cap exactly when there is room |
| Batching.DrainedIsExact | internal/txpipe/txpipe.go:431-447 | the same read off a drained batch: only an appended job can break the contract |
| Batching.ContractOnTransactions | internal/txpipe/txpipe.go:17-22 | in a batch that keeps the contract the builder enforces, a well-formed member spends no earlier member |
| Batching.SealedMeetsServer | internal/txpipe/txpipe.go:12-22 | a batch sealed outside the shutdown arm holds no parent with its child, in either order, exactly when no member spends a later one |
| Batching.ChildFirstIsBatchedTogether | internal/txpipe/txpipe.go:381-401 | a child taken before its parent is sealed in one batch with it when the caps leave room |
| Submission.Pipe.Submit | internal/txpipe/txpipe.go:485-561 | the submission loop books the specified outcome and makes at most two posts plus one per rung of the rate-limit ladder |
| Submission.Pipe.ReadReply | internal/txpipe/txpipe.go:495-544 | how one reply is classified and booked |
| Submission.Pipe.SettlePartial | internal/txpipe/txpipe.go:608-667 | settlement of a partial failure, counters and retry set |
| Submission.Pipe.ReadReport | internal/txpipe/txpipe.go:609-626 | the last line about a member decides; lines about no member are counted |
| Submission.Pipe.Sort | internal/txpipe/txpipe.go:628-639 | members that wait, in order, and the count of final failures |
| Submission.Pipe.BookRound | internal/txpipe/txpipe.go:738-789 | how one retry reply is booked and what stays pending |
| Submission.Pipe.JoinBody | internal/txpipe/txpipe.go:726-729 | a round's request body is its jobs, back to back |
| Submission.Pipe.RetryBatch | internal/txpipe/txpipe.go:703-796 | the ladder books the specified outcome in at most `RetryAttempts` posts, each with the bytes of its jobs |
| Submission.AttributionIsByTxid | internal/txpipe/txpipe.go:669-684 | attributing a failure by display string is attributing it by txid |
| Submission.SettleMeaning | internal/txpipe/txpipe.go:598-667 | by txid: members to wait for are retried in order, failed ones rejected, of the rest as many accepted as the unattributed lines leave |
| Submission.SettleConserves | internal/txpipe/txpipe.go:608-667 | for every report each member ends in exactly one place, no more unknown than unattributed |
| Submission.SubmitConserves | internal/txpipe/txpipe.go:485-561 | the same for a whole submission, for every sequence of replies |
| Submission.ThrottledBatchStaysWhole | internal/txpipe/txpipe.go:519-538 | a server that only throttles gets the batch whole once per rung and once more, never split |
| Submission.FailoverIsExact | internal/txpipe/txpipe.go:489-561 | for every sequence of replies, on their own fields: all but the last are refusals or throttlings waited out; the last settles the batch, ends the throttling ladder, or is the second refusal, and then the batch goes to the ladder whole, or fails |
| Submission.AcceptanceNeedsEvidence | internal/txpipe/txpipe.go:500-517 | over a whole submission and a whole ladder of retries nothing is accepted without a 200 or a report, and a 200 accepts the whole batch |
| Submission.RetryMeaning | internal/txpipe/txpipe.go:747-777 | by txid: a report keeps in the ladder exactly the members to wait for |
| Submission.RoundIsExact | internal/txpipe/txpipe.go:738-789 | a round without a report: a 200 accepts everything, a transport error, 429 or 422 leaves everything pending, any other status rejects everything |
| Submission.LadderIsExact | internal/txpipe/txpipe.go:715-796 | a ladder that keeps waiting posts the whole set each time, and ends accepted on a 200, rejected on another status or when its attempts are used up, failed on cancellation |
| Reports.SubjectIsFirst | internal/txpipe/txpipe.go:669-684 | a line is about the first bracketed run of 64 lower-case hex digits in it, and about nobody exactly when there is none |
| Reports.ConventionNamesSubject | internal/txpipe/txpipe.go:669-684 | a line that follows the error convention is about its id, whatever other ids come after |
| Reports.RetryableIsMarked | internal/txpipe/txpipe.go:565-588 | which texts can be waited out: the two codes, or "missing parent" in either case |
| Reports.PartialIsExact | internal/txpipe/txpipe.go:504-504 | a reply is a report exactly when it opens with the server's words and comes with a 500 or brackets an id |
| Reports.CodesAreWaitedFor | internal/txpipe/txpipe.go:565-588 | a complaint with one of the codes in its text is waited out |
| Reports.ReportSettles | internal/txpipe/txpipe.go:598-667 | a report written line by line from complaints: members with a complaint to wait out are retried, with another one rejected, the rest accepted less the complaints about strangers |
| Submission.RetryConserves | internal/txpipe/txpipe.go:703-796 | the ladder books every job once and posts a shrinking chain of subsequences of what it was given |
| Submission.RetriesKeepContract | internal/txpipe/txpipe.go:686-702 | every retry post of a dependency-sealed batch keeps the batch contract |
| PipeRuns.StepInv | internal/txpipe/txpipe.go:348-796 | every step of every goroutine keeps the pipe's invariant, for every reply |
| PipeRuns.PipeConserves | internal/txpipe/txpipe.go:348-796 | at every point of every interleaving, everything taken is open, sealed, in submission, retrying or counted once, with unknown at most unattributed |
| PipeLimits.StepCounts | internal/txpipe/txpipe.go:485-796 | what each step counts, and as what |
| PipeLimits.PostIsExact | internal/txpipe/txpipe.go:491-494 | what a post puts on the wire, and that a retry waits for a slot |
| PipeLimits.PipeAcceptsOnEvidence | internal/txpipe/txpipe.go:485-796 | over every run nothing is counted as accepted without a success or a report |
| PipeLimits.HandedInOrder | internal/txpipe/txpipe.go:359-401 | what a builder handed to submissions, then what it holds, is exactly what it took, in order |
| PipeRuns.ShutdownIsHonest | internal/txpipe/txpipe.go:334-345 | when every builder has returned nothing is in flight and the counters add up to everything taken |
| PipeRuns.PostsAreBounded | internal/txpipe/txpipe.go:371-378 | in every interleaving at most `Inflight` posts run at once |
| PipeRuns.PostsKeepContract | internal/txpipe/txpipe.go:686-735 | every request, first submission, salvage or retry, is a subsequence of one sealed batch, back to back and no longer; it carries no job after one it spends and keeps the cap unless the shutdown arm appended a job that breaks them, and a whole batch exactly then |
| PipeLimits.PostsMeetServer | internal/txpipe/txpipe.go:12-22 | if every builder takes parents before children, no request of any kind carries a parent and its child unless the shutdown arm put them together; for a whole batch, exactly then |
| PipeLimits.ChildFirstBreaksServer | internal/txpipe/txpipe.go:381-401 | a child that a builder takes before its parent goes out in one request with it |
| PipeLimits.QueuedGoesOutWhole | internal/txpipe/txpipe.go:431-447 | whatever is queued when a builder is cancelled, in however many runs, goes out as one request |
| PipeLimits.ShutdownBreaksContract | internal/txpipe/txpipe.go:431-447 | a queued parent and a child that spends it, in either format, go out in one request |
| PipeLimits.ShutdownBreaksCap | internal/txpipe/txpipe.go:431-447 | queued runs, of any length each, that together exceed the transaction cap go out in one request |
| BridgeObjects.BridgeObject.HandleSubtree | cmd/teranode-bridge/main.go:652-701 | echo check, store, mark, announce gate, in that order, on the shared state |
| BridgeObjects.BridgeObject.HandleBlock | cmd/teranode-bridge/main.go:705-762 | the same with every named root marked in both registries first |
| BridgeObjects.BridgeObject.MarkBlockRoots | cmd/teranode-bridge/main.go:734-738 | the root loop marks each root in both registries |
| BridgeObjects.BridgeObject.Finish | cmd/teranode-bridge/main.go:669-700 | the announce gate |
| BridgeObjects.BridgeObject.CheckEcho | cmd/teranode-bridge/main.go:825-844 | the echo comparison and its counters |
| BridgeObjects.BridgeObject.Handle | reverse/reverse.go:265-291 | the origin filter in front of a publication |
| BridgeObjects.BridgeObject.PublishFrame | reverse/reverse.go:293-361 | gates, tag check, then register, store and send |
| BridgeRuns.OneSendPerWindow | reverse/reverse.go:278-354 | between two sends of a hash, even failed ones, the registry forgot it, by two rotations far enough apart |
| BridgeRuns.SendsExactly | reverse/reverse.go:293-361 | a publication is sent exactly when one is pending, there is a publisher, the role is held, the bridge is ready, the frame was built and a block carries the tag; otherwise nothing changes |
| BridgeRuns.OnlyTheSubmitterSends | reverse/reverse.go:299-312 | over every run whatever goes up went up from an active, ready bridge, and a standby changes nothing |
| BridgeRuns.NotifyIsExact | reverse/reverse.go:265-291 | which notifications are taken up |
| BridgeRuns.DeliveryIsExact | cmd/teranode-bridge/main.go:652-762 | under which hash an object is handled, and that a short one changes nothing |
| BridgeRuns.SinkRemembers | cmd/teranode-bridge/main.go:689-694 | with nobody to tell, what is delivered is recorded as told |
| BridgeRuns.SentBlockCarriesTag | reverse/reverse.go:325-343 | with a tag set, a block goes up only if the coinbase of the block the cluster served carries it |
| BridgeRuns.AnnouncesAreApart | cmd/teranode-bridge/main.go:678-700 | between two successful announces of a hash the announce registry forgot it, by two rotations far enough apart |
| BridgeRuns.OwnEchoIsNeverAnnounced | cmd/teranode-bridge/main.go:672-677 | whatever is announced is remembered as delivered, never as submitted |
| BridgeRuns.DeliveredIsSeen | cmd/teranode-bridge/main.go:669-672 | every delivered hash is in the seen-registry whatever the announce did |
| BridgeRuns.FailedAnnounceIsRetried | cmd/teranode-bridge/main.go:645-651 | after a failed announce the next delivery of the hash announces it again, if no block named it and no publication claimed it, forgotten, as ours in between |
| BridgeRuns.RetryIsExact | cmd/teranode-bridge/main.go:645-700 | with no block naming the hash since: the next delivery announces again, unless such a claim was made and is still remembered, and then it is quiet |
| BridgeRuns.FailedAnnounceIsLost | cmd/teranode-bridge/main.go:645-700 | a run in which that happens, with no block in it, whatever frame was published |
| BridgeRuns.BlockSilencesItsSubtrees | cmd/teranode-bridge/main.go:726-738 | once a block naming a root was delivered, and until the root is forgotten, the subtree is not announced on its own lane |
| BridgeRuns.PublishedState | reverse/reverse.go:345-352 | publishing an absent hash marks it as ours and stores the frame exactly when it fits |
| BridgeRuns.StepKeepsBody | cache/cache.go:92-112 | no step replaces a held copy's bytes unless it had expired |
| BridgeRuns.EchoIntegrity | cmd/teranode-bridge/main.go:817-844 | while the hash is remembered and the copy retained, every returning delivery counts exactly one of verified and mismatch, mismatch exactly when the bytes differ from those sent, and the sent copy stays |
| BridgeRuns.OnlyEchoesAreCounted | cmd/teranode-bridge/main.go:825-844 | no other step moves the echo counters |
| Fabrics.ToldIsMarked | cmd/teranode-bridge/main.go:718-743 | what a delivery announces, and every root of a delivered block that can be served, is marked as seen in the same step |
| Fabrics.CoveredStep | cmd/teranode-bridge/main.go:706-743 | every step keeps this: each root of each copy that would be served as the block it is filed under is registered or the cluster's own |
| Fabrics.PullStep | retrieval/server.go:315-334 | a pull, served from whatever copy is held, shows the cluster only roots that are registered or its own, and nothing when the cluster rejects it |
| Fabrics.BuiltServesItsRoots | internal/tnasset/client.go:99-107 | a frame built from a cluster's block is served with the roots that block names |
| Fabrics.LoopFreedom | reverse/reverse.go:275-291 | over any number of bridges and every run without forgetting, with pulls of the held copies at any time: each bridge sends up only what its own cluster made, and no object goes up twice |
| Fabrics.LoopFreedomUntilSecondRotation | reverse/reverse.go:275-291 | the same, with forgetting replaced by a condition on rotations: from fresh registries, until some shard rotates a second time |
| FabricLimits.SentUpExactlyWhenUnknown | reverse/reverse.go:275-354 | one notification that meets an open publishing path goes up exactly when the registry does not know its hash |
| FabricLimits.LoopsExactlyWhenForgotten | reverse/reverse.go:275-354 | a notification can make an idle bridge send up what its cluster did not make if and only if the registry does not know something the cluster was told |
| FabricLimits.ForgettingLoops | reverse/reverse.go:275-354 | without memory: a run from a start, with every other hypothesis met, that sends up an object its cluster did not make |
| FabricLimits.UncheckedPullLoops | retrieval/server.go:315-334 | if a cluster takes pulled blocks without checking their header, or a header hashes to its own first 32 bytes: a run that sends up a foreign root |
| FabricLimits.ForeignBuildLoops | reverse/reverse.go:345-354 | if a cluster serves a block of its own with a root it does not know: a run that sends up that root |
| UpTunnels.UpTunnel.Submit | internal/submit/uptunnel.go:53-111 | one send: dial if needed, write, drop the connection on a failed write |
| UpTunnels.UpTunnel.Connect | internal/submit/uptunnel.go:69-93 | the dial loop makes one pass from the sticky cursor |
| UpTunnels.Failover | internal/submit/uptunnel.go:26-35 | a send without a connection goes to the first accepting address in cyclic order, those before it having refused; an all-refused pass leaves the cursor where it was |
| UpTunnels.CursorIsLastDialled | internal/submit/uptunnel.go:26-35 | over every run the cursor stands at the address of the last connection opened, so no failed write, refused pass or close moves it |
| UpTunnels.AroundIsModulo | internal/submit/uptunnel.go:75-82 | the address tried is the cursor modulo the list |
| UpTunnels.CountersAreExact | internal/submit/uptunnel.go:102-111 | over every run objects and bytes counted are those of the Sends that went through |
| UpTunnels.CloseEnds | internal/submit/uptunnel.go:114-124 | closing drops the live connection for good |
| UpTunnels.StepIsFaithful | internal/submit/uptunnel.go:18-24 | each event extends the stream it writes on by one whole object or closes it with the front of one, and touches no other |
| UpTunnels.RunsAreFaithful | internal/submit/uptunnel.go:18-24 | over every sequence of network outcomes each connection carries the objects whose Send went through on it, in order, then the front of the object whose Send broke it; read in order the connections carry exactly the objects sent |
| UpTunnels.BreaksOnce | internal/submit/uptunnel.go:95-111 | the Send that breaks a connection leaves exactly the front of its object as the tail, for good, and no later Send breaks it again |
| UpTunnels.TailsAreBroken | internal/submit/uptunnel.go:95-111 | every partial object on a wire is the front of the object of a Send that broke the wire |
| Promoters.Subscriber.RunPromoter | reverse/promoter.go:71-93 | the watch loop sets the role by the hysteresis rule |
| Promoters.RoleIsHysteresis | reverse/promoter.go:41-47 | active exactly when some run of `FailN` failures has no later run of `OKN` successes |
| Promoters.FlapsAreBounded | reverse/promoter.go:18-24 | promotions times `FailN` plus demotions times `OKN` never exceed the number of probes |
| Slabs.Owner.Own | lanes/lanes.go:211-226 | each copy equals its object, overlaps no earlier one, has no spare capacity, and changes none; a large object gets an arena of its own, a small one the next bytes of the slab, or of a new one when it has no room |
| Slabs.Owner.Append | lanes/lanes.go:221-225 | the append stays in the slab: it never moves it |
| Slabs.OwnAll | lanes/lanes.go:208-226 | for every sequence of objects all copies still read as they arrived, pairwise disjoint |

## Left out

- InputRefs: offsets and declared lengths are naturals; the code converts them to a machine `int`, and the two agree whenever the offset stays below 2^63, which holds for every serialized transaction.
- Transcode, ParseTeranode: counts are naturals below 2^64; the code multiplies them as machine `int`, which agrees when 32 times the count fits; `CoinbaseOf` does the same.
- BlockSize, SubtreeSize, TxSize: the framing library is not part of this model; these follow the layouts the encoders document and the transaction walk.
- LoopFreedom: a cluster notifies only of what it made, what its bridge announced and the roots of blocks it pulled from its bridge; what a cluster learns by gossip is outside it. It also supposes that no header hashes to its own first 32 bytes, that a cluster takes nothing from a pulled block whose header does not hash to the id, and that the blocks it serves for publication name only roots it made or was told of.
- HandleSubtree, HandleBlock: a handler call is one step and reads the clock once; the code reads it at each mark, put and get, and the two lanes can interleave inside a call.
- Submit, RetryBatch: which endpoint a post goes to, the waiting times and the request timeout.
- ReadReport: lower-casing is ASCII only.
- Own: the object is read as a value; that the reader's buffer is another array is not modelled.
- Counters are unbounded; the code's wrap at 2^64.
- Error texts, log lines and metrics; errors are a missing result.
- Run-time plumbing of the pipe: queues and their back-pressure, the batch and slice pools, choice of builder, the lane session that cuts runs of 64.
- The transaction cache's lookups and its sharding, which is that of the other two.
- The retrieval plane's routes that concatenate member transactions, status codes and hash parsing of paths.
- Kafka encoding, gRPC, TLS, socket activation, health and tracing.
- Lane accept loops, draining and live-connection totals.
- SHA-256, merkle roots and the conversion to standard format; the block hash is a parameter.
