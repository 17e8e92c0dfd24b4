# Lumina in Dafny

A model of the Celestia light node Lumina: how it keeps track of the heights it has, fetches
missing headers from its peers, samples and prunes blocks, checks proofs and commits, and reads
blobs out of data squares. Code that updates state is modelled by classes, arrays and loops, each
proved against a specification; checks and parsers are functions with lemmas about them.

What the code does not define is a parameter: hash functions, signature verification, the erasure
codec, the clock, the answers of peers and the order in which they come. Where a hash is involved
the result is either the stated conclusion or a pair of colliding inputs found among the values at
hand, so nothing is assumed about the hash.

| file | models |
|---|---|
| `BlockRanges.dfy` | height ranges and sorted lists of them as sets of heights |
| `HeaderSession.dfy` | the concurrent fetch of a range of headers |
| `Syncer.dfy` | which heights to fetch next, and the worker that does |
| `Daser.dfy` | the scheduler of data sampling |
| `Pruning.dfy` | sampling, delivery, clock and pruner as one timed state machine, and the pruner |
| `SyncPruning.dfy` | a batch in flight while the pruner shrinks the store |
| `MerkleProof.dfy`, `DataAvailabilityHeader.dfy` | Merkle proofs (sections 2.1 and 2.1.1 of RFC 6962) and row proofs |
| `DataSquare.dfy` | filling the extended data square in place |
| `NamespaceData.dfy` | validating a square and looking a namespace up in it |
| `SquareExtension.dfy` | extending and then validating: when `from_ods` succeeds |
| `Shares.dfy`, `Blobs.dfy` | shares, laying blobs out as shares and reading them back |
| `ValidatorSets.dfy`, `HeaderChain.dfy` | votes, quorums and chains of headers |
| `PeerTracker.dfy` | the peer tracker and its counters |

Some properties that one would expect turn out not to hold of the code everywhere. Each is stated
with the exact condition under which it does:

- `truncate_right` saturates, so it drops the last 64-bit height (`TruncateRightKeepsLowest`), and
  a sync towards that height ends without it (`SyncStallsAtTop`); `truncate_left` drops height 0
  (`TruncateLeftKeepsHighest`).
- A header-sub message below the subjective head can take the place of the batch in flight, which
  the store then refuses (`InsertableUnlessTaken`, `LateAnnouncementRefusesBatch`).
- A batch that fills a gap loses its place to the pruner if its fetch may live longer than the
  pruning delay (`BatchSurvivesPruning`, `LongFetchLosesPlace`).
- Samples leak if a request may live longer than the pruning delay (`LongRequestsLeak`), and if a
  header carries the time of the epoch, to which the pruner's cutoff is clamped (`EpochHeadersLeak`).
- The index and total of a Merkle proof are not authenticated, so a verified leaf is the one where
  they lead (`Turned`) and not always the one they name: an index beyond the total leads to the last
  leaf (`OutOfRangeIndexVerifies`), and with another total the third of three leaves passes as the
  second of two (`WrongTotalMisplaces`). The leaf is at the claimed index, and a row root at the
  claimed row, if and only if index and total lead there (`VerifiedLeafIsMember`,
  `AcceptedRootIsMember`); so a column root passes for a row root (`ColumnPassesAsRow`).
- A row proof whose span is all of 16 bits never verifies (`ProveRows`).
- `get_namespace_data` misses parity shares unless the whole square is parity (`LookupIsFilter`).
- An empty blob has no shares although `shares_len` says one (`LayoutLength`), so it is lost
  (`ReconstructionInvertsLayout`).
- A disconnect of a peer without connections takes one off the counters for good
  (`CountersFallBehind`, `StaleDisconnectWraps`).

`from_ods` panics on an empty list of shares, because it asks for chunks of width 0; the model
returns `ZeroWidthPanic` there. Arithmetic is that of a release build, which wraps. Two of the cases
above, the 16-bit length of a row proof's span and a counter that is decremented at 0, make a build
with overflow checks panic instead.

## Model

| member | source | states |
|---|---|---|
| `BlockRangeSets.RangeLen` | node/src/block_ranges.rs:71-76 | the length of a range is the number of its heights |
| `BlockRangeSets.OverlapAndAdjacency` | node/src/block_ranges.rs:78-138 | the overlap test holds exactly if the height sets meet; the adjacency test exactly if they do not meet and a neighbouring height of one is in the other |
| `BlockRangeSets.TruncateLeftKeepsHighest` | node/src/block_ranges.rs:148-161 | keeps exactly the highest `limit` heights if and only if it does not have to keep height 0 |
| `BlockRangeSets.TruncateRightKeepsLowest` | node/src/block_ranges.rs:164-176 | keeps exactly the lowest `limit` heights if and only if the saturating addition does not reach the last 64-bit height |
| `BlockRangeSets.CanonicalUnique` | node/src/block_ranges.rs:380-446 | two canonical lists of the same heights are the same list |
| `BlockRangeSets.SetLaws` | node/src/block_ranges.rs:463-493 | on canonical lists, as lists, `+` and `-` are commutative, associative, idempotent and distribute as on sets |
| `BlockRangeSets.AcceptedInsertionWindow` | node/src/block_ranges.rs:292-347 | an accepted insertion touches exactly as many stored ranges as it has stored neighbours |
| `BlockRangeSets.BlockRanges.FromVec` | node/src/block_ranges.rs:204-220 | accepts exactly the sorted disjoint lists of valid ranges, and otherwise blames the first range that spoils it |
| `BlockRangeSets.BlockRanges.Contains` | node/src/block_ranges.rs:228-230 | membership in the set of heights |
| `BlockRangeSets.BlockRanges.Head` | node/src/block_ranges.rs:238-240 | the maximum of the set, none if it is empty |
| `BlockRangeSets.BlockRanges.Tail` | node/src/block_ranges.rs:243-245 | the minimum of the set, none if it is empty |
| `BlockRangeSets.BlockRanges.FindAffectedRanges` | node/src/block_ranges.rs:248-269 | the window of exactly those ranges that overlap or touch the given one |
| `BlockRangeSets.BlockRanges.CheckInsertionConstraints` | node/src/block_ranges.rs:292-347 | succeeds exactly if the valid range is disjoint from the set and the set is empty, or the range is above the head, or it touches a stored height; the flags say which neighbours are stored; the error says why not |
| `BlockRangeSets.BlockRanges.PopHead` | node/src/block_ranges.rs:350-361 | removes exactly the maximum and keeps the list sorted, and canonical if it was |
| `BlockRangeSets.BlockRanges.PopTail` | node/src/block_ranges.rs:364-375 | removes exactly the minimum and keeps the list sorted, and canonical if it was |
| `BlockRangeSets.BlockRanges.InsertRelaxed` | node/src/block_ranges.rs:380-407 | set union on any sorted disjoint list; keeps canonical form; changes nothing on an invalid range |
| `BlockRangeSets.BlockRanges.RemoveRelaxed` | node/src/block_ranges.rs:412-446 | set difference on any sorted disjoint list; keeps canonical form; changes nothing on an invalid range |
| `BlockRangeSets.BlockRanges.Insert` | node/src/store/in_memory_store.rs:181-219 | the store's check and insertion: union exactly if insertable, and the number of ranges changes by +1, 0 or -1 with the neighbours |
| `BlockRangeSets.BlockRanges.Add` | node/src/block_ranges.rs:463-473 | union of the sets; on a canonical list the canonical list of the union |
| `BlockRangeSets.BlockRanges.Subtract` | node/src/block_ranges.rs:483-493 | difference of the sets; on a canonical list the canonical list of the difference |
| `HeaderSessions.TakeNextBatch` | node/src/p2p/header_session.rs:133-145 | splits a batch off the top: every height goes to exactly one of rest and batch |
| `HeaderSessions.BatchSize` | node/src/p2p/header_session.rs:36-48 | the least number from 8 to 64 with which eight batches cover the range, or 64 |
| `HeaderSessions.SortedSpansJoin` | node/src/p2p/header_session.rs:86-93 | spans that hold every height of a range once, sorted by first height, join into the consecutive range |
| `HeaderSessions.SortSpansSorted` | node/src/p2p/header_session.rs:86-93 | sorting the responses orders them by first height |
| `HeaderSessions.ReceivedPermuted` | node/src/p2p/header_session.rs:86-93 | what has been received does not depend on the order of the responses |
| `HeaderSessions.Answered` | node/src/p2p/header_session.rs:57-84 | a full answer moves its heights from in flight to received and nothing else |
| `HeaderSessions.Retried` | node/src/p2p/header_session.rs:57-84 | a partial or empty answer followed by the request for the rest keeps every height in exactly one place |
| `HeaderSessions.HeaderSession.SendNextRequest` | node/src/p2p/header_session.rs:96-100 | moves one batch from to-fetch to in flight |
| `HeaderSessions.HeaderSession.Start` | node/src/p2p/header_session.rs:50-60 | the first eight requests establish the partition; a range of at most 512 headers is handed out completely |
| `HeaderSessions.HeaderSession.OnTaskResult` | node/src/p2p/header_session.rs:57-84 | any answer keeps to-fetch, in flight and received a partition of the range, with at most 8 requests of 1 to 64 headers in flight |
| `HeaderSessions.HeaderSession.Run` | node/src/p2p/header_session.rs:50-94 | for every interleaving of answers, a session that finishes returns exactly the headers of the range in ascending order, each once and as a peer sent it; it fails only on a fatal answer to the request in flight that was picked in that round; after any number of answers a session that is not through has at most 8 requests of 1 to 64 headers in flight, which with what is to fetch and received partition the range; if every answer brings a header, each round leaves at least one header fewer to ask for, and the session finishes |
| `Syncing.BatchFits` | node/src/syncer.rs:577-601 | a non-empty batch is within the limit, missing from the store and accepted by the insertion constraints |
| `Syncing.BatchEmptyWhenDone` | node/src/syncer.rs:577-601 | no batch is left exactly if the store is the single range from 1 to the target |
| `Syncing.BatchChoice` | node/src/syncer.rs:577-601 | above the head of the store the lowest heights come first, and once it has caught up the highest missing ones, as many as the limit allows |
| `Syncing.SyncStep` | node/src/syncer.rs:577-601 | inserting a batch keeps the target and lowers the number of missing heights by exactly its length |
| `Syncing.SyncConverges` | node/src/syncer.rs:577-601 | from any canonical store, repeated batches end with the single range from 1 to the larger of subjective and store head |
| `Syncing.SyncStallsAtTop` | node/src/syncer.rs:577-601 | the condition of convergence is exact: a head at the last 64-bit height is never stored |
| `Syncing.WorkerConverges` | node/src/syncer.rs:313-365 | connected and in the window, after at most as many verified results as heights are missing the worker has stored the single range to its target and has nothing in flight |
| `Syncing.WorkerCanConverge` | node/src/syncer.rs:313-365 | from every state without a batch in flight there is such a run |
| `Syncing.BatchStaysSafe` | node/src/syncer.rs:404-433 | in every state of every run with ascending announcements the batch in flight can be inserted |
| `Syncing.NoBatchRefused` | node/src/syncer.rs:506-558 | in every such run each verified result turns the store into the one with all heights of the batch |
| `Syncing.StoredIsVerified` | node/src/syncer.rs:404-558 | over every run a height that came into the store was announced and verified, or lay in a batch in flight that came back verified |
| `Syncing.HeadIsHighestAnnounced` | node/src/syncer.rs:425-433 | over every run the subjective head is the highest of the first one and all announced ones |
| `Syncing.InsertableUnlessTaken` | node/src/syncer.rs:404-423 | for announcements in any order, a batch in flight can be inserted if and only if no announcement since stored the height it starts with |
| `Syncing.LateAnnouncementRefusesBatch` | node/src/syncer.rs:404-423 | a run in which that happens: heights 1 to 5 stored, head 10, and a late announcement of 6 |
| `Syncing.TraceOf` | node/src/syncer.rs:313-365 | every sequence of events has a run |
| `Syncing.BatchAwaited` | node/src/syncer.rs:436-502 | every computed batch can be inserted and lies below a stored height or right above the store's head |
| `Syncing.HeaderSubAndBatch` | node/src/syncer.rs:404-423 | a batch in flight stays insertable if and only if the announced header does not take its place |
| `Syncing.HeaderSubKeepsBatch` | node/src/syncer.rs:404-423 | a header above the subjective head never does |
| `Syncing.Worker.SetSubjectiveHeadHeight` | node/src/syncer.rs:425-433 | the subjective head becomes the higher of old and new |
| `Syncing.Worker.OnHeaderSubMessage` | node/src/syncer.rs:404-423 | the head rises and the store grows by exactly the adjacent verified head; a safe batch stays safe exactly unless its place is taken |
| `Syncing.Worker.FetchNextBatch` | node/src/syncer.rs:436-502 | starts exactly the next batch, never a second one, only with a peer and in the window, and only a batch that can be inserted |
| `Syncing.Worker.OnFetchNextBatchResult` | node/src/syncer.rs:506-558 | a verified batch that is still insertable is stored as a whole, and a safe one always is; any other result leaves the store as it was |
| `Syncing.Worker.ConnectedEventLoop` | node/src/syncer.rs:313-365 | store, subjective head and batch follow the run of the given events to its end, or to the first fatal result; no stored height is lost and at the end no batch is in flight |
| `Sampling.StepKeepsCoherent` | node/src/daser.rs:291-411 | every step keeps the queue apart from what is done or ongoing and ongoing equal to the futures' heights, and forgets nothing done or ongoing |
| `Sampling.RunStaysCoherent` | node/src/daser.rs:213-289 | so in every state of every run |
| `Sampling.NeverTwice` | node/src/daser.rs:213-289 | no run schedules a height twice, nor one that was done or ongoing before |
| `Sampling.ScheduleOutcome` | node/src/daser.rs:291-411 | a scheduled height was found in the window and recorded, and what stays queued is below it; a height out of the window takes everything below along; failing needs a store error or unwritten metadata; still looking means every look met a lost height |
| `Sampling.HighestIsScheduled` | node/src/daser.rs:291-411 | the highest queued height is scheduled if the store has it, in the window |
| `Sampling.HighestDecides` | node/src/daser.rs:291-411 | what the store says of the highest queued height decides: failure, skipping everything up to it, scheduling it, or a new queue |
| `Sampling.ScheduleIsRun` | node/src/daser.rs:291-411 | a call of the scheduler is a run of steps with at most one request, that of its outcome |
| `Sampling.WhenSamplingStarts` | node/src/daser.rs:234-245 | a head above the last one is sampled beside what is in flight and remembered; without one nothing starts while something is, and the highest height does as soon as nothing is |
| `Sampling.SessionIsRun` | node/src/daser.rs:213-289 | a session over any events and any stores is a run of steps |
| `Sampling.NoHeadTwice` | node/src/daser.rs:234-245 | over every session the heads that count as new rise strictly |
| `Sampling.PopulateCovers` | node/src/daser.rs:419-426 | after a populate every stored height that is not accepted is queued, done or being sampled |
| `Sampling.EveryQueuedIsSampled` | node/src/daser.rs:213-289 | if the store finds every height in the window, metadata can be written and as many futures finish as heights are queued or in flight, exactly the queued heights are requested and all are done |
| `Sampling.NewHeadIsSampled` | node/src/daser.rs:275-278 | the same for the heights that a new head brings in during a session |
| `Sampling.Worker.PopulateQueue` | node/src/daser.rs:419-426 | the queue becomes exactly the stored heights that are not accepted, done or being sampled |
| `Sampling.Worker.ScheduleNextSampleBlock` | node/src/daser.rs:291-411 | takes exactly the steps of a call of the scheduler and makes exactly its request |
| `Sampling.Worker.OnSamplingDone` | node/src/daser.rs:257-274 | a finished height moves from ongoing to done and its future goes |
| `Sampling.Worker.ScheduleIfNeeded` | node/src/daser.rs:234-245 | takes exactly the steps for a new head and for an idle sampler, and makes exactly their requests |
| `Sampling.Worker.ConnectedEventLoop` | node/src/daser.rs:213-289 | makes exactly the requests of the session, none of them twice, and ends with empty state, or in the session's last state on an error; under the conditions above it requests exactly the stored heights that are not accepted |
| `Pruning.RequestsAbovePruner` | node/src/pruner.rs:138-192 | a height due for pruning is below every height a live request samples |
| `Pruning.StepKeepsInv` | node/src/daser.rs:313-340 | every step of daser, delivery, clock and pruner keeps the invariant that ties requests, metadata, blockstore and pruner together |
| `Pruning.SamplesNeverLeak` | node/src/pruner.rs:138-192 | over every run, from any store without a leak and with any restarts, if a request lives no longer than the pruning delay, every sample in the blockstore is recorded in the metadata of a stored height |
| `Pruning.SampleCanBeTaken` | node/src/daser.rs:313-340 | from every state of every run a stored header in the window can be sampled to the end, with all its samples recorded and kept |
| `Pruning.DueTailCanBePruned` | node/src/pruner.rs:153-175 | from every state with an idle pruner a tail that is due can be pruned together with exactly its recorded samples |
| `Pruning.LongRequestsLeak` | node/src/node/builder.rs:284-292 | for every window and delay, if a request may live longer than the delay, some run leaks, on a chain with rising header times |
| `Pruning.AliveWhenDueLeaks` | node/src/pruner.rs:138-192 | a request still alive when its height is due leads to a leak |
| `Pruning.EpochHeadersLeak` | node/src/pruner.rs:138-151 | a header with the time of the epoch can leak whatever the delay, because the cutoff is clamped there |
| `Pruning.Worker.GetTailHeaderToPrune` | node/src/pruner.rs:195-208 | the lowest stored height if anything has expired, none exactly if nothing has |
| `Pruning.Worker.PruneTail` | node/src/pruner.rs:153-175 | removes the samples recorded for the tail, then the tail and its metadata |
| `Pruning.Worker.PruneExpired` | node/src/pruner.rs:153-175 | removes exactly the expired heights, their metadata and their samples |
| `Pruning.Worker.Pass` | node/src/pruner.rs:142-192 | one pass removes exactly what has expired and reports the last removed height exactly if it is new |
| `SyncPruning.StepKeepsInv` | node/src/syncer.rs:313-365 | every step of clock, announcements, fetches and pruner keeps the batch in flight insertable and the header it leans on in the window it was started in |
| `SyncPruning.BatchSurvivesPruning` | node/src/syncer.rs:436-502 | however pruner, clock and rising announcements interleave, if a fetch lives at most the pruning delay the batch in flight can be inserted in every state of every run |
| `SyncPruning.VerifiedBatchStored` | node/src/syncer.rs:506-558 | so every verified batch that comes back is stored as a whole |
| `SyncPruning.NeighbourNotDue` | node/src/node.rs:161-163 | the header a batch leans on, in the syncing window when the batch was started, is not due while the fetch lives |
| `SyncPruning.LongFetchLosesPlace` | node/src/pruner.rs:153-175 | for every window and delay, if a fetch may live longer, a run on rising header times in which the store no longer takes the batch |
| `MerkleProofs.SplitIsRfc` | types/src/merkle_proof.rs:87-132 | half of the next power of two is the largest power of two below the number of leaves |
| `MerkleProofs.PathVerifies` | types/src/merkle_proof.rs:136-171 | the audit path of section 2.1.1 of RFC 6962 recomputes the tree hash of section 2.1 |
| `MerkleProofs.PathLength` | types/src/merkle_proof.rs:87-132 | an audit path has at most ceil(log2 n) nodes |
| `MerkleProofs.HashLeavesCollectingAunts` | types/src/merkle_proof.rs:87-132 | returns the tree hash and appends exactly the audit path of the leaf within these leaves |
| `MerkleProofs.New` | types/src/merkle_proof.rs:39-56 | for an index in range the root and a proof of at most ceil(log2 n) aunts that `verify` accepts; otherwise an error |
| `MerkleProofs.AuntsMatchDepth` | types/src/merkle_proof.rs:136-171 | a root is recomputed exactly from one aunt per turn; fewer or more aunts are the two errors |
| `MerkleProofs.VerifyOutcome` | types/src/merkle_proof.rs:67-82 | what each answer means: another leaf, too few aunts, too many, another root, or this root |
| `MerkleProofs.TurnedInPlace` | types/src/merkle_proof.rs:136-171 | with the right total an index leads to itself, and beyond it to the last leaf |
| `MerkleProofs.RecomputedRootPinsLeaf` | types/src/merkle_proof.rs:136-171 | whatever index, total and aunts, if they recompute the root then the leaf is the one where index and total lead; or a collision is given |
| `MerkleProofs.VerifiedLeafIsMember` | types/src/merkle_proof.rs:67-82 | a verified leaf is in the tree, where index and total lead; if the leaves differ it is at the claimed index if and only if they lead there, as they do with the right total; or a collision is given |
| `MerkleProofs.WrongTotalMisplaces` | types/src/merkle_proof.rs:136-171 | with a wrong total the third of three leaves verifies as the second of two |
| `MerkleProofs.WrongTotalStaysInPlace` | types/src/merkle_proof.rs:136-171 | and the first of four verifies, in its place, as the first of three |
| `MerkleProofs.IndexClamped` | types/src/merkle_proof.rs:136-171 | an index beyond the total is treated as the last one |
| `MerkleProofs.OutOfRangeIndexVerifies` | types/src/merkle_proof.rs:67-82 | so a proof of the last leaf verifies under every index beyond the total |
| `DataAvailabilityHeaders.RootsInOrder` | types/src/data_availability_header.rs:176-187 | what is hashed is every row root and then every column root, each in its place, and nothing else |
| `DataAvailabilityHeaders.ProveRows` | types/src/data_availability_header.rs:200-227 | a proof exists exactly if all rows do, and verifies against the header's hash exactly if the span is not empty and its length fits 16 bits |
| `DataAvailabilityHeaders.VerifyRows` | types/src/data_availability_header.rs:384-415 | accepts exactly well-formed proofs whose every row root verifies |
| `DataAvailabilityHeaders.AcceptedRootIsMember` | types/src/data_availability_header.rs:384-415 | an accepted row root is the root of the header where its proof leads; if the roots differ it is the root of the claimed row if and only if the proof leads there; or a collision is given |
| `DataAvailabilityHeaders.ColumnPassesAsRow` | types/src/data_availability_header.rs:384-415 | a column root is accepted under any row number |
| `DataSquares.ParitiesCommute` | types/src/eds.rs:63-67 | for a linear code the parity of the row parities is the parity of the column parities |
| `DataSquares.FourthQuadrantEitherWay` | types/src/eds.rs:63-67 | the fourth quadrant is the row-wise parity of the third and the column-wise parity of the second |
| `DataSquares.RowIsCodeword` | types/src/eds.rs:275-312 | every row of the square is a codeword |
| `DataSquares.ColumnIsCodeword` | types/src/eds.rs:275-312 | every column is, also through the quadrant that was filled row by row |
| `DataSquares.MatrixCodesAreLinear` | types/src/eds.rs:295-309 | the laws asked of the codec are those of coding with a matrix |
| `DataSquares.Encode` | types/src/eds.rs:295-309 | fills the parity half of a row or a strided column in place and leaves all else, or changes nothing if the codec refuses the data half |
| `DataSquares.FillParity` | types/src/eds.rs:295-309 | the three passes make every cell final, exactly if the codec takes every axis it is given |
| `DataSquares.FromOds` | types/src/eds.rs:275-309 | fails exactly if the shares are no square or the codec refuses an axis, and panics exactly without shares; otherwise keeps the data as first quadrant and makes every row and column a codeword |
| `DataSquares.FirstQuadrantIsData` | types/src/eds.rs:282-293 | the first half of each of the first rows is a row of the original square, as it was given |
| `DataSquares.RowIsSlice` | types/src/eds.rs:478-480 | the square is kept row by row |
| `SquareExtensions.ExtendedCell` | types/src/eds.rs:193-210 | a cell of the extension parses as the original share or as the parity that belongs there |
| `SquareExtensions.ExtensionGood` | types/src/eds.rs:193-231 | for a codec that keeps share sizes the extension passes validation if and only if the original square's shares are legal and sorted in its rows and columns |
| `SquareExtensions.FromOds` | types/src/eds.rs:275-312 | with the closing validation: panics without shares, and succeeds exactly on squares of legal width that the codec takes and that are legal and sorted, and returns their extension |
| `DataSquares.FlattenIndexInjective` | types/src/eds.rs:478-480 | different cells have different places |
| `NamespaceLookup.OneBitIsPower` | types/src/eds.rs:180-191 | a width with one bit set is a power of two |
| `NamespaceLookup.CheckAxis` | types/src/eds.rs:193-231 | accepts exactly an axis whose shares parse and whose namespaces do not decrease |
| `NamespaceLookup.New` | types/src/eds.rs:159-240 | accepts exactly the shares that form a square of legal width with all axes in order |
| `NamespaceLookup.AcceptedSquareIsValid` | types/src/eds.rs:193-231 | what is accepted has sorted rows, its least namespace first and parity at the right |
| `NamespaceLookup.RootRangeCovers` | types/src/eds.rs:416-418 | a row root's range contains every namespace of the row but the parity one |
| `NamespaceLookup.RootRangeOfParity` | types/src/eds.rs:416-418 | the parity namespace is in the range exactly of rows that start with it |
| `NamespaceLookup.ScanRow` | types/src/eds.rs:422-432 | stopping at a larger namespace finds exactly the shares of the namespace |
| `NamespaceLookup.GetNamespaceData` | types/src/eds.rs:403-445 | for any row roots, the filtered rows whose root covers the namespace; fails exactly for height 0 with a row to return; for the square's own roots the joined rows are the filtered square, with the condition of the next row |
| `NamespaceLookup.LookupIsFilter` | types/src/eds.rs:403-445 | against the square's own roots the joined rows are the whole square filtered by the namespace - for the parity namespace if and only if all is parity |
| `Shares.U32RoundTrip` | types/src/share.rs:125-135 | a 32-bit length survives being written in big-endian order |
| `Shares.ValueInjective` | types/src/nmt.rs:377-379 | the numeric order used for namespaces tells different namespaces apart |
| `Shares.ValidNamespaces` | types/src/nmt.rs:171-338 | the valid namespaces are exactly 19 zeros and ten bytes, and 28 bytes 255 and one byte |
| `Shares.ReservedBytes` | types/src/nmt.rs:377-379 | reserved are exactly the namespaces of 28 zeros and one byte, and of 28 bytes 255 and one byte |
| `Shares.ReservedSharesParse` | types/src/share.rs:64-77 | so transaction, pay-for-blob, padding and tail padding shares parse, in their namespace |
| `Shares.InfoByteFields` | types/src/share/info_byte.rs:19-42 | version and start mark are what the info byte was made of |
| `Shares.ParityIsHighest` | types/src/nmt.rs:377-379 | the parity namespace is the highest and is reserved |
| `Shares.FromRaw` | types/src/share.rs:64-77 | accepts exactly 512 bytes that start with 19 zeros or with 28 bytes 255, and says what is wrong otherwise |
| `Blobs.SparseShareFields` | types/src/share.rs:103-150 | the accessors return the namespace, info byte, length and payload a share was built from |
| `Blobs.SparseShareBytes` | types/src/blob/commitment.rs:196-229 | the 512 bytes of a share, place by place: namespace, info byte, big-endian length, content, zeros |
| `Blobs.LayoutLength` | types/src/blob.rs:333-342 | a blob uses exactly `shares_len` shares if and only if it is not empty |
| `Blobs.BuildSparseShareV0` | types/src/blob/commitment.rs:196-229 | the share at a position of the data; fails exactly on a length beyond 32 bits or an invalid namespace |
| `Blobs.SplitBlobToShares` | types/src/blob/commitment.rs:176-193 | exactly the layout, for version 0 and data that fits |
| `Blobs.Reconstruct` | types/src/blob.rs:214-260 | succeeds exactly if the shares start with a complete sequence, and then returns its blob and the shares after it; otherwise the error of the first thing wrong, down to the first share that is missing or does not continue |
| `Blobs.CollectSequence` | types/src/blob.rs:233-252 | collects the payloads of exactly as many shares as needed, all continuing the first, or names the first fault |
| `Blobs.ReconstructAll` | types/src/blob.rs:294-315 | parses all sequences among the shares that are not reserved; on a layout it returns exactly the blobs that are not empty, so the list laid out if and only if none is |
| `Blobs.LayoutParses` | types/src/blob.rs:214-260 | parsing a laid out blob followed by anything returns the blob and what follows |
| `Blobs.ReconstructionInvertsLayout` | types/src/blob.rs:294-315 | shares that hold a layout among reserved ones give back exactly its blobs in order if and only if none is empty |
| `Blobs.InsertedShareIgnored` | types/src/blob.rs:294-315 | a reserved or parity share put anywhere changes nothing |
| `Blobs.LayoutAllPasses` | types/src/blob.rs:294-315 | no share of a user's blob is taken for a reserved one |
| `ValidatorSets.TrustLevelRatio.VotingPowerNeeded` | types/src/trust_level.rs:39-52 | the fraction of the total rounded down; an error exactly if the product exceeds 64 bits or the denominator is 0 |
| `ValidatorSets.ExceedsFraction` | types/src/trust_level.rs:39-52 | exceeding the rounded threshold is exceeding the exact fraction |
| `ValidatorSets.TwoThirdsExceeded` | types/src/validator_set.rs:66-68 | in numbers: the threshold is exceeded exactly by three times the power above twice the total |
| `ValidatorSets.SignedIsVote` | types/src/validator_set.rs:75-100 | a signature counts only for a vote of this chain and of the commit's height, round and block |
| `ValidatorSets.VerifyCommitLight` | types/src/validator_set.rs:48-100 | accepts exactly if lengths and heights match, twice the total fits 64 bits, and some prefix is signed throughout with three times its power above twice the total; the tally never overflows |
| `ValidatorSets.AcceptedByTwoThirds` | types/src/validator_set.rs:48-100 | an accepted commit is signed by strictly more than two thirds of the power |
| `ValidatorSets.QuorumsIntersect` | types/src/validator_set.rs:48-100 | two accepted commits on one set share signers with strictly more than a third, so one outside any third signed votes for both blocks |
| `ValidatorSets.FindValidator` | types/src/validator_set.rs:154-159 | the first validator with the address, none exactly if there is none |
| `ValidatorSets.VerifyCommitLightTrusting` | types/src/validator_set.rs:102-151 | accepts exactly if some prefix has a signature on every vote, names no known validator twice, is signed by those and exceeds the level; names both places of a double vote |
| `ValidatorSets.TrustFractionSigned` | types/src/validator_set.rs:102-151 | acceptance means strictly more than the trust fraction signed, each validator counted once, never more than the total |
| `HeaderChains.ValidateHeader` | types/src/block.rs:128-165 | accepts exactly block protocol 11, a chain id of at most 50 bytes, a height from 1 on, and a last block id exactly above height 1 |
| `HeaderChains.ValidateDah` | types/src/data_availability_header.rs:313-346 | accepts exactly 2 to 256 row roots and as many column roots |
| `HeaderChains.ValidateCommit` | types/src/block.rs:167-211 | accepts exactly commits with a block id, signatures, and 64 bytes in each |
| `HeaderChains.Validate` | types/src/extended_header.rs:176-226 | accepts exactly headers whose parts are valid, agree with each other and carry a quorum |
| `HeaderChains.Verify` | types/src/extended_header.rs:239-312 | accepts exactly newer headers of the chain, in time, linked if adjacent, and otherwise with three times the power of the known signers of some prefix above the trusted total |
| `HeaderChains.DefaultLevelIsThird` | types/src/extended_header.rs:305-311 | the default trust level asks for exactly more than a third of the trusted power, each validator counted once |
| `HeaderChains.VerifyRange` | types/src/extended_header.rs:343-363 | accepts exactly if every header verifies against the one before and all but the first are adjacent to it |
| `HeaderChains.VerifyAdjacentRange` | types/src/extended_header.rs:400-415 | the same with the first adjacent too; an empty range passes |
| `HeaderChains.RangeIsChain` | types/src/extended_header.rs:343-415 | an accepted range has consecutive heights on one chain, each header naming the hash of the one before |
| `HeaderChains.TimesIncrease` | types/src/extended_header.rs:343-363 | times rise strictly along an accepted range |
| `HeaderChains.HeadPinsRange` | types/src/extended_header.rs:343-415 | two validated runs of the same length that verify and end in the same hash carry the same header at every position and start from the same hash; or two of their headers collide |
| `HeaderChains.SkippingNeedsHonestVote` | types/src/extended_header.rs:305-311 | a header accepted without its neighbours has the vote of a trusted validator outside any third |
| `HeaderChains.ForkNeedsThird` | types/src/extended_header.rs:176-226 | two different validated headers of one height and validator set need validators with more than a third to vote for both |
| `PeerTracking.PeerTracker.SetMaybeDiscovered` | node/src/peer_tracker.rs:78-91 | adds an unknown peer and says whether it was; counters follow a recount |
| `PeerTracking.PeerTracker.Get` | node/src/peer_tracker.rs:96-103 | the entry of a peer, added as discovered if missing |
| `PeerTracking.PeerTracker.AddAddresses` | node/src/peer_tracker.rs:106-125 | adds the new addresses and upgrades the state; counters follow a recount |
| `PeerTracking.PeerTracker.SetTrusted` | node/src/peer_tracker.rs:128-149 | the trusted counter moves exactly if a connected peer changes |
| `PeerTracking.PeerTracker.SetConnected` | node/src/peer_tracker.rs:152-179 | adds the connection and the address and keeps all others; the counters move exactly if it is the first |
| `PeerTracking.PeerTracker.SetMaybeDisconnected` | node/src/peer_tracker.rs:184-208 | drops the connection and says whether no other was left; the counters go down with the peer, and also for a peer that had none |
| `PeerTracking.AddedAllElements` | node/src/peer_tracker.rs:106-125 | adding addresses keeps the known ones first, adds the others and repeats none |
| `PeerTracking.WithoutElements` | node/src/peer_tracker.rs:184-208 | every other connection is kept |
| `PeerTracking.RunStaysCoherent` | node/src/peer_tracker.rs:78-208 | over every run a peer is Connected exactly if it has a connection, and otherwise its state tells whether addresses are known |
| `PeerTracking.EntryIsHistory` | node/src/peer_tracker.rs:78-208 | over every run a peer is known exactly if a step named it, its connections are those opened and not closed since, its addresses all that were given, and it is trusted exactly if the last word said so |
| `PeerTracking.CountersFallBehind` | node/src/peer_tracker.rs:288-306 | over every run each counter is a recount less the stale disconnects, modulo 2^64 |
| `PeerTracking.CountersExact` | node/src/peer_tracker.rs:288-306 | both counters equal a recount if and only if no disconnect was stale |
| `PeerTracking.StaleDisconnectWraps` | node/src/peer_tracker.rs:184-208 | one disconnect of an unknown peer leaves a counter at its largest value |

## Left out

- HeaderSessions.HeaderSession.Run: takes a given number of answers; `Pending` stands for a session that is still waiting after those, and the claims hold after any number.
- Sampling.Worker.ScheduleNextSampleBlock: refills a stale queue as often as it is given views of the store; `Pending` stands for a loop that is not through with those.
- Sampling.Worker.ConnectedEventLoop: covers every finite sequence of events, as `Syncing.Worker.ConnectedEventLoop` does.
- libp2p, gossip, bitswap and command plumbing: only "an answer arrives" and "a header is announced" remain, as steps or parameters.
- Store back ends: a store is its list of ranges, its metadata and its blockstore; fatal store errors are not modelled, and removing a header removes its metadata, as the in-memory store does.
- NamespaceLookup.GetNamespaceData: does not model the namespace proof returned with each row, because the namespaced Merkle tree is not part of this model; of a row root only its namespace range is.
- SHA-256, Ed25519, protobuf and the Reed-Solomon codec: parameters; the codec says which data it refuses.
- The square root that `new` and `from_ods` take in floating point is an integer square root.
- Blob commitments, blob indices and fraud proofs: `blob.rs` computes a commitment after reconstruction, which the model does not.
- Random choice of the cells to sample and the encoding of content ids.
- The `Commit` and `Vote` formats beyond the fields that the checks compare.
- Overflow of a height beyond 64 bits where the code adds 1 to a head, and counters beyond 2^64 peers.
- The contents of the overlap error in `block_ranges.rs`, log messages and events other than the pruner's report.
- `PeerTracker::remove`, peer selection, and the retry loop that connects the syncer to its first peer.
- Samples that a user rather than the daser requested.
- gRPC, RPC, command line, WebAssembly and mobile bindings, and gas estimation.
