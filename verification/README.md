# Verified models of the node's chain core

This project models, in Dafny, the parts of the dingo Cardano node that decide which chain it
holds and which peer it follows, and proves what those parts promise. `dafny verify
dfyconfig.toml` checks everything.

**The chain package.** `Blocks` fixes what a block hash determines. `ChainModel` is the primary
chain seen from outside: blocks, a queue of headers waiting on the tip, and the verdict of every
operation. `PrimaryChain` is the mutable chain over a row store (`ChainManager`) and a
retained-block LRU cache (`BlockCache`) that still answers for abandoned blocks; its methods are
proved to do what `ChainModel` says. `ChainEvents` is the sequencer that publishes change events
in mutation order. `Iterators` is what a consumer of a chain iterator ends up holding.
`IntersectLadder` computes chainsync intersection points. `ForkChain` is an in-memory fork and its
reconciliation after the primary moved, and `ForkFailure` a run in which that reconciliation fails,
leaves the fork out of shape and finally on a branch it never held. `BatchCommit` is the batched writer whose commit may fail
after memory has advanced; its `Importer` keeps only the fields a batch touches, with the store's
transaction in place of rows that are always committed, and stands beside `PrimaryChain.Chain`
because there every add commits at once.

**Chain selection.** `PeerTip` and `PeerChainTips` are one peer's delivered frontiers, history and
fragments; `PeerChainTip` updates them in place as the source does and computes the `PeerTip`
functions, and the selector keeps the same peers as values in its map, so that one evaluation can be
stated over all of them at once. `SelectionRules` says who may be followed and who is better, `SelectionSteps` what each
step of the selector may do and what every run keeps, and `Selector` is the selector itself, walking
its maps in any order.

**Protocols.** `SelectedNone` is the coalescing retry worker for "no peer selected" transitions,
`RestoreSwap` the data-directory swap of a live restore with its startup reconciliation, and
`HeaderDedup` cross-peer header deduplication with two-phase pruning.

Main results, each over every run or every reachable state: chain well-formedness and exact
rollback (`ChainModel.RunKeepsWellFormed`, `ChainModel.RollbackAcceptedIff`, refined by
`PrimaryChain.Chain.Rollback`); iterator replay (`Iterators.OriginReplay`) and the exact condition
under which an iterator not started at origin follows a rollback (`Iterators.RewindFollowedIff`);
fork reconciliation exactly when possible and in at most k steps, with the exact condition under
which a failure breaks the fork (`ForkChain.Fork.Reconcile`, `ForkFailure.FailedReconcileBreaksFork`),
enough for it to succeed (`ForkChain.RecentForkReconciles`), and exactly when a fork rolls back only
within its own content (`ForkChain.OwnRollbacksIff`, `ForkFailure.WrappedAnchorSplices`);
batch atomicity under commit failure (`BatchCommit.RunKeepsAgreement`,
`BatchCommit.FailedCommitAgreesIff`); event order (`ChainEvents.SubscriberConverges`); exactly when a
run of restores survives power loss (`RestoreSwap.RunSafeIff`) and two that do not; no lost wakeup and progress (`SelectedNone.RunKeepsInv`,
`SelectedNone.Drains`); bounded lag and the anti-flap pin (`Selector.ChainSelector.EvaluateBestPeer`);
corroboration soundness (`SelectionSteps.RunIsSound`, `SelectionSteps.IngressIsSound`,
`Selector.ChainSelector.Run`);
exact rollback resolution for peers (`PeerTip.RetreatKeepsFaithful`); exactly when a header
is new again (`HeaderDedup.NewReportsIff`).

## What the models assume

These are facts the code relies on without checking, written as preconditions:

- A block hash determines its header, and therefore how many blocks lie below it; the parent of a
  first block is no block. `Blocks.World` carries this.
- Block slots are at least 1 and grow along the chain.
- A block the manager can look up is the last block of some chain, which a fork created there stands
  for (`lineage`).
- Of the tip comparison only what `consensus/praos/comparison.go` shows is used; the tiebreak
  between equally long chains is an arbitrary function, not assumed transitive.
- Each operation of the selector reads the clock and connection liveness once (`Env`).
- What is deleted inside a directory is gone at once, under whatever name it is found later. Changed
  names are certain only after a sync of the parent; power loss brings back the names of some moment
  since. The contents of a restored directory are durable when staging ends.
- Live restores are issued after startup has completed, as the startup gate intends.
- Each step of `Disk` that changes something may be the last one before the process dies.

## Where code and comments disagree

The models follow the code.

- `chain/chain.go` says no mutation can move the chain between a failed commit and its recovery.
  Adds with their own transaction do not take the barrier, and `BatchCommit.FailedCommitAgreesIff`
  shows that they are exactly the exception.
- `chain/chain.go` compares a fresh iterator at its start slot even after it went back to origin.
  `Iterators.StaleIsReachable` shows the missed block.
- `node_lifecycle.go` says that after an ordinary swap error the original directory is intact or
  rolled back. When only the last sync fails the restored directory is active instead
  (`RestoreSwap.SwapOutcome`).
- `node_lifecycle.go` says that every intermediate state of the swap is safe to resume from, one the
  last sync does not make durable included. It is, until something deletes the backup: a second
  restore (`RestoreSwap.SecondRestoreLosesAll`), or a startup that confirms the restored data
  (`RestoreSwap.ConfirmedRestoreLosesAll`). `RestoreSwap.RunSafeIff` gives the exact condition.
- `chainselection/peer_tip.go` calls its two frontiers lockstep. They are while tracking stays on. The
  input of `PeerTip.ReenablingTrackingIsUnsafe` is unreachable: `SelectionSteps.TransitionIsSane`
  shows that no step re-enters the mode that tracks. The lemma says what the one-way mode is for.
- `chain/chain.go` lowers a fork's anchor step by step during a reconcile that may fail, and the
  failure is forgotten (`ForkChain.Fork.ReconcileTwice`). It also says that no public call path
  produces a buffer shorter than the distance from anchor to tip;
  `ForkFailure.FailedReconcileBreaksFork` is such a path.
- `chain/chain.go` re-anchors a fork at the last block it shares with the primary, but never looks at
  the tip of a fork with nothing buffered (`ForkChain.Fork.Reconcile`,
  `ForkFailure.ReadoptedTipIsBuffered`).
- `chain/chain.go` says that a rollback to a point the chain does not hold is refused, so that no
  forks are spliced. A second failed reconcile can take the anchor below zero, where it wraps past the
  tip; the fork then takes every block of the primary for its own
  (`ForkFailure.WrappedAnchorSplices`). `ForkChain.OwnRollbacksIff` gives the exact condition, which a
  fork created at a point only the cache knows can fail too (`ForkChain.NewChain`).

## Model

| member | source | states |
|---|---|---|
| Blocks.SlotsIncrease | chain/chain.go:1836-1842 | along a well-formed chain slots strictly increase with index, which the index searches rely on |
| Blocks.SameHashSamePrefix | chain/chain.go:1894-1920 | two well-formed chains that hold the same hash hold the same blocks up to it, so holding a hash at an index means sharing the whole prefix |
| Blocks.IndexOfSame | chain/chain.go:1131-1165 | a point has the same index on every two well-formed chains that hold it |
| BlockCache.Cache.constructor | chain/blockcache.go:65-82 | an empty cache; a capacity of zero or less becomes 10000 |
| BlockCache.Cache.Get | chain/blockcache.go:106-123 | answers what the recency list holds, moves the entry to the front, and rejects keys that are not 32 bytes; map and list stay the same duplicate-free set |
| BlockCache.Cache.Put | chain/blockcache.go:125-160 | stores or refreshes at the front, evicting exactly the least recently used entry when full |
| BlockCache.Cache.Delete | chain/blockcache.go:162-176 | removes the key from map and list alike, or changes nothing |
| BlockCache.Cache.EvictOldest | chain/blockcache.go:178-185 | drops the last list entry and its map key, nothing else |
| BlockCache.Cache.MapMatchesList | chain/blockcache.go:106-184 | a key is in the map exactly when the list holds it, with the same block |
| BlockCache.RunKeepsCacheable | chain/blockcache.go:106-184 | over any Get/Put/Delete run keys stay distinct and the size within capacity |
| BlockCache.LookupsAfter | chain/blockcache.go:106-184 | what each operation does to every lookup: Get changes none, Delete exactly its own key, Put serves its block and takes away at most the least recently used one, when full and the key is new |
| BlockCache.RetainedWhileRecent | chain/blockcache.go:106-184 | LRU promise: a stored block is still served, unchanged, after any run on other keys that uses fewer than capacity distinct keys |
| BlockCache.ServedAmongFew | chain/blockcache.go:106-184 | the same promise with lookups of the block itself in between: served after every run on no more distinct keys than the capacity |
| ChainModel.HeaderKeepsWellFormed | chain/chain.go:199-258 | queueing a header that names the header tip keeps the queue a linked extension of the chain |
| ChainModel.BlockKeepsWellFormed | chain/chain.go:430-529 | adding a block, whether it takes the oldest queued header or clears the queue, keeps chain and queue linked |
| ChainModel.RollbackKeepsWellFormed | chain/chain.go:1257-1393 | every rollback, accepted or refused, keeps chain and queue linked |
| ChainModel.OnChainIsBelow | chain/chain.go:1179-1196 | origin and on-chain points are never mistaken for queued headers, nor for a misplaced header |
| ChainModel.LocateHeader | chain/chain.go:1179-1196 | a queued header is found at its own position |
| ChainModel.QueuedIff | chain/chain.go:199-258 | a header is queued exactly when it fits on chain and queue and fewer than 10000, or fewer than 2k, wait; which refusal comes first |
| ChainModel.AddedIff | chain/chain.go:437-494 | a block is added exactly when it names the tip, carries the next number or repeats it in the Byron era, and is the oldest queued header where it must be; which refusal comes first |
| ChainModel.RawAddedIff | chain/chain.go:676-760 | what a raw import checks, field by field: hashes, parent and queued header, no number |
| ChainModel.HeaderRollback | chain/chain.go:1284-1294 | a rollback to a queued header keeps the blocks and the queue up to and including it |
| ChainModel.RollbackAcceptedIff | chain/chain.go:1257-1330 | a rollback is accepted exactly when k is set and the point is a queued header, or origin or a block the chain holds now at most k blocks down |
| ChainModel.RollbackRefusedAs | chain/chain.go:1276-1330 | why a rollback is refused: not configured, deeper than k for points the chain holds, not found otherwise |
| ChainModel.RollbackIsTruncation | chain/chain.go:1331-1393 | an accepted rollback to a block point leaves exactly the prefix ending there, an empty queue, and drops at most k blocks |
| ChainModel.RunKeepsWellFormed | chain/chain.go:191-529 | over every run of header adds, fetched, local and raw blocks, rollbacks and queue clears the chain is linked at indices 1..n and the queue is a linked extension of its tip |
| ChainModel.RunKeepsNumbersContiguous | chain/chain.go:151-159 | over every run, raw imports that fit included, each block number follows its parent (64-bit, Byron boundary blocks may repeat it) |
| ChainModel.NumbersCount | chain/chain.go:151-159 | contiguous numbers count blocks: never falling, at most one a block, exactly one where no Byron block lies between |
| ChainModel.RawKeepsNumbersIff | chain/chain.go:676-760 | a raw import that is accepted keeps numbers contiguous if and only if a queued header fixed its number, the chain was empty, or its number follows the tip |
| ChainModel.RawImportSkipsNumbers | chain/chain.go:676-760 | a concrete two-block run in which raw import accepts a number that does not follow, which a normal add refuses |
| ChainEvents.UndoSuffix | chain/chain.go:1430-1473 | undoing the removed blocks newest first takes a chain back to the prefix that was kept |
| ChainEvents.RollbackReplays | chain/chain.go:1430-1461 | the events of a rollback tell a checking subscriber the truth: the blocks removed newest first, the point it ends at, the depth, and the heads before and after |
| ChainEvents.MutationReplays | chain/chain.go:347-364 | what one deferred mutation announces replays, with every field checked, to exactly what it did to the chain |
| ChainEvents.StepKeepsInv | chain/chain.go:347-384 | queueing one event at a time under the chain lock and draining in between lose, duplicate and reorder nothing |
| ChainEvents.RunKeepsInv | chain/chain.go:64-89 | the same over every interleaving of deferred mutations, their single enqueues and concurrent drains |
| ChainEvents.PublishedInMutationOrder | chain/chain.go:366-384 | in every reachable state published, in-flight (at most one), pending and not yet queued events are the mutation log cut into four |
| ChainEvents.SubscriberConverges | chain/chain.go:419-427 | a subscriber that checks every event never meets one that does not fit (an undo of another block, a rollback that ends elsewhere than it says, a fork notice with the wrong depth or heads), and holds the primary chain when nothing is queued or in flight |
| ChainManager.Manager.constructor | chain/manager.go:63-98 | a manager over the rows a store holds, with an empty retained-block cache |
| ChainManager.Manager.BlockByPoint | chain/manager.go:300-328 | resolves a point exactly when the cache retains its block or the primary holds it, always to the block the hash stands for |
| ChainManager.Manager.BlockByHash | chain/manager.go:330-357 | the same by hash alone |
| ChainManager.Manager.ResolvableByHash | chain/manager.go:300-357 | for a point of any well-formed chain the two lookups resolve alike |
| ChainManager.Manager.RowAt | chain/manager.go:359-385 | a row exists exactly for indices 1..tip and is the primary block there |
| ChainManager.Manager.AddRow | chain/manager.go:534-549 | stores the next primary block under its index |
| ChainManager.Manager.Retain | chain/manager.go:534-549 | a fork block goes to the retained-block cache only |
| ChainManager.Manager.RemoveBlockByIndex | chain/manager.go:551-584 | removes the tip row, retains its block in the cache, and tells every fork the removed index |
| ChainManager.Manager.ChainNeedsReconcile | chain/manager.go:586-604 | true exactly when a removed index at or below the common prefix was noted; asking clears the notes |
| PrimaryChain.ChainIterator.constructor | chain/iter.go:45-105 | a fresh iterator has handed out nothing and has no pending rollback |
| PrimaryChain.ChainIterator.Rewind | chain/chain.go:1394-1429 | a re-aimed iterator keeps what readers rely on: its marker names the lowest point its consumer has to go back to and never moves up, it is set exactly on forward iterators past the point, and a reverse one never points above the cut |
| PrimaryChain.Chain.constructor | chain/manager.go:401-428 | loading takes the highest stored row as tip and keeps all of the chain invariant |
| PrimaryChain.Chain.AddBlockHeader | chain/chain.go:191-258 | queues or refuses (queue full, wrong parent, wrong number) exactly as the model decides, invariant kept |
| PrimaryChain.Chain.ClearHeaders | chain/chain.go:1479-1486 | empties the queue and nothing else |
| PrimaryChain.Chain.CheckBlock | chain/chain.go:437-494 | why a block does not fit, or the record it is stored as |
| PrimaryChain.Chain.Append | chain/chain.go:495-513 | store, tip, index, queue and generation move together |
| PrimaryChain.Chain.AddBlock | chain/chain.go:390-529 | adds or refuses as the model decides; a refusal changes nothing; a deferred add queues its event with the mutation |
| PrimaryChain.Chain.FindQueuedHeader | chain/chain.go:1179-1196 | the newest-first scan classifies a point as a queued header, below all of them, or misplaced |
| PrimaryChain.Chain.HoldsBlockAtIndex | chain/chain.go:1894-1920 | true exactly when the chain has that hash at that index now |
| PrimaryChain.Chain.RollbackPointBlock | chain/chain.go:1131-1165 | resolves a target exactly when it is on the chain now; a block only the cache remembers is refused as not on chain |
| PrimaryChain.Chain.ResolveTarget | chain/chain.go:1056-1071 | the index to cut to, or the refusal (not found, not on chain, deeper than k) |
| PrimaryChain.Chain.ValidateRollback | chain/chain.go:1198-1255 | accepts a point in a state exactly when Rollback does, and changes nothing but lookup recency |
| PrimaryChain.Chain.RemoveDownTo | chain/chain.go:1331-1377 | deletes rows newest first, reporting, retaining and announcing exactly the removed blocks |
| PrimaryChain.Chain.RewindIterators | chain/chain.go:1394-1429 | every live iterator is re-aimed |
| PrimaryChain.Chain.Truncate | chain/chain.go:1331-1473 | the accepted part of a rollback: chain, queue, tip, cache, fork notices, iterators, and events that replay from the old chain to the new one |
| PrimaryChain.Chain.Rollback | chain/chain.go:1257-1473 | refines the model: same verdict, same resulting chain, events queued or published that replay from the old chain to the new one with point, depth and heads right |
| PrimaryChain.Chain.PublishPendingChainUpdates | chain/chain.go:366-384 | publishes everything queued, oldest first |
| PrimaryChain.Chain.BlockByIndex | chain/chain.go:1948-1973 | the block at an index, or nothing outside 1..tip |
| PrimaryChain.Chain.BlockBeforeSlot | chain/chain.go:1824-1873 | binary search returns the highest block before the slot, or none exactly when there is none, without underflow |
| PrimaryChain.Chain.StartIndex | chain/iter.go:45-105 | where an iterator begins, as specified by Iterators.NewIter; a start point the chain does not hold now is rejected even if the cache knows it |
| PrimaryChain.Chain.FromPoint | chain/chain.go:1730-1801 | registers an iterator whose first Next is the start block if inclusive, else its neighbour in the direction of travel; or none and nothing changes |
| PrimaryChain.Chain.IterNext | chain/chain.go:2025-2124 | a non-blocking Next hands out exactly what the iterator model says |
| PrimaryChain.ResolvedIsHeld | chain/chain.go:1894-1920 | what a lookup by point resolves to is held exactly when the point is on the chain, so no stale cache entry can splice forks |
| Iterators.NewIterInSync | chain/iter.go:45-105 | a new forward iterator starts in sync with a consumer holding what precedes the start block, with it if exclusive |
| Iterators.FirstNext | chain/iter.go:45-105 | an iterator is opened exactly at origin and at points the chain holds; its first Next gives the start block if inclusive, the next block, the previous one, or the end if exclusive, and the first block from origin |
| Iterators.RewindKeepsSync | chain/chain.go:1394-1429 | a rollback keeps the consumer in sync, the one failing case excluded |
| Iterators.PullKeepsSync | chain/chain.go:2025-2130 | a Next keeps the consumer in sync |
| Iterators.RunKeepsSync | chain/chain.go:1394-1429 | over any interleaving of adds, rollbacks and reads the consumer stays in sync |
| Iterators.OutcomeIsTruthful | chain/chain.go:2025-2130 | in sync, each delivery or rollback leaves a prefix of the chain, and at the tip the whole of it |
| Iterators.OriginReplay | chain/chain.go:2025-2130 | iterator replay: from origin, whatever interleaves (rollbacks to origin included), every delivery leaves a prefix and at-tip means exactly the chain |
| Iterators.SyncDrains | chain/chain.go:2025-2130 | draining an iterator in sync ends with exactly the chain |
| Iterators.RewindFollowedIff | chain/chain.go:1414-1417 | a rollback is followed correctly if and only if the iterator was not back at origin with a start slot above the rollback point |
| Iterators.StaleIsReachable | chain/chain.go:1414-1417 | that failing case is reached by a concrete run: start after a later block, roll back to origin, regrow, roll back again |
| Iterators.ReverseStaysOnLineage | chain/chain.go:2069-2124 | a reverse iterator only ever hands out its start block and its ancestors, at strictly decreasing indices, however the chain moves |
| Iterators.RewindSkipsNothing | chain/chain.go:1395-1410 | a rollback takes nothing from a reverse iterator that the chain still holds |
| Iterators.ReverseTerminates | chain/chain.go:1395-1410 | each reverse Next moves strictly down or reports origin, and reports origin exactly when nothing is left |
| IntersectLadder.IntersectPoints | chain/chain.go:1568-1673 | exactly the depths 0-31, the powers of two, k and the first block, newest first, cut off at count; when nothing is cut off, any peer within k of our tip shares a point at depth at most k, and any peer at all one at most twice as deep as it is behind |
| IntersectLadder.DoublingBound | chain/chain.go:1614-1624 | a full ladder makes no peer fall back to more than twice its lag |
| IntersectLadder.DenseBand | chain/chain.go:1609-1625 | the newest min(count, 32) points without a gap |
| IntersectLadder.SparseRungs | chain/chain.go:1632-1668 | every power of two and the depth-k rung in order without a gap; ends even when the 64-bit offset wraps to zero |
| IntersectLadder.OneRung | chain/chain.go:1644-1660 | one doubling step leaves no rung out above it, the depth-k rung first if it belongs above |
| IntersectLadder.Offer | chain/chain.go:1588-1608 | appends an on-chain point once, never past count |
| ForkChain.CommonPrefix | chain/chain.go:2162-2268 | a block both chains hold at an index is one below which they are identical |
| ForkChain.WrapsIff | chain/chain.go:2259-2259 | the 64-bit anchor wraps past where it was if and only if it is lowered by more than it is |
| ForkChain.NewChain | chain/manager.go:176-213 | forks exactly at the points the manager can look up, standing for the chain that ends there; its reads are right exactly when the primary holds the point, which nothing asks |
| ForkChain.Fork.ShapeIff | chain/chain.go:1114-1129 | a fork is in shape exactly when its buffer is the top of its content and begins at the anchor |
| ForkChain.Fork.MatchBuffer | chain/chain.go:2180-2198 | re-anchors at the highest buffered block the primary holds, none above it being shared, or reports that there is none |
| ForkChain.Fork.LookUpParent | chain/chain.go:2229-2247 | finds the ancestor one below and whether the primary holds it there |
| ForkChain.Fork.Climb | chain/chain.go:2224-2260 | walks ancestors for at most k lookups, succeeding exactly when a shared block is reachable; a failure leaves the anchor lowered (64-bit) by exactly the number of consecutive ancestors that can be looked up, at most k |
| ForkChain.Fork.WalkBack | chain/chain.go:2199-2267 | re-anchors below the buffer at the highest shared block with the buffer extended to match, or leaves buffer and content alone and the anchor lowered by exactly the ancestors looked up in vain |
| ForkChain.Fork.Reconcile | chain/chain.go:2162-2268 | shape broken by an earlier failure or not: succeeds exactly when nothing was flagged or a shared block is reachable; a flagged success restores the shape, keeps content and tip, and anchors at the last block the primary shares if and only if something was buffered or the tip is not shared, else one below the tip, in at most k steps; how far a failure lowers the anchor is known before the call: the shape is kept if and only if not at all, and the anchor wraps if and only if by more than it is |
| ForkChain.Fork.ReconcileTwice | chain/chain.go:2225-2259 | a failed reconcile is forgotten: asking again reports success, the anchor stays lowered, and the shape is still there if and only if no ancestor was looked up in vain |
| ForkChain.RecentForkReconciles | chain/chain.go:2162-2268 | a fork can be re-anchored whenever the primary dropped fewer than k of its blocks below the anchor and no more distinct cache keys were used since than the cache holds |
| ForkChain.Fork.BlockByIndex | chain/chain.go:1948-1973 | for every fork: up to the anchor the primary's row, above it the buffered point if it resolves; with the buffer the top of the content that is the block off by buffer begin minus anchor, so right if and only if the anchor is where the buffer begins |
| ForkChain.Fork.AddBlock | chain/chain.go:430-529 | adds on top of the content exactly when it can reconcile and the block follows the tip, shape broken or not; the record goes to the cache |
| ForkChain.Fork.CheckFits | chain/chain.go:459-482 | accepts exactly blocks that follow the fork tip |
| ForkChain.Fork.Push | chain/chain.go:483-513 | buffer, tip and content grow together |
| ForkChain.Fork.HoldsBlockAtIndex | chain/chain.go:1894-1920 | shape broken or not: exactly what a read up to the tip gives has the hash |
| ForkChain.Fork.Rollback | chain/chain.go:1257-1393 | after a reconcile, or in shape over a shared prefix, exactly to origin or a resolvable point of its own content, leaving that prefix; otherwise refused with the anchor below the buffer, and else accepted exactly at origin, at every point the primary holds up to anchor and tip, and at its own buffered points if the buffer begins at the anchor, with what it then stands for and buffers; in shape afterwards if and only if it was or nothing was buffered |
| ForkChain.Fork.CutBack | chain/chain.go:1288-1393 | that verdict and outcome, once reconciled |
| ForkChain.OwnRollbacksIff | chain/chain.go:1894-1920 | with no notice out, every rollback a fork accepts stays within its own content if and only if its anchor is below its buffer or the primary holds no foreign block up to anchor and tip |
| ForkChain.ForeignInShape | chain/chain.go:1948-1957 | for a fork in shape that is the same as its reads giving its content |
| ForkChain.Fork.RollbackPointBlock | chain/chain.go:1131-1165 | resolves exactly the points whose index the fork takes for its own: the primary's up to the anchor, above it its buffered ones if the buffer begins there |
| ForkChain.Fork.DropAbove | chain/chain.go:1360-1377 | the points deleted one by one are exactly those above index and anchor, counted from the anchor; with the anchor at or past the tip none |
| ForkChain.Fork.CutTo | chain/chain.go:1334-1393 | cuts content, buffer, tip and, below it, the anchor; the buffer is still the fork's own if and only if it began at the anchor or was empty |
| ForkChain.NoticesArrive | chain/manager.go:551-584 | every removed index reaches every fork, and none is lost |
| ForkChain.FlaggedIff | chain/manager.go:586-604 | a fork is flagged if and only if an index at or below its anchor was removed |
| ForkChain.PrimaryMovesAreNoticed | chain/manager.go:551-604 | after any primary adds and rollbacks, a fork whose reads no longer match its content is flagged |
| ForkFailure.FailedReconcileBreaksFork | chain/chain.go:2224-2260 | a run over real chain and fork objects, k = 2: a two-block rollback and a regrowth make the reconcile fail with the anchor two below the buffer; asked again it reports success, and a rollback to its own tip is refused |
| ForkFailure.WrappedAnchorSplices | chain/chain.go:1366-1384 | the run goes on: the primary starts over from origin, the second failure wraps the anchor past the tip, a rollback to a block the fork never held is accepted, and a block added then is not what is read at its index |
| ForkFailure.BrokenForkAnswers | chain/chain.go:1114-1129 | a fork out of shape with no notice out reports success when asked to reconcile; it refuses every rollback if the anchor is below the buffer, else it accepts exactly origin and the primary's points up to anchor and tip, becoming the primary's prefix with the old buffer left over |
| ForkFailure.SuchBranches | chain/chain.go:2224-2260 | headers for that run exist |
| ForkFailure.ReadoptedTipIsBuffered | chain/chain.go:2204-2217 | a run in which the primary gives up the fork tip and takes it again: the fork, nothing buffered, ends with its tip buffered one above the anchor |
| BatchCommit.ApplyAllExtends | chain/chain.go:861-900 | a batch that applies leaves exactly its blocks on top of the old ones, still well formed |
| BatchCommit.ApplyOpensWindow | chain/chain.go:845-905 | after the closure the store lacks exactly the batch, which the transaction carries |
| BatchCommit.CommitConcludes | chain/chain.go:906-961 | commit or failure, memory and store agree and the batch is wholly in or wholly out, when nothing was added past it |
| BatchCommit.FailedCommitAgreesIff | chain/chain.go:807-815 | after a failed commit memory and store agree if and only if nothing was added past the batch meanwhile |
| BatchCommit.CommitSucceeds | chain/chain.go:531-663 | a successful commit restores agreement in every case |
| BatchCommit.RollbackKeepsAgreement | chain/chain.go:1261-1271 | a rollback, kept out of the window by the barrier, keeps memory and store in agreement |
| BatchCommit.RollbackFindsItsRows | chain/chain.go:91-117 | no rollback asks the store for an uncommitted index |
| BatchCommit.DirectAddKeepsInv | chain/chain.go:390-427 | an add with its own transaction during the window keeps the window invariant |
| BatchCommit.StepKeepsInv | chain/chain.go:91-117 | every step of batch writer, rollbacks and header traffic keeps the protocol invariant |
| BatchCommit.RunKeepsAgreement | chain/chain.go:531-663 | over every run of one batch writer with rollbacks, header adds and adds with their own transaction, memory and store agree outside the window and the queue stays linked, as long as no commit fails after such an add overtook the batch |
| BatchCommit.OvertakenIsReachable | chain/chain.go:807-815 | from every idle state with two blocks that fit, a run in which an add overtakes a batch and the commit fails leaves memory and store in disagreement |
| BatchCommit.Importer.AddRawBlock | chain/chain.go:676-760 | one block added to memory and transaction, or nothing changed |
| BatchCommit.Importer.AddBatch | chain/chain.go:843-962 | one batch all in or all out of memory and store, whichever block, callback or commit fails; the same as the protocol steps begin, apply and commit with nothing in between |
| BatchCommit.Importer.AddRawBlocks | chain/chain.go:817-981 | batches of 50: stops at the first failing batch with exactly the earlier ones stored and in memory |
| BatchCommit.RejectedPrefix | chain/chain.go:877-896 | a batch with a rejected prefix is rejected |
| RestoreSwap.DropBackupSafeIff | node_lifecycle.go:1934-1951 | deleting the backup of a database that has come up is safe if and only if no activation is in doubt |
| RestoreSwap.SwapOutcome | node_lifecycle.go:1774-1841 | from where nothing is in doubt: survives power loss; a surviving process learns unrecoverable exactly when no data directory is in place; an ordinary error leaves the original, except that when only the last sync fails the restored one is active, and exactly then in doubt |
| RestoreSwap.UndoSyncs | node_lifecycle.go:1792-1813 | an undone swap syncs the names it put back |
| RestoreSwap.SwapMeans | node_lifecycle.go:1707-1713 | what each outcome tells the caller: unrecoverable exactly without a data directory, the candidate in place exactly when the second rename was made, success exactly when that is also certain |
| RestoreSwap.SwapSafeIff | node_lifecycle.go:1774-1841 | the swap survives power loss at every moment if and only if no earlier activation is in doubt or it does not touch the backup |
| RestoreSwap.ReconcileOutcome | node_lifecycle.go:1874-1927 | survives power loss; startup succeeds exactly when the calls it needs do, and then an intact database is in place: the backup if the data directory was missing, else what was there |
| RestoreSwap.ReconcileCleansUp | node_lifecycle.go:1874-1927 | without a backup nothing is touched, with one the staging directory goes |
| RestoreSwap.BootOutcome | node.go:1756-1766 | a node that is up runs on a proven database; the backup goes only after that |
| RestoreSwap.BootSafeIff | node_lifecycle.go:1934-1951 | startup survives power loss at every moment if and only if no activation is in doubt or it does not get to delete the backup |
| RestoreSwap.FinishOutcome | node_lifecycle.go:1642-1705 | what follows staging, with the exact condition for the node to be running and for an activation to be left in doubt |
| RestoreSwap.FinishCleansUp | node_lifecycle.go:1697-1704 | a restore that comes up drops the backup |
| RestoreSwap.RestoreOutcome | node_lifecycle.go:1474-1705 | a live restore ends running on a proven database or down, with the candidate in place exactly when the second rename was made, and in doubt exactly when the last sync failed |
| RestoreSwap.RestoreRunsIff | node_lifecycle.go:1547-1705 | whether the node is running after a restore, branch by branch |
| RestoreSwap.RestoreCleansUp | node_lifecycle.go:1486-1640 | an old staging directory goes first, and what was staged goes if the restore cannot go on |
| RestoreSwap.RestoreSafeIff | node_lifecycle.go:1474-1705 | a live restore survives power loss at every moment if and only if no earlier activation is in doubt or it does not get to the backup |
| RestoreSwap.RunSafeIff | node_lifecycle.go:1642-1951 | over every run of starts, restores, stops, deaths, write-backs and power failures: power may go at every moment if and only if no backup is deleted while an activation is in doubt; startup then finds an intact database and one that has come up is still on disk |
| RestoreSwap.SecondRestoreLosesAll | node_lifecycle.go:1774-1841 | a run that loses every database: the last sync of a restore fails, a second restore deletes the backup, power goes |
| RestoreSwap.ConfirmedRestoreLosesAll | node_lifecycle.go:1934-1951 | another: killed between the second rename and its sync, started again, confirmed, power goes |
| RestoreSwap.Disk.SwapInRestored | node_lifecycle.go:1774-1841 | every rollback branch in place: unrecoverable exactly without a data directory, the candidate in place exactly when the second rename was made, success exactly when that is certain too, crash safety kept |
| RestoreSwap.Disk.Reconcile | node_lifecycle.go:1874-1927 | crash safety kept; a startup that goes on has the database startup was to open in place and intact |
| RestoreSwap.Disk.Startup | node.go:545-556 | a node that is up runs on that database, proven; until it is up the backup stays |
| RestoreSwap.Disk.Restore | node_lifecycle.go:1474-1705 | ends running on a proven database or down, with the candidate, the original or nothing in place, each exactly when the calls say so |
| SelectedNone.RetryFollowsBackoff | node_chainsync_recycler.go:385-396 | the interval starts at 10ms, doubles with every failure up to one second, and starts over once the lock is had |
| SelectedNone.CoveredKeptIff | node_chainsync_recycler.go:301-325 | every step keeps a pending transition covered by a token, a sender or the running worker, except exactly a deferral before the worker starts |
| SelectedNone.StepKeepsNewest | node_chainsync_recycler.go:301-325 | the slot holds the newest transition and is set exactly when one came after the last take |
| SelectedNone.StepKeepsOrdered | node_chainsync_recycler.go:375-380 | takes are in order, none repeats, each takes the newest |
| SelectedNone.StepKeepsPaced | node_chainsync_recycler.go:340-373 | the interval in hand is the backoff of the failures so far |
| SelectedNone.StepKeepsInv | node_chainsync_recycler.go:301-383 | all of it, step by step |
| SelectedNone.RunKeepsInv | node_chainsync_recycler.go:301-383 | all of it, over every interleaving of deferrers, lifecycle operations, cancellation and the worker started first |
| SelectedNone.SettledMeansHandled | node_chainsync_recycler.go:327-383 | when nothing is pending or in hand the newest deferred transition is the last handled |
| SelectedNone.HandledOnce | node_chainsync_recycler.go:327-383 | no transition is handled twice and each handled one was deferred, in order |
| SelectedNone.EarlyDeferralIsStranded | node_chainsync_recycler.go:312-319 | a deferral before the worker starts is pending with nobody to wake |
| SelectedNone.Drains | node_chainsync_recycler.go:327-383 | once the lock is free and no deferrer is half-way, at most five moves handle the newest transition |
| SelectedNone.Slot.Defer | node_chainsync_recycler.go:301-325 | a deferral is two steps of the protocol: the newest transition is pending, a token is queued and the protocol invariant holds again |
| SelectedNone.Slot.Drain | node_chainsync_recycler.go:327-383 | one wake takes the pending transition once, after exactly the backed-off sleeps |
| PeerTip.RecordTracks | chainselection/peer_tip.go:232-302 | with hashes tracked, both frontiers stay ascending and in lockstep, and keep of the old slots exactly those below the new one and less than a window before it |
| PeerTip.RecordUntracked | chainselection/peer_tip.go:240-242 | without hashes the slot frontier keeps the same slots, and lockstep holds only if the point cleared it |
| PeerTip.ReenablingTrackingIsUnsafe | chainselection/peer_tip.go:253-271 | turning tracking on over existing slots would leave a stale block above the frontier; no run does that |
| PeerTip.RememberKeepsOrder | chainselection/peer_tip.go:183-212 | the delivered-tip history stays ascending, bounded, and ends at the tip delivered |
| PeerTip.RollbackTruncates | chainselection/peer_tip.go:160-178 | a rollback cuts both frontiers at the point, keeps lockstep, and shows the advertised tip and time of the message |
| PeerTip.RollbackRestores | chainselection/peer_tip.go:130-156 | rollback to a retained point restores that delivery with its block number |
| PeerTip.RollbackForgets | chainselection/peer_tip.go:130-156 | rollback to origin or a point not retained leaves the point with block number zero and no history |
| PeerTip.RollbackToSelf | chainselection/peer_tip.go:137-140 | rollback to the delivered tip changes neither tip nor history |
| PeerTip.StepKeepsTracked | chainselection/peer_tip.go:103-212 | each delivery or rollback keeps order, bound, end and lockstep |
| PeerTip.RunKeepsTracked | chainselection/peer_tip.go:119-302 | the same over every run, with tracking always on or always off |
| PeerTip.ExtendKeepsFaithful | chainselection/peer_tip.go:183-212 | the history remains the end of the chain delivered, short of k+1 only by what was rolled back since the peak |
| PeerTip.RetreatKeepsFaithful | chainselection/peer_tip.go:119-155 | any rollback to a block at most k below the highest reached is resolved to the exact delivered tip |
| PeerTip.TravelKeepsFaithful | chainselection/peer_tip.go:119-212 | both, over every run of extensions and rollbacks |
| PeerChainTips.PeerChainTip.RecordObservedPoint | chainselection/peer_tip.go:232-302 | the in-place update computes the specified frontiers |
| PeerChainTips.PeerChainTip.PopAbove | chainselection/peer_tip.go:253-259 | pops slots above the new one, hashes with them |
| PeerChainTips.PeerChainTip.AppendPoint | chainselection/peer_tip.go:260-271 | both frontiers stay ascending and in lockstep and end at the point, its hash being the newest delivered at its slot |
| PeerChainTips.PeerChainTip.Prune | chainselection/peer_tip.go:283-301 | drops the leading entries below the cutoff from both frontiers |
| PeerChainTips.PeerChainTip.RecordObservedTipHistory | chainselection/peer_tip.go:183-212 | the in-place update computes the specified history |
| PeerChainTips.PeerChainTip.PopTipsFrom | chainselection/peer_tip.go:198-202 | pops tips at or above the slot |
| PeerChainTips.PeerChainTip.DropOldest | chainselection/peer_tip.go:208-211 | keeps the newest entries up to the bound |
| PeerChainTips.PeerChainTip.ApplyRollback | chainselection/peer_tip.go:119-178 | the in-place rollback computes the specified state |
| PeerChainTips.PeerChainTip.RestoreObserved | chainselection/peer_tip.go:126-156 | restores the observed tip and history, or falls back to block number zero |
| PeerChainTips.PeerChainTip.KeepUntil | chainselection/peer_tip.go:166-177 | keeps the leading slots up to the point |
| PeerChainTips.ConfirmsRecentChain | chainselection/peer_tip.go:354-385 | the two-pointer scan is true exactly when the peers overlap and every in-range block of the witness is the candidate's by slot and hash |
| PeerChainTips.ObservedDensity | chainselection/peer_tip.go:387-409 | counts exactly the observed slots less than a window before the latest, without a window all of them |
| PeerChainTips.Intersect | chainselection/candidate_fragment.go:92-117 | the highest common point, or none exactly when the fragments are disjoint |
| SelectionRules.SatAdd | chainselection/selector.go:32-37 | unsigned addition that saturates instead of wrapping |
| SelectionRules.SelectableIff | chainselection/selector.go:1029-1099 | who may be followed, field by field: open, not made ineligible, heard from within the threshold, at most k blocks behind the local tip and every eligible fresh peer, and vouched for under the gate |
| SelectionRules.VouchesIff | chainselection/genesis_corroboration.go:60-110 | who vouches, field by field: an open, eligible, fresh peer on another host that confirms the recent chain |
| SelectionRules.BetterIsAhead | chainselection/selector.go:1182-1208 | the better of two peers is not behind: by density first in Genesis mode, then by delivered blocks; a tie of tips means equally many |
| SelectionRules.DenserIsBetter | chainselection/selector.go:1182-1208 | in Genesis mode more observed slots in the window win, whatever else |
| SelectionRules.TiebreakDecides | chainselection/selector.go:1210-1231 | between equally long chains that differ the tiebreak decides, and only it |
| SelectionRules.CompareIsAntisymmetric | chainselection/selector.go:1182-1267 | the two orders of comparing agree, whenever the tiebreak does not prefer both |
| SelectionRules.SameTipByConnection | chainselection/selector.go:1226-1262 | at the same tip and density priority decides, then measured latency, then the id |
| SelectionRules.KeptPoints | chainselection/peer_tip.go:340-343 | the scanned frontiers are ascending in every kept state |
| SelectionRules.WindowIs | chainselection/selector.go:259-270 | the window is as configured, else 3k, else 6480 slots |
| SelectionRules.CaughtUpIff | chainselection/selector.go:295-363 | Genesis mode may be left exactly when some selectable peer has delivered to within the window of its tip and every such tip is within the window of the local one |
| SelectionRules.CorroborationGivesWitnesses | chainselection/genesis_corroboration.go:111-132 | a corroboration count of n gives n present peers on pairwise different hosts, none the candidate's, each confirming its recent chain |
| SelectionRules.WitnessesCount | chainselection/genesis_corroboration.go:111-132 | any witnesses on pairwise different hosts are counted |
| SelectionSteps.BestStep | chainselection/selector.go:1109-1134 | one visit keeps the best of those seen best, in any order |
| SelectionSteps.IncumbentOutcome | chainselection/selector.go:1526-1589 | whichever of incumbent and best is kept trails no selectable peer by more than the slack, and an undisputed incumbent is kept |
| SelectionSteps.KeepsIncumbentIff | chainselection/selector.go:1526-1589 | when the incumbent is kept over a challenger, field by field: a tie, the better chain, or the two-block margin while the local tip moves |
| SelectionSteps.FollowedTrailsByTwo | chainselection/selector.go:1526-1589 | after an evaluation in Praos mode the peer followed has delivered at most two blocks fewer than any selectable peer, and none fewer before any block is applied or after twenty seconds without progress |
| SelectionSteps.IncumbentStays | chainselection/selector.go:1526-1589 | a selectable incumbent no selectable peer leads by more than two blocks stays, while the local tip moves |
| SelectionSteps.AdvancedIsKept | chainselection/selector.go:331-363 | leaving Genesis mode drops the hash frontiers and keeps every peer in order |
| SelectionSteps.ReportedIsKept | chainselection/selector.go:529-588 | a report leaves the peer ordered, in lockstep exactly while the gate is up |
| SelectionSteps.ReportedShows | chainselection/selector.go:529-588 | a peer shows what it reported and when, the frontier less than a window back, and the last k+1 deliveries |
| SelectionSteps.PlausibleIsBounded | chainselection/selector.go:478-509 | an accepted report raises the highest delivered block by at most k, or lies within 2k of the local tip |
| SelectionSteps.PlausibleFromKnownIff | chainselection/selector.go:444-527 | a known peer's report passes exactly within k of its last, or within 2k of a local tip that has overtaken that, and with no over-advertised tip before any block is applied |
| SelectionSteps.PlausibleFromNewIff | chainselection/selector.go:458-509 | a first report passes by the same bounds against the best of the others, and always when there are none |
| SelectionSteps.EligibleSets | chainselection/selector.go:1282-1295 | only the connection named changes eligibility, absent meaning eligible |
| SelectionSteps.PrioritySets | chainselection/selector.go:1303-1315 | only the connection named changes priority, absent meaning zero |
| SelectionSteps.LeastRecentIff | chainselection/selector.go:678-716 | who is forgotten first: heard from longest ago, then fewest blocks, then smallest id, never the one followed |
| SelectionSteps.SilentIff | chainselection/selector.go:1896-1915 | silent is longer than twice the threshold |
| SelectionSteps.WithoutIff | chainselection/selector.go:731-735 | forgetting takes tip, eligibility and priority of those connections together and nothing else |
| SelectionSteps.UpdateIsSane | chainselection/selector.go:403-630 | a report, with or without an eviction, keeps order, lockstep and the bound on tracked peers |
| SelectionSteps.ForgettingIsSane | chainselection/selector.go:731-808 | forgetting peers keeps the same, and the peer followed stays tracked |
| SelectionSteps.TransitionIsSane | chainselection/selector.go:403-860 | every step keeps the selector sane and never re-enters Genesis mode |
| SelectionSteps.SelectionVouches | chainselection/genesis_corroboration.go:140-149 | any step that selects follows an open, eligible, fresh peer at most k behind, under the gate one with the configured number of witnesses on different hosts |
| SelectionSteps.RunIsSound | chainselection/genesis_corroboration.go:111-178 | selection soundness over runs: in every state frontiers are ordered and in lockstep under the gate, and every step that changes the best peer, by evaluation, removal or cleanup, follows only an open, eligible, fresh one at most k behind, corroborated under the gate |
| SelectionSteps.IngressIsSound | chainselection/genesis_corroboration.go:165-178 | in every state of every run a peer may apply under the gate only with the configured number of independent witnesses |
| SelectionSteps.IneligibleIsNotSelected | chainselection/selector.go:1282-1295 | once made ineligible a peer is not selected by any step until made eligible again or forgotten |
| Selector.ChainSelector.constructor | chainselection/selector.go:176-217 | a negative threshold becomes one, so the gate is off only when it is zero or outside Genesis; at most 200 peers by default |
| Selector.ChainSelector.CorroboratingPeers | chainselection/genesis_corroboration.go:111-132 | counts exactly the distinct hosts other than the candidate's with a confirming peer |
| Selector.ChainSelector.IsPeerCorroborated | chainselection/genesis_corroboration.go:140-149 | true exactly outside the gate or with enough hosts |
| Selector.ChainSelector.ShouldApplyIngress | chainselection/genesis_corroboration.go:165-178 | under the gate exactly known peers with at least the minimum of independent hosts may apply |
| Selector.ChainSelector.BestKnownBlockNumber | chainselection/selector.go:1147-1159 | the maximum delivered number over eligible fresh peers, in any map order |
| Selector.ChainSelector.IsPeerSelectable | chainselection/selector.go:1029-1099 | true exactly for present peers not more than k behind and corroborated |
| Selector.ChainSelector.BestKnownGenesisSlot | chainselection/selector.go:295-315 | the highest advertised slot a selectable peer has delivered up to |
| Selector.ChainSelector.AdvanceSelectionMode | chainselection/selector.go:317-363 | leaves Genesis exactly when the local tip is within the window of everything delivered, dropping hash frontiers |
| Selector.ChainSelector.SelectBestChain | chainselection/selector.go:1101-1140 | none exactly when none is selectable, else a selectable peer no selectable peer is ahead of, for every map order |
| Selector.ChainSelector.PickBest | chainselection/selector.go:1109-1134 | the loop itself |
| Selector.ChainSelector.EvaluateBestPeer | chainselection/selector.go:1495-1665 | after an evaluation: none exactly when none is selectable; else selectable, in Praos mode at most 2 blocks behind the longest selectable peer and none behind with no applied or a stalled local tip; changes are to a best peer, an undisputed incumbent stays, a loss is announced |
| Selector.ChainSelector.CheckPlausible | chainselection/selector.go:444-527 | a report is refused exactly when it leaps more than k ahead of its references and the local tip does not explain it, or over-advertises before any local tip |
| Selector.ChainSelector.References | chainselection/selector.go:458-477 | a known peer is measured against itself, a new one against the maximum of the others |
| Selector.ChainSelector.BestReferences | chainselection/selector.go:464-477 | the two maxima over all peers, in any map order |
| Selector.ChainSelector.EvictLeastRecentPeer | chainselection/selector.go:672-729 | forgets a least recent peer by (time, blocks, id), never the one followed, or none exactly when no other is tracked |
| Selector.ChainSelector.LeastRecent | chainselection/selector.go:678-716 | the search for it, in any map order |
| Selector.ChainSelector.DeletePeer | chainselection/selector.go:731-735 | forgets tip, eligibility and priority together |
| Selector.ChainSelector.UpdatePeerTip | chainselection/selector.go:403-630 | a report is dropped exactly when the connection is closed, it is implausible or no place can be made; otherwise it becomes the peer's state; says exactly when to re-evaluate |
| Selector.ChainSelector.MakeRoom | chainselection/selector.go:549-566 | makes place at capacity by one least recent peer, or fails exactly when only the followed one is tracked |
| Selector.ChainSelector.Record | chainselection/selector.go:529-591 | stores the report and re-checks the mode |
| Selector.ChainSelector.HandlePeerRollback | chainselection/selector.go:1719-1744 | a tracked peer's state becomes its rollback |
| Selector.ChainSelector.RemovePeer | chainselection/selector.go:738-808 | the best of the rest replaces a lost best peer at once, or its loss is announced; under the gate any other departure asks for re-evaluation |
| Selector.ChainSelector.Replace | chainselection/selector.go:757-795 | the replacement itself |
| Selector.ChainSelector.CleanupStalePeers | chainselection/selector.go:1887-1950 | forgets exactly the peers silent for twice the threshold and replaces a lost best peer |
| Selector.ChainSelector.DropSilent | chainselection/selector.go:1896-1915 | the loop that forgets them, in any map order |
| Selector.ChainSelector.SetLocalTip | chainselection/selector.go:820-835 | only forward movement of the applied tip restarts the stall clock |
| Selector.ChainSelector.SetSecurityParam | chainselection/selector.go:850-861 | changes k and re-checks the mode |
| Selector.ChainSelector.TouchPeer | chainselection/selector.go:635-660 | refreshes only the time of a live tracked peer |
| Selector.ChainSelector.SetConnectionEligible | chainselection/selector.go:1282-1295 | that connection reads as set, absent meaning eligible, and every other as before |
| Selector.ChainSelector.SetConnectionPriority | chainselection/selector.go:1303-1315 | that connection reads as set, absent meaning zero, and every other as before |
| Selector.ChainSelector.Apply | chainselection/selector.go:403-860 | every operation is a step the relation allows |
| Selector.ChainSelector.Run | chainselection/selector.go:403-860 | every sequence of operations is a run of the relation, so what every run keeps holds of it |
| HeaderDedup.Cache.ProcessHeader | chainsync/chainsync.go:962-1015 | new exactly when no peer reported the header; a second hash at a slot is a fork against the first; a step of the run model |
| HeaderDedup.NotedRecords | chainsync/chainsync.go:962-1015 | a new header joins the records of its slot after those already there |
| HeaderDedup.Cache.BeginPrune | chainsync/chainsync.go:1254-1265 | a prune is due exactly after 1000 slots of progress; a step of the run model |
| HeaderDedup.Cache.FinishPrune | chainsync/chainsync.go:1267-1283 | deletes exactly the slots more than the retention behind the frontier read earlier; a step of the run model |
| HeaderDedup.Cache.PruneSeenHeaders | chainsync/chainsync.go:1216-1225 | deletes exactly the slots before the given one; a step of the run model |
| HeaderDedup.Cache.ClearSeenHeaders | chainsync/chainsync.go:1170-1177 | nothing is known any more, and frontier and marker start over; a step of the run model |
| HeaderDedup.Cache.ClearSeenHeadersFrom | chainsync/chainsync.go:1183-1201 | forgets exactly the slots above, and lowers frontier and marker to match; a step of the run model |
| HeaderDedup.KnownIff | chainsync/chainsync.go:962-1015 | over every run, both kinds of clear and explicit prunes included, a header is known exactly when it was delivered and nothing that removes its slot came after |
| HeaderDedup.ReportedNewIff | chainsync/chainsync.go:962-1015 | a delivery is reported new exactly when the header was not delivered before, or was removed since |
| HeaderDedup.FinishRemovesIff | chainsync/chainsync.go:1267-1283 | the second phase of a prune removes exactly what lies more than the retention behind the frontier read in the first |
| HeaderDedup.NewReportsIff | chainsync/chainsync.go:962-1015 | a header is reported new at most once over a run if and only if none of its deliveries follows a removal of an earlier one |
| HeaderDedup.NothingRemovesRecent | chainsync/chainsync.go:1267-1283 | without clears or explicit prunes nothing removes a header within the retention of the frontier |
| HeaderDedup.ReportedNewOnce | chainsync/chainsync.go:802-811 | over every interleaving of deliveries and background prunes a header within the retention of the frontier has been reported new exactly once |
| HeaderDedup.ClearBreaksTheWindow | chainsync/chainsync.go:1267-1283 | with a clear between the two phases an in-window header is reported new twice |
| HeaderDedup.ParallelPublishesOnceIff | chainsync/strategy.go:118-128 | the parallel strategy publishes a header once if and only if it was not delivered again after a removal |

## Left out

- PrimaryChain.Chain.AddBlock: the add's own transaction always commits here; caller-supplied transactions, whose commit the chain does not observe, are not modelled.
- PrimaryChain.Chain.IterNext: a non-blocking Next only; waiting channels, cancellation and the recovery from gaps in a sparse index are not modelled.
- PrimaryChain.Chain.Rollback: metrics and the split between publishing and returning events to the caller are reduced to the two event lists.
- BatchCommit.RunKeepsAgreement: one batch writer; overlapping batch writers are not modelled.
- ChainManager.Manager.RemoveBlockByIndex: the tip row or an index without a row; the chain never asks for another.
- ForkChain.Fork.AddBlock: header queues on forks and events of forks are not modelled, since nothing uses them.
- ForkChain.Fork.Reconcile: whether a failure keeps the shape or wraps the anchor is stated for forks of fewer than 2^64 blocks, the width of the index. A fork left with a foreign buffer, which `ForkFailure.BrokenForkAnswers` shows to happen exactly on accepting a rollback out of shape with something buffered, is followed through reads and adds; reconciling it after another notice would walk from a block that is not its own and is excluded.
- ForkChain.Fork.Rollback: the same forks with a foreign buffer are excluded.
- RestoreSwap.RunSafeIff: reordering of unsynced directory changes by the file system is not modelled; the names power loss brings back are those of one earlier moment.
- Selector.ChainSelector.UpdatePeerTip: the evaluation that follows is a separate step, as it is a separate lock section in the source.
- The source has one chain struct with a persistence flag; here the primary and the in-memory fork are two classes, and managers without a database are not modelled.
- Creating a chain from a list of intersect points, recent points, point at depth, header ranges and rewinding the primary at startup would only add easy members.
- The crypto-verified flag of queued headers, CBOR, hashing, VRF and opcert tiebreaks are outside the model.
- The densest-uncorroborated-source warning, selection events other than the loss announcement, and the status snapshots only report.
- Round-robin driver selection and the primary strategy's replay are reduced to one predicate, about which nothing is proved.
- Node wiring, bark, configuration, tracing, metrics, logging and event-bus delivery.
- Order independence of best-peer selection: it would need a transitive tiebreak.
