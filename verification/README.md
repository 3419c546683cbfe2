# Verified models of the Irys node's chain views

The node keeps several fast or windowed views of one simple thing, the
hash-linked chain of blocks: the block index, the metadata rows, the anchor map
of a candidate block, the durable event log with its live subscribers, the
storage offsets and the supply total. This project models the code that keeps
those views and proves that they agree with the chain.

- **Windowed validation** (`Chain`, `BlockAncestry`, `BlockDiscovery`,
  `CommitmentDedup`, `Prevalidation`). A candidate block is checked against a
  by-hash walk over a window, a block-index pass tied to it by one handoff
  check, and lookups in the migrated chain below. The proofs show that this
  answers as a scan of the whole ancestry would, and that on a chain of accepted
  blocks no Submit tx and no commitment is ever included twice.
- **Migration and reorg** (`MetadataRows`, `MetadataAgreement`,
  `BlockMigration`, `RollbackRanges`, `IndexTotals`, `RecoveryCrash`,
  `Finality`). Migration, orphan clearing and partition rollback update the
  index, the rows, the storage offsets and the supply. `BlockMigrationService` is
  the object with its tables updated in place; `MetadataAgreement` and `Finality`
  are the state machines its methods are proved to step, and `RecoveryCrash` says
  what a rollback cut short leaves.
- **Event stream** (`Lru`, `StreamLog`, `StreamDedup`, `StreamDedupRuns`,
  `StreamLogged`, `StreamWriting`, `StreamFanout`, `Reconciliation`). Paging,
  replay, live fan-out, bounded de-dup caches rebuilt after restarts (what they
  suppress and what they must not), retention and startup reconciliation, over
  every run and every interleaving.
- **Emission** (`BlockReward`, `Supply`, `ServiceSupply`). Reward split, running
  total, rollback, batched backfill, and the total over the service's own runs.
- **Build-directory pruner** (`TargetPruner`). The dependency worklist and the
  deletions that rest on it.

Block headers live in a store `u` closed under parents: a header's parent, when
it has one, is stored one height below. Everything the node reads (block tree,
header table, block index) is a partial view of `u`. Hashes and tx ids are
integers; two headers never share a hash. Clocks, randomness, disk and channel
failures are parameters.

## Properties that do not hold as promised

Each has a lemma with a concrete case and one with the exact condition.

- The depth guard before a partition rollback assumes that the index trails the
  tip by the migration depth. After a restart, or after a reorg onto a shorter
  chain, it need not; a shallow reorg then clears the rows of blocks that stay
  in the index (`RestartThenShallowReorgDisagrees`, `OvertakenReorgUncovers`,
  `ReorgAgreesIff`, `ReorgCoversIff`).
- A deep reorg rolls the index back and clears the orphans' rows in two
  transactions. A crash or an error between them leaves rows that no indexed
  block backs (`CrashBetweenTransactionsDisagrees`, `LostClearAgreesIff`). The
  other direction survives: as long as no reorg is overtaken by the index, every
  indexed listing has its row (`IndexedListingsKeepRows`; `ReorgCoversIff` is the
  exact condition for one reorg), and that is all the commitment replay check
  needs of the rows.
- A comment in the rollback says that after a crash a restart runs it again. It
  does so only if more than a migration depth of indexed blocks lies above the
  fork, because the restarted node takes the index as its chain
  (`RestartForgetsRollback`, `RestartRepeatsRollbackIff`). Where it does run
  again, it repairs what the crash left (`RerunRestores`).
- Finality holds within a process, because a reorg needs its fork point in the
  block tree (`TreeKeepsFinality`). A restart between a rollback and the regrowth
  rebuilds the tree from the shorter index, and a second rollback can then undo
  an entry that was final before the first
  (`RestartBelowHighWaterBreaksFinality`, `TreeFinalIffGuarded`). A tip move that
  is carried to its end regrows the index (`PublishedMoveRegrows`).
- A rollback below the first migrated height while the supply backfill is still
  running subtracts emission that was never added
  (`RollbackBelowFirstMigration`, `RollbackOnTrackIff`). A restart repairs the
  total (`RestartRepairsEveryRun`).
- After a finished backfill, a rollback below the first migrated height and a
  restart, rewards are refused until the index has regrown to that height
  (`RestartAfterDeepRollbackRefuses`, `RestartAcceptsIff`).
- The pruner's documentation makes the fingerprint directory part of the unit.
  Removal goes by hash alone, so a unit in use loses its fingerprint when a unit
  of the same hash is stale in either directory
  (`SharedHashLosesFingerprint`, `UsedFingerprintKeptIff`).

## Model

| member | source | states |
|---|---|---|
| `Chain.LinkedIndexAgreesBelow` | crates/actors/src/block_discovery.rs:637-666 | one entry of a hash-linked index that agrees with a block's ancestry makes every entry below it that ancestry, so a single handoff check is enough |
| `Chain.AncestryPrefix` | crates/actors/src/block_discovery.rs:548-596 | the ancestry of an ancestor is the part of the ancestry up to it |
| `BlockAncestry.HeaderFromTreeThenDb` | crates/actors/src/block_ancestry.rs:9-18 | found exactly when the tree or the table holds the hash, with the tree's answer first |
| `BlockAncestry.WalkTreeThenDb` | crates/actors/src/block_ancestry.rs:27-78 | for every visitor and every pair of stores: the two-phase walk is the one-lookup walk over the merged store, or, only if the tree is re-entered after being left, an error that names a hash the table lacks; it terminates by decreasing height |
| `BlockAncestry.DbWalkIsWholeWalk` | crates/actors/src/block_ancestry.rs:52-75 | once the cursor has left the tree for good, the table-only walk gives the same outcome and final visitor state as the merged walk |
| `BlockAncestry.DbWalkFailsClosed` | crates/actors/src/block_ancestry.rs:52-75 | without that assumption the table-only walk agrees or reports a missing ancestor; it never returns a shorter result |
| `BlockAncestry.WalkVisitsAncestry` | crates/actors/src/block_ancestry.rs:27-78 | when the range resolves, the visitor sees each ancestor at or above the minimum height once, newest first, cut at its first break |
| `BlockAncestry.MissingInRangeFails` | crates/actors/src/block_ancestry.rs:55-60 | a missing ancestor inside the range makes a full walk fail |
| `BlockDiscovery.FirstCommon` | crates/actors/src/block_discovery.rs:562-566 | the first incoming id that an ancestor's Submit ledger already lists, and nothing when the lists are disjoint |
| `BlockDiscovery.CheckAncestor` | crates/actors/src/block_discovery.rs:554-568 | an ancestor is rejected exactly when it is malformed or repeats an incoming id, with that cause |
| `BlockDiscovery.WalkWindow` | crates/actors/src/block_discovery.rs:548-596 | success means the window is readable and free of duplicates and the map holds exactly the walked ancestors; every error has its cause in the window |
| `BlockDiscovery.ExtendFromIndex` | crates/actors/src/block_discovery.rs:637-667 | succeeds exactly when the top entry exists and is the parent of the last walked block; adds exactly the index entries of the range; gap and mismatch errors name the height |
| `BlockDiscovery.ExtendWalked` | crates/actors/src/block_discovery.rs:600-667 | the index pass on top of the walk: succeeds exactly when the index meets the walk, and then the map is the ancestry from the map floor up |
| `BlockDiscovery.BuildAnchorMap` | crates/actors/src/block_discovery.rs:510-667 | for every setting of the two depths: both passes succeed exactly when the window is readable and clean and the index meets it; the map then holds exactly the candidate's ancestors with height in the map range, each at its height, and nothing else |
| `BlockDiscovery.IndexPassIsAncestry` | crates/actors/src/block_discovery.rs:637-666 | entries taken unverified from the index are the candidate's own ancestors |
| `BlockDiscovery.AnchorCheckIsAncestry` | crates/actors/src/block_discovery.rs:701-709 | map lookup plus the on-demand lookup accept an anchor exactly when it is an ancestor at or above the minimum height |
| `Prevalidation.FirstInvalidAnchor` | crates/actors/src/block_discovery.rs:718-733 | no anchor is reported exactly when all are ancestors in range; otherwise the first that is not |
| `Prevalidation.CheckCommitments` | crates/actors/src/block_discovery.rs:737-762 | passes only when every anchor is an ancestor in range and no commitment repeats anywhere in the ancestry; a lookup failure means an unreadable range |
| `Prevalidation.BlockDiscovered` | crates/actors/src/block_discovery.rs:385-789 | a block that passes obeys every rule, each said of the candidate's own txs and its whole ancestry: anchors of all lists, no repeated Submit tx, no commitment repeated in the list or by any ancestor; and with a complete view every block that obeys them passes |
| `Prevalidation.ReplayIsPointwise` | crates/actors/src/commitment_dedup.rs:46-89 | what the replay check answers for a list of ids is novelty of each tx of the list: no earlier tx of it has the id and no ancestor lists it |
| `Prevalidation.AcceptedSubmitsAreNew` | crates/actors/src/block_discovery.rs:548-596 | no tx of an accepted block's Submit entry is in the Submit entry of an ancestor in the window |
| `Prevalidation.SubmitAnchorHeight` | crates/actors/src/block_discovery.rs:718-733 | a Submit tx of an accepted chain is anchored strictly below its block and inside that block's window |
| `Prevalidation.SubmitTxIncludedOnce` | crates/actors/src/block_discovery.rs:548-596 | no Submit tx appears in two different blocks of an accepted chain, at any distance, although only a window is scanned |
| `Prevalidation.CommitmentIncludedOnce` | crates/actors/src/block_discovery.rs:737-762 | no commitment is included by two blocks that own their listings, at any distance |
| `Prevalidation.TxIncludedOnce` | crates/actors/src/block_discovery.rs:548-596 | on an accepted chain of blocks with the two-ledger shape no data tx is included twice |
| `Prevalidation.AcceptedChainIsUnique` | crates/actors/src/block_discovery.rs:548-762 | so the windowed checks give the metadata rows all the uniqueness they need of a branch, exactly up to the rule for promotions |
| `CommitmentDedup.AncestorCommitmentIds` | crates/actors/src/commitment_dedup.rs:115-142 | succeeds exactly when the range resolves, with exactly the ids its blocks list |
| `CommitmentDedup.LookupIsSound` | crates/database/src/database.rs:991-1015 | a row answer at or below the cap is a true listing by an ancestor |
| `CommitmentDedup.LookupIsComplete` | crates/database/src/database.rs:991-1015 | every listing at or below the cap is found through the rows, epoch re-listings included; the rows only have to cover the index |
| `CommitmentDedup.StaleRowsAreHarmless` | crates/database/src/database.rs:991-1015 | two row tables that cover the index answer alike, whatever stale rows either holds |
| `CommitmentDedup.RangesCoverAncestry` | crates/actors/src/commitment_dedup.rs:60-89 | the walked range and the capped lookup together answer exactly whether any ancestor down to genesis lists the id, also when the floor saturates at 0 |
| `CommitmentDedup.FindReplayedCommitment` | crates/actors/src/commitment_dedup.rs:46-89 | returns the first commitment in list order that repeats in the block or in any ancestor, none exactly when there is none, and fails exactly when there is something to check and the window cannot be read; rows no block backs may be present |
| `MetadataRows.BatchSetPromoted` | crates/database/src/db_index.rs:111-180 | refused exactly when some id has no row; otherwise sets the promoted height and keeps the included height |
| `MetadataRows.WriteDataLedgerMetadata` | crates/actors/src/block_migration_service.rs:176-202 | term ledgers are written before Publish, so it fails exactly when a published id has neither an old row nor a term listing in the same block |
| `MetadataRows.ClearDataLedgers` | crates/actors/src/block_migration_service.rs:506-521 | an orphaned term listing deletes the row, an orphaned Publish listing clears only the promoted height |
| `MetadataRows.BatchDelete` | crates/database/src/db_index.rs:64-72 | removes exactly the listed ids |
| `MetadataRows.BatchesTouchOneField` | crates/database/src/db_index.rs:98-180 | setting an inclusion height keeps the promotion and setting a promotion keeps the inclusion, for the listed txs only |
| `MetadataRows.OwnsWhatItLists` | crates/actors/src/block_migration_service.rs:264-311 | every block but an epoch block owns exactly the commitments it lists, an epoch block none |
| `MetadataRows.EpochIsMultiple` | crates/actors/src/block_migration_service.rs:264-275 | epoch blocks are exactly the positive multiples of the epoch length |
| `MetadataAgreement.MigrateKeepsRows` | crates/actors/src/block_migration_service.rs:1146-1179 | migrating the next block of a branch with unique inclusions keeps the rows exact for the longer index and never lacks a row to promote |
| `MetadataAgreement.ClearRows` | crates/actors/src/block_migration_service.rs:506-521 | clearing the orphans of a branch leaves rows that are exact for what was indexed up to the fork |
| `MetadataAgreement.ReorgAgreesIff` | crates/actors/src/block_tree_service.rs:1282-1299 | a completed reorg keeps rows and index in agreement exactly when the index had not passed the fork, or is rolled back to it, or its orphans list nothing; the depth guard alone does not imply it |
| `MetadataAgreement.RowsAgreeAfterEveryRun` | crates/actors/src/block_migration_service.rs:176-202 | the rollback and the clear are two transactions, and a restart may fall between them. After every run in which no reorg is overtaken by the index and no lost clear matters: a data row names an included or promoted height exactly when the index block there lists the tx, a commitment row exactly when an owning block does |
| `MetadataAgreement.LostClearAgreesIff` | crates/actors/src/block_tree_service.rs:1358-1394 | when the clear is lost after the rollback, the restarted node's rows agree with its index exactly when the rolled-back entries list nothing |
| `MetadataAgreement.IndexedListingsKeepRows` | crates/actors/src/block_tree_service.rs:1358-1394 | over every run in which no reorg is overtaken by the index, wherever crashes, failed clears and restarts fall: every listing of an indexed block still has its row, and only stale rows are left behind |
| `MetadataAgreement.MigrateCoversRows` | crates/actors/src/block_migration_service.rs:1146-1179 | migrating over stale rows never lacks a row to promote and covers every listing |
| `MetadataAgreement.ReorgCoversIff` | crates/actors/src/block_tree_service.rs:1282-1299 | a completed reorg keeps every indexed listing's row exactly when it is not overtaken or the orphans list nothing |
| `MetadataAgreement.OvertakenReorgUncovers` | crates/actors/src/block_tree_service.rs:1282-1299 | a restart makes an overtaken reorg possible, and after it an indexed block has lost its row |
| `MetadataAgreement.SteadyRunsAreLegal` | crates/actors/src/block_tree_service.rs:1276-1299 | without restarts, with migration trailing by the depth and no reorg onto a shorter chain, the guard does exclude overtaken reorgs |
| `MetadataAgreement.RestartThenShallowReorgDisagrees` | crates/actors/src/block_tree_service.rs:1282-1299 | a restart followed by a reorg shallower than the migration depth leaves an indexed block whose rows were cleared |
| `MetadataAgreement.CrashBetweenTransactionsDisagrees` | crates/actors/src/block_tree_service.rs:1358-1394 | a crash between rollback and clear: the orphan's row still names its height after another block has migrated there |
| `MetadataAgreement.RollbackDoneIsReached` | crates/actors/src/block_tree_service.rs:1282-1299 | the state of that crash is reached by a legal deep reorg |
| `BlockMigration.NewTotals` | crates/domain/src/models/block_index.rs:163-246 | one total per listed ledger, the old total plus the padded chunks of the block; refused exactly on 64-bit overflow |
| `BlockMigration.PushHoldsBytes` | crates/domain/src/models/block_index.rs:171-176 | said of the tx sizes: a ledger's total grows by whole chunks that hold all bytes, with less than a chunk of padding for each tx and at least one chunk for each non-empty one |
| `BlockMigration.TxTakesItsChunks` | crates/domain/src/models/block_index.rs:171-176 | each tx starts where the one before it ends and takes just the whole chunks that hold its bytes |
| `BlockMigration.BodyTxsAre` | crates/domain/src/models/block_index.rs:197-204 | a ledger's txs are those of its entry in the body, none when it has no entry |
| `BlockMigration.PushKeepsTotalsIff` | crates/domain/src/models/block_index.rs:163-246 | totals keep growing along the index exactly when the pushed block lists every ledger that already holds chunks |
| `BlockMigration.CollectPath` | crates/actors/src/block_migration_service.rs:1061-1088 | the backward collection terminates and returns exactly the parent path from the index head to the target, and fails exactly when the tree does not hold it, naming a missing block |
| `BlockMigration.ConsistentIff` | crates/actors/src/block_migration_service.rs:136-168 | a body is consistent exactly when in every ledger header and body list the same txs, in whatever order |
| `BlockMigration.ParentPathLeads` | crates/actors/src/block_migration_service.rs:1061-1088 | that path leads parent by parent from the index head to the target, and is the only one that does |
| `BlockMigration.ValidateContinuity` | crates/actors/src/block_migration_service.rs:1009-1058 | true exactly when heights and parent hashes continue the index head without a gap |
| `BlockMigration.StageBlock` | crates/actors/src/block_migration_service.rs:1146-1179 | the writes of one block fail exactly for a body mismatch, a database fault, a missing row or an overflow; otherwise rows, data tx headers, commitment txs, block header and index entry advance together and the index stays a linked chain |
| `BlockMigration.BlockMigrationService.PersistBlock` | crates/actors/src/block_migration_service.rs:1093-1201 | one transaction: the staged tables are committed, which is the push of the finality machine, or an error leaves every table as it was |
| `BlockMigration.PersistKeepsBodies` | crates/actors/src/block_migration_service.rs:1146-1179 | every tx an indexed block lists has its header stored, after each persisted block |
| `BlockMigration.BlockMigrationService.PersistMetadata` | crates/actors/src/block_migration_service.rs:381-521 | all or nothing: fails exactly on an inconsistent body or a database fault, else clears exactly what the orphans list |
| `BlockMigration.BlockMigrationService.MigrateBlocks` | crates/actors/src/block_migration_service.rs:960-1006 | whatever fails and wherever, the index is the old one plus a prefix of the unique parent path, rows included, with the reward of each of those blocks added except the last when the supply update failed; all of it on success, with the target as the new tip; every error has its cause in the block it stops at |
| `BlockMigration.BlockMigrationService.MigrateBlock` | crates/actors/src/block_migration_service.rs:989-1003 | a failed transaction changes nothing; a supply or send failure comes after the block is already indexed; each error has its cause |
| `BlockMigration.BlockMigrationService.AddReward` | crates/actors/src/block_migration_service.rs:995-1001 | adds the block's emission exactly when it exists and the supply state accepts the height |
| `BlockMigration.BlockMigrationService.RecoverFromNetworkPartition` | crates/actors/src/block_migration_service.rs:643-931 | refuses exactly when the fork is more than the tree depth less the migration depth below the index tip, and fails only on an orphan that lists a ledger twice or has no emission, changing nothing; otherwise cuts the index at the fork, which is the rollback of the finality machine, clears each orphaned range with the stored txs of its block, and takes the emission back |
| `RecoveryCrash.RollbackKeepsAgreement` | crates/actors/src/block_migration_service.rs:786-923 | storage whose assigned offsets agree with the index agrees with the cut index once every clear of a rollback is done |
| `RecoveryCrash.PlannedRollbackKeepsAgreement` | crates/actors/src/block_migration_service.rs:643-931 | and so it does for the clears and the cut the service plans |
| `RecoveryCrash.RerunRestores` | crates/actors/src/block_migration_service.rs:737-746 | a rollback stopped by a crash after any number of clears has lost no canonical offset, and a second one, to that fork or a lower one, ends where an undisturbed one would |
| `RecoveryCrash.RerunAgreesIff` | crates/actors/src/block_migration_service.rs:737-746 | a rollback to any fork after any clears restores agreement exactly when those clears spared everything at or below it |
| `RecoveryCrash.InterruptedAgreesIff` | crates/actors/src/block_migration_service.rs:737-746 | until then storage agrees with the uncut index exactly when no clear was done |
| `RecoveryCrash.RestartRepeatsRollbackIff` | crates/actors/src/block_tree_service.rs:1282-1299 | a restarted node repeats the rollback exactly when more than a migration depth of indexed blocks lies above the fork |
| `RecoveryCrash.RestartForgetsRollback` | crates/actors/src/block_tree_service.rs:1282-1299 | a rollback of one indexed block that was due is not due after a restart |
| `BlockMigration.OrphanClearsAllTxs` | crates/actors/src/block_migration_service.rs:718-731 | the clear of an orphan covers every tx it lists |
| `BlockMigration.ListedTxsAre` | crates/actors/src/block_migration_service.rs:718-731 | and those are its term and published txs |
| `BlockMigration.BlockMigrationService.HandleReorg` | crates/actors/src/block_tree_service.rs:1282-1394 | on success the reorg's two steps; when the clear or what precedes it fails, exactly the state after the first step, index cut and rows kept; when the rollback is refused or unreadable, nothing changed; the supply loses the emission of the rolled-back entries exactly when there was a rollback; every error has its cause |
| `BlockMigration.FoldedIsSum` | crates/actors/src/block_migration_service.rs:926-931 | the emission a rollback takes back is the curve's emission over the orphaned heights and never saturates |
| `BlockMigration.MigrateManyKeepsRows` | crates/actors/src/block_migration_service.rs:960-1006 | any number of migrated blocks keeps rows and index in agreement |
| `BlockMigration.MigrateManyCoversRows` | crates/actors/src/block_migration_service.rs:960-1006 | any number of blocks migrated over stale rows keeps every listing covered |
| `RollbackRanges.CollectRanges` | crates/actors/src/block_migration_service.rs:686-716 | the ranges of all heights above the fork, each non-empty |
| `RollbackRanges.UnassignRanges` | crates/actors/src/block_migration_service.rs:786-852 | one call per module and range that overlap, clipped to the module's slot |
| `RollbackRanges.ClipKeepsOffsets` | crates/domain/src/models/storage_module.rs:9925-9958 | clipping keeps exactly the offsets of the range that lie in the slot, as offsets inside the partition |
| `RollbackRanges.RangesTile` | crates/actors/src/block_migration_service.rs:686-716 | the collected ranges cover each offset between the total at the fork and the total at the tip once, and no other |
| `RollbackRanges.RollbackUnassignsOrphansOnce` | crates/actors/src/block_migration_service.rs:786-852 | each orphaned offset a module owns is unassigned exactly once, inside the partition, and no canonical offset is touched |
| `RollbackRanges.CallsNameTheirBlock` | crates/actors/src/block_migration_service.rs:686-731 | each clear is for an orphaned block and covers only chunks that block added |
| `IndexTotals.TotalsGrowAfterEveryRun` | crates/actors/src/block_validation.rs:7608-7680 | blocks with the validated ledger shape keep the totals growing after every run of pushes and rollbacks |
| `IndexTotals.RollbackAfterEveryRun` | crates/actors/src/block_migration_service.rs:786-852 | so after every such run a rollback unassigns each orphaned offset once and no canonical one |
| `IndexTotals.PersistChangesIndex` | crates/actors/src/block_migration_service.rs:1146-1179 | the service's persist is a push of that run |
| `IndexTotals.CutChangesIndex` | crates/actors/src/block_migration_service.rs:923-923 | and its truncation a cut |
| `Finality.OneStepKeepsFinal` | crates/actors/src/block_migration_service.rs:648-667 | one rollback or push never changes an entry at or below the finalized height it starts from |
| `Finality.FinalIffGuarded` | crates/actors/src/block_migration_service.rs:648-667 | over a whole run, everything that was ever final stays in place exactly when every effective rollback stays at or above the finalized height of the highest index so far |
| `Finality.RegrownRunsAreFinal` | crates/actors/src/block_migration_service.rs:648-667 | the guard suffices when each effective rollback starts with the index back at its high-water mark |
| `Finality.TreeKeepsFinality` | crates/actors/src/block_tree_service.rs:1913-1927 | with the block tree's floor and the migration height of each tip move: within one process, and across restarts with the index at its high water, whatever was ever final stays in place |
| `Finality.PublishedMoveRegrows` | crates/domain/src/models/forkchoice_markers.rs:212-218 | a tip move carried to its end leaves the index as high as before whatever it rolled back, unless the new tip is lower, so a restart after it is harmless |
| `Finality.GoalAboveFloor` | crates/domain/src/models/forkchoice_markers.rs:195-218 | migration up to the marker never finalizes a block that the tree still holds |
| `Finality.PruneKeepsDepth` | crates/actors/src/block_tree_service.rs:1251-1256 | after pruning the tree holds as many heights as its depth, the tip included, or all of a younger chain |
| `Finality.SteadyFinalized` | crates/domain/src/models/forkchoice_markers.rs:227-247 | with the index a migration depth below the head, the finalized height is the tree depth below the head, just below what the tree holds |
| `Finality.RestoredAboveFinalized` | crates/domain/src/models/forkchoice_markers.rs:249-260 | once the chain is a tree depth deep, the restored floor is the finalized height plus one |
| `Finality.GuardIsTheTree` | crates/actors/src/block_migration_service.rs:661-667 | then the guard lets a rollback pass exactly when the lowest block it orphans is still in the tree |
| `Finality.MoveTakenIff` | crates/actors/src/block_tree_service.rs:1913-1927 | the tip moves exactly to a fork in the tree that survives the prune, unless the rollback it needs is refused |
| `Finality.MoveCutsIff` | crates/actors/src/block_tree_service.rs:1282-1299 | a move that is taken cuts the index at the fork exactly when it leaves more than the migration depth of blocks |
| `Finality.GoalReachesDepth` | crates/domain/src/models/forkchoice_markers.rs:195-218 | a tip move lets migration reach the migration depth below the tip and the index height it found, never above the tip |
| `Finality.ExtensionStaysSteady` | crates/domain/src/models/forkchoice_markers.rs:212-218 | extending a steady chain by a block, with its migration, leaves it steady |
| `Finality.TreeFinalIffGuarded` | crates/actors/src/block_tree_service.rs:1913-1927 | with restarts anywhere, finality of a run is exactly the high-water condition on its rollbacks |
| `Finality.RestartEstablishesInv` | crates/domain/src/models/forkchoice_markers.rs:257-260 | the floor restored after a restart is above the finalized height of the index it is restored from |
| `Finality.RestartBelowHighWaterBreaksFinality` | crates/domain/src/models/forkchoice_markers.rs:257-260 | a restart between a rollback and the regrowth lets a second rollback undo an entry that was final before the first |
| `Lru.ApplyPrefix` | crates/actors/src/block_migration_service.rs:608-637 | put, evict and pop keep the shorter of two caches a recency prefix of the longer |
| `Lru.SuffixRemembersLess` | crates/actors/src/block_stream_service.rs:540-581 | folding a suffix of the operations gives a recency prefix of folding all of them |
| `Lru.PutIsRemembered` | crates/actors/src/block_migration_service.rs:608-637 | an entry that is not popped is still cached while fewer later puts than the capacity have happened |
| `StreamDedup.RebuildRemembersLess` | crates/actors/src/block_stream_service.rs:540-581 | both caches rebuilt from a log suffix are recency prefixes of those folded from any longer one |
| `StreamDedup.RestartsOnlyForget` | crates/actors/src/block_stream_service.rs:540-581 | after any run with any number of restarts and reconciliations, the caches are recency prefixes of the fold of everything they were shown, so a restart only forgets |
| `StreamDedup.NotedIsHistory` | crates/actors/src/block_stream_service.rs:540-581 | without reconciliation frames, what they were shown is the whole history |
| `StreamDedup.ReconcileForgetsOnlyIff` | crates/actors/src/block_stream_service.rs:434-496 | a reconciliation frame, which the writer does not note, keeps the caches a recency prefix exactly when they hold no finalized block or that block first |
| `StreamDedup.ShortLogRebuildsExactly` | crates/actors/src/block_stream_service.rs:540-581 | a restart rebuilds the exact caches when the whole log fits in the tail read |
| `StreamDedup.LogStaysBounded` | crates/actors/src/block_migration_service.rs:1214-1259 | within one process the log exceeds the larger of its start length and the retention only by the current interval and reconciled frames, and the newest retained frames are never deleted |
| `StreamDedup.IntervalPrunes` | crates/actors/src/block_migration_service.rs:1214-1259 | a commit that reaches the interval brings the log down to the retention and resets the counter |
| `StreamDedupRuns.DuplicatesAreSpaced` | crates/actors/src/block_migration_service.rs:445-472 | over every run with aborts, reconciliation, prunes and restarts: two writer-appended finalized frames of one block within the capacity have a reorg orphaning it between them, and no observed frame repeats a mark still inside both windows |
| `StreamDedupRuns.RebuildRemembers` | crates/actors/src/block_stream_service.rs:540-581 | caches rebuilt from the tail know every mark and every un-orphaned finalized frame still in the tail |
| `StreamLogged.CachesHoldOnlyLogged` | crates/actors/src/block_migration_service.rs:608-637 | over every run with restarts, aborts, prunes and reconciliation, the caches hold only what the log says: an announced block, or a finalized one that no later frame orphans |
| `StreamLogged.ConfirmedIsLogged` | crates/actors/src/block_migration_service.rs:445-472 | so a confirmed block is always announced in the log: nothing is suppressed that is not there |
| `StreamLogged.MigratedIsLogged` | crates/actors/src/block_migration_service.rs:1119-1144 | and a migrated block always has a finalized frame that no later frame orphans |
| `StreamLogged.ReadoptedIsFinalizedAgain` | crates/actors/src/block_migration_service.rs:629-634 | a block that a reorg orphaned is not remembered as finalized, so its next migration appends a fresh frame |
| `StreamLogged.NewForkIsRemembered` | crates/actors/src/block_migration_service.rs:615-626 | the blocks of a committed new fork are remembered as announced, so confirming them repeats nothing |
| `StreamWriting.RebuildState` | crates/actors/src/block_stream_service.rs:540-581 | the caches are the fold of the newest retained frames |
| `StreamWriting.NoteFrames` | crates/actors/src/block_migration_service.rs:608-637 | the noted caches are the put and pop operations of the frames in order |
| `StreamWriting.StreamWriter.constructor` | crates/actors/src/block_migration_service.rs:226-240 | construction is the restart step of the model; with seeding off or an unreadable tail it starts with empty caches |
| `StreamDedup.ColdStartForgetsOnly` | crates/actors/src/block_migration_service.rs:222-243 | starting empty only forgets: a recency prefix of what a rebuild would know |
| `StreamWriting.StreamWriter.AppendFrames` | crates/actors/src/block_migration_service.rs:1214-1259 | a commit is the commit step of the model, with consecutive frame numbers; an abort changes nothing |
| `StreamWriting.StreamWriter.PersistObserved` | crates/actors/src/block_migration_service.rs:445-472 | appends exactly the blocks without an emitted mark and hands those frames on |
| `StreamWriting.StreamWriter.PersistReorged` | crates/actors/src/block_migration_service.rs:445-539 | one frame carries the switch, marks the new fork and forgets the orphans |
| `StreamWriting.StreamWriter.PersistFinalized` | crates/actors/src/block_migration_service.rs:1124-1144 | appends a frame exactly when the block is not remembered as finalized |
| `StreamLog.PageIsContiguous` | crates/actors/src/block_stream_service.rs:165-194 | a page is the contiguous history from the cursor, or an empty jump to the floor flagged as truncated |
| `StreamLog.PruneDropsBelow` | crates/actors/src/block_stream_service.rs:509-522 | a prune drops exactly the frames below its bound and keeps the numbers of the rest |
| `StreamLog.PageIsFull` | crates/actors/src/block_stream_service.rs:159-194 | a page holds the limit, the page cap or everything up to the tip, whichever is least, names cursor and floor, and starts over at the floor for a cursor beyond the tip |
| `StreamLog.FollowerIsGapHonest` | crates/actors/src/block_stream_service.rs:165-194 | a follower that feeds the cursor back while the log is appended and pruned never passes the tip, gets genuine frames in strictly increasing order, and skips a number only on a page that said it was truncated, after the number was pruned |
| `StreamLog.TruncatedPageSkips` | crates/actors/src/block_stream_service.rs:165-194 | conversely, a number such a page announces as skipped has not been received |
| `StreamLog.FollowerProgresses` | crates/actors/src/block_stream_service.rs:165-194 | with a positive limit, a page that announces more moves the cursor |
| `StreamLog.ReplayPageIsContiguous` | crates/actors/src/block_stream_service.rs:204-217 | a replay page is contiguous and capped by the snapshot end, or ends the replay |
| `StreamLog.ReplayIsContiguous` | crates/actors/src/block_stream_service.rs:204-217 | replay delivers a contiguous run from its start that reaches the end or stops short of it after a prune overtook it |
| `StreamFanout.BlockStreamHandle.FanoutLocked` | crates/actors/src/block_stream_service.rs:250-263 | covered subscribers are skipped, lagging or closed ones dropped, the rest receive the number |
| `StreamFanout.BlockStreamHandle.AppendAndFanout` | crates/actors/src/block_stream_service.rs:222-237 | append at the next number and fan-out in one step |
| `StreamFanout.SubscribeIsMove` | crates/actors/src/block_stream_service.rs:127-154 | subscribing on the handle is the subscribe move of the interleaving model: the new client is registered, with the replay range snapped then, exactly when the registry is open |
| `StreamFanout.CloseIsMove` | crates/actors/src/block_stream_service.rs:272-280 | closing leaves nobody registered, then and after any later subscription |
| `StreamFanout.AppendIsMove` | crates/actors/src/block_stream_service.rs:222-263 | append-and-fan-out is the reconciliation move, and fanning out a queued frame the fan-out move |
| `StreamFanout.SubscribeKeepsInv` | crates/actors/src/block_stream_service.rs:127-154 | a client that registers at any moment starts with an exact split between replay and live |
| `StreamFanout.FanoutIsRetain` | crates/actors/src/block_stream_service.rs:250-263 | fan-out in the interleaving model is the handle's fan-out on its registry |
| `StreamFanout.EveryInterleavingKeepsInv` | crates/actors/src/block_stream_service.rs:127-154 | in every interleaving of commits, queued fan-out, reconciliation, subscriptions, slow or gone receivers, prunes and close: each committed frame is on its way or fanned out once, and each registered client has the whole uncovered fan-out order |
| `StreamFanout.HandoverIsExactlyOnce` | crates/actors/src/block_stream_service.rs:127-154 | a registered client whose replay completed has each number from its start on exactly once, in replay or live and never both, as soon as it is fanned out |
| `StreamFanout.RequestIsServed` | crates/actors/src/block_stream_service.rs:127-154 | from the request on: a registered client that completed its replay has, exactly once, each number from the one it asked for on that was in the log at its registration or has been fanned out since |
| `StreamFanout.FanoutDropsIff` | crates/actors/src/block_stream_service.rs:250-263 | a fan-out drops a client exactly when it lags: an uncovered frame finds its receiver gone or its buffer full |
| `StreamFanout.ConsumingMakesRoom` | crates/actors/src/block_stream_service.rs:250-263 | a client that consumes a frame has room again and does not lag |
| `StreamFanout.OnlyLaggingIsDropped` | crates/actors/src/block_stream_service.rs:250-263 | nothing else ends a registration but the producer's stop |
| `StreamFanout.DroppedClientHasPrefix` | crates/actors/src/block_stream_service.rs:250-263 | a dropped client holds a hole-free prefix of what it would have received |
| `Reconciliation.TopGapIsMaximal` | crates/actors/src/block_stream_service.rs:434-496 | the missing segment is the longest top part of the index with no finalized hash |
| `Reconciliation.ScanMissing` | crates/actors/src/block_stream_service.rs:434-496 | the backward scan returns exactly the part of the index above the last finalized entry, and nothing for an empty finalized set or a part as long as the scan cap |
| `Reconciliation.Producer.MaybePrune` | crates/actors/src/block_stream_service.rs:509-522 | prunes once per interval, to the retention below the frame, and otherwise only counts |
| `Reconciliation.Producer.ReconcileFinalizedTail` | crates/actors/src/block_stream_service.rs:434-496 | appends and fans out the missing segment in ascending height, all of it or up to the first block that cannot be read, losing none of the new frames to pruning |
| `Reconciliation.ReconciledReachSubscriber` | crates/actors/src/block_stream_service.rs:222-263 | a live subscriber with room receives all reconciled frames in order and stays registered |
| `Reconciliation.ReconcileResumes` | crates/actors/src/block_stream_service.rs:434-496 | after a run that stopped anywhere, the next one finds missing exactly what was not appended: nothing is lost and nothing is doubled |
| `Reconciliation.ReconcileIsIdempotent` | crates/actors/src/block_stream_service.rs:434-496 | a second run appends nothing |
| `BlockReward.EmissionTelescopes` | crates/reward-curve/src/lib.rs:27-53 | block emissions over a prefix of the chain add up to the curve's emission at its end, within the cap |
| `BlockReward.SplitConserves` | crates/actors/src/block_reward.rs:67-93 | miner and treasury shares add up to the full reward for any activation, PoA kind and percent; it fails only on overflow or a percent above 100% |
| `BlockReward.SharesAreEmission` | crates/actors/src/block_reward.rs:67-93 | over any list of blocks, total shares are total emission |
| `BlockReward.SplitPays` | crates/actors/src/block_reward.rs:67-93 | a data PoA or a block before Delta pays the miner everything; a capacity PoA after it pays the miner the percentage rounded down |
| `BlockReward.RewardIsGrowth` | crates/reward-curve/src/lib.rs:27-44 | an earlier end fails, an empty interval or cap pays nothing, else the growth of the emission is paid |
| `BlockReward.EmittedIsDecayed` | crates/reward-curve/src/lib.rs:46-53 | what the curve has emitted is the decayed part of the cap rounded down, and fails only for its three causes |
| `Supply.SupplyState.Backfill` | crates/actors/src/supply_state_calculator.rs:69-166 | completes with the emission of every height between the persisted value and the first migration, each once; cancellation, a stale persisted height, a missing block and a failed save change nothing, and each has its cause: completion means no batch was cancelled |
| `Supply.EmissionsBatch` | crates/actors/src/supply_state_calculator.rs:170-204 | one emission per height of the batch, so the length check never fires, or the first unreadable height |
| `Supply.HistoricalSum` | crates/actors/src/supply_state_calculator.rs:118-161 | the batch loop counts every height of the range once |
| `Supply.AddKeepsOnTrack` | crates/domain/src/models/supply_state.rs:186-232 | an accepted block reward keeps total plus pending backfill equal to the emission of the indexed blocks |
| `Supply.AcceptsOnlyNext` | crates/domain/src/models/supply_state.rs:208-218 | once a block has migrated, exactly the next block's reward is accepted |
| `Supply.RollbackUndoesAdd` | crates/domain/src/models/supply_state.rs:177-184 | rolling back the block just added restores the state exactly |
| `Supply.BackfillCompletesTotal` | crates/domain/src/models/supply_state.rs:234-270 | finishing the backfill makes the total the emission of all indexed blocks, and finishing twice changes nothing |
| `Supply.CurveIsDefined` | crates/reward-curve/src/lib.rs:27-53 | the emissions of a capped curve always fit, so no sum over blocks saturates |
| `Supply.RollbackOnTrackIff` | crates/actors/src/block_migration_service.rs:926-931 | a rollback keeps the total on track exactly when the backfill is done, no block has migrated, it stops at or above the block before the first migrated one, or what lies between emits nothing |
| `Supply.TotalIsEmission` | crates/actors/src/block_migration_service.rs:926-931 | after every run of migrations, such rollbacks, restarts and the backfill, a ready total is the emission of the indexed blocks |
| `Supply.RestartRepairsEveryRun` | crates/domain/src/models/supply_state.rs:100-126 | however far off a run has taken the total, the state file stays sound and a restart puts the total back on track, with whatever index it finds |
| `Supply.RestartAcceptsIff` | crates/domain/src/models/supply_state.rs:196-206 | after a restart the next reward is accepted exactly when the index holds every block the file covers; after a finished backfill, exactly from the old first migration on |
| `Supply.RestartAfterDeepRollbackRefuses` | crates/domain/src/models/supply_state.rs:196-206 | a rollback below the first migration and a restart: every total on the way is right and the next reward is refused |
| `Supply.TotalIsShares` | crates/actors/src/block_reward.rs:67-93 | and equals the miner and treasury shares of those blocks, for any mix of PoA kinds |
| `Supply.RollbackBelowFirstMigration` | crates/actors/src/block_migration_service.rs:926-931 | a rollback below the first migrated height before the backfill is done subtracts what was never added |
| `ServiceSupply.ServiceTotalIsEmission` | crates/actors/src/block_migration_service.rs:989-1003 | after every run of the service's migrations, partial ones included, its recoveries, restarts and the backfill, a ready total is the emission of the indexed blocks |
| `ServiceSupply.MigrateBlocksIsStep` | crates/actors/src/block_migration_service.rs:960-1006 | any call of the migration, failed or not, is such a step unless the supply update itself failed |
| `ServiceSupply.RecoveryIsStep` | crates/actors/src/block_migration_service.rs:643-931 | a recovery that rolls back is such a step unless it reaches below a first migration still being backfilled |
| `ServiceSupply.FailedUpdateIsOneBehind` | crates/actors/src/block_migration_service.rs:995-1001 | when the supply update fails, the total is that of the index without its last block, and a restart makes up for it |
| `ServiceSupply.RecoveryOnTrackIff` | crates/actors/src/block_migration_service.rs:926-931 | the recovery's own subtraction keeps the total on track exactly under the condition of the rollback |
| `TargetPruner.BuildGraph` | xtask/src/prune.rs:580-594 | the lookup tables name every fingerprint directory and every declared hash, and nothing else |
| `TargetPruner.EdgesAreFingerprints` | xtask/src/prune.rs:604-618 | an edge of the tables is a dependency the fingerprints state, when no two directories clash |
| `TargetPruner.Close` | xtask/src/prune.rs:596-621 | the worklist terminates, also on cycles, and returns exactly the units reachable from the roots |
| `TargetPruner.ClosureIsLeast` | xtask/src/prune.rs:596-621 | the reachable units are the least set that holds the roots and is closed under dependencies |
| `TargetPruner.UpliftedRoots` | xtask/src/prune.rs:516-545 | every root is the unit of an uplifted artifact, and every uplifted artifact's unit is a root when an inode belongs to one unit |
| `TargetPruner.PruneDepsUnits` | xtask/src/prune.rs:721-773 | removes exactly the files of units that are not in the closure, not named by a record and not recent, and the fingerprints with the hash of a unit that lost a file |
| `TargetPruner.PruneBuildDirs` | xtask/src/prune.rs:801-845 | removes exactly the old build directories outside the closure with no recorded path below them |
| `TargetPruner.PruneOrphanFingerprints` | xtask/src/prune.rs:457-498 | removes exactly the old fingerprints of units with nothing left and outside the closure |
| `TargetPruner.Profile.UpliftedClosure` | xtask/src/prune.rs:514-622 | no closure exactly when the fingerprint directory leaves the target; otherwise the closure of the uplifted units |
| `TargetPruner.Profile.PruneUnusedUnits` | xtask/src/prune.rs:377-452 | nothing changes unless a live record names an entry of the profile's deps and the fingerprint directory can be trusted; then the profile is exactly the pruned one for the closure of its uplifted units |
| `TargetPruner.PassIsSafe` | xtask/src/prune.rs:377-452 | nothing of a unit in the closure is lost: files, build directories and fingerprints; nor a file or build directory that a record names |
| `TargetPruner.FileKeptIff` | xtask/src/prune.rs:721-773 | a file stays exactly when it is no unit file, may not be deleted, its unit is in the closure, or a file of its unit was recorded, written or run after the cut-off |
| `TargetPruner.BuildKeptIff` | xtask/src/prune.rs:801-845 | a build entry stays exactly when it is no directory, may not be deleted, is in the closure, has a recorded path below it, or is recent |
| `TargetPruner.FingerprintKeptIff` | xtask/src/prune.rs:457-498 | a fingerprint stays exactly when it may not be deleted, or no file of its hash was removed and its unit is in the closure, has something left, or is recent |
| `TargetPruner.PassIsIdempotent` | xtask/src/prune.rs:377-452 | a second pass with the same closure removes nothing |
| `TargetPruner.SecondPassRemovesNothing` | xtask/src/prune.rs:377-452 | a second pass over what the first left finds the same roots and the same closure, and with the same records removes nothing |
| `TargetPruner.PruningKeepsRoots` | xtask/src/prune.rs:516-545 | pruning leaves every uplifted file, so the roots stay |
| `TargetPruner.UsedFingerprintKeptIff` | xtask/src/prune.rs:778-799 | a unit that a record keeps, in either directory, keeps its fingerprint exactly when no unit of its hash is stale in either directory |
| `TargetPruner.SharedHashLosesFingerprint` | xtask/src/prune.rs:778-799 | one hash under two names, or one unit in both directories and used in one: the used file stays and its fingerprint is removed |

## Left out

- Prevalidation.SubmitTxIncludedOnce: takes from the network that a tx id fixes its anchor and that genesis carries no Submit tx.
- Prevalidation.BlockDiscovered: the presence and size checks of ingress proofs, the commitment snapshot status, the epoch rollup comparison and the checks before the height check are not modelled.
- BlockMigration.BlockMigrationService.PersistBlock: tx headers and commitment txs are stored by id, without their contents, and the cached data-root hints are not part of the model; the stream append of the same transaction is modelled separately in `StreamWriting`.
- BlockMigration.BlockMigrationService.RecoverFromNetworkPartition: a clear is a call with its txs; crashes between its stores are in `RecoveryCrash`. The repacking request for the same span, checksums, write pauses and the 32-bit partition offset type are not modelled; storage calls succeed, since a failure there aborts the node. Headers of indexed blocks are stored, as `Sound` says.
- BlockMigration.BlockMigrationService.HandleReorg: says nothing of the stream frames of the same transaction.
- BlockMigration.NewTotals: the byte sum of one ledger in one block is taken to fit in 64 bits, and ledger ids are known; genesis is not pushed through it.
- ServiceSupply.ServiceTotalIsEmission: a supply update that fails ends the process, so the next step is a restart; `FailedUpdateIsOneBehind` gives the total in between. The state file keeps what was last saved.
- StreamDedupRuns.DuplicatesAreSpaced: every restart reads the log tail; after a cold start with empty caches any duplicate is possible.
- Prevalidation.TxIncludedOnce: blocks with the two ledgers before Cascade; the later term ledgers have no window check in the modelled code.
- BlockReward.EmissionTelescopes: the halving decay is an abstract function with a checked range; its fixed-point series is not modelled.
- StreamFanout.HandoverIsExactlyOnce: log bytes always decode; an undecodable entry ends a replay in the source.
- TargetPruner.SecondPassRemovesNothing: no two different fingerprints name one unit or declare one hash, and `deps` and `examples` share no path.
- TargetPruner.Profile.PruneUnusedUnits: one profile directory, with parsed unit names and a fixed file tree; symlinks and canonical paths are reduced to the `inside` and `outside` parameters, and the report counters are left out.
- Unit-name parsing, usage-record expiry, locks and the stale-executable pass of the pruner: text and file handling.
- Async select loops, channels, shutdown and metrics of the services: plumbing around the modelled steps.
- Block production, EVM payloads, VDF, signatures, merkle proofs and pricing: foreign calls.
- Chunk ingress, ingress status, tx status, data-tx validation and commitment refunds: short filters that would only add easy members.
