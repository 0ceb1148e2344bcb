# walletd: a verified model of the wallet's chain, recovery and storage logic

This project models the parts of walletd where state, order and arithmetic meet, and proves
what they promise:

* **Following the chain.** The lokid client turns block announcements, in any order and from
  any branch, into connect and disconnect notifications. They pass through a queue to the
  wallet, which keeps a sliding window of block hashes. Proved: what a reorganisation emits,
  and exactly what it has emitted when it stops at any of its RPC calls; that the best block is
  always true, and without failures the last block announced that is no lower than all before it;
  that the wallet ends on it exactly when the fork can be recovered from the window, and exactly
  when the step after a reorganisation that failed half-way puts it right again.
* **Recovery with a gap limit.** Look-ahead horizons over a key tree, the block filter, the full
  and the compact-filter scan, and the driver that joins them. Proved: recovering a chain within
  the gap limit finds exactly the addresses, outpoints and transactions it holds for the wallet,
  whatever the batch size and with either kind of scan, and leaves each account's next index
  after the highest used one; and exactly on which children it fails, for it does not pass over
  invalid ones, though the look-ahead could.
* **The mempool cache.** The two-way spend index and the mark-and-sweep reconciliation, under any
  interleaving of its locked steps.
* **The pruned-block request table.** Packing of requests, what becomes of every registration,
  and that neither blocks nor cancellations exceed a channel's buffer.
* **Account and address rows.** Every codec, as an exact inverse pair and byte by byte, the removal of
  private keys from stored rows and what is left of them, and the address index allocator on top of the encoded row.
* **Coin selection, rescan batching, the Electrum gap scan.**

Each class method is proved against a function of the old state, and the properties are proved
about that function over all inputs and all runs. A hash is a number that names at most one
block of the tree; scripts, addresses and transaction ids are numbers as well.

The modules, by area:

| area | modules |
|---|---|
| chain | `BlockTree`, `ChainEvents`, `ReorgCalls`, `ChainClient`, `ChainRuns`, `ChainListener`, `NotificationQueue`, `SyncStore`, `WalletSync`, `ReorgDelivery`, `ChainFollowing`, `FailedReorgs` |
| recovery | `ChainData`, `Lookahead`, `Recovery`, `KeyTree`, `BlockFilter`, `BlockRelevance`, `FilterBlocks`, `RecoveryScan`, `OwnTransactions`, `CompactRecovery`, `RecoveryProgress`, `RecoveryRounds`, `RecoveryDriver`, `RecoveredAccounts`, `RestoredAccounts` |
| mempool | `Mempool`, `MempoolRuns`, `MempoolUpdate` |
| pruned blocks | `PrunedBlocks`, `PrunedBlockRuns` |
| rows | `Bytes`, `Rows`, `RowCodecs`, `RowStore`, `RowLayouts`, `RowSecrets` |
| allocator | `AddressIndexes`, `Allocator`, `AllocatorRuns` |
| the rest | `CoinSelection`, `Rescan`, `RescanRuns`, `ElectrumGap`, `Counterexamples`, `Optional` |

`dafny verify dfyconfig.toml` checks the whole project.

## Where the code does less than it says

These are properties one would expect that do not hold of the code. The model follows the code
and says exactly when they hold; for each there is a concrete input on which it does not.

* Only the first disconnect notification of a reorganisation names the block it disconnects; the
  later ones carry the hash of the block below (`chain/lokid_client.go:826`):
  `ChainEvents.DisconnectNamesItsBlockOnlyFirst`, `Counterexamples.LaterDisconnectNamesParent`.
* A disconnect that takes effect stores a blank hash below the disconnected height, because the
  stamp's hash is never filled in (`wallet/chainntfns.go:283-299`): `ChainFollowing.ForkHash`,
  `Counterexamples.ForkHashIsBlanked`.
* A reorganisation that forks below the stored window is not followed, with three exceptions: the
  wallet stays on its old tip, or reaches the new tip and keeps a hash of the old branch at the
  foot of its window: `ChainFollowing.ReorgFollowed` with `ChainFollowing.Recoverable`,
  `Counterexamples.ForkBelowWindowIsNotFollowed`.
* Storing a stamp at height 1 next to genesis can break the contiguous window of hashes:
  `SyncStore.WindowKeptExactly`, `Counterexamples.LowStampBreaksWindow`.
* A reorganisation that fails once it has connected a block leaves that block's hash in the wallet,
  and the client goes on from the old tip. The next reorganisation replaces it if it leaves the old
  branch no higher than the failed one did and reaches at least as high; a block on top of the old
  tip does not, unless the failed branch was on top of it too, or the hash falls out of the window:
  `FailedReorgs.ReorgRepairs`, `FailedReorgs.ExtensionRepairs`,
  `Counterexamples.FailedReorgLeavesWrongHash`.
* Recovery does not pass over invalid children: `deriveKey` wraps the invalid-child error
  (`waddrmgr/scoped_manager.go:404-412`), so that the comparisons meant to notice it never hold. An
  extension, or the restoration of a wallet, fails if and only if a child it derives is invalid or
  cannot be derived: `KeyTree.NeverInvalid`, `KeyTree.ExpandFromKeys`, `KeyTree.ResurrectFromKeys`,
  `Counterexamples.ExtendingStops`, `Counterexamples.RestoringStops`.
* The allocator does pass over them. So a branch can be restored if and only if it never has, and one
  that cannot be restored never can be again: `RestoredAccounts.RestorableExactly`,
  `RestoredAccounts.NeverRestorableAgain`, `Counterexamples.PassedOverIsNotRestored`.
* Whatever is issued on a branch after an allocation in the same transaction repeats indexes, because
  the cached next index of an allocation only moves on commit: `AllocatorRuns.RepeatsExactly`,
  `Counterexamples.SameIndexTwice`.
* An extension moves the cached next index before the commit, so a rolled-back transaction leaves it
  ahead of the row: `AllocatorRuns.RollbackInStepExactly`, `Counterexamples.RollbackLeavesCacheAhead`.
* A response does not clear the cancel channels registered for its block, so a request that has been
  served is told of a later cancellation (`chain/pruned_block_dispatcher.go:688`):
  `PrunedBlockRuns.CancellationTells`, `Counterexamples.ServedIsToldOfCancellation`.
* A cancel channel is told once for each block its queries found asked for already. So a buffer of one,
  as GetBlock has it (`chain/lokid_conn.go:475`), is enough for a query of one block, but not of two:
  `PrunedBlockRuns.TellsFitBuffer`, `Counterexamples.ToldTwice`.
* Taproot scripts keep their secret part when private keys are deleted, even if they are marked
  secret (`waddrmgr/db.go:2103-2159` has no case for them): `RowSecrets.OnlyTaprootKeepsSecret`,
  `Counterexamples.TaprootSecretStays`.
* A rescan whose request fails is never reported as finished, so the jobs after it stay pending
  (`wallet/rescan.go:259-266`): `RescanRuns.UnfinishedBlocksTheRest`,
  `Counterexamples.FailedRescanBlocksTheNext`.
* The Electrum scan with a window of nought looks at one address all the same:
  `ElectrumGap.Recover`, `Counterexamples.ElectrumLooksAtOne`.

## Model

| member | source | states |
|---|---|---|
| ChainClient.LokidClient.StepBack | chain/lokid_client.go:804-838 | one turn of the walk moves both branches down one block, sends the one disconnect, and stands at true ancestors |
| ChainClient.LokidClient.CollectBranch | chain/lokid_client.go:775-789 | the blocks kept are exactly the notified branch above the old tip's height, and the walk stops at its ancestor |
| ChainClient.LokidClient.Rewind | chain/lokid_client.go:791-850 | the walk ends at the greatest height below the old tip where the branches agree, having sent the disconnects down to there; when a read fails, a disconnect for every step begun |
| ChainClient.LokidClient.FastForward | chain/lokid_client.go:852-870 | connects exactly the collected blocks with their true heights, or those before the first one whose header cannot be read |
| ChainClient.LokidClient.SwitchBranch | chain/lokid_client.go:775-877 | a complete switch sends exactly the reorganisation's events and ends on the new tip; one that ends at its m-th read keeps the best block and has sent exactly what the first m - 1 reads allow |
| ChainClient.LokidClient.Reorg | chain/lokid_client.go:753-877 | a lower block is ignored; otherwise as SwitchBranch; it ends, and succeeds if and only if each of the reads it takes is answered |
| ChainClient.LokidClient.HandleBlock | chain/lokid_client.go:577-606 | one announcement extends the tip, switches branch or changes nothing, exactly as its height, its parent and the answers to the reads say; if all are answered the best block is the announced one unless that is lower |
| ReorgCalls.SentIsPart | chain/lokid_client.go:753-877 | what a reorganisation has sent when one of its reads is the first not answered, whichever it is, is a part of what it sends in the end |
| ChainEvents.ReorgDisconnects | chain/lokid_client.go:804-850 | a reorganisation first disconnects consecutive falling heights from the old tip to just above the fork, each with its block's time |
| ChainEvents.ReorgConnects | chain/lokid_client.go:852-870 | it then connects exactly the new branch's blocks, ascending, hash-linked to each other and to the common ancestor, ending with the new tip |
| ChainEvents.DisconnectNamesItsBlockOnlyFirst | chain/lokid_client.go:804-828 | a disconnect's hash is that of the block at its height if and only if it is the first one |
| ChainRuns.BestBlockIsTrue | chain/lokid_client.go:563-611 | over every sequence of announcements, with any failures, the best block is a block of the tree at its own height, and never gets lower |
| ChainRuns.LastAnnouncedIsAncestor | chain/lokid_client.go:563-611 | without failures the last block announced at each height is the best block's ancestor there, and every height above the start has been announced |
| ChainRuns.BestIsLastRecord | chain/lokid_client.go:563-611 | without failures the best block is the last one announced that is no lower than the start and every block announced before it |
| ChainListener.ListenerFollows | chain/lokid_client.go:577-877 | without failures a listener that takes each event at its word, undoing its block at a disconnect, whatever hash that names, and adding one on top at a connect, can follow every event and ends on the best block |
| NotificationQueue.ConcurrentQueue.OnItem | chain/queue.go:49-73 | an item goes straight out only if nothing is waiting and the channel takes it, else to the end of the overflow |
| NotificationQueue.ConcurrentQueue.OnReadyToSend | chain/queue.go:71-75 | the oldest overflow item is sent and removed, or nothing changes |
| NotificationQueue.ConcurrentQueue.Receive | chain/queue.go:37-40 | a reader gets the oldest item in the channel, if there is one |
| NotificationQueue.Fifo | chain/queue.go:46-82 | at every moment of every run, what was pushed is what was delivered, then buffered, then overflowed; the buffer is within its size |
| NotificationQueue.DrainDeliversAll | chain/queue.go:46-82 | a reader that keeps reading gets everything |
| NotificationQueue.OverflowsOnlyWhenFull | chain/queue.go:46-82 | as long as the loop keeps forwarding, nothing waits in the overflow while there is room in the channel |
| SyncStore.Manager.PutSyncedTo | waddrmgr/db.go:2205-2246 | refused exactly if the height is above 0, a birthday block is set and the height below is not stored; else stores the hash, drops the one 10000 heights below, stores the stamp |
| SyncStore.Manager.SetSyncedTo | waddrmgr/sync.go:52-71 | the stored stamp and its copy in memory move together or not at all; no stamp means the start block |
| SyncStore.RunKeepsWindow | waddrmgr/db.go:2205-2246 | from a single stored height, every run of stamps at heights of at least 2 keeps one interval of at most MaxReorgDepth hashes holding the synced height with the synced hash |
| SyncStore.WindowKeptExactly | waddrmgr/db.go:2205-2246 | an accepted stamp leaves such an interval behind if and only if its height is at least 2, or it is 1 and the window is next to it with room for it |
| WalletSync.Wallet.ConnectBlock | wallet/chainntfns.go:244-262 | the wallet is synced to the block, or it is unchanged and the call fails, exactly if the stamp is refused |
| WalletSync.Wallet.DisconnectBlock | wallet/chainntfns.go:267-315 | rolls back one block exactly if the wallet is synced, stores this hash at this height and some hash below it whose header is found, and the stamp is accepted, which has the time of the header below; if the transaction store then fails, the stored state is restored but the remembered stamp has moved; else nothing changes |
| WalletSync.Wallet.HandleNotification | wallet/chainntfns.go:124-171 | a connect or disconnect notification takes effect as one database transaction; filtered blocks change nothing here |
| ReorgDelivery.ConnectsDelivered | wallet/chainntfns.go:244-262 | connects of consecutive heights that the store accepts leave the branch's hashes there and the wallet on the last one |
| ReorgDelivery.LaterDisconnectIgnored | wallet/chainntfns.go:277-315 | a disconnect after the first never matches a stored hash |
| ReorgDelivery.DisconnectsDelivered | wallet/chainntfns.go:267-315 | all disconnects of a reorganisation together undo at most one block |
| ChainFollowing.ForkHash | wallet/chainntfns.go:283-299 | the stored hash at the fork is kept, unless the reorganisation is one block deep and its disconnect was carried out, which blanks it |
| ChainFollowing.ReorgFollowed | wallet/chainntfns.go:244-315 | after all events of a reorganisation, whichever disconnects fail, the wallet is on the client's best block with the new branch's hashes above the fork if and only if the fork is recoverable from the window; then it is in sync again |
| ChainFollowing.WalletFollowsClient | wallet/chainntfns.go:28-315 | over any run of announcements with recoverable forks, the wallet that got every event stands on the client's best block |
| ChainFollowing.PipelineFollowsClient | chain/queue.go:46-82 | the same with the queue in between: the wallet always has a prefix of the client's events, and is in sync once the queue is empty |
| FailedReorgs.HeldAfterFailure | wallet/chainntfns.go:244-315 | after any part of a reorganisation whose fork is stored, the wallet holds the new branch's hashes above the fork as far as it was connected, those of the old branch or a blank one elsewhere, and stands on the last block connected |
| FailedReorgs.ReorgRepairs | wallet/chainntfns.go:244-315 | the next complete reorganisation from the same tip puts it in sync if and only if the failed one had connected nothing, or what it connected is replaced or falls out of the window, and reached no higher |
| FailedReorgs.ExtensionRepairs | wallet/chainntfns.go:244-315 | a block on top of the tip does so if and only if nothing was connected, or only the tip itself and the height of that block, or it falls out of the window |
| Recovery.BranchRecoveryState.NumInvalidInHorizon | wallet/recovery.go:401-410 | counts the recorded invalid children from the next unfound index up to the horizon |
| Recovery.BranchRecoveryState.ExtendHorizon | wallet/recovery.go:324-345 | returns the old horizon and how many valid children are missing, and moves the horizon by that many |
| Recovery.BranchRecoveryState.ReportFound | wallet/recovery.go:360-373 | a found index moves the next unfound index past it and forgets the invalid children below it; an old one changes nothing |
| Recovery.ExpandBranch | wallet/wallet.go:955-1020 | whatever its derivations give, it derives children until the missing number of valid ones is registered, marking each one reported as invalid on the way; it fails exactly if one of these gives another error |
| KeyTree.NeverInvalid | waddrmgr/scoped_manager.go:384-412 | a derivation for recovery gives a key or another error, so that every child counts as valid, and the invalid ones as failing |
| KeyTree.ExpandFromKeys | wallet/wallet.go:955-1020 | with the manager's derivations the extension succeeds if and only if the missing children are all valid and can be derived, and then registers exactly these |
| Recovery.ResurrectBranch | wallet/recovery.go:85-126 | whatever its derivations give, it restores the children below the key count, those reported as invalid as such; it fails exactly if one of these gives another error |
| Recovery.ResurrectedExactly | wallet/recovery.go:85-126 | a restored branch goes on behind its key count, watches exactly the valid children below it, and its horizon is the number of the invalid ones |
| KeyTree.ResurrectFromKeys | wallet/recovery.go:85-126 | with the manager's derivations it succeeds if and only if the children below the key count are all valid and can be derived |
| RestoredAccounts.RestorableExactly | wallet/recovery.go:65-127 | after any run of committed allocations a branch can be restored if and only if every child below its key count is valid, that is, if every index below it has been issued |
| RestoredAccounts.NeverRestorableAgain | wallet/recovery.go:65-127 | a branch that cannot be restored cannot be after any further run of committed transactions either, as long as none allocates twice |
| Recovery.ExpandedLooksAhead | wallet/recovery.go:324-410 | after every extension at least `window` valid children lie between the next unfound index and the horizon, all of them watched, and the invalid ones there are recorded exactly |
| Recovery.ExpandedExactly | wallet/recovery.go:324-345 | one extension of a look-ahead that is no wider leaves exactly `window` valid children ahead |
| Recovery.AlwaysLooksAhead | wallet/recovery.go:85-410 | at least `window` valid children are watched ahead after every extension in any run of reports and extensions, from a fresh or a resurrected state |
| Recovery.RunLooksAheadExactly | wallet/recovery.go:324-410 | a look-ahead that is no wider than `window` stays so in any run in which only indexes below the horizon are reported, and is exactly `window` after every extension |
| Recovery.FreshLooksAheadExactly | wallet/recovery.go:324-410 | so it is after every extension in any such run from a fresh state |
| Recovery.RestoredLooksAheadExactly | wallet/recovery.go:85-126 | if all restored children are valid, as they are when restoring succeeds, the first extension leaves exactly `window` valid children ahead |
| Lookahead.BeforeAfter | wallet/recovery.go:324-345 | an index lies before the point reached after `count` valid children if and only if fewer than `count` lie behind it |
| BlockFilter.BlockFilterer.FilterOutputAddrs | chain/block_filterer.go:182-197 | records the owner of every watched address in the list, and says whether there was one |
| BlockFilter.BlockFilterer.FilterTx | chain/block_filterer.go:125-175 | relevant if it spends a watched or a found outpoint or pays to a watched address; records what it pays |
| BlockFilter.BlockFilterer.FilterBlock | chain/block_filterer.go:108-118 | folds FilterTx over the block and says whether anything was relevant |
| BlockRelevance.FoundIndexesExactly | chain/block_filterer.go:182-216 | a found index is exactly one whose address some output of the block pays to |
| BlockRelevance.FoundOutPointsExactly | chain/block_filterer.go:125-175 | a found outpoint is exactly an output of the block that pays to a watched address |
| BlockRelevance.RelevantTxnsExactly | chain/block_filterer.go:108-175 | on a topologically ordered block the relevant transactions are exactly those of a predicate that ignores order, in block order |
| BlockRelevance.FoundTxnsExactly | chain/block_filterer.go:108-175 | on any block, a transaction is found if and only if it pays to a watched address or spends a watched outpoint or one that the transactions before it create |
| BlockRelevance.MatchExactly | chain/block_filterer.go:108-118 | a block matches if and only if some transaction of it is relevant |
| BlockRelevance.NoMatchNoChange | chain/block_filterer.go:108-175 | a block that does not match changes no found state, so a filterer reused up to the first match answers as a fresh one |
| FilterBlocks.NewBlockFilterer | chain/block_filterer.go:69-101 | the reverse indexes lead from each watched address back to a key it was derived for |
| FilterBlocks.FilterAllBlocks | chain/lokid_client.go:886-925 | the answer of a full scan: the first block that yields something, with its findings; no match; or the failure to fetch a block before which none does |
| FilterBlocks.BuildFilterBlocksWatchList | chain/neutrino.go:326-364 | the watch list holds exactly the scripts of the watched addresses and outpoints |
| FilterBlocks.FilterBlocksCompact | chain/flcd.go:320-398 | before the match, or the end, every block was denied by its filter, or admitted, fetched and yields nothing; a match is the first that is neither and yields something; it fails exactly if the first such block has no filter, cannot be matched or cannot be fetched |
| FilterBlocks.OutcomeIsUnique | chain/flcd.go:320-398 | for any backend and request, whatever its filters say, that settles the answer of either scan |
| FilterBlocks.DeniedIsNotFetched | chain/flcd.go:347-363 | the answer does not depend on blocks denied by their filters |
| FilterBlocks.BasicFilterIsSound | chain/flcd.go:337-363 | a basic filter (BIP 158) has no false negatives for a watch list without the scripts that it leaves out |
| FilterBlocks.CompactIsFull | chain/flcd.go:320-398 | with filters that have no false negatives for the watch list, and canonical scripts, of the blocks that can be fetched, it is the answer of the full scan for every request on which that does not fail |
| FilterBlocks.CompactIsFullWhenFetchable | chain/flcd.go:320-398 | so for every request whose blocks can all be fetched |
| FilterBlocks.FilterBlocks | chain/interface.go:44 | the backend answers with the scan of its kind |
| CompactRecovery.RequestIsTrustworthy | chain/neutrino.go:247-364 | if the blocks have basic filters and pay to the wallet only in canonical form, every request that recovery makes meets the conditions under which the compact scan answers as the full one |
| CompactRecovery.FoundIsWatchedTruly | chain/block_filterer.go:140-175 | and the outpoints that such a block adds are watched with the addresses whose scripts they hold |
| RecoveryScan.UsedIsWatched | wallet/recovery.go:186-196 | a block within the gap limit uses only watched indexes |
| RecoveryScan.FoundIsUsed | chain/block_filterer.go:108-216 | what the filter finds for a branch is exactly what the block uses of its watched children |
| RecoveryScan.ReportAll | wallet/wallet.go:1090-1172 | reporting a set of found indexes in any order moves the branch past the highest one |
| RecoveryDriver.RecoveryState.ExpandScopeHorizons | wallet/wallet.go:955-1020 | every branch of every scope is extended; the call fails exactly if a child that one of them needs is invalid or cannot be derived |
| RecoveryDriver.RecoveryState.ExtendFoundAddresses | wallet/wallet.go:1081-1172 | every found index is reported to its branch and marked used, and no other; each branch with findings, and no other, is extended up to its last found index; it fails exactly if one of these extensions is not granted |
| RecoveryDriver.RecoveryState.ScanOnce | wallet/wallet.go:862-946 | one round takes up to the first match, leaves out nothing and adds nothing, and resumes after it; with enough derivable children and a scan that can be trusted it never fails |
| RecoveryDriver.RecoveryState.RecoverScopedAddresses | wallet/wallet.go:850-947 | if each block of the batch keeps within the look-ahead as the earlier ones leave it, then exactly the used indexes are found, each branch ends one past its highest used index and is extended up to it, and exactly the outpoints and transactions that concern the wallet are recorded, spends within a block included; it succeeds if the children up to a window beyond the highest used index can be derived, and only if those between the first and the final horizon can |
| RecoveryDriver.RecoveryState.RecoverChain | wallet/wallet.go:770-832 | the same for a whole chain recovered in batches of any size, by either kind of scan |
| RecoveryRounds.CanGoOn | wallet/wallet.go:955-1020 | as long as the blocks use a branch below a limit only, and the children up to a window beyond it can be derived, every extension on the way succeeds |
| RecoveryRounds.MatchTaken | wallet/wallet.go:893-940 | taking over the findings of the matching block completes it: what was reached so far, what was derived and granted, and that outpoints are watched truly are all kept |
| RecoveryRounds.DoneComposes | wallet/wallet.go:770-832 | what a batch keeps, after the batches before it, is what the chain of all of them keeps |
| RecoveryProgress.BatchWithinGap | wallet/wallet.go:770-832 | a chain within the gap limit stays within it when each batch takes up where the one before it stopped |
| RecoveryProgress.ReachedComposes | wallet/wallet.go:770-832 | what one batch reaches after another is what the chain of both means for the wallet, with spends across the batches |
| OwnTransactions.ConcernsInAnyOrder | chain/block_filterer.go:125-175 | in a topologically ordered block a transaction concerns the wallet if and only if it pays to it, or spends an outpoint known before or created for it anywhere in the block |
| OwnTransactions.OwnIsFound | chain/block_filterer.go:140-175 | for a block within the look-ahead the found outpoints are exactly its outputs to the wallet's keys |
| OwnTransactions.ConcernsIsFound | chain/block_filterer.go:108-175 | and the found transactions are exactly those that concern the wallet |
| RecoveredAccounts.ExtendedToHighest | waddrmgr/scoped_manager.go:1232-1411 | extensions in any order move a branch to one past the first valid index at or above the highest one asked for, unless it was beyond that |
| RecoveredAccounts.GoesOnAfterHighest | wallet/wallet.go:1081-1172 | once a recovered account has served its extensions, stored and cached next index agree, lie above every used index, and are one past the highest index newly found unless the account was beyond that; an unused branch stays as it was |
| Mempool.CachedInputs.AddInput | chain/mempool.go:58-88 | the outpoint now belongs to the new transaction only, and both directions stay inverse |
| Mempool.CachedInputs.RemoveInputsFromTx | chain/mempool.go:92-99 | exactly the transaction's entries go, and both directions stay inverse |
| Mempool.Mempool.AddTx | chain/mempool.go:262-276 | a coinbase is skipped; any other transaction is known, marked, and spends its inputs |
| Mempool.Mempool.CleanTxs | chain/mempool.go:200-214 | exactly the given transactions and their spends go |
| Mempool.Mempool.MarkTx | chain/mempool.go:312-318 | marks a known transaction; an unknown one stays unknown |
| Mempool.Mempool.DeleteUnmarkedTxs | chain/mempool.go:333-344 | exactly the unmarked transactions and their spends go |
| MempoolRuns.SpenderIsLastAdded | chain/mempool.go:58-99 | under any interleaving, the index answers with the last added transaction that spends the outpoint if it has been in the pool ever since, and with nothing otherwise |
| MempoolRuns.SweepKeepsRenewed | chain/mempool.go:426-478 | between unmarking and sweep anything may be added, cleaned and marked; what survives is exactly what was added and not cleaned after, or was known, never cleaned and marked |
| MempoolUpdate.BatchGetRawTxes | chain/mempool.go:505-605 | for any batch size, each transaction that can be fetched is added and returned, each once if the list is distinct; it gives up at the first batch that cannot be sent, if the list reaches that far: exactly the full batches before it are in the pool and nothing is returned |
| MempoolUpdate.UpdateMempoolTxes | chain/mempool.go:426-478 | one pass leaves exactly what the node listed and was known or was fetched, and returns what could be fetched of the new ones, or nothing if one of the batches that the new ones make cannot be sent; with every batch sent and every fetch answered the pool is the node's list |
| PrunedBlocks.PrunedBlockDispatcher.NewRequest | chain/pruned_block_dispatcher.go:555-610 | the blocks new at their turn are put into requests, in order, and the channel waits for every block; with MaxRequestInvs of at least 1 the requests have 1 to that many hashes, all but the last full |
| PrunedBlocks.PrunedBlockDispatcher.HandleResp | chain/pruned_block_dispatcher.go:621-718 | a sane block goes to exactly those waiting for it, in order, and any other to nobody; finished exactly when nobody waits for any block of the request |
| PrunedBlocks.PrunedBlockDispatcher.CancelRequest | chain/pruned_block_dispatcher.go:724-767 | the waiters are dropped and the cancel channels that depend on the block are returned |
| PrunedBlockRuns.NewHashesExactly | chain/pruned_block_dispatcher.go:570-592 | the hashes requested are, each once, those nobody had asked for |
| PrunedBlockRuns.NewHashesInOrder | chain/pruned_block_dispatcher.go:570-592 | and in the order in which the query first names them |
| PrunedBlockRuns.SendsFitBuffer | chain/pruned_block_dispatcher.go:560-717 | over all interleavings a channel is sent one block for each registration served, and so never more than its buffer holds |
| PrunedBlockRuns.SettledForGood | chain/pruned_block_dispatcher.go:670-755 | a registration is never lost, and once served or dropped it stays so |
| PrunedBlockRuns.RegistrationFate | chain/pruned_block_dispatcher.go:555-760 | each block of a query makes one registration, which over any later events is served if and only if a sane response comes before a cancellation of the block, dropped if and only if a cancellation comes first, and pending otherwise |
| PrunedBlockRuns.CancellationTells | chain/pruned_block_dispatcher.go:573-592 | a cancellation tells exactly those whose query found the block asked for already since its last cancellation, served or not |
| PrunedBlockRuns.TellsFitBuffer | chain/pruned_block_dispatcher.go:573-592 | over all interleavings a cancel channel is told exactly once for each block that its queries found asked for already and that was cancelled since, so never more often than its queries have blocks |
| Bytes.BlobExactly | waddrmgr/db.go:756-764 | reading a length-prefixed field gives a value and a rest exactly on what writing them makes |
| Rows.AccountExactly | waddrmgr/db.go:709-744 | the outer account row is read back exactly from what is written, and from nothing else |
| Rows.DefaultExactly | waddrmgr/db.go:748-820 | the same for default accounts |
| Rows.WatchOnlyExactly | waddrmgr/db.go:824-973 | the same for watch-only accounts, where any non-zero flag byte announces a schema |
| Rows.AddressExactly | waddrmgr/db.go:1339-1382 | the same for the outer address row |
| Rows.ChainExactly | waddrmgr/db.go:1386-1417 | the same for chained addresses, of exactly 8 bytes |
| Rows.PairExactly | waddrmgr/db.go:1421-1522 | the same for imported keys and for scripts |
| Rows.WitnessExactly | waddrmgr/db.go:1526-1590 | the same for witness scripts, where only the byte 1 means secret |
| RowCodecs.OutcomeMeans | waddrmgr/db.go:709-1590 | a row is malformed exactly if it is shorter than its fixed part; no other failure is |
| RowCodecs.SerializeAccountRow | waddrmgr/db.go:733-744 | the buffer it fills is the row's format |
| RowCodecs.DeserializeAccountRow | waddrmgr/db.go:709-730 | reads the row, or says malformed below 5 bytes, or runs out of range |
| RowCodecs.SerializeDefaultAccountRow | waddrmgr/db.go:791-820 | the buffer filled at a moving offset is the row's format |
| RowCodecs.DeserializeDefaultAccountRow | waddrmgr/db.go:748-787 | reads the row, or says malformed below 20 bytes, or runs out of range |
| RowCodecs.SerializeWatchOnlyAccountRow | waddrmgr/db.go:905-973 | the bytes appended are the row's format |
| RowCodecs.DeserializeWatchOnlyAccountRow | waddrmgr/db.go:824-901 | reads the row, or says malformed below 21 bytes, or meets the end of input |
| RowCodecs.SerializeAddressRow | waddrmgr/db.go:1366-1382 | the buffer it fills is the row's format |
| RowCodecs.DeserializeAddressRow | waddrmgr/db.go:1339-1363 | reads the row, or says malformed below 18 bytes, or runs out of range |
| RowCodecs.SerializeChainedAddress | waddrmgr/db.go:1408-1417 | the buffer it fills is the row's format |
| RowCodecs.DeserializeChainedAddress | waddrmgr/db.go:1386-1404 | reads the row, or says malformed unless there are 8 bytes |
| RowCodecs.SerializePairAddress | waddrmgr/db.go:1453-1522 | the buffer it fills is the row's format |
| RowCodecs.DeserializePairAddress | waddrmgr/db.go:1421-1501 | reads the row, or says malformed below 8 bytes, or runs out of range |
| RowCodecs.SerializeWitnessScriptAddress | waddrmgr/db.go:1565-1590 | the buffer it fills is the row's format |
| RowCodecs.DeserializeWitnessScriptAddress | waddrmgr/db.go:1526-1561 | reads the row, or says malformed below 10 bytes, or runs out of range |
| RowStore.FetchAccountInfo | waddrmgr/db.go:1101-1119 | decodes a stored account row by its type, with the code's errors |
| RowStore.FetchAddress | waddrmgr/db.go:1613-1636 | decodes a stored address row by its type, with the code's errors |
| RowStore.AccountRoundTrip | waddrmgr/db.go:709-973 | an account row of every kind, nested in the outer row, is read back as it was stored if it fits 32 bits |
| RowStore.AddressRoundTrip | waddrmgr/db.go:1339-1590 | an address row of every kind, nested in the outer row, is read back as it was stored if it fits 32 bits |
| RowLayouts.StoredAccountLayout | waddrmgr/db.go:709-973 | bytes are the stored row of an account that fits 32 bits if and only if its type, the length of the rest and each of its fields stand, byte by byte, at their places |
| RowLayouts.StoredAddressLayout | waddrmgr/db.go:1339-1590 | the same for addresses of every kind |
| RowSecrets.OnlyAccountSecretIsLost | waddrmgr/db.go:2044-2083 | deleting private keys turns a stored account into the same account without a default account's private key |
| RowSecrets.OnlyAddressSecretIsLost | waddrmgr/db.go:2087-2163 | and a stored address into the same address without the secret of an imported key, a script or a secret witness script; all other rows are kept |
| RowSecrets.OnlyTaprootKeepsSecret | waddrmgr/db.go:2087-2163 | an address row holds a secret afterwards if and only if it is a taproot script that held one |
| RowSecrets.SecretNames | waddrmgr/db.go:214-302 | the four master entries and the coin-type key by the bytes of their names |
| RowSecrets.ScrubbedArePublic | waddrmgr/db.go:2011-2170 | for every purpose and coin whose bucket exists, four little-endian bytes each, no coin-type private key is left, no account that can be read has a private key, and no address that can be read holds a secret unless it is a taproot script |
| RowSecrets.Namespace.DeletePrivateKeys | waddrmgr/db.go:2011-2170 | deletes the master and crypto private keys and each scope's coin-type key, and rewrites every row of every scope so, after which all scopes are public as above; or fails without a trace, which happens exactly if some row of a scope with an 8-byte key cannot be read |
| AddressIndexes.ValidInExactly | waddrmgr/scoped_manager.go:1060-1083 | the indexes handed out over a range are exactly its valid ones |
| AddressIndexes.ValidInIncreases | waddrmgr/scoped_manager.go:1060-1083 | they strictly increase |
| Allocator.DeriveNext | waddrmgr/scoped_manager.go:1058-1121 | finds the next `count` valid children, skipping invalid ones, or meets one that fails |
| Allocator.DeriveTo | waddrmgr/scoped_manager.go:1286-1351 | finds all valid children up to an index and the first one at or above it |
| Allocator.ScopedKeyManager.PutChainedAddress | waddrmgr/db.go:1719-1809 | the stored row decodes to the same account with one next index moved past the address; a row of an unknown type is stored again as it was; a row that cannot be read is an error |
| Allocator.ScopedKeyManager.NextAddresses | waddrmgr/scoped_manager.go:1008-1223 | issues exactly the next `count` valid indexes and registers the new cached index for the commit; refused by the 32-bit limit check or a failing child without a change |
| Allocator.ScopedKeyManager.ExtendAddresses | waddrmgr/scoped_manager.go:1232-1411 | leaves the next index at one past the first valid index at or above the requested one, at once in row and cache; nothing to do below the next index |
| Allocator.LimitsExactly | waddrmgr/scoped_manager.go:1038-1045 | as long as next index and count, or the index asked for, stay below 2^31, only a failing child refuses a request; above it, every request is refused up to the wrap-around of 32 bits |
| Allocator.ScopedKeyManager.Commit | waddrmgr/scoped_manager.go:1190-1220 | what was registered is cached, in order, up to the first allocation of nought addresses, which panics |
| Allocator.CommittedExactly | waddrmgr/scoped_manager.go:1190-1220 | so a branch is left with the next index of the last of its allocations before the first one of nought addresses, or as it was if there is none |
| AllocatorRuns.AllocationsStayInStep | waddrmgr/scoped_manager.go:1008-1411 | over any run of committed transactions in which nothing is issued on a branch after an allocation in the same transaction, cached and stored next index of the branch agree and it has issued exactly its valid indexes in between, the rest of the row unchanged |
| AllocatorRuns.RepeatsExactly | waddrmgr/scoped_manager.go:1008-1411 | a transaction of any requests repeats an index on a branch if and only if some request issues addresses there after an allocation has |
| AllocatorRuns.RunRepeatsExactly | waddrmgr/scoped_manager.go:1008-1411 | and a run of committed transactions does if and only if one of them does |
| AllocatorRuns.AllocatesLastIsSafe | waddrmgr/scoped_manager.go:1008-1411 | which never happens where no request follows an allocation on its branch, as in a transaction of extensions only |
| AllocatorRuns.RollbackInStepExactly | waddrmgr/scoped_manager.go:1359-1411 | a rolled-back transaction leaves cache and row of a branch in step if and only if no extension issued addresses on it |
| AllocatorRuns.CommitPanicsExactly | waddrmgr/scoped_manager.go:1190-1220 | a commit panics if and only if a request for nought addresses was served |
| CoinSelection.ArrangeCoins | wallet/createtx.go:666-686 | the coins are permuted in place into falling value |
| CoinSelection.FewestCoins | wallet/createtx.go:28-60 | every choice of coins worth the target has at least as many coins as the shortest prefix of the sorted ones |
| CoinSelection.InputSource.Select | wallet/createtx.go:28-60 | after any series of calls the total and the parallel lists are those of a prefix; with no negative values it is the shortest one worth the largest target so far, or all coins |
| Rescan.RescanBatch.Merge | wallet/rescan.go:82-96 | the batch takes on the job, starting at the lower height |
| Rescan.RescanManager.OnJob | wallet/rescan.go:118-137 | a job is dispatched if none is current, else joins the pending batch |
| Rescan.RescanManager.OnRescanFinished | wallet/rescan.go:159-191 | the pending batch becomes current and is dispatched; without one, none is current |
| Rescan.RescanManager.OnBatch | wallet/rescan.go:249-266 | everyone in the batch is sent the batch's outcome |
| RescanRuns.MergedSummarises | wallet/rescan.go:82-96 | a merged batch does what each of its jobs asks for and nothing else |
| RescanRuns.BatchesComposed | wallet/rescan.go:69-105 | in every run a batch holds its jobs' addresses in order, for each outpoint the address of the last job that names it, and the start of the first of the jobs that start lowest |
| RescanRuns.RunKeeps | wallet/rescan.go:110-201 | in every run a batch is pending only while one is current, and the batches hold the accepted jobs in order |
| RescanRuns.OneUnderWay | wallet/rescan.go:110-201 | the batches dispatched outnumber the rescans that have finished by one if one is current, and not at all otherwise |
| RescanRuns.FollowsPhases | wallet/rescan.go:110-201 | whether a batch is current or pending follows from the events alone |
| RescanRuns.NextIsDispatchedAtOnce | wallet/rescan.go:118-191 | when a rescan finishes, what was pending is dispatched; if nothing was, the next job is dispatched at once, as a batch of its own |
| RescanRuns.EveryJobHasABatch | wallet/rescan.go:69-201 | every accepted job is in a batch that starts no later than it asks and includes its addresses and outpoints |
| RescanRuns.InOneBatch | wallet/rescan.go:110-201 | and in no other, and there once |
| RescanRuns.AtMostOneResult | wallet/rescan.go:57-105 | no error channel is ever sent a second result, so its buffer of one suffices |
| RescanRuns.ResultIsOfItsBatch | wallet/rescan.go:98-105 | a result is sent on a channel if and only if it is the outcome of a served batch that the channel's job is in |
| RescanRuns.EveryJobIsAnswered | wallet/rescan.go:101-273 | once the current rescan has finished and the handler has caught up, with whatever outcomes, every job has its result |
| RescanRuns.UnfinishedBlocksTheRest | wallet/rescan.go:110-273 | as long as no rescan finishes, only the first job can be answered and all later ones are in the pending batch |
| ElectrumGap.Recover | chain/electrum.go:792-833 | returns the least n with `window` unused indexes from n on, with exactly the histories below n in order and one progress number per used index, if the window is not nought; or fails at the first history that cannot be fetched, if that lies below the end of every such gap; it ends whenever there is one |
| Counterexamples.LaterDisconnectNamesParent | chain/lokid_client.go:804-838 | a tree and a two-block reorganisation whose second disconnect names the block below |
| Counterexamples.ForkHashIsBlanked | wallet/chainntfns.go:283-299 | a synced wallet whose stored fork hash is blank after a one-block reorganisation |
| Counterexamples.ForkBelowWindowIsNotFollowed | wallet/chainntfns.go:244-315 | a synced wallet with a short window that follows neither an equally high nor a higher branch from below it |
| Counterexamples.LowStampBreaksWindow | waddrmgr/db.go:2205-2246 | a window at height 5 that a stamp of height 1 breaks |
| Counterexamples.FailedReorgLeavesWrongHash | chain/lokid_client.go:852-870 | a synced wallet, a reorganisation that fails after one connected block, and an extension of the old tip after which the wallet is not in sync |
| Counterexamples.PassedOverIsNotRestored | waddrmgr/scoped_manager.go:1060-1083 | a new account that allocates two addresses, passing over an invalid child, and cannot be restored |
| Counterexamples.RestoringStops | wallet/recovery.go:85-96 | restoring its external branch fails |
| Counterexamples.ExtendingStops | wallet/wallet.go:963-982 | a new branch with a window of two and an invalid second child cannot be extended |
| Counterexamples.SameIndexTwice | waddrmgr/scoped_manager.go:1008-1223 | two allocations in one transaction that hand out one index |
| Counterexamples.RollbackLeavesCacheAhead | waddrmgr/scoped_manager.go:1359-1411 | an extension whose rollback leaves the cache ahead of the row |
| Counterexamples.ServedIsToldOfCancellation | chain/pruned_block_dispatcher.go:670-755 | two queries and a response after which a cancellation would still tell the second query |
| Counterexamples.ToldTwice | chain/pruned_block_dispatcher.go:725-768 | two queries for two blocks and two cancellations that tell one channel twice |
| Counterexamples.TaprootSecretStays | waddrmgr/db.go:2087-2163 | a secret taproot script that the deletion of private keys leaves as it is |
| Counterexamples.FailedRescanBlocksTheNext | wallet/rescan.go:249-266 | two jobs, the first of which fails: the second stays pending without a result |
| Counterexamples.ElectrumLooksAtOne | chain/electrum.go:792-833 | histories on which a window of nought returns 1 |

## Left out

- Transport, configuration, logging and the command line: I/O without deep state. RPC reads are lookups that may fail.
- Key derivation, encryption, signatures and script analysis: child validity and addresses are oracles; recovery and allocation assume that every branch has infinitely many children at which the search for a valid one stops.
- Manager locking and the choice between private and public account keys in nextAddresses and extendAddresses: only index allocation is modelled.
- ChainClient.LokidClient.FilterBlock: models the two connect notifications only, with block notifications switched on (shouldNotifyBlocks); transaction filtering and the expiry of unconfirmed transactions are not part of this model.
- The reorganisation branch inside LokidClient.rescan (chain/lokid_client.go:1007-1061): it never steps its height back, so height and block drift apart there.
- What rolling back the transaction store in disconnectBlock does to it: wtxmgr is not part of this model, only whether it succeeds.
- Recovery.BranchRecoveryState.ExtendHorizon: does not model uint32 wrap-around of the horizon, which would need some 2^32 derived children.
- The neutrino client's and the btcd-style client's fetching of compact filters: a filter match is an answer of the backend that may also be a failure.
- Recovery state is created for the scopes given at the start; scopes added lazily while recovering are not modelled.
- Allocator.ScopedKeyManager.NextAddresses: assumes that fewer than 2^32 indexes have to be skipped.
- RecoveryDriver.RecoveryState.ExtendFoundAddresses: whether the address manager grants an extension is an answer of the key tree; RecoveredAccounts serves the requests on the account itself. Marking an address used does not fail.
- RecoveryDriver.RecoveryState.RecoverChain: says nothing of what a recovery that fails leaves in memory; the code gives up and its database transaction is rolled back.
- FailedReorgs.ReorgRepairs: one failed reorganisation, followed by one complete step; not several failed ones in a row, nor one whose fork lies below the stored window.
- Allocator.ScopedKeyManager.PutChainedAddress: one account; address rows are recorded by branch and index, their bytes are the subject of RowCodecs.
- NewRawAccount: it may overwrite an existing account number, so clean account-table claims do not hold of it.
- RowCodecs.SerializeDefaultAccountRow: asks, as the other inner serialisers do, for a total length below 2^32, because the code computes it in 32 bits and would fail on more.
- Running out of range means a slice beyond the end of the row; spare capacity behind a row's bytes is not modelled.
- RowSecrets.Namespace.DeletePrivateKeys: iteration is over a snapshot, and a row is never a nested bucket; deleting a key does not fail.
- MempoolUpdate.UpdateMempoolTxes: does not model shutdown, nor a failing request for the list, which ends the pass before it begins; its steps run without interference here, and interference is the subject of MempoolRuns.
- PrunedBlocks.PrunedBlockDispatcher.NewRequest: does not model a getdata message that overflows, which takes more than 50000 new hashes in one request.
- Peer management, banning and the query work manager of the pruned-block dispatcher.
- Shutdown in the queue, the rescan handlers and the dispatcher: items may be dropped when the program quits.
- Rescan.RescanBatch.Merge: outpoint maps are values, so that the code writes into the first job's map is not visible; a nil map there would panic in the code.
- CoinSelection.ArrangeCoins: sorts by insertion where the code calls the library's sort; RandomCoinSelector and fees are not modelled.
- ElectrumGap.Recover: a child that cannot be derived counts as a failed fetch, as in the code; the transactions themselves are opaque records.
- Timers, jitter and progress intervals.
