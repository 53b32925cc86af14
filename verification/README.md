# Verified models of the wallet core

This project models the parts of a light Bitcoin wallet in which state, branching and
arithmetic meet, and proves what they are for.

| module | what it models |
|---|---|
| `Bitcoin`, `Wrappers` | transactions with ideal hashes; notions that several modules share |
| `Ledger` | the wallet's caches as a replay of its transaction list: balance, unspent and spent outputs, invalid and pending transactions |
| `SpendGraph` | which transactions depend on which |
| `WalletStore` | the wallet object: its sorted transaction list and the loops that update the caches |
| `BlockStore`, `SavedBlocks` | stored blocks and chains; the slices of a chain that are saved, and rebuilding a chain from them |
| `ChainState`, `ChainTracker` | the step taken for each relayed block, with orphans, forks and re-organization, as a state machine; the tracker object, which drives the wallet |
| `Merkle`, `MerkleWire` | partial Merkle trees (BIP37): the two walkers without a position, a decoder that has one, and the wire format |
| `SyncTrace`, `SyncManager` | the sync managers of client and peer mode as state machines, and the event traces they emit |
| `Wire`, `Buffer`, `TxWire`, `TxWriter`, `TxReader` | numbers and variable-length integers on the wire; transactions written, read back and hashed |
| `CoinSelection`, `WalletFunds` | building a transaction: inputs, fee, change, and the most that can be sent; the coins of a wallet whose caches were recomputed |
| `AddressChain` | the generation of unused addresses |
| `BchChecksum`, `BchField`, `CashAddr` | the Bitcoin Cash address format and its checksum, also as arithmetic over a field |
| `WorkSum` | the proof-of-work sum of the Bitcoin Cash difficulty check |
| `ProtoBuf`, `PaymentProtocol` | payment request messages (BIP70) and the field codec below them |
| `PeerCallbacks` | completion callbacks of pings and mempool requests |

How things are modelled:

- A hash is ideal: a transaction or block identifier is the term of what was hashed. Two
  things with one identifier are therefore the same thing, and spending is acyclic. In
  `TxWire` a hash is the bytes that go into it.
- The source's structs that it updates are classes; each method states its whole new state
  through a function of the old one, and the theorems are lemmas about those functions. Sets
  and growing arrays are `set`, `map` and `seq` fields; fixed buffers are arrays.
- Each section under a lock is one step. Runs are sequences of steps in any order.
- A tracker step reports `ok == false` where the source has an assertion that fails because
  a walk down a chain runs out of stored blocks. `ChainState.IsSafe` says when that is, from
  the state before the step.
- Which transactions a block includes is a parameter of the tracker: those it contains
  (`BlockStore.CONTAINED`), for blocks with a partial Merkle tree that proves it, or those that
  were claimed for it by whoever relayed it (`ChainState.Claimed`), which demands nothing of
  the blocks (`ChainState.ClaimsAreBacked`).
- Memory can always be allocated, and buffers are shorter than 2^64 - 8 bytes.
- Amounts are natural numbers. `Ledger.TotalsAreBounded` bounds every running total by the
  gross receipts of the wallet, so 64 bits suffice when those fit. Where the source relies on
  wrap-around (`WorkSum`) or on a width (`Wire`, `ProtoBuf`, the checksum) it is written out.
- Clocks, random choices, the network and library calls are parameters.
- Every lemma switches automatic induction off: each induction is written out.

Where the code differs from what one would expect, the model follows the code, and a lemma
gives the input or the exact condition:

- An address text without a ':' loses its first character as if it were one. One error in such
  a text can go unnoticed, and exactly one (`CashAddr.ErrorsWithoutSeparator`,
  `CashAddr.ErrorGoesUnnoticed`).
- The size functions allow one byte for the number of items of a witness, so they are exact
  precisely up to 252 items (`TxWire.TransactionSize`).
- A serialization into a transaction buffer that is too short need not return 0: what does not
  fit is skipped. The result is 0 exactly when the rest does not fit either
  (`TxWriter.SerializeTo`, with an input in `TxWriter.ShortBufferIsFilled`).
- The estimate behind the maximum output amount covers a wallet of mixed coins only up to a
  certain mixture (`CoinSelection.EstimateIs`), and fewer coins can allow more than all of them
  (`CoinSelection.DustLowersMaximum`).
- Of a merkle block without transactions only the header comes back (`MerkleWire.MerkleBlockRoundTrips`).
- Parsing a payment message does not end exactly when an output field has no data, a message
  within it does not end, or a field starts where an earlier one did, to which only a length
  that makes the 64-bit offset wrap around can lead (`PaymentProtocol.ParsingDetailsEnds`,
  `ParsingOutputEnds`, `ParsingRequestEnds`; inputs in `NumberForOutput` and `LengthForNumber`).
- A partial Merkle tree that the validity check accepts can match transactions the block does
  not contain (`Merkle.ForeignMatchIsAccepted`). It cannot if the root walk does not set its
  cursor to SIZE_MAX, no hash is zero and the number of transactions, which the root does not
  commit to, is right (`Merkle.MatchesAreInBlock`). Of a wallet transaction that got its height
  from any other block a run guarantees only that it was claimed for the block
  (`BlockStore.ConfirmingKeepsIncluded`).
- A block relayed twice on top of the last checkpoint makes an assertion fail when the chain was
  restored above the checkpoint (`ChainState.RelayedTwiceFails`). None can fail when every stored
  chain goes down to one block at or below the last checkpoint (`ChainState.AnchoredRun`), as
  for a wallet younger than all checkpoints (`ChainState.FreshIsAnchored`).
- In peer mode connections can be lost that were never announced: exactly when the end of a sync
  finds the peers connected before any connection was noticed, and a loss is reported later
  (`SyncManager.ConnectionsPairedExactly`).

## Model

| member | source | states |
|---|---|---|
| `Ledger.BalanceIsConserved` | bitcoin/BRWallet.c:156-250 | at every step of a recomputation the balance is the value of the unspent outputs and equals received less sent, with no underflow; the history lists the balance after each transaction |
| `Ledger.TotalsAreBounded` | bitcoin/BRWallet.c:174-249 | no running total exceeds what the wallet's transactions ever paid to it |
| `Ledger.InvalidExactly` | bitcoin/BRWallet.c:177-189 | a transaction is invalid exactly when it is unconfirmed and conflicts with what came before it |
| `Ledger.InvalidMeans` | bitcoin/BRWallet.c:177-189 | that is, one of its inputs is an input of an earlier valid transaction or spends an earlier invalid one |
| `Ledger.PendingExactly` | bitcoin/BRWallet.c:196-217 | a transaction is pending exactly when it is unconfirmed, valid, and too large, dusty, replaceable, locked or dependent on a pending one |
| `Ledger.SpentExactly` | bitcoin/BRWallet.c:191-194 | the spent set is exactly the inputs of the transactions not found invalid |
| `Ledger.NoDoubleSpend` | bitcoin/BRWallet.c:177-194 | no unconfirmed transaction found valid shares an input with an earlier one found valid |
| `Ledger.UtxosExactly` | bitcoin/BRWallet.c:220-240 | with nothing pending the unspent outputs are the owned outputs of valid transactions less the inputs of valid transactions, each once |
| `Ledger.UsedExactly` | bitcoin/BRWallet.c:224-232 | the used addresses are those that valid, settled transactions pay |
| `Ledger.ConfirmingChangesNothing` | bitcoin/BRWallet.c:1003-1026 | skipping the recomputation is sound: with nothing pending, after confirming valid transactions a full recomputation over the re-sorted list gives what is cached |
| `Ledger.AllConfirmedAnyOrder` | bitcoin/BRWallet.c:156-250 | for confirmed transactions every order of the list gives the same caches |
| `SpendGraph.ClosuresAddUp` | bitcoin/BRWallet.c:804-868 | a transaction's dependents are its spenders and their dependents |
| `SpendGraph.FewerDependents` | bitcoin/BRWallet.c:804-868 | a spender has fewer dependents than what it spends, which is why removal ends |
| `WalletStore.InsertSeparates` | bitcoin/BRWallet.c:85-132 | the insertion point has no higher transaction before it and no lower one after it |
| `WalletStore.AscendingIsDescent` | bitcoin/BRWallet.c:87-105 | of unconfirmed transactions one is ascending to another exactly when it descends from it through unconfirmed ones |
| `WalletStore.InsertBehindSpent` | bitcoin/BRWallet.c:87-132 | nothing of its height at or behind the insertion point is spent by the new transaction, nor is an unconfirmed one there an ancestor of it, and what stands right before it does not spend it |
| `WalletStore.TiesByAddress` | bitcoin/BRWallet.c:107-124 | transactions that spending does not order are in the order of the addresses they pay |
| `WalletStore.MovedIsGood` | bitcoin/BRWallet.c:990-1020 | re-sorting a transaction with a new height keeps the list sorted, keeps its members, and keeps unconfirmed ones behind what they were behind |
| `WalletStore.TailUnconfirmed` | bitcoin/BRWallet.c:1032-1053 | in the sorted list, unconfirming a suffix unconfirms exactly what is above the height |
| `WalletStore.Wallet.FindConflict` | bitcoin/BRWallet.c:178-182 | the input loop decides whether the transaction conflicts with the caches |
| `WalletStore.Wallet.FindPending` | bitcoin/BRWallet.c:197-211 | the size, dust, lock time, replaceability and dependence tests together |
| `WalletStore.Wallet.AddOutputs` | bitcoin/BRWallet.c:220-232 | owned outputs join the unspent ones, their addresses become used, the balance grows by their value |
| `WalletStore.Wallet.SweepSpent` | bitcoin/BRWallet.c:234-240 | what is spent leaves the unspent outputs and the balance; the balance is again their value |
| `WalletStore.Wallet.ReplayOne` | bitcoin/BRWallet.c:174-246 | one turn of the loop is one step of the replay |
| `WalletStore.Wallet.UpdateBalance` | bitcoin/BRWallet.c:156-250 | the whole recomputation is the replay of the list |
| `WalletStore.Wallet.InsertTx` | bitcoin/BRWallet.c:119-132 | insertion at the point where the comparison stops |
| `WalletStore.Wallet.ContainsTx` | bitcoin/BRWallet.c:134-154 | the transaction pays the wallet or spends an output of its own |
| `WalletStore.Wallet.RegisterTransaction` | bitcoin/BRWallet.c:760-800 | a new wallet transaction joins the sorted list behind what it spends at its height, the order of the others is kept, the caches are recomputed; a foreign one is kept only while unconfirmed |
| `WalletStore.Wallet.GrowChains` | bitcoin/BRWallet.c:792-795 | the addresses generated after it extend the chains and the address set and disown no listed transaction |
| `WalletStore.Wallet.RemoveTransaction` | bitcoin/BRWallet.c:804-868 | removal ends, and when no spender is listed below what it spends it deletes exactly the transaction and its transitive spenders, in order |
| `WalletStore.Wallet.UpdateTransactions` | bitcoin/BRWallet.c:990-1029 | exactly the named transactions get the height and time, confirmed foreign ones are forgotten, the result lists the wallet's that changed, each once; the list stays sorted, and caches that agreed with a recomputation still do |
| `WalletStore.Wallet.SetTxUnconfirmedAfter` | bitcoin/BRWallet.c:1032-1053 | exactly the transactions above the height become unconfirmed, and the caches are recomputed if there were any |
| `BlockStore.ConfirmingKeepsIncluded` | bitcoin/BRPeerManager.c:1227-1235 | giving a main chain block's matched transactions its height keeps each confirmed wallet transaction included in the main chain block at its height, exactly when those it matches are included in it |
| `BlockStore.BranchHeightIs` | bitcoin/BRPeerManager.c:1307-1323 | going through a branch gives a transaction the height of the lowest block above the join that matches it, if there is one |
| `BlockStore.UnconfirmingKeepsIncluded` | bitcoin/BRPeerManager.c:1285-1331 | unconfirming above the fork point makes the agreement hold for the other branch |
| `BlockStore.ProvenIsBacked` | bitcoin/BRMerkleBlock.c:191-291 | what a block matches is in the block when its partial tree has the right root and number of transactions, no zero hash, and the cursor stays below SIZE_MAX |
| `ChainState.StepIsOk` | bitcoin/BRPeerManager.c:1135-1333 | every branch of a relayed block keeps stored blocks, orphans and tip in order |
| `ChainState.JoinIs` | bitcoin/BRPeerManager.c:1291-1303 | the fork meets the main chain exactly when the walk back finds a join, and that is the highest block the chains have in common, or the first one below the stored end of the old chain |
| `ChainState.NextIsFewer` | bitcoin/BRPeerManager.c:1335-1341 | the orphan that waited for a block is relayed next, with fewer orphans left to go on with |
| `ChainState.StepAdmits` | bitcoin/BRPeerManager.c:1083-1133 | what a step stores anew is the relayed block on top of a stored one, which passed difficulty and checkpoints, has transactions or is old, and comes while no filter update is pending; up to the last checkpoint only on the tip, and from a peer that is ahead no further than the next height |
| `ChainState.RunsKeepCheckpoints` | bitcoin/BRPeerManager.c:1121-1131 | in no run is a block stored that fails the difficulty test or differs from the checkpoint at its height |
| `ChainState.TipMovesUp` | bitcoin/BRPeerManager.c:1227-1333 | the tip moves only to the relayed block, only up, and to every block that extends it or ends a longer fork |
| `ChainState.StartsWaiting` | bitcoin/BRPeerManager.c:1196-1217 | a block that starts to wait is young or comes from a peer that is ahead |
| `ChainState.StopsWaiting` | bitcoin/BRPeerManager.c:1335-1341 | a waiting block that stops waiting is relayed next or is stored already |
| `ChainState.ReorganizedIs` | bitcoin/BRPeerManager.c:1291-1323 | after a re-organization what was above the join is unconfirmed unless the new branch matches it, and then has the height of the lowest block that does |
| `ChainState.CompleteChainIsSaved` | bitcoin/BRPeerManager.c:1246-1249 | when the chain is complete the slice saved goes down to the second transition below |
| `ChainState.TransitionsAreSaved` | bitcoin/BRPeerManager.c:1242-1244 | transition blocks are saved at once while the chain is far behind |
| `ChainState.RelaysKeep` | bitcoin/BRPeerManager.c:1135-1364 | relaying keeps the state in order, never lets the tip or the estimated height fall, and saves only slices |
| `ChainState.SavesCanBeGivenBack` | bitcoin/BRPeerManager.c:1343-1355 | what is handed over to be saved can be given back in any order |
| `ChainState.AnchoredRun` | bitcoin/BRPeerManager.c:1251-1303 | when every stored chain goes down to one block at or below the last checkpoint, no assertion fails in any run, and that stays so |
| `ChainState.FreshIsAnchored` | bitcoin/BRPeerManager.c:1484-1493 | the checkpoints alone, with the tip at the last of them, are such a store |
| `ChainState.RelayedTwiceFails` | bitcoin/BRPeerManager.c:1256-1259 | a run of two messages after a restore in which the assertion fails |
| `ChainState.ClaimsAreBacked` | bitcoin/BRPeerManager.c:1135-1148 | if what the blocks of a run claim counts as included, nothing is demanded of them |
| `ChainTracker.Tracker.ExtendChain` | bitcoin/BRPeerManager.c:1227-1249 | a block on the tip becomes the tip and confirms exactly its matched transactions; the others keep their heights |
| `ChainTracker.Tracker.FindAtHeight` | bitcoin/BRPeerManager.c:1256-1259 | the walk down the main chain finds a block exactly when one is stored at or below the height, and the block at the height if that is stored |
| `ChainTracker.Tracker.RefreshBlock` | bitcoin/BRPeerManager.c:1251-1271 | a block seen again is stored anew and confirms its transactions exactly when it is in the main chain; the assertion holds exactly when the main chain is stored down to its height |
| `ChainTracker.Tracker.Reorganize` | bitcoin/BRPeerManager.c:1291-1323 | the chain is taken over exactly when the fork meets the main chain or goes on below its stored end; wallet transactions above the join become unconfirmed unless a block of the new branch matches them, whose height they then have |
| `ChainTracker.Tracker.ForkChain` | bitcoin/BRPeerManager.c:1285-1331 | a block on a fork is stored, and changes the tip and the heights exactly when it is higher; the assertion holds exactly when the chains then meet |
| `ChainTracker.Tracker.SaveSlice` | bitcoin/BRPeerManager.c:1343-1355 | the slice handed over is as much of the chain as ends at a multiple of 2016, linked and with heights, the block at its tip |
| `SavedBlocks.TrimmedStartsAtTransition` | bitcoin/BRPeerManager.c:1351-1354 | the cut leaves nothing or a lowest height at a multiple of 2016, so the assertion holds |
| `ChainTracker.Tracker.PeerRelayedBlock` | bitcoin/BRPeerManager.c:1135-1364 | a relayed block and the orphans that waited for it lead to the chain, the saved slices and the heights of wallet transactions that the state machine gives, keep chain and wallet in agreement, and go through exactly when no walk runs out of stored blocks; it ends |
| `ChainTracker.Tracker.PeerRelayedTx` | bitcoin/BRPeerManager.c:912-991 | a relayed transaction joins the list exactly if it is new and the wallet's, with new addresses after it, and is dropped during a sync if it is foreign; heights stay and the agreement is kept |
| `ChainTracker.Tracker.ReceiveMessages` | bitcoin/BRPeerManager.c:1135-1364 | over every run of messages each confirmed wallet transaction is included in the main chain block at its height; the run goes through exactly when no walk runs out of stored blocks |
| `ChainTracker.SaveAndRestore` | bitcoin/BRPeerManager.c:1343-1512 | each slice handed over while a block is relayed, given back in any order, makes rebuilding end at its tip |
| `SavedBlocks.Restore` | bitcoin/BRPeerManager.c:1495-1513 | rebuilding from saved blocks ends on any input; for a saved slice in any order its tip is the tip and the chain below it is stored down to the last transition |
| `ChainTracker.Tracker.constructor` | bitcoin/BRPeerManager.c:1470-1515 | the tracker starts from the checkpoints alone at the last one that is old enough, and given a saved slice in any order at its tip |
| `ChainTracker.StartIsCheckpointed` | bitcoin/BRPeerManager.c:1484-1493 | the checkpoints are found at their heights, and the store starts with no other block there |
| `ChainTracker.StartingPointIs` | bitcoin/BRPeerManager.c:1492-1493 | the tip starts at the last checkpoint that is half a week older than the wallet, or the first |
| `Merkle.ComputeCeilLog2` | bitcoin/BRMerkleBlock.c:37-43 | the bit loop computes the rounded-up logarithm |
| `Merkle.CeilLog2Bounds` | bitcoin/BRMerkleBlock.c:37-43 | a row of n nodes needs that many levels and no fewer |
| `Merkle.RootR` | bitcoin/BRMerkleBlock.c:247-270 | the root walker with moving cursors computes the root walk |
| `Merkle.TxHashesR` | bitcoin/BRMerkleBlock.c:191-214 | the match walker collects the matches of the match walk, or counts them |
| `Merkle.TxHashes` | bitcoin/BRMerkleBlock.c:219-226 | the number of matches, or as many of them as there is room for |
| `Merkle.IsValid` | bitcoin/BRMerkleBlock.c:275-291 | what the validity check still tests: root and time |
| `Merkle.TreeHashIsMerkleRoot` | bitcoin/BRMerkleBlock.c:45-53 | the hash of the tree is the protocol's Merkle root, computed row by row with the last hash of an odd row doubled |
| `Merkle.Decodes` | bitcoin/BRMerkleBlock.c:191-270 | both walkers, anywhere in an encoding, consume exactly what a decoder that knows its position does |
| `Merkle.DecodesStandardEncoding` | bitcoin/BRMerkleBlock.c:191-270 | for every list of distinct transactions and every match predicate the walkers get the Merkle root and exactly the matches in block order, and use up the hashes |
| `Merkle.MissingRightBranch` | bitcoin/BRMerkleBlock.c:260-261 | a missing right child coincides with the end of the hashes |
| `Merkle.MatchesAreCommitted` | bitcoin/BRMerkleBlock.c:191-270 | for any input without zero hashes, unless the root walk sets its cursor to SIZE_MAX both walks consume the same and every match is a leaf at full depth that the computed root commits to |
| `Merkle.MatchesAreInBlock` | bitcoin/BRMerkleBlock.c:191-291 | under that condition, with the root and the number of a list of transactions, every match is on the list |
| `Merkle.ForeignMatchIsAccepted` | bitcoin/BRMerkleBlock.c:275-291 | an accepted block of five transactions that matches another one |
| `MerkleWire.MerkleBlockRoundTrips` | bitcoin/BRMerkleBlock.c:101-187 | parsing a serialized block gives the same block exactly when it has transactions or no tree; the hash commits to the header bytes |
| `MerkleWire.SerializeTo` | bitcoin/BRMerkleBlock.c:151-187 | the length asked for, or all bytes, or nothing and 0 |
| `SyncTrace.UnbrokenIsSessions` | bitcoin/BRWalletManager.c:2143-2285 | an unbroken trace is a prefix of connections with whole syncs in them |
| `SyncTrace.UnbrokenPairsAreValid` | bitcoin/BRWalletManager.c:2143-2285 | all adjacent events of an unbroken trace, height updates included, are in the table of valid pairs |
| `SyncTrace.ValidPairsAreUnbroken` | bitcoin/BRWalletManager.c:2143-2285 | and of connections and whole syncs the table allows nothing else |
| `SyncManager.ClientRunsKeepInv` | bitcoin/BRSyncManager.c:915-1539 | in every interleaving heights stay ordered, every height below the synced one lies in a completed range, and the batches of a scan are disjoint and add up to the known addresses |
| `SyncManager.CompletedWereAnswered` | bitcoin/BRSyncManager.c:1208-1311 | a range counts as completed only by a successful answer under the request id of its scan that left no address to ask for |
| `SyncManager.SyncedMeansAnswered` | bitcoin/BRSyncManager.c:1208-1311 | in every run each height from the initial to the synced one lies in a range for which the client reported success |
| `SyncManager.AnswersDo` | bitcoin/BRSyncManager.c:1208-1311 | an answer to the scan ends the connection if it failed, asks for exactly the new addresses if there are any, and otherwise ends the scan at its last height |
| `SyncManager.UpdatesAsk` | bitcoin/BRSyncManager.c:1314-1385 | an update asks for all addresses from the synced height to the network height, and at least for a day of blocks |
| `SyncManager.RescansAskFromDepth` | bitcoin/BRSyncManager.c:989-1050 | after a rescan the next request starts at or below the depth asked for, down to the initial height |
| `SyncManager.ConnectionIs` | bitcoin/BRSyncManager.c:915-1311 | only connecting, disconnecting and a failed answer change the connection, and without one nothing else has an effect |
| `SyncManager.NetworkHeightOnlyGrows` | bitcoin/BRSyncManager.c:1100-1131 | the network height never falls in a run |
| `SyncManager.ClientTraces` | bitcoin/BRSyncManager.c:915-1385 | in every run the trace is a prefix of sessions and all adjacent events are valid pairs |
| `SyncManager.ClientManagerKeepsInv` | bitcoin/BRSyncManager.c:915-1539 | the invariant holds of every manager object, whatever was called on it |
| `SyncManager.ClientSyncManager.ConnectLocked` | bitcoin/BRSyncManager.c:916-943 | connecting is its step of the state machine |
| `SyncManager.ClientSyncManager.DisconnectLocked` | bitcoin/BRSyncManager.c:946-986 | disconnecting is its step |
| `SyncManager.ClientSyncManager.ScanToDepthLocked` | bitcoin/BRSyncManager.c:989-1050 | rescanning is its step, lowering the synced height within bounds |
| `SyncManager.ClientSyncManager.AnnounceGetBlockNumber` | bitcoin/BRSyncManager.c:1100-1131 | a block number announcement is its step |
| `SyncManager.ClientSyncManager.UpdateTransactionsLocked` | bitcoin/BRSyncManager.c:1314-1385 | starting a scan is its step |
| `SyncManager.ClientSyncManager.AnnounceGetTransactionsDone` | bitcoin/BRSyncManager.c:1208-1311 | the end of a batch is its step: failure, next batch or end of the scan |
| `SyncManager.ClientSyncManager.UpdateAddressSet` | bitcoin/BRSyncManager.c:2054-2078 | the addresses not asked for before, and the grown set of known ones |
| `SyncManager.PeerRunsAlternate` | bitcoin/BRSyncManager.c:1703-1938 | for any order of callbacks a sync is running exactly when the trace says so, and the network height never falls |
| `SyncManager.PeerScanIs` | bitcoin/BRSyncManager.c:1703-1938 | a full scan goes on from a start to a stop or a loss, and its progress is announced while it does |
| `SyncManager.AlternationMeans` | bitcoin/BRSyncManager.c:1823-1938 | between two starts there is a stop and between two stops a start |
| `SyncManager.ConnectionsPairedExactly` | bitcoin/BRSyncManager.c:1703-1938 | connections and losses are announced in pairs exactly unless the end of a sync finds the peers connected unnoticed and a loss is reported later; without that the announced connection is the actual one |
| `SyncManager.SilentGainCanBreak` | bitcoin/BRSyncManager.c:1891-1896 | after such a sync the next report of a loss breaks the pairs |
| `SyncManager.PeerManagerAlternates` | bitcoin/BRSyncManager.c:1703-1938 | both hold of every manager object, whatever callbacks it got |
| `SyncManager.ConnectionsMayGoUnannounced` | bitcoin/BRSyncManager.c:1893-1938 | a run in which a connection is lost that was never announced |
| `SyncManager.PeerSyncManager.SyncStartedCallback` | bitcoin/BRSyncManager.c:1823-1877 | the start callback is its step |
| `SyncManager.PeerSyncManager.SyncStoppedCallback` | bitcoin/BRSyncManager.c:1879-1938 | the stop callback is its step |
| `SyncManager.PeerSyncManager.TickTock` | bitcoin/BRSyncManager.c:1703-1769 | the periodic check is its step |
| `SyncManager.PeerSyncManager.TxStatusUpdate` | bitcoin/BRSyncManager.c:1940-1980 | the status callback is its step |
| `Wire.VarIntRoundTrips` | support/BRAddress.c:39-110 | every 64-bit number is read back as written, with its length, whatever follows |
| `Wire.CompactSizeIs` | support/BRAddress.c:70-105 | the marks and widths of variable-length integers |
| `TxWire.TransactionRoundTrips` | bitcoin/BRTransaction.c:397-503 | parsing a serialized transaction, whatever follows it, gives the fields it carries; txHash commits to the serialization without witnesses and wtxHash to all of it |
| `TxWire.ParsedIsWhole` | bitcoin/BRTransaction.c:397-495 | whatever is parsed has inputs with whole hashes, and hashes itself exactly if it is signed |
| `TxWire.WitnessHasItsItems` | bitcoin/BRTransaction.c:459-468 | counting the items of a witness and measuring that many items agree |
| `TxWire.SizesAre` | bitcoin/BRTransaction.c:560-617 | the computed sizes of a signed transaction against the bytes written, to the byte |
| `TxWire.TransactionSize` | bitcoin/BRTransaction.c:560-587 | of a signed transaction never more than the serialized length, and equal to it exactly when no witness has more than 252 items |
| `TxWire.TransactionVSize` | bitcoin/BRTransaction.c:590-617 | the virtual size BIP141 defines from the lengths with and without witnesses |
| `TxWriter.PutInput` | bitcoin/BRTransaction.c:111-131 | an input's bytes at the offset if they fit, a signature being replaced by the script and the amount while there is none |
| `TxWriter.PutOutputs` | bitcoin/BRTransaction.c:170-186 | the outputs' bytes at the offset if they fit |
| `TxWriter.CountItems` | bitcoin/BRTransaction.c:333-336 | the number of items of a witness |
| `TxWriter.SerializeTo` | bitcoin/BRTransaction.c:265-352 | without a buffer the length needed; with a large enough one the serialization; with a short one what does not fit is skipped, and the result is 0 exactly when the rest does not fit either |
| `TxWriter.PastAllIs` | bitcoin/BRTransaction.c:265-352 | what is written to a short buffer is no longer than the serialization, and where that fits nothing is skipped |
| `TxWriter.ShortBufferIsFilled` | bitcoin/BRTransaction.c:111-131 | ten bytes for a transaction with one input: the result is 10 |
| `TxWriter.ShortBufferSkipsOutputs` | bitcoin/BRTransaction.c:170-186 | outputs that do not fit are skipped together |
| `TxReader.ReadInputs` | bitcoin/BRTransaction.c:422-443 | the input loop, which stops behind the end of the buffer |
| `TxReader.ReadWitnesses` | bitcoin/BRTransaction.c:459-471 | the witness loop sets each input's witness if the buffer holds it |
| `TxReader.ParseFrom` | bitcoin/BRTransaction.c:397-495 | the parser with its loops computes the parse the round trip is about, on every buffer |
| `CoinSelection.FeeIsBetween` | bitcoin/BRWallet.c:46-52 | the fee pays a satoshi a byte and the wanted rate, and less than a hundred satoshi more |
| `CoinSelection.CreateTx` | bitcoin/BRWallet.c:611-701 | the fewest coins, in order, that are enough are taken; it is refused for lack of funds only when all coins fall short |
| `CoinSelection.BuiltIsSound` | bitcoin/BRWallet.c:636-701 | inputs pay for outputs and a fee that is enough for the final size; change exceeds the minimum; without change the excess over the computed fee does not |
| `CoinSelection.InputsAreCoins` | bitcoin/BRWallet.c:636-641 | the inputs are distinct unspent outputs of the wallet with their amounts and scripts |
| `CoinSelection.CreatedIsSound` | bitcoin/BRWallet.c:611-701 | whatever the selection builds spends distinct unspent outputs of the wallet, the first that are enough; the fee is enough for its final size and less than 100 satoshi above the computed one with room for change, and change up to the minimum besides; change is above the minimum |
| `CoinSelection.RefusedWhenShort` | bitcoin/BRWallet.c:686-690 | it is refused only when all coins fall short |
| `CoinSelection.TooLargeWithAll` | bitcoin/BRWallet.c:643-667 | it is too large only when the transaction with all coins is |
| `CoinSelection.RestIsRound` | bitcoin/BRWallet.c:677-682 | the fee is rounded so that a multiple of 100 satoshi stays behind |
| `CoinSelection.MinOutputIs` | bitcoin/BRWallet.c:1184-1194 | the least amount is 546 satoshi, in proportion to the fee rate and rounded up |
| `WalletFunds.WalletFundsAreCoins` | bitcoin/BRWallet.c:611-641 | after a recomputation with nothing pending the wallet's unspent outputs are different coins that are worth its balance |
| `CoinSelection.ShuffleOutputs` | bitcoin/BRTransaction.c:543-557 | shuffling permutes the outputs |
| `CoinSelection.MaxOutputAmount` | bitcoin/BRWallet.c:1196-1224 | the loop from the last unspent output computes funds less the estimated fee |
| `CoinSelection.EstimateIs` | bitcoin/BRWallet.c:1218-1219 | the estimated size covers spending all coins exactly for the stated mixtures of coins |
| `CoinSelection.MaximumCanBeSent` | bitcoin/BRWallet.c:1196-1224 | every positive amount up to the maximum can be sent despite the rounding of the fee |
| `CoinSelection.MoreCannotBeSent` | bitcoin/BRWallet.c:1196-1224 | from coins without witnesses no more is sent to a 25-byte script than the maximum for the coins spent, which is the maximum for all where fewer do not allow more |
| `CoinSelection.DustLowersMaximum` | bitcoin/BRWallet.c:1196-1224 | two coins of which one alone allows more |
| `CoinSelection.OneKindIsCovered` | bitcoin/BRTransaction.c:603-614 | wallets with coins of one kind are always covered |
| `AddressChain.Addresses.UnusedAddrs` | bitcoin/BRWallet.c:332-389 | the gap of unused addresses right after the last used one is returned, and the set of all addresses is the union of both chains whether or not the array moved |
| `AddressChain.Addresses.Generate` | bitcoin/BRWallet.c:344-358 | generation ends and adds no more than the gap takes |
| `AddressChain.GeneratingAgainAddsNothing` | bitcoin/BRWallet.c:332-389 | generating again adds nothing |
| `BchChecksum.PolymodIsLinear` | bcash/BRBCashAddr.c:38-40 | the checksum step is linear |
| `BchChecksum.PolymodIsInjective` | bcash/BRBCashAddr.c:38-40 | the checksum step is injective on 40-bit states |
| `BchChecksum.BurstsAreDetected` | bcash/BRBCashAddr.c:38-40 | streams that differ only within eight neighbouring symbols never have the same checksum |
| `BchChecksum.ChecksumCompletes` | bcash/BRBCashAddr.c:126-128 | with the eight appended symbols every stream ends in the state 1 |
| `BchField.FeedIsTimesXPlus` | bcash/BRBCashAddr.c:38-40 | feeding a symbol multiplies by x and adds the symbol, modulo the specified polynomial over the field of 32 elements |
| `BchField.ChecksumIsRemainder` | bcash/BRBCashAddr.c:38-40 | the checksum of a stream is its remainder |
| `CashAddr.RegroupingRoundTrips` | bcash/BRBCashAddr.c:79-82 | bytes regrouped into symbols and back are the same bytes |
| `CashAddr.EncoderShifts` | bcash/BRBCashAddr.c:117-123 | the encoder's shifts pick the symbols out of the bit stream |
| `CashAddr.DecoderShifts` | bcash/BRBCashAddr.c:79-82 | or-ing a symbol in regroups one symbol more |
| `CashAddr.AddressRoundTrips` | bcash/BRBCashAddr.c:43-132 | decoding an encoded address gives the prefix and the 21 bytes, for every lower-case prefix of at most 11 characters |
| `CashAddr.AcceptedAsSpecified` | bcash/BRBCashAddr.c:43-91 | an accepted text has the form, length and remainder of the specification, digits and prefix taken as it takes them |
| `CashAddr.RejectedAsSpecified` | bcash/BRBCashAddr.c:43-91 | one of the right form and length is accepted exactly if the remainder is right |
| `CashAddr.DigitsAreOfCharset` | bcash/BRBCashAddr.c:97 | the digits are the specified characters in their order |
| `CashAddr.BurstsAreRejected` | bcash/BRBCashAddr.c:43-91 | replacing up to eight neighbouring symbols of an accepted address by others is rejected |
| `CashAddr.SymbolErrorsAreRejected` | bcash/BRBCashAddr.c:43-91 | in an accepted text with a separator, replacing one symbol by any character that is not the same symbol, a ':' included, is rejected |
| `CashAddr.ErrorsWithoutSeparator` | bcash/BRBCashAddr.c:43-91 | in an accepted text without a separator it is rejected unless the second of 43 characters, a zero symbol, becomes a ':' after a first one that adds nothing |
| `CashAddr.ErrorGoesUnnoticed` | bcash/BRBCashAddr.c:43-91 | there is such a text |
| `CashAddr.EncodeTo` | bcash/BRBCashAddr.c:94-132 | the encoder with its loops and buffers writes the encoded address, or nothing for a bad prefix |
| `CashAddr.DecodeFrom` | bcash/BRBCashAddr.c:43-91 | the decoder with its loops and buffers writes what the address decodes to, or nothing |
| `WorkSum.MedianBlock` | bcash/BRBCashParams.c:100-110 | of a block, its parent and its grandparent the one with the median time, exactly when all three are known |
| `WorkSum.GoDown` | bcash/BRBCashParams.c:126-128 | the block 145 below, if all on the way are known |
| `WorkSum.WalkEnds` | bcash/BRBCashParams.c:123-137 | from the upper median the lower one is 142 to 146 blocks down |
| `WorkSum.AddWork` | bcash/BRBCashParams.c:138-147 | one turn keeps the sum within its bounds; the overflow loop runs at most once |
| `WorkSum.CompactForm` | bcash/BRBCashParams.c:138-140 | a target is exponent, sign bit and mantissa of 23 bits |
| `WorkSum.SumWork` | bcash/BRBCashParams.c:137-150 | the walk ends, and the sum never exceeds the exact work and falls short of it by less than n + 1 units of its final exponent |
| `WorkSum.WorkBelow` | bcash/BRBCashParams.c:122-150 | ends found exactly when 147 blocks below are known, then the bounds on the sum between them |
| `ProtoBuf.VarRoundTrips` | bitcoin/BRPaymentProtocol.c:45-70 | base-128 integers: every 64-bit number is read back from where it was written |
| `ProtoBuf.ScanVar` | bitcoin/BRPaymentProtocol.c:45-57 | the reading loop |
| `ProtoBuf.PutVar` | bitcoin/BRPaymentProtocol.c:59-70 | the writing loop |
| `ProtoBuf.MessageComesBack` | bitcoin/BRPaymentProtocol.c:110-166 | a message written as a list of fields is read as that list |
| `ProtoBuf.OtherFields` | bitcoin/BRPaymentProtocol.c:110-124 | fields of eight and four bytes, and of unused wire types |
| `ProtoBuf.StuckExactly` | bitcoin/BRPaymentProtocol.c:110-124 | reading the fields of a message does not end exactly when one is stuck or starts where an earlier one did, and ends or goes wrong exactly when a field is reached that says so |
| `ProtoBuf.ComesBackByWrapping` | bitcoin/BRPaymentProtocol.c:72-81 | a field starts where an earlier one did only over a length at which the 64-bit offset wraps around |
| `PaymentProtocol.OutputComesBack` | bitcoin/BRPaymentProtocol.c:271-337 | outputs round trip |
| `PaymentProtocol.OutputOnTheWire` | bitcoin/BRPaymentProtocol.c:271-337 | the field numbers of outputs |
| `PaymentProtocol.DetailsOnTheWire` | bitcoin/BRPaymentProtocol.c:436-469 | the field numbers of details |
| `PaymentProtocol.RequestOnTheWire` | bitcoin/BRPaymentProtocol.c:572-602 | the field numbers of requests |
| `PaymentProtocol.DefaultsAre` | bitcoin/BRPaymentProtocol.c:390-569 | the defaults and the required fields |
| `PaymentProtocol.CutOffExactly` | bitcoin/BRPaymentProtocol.c:168-188 | when the record of an unknown field is cut off |
| `PaymentProtocol.KeepPlaces` | bitcoin/BRPaymentProtocol.c:186-202 | where a record is kept among others |
| `PaymentProtocol.KeepLosesNothing` | bitcoin/BRPaymentProtocol.c:186-202 | only a record of the same key is replaced |
| `PaymentProtocol.DetailsRoundTrip` | bitcoin/BRPaymentProtocol.c:352-469 | parsing serialized details ends and gives the same values, defaults and outputs |
| `PaymentProtocol.NewDetailsComeBack` | bitcoin/BRPaymentProtocol.c:352-469 | so for all newly built details |
| `PaymentProtocol.RequestRoundTrip` | bitcoin/BRPaymentProtocol.c:490-602 | parsing a serialized request gives the same request with its details |
| `PaymentProtocol.NewRequestComesBack` | bitcoin/BRPaymentProtocol.c:490-602 | so for all newly built requests |
| `PaymentProtocol.ParsingDetailsEnds` | bitcoin/BRPaymentProtocol.c:390-433 | parsing details does not end exactly when an output field has no data or an output that does not end, or a field starts where an earlier one did |
| `PaymentProtocol.ParsingOutputEnds` | bitcoin/BRPaymentProtocol.c:287-318 | parsing an output does not end exactly when a field starts where an earlier one did |
| `PaymentProtocol.ParsingRequestEnds` | bitcoin/BRPaymentProtocol.c:529-569 | parsing a request does not end exactly when parsing its details does not or a field starts where an earlier one did |
| `PaymentProtocol.LengthForNumber` | bitcoin/BRPaymentProtocol.c:72-81 | eleven bytes on which none of the three ends |
| `PaymentProtocol.EndsWithoutWrapping` | bitcoin/BRPaymentProtocol.c:390-433 | where no offset wraps around, only output fields keep parsing details from ending |
| `PaymentProtocol.NumberForOutput` | bitcoin/BRPaymentProtocol.c:296-310 | two bytes on which it does not end |
| `PaymentProtocol.SerializeDetails` | bitcoin/BRPaymentProtocol.c:436-469 | without a buffer exactly the number of bytes written into one that is large enough, 0 for one that is not |
| `PaymentProtocol.SerializeRequest` | bitcoin/BRPaymentProtocol.c:572-602 | the same for requests |
| `PeerCallbacks.RunConserves` | bitcoin/BRPeer.c:667-709 | at every point of every run each given callback was invoked once or still waits once |
| `PeerCallbacks.ExactlyOnce` | bitcoin/BRPeer.c:1101-1111 | when a connection has ended every callback given so far was invoked exactly once |
| `PeerCallbacks.PongsInOrder` | bitcoin/BRPeer.c:698-705 | the n-th accepted pong completes the n-th ping, hand-offs of the mempool callback included, with success, and the drain goes on in that order without |
| `PeerCallbacks.MempoolIsAskedOnce` | bitcoin/BRPeer.c:1457-1486 | a mempool request is accepted exactly if none was made since the last filter and none waits; otherwise it fails at once |
| `PeerCallbacks.MempoolWaitsInTime` | bitcoin/BRPeer.c:1020-1028 | while a mempool callback waits a time is set at which it moves behind the waiting pings |
| `PeerCallbacks.SuccessIsAPong` | bitcoin/BRPeer.c:667-709 | a callback is told success exactly for its pong |
| `PeerCallbacks.PeerKeepsCallbacks` | bitcoin/BRPeer.c:667-709 | the same of every peer object, whatever was called on it |
| `PeerCallbacks.Peer.SendPing` | bitcoin/BRPeer.c:1602-1614 | the ping is its step |
| `PeerCallbacks.Peer.SendMempool` | bitcoin/BRPeer.c:1457-1486 | the mempool request is its step, an immediate refusal included |
| `PeerCallbacks.Peer.AcceptInv` | bitcoin/BRPeer.c:398-407 | the first inventory is its step: the mempool callback moves to a ping |
| `PeerCallbacks.Peer.TimeMempoolOut` | bitcoin/BRPeer.c:1020-1028 | when the time to wait for the mempool is over, its callback moves to a ping |
| `PeerCallbacks.Peer.SendFilterload` | bitcoin/BRPeer.c:1450-1455 | loading a filter allows another mempool request |
| `PeerCallbacks.Peer.AcceptPong` | bitcoin/BRPeer.c:667-709 | the pong is its step |
| `PeerCallbacks.Peer.EndConnection` | bitcoin/BRPeer.c:1095-1115 | the drain is the steps of one failed pong after another and the mempool callback last |

## Left out

- Sockets, threads, timers, logging, file storage and event queues; of them only the order of locked sections and callbacks is kept. Callbacks that call back into a peer are modelled as later steps.
- Signing, keys, scrypt, BIP38 and other cryptography; public keys and scripts enter as abstract functions.
- Bloom filters, false positive rates, sync percentages and local currency amounts, which are floating point.
- Ledger.BalanceIsConserved: the virtual size and the address of an output are fields of the modelled transaction, and amounts are unbounded; the bound is `Ledger.TotalsAreBounded`.
- WalletStore.Wallet.UpdateTransactions: the balance history and the totals may be stale after a skipped recomputation, as in the source, so agreement leaves them out; a batch update to the unconfirmed height is not claimed to keep the caches.
- WalletStore.Wallet.constructor: starts an empty wallet; the source can also start from given transactions.
- WalletStore.Wallet.GrowChains: the caches are not claimed to agree with a recomputation over the larger address set; the source does not recompute them either.
- WalletStore.Wallet.RemoveTransaction: removed transactions stay registered, as in the source.
- ChainTracker.Tracker.PeerRelayedBlock: rescans, block locators, peer scores, timeouts and false positives are not modelled.
- Merkle.IsValid: the proof-of-work test is not modelled because the source returns before it; 2^31 transactions or more are excluded because the logarithm loop would not end; the current time is unbounded.
- SyncManager.ClientRunsKeepInv: answers carry the identifiers of requests that were sent; submission results and the items of a batch are not modelled.
- TxWire.TransactionRoundTrips: signature pre-images other than the serialized transaction are not modelled, and lengths near 2^64, where an offset would wrap around, are outside the model.
- TxReader.ParseFrom: offsets are unbounded, so a length near 2^64 leads behind the buffer, where the source's offset would wrap around.
- CoinSelection.CreateTx: stops with `TooLarge` where the source starts over with a smaller amount, because nothing is seen to decrease in that recursion.
- CoinSelection.BuiltIsSound: at most 251 outputs and a change script of at most 25 bytes, which is what the source's estimate of 34 bytes for one more output allows for.
- AddressChain.Addresses.UnusedAddrs: address numbers are unbounded; the source counts them in 32 bits.
- CashAddr.EncodeTo: a prefix of 12 or 13 characters is excluded because the text would not fit the local buffer.
- WorkSum.WorkBelow: the second half of the check, which turns the sum into a target, is not modelled; it adds only scaling.
- ProtoBuf.ScanVar: of integers of more than ten bytes, for which the source shifts by more than 63 bits, only the end is modelled; a message with one counts as lost.
- ProtoBuf.StuckExactly: a message counts as lost, and is not followed further, where data outside the buffer is used or the record of an unknown field is cut off.
- PaymentProtocol.DetailsRoundTrip: unknown fields are kept as a list of records and not written; payments, acknowledgements, invoices and encrypted messages use the same codec and are left out.
- File service readers and writers, the sweeper's fee helpers, and wallet manager events other than the trace table are not modelled.
