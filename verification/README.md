# dcrros: a verified model of the chain follower and its databases

dcrros serves a Decred chain under the Rosetta API. It follows a node, and keeps in its own database the balance of
every account at every height and the unspent outputs of every account, undoing and redoing blocks whenever the node's
chain reorganises. This project models that core in Dafny and proves what it is for: whatever happened before, the
database says exactly what the chain of its tip says.

Verify with `dafny verify dfyconfig.toml`.

## What is proved

| Part | Modules | Main results |
|---|---|---|
| Block to operations | `BlockOps`, `Rosetta`, `RosettaCoins` | one op per owned input and output, in order; exactly when a block can be translated; reversal mirrors and cancels; served blocks regroup the ops exactly; balances and coins reconcile with served blocks |
| Coins | `Coins`, `Reversal`, `Consensus`, `ExampleChain` | a list is playable iff every coin's history alternates; exact conditions under which forward-order undo and forward-order disapproval leave the right coins; the server's coins against an independent ledger of consensus; conservation |
| Chain following | `Chain`, `Forks`, `Dcrd`, `Sync`, `ChainServer` | every committed state of every run is the state of some chain; rollback stops at the highest common ancestor; a switch succeeds exactly when it can |
| Databases | `BackendDb`, `MemDb`, `MemUtxos`, `Encoding`, `BadgerKeys`, `BadgerDb`, `Simulation`, `OutputSimulation`, `ServerSimulation` | both implementations refine one abstract database, answer alike and list the same outputs; replaying any run of the server on them gives the server's own state |
| Queues and codec | `Fetcher`, `Notifications`, `ConstructionTx` | in-order delivery up to the first error in every interleaving; each outcome of reading by the layout of the bytes; a round trip with its exact condition |

`Chain.OnChain(n, db, t, moves)` is the central notion: the database state `db` is the outcome of processing the chain
of node `n` that ends in block `t`, where `moves` lists all blocks that were connected and rolled back on the way. Tip,
processed blocks and balances are those of the chain, whatever the moves; the coins are those of the moves, op by op,
and those of the chain if every block that was rolled back rewinds. `ChainServer.Server` keeps a ghost log of every
state it ever committed, including those between the several transactions of one reorganisation. Its invariant is that
each of them is `OnChain`, that the log begins with the empty database, and that each entry follows from the one before
by connecting one block or by rolling back some; no call ever drops an entry. From there `Chain.HistoryIndependence`,
`Chain.RosettaReconciles`, `RosettaCoins.ServedCoinsReconcile`, `Consensus.BalanceIsLedger`, `Consensus.Conservation`
and `ServerSimulation.ReplayServer` say what a client may rely on.

`Consensus.LedgerTo` is a reference that does not depend on the order of operations: a block's own transactions apply
to the coins of its parent, and the regular transactions of a disapproved parent never happened. Stored balances
always equal the totals of this ledger. The server's coins equal it exactly under the conditions listed below.

## Premises

- The node is a fixed tree of blocks (`ValidNode`): every block but genesis is one above its parent, all transactions
  are indexed by hash and none spends its own output (a hash commits to its inputs), heights fit in 32 bits. The server
  relies on the node for consensus (backend/server.go:100-103). A request to the node may fail at any time; the ghost
  field `failures` counts such requests. Error clauses read "a request failed during this call, or ...", and success
  always means that none did.
- Properties of coins exclude the treasury, which is not backed by outputs (types/block.go:192-198, 257-260). What they
  assume of the node is `ConsensusValid`, stated on the ledger: own transactions spend only unspent outputs and create
  only new ones, and a block's stake transactions share no coin with its regular ones (a disapproval takes back only
  the latter). Served coin identifiers lack the tree of an outpoint, so reconciling them also assumes that transactions
  are in the tree of their type and that inputs name the tree of what they spend (`RosettaCoins.TreesMatch`).
  `ExampleChain` exhibits chains of every length that satisfy all this, with a spent coin and a disapproval.
- A database transaction is a working copy that replaces the state when it succeeds and vanishes when it fails, as the
  contract of `Update` says (backend/backenddb/interface.go:103-106). MemDB writes rollbacks through before commit
  (backend/internal/memdb/memdb.go:211-214), so its results are about transactions that succeed and that only store or
  only roll back.
- Account strings contain neither NUL nor `/` (types/address.go:22-35); this is `Clean`, needed by the Badger keys.
- Script-to-account conversion, transaction type detection and the wire encoding are parameters.

## Where the code does not do what one might expect

- interface.go:53-54 documents `Balance` as a balance "higher than" the height. Both implementations return the latest
  balance *not above* it, and so does the model.
- Rolling back replays a block's ops in forward order. For a playable list this is exact if and only if no coin is
  touched a positive even number of times (`Coins.UndoRestores`). In terms of consensus, on a chain whose coins are
  right up to the parent, a block rewinds if and only if it touches every coin of its own transactions an odd number of
  times, its reversal of the parent included (`Consensus.RewindsAt`). `ExampleChain.RollbackLeavesCoin` gives chains in which a payment is received and passed on
  within one block: rolling that block back leaves the payment listed for an account whose balance is zero.
- Disapproving a parent replays its regular transactions in forward order too, so the same happens without any
  rollback, when the disapproving block is connected (`ExampleChain.DisapprovalLeavesCoin`). The reversal fits the coins
  the parent left if and only if every coin its regular transactions touch is touched an odd number of times by regular
  and stake transactions together (`Consensus.ReversalFits`); a coin not touched by the stake transactions is restored
  if and only if the regular ones touch it zero or an odd number of times (`Reversal.ReversalRestoresCoin`). Along a
  chain the server's coins are those of consensus at every block if and only if each disapproving block's own
  transactions touch again every coin its parent's regular ones touch a positive even number of times
  (`Consensus.CoinsAgree`). Balances are not affected (`Consensus.BalanceIsLedger`).
- MemDB's slice bucket does not look for duplicates. A commit keeps its index free of repetitions if and only if every
  staged output is new to its account or the account moves to the map bucket (`MemUtxos.Commit`); otherwise a later
  deletion leaves the output listed (`MemUtxos.ReaddedOutputSurvives`).
- The block right after genesis cannot be rolled back: the contract's state machine refuses, Badger passes on its store's
  key-not-found error and MemDB dereferences a missing record (`BadgerDb.Txn.RollbackBlock` and
  `MemDb.Database.Rollback` tell these outcomes apart). A switch to
  another chain therefore fails when the fork point is genesis and the database is not empty (`ReorgOutcome`).
- MemDB and Badger refuse the same blocks but not with the same code. At the start of a transaction the codes differ
  exactly for heights 1 to tip-1 and for height 0 on an empty database (`Simulation.RefuseBoth`); within a storing
  transaction, exactly for heights 1 to tip-1 other than the stored tip, and for height 0 while nothing is stored
  (`Simulation.RefuseInTx`).
- For negative heights Badger's reverse seek yields the tip balance instead of zero (`BadgerDb.NegativeHeightSeesTip`).
- A construction transaction survives the round trip if and only if its inputs are pairwise distinct
  (`ConstructionTx.RoundTrip`); `ConstructionTx.RepeatedInputLoses` gives an accepted one that does not.
- Reading a construction transaction allocates the announced script length before the bytes are known to be there, so
  a length beyond what the runtime can allocate panics; `ConstructionTx.Deserialize` has it as an outcome of its own.

## Model

| member | source | states |
|---|---|---|
| `BlockOps.AddTxIns` | types/block.go:181-238 | the input loop, stopping at the first error, performs exactly the steps of the inputs in order |
| `BlockOps.AddTxOuts` | types/block.go:240-291 | the output loop, skipping zero values and accountless scripts, performs exactly the steps of the outputs in order |
| `BlockOps.IterateTx` | types/block.go:293-312 | inputs before outputs, outputs before inputs when reversed; an error in the first half ends the iteration |
| `BlockOps.AdvanceAllEmits` | types/block.go:181-291 | an iteration succeeds iff no step fails; its ops are then the emitting steps, numbered 0, 1, 2, ... |
| `BlockOps.TxOpsExact` | types/block.go:151-313 | a translated transaction has exactly one op for each input and each output that belongs to an account, no other op, in increasing order, inputs first; whom an input or output belongs to is said by transaction type, tree and position: votes, coinbases and treasury bases have no debit for input 0, treasury spends debit the treasury, output 0 of treasury adds and treasury bases credits it |
| `BlockOps.TargetsAre` | types/block.go:165-174 | the outpoints fetched are those of the inputs that must be looked up, again by type, tree and position |
| `BlockOps.SpenderIsOwner` | types/block.go:192-268 | the input that spends an output finds its script, version and value, and debits the account that the output credited |
| `BlockOps.TxTranslatesIff` | types/block.go:151-313 | a transaction is translated iff every output to look up is in the index and every script concerned converts |
| `BlockOps.TxErrors` | types/block.go:151-313 | the iteration ends in a missing output iff one to look up is not in the index, otherwise at most in a script that does not convert |
| `BlockOps.BlockTranslatesIff` | types/block.go:326-372 | a block is translated iff all its transactions are and, if it disapproves its parent, the parent is given and its regular transactions translate; the previous block is asked for iff it disapproves and none is given |
| `BlockOps.BitZero` | types/block.go:25-30 | only bit 0 of the votes decides whether the parent is approved |
| `BlockOps.TreasuryName` | types/address.go:20-22 | the treasury account is "*treasury" |
| `BlockOps.TxOpsReal` | types/block.go:184-288 | every op carries the input or output at its index, and the signed amount of the output that it spends or creates |
| `BlockOps.BlockOpsReal` | types/block.go:326-372 | the same for all ops of a block, reversed ones included |
| `BlockOps.ReversedTxMirrors` | types/block.go:293-312 | reversing a transaction fails iff doing it fails, and emits the same ops with opposite amounts, outputs before inputs |
| `BlockOps.ReversalCancels` | types/block.go:337-370 | for every list of transactions and every account, reversed ops sum to the exact negation of the successful ones |
| `Rosetta.GroupOps` | types/block.go:432-450 | the closure that starts a transaction at op index 0 computes the grouping, never without a transaction at hand |
| `Rosetta.GroupBlock` | types/block.go:432-456 | grouping by op index recovers one served transaction per wire transaction with ops, in order, with the parent's hash on reversed ones |
| `Rosetta.GroupSum` | types/block.go:432-456 | grouping loses no amount of any account |
| `Rosetta.BlockNumbered` | types/block.go:337-356 | operations of each served transaction are numbered 0..n-1, and there is at least one |
| `Rosetta.BlockServed` | types/block.go:412-492 | the served transactions are those of the wire transactions with ops, in order (reversed ones of the parent first, then regular, then stake); operation k is a debit iff op k spends an input, is reversed iff its transaction is of the disapproved parent, and the transaction carries the wire transaction's hash, and the parent's hash iff reversed |
| `Rosetta.WireBlockToRosetta` | types/block.go:412-492 | fails iff the iteration fails, asking for the previous block iff bit 0 of the votes is clear above height 0 and none is given; serves types, statuses and hashes as `BlockServed` says; identifiers, parent identifiers (genesis is its own parent), numbered operations and amounts |
| `RosettaCoins.GroupChanges` | types/block.go:61-134 | the coin changes of the served operations are exactly the effects on non-treasury coins, with sign and action, seen as "hash:index" identifiers |
| `RosettaCoins.BlockRight` | types/block.go:101-105 | every coin a block touches is named with the tree of its transaction's type, so identifiers without a tree lose nothing |
| `RosettaCoins.ReplayTracks` | types/block.go:70-120 | a client that replays the identifiers of all served blocks holds exactly the coins of the chain, no two of them alike |
| `RosettaCoins.ServedCoinsReconcile` | backend/svc_account.go:330-379 | if the blocks rolled back rewind, the stored outputs of an account correspond one to one, with equal amounts, to the coins a client tracks from the served blocks |
| `Coins.LastTouchDecides` | backend/sync.go:40-86 | the last effect that touches a coin decides whether it is unspent; untouched coins keep their entry |
| `Coins.PlayableIs` | backend/svc_account.go:131-161 | a list spends only what is there and creates only what is not iff, coin by coin, additions and removals alternate |
| `Coins.PlayableAlternates` | backend/svc_account.go:131-161 | when spent outputs are present and created ones absent, presence flips with every touch |
| `Coins.UndoRestoresCoin` | backend/sync.go:40-86 | a coin survives forward-order undo iff it was touched zero or an odd number of times |
| `Coins.UndoRestores` | backend/sync.go:40-86 | undoing in forward order restores the map, amounts included, iff no coin is touched a positive even number of times |
| `Coins.UndosPlayable` | backend/sync.go:40-86 | the undo finds every coin it removes and misses every coin it adds iff the same condition holds |
| `Coins.PlayableConserves` | backend/svc_account.go:108-162 | a playable op list moves the total of an account's coins by exactly the sum of its op amounts |
| `Coins.RealOpsPriced` | backend/sync.go:40-79 | amounts, signs included, are the output's value in all four type/status cases |
| `Reversal.ReversedHistory` | types/block.go:337-363 | reversing a list of transactions in forward order does to every coin what the list did, in the same order, with additions and removals exchanged |
| `Reversal.ReversalPlayable` | types/block.go:337-363 | after regular effects d and stake effects s, reversing d is playable iff every coin of d is touched an odd number of times by d and s together |
| `Reversal.ReversalRestoresCoin` | types/block.go:337-363 | a coin that s does not touch is restored iff d touches it zero or an odd number of times |
| `Reversal.ReachesIff` | types/block.go:357-370 | a reversal followed by the block's own effects ends in the right coins iff the own effects touch again every coin reversed a positive even number of times |
| `Reversal.RewindsIff` | backend/sync.go:81-86 | rolling such a list back restores the coins iff every coin of the own effects is touched an odd number of times in all |
| `BackendDb.StoreKeepsConsistent` | backend/backenddb/interface.go:75-85 | storing succeeds iff the height is tip+1, and keeps heights exactly 1..tip with no balance above the tip |
| `BackendDb.RollbackKeepsConsistent` | backend/backenddb/interface.go:66-73 | rolling back succeeds iff hash and height are the tip's and the tip is at least 2, and keeps the same invariant |
| `BackendDb.StoreThenRollback` | backend/backenddb/interface.go:66-85 | rolling back a block just stored restores tip, processed blocks and all balances |
| `BackendDb.BalanceStored` | backend/backenddb/interface.go:53-58 | storing a block changes the listed accounts only, and only from its height on |
| `Chain.ChangedIsFold` | backend/svc_account.go:108-124 | the map a block accumulates holds, for each account it touches, the balance below plus the sum of the ops |
| `Chain.ConnectedOnChain` | backend/svc_account.go:87-173 | processing a block on top of its parent's state gives the block's state, its coins being those of the moves whatever was rolled back before |
| `Chain.DisconnectedOnChain` | backend/sync.go:18-90 | rolling back the tip gives its parent's state: balances always, coins as the moves give them, and right if all blocks rolled back so far rewind |
| `Chain.BlockUndoRestores` | backend/sync.go:18-90 | a playable block rewinds iff it touches no coin a positive even number of times |
| `Chain.BalanceAtHeight` | backend/svc_account.go:108-172 | the balance at every height is the sum of all ops up to that height of the chain |
| `Chain.HistoryIndependence` | backend/sync.go:245-265 | two states of the same tip agree on tip, processed blocks and balances at every height, whatever moves led to them, and on coins if all rollbacks rewind; processed hashes are the ancestor path 1..tip; balances are the fold of ops |
| `Chain.RosettaReconciles` | types/block.go:412-492 | the balance difference between consecutive heights is the sum of the account's operations in the served block, disapproving blocks included |
| `Chain.TipConservation` | backend/svc_account.go:108-162 | if the blocks actually undone rewind and the blocks of this chain are playable, the tip balance of a non-treasury account is the sum of its listed outputs |
| `Consensus.ReversalFits` | types/block.go:357-363 | reversing a parent fits the coins it left iff every coin of its regular transactions is touched an odd number of times by regular and stake transactions together |
| `Consensus.AgreesAt` | types/block.go:357-370 | on right coins, a block leaves the right coins iff its own transactions touch again what its parent's regular ones touch a positive even number of times |
| `Consensus.CoinsAgree` | backend/svc_account.go:108-162 | along a chain the server's coins are those of consensus at every block iff that holds of every block |
| `Consensus.PlaysAt` | backend/svc_account.go:131-161 | on right coins, all ops of a block fit, reversals included, iff its reversal touches no coin a positive even number of times |
| `Consensus.RewindsAt` | backend/sync.go:18-90 | on right coins, connecting and rolling back a block restores them iff it touches every coin of its own transactions an odd number of times |
| `Consensus.ConsensusSuffices` | backend/server.go:100-103 | consensus makes all op lists of a chain fit iff no disapproved block's regular transactions touch a coin a positive even number of times |
| `Consensus.LedgerConserves` | types/block.go:337-370 | the totals of the consensus ledger move exactly with the op sums, disapprovals included |
| `Consensus.BalanceIsLedger` | backend/svc_account.go:108-172 | whatever was rolled back or disapproved, the stored balance at the tip is the total of the account's coins in the consensus ledger |
| `Consensus.StoredIsLedger` | backend/svc_account.go:131-161 | the stored coins are those of the consensus ledger, if the chain's blocks are harmless and the undone ones roll back |
| `Consensus.SingleTouchSuffices` | backend/sync.go:81-83 | both conditions hold if no block touches a coin twice |
| `Consensus.Conservation` | backend/svc_account.go:108-162 | on a consensus-valid chain of harmless blocks, with undone blocks that roll back, the tip balance is the sum of the listed outputs |
| `ExampleChain.PremisesHold` | types/block.go:357-363 | chains of every length that mine coins, spend one and disapprove the spending block meet every premise of conservation and reconciliation |
| `ExampleChain.RollbackLeavesCoin` | backend/sync.go:81-83 | on consensus-valid chains of every length: a database that connects and rolls back a block with [coinbase, payment of an earlier coin, payment passed on] lists the payment afterwards, not before, for an account without balance |
| `ExampleChain.DisapprovalLeavesCoin` | types/block.go:357-363 | connecting a block that disapproves that block lists the payment, which is no coin of consensus, for an account without balance |
| `Forks.ForkPointIsHighest` | backend/sync.go:92-98 | the fork point is on both chains, and every block common to both is one of its ancestors |
| `Forks.PathDownIs` | backend/sync.go:129-147 | element i of the missing blocks is the target's ancestor i blocks below it |
| `Forks.DroppedIs` | backend/sync.go:149-171 | the moves of a rollback are exactly the old chain's blocks above the fork point, newest first |
| `Dcrd.UtxoCache.Update` | backend/svc_account.go:23-61 | every op keeps the cache equal to the node's outputs and touches one entry, added or removed as the op requires |
| `Dcrd.PrevOutsFetcher` | backend/svc_block.go:28-94 | with or without the cache the result is the node's outputs for all targets; it fails only for a missing output or a failed request |
| `Dcrd.FetchTxs` | backend/svc_block.go:49-72 | all requested transactions, or none |
| `Sync.Applier.Connect` | backend/svc_account.go:108-162 | the callback's balances and coins are the fold of the ops it was given, and the cache stays right |
| `Sync.Applier.Rollback` | backend/sync.go:40-79 | the rollback callback's coins are the forward-order undo of the ops it was given |
| `Sync.ApplyTx` | types/block.go:151-313 | one transaction is fetched, translated and applied, or an error has a cause |
| `Sync.IterateBlockOps` | types/block.go:326-372 | the callback has seen exactly the block's ops on success; errors have a cause |
| `Sync.UndoCoins` | backend/sync.go:18-84 | coins change by the forward-order undo of the tip block, reversals included; fails only with the node |
| `Sync.RollbackTipBlock` | backend/sync.go:18-90 | the state becomes the disconnected one; refused only at height 1 or for a failed request |
| `Sync.RollbackAbove` | backend/sync.go:114-127 | first loop: the tip comes down to the target's height, staying a chain's state |
| `Sync.WalkTargetDown` | backend/sync.go:129-147 | second loop: reaches the target's ancestor at the tip's height and lists the path, newest first |
| `Sync.RollbackToFork` | backend/sync.go:149-176 | third loop: ends at the fork point with the path down to it |
| `Sync.RollbackDbChain` | backend/sync.go:99-177 | terminates; on success the tip is the highest common ancestor, exactly the old chain's blocks above it were rolled back, in order, and missing is exactly the target's path above it; fails only for a request that failed meanwhile, an unknown target or a fork at genesis |
| `Sync.ConnectBlock` | backend/svc_account.go:108-173 | the working copy becomes the connected state, coins included, or an error has a cause; the cache stays right either way |
| `ChainServer.Server.PreProcessAccountBlock` | backend/svc_account.go:81-174 | succeeds iff the block extends the tip and can be translated (barring failed requests), committing one state; otherwise commits nothing |
| `ChainServer.Server.ProcessMissing` | backend/sync.go:204-240 | processes the missing blocks oldest first, one commit each, every commit one block above the one before |
| `ChainServer.Server.RollbackToCommon` | backend/sync.go:191-202 | the first Update of a reorganisation commits the fork point's state, or nothing |
| `ChainServer.Server.ReorgToParentOf` | backend/sync.go:184-241 | commits the fork point, rolling back exactly the old chain above it, then block by block up to the parent; succeeds iff the fork is not at genesis (or the database is empty) and the chain can be translated, unless a request fails meanwhile; keeps the log |
| `ChainServer.Server.SwitchChainTo` | backend/sync.go:245-265 | the same up to the block itself, whatever chain was held before; on success the tip is the block |
| `ChainServer.Server.HandleBlockConnected` | backend/sync.go:271-299 | blocks below the tip are ignored, all others become the tip by the commits of a reorganisation, also when requests fail; the log is kept |
| `ChainServer.Server.HandleBlockDisconnected` | backend/sync.go:301-330 | the tip is rolled back to its parent, other blocks change nothing, errors change nothing; the log is kept |
| `ChainServer.Server.PreProcessAccounts` | backend/svc_account.go:180-280 | leaves a stale chain for the main chain's block at the same height, then follows the next blocks to the last one, keeping the log; success means that no request failed, an error that one did, that the main chain has no block at the height, or that one of the switches cannot succeed; the cache agrees with the node at the end, also on errors |
| `ChainServer.Server.LeaveStaleChain` | backend/svc_account.go:197-219 | nothing happens to an empty database or if its tip is the main chain's block; otherwise that block becomes the tip, or a request failed, or the switch is refused for a reason given by the two chains |
| `ChainServer.Server.ProcessNext` | backend/svc_account.go:231-262 | the last block becomes the tip, or a request failed, or one of the switches is refused |
| `ChainServer.Server.CommitsConserve` | backend/svc_account.go:108-162 | conservation holds in every committed state of a run, including those within a reorganisation |
| `ChainServer.Server.HandleNotification` | backend/sync.go:271-330 | one notification: a connected block at or above the tip's height becomes the tip, a disconnected tip gives way to its parent, anything else leaves the tip; errors only for a failed request, a switch that cannot succeed, or a disconnected tip at height 1 |
| `ChainServer.Server.HandleNotifications` | backend/server.go:400-437 | over every sequence of notifications there are tips, from the one before to the one after, of which each follows from the previous one as its notification demands; handling stops short only where the next notification fails, for one of those reasons; the log only grows, and every state in it is a chain's state |
| `MemDb.Search` | backend/internal/memdb/memdb.go:103-106 | binary search finds the first element at or above a height |
| `MemDb.BalanceInSlice` | backend/internal/memdb/memdb.go:103-125 | picks the latest element not above the height, zero if there is none |
| `MemDb.OverlaidBalance` | backend/internal/memdb/memdb.go:90-125 | with the journal laid over the stored slice, the same for their concatenation |
| `MemDb.SplitIsBalance` | backend/internal/memdb/memdb.go:103-125 | what is picked from an increasing slice is the abstract balance at that height |
| `MemDb.MatchesSnoc` | backend/internal/memdb/memdb.go:158-175 | appending at a new height keeps the slice strictly increasing and matching |
| `MemDb.PoppedMatches` | backend/internal/memdb/memdb.go:221-236 | popping the last element keeps the slice matching the balances below the tip |
| `MemDb.Database.GetBalance` | backend/internal/memdb/memdb.go:90-125 | the abstract balance inside a transaction |
| `MemDb.Database.LastProcessedBlock` | backend/internal/memdb/memdb.go:127-133 | the abstract tip inside a transaction |
| `MemDb.Database.GetProcessedBlockHash` | backend/internal/memdb/memdb.go:177-190 | the abstract processed hash inside a transaction, or a missing height |
| `MemDb.Database.Store` | backend/internal/memdb/memdb.go:135-175 | accepts exactly the block that extends the tip and moves the view as the abstract database; exact condition of each refusal code |
| `MemDb.Database.Rollback` | backend/internal/memdb/memdb.go:194-245 | rolls the view back as the abstract database; tells exactly when it refuses, does nothing, or dereferences a missing record |
| `MemDb.Database.Commit` | backend/internal/memdb/memdb.go:356-370 | the view becomes the stored state |
| `MemUtxos.SwapRemove` | backend/internal/memdb/memdb.go:460-475 | removes the first occurrence by moving the last element into its place |
| `MemUtxos.SwapRemoveDistinct` | backend/internal/memdb/memdb.go:460-475 | without repetitions, exactly the one outpoint disappears |
| `MemUtxos.SwapRemoveKeeps` | backend/internal/memdb/memdb.go:460-475 | an outpoint stays listed after a deletion iff the slice repeated it |
| `MemUtxos.Journal.AddUtxo` | backend/internal/memdb/memdb.go:248-270 | the view of every account over every stored map changes by exactly this addition |
| `MemUtxos.Journal.DelUtxo` | backend/internal/memdb/memdb.go:273-295 | the view of every account over every stored map changes by exactly this deletion |
| `MemUtxos.ListUtxos` | backend/internal/memdb/memdb.go:298-330 | lists the view: the stored outputs as changed by the calls so far |
| `MemUtxos.Index.CommitAdds` | backend/internal/memdb/memdb.go:372-443 | adds to one account only, in one bucket: the map bucket iff it was in use or old and new outputs together are 12 or more, the single one iff the account was empty and gets one output; repetitions arise iff an addition was stored already and the account stays out of the map bucket |
| `MemUtxos.Index.CommitDels` | backend/internal/memdb/memdb.go:445-476 | deletes from one account only, exactly the given outpoints if none is repeated |
| `MemUtxos.Index.CommitDel` | backend/internal/memdb/memdb.go:450-475 | one deletion, for repeated outpoints as well |
| `MemUtxos.Commit` | backend/internal/memdb/memdb.go:372-476 | a commit lists exactly the view's outpoints; the index stays free of repetitions iff all additions were new, and then the stored map is the view |
| `MemUtxos.ReaddedOutputSurvives` | backend/internal/memdb/memdb.go:398-416 | adding an output twice and deleting it once leaves it listed |
| `Encoding.BigEndianSorts` | backend/internal/badgerdb/db_ops.go:53-61 | big-endian numbers of one width sort as byte strings the way they do as numbers |
| `BadgerKeys.KeyLayout` | backend/internal/badgerdb/db_ops.go:15-195 | the bytes of the keys of tip, balances, processed blocks and block accounts: prefix, account, separator, height in two's complement, most significant byte first |
| `BadgerKeys.UtxoKeyLayout` | backend/internal/badgerdb/db_ops.go:203-223 | the bytes of output keys: prefix, account, slash, hash, four bytes of index, one of tree |
| `BadgerKeys.AccountsAreClean` | types/address.go:20-35 | accounts of letters and digits, and the treasury, contain neither NUL nor slash |
| `BadgerKeys.ExtractorsInvert` | backend/internal/badgerdb/db_ops.go:63-65 | extracting height, outpoint or account from a key gives back what it was built from |
| `BadgerKeys.EncodeUnique` | backend/internal/badgerdb/db_ops.go:139-223 | different keys have different bytes, within and across the key families |
| `BadgerKeys.BlockAccountScan` | backend/internal/badgerdb/db_ops.go:172-201 | the prefix scan finds the accounts of exactly the asked height |
| `BadgerKeys.UtxoScan` | backend/internal/badgerdb/db_ops.go:203-275 | the prefix scan finds the outputs of exactly the asked account, even if one account string starts another |
| `BadgerKeys.BalanceKeysSort` | backend/internal/badgerdb/db_ops.go:53-61 | balance keys of one account sort by unsigned height |
| `BadgerKeys.SeekFindsAccount` | backend/internal/badgerdb/db_ops.go:67-100 | an accepted key is a balance of exactly the asked account, not above the height |
| `BadgerKeys.SeekStaysInAccount` | backend/internal/badgerdb/db_ops.go:67-100 | no other key sorts between two balance keys of an account |
| `BadgerDb.ValueLayout` | backend/internal/badgerdb/db_ops.go:102-137 | amounts are stored as 64-bit two's complement, most significant byte first; the tip record is the hash followed by the height |
| `BadgerDb.Txn.GetBalance` | backend/internal/badgerdb/db_ops.go:67-100 | the reverse seek returns the abstract balance at the height read as unsigned |
| `BadgerDb.Txn.LastProcessedBlock` | backend/internal/badgerdb/db_ops.go:114-137 | the abstract tip |
| `BadgerDb.Txn.GetProcessedBlockHash` | backend/internal/badgerdb/db_ops.go:139-170 | the abstract processed hash, or a missing height |
| `BadgerDb.Txn.BlockAccounts` | backend/internal/badgerdb/db_ops.go:185-201 | exactly the accounts recorded for a height, stale ones included |
| `BadgerDb.Txn.StoreBlock` | backend/internal/badgerdb/badgerdb.go:128-172 | stores or refuses as the abstract database, with its codes |
| `BadgerDb.Txn.RollbackBlock` | backend/internal/badgerdb/badgerdb.go:84-126 | rolls back as the abstract database: although account records are never removed, exactly the balances at the tip's height disappear; refuses with not-tip iff it is not the tip, and otherwise with the store's key-not-found error |
| `BadgerDb.Txn.PutUtxo` | backend/internal/badgerdb/badgerdb.go:174-181 | adds one coin and nothing else |
| `BadgerDb.Txn.RemoveUtxo` | backend/internal/badgerdb/badgerdb.go:183-190 | removes one coin and nothing else |
| `BadgerDb.Txn.ListAccountUtxos` | backend/internal/badgerdb/db_ops.go:253-275 | the decoded scan is exactly the account's outputs with their amounts |
| `BadgerDb.NegativeHeightSeesTip` | backend/internal/badgerdb/db_ops.go:67-100 | a negative height yields the tip balance, where the contract yields zero |
| `Simulation.StoreBoth` | backend/internal/memdb/memdb.go:135-175 | both databases accept or refuse a storing transaction together and reach the same state |
| `Simulation.RollbackBoth` | backend/internal/badgerdb/badgerdb.go:84-126 | both databases roll back the same blocks and reach the same state |
| `Simulation.RunBoth` | backend/backenddb/interface.go:103-106 | over every sequence of store-only and successful rollback-only transactions both are in the same abstract state |
| `Simulation.AskBoth` | backend/backenddb/interface.go:53-64 | in equal states both answer balance, tip and processed hash alike |
| `Simulation.RefuseBoth` | backend/internal/memdb/memdb.go:142-156 | at the start of a transaction, asked for a block that does not extend the tip both refuse; their codes, each stated exactly, differ iff the height is 1..tip-1, or 0 on an empty database |
| `Simulation.RefuseInTx` | backend/internal/memdb/memdb.go:142-156 | the same for every storing transaction, with the stored tip as the exception |
| `OutputSimulation.PlayableAddsNew` | backend/internal/memdb/memdb.go:398-416 | a list that is playable as far as an account goes adds only new outputs to it iff it touches none of its stored coins a positive even number of times |
| `OutputSimulation.BlockAddsNew` | backend/sync.go:40-86 | connecting and rolling back a block whose ordinary ops are playable and undo-safe add only new outputs to every ordinary account, whatever the block does to the treasury |
| `OutputSimulation.UpdateBoth` | backend/internal/memdb/memdb.go:339-479 | after one transaction of any additions and deletions both databases list the same outpoints, and MemDB's index holds the abstract outputs without repetitions iff each account gets only new outputs or ends up in the map bucket |
| `OutputSimulation.RunBoth` | backend/backenddb/interface.go:87-106 | over every run that keeps to that condition both databases hold exactly the coins of all calls applied in order; an account is in the map bucket iff some update would have made it list too many |
| `OutputSimulation.ListBoth` | backend/internal/badgerdb/badgerdb.go:192-195 | asked for an account's outputs both list those of the abstract state |
| `ServerSimulation.CommitsFollow` | backend/sync.go:193-241 | consecutive committed states of the server differ exactly by the database calls of one transaction: connecting a block, or rolling back a list of blocks |
| `ServerSimulation.UpdateAll` | backend/svc_account.go:87-173 | one such transaction, with balances read from and written to each database and outputs called op by op, takes MemDB and Badger to the same next state |
| `ServerSimulation.ReplayServer` | backend/sync.go:271-330 | replaying the transactions of any run of the server on MemDB and on Badger makes both hold the server's state |
| `ServerSimulation.Answer` | backend/backenddb/interface.go:52-101 | both then answer balances, tip, processed hashes and outputs as the server's abstract database |
| `Fetcher.Setup` | backend/sync.go:338-364 | worker i serves channel i modulo the concurrency, for any start height |
| `Fetcher.NextInvariant` | backend/sync.go:332-385 | every step keeps each worker in the window of heights not yet consumed, on its own channel |
| `Fetcher.DeliversInOrder` | backend/sync.go:332-385 | in every interleaving the k-th callback gets the reply for start+k, none skipped or repeated, none while stopped |
| `Fetcher.RepliesAreAnswers` | backend/sync.go:338-378 | a reply waiting on a channel is what the node answered, on that channel and for that height |
| `Fetcher.StopsAtError` | backend/sync.go:366-384 | a failed reply, a failed callback or a cancellation ends the loop with that error, after which the callback is never called; nothing else ends it, and every reply received without an error is passed on |
| `Fetcher.AwaitedHeightIsServed` | backend/sync.go:366-378 | the consumer always waits on the channel whose worker has, or is fetching, the next height |
| `Notifications.NextInvariant` | backend/server.go:246-305 | pending wake-ups equal queued notifications until cancellation and never exceed them |
| `Notifications.CancelledSince` | backend/server.go:246-255 | senders give up only after the context was cancelled |
| `Notifications.HandledInOrder` | backend/server.go:408-431 | in every interleaving notifications are handled once, in arrival order, and the empty-queue branch is never reached |
| `ConstructionTx.SerializedSize` | backend/svc_construction.go:276-286 | the precomputed size is the sum over the map, in any order |
| `ConstructionTx.Serialize` | backend/svc_construction.go:234-323 | accepts iff counts match and every input is present, with the error of the first failing check; size is exact for distinct inputs |
| `ConstructionTx.Deserialize` | backend/svc_construction.go:326-408 | exactly when each error, the panic and success occur, by the layout of the bytes: version byte, transaction, count, and records that are complete, cut short, or announce a script above 2^48 bytes; the reading loop computes the recursive reading |
| `ConstructionTx.RecordLayout` | backend/svc_construction.go:304-320 | eight bytes of amount and two of version, least significant first, then the script's length and bytes |
| `ConstructionTx.ScriptLimit` | backend/svc_construction.go:391-402 | a record with a script of up to 2^48 bytes reads back, a longer announced length panics |
| `ConstructionTx.WrittenIsAccepted` | backend/svc_construction.go:326-408 | version, transaction, count and one record per input, followed by anything, are accepted and yield the transaction with the last record of each input |
| `ConstructionTx.AcceptedIsWritten` | backend/svc_construction.go:326-408 | with canonical codecs nothing else is accepted |
| `ConstructionTx.SerializedReadsBack` | backend/svc_construction.go:234-408 | reading what was written gives the transaction with the previous outputs of its inputs |
| `ConstructionTx.RoundTrip` | backend/svc_construction.go:234-408 | the round trip is the identity iff the inputs are pairwise distinct |
| `ConstructionTx.RepeatedInputLoses` | backend/svc_construction.go:234-251 | an accepted transaction with a repeated input that does not survive the round trip |
| `ConstructionTx.SizeIsExact` | backend/svc_construction.go:276-320 | for distinct inputs the precomputed size is the number of bytes written |

## Left out

- Configuration, logging, signals, process control, sync status reporting and the end-to-end test program: plumbing.
- The RPC client, connection checks, wait loops and LRU caches of backend/dcrd.go: a lookup that may fail stands for them.
- Signatures, script parsing and base58 addresses: foreign libraries; script-to-account conversion is a parameter.
- Transaction type detection and the wire codec of transactions and varints: not in this repository; parameters with a stated decoding law.
- The hex layer around the construction format, and the rest of the construction API: they would only add easy members.
- Rosetta metadata (scripts, versions, timestamps, original hashes), `MempoolTxToRosetta`, and the network, mempool, error and amount tables: easy members.
- Closures: `IterateBlockOps` calls an `Applier` object, and `WireBlockToRosetta` groups the finished op list, where the source passes a function; the iterator's one shared `Op` becomes a value per op.
- Concurrent transaction fetches under a mutex in `prevOutsFetcher`: `FetchTxs` asks in some arbitrary order, one request at a time.
- The hashes that `GetBlockHash` answers in `preProcessAccounts` are parameters of `PreProcessAccounts`; the parallel fetch that feeds its loop is modelled separately in `Fetcher`.
- Badger's internals: an ordered map with atomic updates, reverse seek and prefix iteration.
- MemDB transactions that fail after rolling back a block, or that mix storing and rolling back: the source writes through there, so nothing useful holds.
- MemDB is split: `MemDb` holds balances and processed blocks, `MemUtxos` the output index; they share no state in the source except the transaction object. Copying a map entry by entry is written as a map union.
- `Close`, and use of a database after it.
- Treasury entries in the output index: no result says that they are meaningful; `OutputSimulation` and `ServerSimulation` show that both databases treat them alike.
- Overflow of amounts: amounts are mathematical integers in the chain model and 64-bit values in `BadgerDb`; the source relies on the node's supply rules.
- Changes of the node's block tree while requests are under way: the tree is fixed, so a block known to the node stays known.
- MemDb.Database.Store: does not cover storing after a rollback in the same transaction; there the source refuses the height just rolled back, because it compares with the stored tip.
- Script lengths that the runtime could allocate but the machine's memory cannot hold: the outcome depends on the machine.
- Coinbase maturity and the votes that a disapproval needs are not modelled; `ExampleChain` leaves any number of blocks between mining a coin and spending it.
- MemDb.Database.Rollback: says nothing about the stored state after the outcome `NilDereference`, where the source panics.
- BadgerDb.Txn.RollbackBlock: says nothing about the working copy after an error, which the caller discards.
