# BRDPoSChain, modelled and proved

Dafny models of four parts of BRDPoSChain, with proofs of what they keep and promise. `dafny verify dfyconfig.toml`
checks the whole project.

**The binary Merkle tree hasher (bmt/).** `Hasher` buffers written bytes into leaf segments and starts a goroutine per
leaf; the goroutines climb a shared tree, meet at its nodes by an atomic toggle, and the second arriver goes on. The
model is a state machine over the atomic steps of these goroutines, of `Sum` and of `releaseTree`; the base hash is any
function on bytes. The fast hasher is proved to deliver, in every interleaving and for every split into writes, the
value of the recursive reference hasher, on the tree that `NewTree` builds for the segment count (`BmtReference`,
`BmtRefHasher`, `BmtTree`, `BmtWriter`, `BmtProtocol`, `BmtInvariant`, `BmtPreservation`, `BmtClimb`, `BmtReads`,
`BmtResult`, `BmtTheorems`, `BmtPool`, `BmtEndToEnd`), and trees go through the pool fit for use (`BmtTreePool`).

**The canonical chain (core/).** Blocks, total difficulties, the number index, the transaction lookup index and the
commitment of finality, as maps; block writes and reorgs as methods of a class, proved to refine a relation on values
over which whole runs are reasoned (`ChainModel`, `ChainRuns`, `ChainStore`). Beside it the header chain with its caches
and its rewind (`HeaderStore`), the section indexer that drops its lock while it reads (`SectionIndex`, `SectionRuns`),
and the retention of state tries (`TrieRetention`).

**The exchange and lending ledger (BRCx/, BRCxlending/).** The floor-rounded fill quantities (`FillQuantity`),
settlement as lists of debits and credits (`Sums`, `Ledger`, `Settlement`, `LendSettlement`, `SettlementDb`), the
matching engine over a ledger of any kind (`OrderBook`, `Matching`, `MatchOutcome`), the exchange as a whole, book and
balances together (`Exchange`), the life of a loan with its table, two indexes and escrow (`Loans`, `LoanSteps`,
`LoanEnds`, `LendingDb`), from the settled match on (`LoanOpening`), the lending market as a whole, book, balances and
loans together (`LendingMarket`), and the liquidation sweep (`LoanFate`, `Sweep`). What settlement and the steps of a
loan come to is also stated without the formulas that compute it: payments by role, and every rounded amount between the
two products that pin it (`MatchMeaning`, `LoanMeaning`).

**Validator assignment (contracts/utils.go).** The shuffle that gives every signer its second validator
(`ValidatorShuffle`).

## What turned out to hold only under a condition

- The toggle of a tree node counts in a 32-bit integer. After it wraps, the first arriver no longer waits. A released
  tree is fit for reuse if and only if no counter of a node it used is within two of the maximum
  (`BmtTheorems.ReleasedTreeIsClean`); fewer than 2^30 chunks are always safe.
- `Hasher.Write` does not always cut at capacity: with an odd segment count a write that overflows from a leaf before
  the last one, on a non-empty buffer, is not cut (`BmtWriter.Writer.Write` states exactly when it is and what is kept
  when it is not; `BmtWriter.OverCapacity` is such a write).
- Section heads stay one ancestor path in every run, but they are canonical only if no chain switch forks inside a
  section between its last read and its storage (`SectionRuns.LateReorgGoesUnnoticed`; `SectionRuns.LateReorgHappens`
  reaches one). A switch while the section is still being read does no harm.
- `WriteHeader` dereferences nil if and only if the header wins the fork choice and an ancestor of its parent is not
  stored any more (`HeaderStore.HeaderChain.WriteHeader`). A rewind below a fork leaves such a branch behind
  (`HeaderStore.DetachedBranchPanics`).
- Settlement computes the new balances before the masternode owner is paid and writes them afterwards. On the exchange
  the relayers' fees reach the owner if and only if the match names neither its native account nor that of the
  registration contract, or both are one (`SettlementDb.FeesArriveExactly`). Otherwise the native total loses both fees
  when the owner's account is named and gains them when the contract's is (`SettlementDb.FeesInTotal`). In lending the
  fee is lost if and only if the match names the owner's native account (`SettlementDb.LendingFeeArrivesExactly`,
  `SettlementDb.LendingFeeInTotal`). Both happen: `SettlementDb.FeesVanish`, `SettlementDb.LendingFeeVanishes`.
- Lending settlement before the lending fork pays a borrowing maker the fee on top of the quantity. It conserves tokens
  if and only if the fork is active, the taker borrows, or the fee is zero (`LendSettlement.LendingConservesExactly`;
  `LendSettlement.OldRulesMint` is a match that mints). The fork and the one that switches lending on share one block
  number on all shipped networks (common/constants.mainnet.go:16-17 and the testnet, devnet and local files), so the
  old branch never runs there.
- A lending match at the balance-limited quantity could lack balance only if a user lent a token to itself against the
  same token. `VerifyCollateral` refuses such orders (BRCxlending/lendingstate/lendingitem.go:257-260), and with any
  other collateral no match fails for lack of balance (`LendSettlement.LendingNeverShort`).
- An automatic top-up brings the liquidation price down to the collateral price if and only if locked amount times
  liquidation price is less than (price + 1) times the required amount (`LoanSteps.TopUpHelpsExactly`); nine locked units
  always suffice. Otherwise the next top-up succeeds with a deposit of 0 and returns the same state
  (`LoanSteps.AutoTopUpStalls`), so the sweep repeats it without end (`Sweep.TopUpStepExactly`). A loan of 8 units, opened
  by a match, comes to that (`LoanSteps.EightUnitsOpened`, `Sweep.EightUnitsBlockTheSweep`).
- The sweep comes to its end, or reaches a loan that is topped up without end, or divides by zero; which of these is
  stated for every state (`Sweep.ProcessLiquidationData`). Automatic top-up, top-up, repayment and expiry each state
  exactly when they divide by zero (`LendingDb`).

## Assumptions

- Hashes of blocks, headers and orders do not collide; a stored block is never overwritten by a different one.
- `BlockChain` runs in full sync, so header head and block head coincide; commitment is an outside step that picks a
  canonical block no lower than the latest committed one.
- The theorems about the value of the hash are for data within capacity or cut to it: by an even segment count, or by
  coming in one write.
- Headers are verified before they are written: a header's number follows its parent's.
- The relayer registration contract holds at least what relayers have deposited; on the exchange that is proved to stay
  so over every run without the contract as a party (`Exchange.RunStaysBacked`), and in lending too
  (`LendingMarket.RunStaysBacked`). The lending lock address is nobody's.
- Rates of a listed collateral are such that a recall raises the liquidation price, but not above the collateral price.
- Prices, rates and token decimals come from outside. They are parameters, positive where the code divides by them.
- Balances and amounts are unbounded naturals; the 256-bit limit appears where the code checks it.

## Model

| member | source | states |
|---|---|---|
| `BmtReference.RefHashIsTreeValue` | bmt/bmt_r.go:67-85 | the recursive reference hash with its halving spans equals the value of the balanced tree of the data, for every length and every span that covers it |
| `BmtRefHasher.DepthBounds` | bmt/bmt.go:517-522 | the computed depth is the least one whose leaves, two segments each, hold all segments |
| `BmtRefHasher.ComputeDepth` | bmt/bmt.go:517-522 | the counting loop returns that depth |
| `BmtRefHasher.RefHasher.constructor` | bmt/bmt_r.go:39-55 | capacity and starting span, the largest power of two of segments below the count and at least 2, for every count >= 1 |
| `BmtRefHasher.RefHasher.Hash` | bmt/bmt_r.go:59-65 | hashes the data, cut at the capacity, to the reference value and leaves the base hasher reset |
| `BmtRefHasher.RefHasher.HashSpan` | bmt/bmt_r.go:67-85 | the halving loop and the two recursive calls compute the reference hash of the given span |
| `BmtTree.RootValueIsRefHash` | bmt/bmt_r.go:59-85 | for every non-empty data within capacity the root of the tree over the leaf chunks is the reference hash: odd segment counts, short last segments and unbalanced right edges included |
| `BmtTree.RootHeightFits` | bmt/bmt.go:250-272 | the root of the data always lies inside the prebuilt tree |
| `BmtWriter.Writer.Write` | bmt/bmt.go:330-369 | a write appends to the buffered data and cuts at capacity, if and only if the segment count is even, the data fits, the buffer is empty, or the last leaf is being filled; otherwise it takes exactly what the room at the current leaf, counted as empty, and a full last leaf allow, which is beyond the capacity |
| `BmtWriter.OverCapacity` | bmt/bmt.go:330-369 | an input at which the capacity is not kept: three one-byte segments, one byte buffered, three written, and four are held |
| `BmtWriter.SegmentsAreChunks` | bmt/bmt.go:330-369 | full segments followed by a non-empty rest are the only way to cut data into leaf chunks |
| `BmtWriter.WriteAll` | bmt/bmt.go:330-369 | every split of data into Write calls hands the goroutines the leaf chunks of the data cut at capacity, for an even segment count, for data within capacity, and for a single write of any length |
| `BmtProtocol.FirstToggleWaits` | bmt/bmt.go:502-507 | on an even counter the first of two arrivals waits and the second goes on exactly when the 32-bit counter is not negative |
| `BmtProtocol.WrappedToggleDoesNotWait` | bmt/bmt.go:502-507 | a counter that has wrapped lets the first arrival go on |
| `BmtClimb.ProcStepKeeps` | bmt/bmt.go:438-490 | each atomic step of a segment goroutine keeps the invariant of the climb: position, locals, stored inputs, counters and hash counts |
| `BmtReads.ReadsHoldStill` | bmt/bmt.go:468-478 | between the first and the last of its reads of a node, in every interleaving, neither the flag nor an input of that node changes: reading them one by one is reading them at once |
| `BmtReads.WritesHoldStill` | bmt/bmt.go:526-543 | however goroutines run between the three writes of finalise to a node, all is as if they had run before the first of them: writing one by one is writing at once |
| `BmtReads.AllWritten` | bmt/bmt.go:526-543 | with all three writes done the node is as the one step leaves it |
| `BmtResult.StepKeeps` | bmt/bmt.go:289-315 | every step of Sum, finalise, the goroutines and releaseTree keeps the invariant or reaches the state after the result |
| `BmtTheorems.SumIsReferenceHash` | bmt/bmt.go:289-315 | in every interleaving the value Sum receives is the reference hash of the data |
| `BmtTheorems.EachNodeHashedOnce` | bmt/bmt.go:459-490 | once there is a result exactly one goroutine sent it, all others have stopped, and each node with two inputs was toggled twice and hashed once |
| `BmtTheorems.SecondArriverHashes` | bmt/bmt.go:459-490 | a node is hashed by its second arriver, with both inputs from the current chunk, and not before |
| `BmtTheorems.ReleasedTreeIsClean` | bmt/bmt.go:421-436 | after releaseTree no node is unbalanced, only the tree root is marked root and all counters are even; the tree is fit for reuse if and only if no counter it used has wrapped |
| `BmtTheorems.NoMissingNode` | bmt/bmt.go:438-490 | no step dereferences a node the prebuilt tree does not have |
| `BmtTheorems.NeverStuck` | bmt/bmt.go:289-315 | until the tree is released some step is possible |
| `BmtTheorems.RunsAreBounded` | bmt/bmt.go:289-315 | no schedule runs forever: a measure of the state bounds the number of steps |
| `BmtTheorems.MaximalRunsDeliver` | bmt/bmt.go:289-315 | every schedule that cannot be extended ends with the reference hash delivered and the tree released |
| `BmtEndToEnd.NewTreeIsClean` | bmt/bmt.go:250-272 | the nodes NewTree allocates are, address by address, a clean tree of the protocol |
| `BmtEndToEnd.ChunksFit` | bmt/bmt.go:250-272 | the tree for a segment count has a leaf for every chunk of data within capacity |
| `BmtEndToEnd.ConfigIsValid` | bmt/bmt.go:250-315 | for every count, every data within capacity and every clean tree of the computed depth the protocol starts from a valid state |
| `BmtEndToEnd.RunsEnd` | bmt/bmt.go:289-315 | from every reachable state the steps lead to an end |
| `BmtEndToEnd.CleanTreeDelivers` | bmt/bmt.go:289-315 | for every count and every data within capacity, on any clean tree, new or used before, a schedule that ends exists and every such schedule delivers the reference hash and releases the tree |
| `BmtEndToEnd.HashersAgree` | bmt/bmt_test.go:307-331 | from the written parts and the segment count: what the goroutines on a new tree deliver, in every schedule, is what the reference hasher returns, also for a single write beyond the capacity |
| `BmtTheorems.ReusedTreeStaysClean` | bmt/bmt.go:421-436 | a tree is still clean after any history of fewer than 2^30 chunks |
| `BmtPool.NewTree` | bmt/bmt.go:250-272 | builds all levels of the tree with parents linked, indices in order, counters at zero and only the top marked root |
| `BmtPool.ClimbFromLeaf` | bmt/bmt.go:250-272 | climbing k parents from a leaf reaches the node with the leaf index halved k times |
| `BmtPool.LeavesMeet` | bmt/bmt.go:250-272 | two leaves share an ancestor at height k exactly when their halved indices agree |
| `BmtTreePool.TreePool.Reserve` | bmt/bmt.go:164-178 | hands out a pooled or new tree, never one already reserved, and blocks only when all trees are out; the tree is fit for hashing a chunk, unless 2^30 were hashed on it before |
| `BmtTreePool.TreePool.Release` | bmt/bmt.go:183-185 | pooled plus reserved trees equal the count, which is at most the capacity, so giving a tree back never blocks; the pool keeps trees that are fit for use only |
| `BmtTreePool.TreePool.Drain` | bmt/bmt.go:153-160 | drops pooled trees down to the given number and keeps the reserved ones |
| `BmtTreePool.PooledTree.Hash` | bmt/bmt.go:289-315 | hashing a chunk on a tree that is fit delivers its reference hash, under every schedule run to its end, and leaves the tree fit for the next chunk, below 2^30 uses |
| `BmtTreePool.TreePool.HashChunk` | bmt/bmt.go:289-315 | the same on a reserved tree that goes back to the pool afterwards |
| `ValidatorShuffle.NewSlice` | contracts/utils.go:482-490 | fills the slice with start, start + step, and so on |
| `ValidatorShuffle.GenM2` | contracts/utils.go:252-275 | for every list of draws below their slots the assignment is the list of signers with every slot, from the last down, exchanged with the slot it draws, and it is one cycle through all signers |
| `ValidatorShuffle.EveryCycleDrawn` | contracts/utils.go:252-275 | every assignment that is one cycle comes from some list of draws, so draws and cycles are one to one |
| `ValidatorShuffle.OneDrawPerCycle` | contracts/utils.go:252-275 | different lists of draws give different assignments |
| `ValidatorShuffle.IsPermutation` | contracts/utils.go:252-275 | the assignment is a permutation of 0..n-1 |
| `ValidatorShuffle.EverySignerReached` | contracts/utils.go:252-275 | from every signer every other one is reached by following the assignment |
| `ValidatorShuffle.NobodyValidatesItself` | contracts/utils.go:252-275 | with two or more signers nobody is its own second validator |
| `ChainModel.LookupAfterReorg` | core/blockchain.go:2445-2514 | writing the new chain's transactions and deleting those only on the old one leaves exactly the entries of the new canonical chain |
| `ChainStore.FindFork` | core/blockchain.go:2314-2354 | the three descending loops find the common ancestor and list the dropped and the added blocks |
| `ChainStore.GuardStops` | core/blockchain.go:2356-2378 | the guard refuses a reorg exactly when the latest committed block would leave the canonical chain |
| `ChainStore.BlockChain.WriteHeadBlock` | core/blockchain.go:765-792 | indexes the block by number and each of its transactions, and makes it the head |
| `ChainStore.BlockChain.Reorg` | core/blockchain.go:2305-2523 | either refuses without touching any index, exactly when the committed block would be reverted, or leaves the number index equal to the ancestry of the new head and the lookup index moved |
| `ChainStore.BlockChain.WriteBlockWithState` | core/blockchain.go:1322-1519 | stores block and total difficulty, chooses the head by (difficulty, number), and keeps the chain invariant |
| `ChainRuns.WriteKeepsInv` | core/blockchain.go:1498-1519 | every outcome of a block write keeps the canonical index, the difficulties, the lookup index and the best head |
| `ChainRuns.EveryRun` | core/blockchain.go:1322-1519 | in every run of block writes and commits from genesis: the canonical index is the ancestry of the head and empty above, TD(b) = TD(parent) + difficulty, no accepted block beats the head |
| `ChainRuns.CommittedForever` | core/blockchain.go:2356-2378 | a block committed at some point of a run is canonical at every later point |
| `ChainRuns.LookupNamesCanonicalBlock` | core/blockchain.go:765-783 | in every run a lookup entry exists for a transaction exactly when a canonical block contains it, and names that block |
| `ChainRuns.HeadIsBest` | core/blockchain.go:1498-1519 | in every run (difficulty, number) of every block accepted so far is at most that of the head |
| `HeaderStore.HeaderChain.GetTd` | core/headerchain.go:329-341 | answers exactly from the cache or for a stored header of that number, always with what the database holds, remembers the answer and keeps the cache in agreement |
| `HeaderStore.HeaderChain.GetHeader` | core/headerchain.go:355-367 | the same for headers |
| `HeaderStore.HeaderChain.GetBlockNumber` | core/headerchain.go:116-126 | the same for numbers, and answers exactly for stored headers |
| `HeaderStore.HeaderChain.DeleteAbove` | core/headerchain.go:170-178 | collects the removal of the number assignments above the new head and of no others |
| `HeaderStore.HeaderChain.OverwriteStale` | core/headerchain.go:180-192 | the descending loop terminates; it dereferences nil if and only if the ancestry of the parent is not stored any more, and otherwise makes the number index the ancestry of the new header |
| `HeaderStore.HeaderChain.WriteHeader` | core/headerchain.go:137-212 | for every verified header, stored before or not: adds it with the parent's difficulty plus its own, moves the head exactly when it has more difficulty (or as much, by the coin), keeps index and caches right and the head's difficulty maximal; it panics if and only if the header wins and an ancestor of its parent is missing, and then the markers stay as they were |
| `HeaderStore.HeaderChain.SetHead` | core/headerchain.go:431-482 | rewinds to the ancestor at the given number, deletes exactly the headers of the canonical path above it, and keeps the number index the ancestry of the head with nothing above it and the caches in agreement |
| `HeaderStore.DetachedBranchPanics` | core/headerchain.go:180-192 | such a panic is reached: rewind below a fork, then extend the branch that was not current |
| `SectionIndex.ChainIndexer.SetValidSections` | core/chain_indexer.go:407-420 | drops the heads of all sections from the given one on and sets the count |
| `SectionIndex.ChainIndexer.NewHead` | core/chain_indexer.go:223-262 | a reorg cuts known and stored sections at the section of the ancestor; a new head raises the known sections by confirmations |
| `SectionIndex.ChainIndexer.ProcessSection` | core/chain_indexer.go:343-372 | reads the headers of a section one by one from an index that may change in between, and succeeds exactly when each continues the one before |
| `SectionIndex.ChainIndexer.Begin` | core/chain_indexer.go:279-301 | picks the next section and the head it must build on |
| `SectionIndex.ChainIndexer.Finish` | core/chain_indexer.go:302-325 | stores the section only if the previous head is still the one it was built on |
| `SectionRuns.StepKeeps` | core/chain_indexer.go:266-334 | every step, with chain changes and notifications landing anywhere, keeps the section heads one ancestor path |
| `SectionRuns.SectionHeadsFormOnePath` | core/chain_indexer.go:279-334 | in every run the stored section heads sit at the last block of their sections and the earlier are ancestors of the later |
| `SectionRuns.SectionHeadsAreCanonical` | core/chain_indexer.go:223-334 | when a chain switch and its notification are one step, and no switch forks inside a section between its last read and its storage, every stored head is the canonical hash at (k+1)*sectionSize-1 |
| `SectionRuns.LateReorgGoesUnnoticed` | core/chain_indexer.go:302-325 | for a switch in that window the stored heads are canonical afterwards if and only if its common ancestor does not lie inside the section before its last block |
| `SectionRuns.LateReorgHappens` | core/chain_indexer.go:302-325 | a history from genesis reaches such a switch, and the head stored afterwards is not canonical |
| `TrieRetention.Collector.Pop` | core/blockchain.go:1463-1471 | the queue gives up an entry with the lowest block number |
| `TrieRetention.Collector.Write` | core/blockchain.go:1402-1471 | references and queues the root, then releases the entries at or below the chosen block; references equal queue entries root by root |
| `TrieRetention.LiveIsSurvivors` | core/blockchain.go:1402-1471 | in every run the references held are exactly those of writes that no later write has pushed out of the window |
| `TrieRetention.SharedRootStaysReferenced` | core/blockchain.go:1402-1471 | a root shared by several blocks is referenced exactly as long as one of them is in the window |
| `TrieRetention.WindowAfterWrite` | core/blockchain.go:1418-1471 | after block c > 128 the queue holds exactly the earlier entries above c - 128 and the new one |
| `FillQuantity.PayableFits` | BRCx/order_processor.go:443-446 | the quantity computed from a quote balance by nested floor divisions costs, with the floor-rounded fee, at most that balance |
| `FillQuantity.TradeQuantityFits` | BRCx/order_processor.go:424-518 | both out-totals of the fill, rounded fees included, fit the two balances, and a maker is rejected only with less than the request |
| `FillQuantity.TradeQuantityExactly` | BRCx/order_processor.go:424-518 | the fill is the greatest n up to the request that the base side holds and, when the quote side cannot pay for the whole request, n * price * (10000 + rate) <= balance * decimal * 10000; the maker is rejected if and only if its own balance is the limit, and on a tie the quote side is |
| `FillQuantity.SecurableFits` | BRCxlending/order_processor.go:511-514 | the quantity computed from a collateral balance needs at most that collateral |
| `FillQuantity.LendQuantityFits` | BRCxlending/order_processor.go:499-575 | the collateral and the lent quantity of the fill fit the two balances, and a maker is rejected only with less than the request |
| `FillQuantity.LendQuantityExactly` | BRCxlending/order_processor.go:499-575 | the fill is the greatest n up to the request that the investor holds and, when the borrower cannot secure the whole request, n * decimal * depositRate <= balance * price * 100; the maker is rejected if and only if its own balance is the limit, and on a tie the borrower is |
| `Settlement.EntriesBalance` | BRCx/tradingstate/settle_balance.go:32-165 | the debits of a settled match equal its credits token by token |
| `MatchMeaning.MatchMoves` | BRCx/tradingstate/settle_balance.go:32-165 | a match is four payments, by buyer and seller: base to the buyer, its floored price to the seller, and to the owner of each trader's relayer the fee at that relayer's rate, each floor pinned by its two inequalities |
| `MatchMeaning.TooSmallExactly` | BRCx/tradingstate/settle_balance.go:32-165 | a match is refused as too small unless the seller is left with something, also at the default rate, and every fee taken is worth more in native tokens than the relayer pays |
| `Settlement.MatchConserves` | BRCx/order_processor.go:520-629 | settling a match leaves every token's total as it was, whoever coincides with whom |
| `Settlement.MatchNeverShort` | BRCx/order_processor.go:532-577 | at the balance-limited quantity no debit of a trader fails, even when the traders, the relayer owners or the two tokens coincide |
| `Ledger.NotedAllIsApplied` | BRCx/tradingstate/relayer_state.go:220-290 | computing balances through values kept aside equals applying debits and credits one after another, success included |
| `SettlementDb.LateBalance` | BRCx/order_processor.go:580-627 | the balance of every account after settlement: accounts of the match get the match and lose the fees, all others get the fees |
| `SettlementDb.WrittenLateExactly` | BRCx/order_processor.go:580-627 | writing the noted balances after the fees equals moving fees and match one after another if and only if the fees leave every account of the match as it was |
| `SettlementDb.FeesArriveExactly` | BRCx/order_processor.go:590-627 | on the exchange fees and match are moved one after another, and the fees reach the masternode owner, if and only if nobody trades native tokens on its account or on that of the registration contract, or they are one account |
| `SettlementDb.FeesInTotal` | BRCx/order_processor.go:590-627 | the total of every token in all cases: the match balances, and the native total loses both relayers' fees when the owner's account is named, gains them when the contract's is, and keeps them when both or neither are |
| `SettlementDb.FeesVanish` | BRCx/order_processor.go:590-627 | a match, with the balances for it, after which exactly both fees are missing from the native total: the masternode owner sells a token for native ones |
| `SettlementDb.LendingFeeArrivesExactly` | BRCxlending/order_processor.go:671-682 | in lending the fee reaches the masternode owner if and only if the match does not name its native account |
| `SettlementDb.LendingFeeInTotal` | BRCxlending/order_processor.go:671-682 | the total of every token in all cases: beside the match the native total gets the fee, taken before, back if and only if the owner's native account is not named |
| `SettlementDb.LendingFeeVanishes` | BRCxlending/order_processor.go:671-682 | a lending match, with the balances for it, after which the fee is missing: the masternode owner borrows native tokens |
| `SettlementDb.StateDb.CheckAdd` | BRCx/tradingstate/relayer_state.go:257-290 | a credit is refused exactly when the token is missing or the balance leaves 256 bits |
| `SettlementDb.StateDb.CheckSub` | BRCx/tradingstate/relayer_state.go:220-255 | a debit is refused exactly when the token is missing or the balance is too small |
| `SettlementDb.StateDb.DoSettleBalance` | BRCx/order_processor.go:520-629 | settles exactly when all checks pass; then the deposits paid the fees and every balance is the noted one or the one after the fees; this is fees and match one after another if and only if the fees are apart from the match; otherwise nothing is written |
| `SettlementDb.StateDb.DoSettleLending` | BRCxlending/order_processor.go:577-683 | the lending version, with the same exact condition; a failing check leaves the relayer's fee taken and nothing else |
| `LendSettlement.LendingConservesExactly` | BRCxlending/lendingstate/settle_balance.go:36-224 | a lending match conserves every token if and only if it follows the fork's rules, the taker borrows, or the fee is zero |
| `MatchMeaning.LoanMoves` | BRCxlending/lendingstate/settle_balance.go:36-224 | a lending match is three payments: the loan to the borrower, its fee to the owner of the borrower's relayer, the floored collateral to the lock; under the old rules a borrowing maker gets two fees from nobody |
| `MatchMeaning.LendTooSmallExactly` | BRCxlending/lendingstate/settle_balance.go:36-224 | the lending version of the refusal |
| `LendSettlement.OldRulesMint` | BRCxlending/lendingstate/settle_balance.go:112-160 | under the old rules 100 coins lent at 1% with every price and decimal at one coin create two coins |
| `LendSettlement.LendingNeverShort` | BRCxlending/lendingstate/lendingitem.go:257-260 | with a collateral other than the lent token, the only kind the order check lets through, no debit of a match at the balance-limited quantity fails, for all parties, balances and coincidences among them |
| `MatchOutcome.TradeOutcomeSound` | BRCx/order_processor.go:368-422 | settling a taker with a maker yields at most the quantity asked, and rejects the maker only with less than that |
| `MatchMeaning.CheckRelayersExactly` | BRCx/order_processor.go:380-394 | an order is rejected by its relayer's deposit exactly when that would fall below 20000 tokens after all the relayer owes for the match, the taker's relayer first |
| `MatchMeaning.TradeOutcomeExactly` | BRCx/order_processor.go:368-422 | how settling one taker with one maker ends, from deposits, balances and terms alone: rejection, too small, the greatest fill, or an error |
| `MatchOutcome.TradeBreaksExactly` | BRCx/order_processor.go:368-422 | it fails if and only if a relayer has no owner, a token is missing or a credit overflows: balances and deposits suffice |
| `MatchOutcome.TradesAreReliable` | BRCx/order_processor.go:258-262 | whatever ledger, taker, makers, parties and terms each attempt of a run finds, settlement on the exchange meets what the matching engine relies on |
| `MatchOutcome.LoansAreReliable` | BRCxlending/order_processor.go:291-296 | the same for lending |
| `MatchOutcome.LendOutcomeSound` | BRCxlending/order_processor.go:424-497 | the same bounds for lending, checked against the balances after the relayer's fee has left the contract |
| `MatchMeaning.LendOutcomeExactly` | BRCxlending/order_processor.go:424-497 | the same for lending |
| `MatchOutcome.LendBreaksExactly` | BRCxlending/order_processor.go:424-497 | lending against another token, the contract being no party, fails if and only if a relayer has no owner, a token is missing or a credit overflows |
| `OrderBook.AccountedFill` | BRCx/tradingstate/statedb.go:229-280 | filling a maker leaves its amount accounted for as rest, fills and cancellations |
| `OrderBook.AccountedCancel` | BRCx/tradingstate/statedb.go:282-334 | cancelling a maker accounts for its residual, which is positive |
| `Matching.Book.MatchOne` | BRCx/order_processor.go:221-362 | one round of the list: settlement is asked for the smaller of what taker and maker have left, with the maker as it rests; an error ends the run, and the report moves exactly as the outcome says, with amounts accounted for and the remaining work falling |
| `Matching.Book.Reject` | BRCx/order_processor.go:259-295 | a match too small to settle rejects the smaller order, both when equal, or the one whose balance made it small |
| `Matching.Book.Trade` | BRCx/order_processor.go:299-364 | a settled quantity fills both orders and a maker short of balance is cancelled with its rest; an empty match rejects the one who cannot pay |
| `Matching.Book.ProcessOrderList` | BRCx/order_processor.go:211-366 | fills only at the level's price, oldest order first, until the taker is done or rejected or the level is empty; every attempt asks for all that taker and maker have left at that point, ledger, fills, cancellations and rejection are those its outcomes call for, and it fails exactly when the last attempt breaks |
| `Matching.Book.Sweep` | BRCxlending/order_processor.go:171-214 | level by level, with the same account of attempts for the whole order: fills stay within the taker's limit, follow price and then age, never improve, quantity equals fills plus rest unless the taker is rejected, and it terminates |
| `Matching.Book.ProcessLimitOrder` | BRCx/order_processor.go:152-208 | all of that, and the rest of the order rests under a new number in a book that stays uncrossed |
| `Matching.Book.ProcessMarketOrder` | BRCx/order_processor.go:108-148 | the same without a limit; a rest remains only when the other side is empty |
| `Matching.Book.CancelOrder` | BRCx/tradingstate/statedb.go:282-334 | removes the order, and nothing else, if and only if user, hash and relayer are those it was placed with |
| `Matching.Book.ApplyOrder` | BRCx/order_processor.go:33-105 | an order is processed if and only if price and quantity are acceptable and no attempt breaks; otherwise book and ledger stay as they were; a cancellation takes out its own order only; attempts, report, limit, resting rest and uncrossed book as above |
| `Matching.PaidInFull` | BRCx/order_processor.go:211-366 | when everybody can pay, nobody is rejected, no maker is filled twice, each fill is the smaller of what the taker has left and what the maker has, and a maker is left with something only when the taker has nothing left |
| `Matching.PriorityHolds` | BRCx/order_processor.go:152-208 | price, then age: between any two fills, and between a fill and any order that still rests |
| `Matching.Book.ApplyAll` | BRCxlending/order_processor.go:32-124 | in every run of limit, market and cancel orders every bid stays below every ask, and the ledger is what the attempts of the run, one after another, make of it |
| `Exchange.GetTradeQuantity` | BRCx/order_processor.go:368-422 | on the state database: ends in the rejection, refusal or greatest fill that deposits and balances call for, and then exactly the four payments of the match, both relayers' fees out of their deposits and on to the masternode owner have been made; otherwise nothing changes |
| `Exchange.AttemptMeans` | BRCx/order_processor.go:368-422 | the same of every settled attempt in a run, in terms of the market and the two orders |
| `Exchange.RunTotals` | BRCx/order_processor.go:211-366 | over every run of attempts no token but the native one changes its total, and the native one by exactly the fees written over |
| `Exchange.RunConserves` | BRCx/order_processor.go:211-366 | without the masternode owner and the contract among the parties every token is conserved over the run |
| `Exchange.ContractPays` | BRCx/tradingstate/relayer_state.go:342-350 | while the contract holds what is deposited with it, it can pay the fees of every match that comes to be settled |
| `Exchange.RunStaysBacked` | BRCx/tradingstate/relayer_state.go:342-350 | over every run the deposits shrink by two fees per match and the contract keeps holding at least what is deposited |
| `Exchange.TradeAll` | BRCx/order_processor.go:33-105 | every run of orders, book and balances reverted together: uncrossed book, totals, deposits and backing as above |
| `LoanOpening.GetLendQuantity` | BRCxlending/order_processor.go:424-497 | on the state database: ends in the rejection, refusal or greatest loan that deposits and balances call for, and then exactly the payments of the loan have been made; without a loan or an error nothing changes |
| `Loans.OpenedKeeps` | BRCxlending/order_processor.go:341-412 | opening a trade keeps escrow, indexes and ids in step, and its id was never used |
| `LoanOpening.SettleAndOpen` | BRCxlending/order_processor.go:297-412 | settling a match and recording its loan moves exactly its payments and keeps escrow, indexes and ids in step, whatever becomes of the fees; the recorded loan has the collateral and liquidation price that price and rates call for and the maker's interest |
| `LoanMeaning.NewTradeExactly` | BRCxlending/order_processor.go:349-403 | the recorded loan field by field: floored collateral, floored liquidation price, parties by role, due after the term, the maker's interest, the borrower's top-up choice |
| `LendingMarket.ListedExactly` | BRCxlending/order_processor.go:256-290 | an attempt breaks unless the borrowing order's collateral, its three rates, both prices and both decimals are on file and positive |
| `LendingMarket.TermsMean` | BRCxlending/order_processor.go:256-291 | the terms of an attempt are those of the borrowing order: its collateral with that price, deposit rate and decimals, and the fee of its relayer |
| `LendingMarket.AttemptMeans` | BRCxlending/order_processor.go:297-412 | every attempt of a run that lends: its payments, and the loan it records, in terms of the market and the two orders |
| `LendingMarket.RunKeeps` | BRCxlending/order_processor.go:231-422 | over every run of attempts the escrow holds the collateral of the open loans, and indexes and ids stay in step |
| `LendingMarket.RunOpens` | BRCxlending/order_processor.go:341-412 | over every run one loan is opened for each fill, over its quantity, under the next number, and earlier loans stay as they are |
| `LendingMarket.RunTotals` | BRCxlending/order_processor.go:577-683 | over every run the total of each token moves by exactly the fees minted under the old rules and the relayer fees written over |
| `LendingMarket.RunConserves` | BRCxlending/order_processor.go:577-683 | under the fork's rules and without the masternode owner among the parties every token is conserved over the run |
| `LendingMarket.RunStaysBacked` | BRCxlending/order_processor.go:586-609 | over every run the deposits shrink by one fee per match and the contract keeps holding at least what is deposited |
| `LendingMarket.LendAll` | BRCxlending/order_processor.go:32-124 | every run of lending orders, book, balances and loans reverted together: uncrossed book, escrow, indexes, loans, totals, deposits and backing as above |
| `Loans.RepricedKeeps` | BRCxlending/order_processor.go:1130-1148 | changing price and locked amount keeps escrow and both indexes in step |
| `Loans.EndedKeeps` | BRCxlending/order_processor.go:868-882 | ending a trade keeps escrow and both indexes in step |
| `LoanSteps.MatchMovesCollateral` | BRCxlending/order_processor.go:577-683 | the match that opens a loan moves exactly the locked collateral into the escrow |
| `LoanSteps.MatchOpensLoan` | BRCxlending/order_processor.go:341-412 | a settled match opens its loan with escrow, indexes and ids in step, at a liquidation price not above the collateral price when the liquidation rate is at most the deposit rate |
| `LoanSteps.TopUpKeeps` | BRCxlending/order_processor.go:1120-1154 | a top-up keeps the loan invariant |
| `LoanSteps.RecallKeeps` | BRCxlending/order_processor.go:1239-1273 | a recall keeps the loan invariant |
| `LoanSteps.DepositNonNegative` | BRCxlending/order_processor.go:1104-1111 | an automatic top-up never asks a negative deposit |
| `LoanSteps.AutoTopUpPrice` | BRCxlending/order_processor.go:1096-1118 | with at least 9 units locked it leaves the liquidation price in [floor(0.9*price), price) |
| `LoanSteps.TopUpHelpsExactly` | BRCxlending/order_processor.go:1096-1118 | a top-up ends at or below the collateral price if and only if locked amount times liquidation price is less than (price + 1) times the amount the top-up requires: a condition on the trade and the price before it |
| `LoanSteps.TopUpStalls` | BRCxlending/order_processor.go:1096-1118 | otherwise topping up the result again gives the same trade |
| `LoanSteps.AutoTopUpStalls` | BRCxlending/order_processor.go:1096-1118 | otherwise the next automatic top-up succeeds and returns the same whole state |
| `LoanSteps.NoDepositExactly` | BRCxlending/order_processor.go:1104-1111 | a top-up asks for no deposit if and only if the locked amount is within rounding of the required one |
| `LoanSteps.NineUnitsHelp` | BRCxlending/order_processor.go:1096-1118 | nine locked units are always enough |
| `LoanSteps.EightUnitsOpened` | BRCxlending/order_processor.go:341-412 | a match of 667 opens that loan from a state without loans: 8 units locked at liquidation price 91 |
| `LoanSteps.EightAreTooFew` | BRCxlending/order_processor.go:1096-1118 | in the state after a match has opened a loan of 8 units: the price falls, the top-up succeeds and leaves the loan above it, and repeating it returns the same state |
| `LoanEnds.ExpirySplitsCollateral` | BRCxlending/order_processor.go:825-893 | recall plus repay amount of an expired trade equal what was locked, and its entries balance |
| `LoanMeaning.PaymentExactly` | BRCxlending/lendingstate/settle_balance.go:246-257 | the payment x is the only one with x * 10^10 <= amount * (10^10 + rate) < (x + 1) * 10^10 |
| `LoanMeaning.RateExactly` | BRCxlending/lendingstate/settle_balance.go:227-244 | the rate is the yearly interest for half of term and time borrowed taken together, both halves and years floored, in 64-bit arithmetic |
| `LoanMeaning.WholeTermRate` | BRCxlending/lendingstate/settle_balance.go:227-244 | a loan closed at its liquidation time costs the floored yearly rate for its whole term |
| `LoanMeaning.ClosedAtOnceRate` | BRCxlending/lendingstate/settle_balance.go:227-244 | a loan closed at once costs the floored yearly rate for half of its term |
| `LoanMeaning.RateNeverFalls` | BRCxlending/lendingstate/settle_balance.go:227-257 | within the term neither the rate nor the payment falls with time, and the payment is at least the amount |
| `LoanMeaning.DueExactly` | BRCxlending/order_processor.go:839-858 | what an expired loan owes of its collateral, pinned by the inequalities of its three floors |
| `LoanEnds.RepayKeeps` | BRCxlending/order_processor.go:1156-1237 | repayment that does not divide by zero keeps the loan invariant, always succeeds on a trade that is due, and ends exactly that trade |
| `LoanMeaning.RepayMeans` | BRCxlending/order_processor.go:1156-1237 | every way a repayment can end: who pays whom how much when it closes, what investor and borrower get when it expires or is liquidated, and exactly when it is refused or divides by zero |
| `LoanEnds.EveryRunKeepsBooks` | BRCxlending/order_processor.go:341-412 | in every run of open, top-up, recall, repay, liquidate and expire steps the escrow equals the locked collateral token by token, both indexes hold exactly the open trades, and ids stay below their counters |
| `LoanEnds.IdsNeverReused` | BRCxlending/order_processor.go:349-411 | no trade id is given out twice in a run |
| `LoanEnds.ProductNeverGrows` | BRCxlending/order_processor.go:1120-1154 | over any run liquidation price times locked amount of an open trade never grows |
| `LoanEnds.LoanStepsConserve` | BRCxlending/order_processor.go:825-926 | no step after the opening creates or destroys tokens |
| `LendingDb.Lending.OpenTrade` | BRCxlending/order_processor.go:341-412 | records a trade whose match moved its collateral into the escrow, in table, time index, counter and price index, under an id never used |
| `LendingDb.Lending.ProcessTopUpLendingTrade` | BRCxlending/order_processor.go:1120-1154 | lacking balance nothing; otherwise the borrower pays the quantity into the lock and the liquidation price becomes the floor of price times collateral over the new collateral; divides by zero exactly when nothing is locked and nothing added |
| `LendingDb.Lending.AutoTopUp` | BRCxlending/order_processor.go:1096-1118 | asks for exactly the deposit that brings the collateral to what 90% of the price call for, and tops up by it if and only if the borrower has it; divides by zero exactly for a loan above the price when 90% of the price round to 0 or nothing is locked |
| `LendingDb.Lending.ProcessRecallLendingTrade` | BRCxlending/order_processor.go:1239-1273 | succeeds exactly for a higher price; then the borrower gets back from the lock what this price no longer calls for; the unchecked subtraction from the lock address cannot fail |
| `LendingDb.Lending.LiquidationTrade` | BRCxlending/order_processor.go:896-926 | the investor gets all of the locked collateral and nothing else moves; neither the subtraction nor an index removal can fail |
| `LendingDb.Lending.LiquidationExpiredTrade` | BRCxlending/order_processor.go:825-893 | the investor gets what is due of the collateral and the borrower the rest, and nothing else moves; divides by zero, changing nothing, exactly when the pair has a price and the collateral no liquidation rate |
| `LendingDb.Lending.ProcessRepayLendingTrade` | BRCxlending/order_processor.go:1156-1237 | with enough balance the borrower pays amount and interest, pinned by its inequalities, to the investor and gets the collateral back; otherwise it is refused before the liquidation time and liquidated or expired from then on; divides by zero exactly when an expiry under the fork does |
| `LoanFate.RecallRaises` | BRCxlending/BRCxlending.go:898-903 | under the stated rates the threshold for a recall is at most the price it recalls to, and that is at most the collateral price |
| `LoanFate.AfterRecallExactly` | BRCxlending/BRCxlending.go:898-927 | a loan is recalled if and only if it tops up by itself and (price + 1) * recallRate <= collateralPrice * 100; its new price p is the one with p * depositRate <= collateralPrice * liquidationRate < (p + 1) * depositRate, and its collateral is what p calls for |
| `LoanFate.RecallAsOpened` | BRCxlending/BRCxlending.go:898-927 | that price is the liquidation price of a loan that a match would open at this collateral price and these rates |
| `LoanFate.TreatedExactly` | BRCxlending/BRCxlending.go:860-927 | what becomes of a loan that stays open: topped up to what 90% of the price call for if above the price, then recalled if due, with all roundings pinned |
| `Sweep.ExpireBook` | BRCxlending/BRCxlending.go:827-850 | ends exactly the loans of the book past their time, as proper steps; or stops at a loan whose expiry divides by zero, which known rates exclude |
| `Sweep.Relieve` | BRCxlending/BRCxlending.go:863-895 | performs the top-up step if the loan asks for it and the borrower can pay, and the liquidation step otherwise; divides by zero exactly when the top-up does, and reports a sweep without end exactly when a top-up left the loan stuck above the price |
| `Sweep.TopUpStepExactly` | BRCxlending/BRCxlending.go:859-894 | the top-up step of the sweep makes progress if and only if the top-up condition holds; otherwise every continuation of the sweep leaves that loan above the price |
| `Sweep.StuckForever` | BRCxlending/BRCxlending.go:859-894 | a stalled loan stays stalled through every run of sweep steps |
| `Sweep.EightUnitsBlockTheSweep` | BRCxlending/BRCxlending.go:859-894 | such a loan exists, opened by a match under sane rates: the sweep may top it up, and no continuation ends |
| `Sweep.LoopGoesOn` | BRCxlending/BRCxlending.go:859-894 | where the sweep is said never to end, every continuation leaves a loan above the price of its pair |
| `Sweep.LiquidatePair` | BRCxlending/BRCxlending.go:860-897 | comes to its end with no loan of the pair above the collateral price and others untouched, or stops in a state with a stuck loan or a division by zero; it comes to its end whenever top-ups help |
| `Sweep.RecallPair` | BRCxlending/BRCxlending.go:898-927 | every loan of the pair is recalled, to the pinned price and collateral, if it is due for it and left alone otherwise, without error; other pairs are untouched |
| `LoanFate.TreatedIsBelow` | BRCxlending/BRCxlending.go:860-927 | a loan that went through top-up and recall does not lie above the collateral price |
| `Sweep.ProperMeans` | BRCxlending/BRCxlending.go:827-928 | each step of the sweep in the terms of its loan: time, price and rate handed on as they are, no liquidation of a loan that asks for a top-up unless its borrower lacks the deposit, each recall to the pinned price |
| `Sweep.ProcessLiquidationData` | BRCxlending/BRCxlending.go:827-928 | for every state and all sane rates the sweep is a run of proper steps; if it comes to its end every loan meets its fate, stated from prices and rates on file: ended if overdue; topped up or liquidated if above the price of its pair; recalled to the pinned price if due; untouched otherwise; if not, it has reached a stuck loan or a division by zero; known rates and helpful top-ups make it come to its end |
| `Sweep.SweepConserves` | BRCxlending/BRCxlending.go:827-928 | the steps of a sweep create and destroy no tokens |
| `Sweep.NothingLeftToDo` | BRCxlending/BRCxlending.go:827-928 | afterwards no open loan of a listed book is past its time and none of a priced pair lies above the collateral price |

## Left out

- `Hasher.ReadFrom`, `ResetWithLength`, `Tree.Draw` and slice aliasing with the caller's buffer: not needed for the value of the hash.
- Error branches of `reorg` for missing blocks: excluded because the model keeps the parent of every stored block stored.
- `BlockChain.SetHead`, `repair`, `loadLastState`, fast sync and archive mode: rewinding the header chain is modelled, rewinding the block chain is not.
- HeaderStore.HeaderChain.SetHead: without the callbacks that delete block bodies and head markers of the block chain.
- Children of a section indexer, `AddKnownSectionHead` and restarts: they add restart cases to the section invariant and nothing to its core.
- SectionRuns.SectionHeadsAreCanonical: takes a chain switch and its notification as one step; the ancestor path of the section heads is proved without that.
- TrieRetention.Collector.Write: the reference counts inside the trie database, its size cap and its disk commits are not modelled, only the references held by the queue; the trading and lending tries follow the same loop.
- The heap inside `prque`: modelled as a multiset that gives up a least entry.
- `tradingstate` and `lendingstate` tries, journals and snapshots: modelled as maps and sets, reverting as restoring them.
- Matching.Book.Sweep: one loop for the limit and market orders of both sides, which the code writes out four times.
- Matching.Book.ApplyOrder: nonces, signatures, relayer and pair checks, cancel fees and last and average prices are not modelled.
- LendingMarket.LendAll: the orders of one book; the loans of all other books are part of the state and stay as they are. Top-up and repayment orders between them are steps of `LoanEnds`.
- Matching.Book.CancelOrder: the fee of a cancellation, which a user or relayer may lack, is not modelled.
- LoanEnds.EveryRunKeepsBooks: additions to balances beyond 256 bits, which the code truncates, and tokens that cease to exist are not modelled.
- Sweep.ProcessLiquidationData: the result maps and lists it fills for the database are not modelled; which of several loans of one borrower is topped up first is left open, as the code iterates over maps.
- Price oracles, interest parameters of governance, reward percentages, cancel fees: outside values or shallow arithmetic.
- MongoDB and LevelDB layers, event feeds, logs, metrics, timers, the BRDPoS engine, IPC and console: plumbing.
