# Model of the MUSE chain state engine

A Dafny model of the state engine of a Graphene-based blockchain for music (`btcm`), with proofs about it.
Objects that operations change in place are classes here too; what each operation computes is stated on
values beside them, and laws about those values are proved as lemmas.

| files | what they model |
|---|---|
| `UndoSpec`, `UndoDatabase`, `UndoRuns` | the undo database: a stack of differences that stands for a stack of snapshots |
| `ForkTree`, `ForkDatabase`, `ChainSpec`, `BranchPaths`, `ChainDatabase`, `PushedBranches` | the tree of blocks and switching between forks |
| `ProxySpec`, `ProxyTally`, `ProxyVotes` | witness votes under transitive proxies |
| `Rounding`, `OrderSpec`, `BookIndex`, `OrderBook` | prices, the ordered book and matching of limit orders |
| `LedgerSpec`, `Payees`, `Ledger` | every operation on money against the supply |
| `ListeningSpec`, `ListeningSteps`, `RewardBound`, `RewardRounding`, `Listening` | listening statistics, cashouts and what a cashout pays at most and at least |
| `VestingSpec`, `VestingRoutes`, `WithdrawalPass`, `Tables`, `DelegationSpec`, `RedelegationDrift`, `Vesting` | power-downs, withdraw routes, delegation and redelegation |
| `WitnessOrder`, `WitnessSchedule`, `Irreversible` | the witness schedule by virtual time, and the last irreversible block |
| `SynopsisSpec`, `Synopsis`, `SyncPeer` | the chain summary sent to a peer, its answer, and the list of ids to get |
| `Friends` | friendships and the cached friends of friends |
| `SquareRoot` | the bit-by-bit integer square root |
| `Wrappers`, `Sums` | optional values, finite sums |

## How to read it

- A class has the fields of the object it models; `Valid()` is the invariant that every operation keeps.
  An exception undoes an operation, so a method that returns `false` leaves the state as it was.
- Integers are unbounded; where the width matters it is written out: 128-bit virtual time, 32-bit counters,
  the 64- and 128-bit products of prices and rewards, the 16-bit sum of percentages, the 32-bit root.
- Objects are named by numbers (instance numbers of their ids). Block ids determine their block and its
  parent: hashes do not collide. Blocks that leave the fork database and come back count as the same object
  for the links between blocks.
- Executing a block is a parameter: it maps a state and a block to a next state or to a refusal, always the
  same for the same input. The undo history of the fork model is a list of snapshots; that the stack of
  differences stands for such a list is what the undo model proves.
- The check that a witness does not have more votes than there are vests is an operation that may fail.
- The order book assumes of every asset that balances and held amounts together are at most the maximal
  share supply; that bounds the prices in the book, which the search for crossing orders relies on.
- Links between blocks of the fork database are weak; blocks count as alive while they are indexed, the head, or
  owned by local variables of the caller, as both branches are during a fork switch.
- `total_vested_by_platforms` is a parameter of the reward bound, with stakes fixed during one cashout.
- The price feed, fees, minimal amounts, and the checks of names, keys and authorities are parameters.

## Where the code differs from what it promises

- A fork switch is meant to be all or nothing. It is not when a block of the new branch is refused and the
  fork database cannot move its head back far enough below the old branch, as for two branches from the very
  first block. `SwitchFork` says exactly when each outcome happens; `RejectedForkOffTheFirstBlock` is an instance.
- The statistics counters hold 32 bits while reports of anonymous users are not limited: they are exact as
  long as the live listening time is below 2^32 seconds and cannot be from there on (`TwoLongReports`).
- A friendship request to oneself is accepted, and the account then waits for itself (`MayWaitForItself`); for two different
  accounts waiting is never mutual.
- The withdraw route to the account with id 0 is passed over, both in the check against 100% and in payments:
  `ShareIsPaid` and `CheckedPercents` say what that changes, `RoutesBeyondAll` is an instance.
- The pass over due power-downs goes by an account whose next part falls due behind the pass, and leaves it
  due. `NothingDueAfter` gives the exact condition, `OneAccountTwoWeeksBehind` an instance.
- Shares of a content are checked with a 32-bit sum: payees can get more than there is if and only if the
  sum does not fit 32 bits (`CheckedShares`); `SharesBeyondWhole` is an instance.
- A session that is undone restores the store and the history exactly if no session inside it was committed:
  `UndoneIffNoCommits`, and `CommitInsideLeavesTrace` as an instance.
- A redelegated amount can stay above the percentage of what is received, and below it, by what rounding
  single delegations loses: `RedelegatedIsNear` bounds it, `OneIsLeftOver` and `OneIsMissing` meet the bounds.
- Redelegations are meant to stay within 100% together. The check leaves out the percentage of a reporter that
  has no redelegation yet: `CheckedAgainstTotal` gives the difference, `TwoFullRedelegations` an instance.
- The square root is right below 2^62 only, although its parameter has 64 bits.

## Model

| member | source | states |
|---|---|---|
| `UndoSpec.RollBackRestores` | libraries/db/undo_database.cpp:95-117 | one rollback of a faithful record gives back every object and every next id of the earlier snapshot |
| `UndoSpec.AlwaysComposable` | libraries/db/undo_database.cpp:142-180 | two records in a row never meet in a cell of the merge table that is marked N/A |
| `UndoSpec.MergeCovers` | libraries/db/undo_database.cpp:142-180 | the merged record is faithful from the start of the older session to now, with the three id sets disjoint |
| `UndoSpec.MergeThenRollBack` | libraries/db/undo_database.cpp:129-242 | rolling back the merged record once equals rolling back the two records one after the other |
| `UndoSpec.LoopsFollowTable` | libraries/db/undo_database.cpp:181-235 | what the loops of merge leave in the three containers is the merge table in all its cells |
| `UndoSpec.FitTogether` | libraries/db/undo_database.cpp:181-235 | the combinations that merge asserts away do not occur |
| `UndoSpec.PopStands` | libraries/db/undo_database.cpp:119-127 | popping the newest record restores the newest snapshot and leaves a stack that stands for the remaining snapshots |
| `UndoSpec.MergeStands` | libraries/db/undo_database.cpp:129-242 | merging the two newest records drops exactly the newer of their two snapshots |
| `UndoSpec.CreateStands` | libraries/db/undo_database.cpp:47-58 | recording a created object keeps the stack of differences a stack of snapshots |
| `UndoSpec.ModifyStands` | libraries/db/undo_database.cpp:60-71 | recording a changed object keeps the stack of differences a stack of snapshots, whatever was recorded for it before |
| `UndoSpec.RemoveStands` | libraries/db/undo_database.cpp:73-93 | recording a removed object keeps the stack of differences a stack of snapshots, also when it was new or changed before |
| `Undo.UndoDatabase.StartUndoSession` | libraries/db/undo_database.cpp:33-45 | when a session is pushed, what it enables, and that only the oldest states beyond the size limit are dropped |
| `Undo.UndoDatabase.Create` | libraries/db/undo_database.cpp:47-58 | an object gets the next id of its index, an id never used before, and the change is noted |
| `Undo.UndoDatabase.Modify` | libraries/db/undo_database.cpp:60-71 | an existing object changes, nothing else does, and the change is noted |
| `Undo.UndoDatabase.Remove` | libraries/db/undo_database.cpp:73-93 | an object goes, nothing else changes, and the change is noted |
| `Undo.UndoDatabase.RollbackState` | libraries/db/undo_database.cpp:95-117 | the container-by-container rollback equals the rollback of the record as a whole |
| `Undo.UndoDatabase.Undo` | libraries/db/undo_database.cpp:119-127 | the objects and next ids are exactly those of the start of the newest session |
| `Undo.UndoDatabase.Merge` | libraries/db/undo_database.cpp:129-242 | nothing visible changes, the newest snapshot is forgotten, and the new top of the stack is the merge of the two old ones |
| `Undo.UndoDatabase.Commit` | libraries/db/undo_database.cpp:243-247 | a session ends and its state stays on the stack |
| `Undo.UndoDatabase.PopCommit` | libraries/db/undo_database.cpp:249-264 | the last committed state is given up and its snapshot is restored; fails with open sessions or nothing to pop |
| `UndoRuns.RunKeepsHistory` | libraries/db/undo_database.cpp:33-264 | over every nested run of changes and of sessions that are merged or undone, the snapshots below the run survive except those that the nesting pushes out of the size limit |
| `UndoRuns.UndoneSessionLeavesNoTrace` | libraries/db/undo_database.cpp:119-127 | whatever runs inside a session that is undone, the store is as before it, unless a session inside was committed |
| `UndoRuns.UndoneIffNoCommits` | libraries/db/undo_database.cpp:119-127 | with room on the stack, an undone session leaves store, next ids and snapshots as they were if and only if no session inside of it was committed |
| `UndoRuns.CommitInsideLeavesTrace` | libraries/db/undo_database.cpp:119-127 | an instance in which a session committed inside an undone one keeps the store from going back |
| `UndoRuns.BlocksAreRemembered` | libraries/db/undo_database.cpp:243-264 | after any number of blocks in committed sessions the newest snapshots are those from which the blocks began |
| `UndoRuns.BlocksArePopped` | libraries/db/undo_database.cpp:243-264 | giving up committed blocks leaves exactly the state in which the oldest of them began, as far as the size limit remembers it |
| `UndoRuns.Execute` | libraries/db/undo_database.cpp:33-264 | running any program of changes, nested sessions that are merged, undone or committed, and pops of commits on the stack of differences gives what running it on full snapshots gives |
| `ForkDb.ForkDatabase.FetchBranchFrom` | libraries/chain/fork_database.cpp:172-214 | two branches are returned if and only if both blocks are indexed and their links meet; they are parent-linked and end where the forks part |
| `ForkTree.BranchesAreDisjoint` | libraries/chain/fork_database.cpp:172-214 | unless one block is an ancestor of the other, the two branches share no block |
| `ForkTree.SharedParentIsCommon` | libraries/chain/fork_database.cpp:172-214 | the block that both branches build on is a common ancestor as soon as a link to it is alive |
| `ForkTree.HighestCommonAncestor` | libraries/chain/fork_database.cpp:172-214 | no common ancestor is higher than the block that both branches build on, and none but that block is as high |
| `ForkTree.AncestorEndsBoth` | libraries/chain/fork_database.cpp:172-214 | if one block is an ancestor of the other, both branches end in it |
| `ForkDb.ForkDatabase.PushBlock` | libraries/chain/fork_database.cpp:33-85 | exactly which blocks are accepted, what the index and the head become, with old blocks dropped when the head moves, and that a new block is linked to its indexed parent |
| `ForkDb.ForkDatabase.PopBlock` | libraries/chain/fork_database.cpp:14-20 | the head moves to its parent if that is linked and still indexed or owned by a local variable, else nothing changes |
| `ForkDb.ForkDatabase.SetMaxSize` | libraries/chain/fork_database.cpp:102-131 | exactly the blocks too far below the head are forgotten |
| `ForkDb.ForkDatabase.Remove` | libraries/chain/fork_database.cpp:221-224 | exactly the named block leaves the index |
| `PushedBranches.PushedIsLinked` | libraries/chain/fork_database.cpp:49-76 | a new block is indexed, with a live link to its parent unless that is the null id; a block that becomes the head drops exactly those too far below it |
| `PushedBranches.PushedBranchParts` | libraries/chain/fork_database.cpp:49-76 | a branch pushed block by block within the size kept meets the chain at the block it was built on |
| `PushedBranches.LongerForkSwitches` | libraries/chain/database.cpp:611-646 | a fork that comes in block by block is switched to with the block that makes it the longest, if the undo history reaches its start and each of its blocks can be applied |
| `ChainDb.Database.ApplyBlock` | libraries/chain/database.cpp:2602-2670 | a block is executed; the depths of the undo and fork databases follow the last irreversible block |
| `ChainDb.Database.TryBlock` | libraries/chain/database.cpp:639-646 | a block in its own undo session is applied and stored as a whole, or only the depths change |
| `ChainDb.Database.ApplyBranch` | libraries/chain/database.cpp:634-662 | applying a branch block by block stops at the first refused one |
| `ChainSpec.TriedAllReplays` | libraries/chain/database.cpp:634-646 | applying blocks in sessions ends in the state that plain replay ends in, and stores exactly the blocks that were applied |
| `BranchPaths.ReplayRestores` | libraries/chain/database.cpp:667-675 | replaying the last blocks of a chain from the snapshot before them gives the state of the chain again |
| `BranchPaths.StoringRestores` | libraries/chain/database.cpp:667-675 | storing the old branch again puts the block index back up to the old head |
| `ChainDb.Database.PopBlock` | libraries/chain/database.cpp:903-921 | a block is taken back if there is undo state and the fork database can move its head; else nothing is lost |
| `ChainDb.Database.PopTo` | libraries/chain/database.cpp:628-632 | popping reaches the fork point if and only if the undo history and the links reach it, counting blocks that local variables own |
| `ChainDb.Database.SwitchFork` | libraries/chain/database.cpp:617-690 | when a switch succeeds, the state is the replay of the new branch from the fork point; when a block is refused, state, head, block index and undo history are as before and the refused blocks have left the fork index; exactly when each happens |
| `ChainDb.Database.PushBlock` | libraries/chain/database.cpp:611-702 | which of the outcomes it is, decided before anything changes, and what each leaves: a refused block, a side branch and a failed switch keep state, head, block index and undo history; a switch goes to a higher head only and ends in the replayed state |
| `ChainDb.LeaveLinks` | libraries/chain/database.cpp:625-632 | leaving the old branch, the head moves down the new branch, whose blocks are owned, exactly if it came in with a link |
| `ChainDb.ReturnLinks` | libraries/chain/database.cpp:657-664 | returning, the head moves down the old branch whatever the fork database has dropped, and below it only as far as blocks are still indexed |
| `ChainDb.ShortTrialReturns` | libraries/chain/database.cpp:648-664 | when fewer blocks were applied than the old branch has, a failed switch is taken back exactly if the undo history reached deep enough at every block |
| `ChainDb.ReturnNeedsAncestors` | libraries/chain/database.cpp:657-664 | beyond that it is taken back only as far as the fork database has ancestors of the old branch |
| `ChainDb.NoReturnBelowUnlinkedBranch` | libraries/chain/database.cpp:657-664 | an old branch that starts unlinked cannot be returned to once as many blocks of the new one were applied as it is long |
| `ChainDb.RejectedForkOffTheFirstBlock` | libraries/chain/database.cpp:657-664 | a concrete failed switch that is not taken back: two branches from the very first block |
| `ChainDb.IndexedTipCanLeave` | libraries/chain/database.cpp:628-632 | when the fork head is the indexed new tip, leaving the old branch only takes enough undo history |
| `ProxyTally.WalkIsGain` | libraries/chain/database.cpp:1351-1405 | what one walk up a proxy chain adds is what the counts from scratch gain |
| `ProxyTally.TalliedAttach` | libraries/chain/database.cpp:1351-1382 | giving an account a proxy and walking up its chain keeps every proxied_vsf_votes entry equal to the count from scratch |
| `ProxyTally.TallyIsTotalVests` | libraries/chain/database.cpp:3543-3547 | what validate_invariants adds up over proxied and unproxied accounts is the sum of all vests, in spite of the depth cut-off |
| `ProxyTally.CountedOnce` | libraries/chain/database.cpp:3543-3547 | the vests of each account are counted at exactly one account |
| `ProxyVotes.VoteTally.AdjustWitnessVotes` | libraries/chain/database.cpp:1407-1416 | every witness the account votes for gets the change, no other does; fails exactly when one of them would have more votes than there are vests |
| `ProxyVotes.VoteTally.AdjustProxiedAll` | libraries/chain/database.cpp:1351-1381 | one walk with a whole array of changes adds to each account of the chain what is due at its distance |
| `ProxyVotes.VoteTally.AdjustProxied` | libraries/chain/database.cpp:1383-1405 | one walk with a single change, up to the depth limit |
| `ProxyVotes.VoteTally.ChangeVests` | libraries/chain/database.cpp:1035-1072 | after vests change, all proxied votes and witness votes equal a count from scratch; fails exactly when the guard on total vests stops the walk |
| `ProxyVotes.VoteTally.VoteWitness` | libraries/chain/base_evaluator.cpp:488-523 | exactly who may vote and withdraw a vote; the tallies still equal a count from scratch |
| `ProxyVotes.VoteTally.ChainIsShort` | libraries/chain/base_evaluator.cpp:455-466 | the walk from the new proxy succeeds if and only if its chain is short enough and never leads to the account itself |
| `ProxyVotes.VoteTally.SetProxy` | libraries/chain/base_evaluator.cpp:442-486 | exactly when a proxy can be set, changed or cleared; afterwards the chains have no cycle and all tallies equal a count from scratch; a failure changes nothing |
| `OrderSpec.TradeIsPossible` | libraries/chain/database.cpp:3145-3177 | a trade uses up at least one side, takes from neither more than it offers and pays both something |
| `OrderSpec.LimitsHonoured` | libraries/chain/database.cpp:3145-3177 | both limit prices are honoured up to rounding down once, and one side gets its exact price |
| `OrderSpec.TradeFits` | libraries/chain/protocol/asset.cpp:118-140 | the products of a trade fit 64 bits, so the assertion on them holds |
| `OrderSpec.NotAboveHighest` | libraries/chain/database.cpp:3126-3133 | no order that can be in the book is priced above the upper bound of the search |
| `OrderSpec.AtLeastTransitive` | libraries/chain/protocol/asset.cpp:74-116 | prices are totally ordered as fractions |
| `BookIndex.Inserted` | libraries/chain/include/btcm/chain/base_objects.hpp:151-170 | a new order in its place keeps the book ordered by price and age |
| `BookIndex.RangeIsCrossing` | libraries/chain/database.cpp:3126-3130 | the positions between the two bounds hold exactly the orders that cross the new one |
| `OrderBook.TradeUsesUp` | libraries/chain/database.cpp:3145-3187 | after a trade at least one order is gone, survivors still ask for at least one unit, and no third order changes |
| `OrderBook.TradeKeepsTotals` | libraries/chain/database.cpp:3145-3187 | a trade changes no total of balances and held amounts, for any asset |
| `OrderBook.CreditsAreGains` | libraries/chain/database.cpp:3189-3226 | for every account and asset: the two sellers of a trade gain what Trade says and refunds, and no other balance changes |
| `OrderBook.ExchangedMore` | libraries/chain/database.cpp:3123-3143 | over the trades of a queue the gains of every account add up, order by order |
| `OrderBook.BestAndOldestFirst` | libraries/chain/database.cpp:3126-3142 | the orders that a new one crosses are met best price first, compared as fractions, and at the same price oldest first |
| `OrderBook.Market.FillOrder` | libraries/chain/database.cpp:3189-3226 | the seller, and nobody else, receives what the order gets and, when the remainder is too small to ask for a unit and leaves the book, that remainder |
| `OrderBook.Market.Match` | libraries/chain/database.cpp:3145-3187 | for every account and asset, what it has after a trade at the older price: each seller gets what the other pays and a remainder that leaves the book; the result says which orders left; all totals are kept |
| `OrderBook.Market.ApplyOrder` | libraries/chain/database.cpp:3123-3143 | orders that cross are matched in turn until the new one is gone; every account has exactly what its orders received in these trades, and remainders that left the book; all matched orders but the last are used up; afterwards no two orders cross |
| `OrderBook.Market.LimitOrderCreate` | libraries/chain/base_evaluator.cpp:576-599 | exactly when an order is accepted, the trades it makes and what every account has after them; the book is uncrossed and all totals are as they were; a fill-or-kill order is filled or nothing happens |
| `OrderBook.Market.LimitOrderCreate2` | libraries/chain/base_evaluator.cpp:601-624 | the same with a given price; offers that round to nothing are rejected |
| `OrderBook.Market.CancelOrder` | libraries/chain/database.cpp:3228-3232 | what was for sale goes back to the seller |
| `OrderBook.Market.LimitOrderCancel` | libraries/chain/base_evaluator.cpp:626-629 | an existing order is cancelled and its seller alone gets back what it had for sale, else nothing changes |
| `OrderBook.Market.ClearExpiredOrders` | libraries/chain/database.cpp:3245-3255 | exactly the expired orders go, every seller gets back what they held, and all totals are kept |
| `LedgerSpec.BuyingDoesNotDilute` | libraries/chain/database.cpp:1040-1052 | turning BTCM into vests never lowers the BTCM that a vest stands for |
| `LedgerSpec.SellingDoesNotDilute` | libraries/chain/database.cpp:1574-1589 | turning vests into BTCM never lowers it either, and the fund can pay |
| `LedgerSpec.NothingOverpaid` | libraries/chain/database.cpp:1881-1957 | with shares within 100% what accumulates for a content is what rounding leaves over, never negative |
| `LedgerSpec.OverpaidBeyondWhole` | libraries/chain/database.cpp:1881-1957 | payees never get more than there is, whatever is paid, if and only if their shares do not exceed the whole |
| `LedgerSpec.CheckedShares` | libraries/chain/protocol/btcm_operations.cpp:67-72 | shares that pass the 32-bit check, with a sum of 100% or of nothing, are never overpaid if and only if their sum fits 32 bits |
| `LedgerSpec.SharesBeyondWhole` | libraries/chain/protocol/btcm_operations.cpp:116-123 | an instance: two shares that pass the check as 100%, and a payout that leaves the content in debt |
| `LedgerSpec.SharesDoNotExceed` | libraries/chain/database.cpp:1881-1957 | rounded shares of a payout add up to no more than the payout |
| `LedgerSpec.NoGainByVesting` | libraries/chain/database.cpp:1035-1072 | BTCM turned into vests and back at once is not more than before |
| `LedgerSpec.VestsAreFloored` | libraries/chain/database.cpp:1040-1052 | BTCM makes the most vests that are not worth more than it, and as many vests as BTCM while there are none |
| `LedgerSpec.InterestIsDue` | libraries/chain/database.cpp:3317-3341 | interest is paid exactly when 30 days have passed since the last payment: the yearly rate on XUSD times seconds, but for two roundings |
| `LedgerSpec.InterestGoesOn` | libraries/chain/database.cpp:3317-3341 | touching an account before interest is due changes nothing about what it gets later |
| `LedgerSpec.XusdIsFloored` | libraries/chain/base_evaluator.cpp:550-573 | XUSD issued for BTCM is the most that is not worth more at the price |
| `Payees.PayeesGetShares` | libraries/chain/database.cpp:1881-1957 | for every account: what it is paid is its shares of the payout, each rounded down and each turned into XUSD at the price and rounded down, with interest once; without a price it is BTCM; others get nothing |
| `Ledger.Chain.AdjustBalance` | libraries/chain/database.cpp:3307-3368 | the balance changes after interest that is due is paid, by the yearly rate on XUSD times seconds; interest raises balance and XUSD supply alike; no other account changes |
| `Ledger.Chain.AdjustSupply` | libraries/chain/database.cpp:3370-3390 | the supply changes, with nine times a positive change added to the vesting fund and the supply where asked for, but not in the first week |
| `Ledger.Chain.CreateVesting` | libraries/chain/database.cpp:1035-1072 | the most vests that the BTCM can buy at the price of the fund are made, for the account and the total alike |
| `Ledger.Chain.CreateMbd` | libraries/chain/database.cpp:1005-1029 | BTCM is paid as the XUSD it is worth at the actual median price, rounded down, out of one supply into the other, besides interest, or as BTCM without a price |
| `Ledger.Chain.Transfer` | libraries/chain/base_evaluator.cpp:299-321 | supply equals holdings afterwards; one account pays and the other receives the amount |
| `Ledger.Chain.TransferToVesting` | libraries/chain/base_evaluator.cpp:323-331 | supply equals holdings afterwards; the amount becomes vests at the current price |
| `Ledger.Chain.PayFee` | libraries/chain/database.cpp:472-479 | a fee leaves account and supply |
| `Ledger.Chain.Convert` | libraries/chain/base_evaluator.cpp:550-573 | BTCM leaves account and supply, and the XUSD it is worth at the effective median price, rounded down, enters both, besides interest |
| `Ledger.Chain.AccountCreate` | libraries/chain/base_evaluator.cpp:60-104 | the fee of the creator becomes vests of the new account |
| `Ledger.Chain.ClaimBalance` | libraries/chain/btcm_evaluator.cpp:627-657 | a claim moves at most what is unclaimed to the account |
| `Ledger.Chain.OpenOrder` | libraries/chain/base_evaluator.cpp:576-599 | what is for sale moves from the balance to the order |
| `Ledger.Chain.FillOrders` | libraries/chain/database.cpp:3145-3213 | each side receives what the other pays, exactly the orders that paid everything go, and supplies equal holdings |
| `Ledger.Chain.MatchOrders` | libraries/chain/database.cpp:3145-3226 | a whole match of two orders of the book: what is held for them afterwards, refunds of small remainders, and supplies equal to holdings |
| `Ledger.HeldIsKept` | libraries/chain/database.cpp:3145-3226 | what is held for two matched orders is what the book keeps of them |
| `Ledger.Chain.CancelOrder` | libraries/chain/database.cpp:3228-3232 | what is held for the order goes back to its seller |
| `Ledger.Chain.PayToSide` | libraries/chain/database.cpp:1881-1957 | every payee gets exactly its share of the payout and of what had accumulated, in the way payouts are made, and the rest accumulates |
| `Ledger.Chain.PayToContent` | libraries/chain/database.cpp:1970-1994 | the platforms' part is its percentage of the payout and the composition's part its percentage of the rest, both rounded down; payees of either side are paid from its part, none of it lost |
| `Ledger.OneSplit` | libraries/chain/database.cpp:1842-1862 | the percentages and their rounding leave only one way to split a reward |
| `Ledger.WhoIsPaid` | libraries/chain/database.cpp:1842-1862 | who gets what of a report: payees by their shares, each platform the vests its part makes at the price it finds |
| `Ledger.Chain.PayReport` | libraries/chain/database.cpp:1842-1862 | how a reward is split among both sides of the content and both platforms, by which percentages, and what every account has after it; the two platforms get vests one after the other |
| `Ledger.Chain.ContentCashout` | libraries/chain/database.cpp:1794-1879 | a cashout pays report after report, leaves contents, accounts and fund as these leave them, and adds exactly the sum of the rewards to what accounts and contents have |
| `Ledger.Chain.ProducerReward` | libraries/chain/database.cpp:2051-2074 | the producer is paid as vests or as balance, ahead of the supply |
| `Ledger.Chain.BlockRewards` | libraries/chain/database.cpp:2648-2655 | after producer reward, process_funds, cashout and adjust_funds contents and accounts are as paying the producer and then each report leaves them, and the supply equals all holdings again |
| `Ledger.Chain.WithdrawVests` | libraries/chain/database.cpp:1511-1631 | what every account gets of a power-down payment: vests by its routes, and BTCM for each sale at the price that the sales before leave, rounded down; supply, holdings and total vests stay in step |
| `Ledger.Chain.ContentCreate` | libraries/chain/btcm_evaluator.cpp:464-532 | a new content has nothing accumulated, and one side only without third-party publishers |
| `Ledger.Chain.ContentDisable` | libraries/chain/btcm_evaluator.cpp:602-612 | a content is disabled once, and nothing owed changes |
| `Ledger.Chain.ContentUpdate` | libraries/chain/btcm_evaluator.cpp:534-600 | when which side may be changed and what changes; new shares are applied to what had accumulated, and supplies equal holdings |
| `ListeningSpec.RecountUpdate` | libraries/chain/database.cpp:1685-1699 | changing one listener's time changes the recount by what that listener counts for |
| `ListeningSteps.AdjustDeltaIs` | libraries/chain/database.cpp:1682-1699 | the branches of adjust_delta add up the difference between before and after, in 32 bits |
| `ListeningSteps.ReportCounted` | libraries/chain/btcm_evaluator.cpp:205-279 | after one more report all counters are exact if and only if the live listening time fits 32 bits |
| `ListeningSteps.TwoLongReports` | libraries/chain/btcm_evaluator.cpp:240-279 | an instance: after two anonymous reports of 2^31 seconds each the counters are wrong |
| `Listening.Statistics.StreamingPlatformReport` | libraries/chain/btcm_evaluator.cpp:147-286 | which reports are accepted; all times are kept, and all counters equal a recount if and only if the live time fits 32 bits |
| `Listening.Statistics.AdjustStatistics` | libraries/chain/database.cpp:1701-1792 | taking expired reports out leaves every time and counter, global and per platform, as a recount of the rest gives it |
| `Listening.Statistics.AdjustPlatform` | libraries/chain/database.cpp:1711-1777 | the part of one platform, whatever listeners it shares with others |
| `Listening.Statistics.ProcessContentCashout` | libraries/chain/database.cpp:1794-1879 | exactly the reports that are a day old are paid and removed, the statistics equal a recount; no more than the content reward is paid when the stakes are part of the total, and all of it but for at most three units a report when all reports are cashed, all platforms with a stake have some and nothing wraps around |
| `RewardBound.WeighedIsCapped` | libraries/chain/database.cpp:1662-1664 | capped and weighed by listener, the play time of a platform adds up to its full-users time |
| `RewardBound.RewardBelow` | libraries/chain/database.cpp:1647-1667 | three roundings and the wrap-around of 128 bits only take away from the exact share |
| `RewardBound.RewardsWithin` | libraries/chain/database.cpp:1647-1667 | however many reports are cashed out, their rewards add up to at most the content reward |
| `RewardRounding.RewardAbove` | libraries/chain/database.cpp:1647-1667 | while no product reaches 128 bits, three roundings take less from the exact share than the stated loss |
| `RewardRounding.RewardIsNearShare` | libraries/chain/database.cpp:1647-1667 | a report of an ordinary cashout gets its exact share but for less than three units |
| `RewardRounding.RewardsNearly` | libraries/chain/database.cpp:1807-1874 | when all reports are cashed and every platform with a stake has some, the rewards add up to the content reward less the stated losses |
| `VestingSpec.PaymentIsDue` | libraries/chain/database.cpp:1530-1534 | each part of a power-down is the rate or the rest, and the account can pay it |
| `VestingSpec.PaymentKeepsSolvent` | libraries/chain/database.cpp:1599-1616 | paying a part keeps delegated shares and what is still to be paid covered |
| `VestingSpec.PayoutsAreExact` | libraries/chain/database.cpp:1511-1616 | the parts add up to what was to be withdrawn, their number being the amount over the rate, rounded up |
| `VestingSpec.AtMostTwiceTheIntervals` | libraries/chain/base_evaluator.cpp:363-375 | a power-down from its start pays exactly its amount in 13 to 25 parts, or vest by vest when there are fewer than 13 |
| `VestingRoutes.DepositsAreListed` | libraries/chain/database.cpp:1562-1592 | exactly the accounts with a route of the kind are paid, each once with its share, in the order of their ids |
| `VestingRoutes.SomethingLeft` | libraries/chain/database.cpp:1595-1596 | with routes within 100% the assertion on what is left to convert holds |
| `VestingRoutes.PercentsFitSixteenBits` | libraries/chain/base_evaluator.cpp:427-436 | the 16-bit sum of percentages does not wrap around, and passing the check keeps the routes within 100% |
| `VestingRoutes.CheckedPercents` | libraries/chain/base_evaluator.cpp:427-436 | the check adds up all percentages but that of the route to account id 0 |
| `VestingRoutes.RoutesBeyondAll` | libraries/chain/base_evaluator.cpp:427-436 | two routes of 60% pass the check if one of them leads to account id 0 |
| `WithdrawalPass.NothingDueAfter` | libraries/chain/database.cpp:1520-1523 | after the one pass nothing is due if and only if between two due payments of one account a payment of another account falls due |
| `WithdrawalPass.OneAccountTwoWeeksBehind` | libraries/chain/database.cpp:1520-1523 | a single account two weeks behind gets one part and is still due |
| `WithdrawalPass.EveryDueAccountIsPaid` | libraries/chain/database.cpp:1520-1523 | every account that is due gets at least one part in a pass, and no other gets any |
| `Vesting.VestingShares.WithdrawVesting` | libraries/chain/base_evaluator.cpp:333-378 | when a power-down is accepted, what it sets, and that the account stays solvent |
| `Vesting.VestingShares.SetWithdrawVestingRoute` | libraries/chain/base_evaluator.cpp:380-440 | a route changes exactly when there is room for it and all routes stay within 100% |
| `Vesting.VestingShares.PayOut` | libraries/chain/database.cpp:1522-1631 | every routed account gets its percentage of the part, rounded down, the account pays the part, total vests equal the sum; what goes to whom as BTCM and what is left for the account itself |
| `Vesting.VestingShares.ProcessVestingWithdrawals` | libraries/chain/database.cpp:1511-1632 | the one pass over the index pays the accounts one after the other; all stay solvent, every due account gets a part, and nothing is due afterwards exactly if the payments of different accounts alternate |
| `DelegationSpec.DelegatedStep` | libraries/chain/base_evaluator.cpp:794-925 | a changed delegation changes the shares of both sides so that they equal the sums over the table |
| `DelegationSpec.EffectiveSharesAreVests` | libraries/chain/database.cpp:562-568 | effective vesting shares over all accounts are all vests minus what is on its way back |
| `Vesting.VestingShares.DelegateVestingShares` | libraries/chain/base_evaluator.cpp:794-953 | when a delegation is accepted and what becomes of delegation, expiration and redelegations; what is taken back stays out for the return period and until the minimum time; all shares equal the tables and all accounts stay solvent |
| `Vesting.VestingShares.AccountCreateWithDelegation` | libraries/chain/base_evaluator.cpp:106-184 | the new account receives the shares its creator delegates, if it can spare them |
| `Vesting.VestingShares.ClearExpiredDelegations` | libraries/chain/database.cpp:3257-3280 | exactly the expirations that are due go, however often each occurs, and for every account exactly their shares stop being delegated |
| `DelegationSpec.CheckedAgainstTotal` | libraries/chain/btcm_evaluator.cpp:69-80 | the check keeps all redelegations within 100% exactly for a reporter that has one already; the percentage of a new one escapes it |
| `DelegationSpec.TwoFullRedelegations` | libraries/chain/btcm_evaluator.cpp:69-80 | two reporters with 100% each pass the check |
| `RedelegationDrift.PartsOfSum` | libraries/chain/base_evaluator.cpp:926-945 | rounding the percentage of each delegation loses at most one share for every live delegation but one |
| `RedelegationDrift.DelegatingKeepsSlack` | libraries/chain/base_evaluator.cpp:926-945 | a changed delegation does not change by how much a redelegated amount exceeds the parts of the live delegations |
| `RedelegationDrift.RunStaysNear` | libraries/chain/base_evaluator.cpp:926-945 | over every run of delegations, requests, cancellations and new accounts that excess stays between nothing and what rounding lost at the last request |
| `RedelegationDrift.RedelegatedIsNear` | libraries/chain/btcm_evaluator.cpp:62-80 | a redelegated amount is never negative and differs from the percentage of what is received by at most the number of live delegations, now or at the last request, less one |
| `RedelegationDrift.OneIsLeftOver` | libraries/chain/base_evaluator.cpp:926-945 | an instance of the upper bound: 1 stays redelegated with nothing received |
| `RedelegationDrift.OneIsMissing` | libraries/chain/base_evaluator.cpp:926-945 | an instance of the lower bound: nothing is redelegated where 10% of 10 are due |
| `Vesting.VestingShares.RequestStreamReporting` | libraries/chain/btcm_evaluator.cpp:51-120 | exactly when a request is accepted; the redelegation becomes the percentage of what is received, and redelegated and rereceived shares equal the table |
| `Vesting.VestingShares.CancelStreamReporting` | libraries/chain/btcm_evaluator.cpp:122-145 | request and redelegation go, and shares equal the table |
| `WitnessSchedule.SelectVoted` | libraries/chain/database.cpp:1128-1140 | the most voted witnesses with a key are selected, at most 20 |
| `WitnessSchedule.SelectRunners` | libraries/chain/database.cpp:1142-1161 | the one in the lead by virtual time among the others fills the schedule up to 21, and exactly those whose turn is not later are looked at |
| `WitnessSchedule.Schedule.AdjustWitnessVote` | libraries/chain/database.cpp:1418-1436 | votes change or the operation fails for too many votes; without wrap-around the distance covered in the lap is kept and the rest of it is run at the new rate; no witness is scheduled for a time that has passed |
| `WitnessSchedule.ShufflePermutes` | libraries/chain/database.cpp:1258-1275 | the shuffle by block time is a permutation |
| `WitnessSchedule.DistanceIsKept` | libraries/chain/database.cpp:1418-1436 | a change of votes keeps the distance covered, and the next time is when the rest of the lap is run with the new votes, or the end of time |
| `WitnessSchedule.WholeLap` | libraries/chain/database.cpp:1163-1181 | a new lap is run from start to end by its next time, and starting again is a new lap from time 0 |
| `WitnessSchedule.Schedule.ResetVirtualScheduleTime` | libraries/chain/database.cpp:3425-3443 | virtual time starts again at zero for everybody |
| `WitnessSchedule.Schedule.StartLaps` | libraries/chain/database.cpp:1163-1181 | new laps start from the time reached, and an overflow is noticed exactly when it happens |
| `WitnessSchedule.Schedule.UpdateWitnessSchedule` | libraries/chain/database.cpp:1124-1280 | the schedule is the shuffle of the top voted and the runner, without duplicates; exactly those looked at start a new lap from the latest time among them; virtual time goes back only to zero, exactly when one of their laps does not fit 128 bits; no witness is scheduled for a time that has passed |
| `Irreversible.NthElement` | libraries/chain/database.cpp:3095-3112 | the number at the offset is the highest that enough witnesses have reached |
| `Irreversible.OffsetLeavesQuorum` | libraries/chain/database.cpp:3103-3103 | what lies at or behind the offset is the threshold of the witnesses, rounded up |
| `Irreversible.BlockFinality.ApplyBlock` | libraries/chain/database.cpp:3060-3120 | the last irreversible block never goes back nor passes the head, is raised only with a quorum behind it, and to the highest block with one |
| `SynopsisSpec.PositionsSummarise` | libraries/app/application.cpp:695-715 | the block numbers of a summary grow from low to the true high block, as many as the block count has bits |
| `SynopsisSpec.ChainIsToLast` | libraries/app/application.cpp:600-640 | a chain is determined by its last block, so the fork and the main chain below it are the known chain |
| `SynopsisSpec.PartsJoin` | libraries/net/node.cpp:2405-2419 | the entries up to a block and the entries after it are the whole summary |
| `Synopsis.GetBlockchainSynopsis` | libraries/app/application.cpp:600-719 | the chain half is the part of the summary up to the reference block, on the main chain or on a fork; exactly when there is none |
| `Synopsis.SummaryBeginsFinal` | libraries/app/application.cpp:611-700 | the first entry of a summary is the last final block of the main chain, or a reference block below it |
| `Synopsis.AppendPending` | libraries/net/node.cpp:2396-2419 | the network half completes it to one summary of known blocks and pending ids |
| `Synopsis.CreateSynopsisForPeer` | libraries/net/node.cpp:2374-2421 | both halves together are a single summary of the concatenated chain; exactly when there is none |
| `SyncPeers.GetBlockIds` | libraries/app/application.cpp:482-527 | the answer goes on from the last block of the summary that is part of the answering chain; exactly when there is none |
| `SyncPeers.SummaryOfChain` | libraries/net/node.cpp:2374-2421 | a summary is strictly increasing, ends with the last block and has as many entries as the block count has bits |
| `SyncPeers.HonestReplyAccepted` | libraries/net/node.cpp:2463-2534 | an honest answer passes every check |
| `SyncPeers.HonestReplyLengthens` | libraries/net/node.cpp:2610-2674 | every answer but the last adds limit minus one ids to the list, the last one ends with the peer's head |
| `SyncPeers.HonestReplyAdvances` | libraries/net/node.cpp:2570-2674 | every honest answer takes the end of what is known of a peer up its chain by a full answer less the known block, until its head is reached, also when nothing is to be got yet |
| `SyncPeers.SpliceKeepsJoined` | libraries/net/node.cpp:2554-2674 | after an acceptable answer the ids to get still follow each other and the last processed block, with one exception and the exact condition for it: nothing was to be got and the first id is the next one for another peer |
| `SyncPeers.HonestIsPlausible` | libraries/net/node.cpp:2650-2668 | a peer whose blocks keep the block interval and end within the grace period never promises too many blocks |
| `SyncPeers.SyncPeer.IsValidReply` | libraries/net/node.cpp:2463-2534 | the checks accept exactly sequential answers that start in the summary, or with block 1 for an empty one |
| `SyncPeers.SyncPeer.OnBlockchainItemIds` | libraries/net/node.cpp:2454-2674 | exactly which answers disconnect the peer, find it in sync or promise too many blocks; the others are spliced into the list, which depends on the lists of the other peers; the time that is kept stays that of the last processed block |
| `Friends.FriendGraph.Friendship` | libraries/chain/btcm_evaluator.cpp:323-366 | a request, a repeated request or an approval: friendship stays symmetric, waiting apart and one-sided, the second level exact; an account comes to wait for itself exactly if it sends a request to itself |
| `Friends.FriendGraph.Unfriend` | libraries/chain/btcm_evaluator.cpp:369-462 | withdrawing, declining and ending a friendship keep all of that |
| `Friends.ApprovedIsSound` | libraries/chain/btcm_evaluator.cpp:333-360 | adding one account to the caches of the other's friends makes every second level exact again |
| `Friends.EndedIsSound` | libraries/chain/btcm_evaluator.cpp:392-461 | rebuilding the caches of both accounts and their friends is enough |
| `SquareRoot.ISqrt` | libraries/chain/database.cpp:3748-3767 | the result is the integer square root if and only if the number is below 2^62 |

## Left out

- Networking, message encoding, key exchange, RPC, plugins and logging: input and output.
- Signatures, authorities, serialisation, Merkle roots and hashing: ids are values that determine a number.
- Pending transactions, the `skip_fork_db` path and the files of the block database: the block database is a map.
- `Undo.UndoDatabase.Commit`: says nothing about dropping old states, which only the next session does.
- The position of `_head` in the fork database after a switch: it can lag behind the head of the chain.
- Votes for streaming platforms: they have no check for a proxy, so their tally is not a count of weights.
- The guard that votes stay below total vests as a theorem: intermediate steps can exceed it, so it may fail.
- `OrderBook.Market.Place`: order numbers chosen by the owner are not modelled, so their uniqueness is not.
- `OrderBook.Market.ClearExpiredOrders`: cancels in some order rather than by expiration; balances do not depend on it.
- Balances below zero in `asset` arithmetic and `amount_to_string`.
- `Ledger.Chain.FillOrders`: takes the two amounts of a trade as they are; `Ledger.Chain.MatchOrders` computes them.
- `Ledger.Chain.ContentUpdate`: metadata and management votes are not modelled.
- `virtual_supply` and `total_reward_fund_btcm`: not part of the supply equation.
- User-issued assets in the ledger: their balances are part of the order book model only.
- Escrow, conversion requests, `perform_vesting_share_split`, hard forks and the genesis import: disabled, dead or one-time.
- `total_vested_by_platforms` as an invariant: withdrawals and some delegations do not update it.
- The cached score of accounts: it adds truncated differences.
- `Vesting.VestingShares.PayOut`: says which vests are sold for whom; the price they are sold at belongs to `Ledger.Chain.WithdrawVests`.
- `Listening.Statistics.AdjustStatistics`: one table per platform stands for the three containers of named, pseudonymous and anonymous listeners.
- Stakes that change during a cashout, because rewards are paid as vests: the reward bound holds for fixed stakes.
- Majority versions and hard fork votes in the witness schedule.
- `SyncPeers.SyncPeer.OnBlockchainItemIds`: what the node does after splicing, such as asking for blocks and counting what all peers owe.
- Getters, `amount_to_string` and the simple secondary indexes: they would only add easy members.
