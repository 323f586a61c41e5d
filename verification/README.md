# Third-eye, modelled in Dafny

Third-eye replays the event log of the Gearbox protocol and derives state from it: who earned how many
liquidity-mining rewards, which facade call an event belonged to, which credit session a token transfer went
to, which debts changed and when to raise an alarm. This project models the state machines and stream
transformers that do this, each next to a simple declarative description of what it is meant to compute, and
proves that the two agree for every input, every batching and every interleaving.

`dafny verify dfyconfig.toml` verifies everything.

| part | modules |
|---|---|
| Liquidity-mining rewards | `Sums`, `RewardSchedule`, `Rewards`, `RewardBatches`, `RewardFlows`, `PoolLMRewards` |
| Facade calls rebuilt from events | `Operations`, `FacadeCalls`, `FacadeClashes`, `MultiCallProcessor`, `ExecuteOrders`, `FacadeActions`, `MulticallMatch` |
| Direct token transfers | `DirectTransfers`, `DirectTransferManager`, `TransferRuns` |
| Debt engine | `DebtTracking`, `DebtInputs`, `DebtEngine`, `LiquidationAlerts` |
| Log streaming | `LogStream` |
| Traces | `Calls`, `CallTree`, `TraceOrder`, `ExecuteCalls`, `TraceSearch`, `ExecuteTransfers`, `TxLogs`, `LogCache` |
| Credit-manager books | `AccountBooks`, `AccountEnds`, `CreditManager` |
| Small stores | `PriceStore`, `AllowedTokens` |

Objects that the program updates in place are classes; each of their methods is tied to a function on values
(`View()`, `Books()`, `Rows()` and so on), and the laws are proved about that function over whole runs.
Addresses, hashes and token symbols are numbers that are only compared; `big.Int` is `int`; walking a Go map is
picking keys in an arbitrary order; `log.Fatal` and panics are a `None`, a returned `false`, or, where the
code would divide by zero or follow a nil pointer, a precondition.

## Where the code falls short of its intent

Each of these is stated as an exact condition, or as the exact answer of the code, with a lemma at an input
that fails.

- Rewards stop the program with a division by zero when a token that pays rewards has been burnt in full
  (`Rewards.DivisibleIff`; input: `Rewards.FullBurnStops`).
- A multicall that starts while the latest main action is a close is swallowed by that close. The transaction is
  then not recovered, unless nothing but empty multicalls and a final empty close follow
  (`FacadeClashes.RoundTripIff`; inputs: `FacadeClashes.ClashStops`, `FacadeClashes.ClashPasses`).
- Returning one transfer of a transaction forgets the others, so those cut off by a session boundary are lost
  (`DirectTransfers.LosesIff`; input: `DirectTransfers.CutLoses`). The cut needs logs of two transactions that
  interleave, which a chain does not produce: on a chain nothing is ever lost (`TransferRuns.Replay`).
- A transfer of a credit account to itself is booked as outgoing (`ExecuteTransfers.RealFlowIff`; input:
  `ExecuteTransfers.SelfTransferCharged`).
- Logs that come back to an earlier transaction lose part of it (`TxLogs.ExactIff`; input:
  `TxLogs.InterleavedLoses`).
- Opening or transferring to an owner that already has a session leaves a session counted for ever
  (`AccountBooks.RunCounts`; input: `AccountBooks.OverwriteMiscounts`).
- Comparing multicalls with events crashes when there are no events although some call emits one
  (`MulticallMatch.SameMulticallLenAsEvents`; input: `MulticallMatch.NoEventsCrash`).
- The comment on the v2 rules for allowed tokens speaks of a missing threshold; the code tests for one whose
  low 64 bits are zero, so a bare allow does nothing for a token whose threshold is zero, even a forbidden one
  (`AllowedTokens.AllowCarries`; input: `AllowedTokens.ZeroStaysForbidden`).

One guard is idle: the test for a repeated block number in the log cache never holds, because the element before
the insertion point is always smaller. Numbers stay distinct all the same as long as no request fails
(`LogCache.InsertInSlice`, `LogCache.TxLogger.GetLogs`).

## Model

| member | source | states |
|---|---|---|
| `RewardSchedule.QueryShape` | models/pool_lmrewards/log.go:93-100 | the answer of the rate table for a range is ascending, at or below its end, and only its first entry may lie at or before its start |
| `RewardSchedule.AccruedIsClip` | models/pool_lmrewards/log.go:93-122 | the loop over answered snapshots charges each schedule entry for exactly the blocks of the range in which it is in force |
| `RewardSchedule.WeightedIsRateSum` | models/pool_lmrewards/log.go:93-122 | weighting each schedule entry by its blocks is the sum, block by block, of the rate in force at that block |
| `RewardSchedule.ClipBounds` | models/pool_lmrewards/log.go:104-116 | the integer accrual is at most the exact one and short by less than one unit per schedule entry in force |
| `RewardSchedule.ClipSplit` | models/pool_lmrewards/log.go:93-122 | charging a range in two parts instead of one loses at most one unit |
| `Rewards.TransferConserves` | models/pool_lmrewards/log.go:51-90 | every log keeps the sum of the users' balances equal to the tracked supply: mints, burns and self transfers included |
| `Rewards.StreamConserves` | models/pool_lmrewards/log.go:29-90 | the same at every block of every stream |
| `Rewards.AccrualRounds` | models/pool_lmrewards/log.go:93-122 | over one charged range a holding gets the exact share rounded down, short by less than one unit per segment |
| `Rewards.RefinesNaive` | models/pool_lmrewards/log.go:29-132 | for every ascending stream and every split into batches, the stored integer reward is the naive block-by-block reward (balances, supply and rate in force at each block) rounded down, short by less than one unit per segment charged |
| `Rewards.RangesTile` | models/pool_lmrewards/log.go:38-43 | however a stream is cut into batches, the charged ranges hold every block from the first pending one to the last synced one exactly once, and no other block |
| `RewardFlows.TransferMoves` | models/pool_lmrewards/log.go:51-75 | entering a transfer moves exactly its amount from sender to receiver, the zero address standing for the supply, and nothing else |
| `RewardFlows.BooksAreFlows` | models/pool_lmrewards/log.go:29-90 | at every block of every stream a balance is the opening one plus the sum received minus the sum sent up to that block, and a supply the opening one plus mints minus burns |
| `RewardFlows.RateInForce` | models/pool_lmrewards/log.go:93-122 | the rate of a block is that of the latest snapshot at or before it, and zero before the first |
| `RewardFlows.NaiveIsShares` | models/pool_lmrewards/log.go:93-122 | the naive reward is the sum over the blocks of balance times rate over supply, both read off the transfers up to that block |
| `RewardFlows.RewardIsShares` | models/pool_lmrewards/log.go:29-132 | the integer reward of every ascending stream is that sum rounded down, short by less than one unit per segment |
| `RewardBatches.ExtraBoundary` | models/pool_lmrewards/model.go:65-74 | one more batch boundary anywhere in a stream lowers a holding's reward by at most one unit and never raises it, and does not reach the division by zero if it ends no earlier than its last log |
| `RewardBatches.BoundaryDivides` | models/pool_lmrewards/model.go:65-74 | the stream with the added batch end divides safely if and only if that end charges a block or the books at that point allow it |
| `Rewards.RangeEmission` | models/pool_lmrewards/log.go:93-122 | over one range any set of users together gets no more than rate times blocks |
| `Rewards.RangeEmissionFloor` | models/pool_lmrewards/log.go:93-122 | all holders together fall short of it by less than one unit per holder and segment |
| `Rewards.StreamEmission` | models/pool_lmrewards/log.go:29-132 | over a whole stream no set of users gets more than the schedule pays out |
| `Rewards.DivisibleIff` | models/pool_lmrewards/log.go:104-116 | the division by the supply is safe if and only if no rate applies or every charged token still has a holder with a positive balance |
| `Rewards.FullBurnStops` | models/pool_lmrewards/log.go:51-75 | a mint followed by a burn of everything reaches the division by zero |
| `PoolLMRewards.Tracker.constructor` | models/pool_lmrewards/model.go:48-63 | a new tracker has the reloaded supplies, no balances and no rewards, and charges from the block after the synced one |
| `PoolLMRewards.Tracker.CalculateRewards` | models/pool_lmrewards/log.go:93-122 | pays every user of every pool what the range is worth, whatever the order of the maps |
| `PoolLMRewards.Tracker.OnLog` | models/pool_lmrewards/log.go:29-76 | charges the blocks before the log under the old books and moves the pending block; then the receiver, unless it is the zero address, has the amount more and the sender, unless it is, the amount less, the supply grows by a mint and shrinks by a burn, and no other balance or supply changes |
| `PoolLMRewards.Tracker.AfterSyncHook` | models/pool_lmrewards/model.go:65-74 | charges up to the synced block and leaves the books alone |
| `PoolLMRewards.Tracker.Replay` | models/pool_lmrewards/reward_calc_test.go:52-96 | a whole stream pays each pool and user the sum over its tokens of `Rewards.Earned`, charges exactly the ranges that `Rewards.RangesTile` speaks of, and leaves every balance at the opening one plus all received minus all sent, and every supply at the opening one plus mints minus burns |
| `PoolLMRewards.StoredRewardRefinesNaive` | models/pool_lmrewards/log.go:29-132 | what a stream adds to the stored reward of any pool is, summed over the pool's diesel tokens and over the blocks, balance (opening, plus received, minus sent up to that block) times rate in force over supply, rounded down once per token and segment |
| `MultiCallProcessor.Grouper.AddMulticallEvent` | ds/multicall_processor.go:43-64 | one step of the per-transaction state machine for an inner event, its failure included |
| `MultiCallProcessor.Grouper.AddOpenEvent` | ds/multicall_processor.go:66-75 | the step for an open event; a second open fails |
| `MultiCallProcessor.Grouper.Start` | ds/multicall_processor.go:84-97 | the step for a started multicall |
| `MultiCallProcessor.Grouper.AddCloseOrLiquidateEvent` | ds/multicall_processor.go:99-104 | the step for a close or a liquidation |
| `MultiCallProcessor.Grouper.End` | ds/multicall_processor.go:106-115 | the step for a finished multicall |
| `MultiCallProcessor.Grouper.PopMainActions` | ds/multicall_processor.go:122-134 | hands out the main actions, opens without a multicall apart, and forgets them |
| `MultiCallProcessor.Grouper.PopNonMulticallEvents` | ds/multicall_processor.go:136-140 | hands out the events outside multicalls in order and forgets them |
| `MultiCallProcessor.FixFacadeActionStructure` | models/credit_manager/facade_actions.go:18-57 | the regrouping loop computes the recursive regrouping, and stops where that one has no answer |
| `MultiCallProcessor.Grouper.Transaction` | models/credit_manager/v2.go:146-181 | a transaction's events run through the machine, both pops and the regrouping, which is skipped when no action is left |
| `MultiCallProcessor.TransactionRoundTrip` | models/credit_manager/v2.go:146-181 | for every transaction within the promise, the object gives back its calls, its plain opens and its side events, and is idle again |
| `FacadeCalls.RunCalls` | ds/multicall_processor.go:43-115 | without a clash the machine holds exactly the groups of the calls and the side events, in order |
| `FacadeCalls.FixGrouped` | models/credit_manager/facade_actions.go:18-57 | regrouping against names and lengths of the trace undoes the grouping |
| `FacadeCalls.FixConsumes` | models/credit_manager/facade_actions.go:18-57 | a successful regrouping answers each call and has used up every action but for one exactly described case |
| `FacadeCalls.RoundTrip` | ds/multicall_processor.go:43-134 | every transaction with at most one open and no multicall started behind a close is recovered exactly, each call with its own inner events in order |
| `FacadeClashes.RoundTripIff` | ds/multicall_processor.go:84-97 | every call of a transaction comes back with its data and inner events if and only if no multicall starts while the latest main action is a close, or from the first such multicall on there are only empty multicalls, started alike, and a last empty close |
| `FacadeClashes.MulticallShort` | models/credit_manager/facade_actions.go:18-57 | the regrouping with one action missing at a multicall: exactly when it is right after all |
| `FacadeClashes.CloseShort` | models/credit_manager/facade_actions.go:38-49 | the same at a close: right only for a last close without inner events |
| `FacadeClashes.FixPrefix` | models/credit_manager/facade_actions.go:18-57 | the calls before the clash are regrouped as they were, but for what the last close swallowed |
| `FacadeClashes.ClashStops` | ds/multicall_processor.go:84-97 | a close and then a multicall with an event stop the program |
| `FacadeClashes.ClashPasses` | ds/multicall_processor.go:84-97 | a close and then an empty close with multicalls clash and come back |
| `FacadeCalls.RunAnyCalls` | ds/multicall_processor.go:43-115 | each clash costs exactly one action |
| `FacadeCalls.TwoOpensStop` | ds/multicall_processor.go:66-75 | a second open stops the run, whatever lies between |
| `ExecuteOrders.SplitSeparates` | models/credit_manager/facade_actions.go:117-127 | splitting the sorted merge gives back the orders inside and those outside multicalls |
| `ExecuteOrders.ActionsRejoin` | models/credit_manager/facade_actions.go:130-146 | putting the parsed orders back never reaches the index mismatch, and replaces each inner order by the operation made from its own parameter |
| `ExecuteOrders.OrdersResolved` | models/credit_manager/facade_actions.go:98-147 | with distinct log ids in log order, the outer orders are saved once each, and every inner order becomes an operation with its own log id and dapp, the session and borrower of its main action, and the call parsed for it; every other inner event stays |
| `FacadeActions.CollectParams` | models/credit_manager/facade_actions.go:67-110 | stops if and only if some action disagrees with its call in main event or multicalls; otherwise the inner execute orders of all actions in order |
| `FacadeActions.SortByIndex` | models/credit_manager/facade_actions.go:112-114 | sorted by log id, and a permutation |
| `FacadeActions.SplitOrders` | models/credit_manager/facade_actions.go:117-127 | the splitting loop computes the split |
| `FacadeActions.RejoinActions` | models/credit_manager/facade_actions.go:130-146 | the rejoining loops compute the rejoin, or stop at the mismatch |
| `FacadeActions.ToOperations` | models/credit_manager/v2operation.go:43-67 | the outer orders become operations field by field |
| `FacadeActions.SavedIs` | models/credit_manager/facade_actions.go:98-147 | what splitting and rejoining leave is that saved form of every order |
| `FacadeActions.ValidateAndSave` | models/credit_manager/facade_actions.go:62-147 | stops exactly at such a disagreement, never at the index mismatch; for every transaction each inner and each outer order is saved as an operation with its own log id and dapp, the session and borrower of its main action or its own, and the call parsed at the place of its parameter among all orders |
| `MulticallMatch.SameMulticallLenAsEvents` | ds/execute_parser.go:61-124 | the exact verdict, crash included; without a test length, true means the events are the calls with revert checks dropped, facade calls mapped to their own events and each run of n adapter calls to at most n execute orders |
| `MulticallMatch.NoEventsCrash` | ds/execute_parser.go:61-124 | one facade call and no events crash it |
| `MulticallMatch.TightIsMatch` | ds/execute_parser.go:61-124 | what the scan accepts is such a match |
| `MulticallMatch.MatchIsTight` | ds/execute_parser.go:61-124 | without revert checks and with a facade call last, every match is accepted |
| `MulticallMatch.MatchedEvents` | ds/execute_parser.go:61-124 | in matched events the facade events are those of the facade calls in order, and execute orders are no more than adapter calls |
| `MulticallMatch.SingleVerdict` | ds/execute_parser.go:61-124 | a single facade call is accepted with exactly its own event: collateral added, debt increased or decreased, token enabled or disabled |
| `MulticallMatch.QuietVerdict` | ds/execute_parser.go:61-124 | in front of a facade call a revert check emits nothing, and an adapter call none or one execute order but not two |
| `DirectTransfers.SelectTransfers` | ds/direct_token_manager.go:108-128 | of a transaction, exactly the transfers not excluded by the open or close log of the session, with multiplicity |
| `DirectTransfers.GetRemainingTransfer` | ds/direct_token_manager.go:93-140 | the backward two-pointer scan returns, under each block and session, exactly the transfers in [from, to) whose last session begun by the block belongs to the manager, is not closed before the block and does not exclude them; only their transactions are forgotten |
| `DirectTransfers.ScanPartitions` | ds/direct_token_manager.go:93-140 | a scan keeps, returns or loses each stored transfer, and exactly one of the three |
| `DirectTransfers.LosesIff` | ds/direct_token_manager.go:53-57 | a scan loses nothing if and only if no transaction in its range is cut by a session boundary |
| `DirectTransfers.ContiguousNeverStraddles` | ds/direct_token_manager.go:108-128 | transactions that stay on one side of every boundary log of another transaction in their block are never cut |
| `DirectTransfers.CutLoses` | ds/direct_token_manager.go:115-136 | a transaction with logs on both sides of an opening log: one transfer returned, the other lost |
| `DirectTransferManager.ProcessFiles` | ds/direct_token_manager.go:41-51 | filing a transfer stores it once more and changes no other count |
| `DirectTransferManager.Manager.AddTokenTransfer` | ds/direct_token_manager.go:169-187 | recorded once for each side that is a credit account, under the conservation invariant |
| `DirectTransferManager.Manager.AddAccountDetails` | ds/direct_token_manager.go:189-197 | appends a session to its account and keeps the invariant |
| `DirectTransferManager.Manager.CloseAccountDetails` | ds/direct_token_manager.go:199-203 | each session of the account with the given start gets the closing block, hash and log id and is otherwise unchanged, and so is every other session, account and transfer; the invariant is kept |
| `DirectTransferManager.Manager.CheckTokenTransfer` | ds/direct_token_manager.go:206-229 | returns, under each block and session, exactly the stored transfers of the range for which that session was the last begun, was of the manager and not closed before, and which lie between its opening and closing logs, each as often as stored; these move from stored to returned, and what the scans cut off moves to lost |
| `DirectTransferManager.Manager.DeleteTxHash` | ds/direct_token_manager.go:231-237 | afterwards no account holds that block and hash, and exactly those transfers moved to removed |
| `DirectTransferManager.Manager.Clear` | ds/direct_token_manager.go:239-247 | moves everything stored to removed and keeps the sessions |
| `DirectTransferManager.Manager.Init` | ds/direct_token_manager.go:249-255 | every account's blocks are ascending and otherwise unchanged |
| `DirectTransferManager.FileKeeps` | ds/direct_token_manager.go:169-187 | recording keeps: each recording is in exactly one of stored, returned, removed or lost, and every holder is listed under its hash |
| `DirectTransferManager.CheckKeeps` | ds/direct_token_manager.go:206-229 | so does a check, for any split of the block range |
| `DirectTransferManager.DeleteKeeps` | ds/direct_token_manager.go:231-237 | so does a deletion, which reaches every holder because the hash index covers them |
| `DirectTransferManager.ClearKeeps` | ds/direct_token_manager.go:239-247 | so does a clearing |
| `DirectTransferManager.HandedIsListed` | ds/direct_token_manager.go:206-229 | what a check counts as handed out for an account is what its result lists under the account's session |
| `DirectTransferManager.CheckAnswers` | ds/direct_token_manager.go:206-229 | what the scans gather is exactly those transfers, in both directions |
| `DirectTransferManager.ClosingAnswers` | ds/direct_token_manager.go:73-82 | a closed session is no answer for any block after its closing block, and sessions of another start keep their answers |
| `DirectTransferManager.NothingMislaid` | ds/direct_token_manager.go:206-229 | a check loses nothing if and only if no transaction in its range is cut |
| `TransferRuns.OtherLog` | ds/direct_token_manager.go:115-124 | where the logs of a transaction stand together, a log of another transaction has them all on one side |
| `TransferRuns.ChainMislaysNothing` | ds/direct_token_manager.go:206-229 | a check of accounts whose transfers and sessions come from a chain loses nothing |
| `TransferRuns.CheckKeepsRun` | ds/direct_token_manager.go:206-229 | a check keeps the run's invariant: everything from the chain, blocks in order, nothing lost |
| `TransferRuns.CloseKeepsRun` | ds/direct_token_manager.go:199-203 | so does closing a session |
| `TransferRuns.OpenKeepsRun` | ds/direct_token_manager.go:189-197 | so does opening one |
| `TransferRuns.RecordTracked` | ds/direct_token_manager.go:169-187 | recording in block order keeps the blocks of every account ascending |
| `TransferRuns.Replay` | ds/direct_token_manager.go:160-255 | over every run of a new manager whose transfers and sessions come from a chain, nothing is lost and each recording is stored, returned or removed, exactly one of the three |
| `TransferRuns.CloseThenCheck` | ds/direct_token_manager.go:199-229 | after closing a session, whatever calls follow that do not close that start again, no check returns under it a transfer of a block after the closing block |
| `DebtTracking.UnmarkedIsUnchanged` | debts/engine.go:117-146 | an active session that a block leaves unmarked has unchanged snapshot, pool data, underlying price, and price and threshold of every enabled held token |
| `DebtTracking.BlockKeepsUpToDate` | debts/engine.go:98-162 | one block of marking and evaluating leaves every active session's value as evaluating it now would give it, for any function of those inputs |
| `DebtTracking.IncrementalIsFull` | debts/engine.go:98-162 | the same over every run of blocks: incremental evaluation is full evaluation |
| `DebtInputs.PriceListed` | debts/engine.go:274-280 | the price the engine reads for a token is the last one listed in the session's own currency: not USD for v1, USD otherwise |
| `DebtInputs.ThresholdListed` | debts/token_threshold.go:30-36 | the threshold it reads is the last one listed for that manager and token |
| `DebtInputs.InputsAreListed` | debts/engine.go:28-96 | all inputs of a session are those the blocks list last |
| `DebtInputs.UpToDateIsListed` | debts/engine.go:98-162 | up-to-date values of an engine that started empty are the values of what was listed last |
| `DebtEngine.Engine.UpdateLocalState` | debts/engine.go:28-96 | loads the block's data and reports exactly the pools, tokens and sessions it touches |
| `DebtEngine.Engine.MarkSessions` | debts/engine.go:117-146 | marks exactly the active sessions that depend on something touched |
| `DebtEngine.Engine.Evaluate` | debts/engine.go:149-162 | evaluates exactly the marked active sessions and leaves the other values alone |
| `DebtEngine.Engine.ProcessBlock` | debts/engine.go:108-162 | one block of the engine is one step of the incremental recomputation |
| `DebtEngine.LoadThresholds` | debts/token_threshold.go:30-36 | later thresholds of a block replace earlier ones |
| `DebtEngine.LoadPrices` | debts/token_threshold.go:53-59 | prices in USD and in the base currency are kept apart, the later replacing the earlier |
| `DebtEngine.Run` | debts/engine.go:98-168 | a run of the engine object ends with every active session's value as a full recomputation would give it; started empty, that is the value of the last snapshot listed for the session, the last data of its pool, and the last price in its own currency and last threshold with its manager of the underlying and of every enabled token held in more than one unit |
| `LiquidationAlerts.NextRemembers` | debts/debt_db.go:14-62 | throttled or not, the stored debt stays on the same side of 10000 as the latest one, the tracker holds the first block of the streak, and the messages are sent exactly when due |
| `LiquidationAlerts.OneAlertPerStreak` | debts/debt_db.go:14-62 | a streak that followed a healthy debt has exactly one alert once it is 20 blocks old, and none before |
| `LiquidationAlerts.Engine.AddLiquidableAccount` | debts/index.go:137-149 | restarts the streak and keeps the notified flag |
| `LiquidationAlerts.Engine.LiquidationCheck` | debts/debt_db.go:14-62 | the alert, the all-clear and the tracker entry for one debt; other sessions untouched |
| `LiquidationAlerts.Engine.AddDebt` | debts/debt_db.go:95-116 | stores and remembers a debt if and only if throttling is off, none is stored, it is forced, the stored one is old enough, either amount differs, or the health factor changed sides of 10000; a dropped debt changes nothing |
| `LiquidationAlerts.Engine.Handle` | debts/engine.go:310-315 | the check comes before the store |
| `LiquidationAlerts.Engine.HandleAll` | debts/engine.go:310-315 | for an engine that is new or recalls any past, and every interleaving of sessions, the alerts and all-clears sent are exactly those due by each session's own debts |
| `LogStream.Refetch` | models/wrappers/cm_wrapper/index.go:41-56 | refetching from the block of the handled log and cutting behind it yields exactly the later logs of the new addresses |
| `LogStream.SearchBehind` | models/wrappers/cm_wrapper/index.go:41-56 | the binary search finds the first log behind the handled one |
| `LogStream.OnLogs` | models/wrappers/cm_wrapper/index.go:28-62 | for any chain and any changes of the watched addresses the loop ends; it handles exactly the chain logs whose address is watched given the earlier handled logs behind their adapter's last sync, in order, leaves out exactly the others, and closes each block with one hook that names the next |
| `LogStream.WalkChooses` | models/wrappers/index.go:204-209 | the reference walk makes that choice at every log of the chain |
| `LogStream.ChosenUnique` | models/wrappers/cm_wrapper/index.go:28-62 | there is only one such choice |
| `LogStream.HooksName` | models/wrappers/cm_wrapper/index.go:64-94 | every hook names the block just ended and the next handled one, or the end of the range plus one |
| `LogStream.TraceIs` | models/wrappers/cm_wrapper/index.go:64-94 | the trace has the handled logs in order, one hook per block in its place, and nothing else |
| `LogStream.WalkInOrder` | models/wrappers/cm_wrapper/index.go:28-62 | logs are handled in strictly increasing (block, index) order, each at most once |
| `LogStream.OneHookPerBlock` | models/wrappers/cm_wrapper/index.go:64-94 | exactly one block hook for every block seen and none for any other |
| `LogStream.HooksPlaced` | models/wrappers/cm_wrapper/index.go:64-94 | a block's hook comes after all its logs and before any later log |
| `CallTree.Walk` | services/trace_service/parity_trace.go:102-110 | following a registered trace address meets only filled slots, within bounds, and ends at its node |
| `CallTree.SlotFilled` | services/trace_service/parity_trace.go:102-110 | filling a new node into its caller's slot keeps every node linked to exactly its registered children |
| `CallTree.AddEntry` | services/trace_service/parity_trace.go:102-110 | one trace adds its node, in its slot |
| `CallTree.RegistryRepresents` | services/trace_service/parity_trace.go:98-113 | once every address is registered, the object structure is the tree |
| `CallTree.ConvertToTenderlyTrace` | services/trace_service/parity_trace.go:98-137 | for every call tree and every caller-before-callee listing of its traces, the rebuilt objects are the tree, every slot filled |
| `TraceOrder.PreorderFlattens` | services/trace_service/parity_trace.go:98-113 | the depth-first listing of any tree whose static calls, and only those, have no value is such a listing: each call once, described by its address and count |
| `TraceOrder.RebuildPreorder` | services/trace_service/parity_trace.go:98-137 | listing any tree depth first and rebuilding it gives it back |
| `ExecuteCalls.DappCall` | services/execute_filter.go:63-81 | the preorder-first node that calls the dapp, or nothing if and only if there is none |
| `ExecuteCalls.DappUnique` | services/execute_filter.go:63-81 | that answer is unique |
| `ExecuteCalls.FoundExact` | services/execute_filter.go:38-60 | the traversal lists exactly the executeOrder nodes reached through entering calls and not below another one, in preorder, each once |
| `ExecuteCalls.ExecuteFilter.GetExecuteCalls` | services/execute_filter.go:38-60 | the i-th of these nodes is resolved against the i-th remaining parameter until either run out, and the index counts the parameters used |
| `TraceSearch.Read` | services/trace_service/tenderly_fetcher.go:19-26 | objects that represent a tree read back as that tree |
| `TraceSearch.FindInTraces` | services/execute_filter.go:38-60 | for every call tree and every caller-before-callee listing of its traces, rebuilding and searching resolves exactly the outermost executeOrder calls of the original, in preorder |
| `ExecuteTransfers.GetExecuteTransfers` | services/execute_filter.go:85-130 | fails exactly when some log breaks the scan, otherwise one map per ExecuteOrder log: the flow of its own account over the logs up to the next manager event |
| `ExecuteTransfers.PositionsExact` | services/execute_filter.go:85-130 | every ExecuteOrder log has its place among the segments, in order |
| `ExecuteTransfers.RealFlowIff` | services/execute_filter.go:113-122 | the booked flow is received minus sent if and only if the account sent itself nothing |
| `ExecuteTransfers.SelfTransferCharged` | services/execute_filter.go:113-122 | one transfer to itself is booked as outgoing |
| `ExecuteTransfers.ParseExecuteCalls` | services/execute_parser.go:62-86 | succeeds exactly when no log breaks the scan, the numbers agree and every node has a dapp call; then call i carries the i-th node's dapp call and the i-th log's flow |
| `TxLogs.FetchLogs` | services/trace_service/get_logs.go:50-80 | keeps, for contiguous logs, exactly the full lists of the transactions with an ExecuteOrder or a v2 close |
| `TxLogs.Next` | services/trace_service/get_logs.go:82-92 | moving to another transaction drops the last one unless it is to be kept |
| `TxLogs.FullIff` | services/trace_service/get_logs.go:50-92 | for logs in any order, a transaction keeps its full list if and only if each of its runs holds a valid log |
| `TxLogs.CloseIsKept` | services/trace_service/get_logs.go:50-80 | a transaction of one v2 close is fetched, with the address, topics and data of its log |
| `TxLogs.OtherIsDropped` | services/trace_service/get_logs.go:50-80 | a transaction of one log that is neither an ExecuteOrder nor a v2 close is not |
| `TxLogs.ExactIff` | services/trace_service/get_logs.go:50-92 | the whole store is exact if and only if that holds for every valid transaction |
| `TxLogs.ContiguousExact` | services/trace_service/get_logs.go:50-92 | contiguous logs always meet the condition |
| `TxLogs.InterleavedLoses` | services/trace_service/get_logs.go:50-92 | three logs that do not |
| `LogCache.InsertInSlice` | services/trace_service/get_logs.go:96-112 | the list stays sorted, grows by one and gains exactly the block |
| `LogCache.DeleteInSlice` | services/trace_service/get_logs.go:114-121 | list and store lose exactly the blocks below the limit |
| `LogCache.TxLogger.GetLogs` | services/trace_service/get_logs.go:30-43 | answers as a fresh fetch would; the list is non-decreasing with exactly the cached blocks, and nothing below the block minus the store length survives |
| `LogCache.TxLogger.Serve` | services/trace_service/get_logs.go:30-43 | over every sequence of requests each answer is that of a fresh fetch: for contiguous logs the full list of a valid transaction, and nothing for any other |
| `AccountBooks.CountSplits` | models/credit_manager/state.go:39-55 | the opened count is owners plus sessions about to be closed plus orphans |
| `AccountBooks.StepSound` | models/credit_manager/v1operation.go:16-173 | every event keeps the counts sound, and orphans appear exactly where an owner is overwritten |
| `AccountBooks.RunCounts` | models/credit_manager/v1operation.go:16-173 | in every reachable state the totals agree, and the opened count is owners plus pending closes if and only if no event overwrote an owner |
| `AccountBooks.OverwriteMiscounts` | models/credit_manager/v1operation.go:16-66 | two openings for one owner miscount |
| `AccountBooks.StepBorrowed` | models/credit_manager/state.go:80-93 | every event moves the net totals by exactly what it borrows or repays |
| `AccountBooks.RunTotals` | models/credit_manager/state.go:80-93 | over every run each borrow is added once and each pool repay subtracted once; profits and losses likewise |
| `AccountBooks.SettledTotals` | models/credit_manager/state.go:80-93 | with nothing waiting the totals are the plain sums |
| `AccountEnds.RunTallied` | models/credit_manager/v1operation.go:68-173 | over every run the closed, liquidated and repaid totals grow each by the number of endings of its own kind, and the opened total by the openings |
| `AccountEnds.RunOwners` | models/credit_manager/v1operation.go:254-276 | the owners after a run are those that the events name: entered by an opening, removed by an ending, moved by a transfer |
| `AccountEnds.EndsAsFinished` | models/credit_manager/credit_session_state.go:17-75 | a session ended by an event has, once sessions are next fetched and ever after, the status of that event |
| `CreditManager.PnlCM.Set` | models/credit_manager/pnl_cm.go:23-35 | merges repays of the same block |
| `CreditManager.Manager.AddBorrowAmountForBlock` | models/credit_manager/v2operation.go:25-33 | adds to the block's borrows; a negative amount fails |
| `CreditManager.Manager.GetBorrowAmountForBlockAndClear` | models/credit_manager/v2operation.go:34-41 | hands out the block's borrows and clears them |
| `CreditManager.Manager.OnOpenCreditAccount` | models/credit_manager/v2operation.go:17-23 | counts an opening and enters owner and session |
| `CreditManager.Manager.OnFinish` | models/credit_manager/v1operation.go:68-173 | closing, liquidating and repaying: one counter, the pending close, the owner gone; fails without a session |
| `CreditManager.Manager.OnTransferAccount` | models/credit_manager/v1operation.go:254-276 | hands the session to the new owner |
| `CreditManager.Manager.OnIncreaseBorrowedAmount` | models/credit_manager/v1operation.go:224-252 | v1: the amount is added to the block's borrows |
| `CreditManager.Manager.OnIncreaseBorrowedAmountV2` | models/credit_manager/v2operation.go:274-311 | v2: only a positive amount is |
| `CreditManager.Manager.FetchFromDCForChangedSessions` | models/credit_manager/credit_session_state.go:17-75 | each pending close lowers the opened count once and sets its session's status; then none is pending |
| `CreditManager.Manager.CalculateCMStat` | models/credit_manager/state.go:80-93 | folds the block's borrows and repays into the totals, each once |
| `CreditManager.Manager.Replay` | models/credit_manager/on_log.go:26-46 | a run of the object is the run of the books, and keeps them sound |
| `PriceStore.Dropped` | repository/handlers/prev_price.go:70-88 | dropping a repeated price changes the price of no feed at no block |
| `PriceStore.Stored` | repository/handlers/prev_price.go:70-88 | storing a changed price keeps neighbours different |
| `PriceStore.PrevPriceStore.CanAddPF` | repository/handlers/prev_price.go:54-88 | fails exactly for an offer that is not later; lets through exactly the changed prices |
| `PriceStore.PrevPriceStore.AddAll` | repository/handlers/prev_price.go:54-88 | a stream is accepted exactly when every feed ascends; then every feed has at every block the price last offered, and no stored price repeats its predecessor |
| `AllowedTokens.StepChained` | repository/handlers/allowed_tokens.go:131-213 | events in block order keep each token's rows a chain of intervals |
| `AllowedTokens.RunChained` | repository/handlers/allowed_tokens.go:131-213 | so does every run |
| `AllowedTokens.OneInForce` | repository/handlers/allowed_tokens.go:131-213 | an open row is the current row of its token |
| `AllowedTokens.NeverTwo` | repository/handlers/allowed_tokens.go:131-213 | no two rows of a token cover the same block |
| `AllowedTokens.RunThreshold` | repository/handlers/allowed_tokens.go:131-213 | over every run a token's current threshold is the one last set for it, however often it was allowed or forbidden since |
| `AllowedTokens.AllowCarries` | repository/handlers/allowed_tokens.go:131-164 | after every run a bare allow opens a row with the threshold last set for the token, or does nothing if and only if that one looks zero |
| `AllowedTokens.AllowReopens` | repository/handlers/allowed_tokens.go:131-164 | a bare allow after a threshold strictly between 0 and 2^64 always opens a row with it |
| `AllowedTokens.StepIs` | repository/handlers/allowed_tokens.go:131-213 | a threshold, or an allow that carries one, ends the current row of the token if it is open and appends a row from that block on; a forbid ends the current row; all other rows stay |
| `AllowedTokens.ZeroStaysForbidden` | repository/handlers/allowed_tokens.go:138-152 | a token forbidden at threshold zero stays forbidden although it is allowed again |
| `AllowedTokens.AllowedTokenRepo.AddAllowedTokenV2` | repository/handlers/allowed_tokens.go:131-191 | the shared rows change as the table does: the open row ends, the new one is entered and becomes current |
| `AllowedTokens.AllowedTokenRepo.GetPreviousLiqThreshold` | repository/handlers/allowed_tokens.go:45-50 | the threshold of the last row, zero without one |
| `AllowedTokens.AllowedTokenRepo.DisableAllowedToken` | repository/handlers/allowed_tokens.go:193-213 | the current row ends at the block and is queued for saving |

## Left out

- RPC clients, multicall batching, ABI packing and parsing, trace fetching, the database, alert transport and wiring.
- Floating-point and display fields, TVL snapshots, and the values computed by the sdk (close amounts, account fields): the debt value is an arbitrary function of its inputs.
- Price refetching inside a block, stETH rebasing, and interest and fee changes driven by time: outside the dirty-tracking claim.
- The rate table itself: it is an input, answered as `RewardSchedule.Query` describes.
- Loading state from the database at start, and saving it.
- TransferRuns.Replay: checks have to find the blocks in order, which holds when transfers come in block order or the accounts have been sorted since, as the account manager does after each sync; the attribution by session is not promised without it.
- DirectTransferManager.Manager.AddTokenTransfer: the list of transfers per hash, used only to report transfers without a session, is not kept.
- FacadeClashes.RoundTripIff: close events of one transaction are taken to be different, as their log ids are.
- FacadeActions.CollectParams: marking sessions as updated and choosing the liquidation status in the same loop are not modelled.
- DebtEngine.Engine.UpdateLocalState: fee parameters and rebase details of a block are not loaded.
- CreditManager.Manager.OnIncreaseBorrowedAmount: the session's own borrowed amount is not modelled.
- CreditManager.Manager.OnIncreaseBorrowedAmountV2: nor is the repaid total for negative amounts.
- MulticallMatch.MatchIsTight: completeness is claimed only for calls without revert checks that end in a facade call; trailing revert checks or adapter calls make the program answer no.
- MulticallMatch.SameMulticallLenAsEvents: signatures are taken as decoded.
- LogStream.OnLogs: keeps the list of remaining logs where the program keeps an index into its list; adapters are seen through the logs delivered to them, and the registration of adapters is not modelled.
- ExecuteCalls.DappCall: a known call is identified by the call data it is parsed from; parsing is not modelled.
- Nested Go maps are maps keyed by pairs; account data and facade actions are values, so aliasing of their pointers is not captured. The shared rows of allowed tokens and the nodes of call trees are objects.
- AccountBooks.RunTotals: the repaid total and the session's own borrowed amount are not modelled, and neither is the choice of a liquidation status.
- LogCache.InsertInSlice: the capacity of Go slices is not modelled; the list is a sequence.
- The search for unattributed transfers, and the translation of inner events into the saved multicall of a main operation.
- Price lookup across several feeds of a token, the v1 path of allowed tokens, and parameter history.
