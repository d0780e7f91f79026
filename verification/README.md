# Verified model of the CALC strategy contracts

CALC stores a trading strategy as a graph of nodes. The strategy contract walks the graph in a chain of messages it
sends to itself; schedule nodes re-arm themselves through a scheduler contract that escrows rebates; other nodes
swap, rest limit orders and distribute balances. This project models that behaviour and proves properties of it for
all inputs, all runs and all histories. `dafny verify dfyconfig.toml` checks everything.

| file | what it holds |
|---|---|
| `Outcomes`, `Arithmetic`, `Decimals`, `Money`, `Runs` | results, rounding, fixed-point decimals, coins and messages, repeated steps |
| `Graph` | adjacency lists, cycles, ranks, Kahn's algorithm |
| `Nodes`, `Strategy`, `Traversal`, `Histories` | node lists, `NodeStore::init`, `Process`, whole runs, whole histories |
| `Cadence`, `Schedule` | when a schedule is due, its crank, its trigger, its commit |
| `LimitOrder`, `Swap`, `OrderBook`, `Withdrawal` | the money-moving operations, but for the next |
| `Records`, `Distribution`, `Payout` | coin records, one distribution, many of them |
| `Operations`, `Trading` | runs in which schedules, distributions and limit orders behave as their own modules say |
| `Scheduler` | the scheduler contract and its escrow |

How the model reads the code:

- A call has three outcomes: a value, a returned error, or a panic. The release profile keeps overflow checks
  (`Cargo.toml`), so a failed 64-bit or 32-bit addition, a subtraction below zero and a division by zero are panics.
  The processing loop catches errors and goes on; a panic reverts the transaction.
- Everything a run cannot know (what a node's execution answers, whether a condition holds, what the book says) is a
  parameter, keyed by the position of the visit in the run, and every statement holds for all such answers.
- A failed call leaves storage as it was. No other call into the contract happens between the messages of one run.
- Coins are maps from denom to amount; the order of coins inside one message plays no part.

Where the code and its documentation differ, the model follows the code: the scheduler skips a trigger whose
condition cannot be evaluated rather than deleting it, and accepts block and time conditions only.

What turned out to hold only under a condition, each with the exact condition and an input for which it fails:

- Updating to an empty list is accepted and leaves the old strategy running (`Histories.EmptyListLeavesOldStrategyLive`,
  input `Histories.OldNodeStillRuns`).
- A due crank of a zero interval divides by zero once time has passed (`Cadences.DueCrankSucceeds`, input
  `Cadences.ZeroIntervalPanics`).
- A cron cadence stores an occurrence to come and is due only from the one after it (`Cadences.CronDueExactly`), so at
  most every second occurrence fires (`Cadences.CronFiringRate`), and exactly every second one under a keeper that
  misses none (`Cadences.CronFiresEverySecond`).
- A schedule can take its success side without a crank (`Schedules.SuccessWithoutCrank`, inputs
  `Schedules.SuccessesWithoutCrank`). A cadence staged by the user is committed and counted when nothing is due, and
  also when the limit is reached, so that the count passes it (`Schedules.VisitCommitsOnSuccess`,
  `Schedules.CountPassesLimit`, inputs `Schedules.StagedByTheUser`).
- A distribution can be left without shares, and then never pays again, exactly when its last destination has no
  shares and nobody has them all (`Payouts.KillableExactly`, `Payouts.DiesExactly`, input `Payouts.FreeAffiliateKills`).
- A distribution fails exactly when someone who would receive something was submitted with a record that names a denom
  twice, and pays nobody as long as that is so (`Distributions.FailsExactly`, `Payouts.BlockedForEver`, input
  `Payouts.RepeatedRecordStops`).
- A withdrawal that repeats a denom can ask for more than the balance (`Withdrawals.WithdrawalOverdraws`, input
  `Withdrawals.AskingTwiceOverdraws`), and the record falls short of what the owner was sent when an affiliate names
  the owner's own address (`Withdrawals.RecordIsWhatWasSent`).
- A limit order funded from a balance that counts other orders on the pair may be short (`LimitOrders.FundingCovers`,
  input `LimitOrders.OtherOrderIsNotThere`).
- A limit order that resets while its withdraw fails leaves two orders resting, or one that nothing tracks
  (`LimitOrders.VisitKeepsOneOrder`, inputs `LimitOrders.FailedWithdrawLosesTrack`).
- A swap forgets every losing route of the winner's kind, which can cost a later swap exactly when two routes of one
  kind differ in their terms (`Swaps.ForgettingCostsExactly`, input `Swaps.SecondPairIsMissed`).
- Looking at a FIN route aborts the swap, good routes or not, when its price cannot be inverted, or when nothing comes
  out and the mid price gives nothing either (`Swaps.FinAcceptsExactly`, input `Swaps.DustAborts`).
- A trigger asks for more rebate than there is when two rebates name a denom and together exceed its balance; its
  message fails, and the crank is committed all the same (`Schedules.RebateOverdraws`, input
  `Schedules.RebateAskedTwice`).

## Model

| member | source | states |
|---|---|---|
| Graph.Kahn | contracts/strategy/src/state.rs:112-137 | the stack loop over in-degrees accepts exactly the graphs with no directed cycle, double edges included, and what it accepts can be ranked |
| Graph.AcyclicIffRanked | contracts/strategy/src/state.rs:31 | no cycle is the same as a rank that falls along every edge |
| Strategies.Strategy.Init | contracts/strategy/src/state.rs:22-140 | accepts exactly the lists that pass every check and have no cycle; writes exactly their initialised nodes over the old entries; a rejected call changes nothing |
| Strategies.Strategy.Admit | contracts/strategy/src/state.rs:25-110 | the first loop accepts exactly the lists that pass the per-node checks and the size limit, and leaves the right adjacency, in-degrees and storage |
| Nodes.AcceptedExactly | contracts/strategy/src/state.rs:22-140 | a list is accepted exactly when, by the nodes' own fields, index and position agree, edges stay inside, a condition that leads nowhere is a schedule, every node initialises, the weights come to at most fifty and no edges form a cycle |
| Nodes.LayeringKept | contracts/strategy/src/state.rs:100-144 | writing a checked list over a well-formed store keeps it gapless and acyclic with leftovers included, the new list closed under its edges |
| Nodes.LayersAreSafe | contracts/strategy/src/state.rs:142-178 | the stored graph has no cycle, and the current list reaches no leftover |
| Histories.StoredGraphIsSafe | contracts/strategy/src/contract.rs:77-133 | after every sequence of creations, updates, executions and cancellations, failed ones included, the store is gapless, acyclic and layered |
| Histories.UpdateCancelsFirst | contracts/strategy/src/contract.rs:113-133 | an update goes through exactly when its cancel run, its list and its execute run do; it cancels every stored node in order, then stores the new nodes over what that left, then runs them |
| Histories.CreationRuns | contracts/strategy/src/contract.rs:77-95 | a creation goes through exactly when its list is accepted and the run of what is then stored does |
| Histories.EmptyListLeavesOldStrategyLive | contracts/strategy/src/contract.rs:256 | a run after an accepted list starts outside that list exactly when the list is empty and something was stored |
| Histories.OldNodeStillRuns | contracts/strategy/src/contract.rs:256 | an input for it: one silent node, an update to nothing, and an execute run that visits the node |
| Strategies.Strategy.Process | contracts/strategy/src/contract.rs:237-347 | one `Process` message: resume, loop, pause or finish, with the nodes, the path and the response of the step it refines |
| Strategies.Strategy.ResumeStored | contracts/strategy/src/contract.rs:245-254 | the next node is chosen on the saved node before it is committed |
| Traversal.ChainRefinesWalk | contracts/strategy/src/contract.rs:245-339 | a run delivered as a chain of messages emits the same messages and leaves the same store and path as the uninterrupted walk with the same answers |
| Traversal.RunIsTraced | contracts/strategy/src/contract.rs:245-339 | in a run each visited node chooses the next, is stored as its visit settles it (committed exactly after messages or an error), the others stay as they were, and the run emits what its visits emit, in order |
| Traversal.ExecuteRunFollowsEdges | packages/calc-rs/src/strategy.rs:96-112 | an execute run goes from an action along its own next edge and from a condition to its success side exactly when the world says the saved operation holds; it ends only where the edge taken is absent or not stored; each visited node keeps its edges and stores its operation as executed, committed exactly after messages or an error |
| Traversal.ExecuteRunGoesThrough | contracts/strategy/src/contract.rs:269-338 | as long as nothing aborts and commits succeed, an execute run is never reverted, however many of its nodes fail |
| Traversal.ExecuteRunIsPath | contracts/strategy/src/contract.rs:259-346 | every execute run visits each node at most once, at most fifty, along an edge path from node 0 |
| Traversal.ExecuteRunStaysCurrent | contracts/strategy/src/state.rs:159-177 | a run of a non-empty current list visits only its nodes |
| Traversal.CancelRunSweeps | contracts/strategy/src/state.rs:166-168 | every cancel run visits all stored indices once, in order |
| Trading.CancelRunGoesThrough | contracts/strategy/src/contract.rs:269-338 | a cancel run is never reverted, whatever fails in it |
| Trading.CancelRunWithdraws | packages/calc-rs/src/actions/limit_orders/fin_limit_order.rs:479-508 | a cancel run emits exactly the withdraws of the orders still on the book, one each, in index order, and forgets an order exactly when the book no longer answers for it |
| Trading.CancelRunForgetsOrders | packages/calc-rs/src/actions/limit_orders/fin_limit_order.rs:495-508 | no cached order survives a cancel run exactly when, for every cached order, the book has stopped answering by the commit |
| Trading.CancelRunClears | packages/calc-rs/src/actions/limit_orders/fin_limit_order.rs:479-508 | under a book that reports what rests, a cancel run whose withdraws succeed leaves no order of the node resting and none cached |
| Trading.OrderNodeVisit | contracts/strategy/src/contract.rs:245-315 | the engine's visit of a limit-order node is the order's own execute or cancel, delivery and commit |
| Trading.OrderRun | contracts/strategy/src/contract.rs:245-315 | in every execute run a visited limit order emits exactly the messages its settings and the market ask for, or nothing if a query fails, and is forgotten once the book no longer has it |
| Trading.AtMostOneOrderRests | packages/calc-rs/src/actions/limit_orders/fin_limit_order.rs:351-508 | over every sequence of execute and cancel runs of a list, reverted ones included: at most one order of each limit-order node rests, at its cached price, unless some run reset it while its withdraw failed |
| Operations.ScheduleRun | contracts/strategy/src/contract.rs:245-254 | in every run a visited schedule takes its success side exactly when it is due within its limit, which is exactly when a crank is committed and counted; nothing stays staged |
| Operations.ExecutionsCountSuccesses | packages/calc-rs/src/conditions/schedule.rs:30-151 | over all sequences of runs, `executions` counts the runs that took the success side and never passes the limit |
| Operations.SuccessRate | packages/calc-rs/src/cadence.rs:75-101 | over all sequences of runs a schedule keeps its phase and takes its success side at most elapsed over period times |
| Operations.DistributionRun | packages/calc-rs/src/actions/distribution.rs:73-174 | in every execute run a serviceable distribution (the last destination or a sole holder has shares, no record repeats a denom) sends exactly the balances it can query, and stays serviceable |
| Operations.DistributionReaches | packages/calc-rs/src/actions/distribution.rs:91-165 | in every execute run a serviceable distribution with something to divide sends each destination its due by its own shares, in one message to its own address or memo, and credits it; with nothing to divide it sends nothing and stays as it was |
| Operations.SentItsDue | packages/calc-rs/src/actions/distribution.rs:130-152 | a destination whose address or memo no other has is sent, in every denom, exactly what it is due |
| Operations.SwapOrCheckRun | packages/calc-rs/src/strategy.rs:96-112 | in every execute run a swap emits what it answers, nothing if it fails, and a condition that only looks emits nothing and takes its success side exactly when it holds |
| Schedules.VisitCommitsOnSuccess | packages/calc-rs/src/conditions/schedule.rs:30-151 | one visit: success exactly when due within the limit, and then the crank is committed; otherwise what was staged is; success and count go together exactly when nothing was staged or the schedule may execute |
| Schedules.VisitGoesThrough | packages/calc-rs/src/conditions/schedule.rs:30-151 | a block or time schedule with room on its counter and clock and a period of its own always gets through its visit, due or not |
| Schedules.CountPassesLimit | packages/calc-rs/src/conditions/schedule.rs:42-49 | a count within the limit passes it exactly when something is staged and the limit is reached |
| Schedules.StagedByTheUser | packages/calc-rs/src/conditions/schedule.rs:100-151 | inputs: a cadence committed before it is due, and a count that passes its limit |
| Schedules.SuccessWithoutCrank | packages/calc-rs/src/conditions/schedule.rs:31-62 | exactly when the success side is taken with no crank: a balance query fails, or the limit is zero and uncounted |
| Schedules.SuccessesWithoutCrank | packages/calc-rs/src/conditions/schedule.rs:31-62 | an input for each of the two causes |
| Schedules.ExecuteUnsafe | packages/calc-rs/src/conditions/schedule.rs:42-96 | the loop over rebates and the staging, against the function that the properties are about |
| Schedules.ExecutionsAreBounded | packages/calc-rs/src/conditions/schedule.rs:30-151 | over any sequence of visits the count advances by the successes, within the limit |
| Schedules.TriggerMatchesCommit | packages/calc-rs/src/conditions/schedule.rs:64-95 | one trigger is emitted, to the scheduler for the manager, with the schedule's executors and jitter, the condition of the cadence that commit will install and the capped rebate |
| Schedules.TriggerFiresWhenDue | packages/calc-rs/src/cadence.rs:27-54 | whenever the emitted condition holds the committed cadence is due; for blocks also conversely, for time within a second |
| Schedules.RebateOverdraws | packages/calc-rs/src/conditions/schedule.rs:51-95 | a trigger asks for more than the balance exactly when two rebates of a denom together exceed it, and the crank is committed either way |
| Schedules.RebateAskedTwice | packages/calc-rs/src/conditions/schedule.rs:51-62 | an input: one rune twice with a balance of one |
| Operations.TriggerKeepsItsPromise | packages/calc-rs/src/conditions/schedule.rs:64-95 | a run in a block that satisfies the trigger of an earlier run takes the schedule's success side, within its limit, and cranks and counts |
| Cadences.DueCrank | packages/calc-rs/src/cadence.rs:75-101 | a due crank keeps the phase, advances, never passes now, leaves the next due instant at or after now, equal only after exactly two periods |
| Cadences.DueCrankSucceeds | packages/calc-rs/src/cadence.rs:75-101 | exactly when a due crank goes through |
| Cadences.DueExactly | packages/calc-rs/src/cadence.rs:27-34 | a block or time cadence that has fired is due exactly one period later in its own unit, and overflows as said |
| Cadences.FirstCrank | packages/calc-rs/src/cadence.rs:45-101 | one that has never fired is due at once, and its first crank counts from that moment: due again one period later |
| Cadences.ZeroIntervalPanics | packages/calc-rs/src/cadence.rs:83-96 | inputs for the failure: a zero block interval and half a second |
| Cadences.FiringRate | packages/calc-rs/src/cadence.rs:75-101 | over all sequences of visits: no phase drift, never past the clock, at most elapsed over period firings |
| Cadences.EveryBlockFiresOnTime | packages/calc-rs/src/cadence.rs:77-88 | looked at in every block, a block cadence fires exactly every interval |
| Cadences.BlocksConditionIsDue | packages/calc-rs/src/cadence.rs:45-49 | for blocks the condition holds exactly when the cadence is due |
| Cadences.TimeConditionIsDue | packages/calc-rs/src/cadence.rs:32-54 | for time the condition implies due, and due implies it except within one second, characterised exactly |
| Cadences.CronDueExactly | packages/calc-rs/src/cadence.rs:102-127 | after a cron crank the cadence is due exactly from the occurrence after the stored one on |
| Cadences.CronFirstCrank | packages/calc-rs/src/cadence.rs:102-119 | a cron cadence that has never fired is due at once and its first crank stores the next occurrence |
| Cadences.CronCondition | packages/calc-rs/src/cadence.rs:55-66 | the trigger a cron cadence asks for fires at the occurrence after the one it holds |
| Cadences.CronEnds | packages/calc-rs/src/cadence.rs:55-126 | with no further occurrence it is never due again, its trigger never fires and a crank aborts; an expression that does not parse is an error |
| Cadences.CronFiringRate | packages/calc-rs/src/cadence.rs:102-127 | over every sequence of looks a cron cadence fires for at most every second occurrence |
| Cadences.CronFiresEverySecond | packages/calc-rs/src/cadence.rs:102-127 | looked at at every occurrence it fires at the first, third, fifth and so on |
| Scheduling.Scheduler.Create | contracts/scheduler/src/contract.rs:46-98 | when it accepts, what it stores and what it refunds to the replaced owner; otherwise no change |
| Scheduling.Scheduler.Execute | contracts/scheduler/src/contract.rs:99-137 | deletes exactly the triggers it fires, in order, and emits a call and the rebate for each |
| Scheduling.CreatesExactly | contracts/scheduler/src/contract.rs:46-98 | a create goes through exactly for at most ten executors, a supported condition and an id that is free or the sender's; it stores what the message asks for, touches no other trigger, and gives the owner the replaced rebate |
| Scheduling.FiringExactly | contracts/scheduler/src/contract.rs:99-117 | an execute fires exactly the stored triggers it names whose condition holds and whose executors allow the sender, once each, and leaves the others as they were |
| Scheduling.EscrowIsConserved | contracts/scheduler/src/contract.rs:46-137 | over every interleaving and every id function: balance equals stored rebates plus undelivered payments plus unaccounted funds, each creation is stored, fired or replaced, each rebate is sent once, firings are allowed |
| Scheduling.CallsAreCommanded | contracts/scheduler/src/contract.rs:83-124 | over every interleaving: each firing is of a trigger some create message asked for, by that message's condition and executors, and each call, delivered or not, goes to that message's target with its payload |
| Scheduling.PaymentIsCovered | contracts/scheduler/src/contract.rs:75-133 | the escrow covers every outstanding payment |
| Scheduling.CreatedOnceFiresAtMostOnce | contracts/scheduler/src/contract.rs:63-137 | a trigger created once is in one place only, is called at most once, and its rebate reaches at most one address |
| LimitOrders.StagesAgree | packages/calc-rs/src/actions/limit_orders/fin_limit_order.rs:108-140 | withdraw and set decide one price from one snapshot; a new price is set and cached only after the old one is withdrawn |
| LimitOrders.ExecutesExactly | packages/calc-rs/src/actions/limit_orders/fin_limit_order.rs:108-306 | the messages of an execute and the price it caches, in full, from the order's own settings: which price (offset above or below the side price, exact or in hundredths, within its truncation), when the cached order is withdrawn, when and for how much the new one is set, and what is attached |
| LimitOrders.ExecutesWhen | packages/calc-rs/src/actions/limit_orders/fin_limit_order.rs:108-140 | an execute goes through exactly when every query does and the cached order offers something; an order reported with nothing offered aborts |
| LimitOrders.PriceIsOnItsSide | packages/calc-rs/src/actions/limit_orders/fin_limit_order.rs:61-88 | an offset above is never below the side price, and one below never above it |
| LimitOrders.VisitKeepsOneOrder | packages/calc-rs/src/actions/limit_orders/fin_limit_order.rs:351-508 | one order at the cached price stays that way through a visit, except exactly when a resting order is reset and its withdraw fails |
| LimitOrders.FailedWithdrawLosesTrack | packages/calc-rs/src/actions/limit_orders/fin_limit_order.rs:351-389 | inputs: two orders resting if the set succeeds, an order nothing tracks if it is refused |
| LimitOrders.FundingCovers | packages/calc-rs/src/actions/limit_orders/fin_limit_order.rs:244-306 | for every set, the first included: attached funds never exceed balance plus withdrawn, and with what stays they cover the offer exactly when the configured amount of all that is on the pair fits in the balance and this order |
| LimitOrders.OtherOrderIsNotThere | packages/calc-rs/src/actions/limit_orders/fin_limit_order.rs:244-306 | an input for falling short: another order of the strategy on the pair |
| LimitOrders.OnlyOrderIsCovered | packages/calc-rs/src/actions/limit_orders/fin_limit_order.rs:244-306 | for the strategy's only order on the pair they always cover it |
| LimitOrders.IdleOrderStaysPut | packages/calc-rs/src/actions/limit_orders/fin_limit_order.rs:275-284 | nothing filled, no reset, no balance: no message and no change |
| Distributions.ExecuteUnsafe | packages/calc-rs/src/actions/distribution.rs:73-174 | the loops with the running remainder, against the function that the properties are about |
| Distributions.TakenAtMost | packages/calc-rs/src/actions/distribution.rs:91-123 | the remainder never underflows |
| Distributions.AmountsConserve | packages/calc-rs/src/actions/distribution.rs:104-128 | the amounts of one denom add up to its balance |
| Distributions.AmountIsProRata | packages/calc-rs/src/actions/distribution.rs:105-114 | exact rounding bounds of each amount, and of the last one's surplus |
| Distributions.DistributionConserves | packages/calc-rs/src/actions/distribution.rs:73-174 | the messages of one execute pay out each denom's whole balance |
| Distributions.KeptAreReceivers | packages/calc-rs/src/actions/distribution.rs:130-164 | in a split that goes through, kept and paid are exactly the destinations that received something, in order, credited with it |
| Distributions.ExecuteSharesOut | packages/calc-rs/src/actions/distribution.rs:91-165 | an execute that splits something pays each destination, in one message to its own recipient, its pro-rata part of every balance by its own shares within one truncation, the last the rest; those due nothing are left out; each record grows by its own payment |
| Distributions.SomebodyIsKept | packages/calc-rs/src/actions/distribution.rs:130-164 | with something to split the kept list is not empty |
| Distributions.SharesLostExactly | packages/calc-rs/src/actions/distribution.rs:130-164 | exactly when the kept list has no shares left |
| Distributions.FailsExactly | packages/calc-rs/src/actions/distribution.rs:91-163 | a split fails exactly when a receiver's record repeats a denom, and leaves only records that are clean and in order |
| Distributions.CreditAdds | packages/calc-rs/src/actions/distribution.rs:154-163 | a record grows by what was received, denom by denom, and is clean and in order from then on |
| Records.ConvertsExactly | packages/calc-rs/src/actions/distribution.rs:154-155 | a submitted record converts exactly when no denom repeats in it, with the same amounts |
| Records.ConvertedIsSorted | packages/calc-rs/src/actions/distribution.rs:154-155 | what a record converts to is in the order of its denoms, whatever order it was submitted in |
| Payouts.PaysForEver | packages/calc-rs/src/actions/distribution.rs:73-174 | over every sequence of executes of a serviceable action: none divides by zero, each pays out all it can query, and the action stays serviceable |
| Payouts.KillableExactly | packages/calc-rs/src/actions/distribution.rs:91-164 | some sequence of executes leaves nobody with shares exactly when the last destination has none and no destination has them all |
| Payouts.BlockedForEver | packages/calc-rs/src/actions/distribution.rs:154-163 | while every split has a receiver whose record repeats a denom, no sequence of executes changes or pays anything |
| Payouts.RepeatedRecordStops | packages/calc-rs/src/actions/distribution.rs:178-219 | an input: an accepted distribution submitted with a record naming a denom twice, and balances of three or more |
| Payouts.NoSharesForEver | packages/calc-rs/src/actions/distribution.rs:94-105 | without shares every split of something panics, and no sequence of executes changes or pays anything |
| Payouts.DiesExactly | packages/calc-rs/src/actions/distribution.rs:91-164 | a split goes through unless a receiver's record repeats a denom, and then leaves an action that never pays again exactly when the last destination has no shares and every cut is zero |
| Payouts.FreeAffiliateKills | packages/calc-rs/src/actions/distribution.rs:47-71 | an input: an accepted distribution with an affiliate of no basis points, and a balance of one |
| Distributions.AffiliateShares | packages/calc-rs/src/actions/distribution.rs:47-71 | the user's destinations stay first; each affiliate is paid at its address, under its name, by its basis points of the total rounded up, zero only for zero |
| Distributions.Init | packages/calc-rs/src/actions/distribution.rs:178-219 | accepts exactly the well-formed distributions and appends the affiliates |
| Withdrawals.ManagedFees | contracts/manager/src/contract.rs:122-162 | the fee list adds up to max(25, 15 + affiliates) and to at most 215 basis points |
| Withdrawals.ListTakenExactly | contracts/manager/src/contract.rs:122-148 | an affiliate list is taken exactly when every label and address is valid and the fees come to at most 200 basis points |
| Withdrawals.FeeIsExact | contracts/strategy/src/contract.rs:178-180 | a fee is the basis points of the amount rounded down once |
| Withdrawals.NeverSaturates | contracts/strategy/src/contract.rs:174-187 | net and fees add up to the amount: the saturating subtraction never saturates |
| Withdrawals.WithdrawalSplitsExactly | contracts/strategy/src/contract.rs:164-206 | for strategies made by the manager the messages of a withdrawal pay out exactly what was taken, per denom |
| Withdrawals.Account.Withdraw | contracts/strategy/src/contract.rs:134-219 | the loops against the handler that the properties are about: who may withdraw, the messages sent, the record kept |
| Withdrawals.HandlesExactly | contracts/strategy/src/contract.rs:134-219 | only the owner is served; each amount asked for, up to the balance, is sent, the fees to the addresses of the affiliates and the rest to the owner and into the record |
| Withdrawals.NoEmptyMessages | contracts/strategy/src/contract.rs:164-206 | no message carries a zero amount, and only the owner's can be empty |
| Withdrawals.RecordIsWhatWasSent | contracts/strategy/src/contract.rs:134-219 | over every sequence of withdrawal messages, rejected and empty ones included, the owner was sent what the record says and every address its affiliates' fees, per denom |
| Withdrawals.OthersChangeNothing | contracts/strategy/src/contract.rs:134-137 | over every sequence of messages, record and payments are those of the owner's messages alone |
| Withdrawals.OwnerGotTheRecord | contracts/strategy/src/contract.rs:208-213 | an owner no affiliate names was sent exactly the record |
| Withdrawals.TakenIsSent | contracts/strategy/src/contract.rs:164-206 | with the manager's fee list everything ever taken was sent |
| Withdrawals.CollectorIsPaid | contracts/manager/src/contract.rs:150-162 | over every sequence of withdrawals the collector was sent what the affiliates leave of 25 basis points, at least 15, of everything taken |
| Withdrawals.AffiliateIsPaid | contracts/manager/src/contract.rs:150-162 | and each affiliate its own basis points |
| Withdrawals.WithdrawalOverdraws | contracts/strategy/src/contract.rs:143-158 | exactly when capped requests ask for more than the balance |
| Withdrawals.AskingTwiceOverdraws | contracts/strategy/src/contract.rs:143-158 | an input: asking twice for all of a balance takes twice the balance |
| OrderBook.SidePrice | packages/calc-rs/src/rujira.rs:9-85 | the paged loop prices a side exactly when a shortest sufficient prefix of at most eight priced orders and the pair can be read, by the average over it rounded to the tick |
| OrderBook.OrderIsWorth | packages/calc-rs/src/rujira.rs:44-50 | an order counts exactly in the denom its total is in, its quote value rounded down on the base side and its base depth up on the quote side |
| OrderBook.AverageIsBetween | packages/calc-rs/src/rujira.rs:76 | the average is at most the highest consumed price and below the lowest only by rounding over the depth |
| OrderBook.EnoughHasDepth | packages/calc-rs/src/rujira.rs:66 | the zero-depth check never fires once there is value |
| Swaps.ResizingIsMonotone | packages/calc-rs/src/actions/swaps/swap.rs:133-177 | a larger quoted output never gives a smaller swap |
| Swaps.AdjustIsMonotone | packages/calc-rs/src/actions/swaps/swap.rs:107-195 | where an adjustment goes through it does for every larger output, with no smaller amount and no smaller minimum |
| Swaps.ResizedKeepsPrice | packages/calc-rs/src/actions/swaps/swap.rs:185-192 | a resized swap asks for the proportional minimum, with exact rounding bounds |
| Swaps.ResizingIsBounded | packages/calc-rs/src/actions/swaps/swap.rs:133-177 | the size is within balance and minimum, and on the right side of the amount asked for |
| Swaps.AdjustsExactly | packages/calc-rs/src/actions/swaps/swap.rs:133-195 | a linear scalar grows or shrinks the funded amount by the price's relative distance from the base price times the scalar, within its truncations, then clamps it; it goes through exactly when that is not zero, and aborts exactly when there is no base price |
| Swaps.AdjustNeeds | packages/calc-rs/src/actions/swaps/swap.rs:106-144 | no balance, nothing to swap, or no quote for a scalar is an error |
| Swaps.FixedKeepsPrice | packages/calc-rs/src/actions/swaps/swap.rs:122-132 | a partly funded fixed swap asks for the proportional minimum, with exact rounding bounds |
| Swaps.SlippageIsExact | packages/calc-rs/src/actions/swaps/fin.rs:108-122 | despite rounding the slippage test compares expected and optimal output exactly |
| Swaps.FinAcceptsExactly | packages/calc-rs/src/actions/swaps/fin.rs:57-134 | a quote is accepted exactly when it does not abort, meets its minimum and gives at least the output at the mid price less the slippage limit; it aborts exactly when it meets its minimum and the price cannot be inverted, or nothing comes out and the mid price gives nothing |
| Swaps.AtMidBounds | packages/calc-rs/src/actions/swaps/fin.rs:94-106 | how far the truncations take the output at the mid price from amount over price, or amount times price for the base side |
| Swaps.FinNeeds | packages/calc-rs/src/actions/swaps/fin.rs:63-92 | nothing to swap, no answer, an output below its minimum or no mid price is an error |
| Swaps.DustAborts | packages/calc-rs/src/actions/swaps/fin.rs:108-115 | an input for aborting: dust left of a fixed swap, which takes a good route down with it |
| Swaps.BestQuote | packages/calc-rs/src/actions/swaps/swap.rs:312-345 | the first route with the largest positive output, and failure exactly when there is none |
| Swaps.ExecuteUnsafe | packages/calc-rs/src/actions/swaps/swap.rs:347-372 | the best quote, its message and the replaced routes, against the step the properties are about |
| Swaps.SwapsWithTheBest | packages/calc-rs/src/actions/swaps/swap.rs:347-372 | the swap sends the message of the first route with the largest output, as it was quoted; that route replaces every one of its kind; and it fails as that message does |
| Swaps.SwapNeedsTheBest | packages/calc-rs/src/actions/swaps/swap.rs:312-345 | with no such route it aborts if a quote aborts and fails otherwise |
| Swaps.RoutesNarrow | packages/calc-rs/src/actions/swaps/swap.rs:351-361 | over every sequence of swaps each kind that has won is down to one route, which was there from the start and holds its last quote, and the other kinds keep theirs |
| Swaps.FirstWinnerStays | packages/calc-rs/src/actions/swaps/swap.rs:351-361 | the first route of a kind to win stays that kind's route, whatever later swaps are told |
| Swaps.BestGivesBestOutput | packages/calc-rs/src/actions/swaps/swap.rs:312-345 | the chosen route gives the largest output, and none is chosen only if that is zero |
| Swaps.ForgettingCostsExactly | packages/calc-rs/src/actions/swaps/swap.rs:347-372 | over every sequence of swaps a later one never does better than over the original routes, and some swaps make a later one do worse exactly when two routes of one kind differ in their terms |
| Swaps.SecondPairIsMissed | packages/calc-rs/src/actions/swaps/swap.rs:351-361 | an input: the second of two pairs is gone and would have given five times the output |
| Money.CollectCapped | packages/calc-rs/src/conditions/schedule.rs:51-62 | the loop that caps each rebate at its balance |
| Money.CappedOverdraws | contracts/strategy/src/contract.rs:143-158 | exactly when amounts capped one at a time exceed the balance together |

## Left out

- 128-bit widths: sums, products and decimals are unbounded, except where the code saturates; an overflow would revert the call.
- Trading.CancelRunGoesThrough: assumes that order queries return a value or an error, since a query cannot abort its caller.
- Trading.AtMostOneOrderRests: the book is the set of prices at which one node's orders rest and reports them truthfully when a visit commits; matching and the orders of other nodes at the same price are outside.
- OrderBook.SidePrice: what the tick's two roundings do is the book library's business; they are arbitrary functions here.
- Swaps.FinAcceptsExactly: takes the mid price as given.
- Schedules.VisitGoesThrough: one direction only, and not for cron cadences, whose calendar may end.
- Traversal.ExecuteRunGoesThrough: one direction only; which visits abort depends on the world's answers along the way.
- Thorchain quotes, oracle prices and asset ratios: outside code, so swaps and looking-only conditions answer arbitrarily in a run.
- Cron calendars: a rising sequence of occurrences, of which the expression answers the first after an instant.
- Address validation, trigger ids and contract addresses: arbitrary functions; no property relies on ids being distinct.
- Authorization of the top-level messages other than Withdraw, the deposit record, events, queries, labels, status changes and the manager's index: one-branch facts.
- Message payloads and encodings, including the deposit message: nothing here depends on their bytes.
- Calls into a strategy in the middle of one of its own runs: the stored path is shared, so runs are taken one at a time.
