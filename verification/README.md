# Verification of the order book exchange and the lockup program

This project models the settlement pipeline of the exchange program in `dex/src` and the
vesting accounts of the lockup program in `lockup/`, and proves properties of the models
for all inputs, all states and all histories of instructions.

## What is modelled

An order travels from an `OpenOrders` account through the request queue, the order book
and the event queue back to the account. The modules follow that path.

- `Numbers`, `Fees`: machine words and the fixed-point fee schedule.
- `Orders`: orders, requests, events and order ids. `Wire` and `Instruction` are their
  stored forms and the instruction codec.
- `Ladder`: one side of the book as an ascending sequence of leaves, with the laws of a
  map. `CritTree` is the crit-bit tree as a value; `Slab` is the node array with its bump
  pointer and intrusive free list, whose methods are proved to be the operations of
  `Ladder`. `Bits` has the prefix and crit-bit arithmetic.
- `Queues`: the ring buffers.
- `Engine`: what one step of the matcher does, as functions. `Matching` has the same
  steps in place, on two slabs, with every variable typed `u64`, so that each addition,
  multiplication and subtraction is proved to stay in range. `Crank` is
  `process_requests` as repeated steps.
- `Outcomes`: what a new order gets in a step, said without the functions of `Engine`: how
  many lots, at which amounts, what remains, and every field of every event.
- `BookLaws`, `Accounting`, `Events`, `Disposition`, `Progress`: what a step keeps, what
  it conserves, which events it emits, when an order trades or rests, and why the crank
  ends.
- `Accounts`, `OpenOrders`: the trading account as a value and in place.
- `Exchange`: the market as a state machine with one transition per instruction.
  `Processor` has the instruction handlers in place, proved to make those transitions.
  `Effects` says what each instruction does, field by field, and when it succeeds.
- `Invariants`, `Lifecycle`: the invariant of a market with exact balances, and its
  preservation.
- `Pairs`, `Ledger`: the program's 64-bit balances beside the exact ones. Account totals
  are added to without a check, so they can wrap; these modules bound them and relate
  every reachable state to its exact ledger.
- `Guarantees`: the main theorems about every reachable state. `Cancels`: cancels take
  effect. `Blocked`: what follows once the event at the front of the queue is refused.
  `Recovery`: when everybody can be paid out. `Overflow`: a history in which a total wraps
  and the event queue is blocked for good.
- `Vesting`, `Lockup`, `LockupEffects`: the vesting schedule, the handlers of the lockup
  program, its state machine, and what each instruction does to it.

The heart of the accounting is one equation, `Invariants.Balanced`. A `Measure` names a
quantity: the funds an account has locked in either currency, the occupation of one order
slot, the free or total deposits, or the referrer rebates. For every measure, what the
balances of market and accounts say equals what queued requests, resting orders and
pending events together hold. Lock accounting, the life of an order, solvency and the
absence of underflow are instances of it.

Each instruction is atomic: an error leaves the state as it was, as
`dex/fuzz/src/lib.rs:278-295` arranges, so a handler in `Processor` or `Lockup` promises
the exact new state on success and the exact error otherwise. Token transfers are moves
between balances.

## Findings

Three results are worth a maintainer's attention.

- A market can be blocked for good. Event consumption adds to the totals of an `OpenOrders`
  account without a check, and `Overflow.WrappedTotal` is a history of eleven successful
  instructions after which one account stores a total of 0 with 1 free. That account cannot
  be settled. Worse, the next event of the queue unlocks a bid of the same account and is
  refused, and since events are consumed in order, no event of any account is ever consumed
  again, whatever instructions follow (`Overflow.FrozenMarket`). The cause is that fees of
  fills still pending are swept and deposited again.
  - When a total wraps: `Guarantees.FrontEventWraps` (an ask's fill that takes the stored
    total to 2^64). When an event is refused and when an account cannot be settled:
    `Guarantees.ConsumesExactlyWhen` and `Guarantees.PayoutsExactlyWhen` (free and locked
    funds of one account reach 2^64).
  - A refused event passes again exactly when bids of its owner have locked the shortfall
    (`Blocked.UnblocksExactlyWhen`, `Blocked.QueueBlocked`). If it unlocks at least
    2^64 / 400 plus two units for each slot of the event queue, there is no such bid
    (`Blocked.BlockedForever`).
  - Two disciplines rule all this out, by `Guarantees.CarefulInRange`: consume only while
    deposits and pending net fees are below 2^64 together, or sweep fees only while no event
    is pending.
- `create_vesting` accepts schedules on which redemption stops until the end slot, with a
  division by zero: `Vesting.AcceptedButUndefined` gives one and `Vesting.VestedDefinedIff`
  the exact condition. A build with overflow checks stops on more schedules
  (`Vesting.CheckedDefinedIff`, `Vesting.NegativeStart`); the release build wraps there and
  still computes the intended amount (`Vesting.VestedIsSchedule`).
- The tolerance of one unit in the fee round-trip test is not needed:
  `Fees.RemoveUndoesAdd` is exact.

## Model

| member | source | states |
|---|---|---|
| Guarantees.LockAccounting | dex/src/state.rs:2097-2171 | in every reachable state the stored coin total is what is free plus the locks of the queued, resting and pending orders, and the stored price-currency total is that modulo 2^64; it is that exactly if and only if the sum is below 2^64 |
| Guarantees.LocksExact | dex/src/state.rs:2097-2171 | after a history that kept either discipline, total minus free is exactly what requests, book and events have locked, in both currencies |
| Guarantees.CarefulInRange | dex/src/state.rs:2320-2342 | if each consumption started with deposits plus pending net fees below 2^64, or each sweep with no event pending, no account total ever reached 2^64 |
| Guarantees.FrontEventWraps | dex/src/state.rs:2110-2129 | in every reachable state, consuming the front event never wraps a coin total, a free balance or a rebate; a price-currency total wraps exactly when an ask's fill takes the stored total to 2^64 or a bid's fill takes more than is stored, and the latter not while totals are exact |
| Guarantees.ConsumesExactlyWhen | dex/src/state.rs:2090-2171 | in every reachable state the front event passes all checks, except the unlock of a bid whose owner's free and locked funds have reached 2^64 |
| Guarantees.OrderLifecycle | dex/src/state.rs:2090-2171 | an occupied slot's order is in exactly one of request queue, book and pending fully-out events, a free slot's in none; everything in flight matches its slot's id, side and client id; nothing follows a fully-out event for its slot |
| Guarantees.ConsumptionNeverFails | dex/src/state.rs:2064-2179 | with sweeps on an idle market only, or with room for the pending fees, event consumption succeeds for any limit and any accounts passed in, and totals stay exact |
| Guarantees.Solvency | dex/src/state.rs:1935-2000 | in every reachable state price vault = deposits + fees + rebates and coin vault = coin deposits, and each counter is what the accounts own (free and locked) plus the signed effect of the pending fills |
| Guarantees.PayoutsExactlyWhen | dex/src/state.rs:1922-2003 | in every reachable state the fee sweep succeeds, and settlement of an account succeeds if and only if its free funds and its locked funds modulo 2^64 are below 2^64 together |
| Guarantees.PayoutsNeverFail | dex/src/state.rs:1922-2003 | after a history that kept either discipline, settlement of any account, with or without referrer, and the fee sweep succeed |
| Guarantees.SettlementCovered | dex/src/state.rs:1935-2000 | in every reachable state what settlement subtracts from the market's counters and the vaults is there |
| Overflow.WrappedTotal | dex/src/state.rs:2110-2154 | a history of successful instructions that ends with a stored total of 0 and 1 free: settlement fails, and the front event, the unlock of a bid, is refused |
| Overflow.FrozenMarket | dex/src/state.rs:2147-2150 | after that history no instructions whatever get an event consumed again |
| Blocked.StuckMeans | dex/src/state.rs:2137-2155 | in every reachable state the front event is refused exactly when it is the unlock of a bid that exceeds what of its owner's stored total is not free |
| Blocked.UnblocksExactlyWhen | dex/src/state.rs:2137-2155 | while the front event is refused, every instruction leaves the pending events in place, consumption changes nothing, and the event passes afterwards if and only if the instruction is an accepted bid of its owner that locks at least the shortfall |
| Blocked.QueueBlocked | dex/src/state.rs:2074-2095 | over any run in which the owner's bids lock less than the shortfall, the queue stays blocked and the shortfall falls by exactly what they lock |
| Blocked.LargeStuck | dex/src/state.rs:2137-2155 | the unlock at the front of an amount that exceeds all possible pending fees is refused exactly when its owner's free and locked funds have reached 2^64 |
| Blocked.BlockedForever | dex/src/state.rs:2074-2155 | once such an unlock is refused, it stays refused and nothing is consumed, whatever instructions follow |
| Blocked.EventsWithin | dex/src/state.rs:538-547 | the event queue never holds more than its capacity |
| Pairs.FeesAreSmall | dex/src/fees.rs:84-126 | pending net fees are at most a 400th part of what the pending events set free, up to two units for each event |
| Overflow.NotCareful | dex/src/state.rs:2320-2342 | that history keeps neither discipline |
| Recovery.EverythingReturns | dex/fuzz/fuzz_targets/multiple_orders.rs:226-265 | from every reachable state whose pending events pass the checks, some cancels, crank calls, consumptions and settlements lead to a market with nothing in flight, every account paid out and just the unswept fees in the vaults |
| Recovery.HealthyDrains | dex/src/state.rs:2064-2179 | after either discipline, or with room for the pending fees and exact totals, the pending events pass the checks |
| Recovery.StuckNeverReturns | dex/src/state.rs:2147-2150 | while the front event is refused, no cancels, crank calls, consumptions and settlements bring the market to rest |
| Recovery.QuietIsHealthy | dex/src/state.rs:2097-2171 | without pending events every total is exact, whatever happened before |
| Recovery.ConsumeSplits | dex/src/state.rs:2064-2179 | consuming with limit a and then limit b is the same as with limit a + b, errors included |
| Recovery.EventsDrain | dex/src/state.rs:2064-2179 | with all accounts passed in and a large enough limit, one call fails or consumes every pending event; in a healthy market it does not fail |
| Guarantees.BookNeverCrossed | dex/src/matching.rs:598-603 | in every reachable state each bid price is strictly below each ask price, both sides are ordered and fit their slabs, and the deposits cover all locks |
| Guarantees.PriceTimePriority | dex/src/matching.rs:310-333 | whenever the order at the front of the queue fills, it does so at the price of the best resting order (best price, then smallest sequence number), within the limit, and never against its own owner |
| Guarantees.DrainedMarket | dex/fuzz/fuzz_targets/multiple_orders.rs:226-265 | with nothing in flight, the deposits are exactly the free balances of the accounts, and nothing is locked and no slot occupied in any account |
| Guarantees.FullySettled | dex/fuzz/fuzz_targets/multiple_orders.rs:249-265 | when all accounts have been settled too, deposits and rebates are zero, the coin vault is empty and the price vault holds just the unswept fees |
| Guarantees.CrankMayRun | dex/src/state.rs:2181-2189 | in every reachable state the preconditions under which the matcher is proved free of overflow hold |
| Ledger.ReachableKept | dex/src/state.rs:1922-2342 | every reachable state has an exact ledger that meets the whole invariant and differs from it at most by multiples of 2^64 in price-currency totals; after either discipline it does not differ |
| Ledger.TransitionFollows | dex/src/state.rs:1922-2342 | every successful instruction leads from stored state and ledger to stored state and ledger, without a wrapped total if consumption was guarded |
| Lifecycle.MatchKeeps | dex/src/matching.rs:75-98 | turning the crank keeps the invariant, for every limit |
| Ledger.ConsumeFollows | dex/src/state.rs:2064-2179 | a successful consumption keeps stored state and ledger together; with exact totals and room for the fees it always succeeds |
| Ledger.TotalBound | dex/src/matching.rs:445-473 | no account total exceeds deposits plus pending net fees, unless it is a taker's who still has to pay; in coins no total exceeds the deposits |
| Pairs.PairedBound | dex/src/matching.rs:402-465 | pending events show no more as locked by one account than they will set free, beyond their net fees |
| Pairs.StepPairs | dex/src/matching.rs:402-465 | a step pushes maker and taker fill of one trade, between different owners and with matching amounts, and their fees are what it accrues |
| Pairs.RunMovesFees | dex/src/matching.rs:464-473 | a crank call moves fees from the deposits to pending fills, so that their sum stays the same |
| Lifecycle.PlacesExclusive | dex/src/state.rs:2285-2306 | the four places an order can be in exclude each other, and no two requests, leaves or events hold the same slot |
| Lifecycle.OutApart | dex/src/state.rs:2137-2171 | nothing in the request queue or the book names the slot of a pending fully-out event |
| Lifecycle.FrontMatches | dex/src/state.rs:2090-2095 | the front event names a known account whose slot holds exactly that order and side |
| Ledger.PlaceFollows | dex/src/state.rs:2192-2308 | accepting an order adds the same deposit to the stored and the exact total and keeps the invariant |
| Invariants.PlacedKeeps | dex/src/state.rs:2192-2308 | an accepted order keeps the invariant: its lock shows in the account exactly as in the queued request, and the deposit in counter and vault alike |
| Invariants.CancelKeeps | dex/src/state.rs:2041-2062 | queueing a cancel request keeps the invariant, whatever order it names |
| Ledger.SettleFollows | dex/src/state.rs:1922-2003 | settlement succeeds exactly when the stored total covers what is free, and then keeps stored state and ledger together |
| Invariants.SettleKeeps | dex/src/state.rs:1922-2003 | with exact balances settlement succeeds and keeps the invariant |
| Invariants.SettleCovered | dex/src/state.rs:1935-2000 | with exact balances: free within total, free within deposits, rebates within the market's counter |
| Invariants.SweepKeeps | dex/src/state.rs:2320-2342 | the fee sweep succeeds and keeps the invariant |
| Accounting.OrderStepConserves | dex/src/matching.rs:284-845 | one step of a new order conserves every measure through fills, partial fills, self-trades, dust, boots and posting; only the net fee leaves the deposits |
| Accounting.CancelStepConserves | dex/src/matching.rs:847-888 | a cancel unlocks exactly what the order had locked, in every measure |
| BookLaws.OrderStepKeeps | dex/src/matching.rs:284-845 | a step keeps the book ordered, in its slabs and uncrossed, and the unfinished order is the same order with a smaller quantity and lock, still valid |
| BookLaws.CancelStepKeeps | dex/src/matching.rs:847-888 | a cancel keeps the book valid |
| BookLaws.TradeAffordable | dex/src/matching.rs:574-612 | the lots a bid takes cost no more than it has locked, taker fee included |
| BookLaws.PostQtyAffordable | dex/src/matching.rs:785-792 | the lots a bid posts cost no more than it has locked |
| Events.FillPriority | dex/src/matching.rs:402-465 | both fill events of a step report the same trade: quantity, maker's price, fee and rebate, against the first order in price-time order and within the taker's limit |
| Events.StepEventBound | dex/src/matching.rs:100-169 | a step pushes at most four events |
| Events.OrderStepEventsOk | dex/src/matching.rs:284-845 | every event names the incoming order or one that was resting; paid, received, fee and unlocked amounts fit 64 bits |
| Events.StepNothingAfterOut | dex/src/matching.rs:402-531 | within a step, nothing follows the fully-out event of a slot |
| Events.PostOnlyNeverTakes | dex/src/matching.rs:326-330 | a post-only order never trades and leaves the other side alone |
| Events.ImmediateOrCancelNeverRests | dex/src/matching.rs:484-531 | an immediate-or-cancel order leaves its own side alone |
| Disposition.TradesExactlyWhen | dex/src/matching.rs:310-343 | an order trades if and only if some order of the other side is within its limit, it is not post-only, the best such order has another owner, and it can pay for one lot with fee |
| Disposition.RestsExactlyWhen | dex/src/matching.rs:785-842 | an order enters the book if and only if it is not marketable, not immediate-or-cancel and its lock covers one lot; it then rests with its own id, owner, slot, tier and the covered quantity |
| Disposition.OthersUntouched | dex/src/matching.rs:549-845 | a step changes no order but the incoming one, the best of the other side, and the last of its own side when that is full |
| Outcomes.TradeOutcome | dex/src/matching.rs:284-772 | an order that meets another owner's order in front and can pay for one lot trades the greatest number of lots that both have and a bid can pay for; book, remainder, counters and every field of the fill and out events follow from that number |
| Outcomes.TradeExhausts | dex/src/matching.rs:598-612 | after a trade one of the two orders has no lots left, or it was a bid whose remaining funds do not pay for one more lot with fee |
| Outcomes.SelfTradeOutcome | dex/src/matching.rs:339-696 | an order that meets its own owner's does not trade: under DecrementTake both lose the greatest number of lots that could trade, under CancelProvide the resting order goes and the new one is unchanged; no fill, no fee, and the out events spelled out |
| Outcomes.RestOutcome | dex/src/matching.rs:785-842 | an order that nobody meets, not immediate-or-cancel, rests with all its own fields and the most lots its lock covers; the rest of the lock is released, and a full side loses exactly its last order |
| Outcomes.RefusalOutcome | dex/src/matching.rs:326-337 | an order that meets one in front but is post-only, or cannot pay for a lot, is released whole and leaves the book as it was |
| Outcomes.LapseOutcome | dex/src/matching.rs:785-809 | an order that nobody meets and that is immediate-or-cancel, or whose lock covers no lot, is released whole |
| Outcomes.CancelOutcome | dex/src/matching.rs:847-888 | a cancel of one's own resting order takes it out and releases exactly its lock |
| Outcomes.FreshBidCanPay | dex/src/state.rs:2211-2230 | a bid as it was accepted can pay for any lots it wants, at any price within its limit, fee included |
| Outcomes.LastIsWorst | dex/src/matching.rs:494-514 | the order that a full side loses is behind all others in price-time order |
| Disposition.CancelTakesOnlyItsOrder | dex/src/matching.rs:847-888 | a cancel removes the order it names exactly when owner and slot match, emits an event exactly then, and otherwise changes nothing |
| Cancels.ClientCancelNames | dex/src/state.rs:2005-2039 | a cancel by client id queues a cancel of the first listed order with that client id, which was numbered before it |
| Cancels.CancelTakesEffect | dex/src/matching.rs:847-888 | after a cancel was handled that is younger than the order it names, that order is neither resting nor queued |
| Cancels.CancelEndsOrder | dex/src/matching.rs:847-888 | and if its account still lists it, its fully-out event is pending |
| Cancels.ReachableNumbered | dex/src/state.rs:648-662 | in every reachable state requests are queued in the order of their sequence numbers, and listed orders are older than the counter |
| Progress.TradesAllItCan | dex/src/matching.rs:598-612 | k lots are within what a bid trades if and only if the resting order has them, the bid wants them and its lock pays for them with fee |
| Progress.PostsAllItCan | dex/src/matching.rs:785-792 | k lots are within what a bid posts if and only if it wants them and its lock pays for them at its own price |
| Progress.FundsExhausted | dex/src/matching.rs:743-766 | a bid whose fill was limited by its funds cannot afford another lot, so its next step unlocks the dust and ends it |
| Progress.StepLowersWork | dex/src/matching.rs:191-267 | every step lowers the number of queued requests plus open lots |
| Progress.CrankDrains | dex/src/matching.rs:75-98 | with a limit of at least that number, one call empties the request queue |
| Progress.CallsDrain | dex/src/matching.rs:75-98 | calls with limits of any size that add up to at least that number empty the request queue together |
| Crank.BatchingIrrelevant | dex/src/matching.rs:75-169 | limit a and then limit b is the same as limit a + b: same book, counters, queues and errors |
| Crank.EnoughEventSlots | dex/src/matching.rs:81-97 | with four free event slots per unit of limit the crank never reports a full event queue |
| Crank.AfterStepTotal | dex/src/matching.rs:445-473 | a step changes the sum of each measure by the fees accrued and nothing else |
| Crank.AfterStepInOrder | dex/src/state.rs:648-662 | queued orders stay in sequence-number order and newer than all resting ones, so that order ids in the book are unique |
| Crank.AfterStepBacked | dex/src/matching.rs:766-772 | the deposits keep covering all locks after fees have been taken out of them |
| Crank.RunKeeps | dex/src/matching.rs:75-98 | any successful crank keeps the crank's invariant |
| Matching.OrderBookState.ProcessRequests | dex/src/matching.rs:75-98 | the loop over the request queue, in place and in 64-bit words, yields exactly the specified run or its error |
| Matching.OrderBookState.Handle | dex/src/matching.rs:100-169 | one request is taken as far as the limit goes; an unfinished order is handed back to the front of the queue |
| Matching.OrderBookState.NewOrderLoop | dex/src/matching.rs:191-267 | the loop over one order is as many steps of the specification |
| Matching.OrderBookState.NewAsk | dex/src/matching.rs:284-531 | the in-place ask step: book, events, counters and remainder as specified, no operation out of range |
| Matching.OrderBookState.NewBid | dex/src/matching.rs:549-845 | the in-place bid step, likewise |
| Matching.OrderBookState.SelfTradeAsk | dex/src/matching.rs:339-399 | self-trade of an ask: both sides reduced or cancelled, their out events |
| Matching.OrderBookState.SelfTradeBid | dex/src/matching.rs:614-696 | self-trade of a bid, ending it when its funds or quantity run out |
| Matching.OrderBookState.FillBestBid | dex/src/matching.rs:402-442 | maker side of a fill: event, reduced or removed bid, rebate |
| Matching.OrderBookState.FillBestAsk | dex/src/matching.rs:698-738 | the same for an ask |
| Matching.OrderBookState.FinishAsk | dex/src/matching.rs:445-531 | taker fill, fee accrual, posting or release of an ask |
| Matching.OrderBookState.FinishFilledBid | dex/src/matching.rs:743-783 | taker fill, fee accrual and remainder of a bid that traded |
| Matching.OrderBookState.FinishIdleBid | dex/src/matching.rs:785-842 | release or posting of a bid that did not trade |
| Matching.OrderBookState.PlaceAsk | dex/src/matching.rs:484-514 | posting boots the least aggressive ask exactly when the slab is full; the second insertion always succeeds |
| Matching.OrderBookState.PlaceBid | dex/src/matching.rs:811-842 | the same for bids |
| Matching.OrderBookState.CancelOrder | dex/src/matching.rs:847-888 | removal of a matching order; an order of someone else is put back, the book is as before, and the reinsertion always succeeds |
| Matching.OrderBookState.FindBest | dex/src/matching.rs:68-73 | the handle of the highest bid or the lowest ask |
| Matching.OrderBookState.AccrueFees | dex/src/matching.rs:464-473 | fee counters move as specified, given that deposits cover the net fee |
| SlabStore.Slab.InsertLeaf | dex/src/critbit.rs:517-589 | map update returning the old leaf; fails exactly when the key is new and 2n + 1 nodes exceed the capacity, and then changes no leaf |
| SlabStore.Slab.RemoveByKey | dex/src/critbit.rs:615-660 | map deletion returning the old leaf; no change when the key is absent |
| SlabStore.Slab.FindMinMax | dex/src/critbit.rs:492-514 | the leaf with the least or greatest key, none exactly when empty |
| SlabStore.Slab.RemoveMinMax | dex/src/critbit.rs:663-670 | takes out that leaf and no other |
| SlabStore.Slab.Overwrite | dex/src/critbit.rs:536-545 | a leaf rewritten in place under the same key is a map update |
| SlabStore.Slab.SplitAt | dex/src/critbit.rs:546-588 | the old node moves to a new slot, its slot becomes the fork: map insertion, or no change when space runs out half way |
| SlabStore.Slab.Allocate | dex/src/critbit.rs:411-452 | a slot from the free list or by bumping; fails exactly when both are used up |
| SlabStore.Slab.Release | dex/src/critbit.rs:454-471 | a freed slot becomes the head of the free list, no other slot changes |
| SlabStore.Slab.SpaceIsExact | dex/src/critbit.rs:706-765 | tree nodes and free slots partition the slots below the bump index, and n leaves use exactly 2n - 1 nodes |
| SlabStore.Slab.LeavesAreAscending | dex/src/critbit.rs:673-695 | in-order traversal is strictly ascending in the key |
| SlabStore.SplitKeeps | dex/src/critbit.rs:564-588 | rewriting the insertion point as a fork keeps the array a faithful picture of the tree with the leaf added |
| SlabStore.UnlinkKeeps | dex/src/critbit.rs:638-660 | copying the sibling over the parent keeps the array a faithful picture of the tree with the leaf removed |
| CritTree.LeavesAscending | dex/src/critbit.rs:706-765 | under the prefix invariant the leaves are in strictly ascending key order |
| CritTree.WalkFinds | dex/src/critbit.rs:41-45 | following the critical bits of a stored key leads to its leaf |
| CritTree.WalkDecides | dex/src/critbit.rs:615-637 | a key is in the tree exactly when the leaf at the end of its walk has it |
| CritTree.InsertTreeIsInsert | dex/src/critbit.rs:517-589 | insertion at the crit bit is map update and keeps the prefix invariant |
| CritTree.RemoveTreeIsRemove | dex/src/critbit.rs:615-660 | replacing the parent by the sibling is map deletion and keeps the prefix invariant |
| CritTree.InsertTreeHandles | dex/src/critbit.rs:564-588 | insertion adds exactly the two new handles |
| CritTree.RemoveTreeHandles | dex/src/critbit.rs:638-660 | removal frees exactly the two children's handles |
| CritTree.HandleCount | dex/src/critbit.rs:706-765 | a tree of n leaves has 2n - 1 nodes |
| CritTree.PrefixesIncrease | dex/src/critbit.rs:706-765 | prefix lengths strictly increase on the way down, so that a descent takes at most 128 steps |
| Ladder.FindAfterInsert | dex/src/critbit.rs:517-589 | lookup and size after an update |
| Ladder.FindAfterRemove | dex/src/critbit.rs:615-660 | lookup and size after a deletion |
| Ladder.ReinsertRestores | dex/src/matching.rs:857-884 | deleting a leaf and inserting it again restores the map |
| Orders.OrderIdFields | dex/src/state.rs:648-662 | price and sequence number can be read back from an order id |
| Orders.KeyOrderIsPriceTime | dex/src/state.rs:648-656 | the order of ids is price-time order on asks and its reverse on bids |
| Fees.NetFeePositive | dex/src/fees.rs:135-139 | for all tiers and every amount the taker fee exceeds maker rebate plus referrer rebate |
| Fees.NetFeeMargin | dex/src/fees.rs:139-142 | for every 64-bit amount the net fee times 10000, plus 6848, exceeds three times the amount, where the test allows 2^32 |
| Fees.FillFeesNonNegative | dex/src/fees.rs:84-126 | no subtraction on the fee path is negative, and the fee is at most the principal |
| Fees.TakerFeeIsCeiling | dex/src/fees.rs:107-111 | the taker fee is the least whole number covering the exact fee |
| Fees.MakerRebateIsFloor | dex/src/fees.rs:84-91 | the rebate is the exact one rounded down |
| Fees.WithheldIsFeeOrOneMore | dex/src/fees.rs:114-120 | what is withheld from a lock is the fee on the rest, or one unit more |
| Fees.FillFitsLock | dex/src/fees.rs:156-163 | any fill up to the reduced amount is covered by the lock, fee included |
| Fees.RemoveUndoesAdd | dex/src/fees.rs:165-170 | adding the fee and removing it again gives back the amount exactly |
| Fees.FeesFit | dex/src/fees.rs:84-120 | results fit 64 bits and intermediate products 128 bits |
| Fees.TakerFeeInBps | dex/src/fees.rs:93-111 | for every 64-bit amount the taker fee is 22, 20, 18, 16, 14, 12 or 10 basis points by tier, up to less than one unit |
| Fees.MakerRebateInBps | dex/src/fees.rs:84-91 | the maker rebate is 5 basis points for the last tier and 3 for all others, up to less than one unit |
| Fees.ReferrerGetsAFifth | dex/src/fees.rs:124-126 | the referrer rebate is a fifth of the fee, rounded down |
| Progress.TakerFeeSubadditive | dex/src/fees.rs:107-111 | splitting a fill never lowers the fee |
| Queues.Queue.PushBack | dex/src/state.rs:538-547 | appends, failing exactly when full; event queues count their pushes |
| Queues.Queue.PeekFront | dex/src/state.rs:550-563 | the front element, none exactly when empty |
| Queues.Queue.ReplaceFront | dex/src/state.rs:558-563 | assignment through the mutable front replaces the front element only |
| Queues.Queue.PopFront | dex/src/state.rs:566-575 | takes off the front element |
| Queues.Queue.RevertPushes | dex/src/state.rs:578-584 | drops the newest elements down to the given length and takes back their numbers |
| Accounts.FreeFrom | dex/src/state.rs:479-498 | the first free slot of an account, none exactly when all are taken |
| Accounts.ClientSlotFrom | dex/src/state.rs:2005-2039 | the first occupied slot with a client id, none exactly when there is none |
| OpenOrdersAccount.OpenOrders.AddOrder | dex/src/state.rs:479-498 | occupies the lowest free slot with id, side and client id, and no other slot changes |
| OpenOrdersAccount.OpenOrders.RemoveOrder | dex/src/state.rs:466-477 | frees an occupied slot, refuses a free one |
| OpenOrdersAccount.OpenOrders.Lock | dex/src/state.rs:2211-2252 | uses free funds first and asks for the rest as deposit; refuses a total of 2^64 |
| OpenOrdersAccount.OpenOrders.Apply | dex/src/state.rs:2090-2171 | one event with its checks: every balance is the exact one modulo 2^64, and the slot is freed exactly by a fully-out event |
| OpenOrdersAccount.OpenOrders.TakeFree | dex/src/state.rs:1935-1960 | takes out all free balances and rebates |
| Processor.ProcessNewOrder | dex/src/state.rs:2192-2308 | the handler makes exactly the specified transition of account, market, queue and vaults, or returns its error |
| Processor.CheckedLock | dex/src/state.rs:2211-2252 | the checked multiplications and additions fail if and only if the final lock (notional plus fee, or coins) is 2^64 or more, and yield it otherwise |
| Processor.FundOrder | dex/src/state.rs:2211-2283 | free funds first, the rest deposited into the matching vault |
| Processor.ProcessCancelOrder | dex/src/state.rs:2041-2062 | queues the cancel request under a fresh sequence number |
| Processor.ProcessCancelByClientId | dex/src/state.rs:2005-2039 | queues a cancel for the first occupied slot with the client id |
| Processor.ProcessSettleFunds | dex/src/state.rs:1922-2003 | pays out exactly the free balances, and the rebates to the referrer or the fee counter |
| Processor.ProcessSweepFees | dex/src/state.rs:2320-2342 | pays out the accrued fees and zeroes the counter |
| Processor.ProcessConsumeEvents | dex/src/state.rs:2064-2179 | applies events from the front until the limit or an account that was not passed in |
| Processor.LoadedIsConsume | dex/src/state.rs:2064-2179 | seen on the whole market, that is the transition of the state machine, and accounts not passed in stay as they are |
| Effects.PlaceOrderEffect | dex/src/state.rs:2192-2308 | an accepted order appends one request whose side, type, price, sequence number, owner, slot, tier, quantity, lock, client id and self-trade behaviour are those of the instruction; free funds are used first, the rest of the cost is deposited into counter and vault, and the order is listed in the lowest free slot |
| Effects.PlaceOrderSucceedsWhen | dex/src/state.rs:2192-2308 | it is accepted if and only if price and quantity are nonzero words, the cost is, the payer has the deposit, counters and vault stay in range, a slot is free and the queue has room |
| Effects.CancelByIdEffect | dex/src/state.rs:2041-2062 | a cancel appends one request with the given fields under the caller's account, if and only if the queue has room and a sequence number is left |
| Effects.CancelByClientIdEffect | dex/src/state.rs:2005-2039 | the same for the first listed order with the client id |
| Effects.MatchOneEffect | dex/src/matching.rs:75-148 | one unit of limit is one step: the unfinished order goes back to the front, events to the end, and counters move by the net fee, a fifth of the taker fee going to rebates; only missing event slots stop it |
| Effects.ConsumeEffect | dex/src/state.rs:2064-2179 | events are taken off the front and applied in order until the limit, the end, or an account that was not passed in, and nothing else changes |
| Effects.RefusedWhen | dex/src/state.rs:2090-2155 | an event is refused exactly when its slot holds another order or its unlock is not covered |
| Effects.EventPays | dex/src/state.rs:2097-2171 | what each kind of event adds to and takes from which balance, in wrapping words |
| Effects.SettleFundsEffect | dex/src/state.rs:1935-2000 | settlement takes the free coins and price currency out of the vaults and zeroes free balances and rebates; the rebates are paid out of the vault with a referrer and go into the fee counter without one |
| Effects.SettleFundsSucceedsWhen | dex/src/state.rs:1935-2000 | it succeeds if and only if totals cover what is free and vaults what is paid |
| Effects.SweepFeesEffect | dex/src/state.rs:2320-2342 | the sweep takes the fee counter out of the vault and zeroes it |
| Wire.RequestRoundTrip | dex/src/state.rs:719-838 | a stored request reads back as itself, so a suspended order resumes unchanged |
| Wire.RequestCanonical | dex/src/state.rs:785-838 | a record that reads as a request is that request's packing, up to the fields a cancel does not use |
| Wire.EventRoundTrip | dex/src/state.rs:934-1050 | a stored event reads back as itself |
| Wire.ReadsAsOut | dex/src/state.rs:1003-1050 | exactly which records read as out events; the out flag itself is not required |
| Wire.NewOrderRecord | dex/src/state.rs:719-757 | flags and fields of a stored order |
| Wire.CancelRecord | dex/src/state.rs:758-780 | flags and fields of a stored cancel |
| Wire.EventRecord | dex/src/state.rs:934-1000 | flags and fields of a stored event |
| Instruction.UnpackPack | dex/src/instruction.rs:405-417 | unpacking a packed instruction gives it back, for all ten variants |
| Instruction.PackUnpack | dex/src/instruction.rs:258-328 | whatever bytes are accepted are the packing of what they unpack to |
| Instruction.FromToBytes | dex/src/instruction.rs:133-158 | little-endian fields read back as written |
| Instruction.JoinSplit | dex/src/instruction.rs:133-158 | cutting bytes into fixed-width fields loses nothing |
| Instruction.Layout | dex/src/instruction.rs:258-328 | the length, the discriminant and the position of every field of all ten variants |
| Vesting.VestedBounded | lockup/src/accounts/vesting.rs:79-117 | the vested amount is between zero and the deposit, and is the deposit from the end slot on |
| Vesting.VestedMonotone | lockup/src/accounts/vesting.rs:79-117 | the vested amount never decreases and, once defined, stays defined |
| Vesting.VestedDefinedIff | lockup/src/accounts/vesting.rs:93-117 | for an accepted schedule before its end, the release build computes an amount if and only if there are at most two periods per slot and the moved window is below 2^64; otherwise it divides by zero |
| Vesting.VestedIsSchedule | lockup/src/accounts/vesting.rs:93-117 | that amount is the one of the schedule without machine words, even where the moved start wraps below slot zero |
| Vesting.CheckedDefinedIff | lockup/src/accounts/vesting.rs:102-106 | a build with overflow checks computes an amount if and only if there are at most two periods per slot and the remainder is at most the start slot, and then the same one |
| Vesting.NegativeStart | lockup/src/accounts/vesting.rs:102-106 | an accepted schedule on which the two builds differ |
| Vesting.AcceptedButUndefined | lockup/program/src/create_vesting.rs:126-137 | a schedule that is accepted and on which redemption stops |
| Lockup.ReachableSafe | lockup/src/accounts/vesting.rs:50-75 | in every reachable state: whitelist-owned <= balance <= deposit, withdrawn <= vested by now, the supply of each receipt mint is the sum of the claimed balances that name it, and the vault covers the sum of balance minus whitelist-owned |
| Lockup.OwnMint | lockup/program/src/claim.rs:118-139 | the receipts of a mint that one account alone names are its balance once claimed, none before |
| Lockup.ExecuteKeeps | lockup/program/src/redeem.rs:106-183 | every instruction, and the passing of time, keeps that invariant |
| Lockup.HandleKeeps | lockup/program/src/redeem.rs:123-183 | each handler on one account keeps that account consistent, moves its mint's supply with its claimed balance and the vault by at least the change of what is owed |
| Lockup.RedemptionHonoured | lockup/program/src/redeem.rs:106-183 | in every reachable state a redemption of a claimed account succeeds if and only if the available amount is defined and covers it and the burned receipt account holds it: mint supply and vault always suffice |
| Lockup.FullyVested | lockup/src/accounts/vesting.rs:59-86 | after the end slot everything that is not with whitelisted programs is available |
| LockupEffects.CreateEffect | lockup/program/src/create_vesting.rs:126-215 | a creation is accepted on exactly the listed conditions, opens the account of the instruction (start at the clock, given end, periods, deposit and mint, unclaimed) and takes the deposit |
| LockupEffects.TermsForGood | lockup/program/src/create_vesting.rs:178-191 | over every later history deposit, start, end, periods and mint of an account stay the same |
| LockupEffects.RedeemedWithinSchedule | lockup/program/src/redeem.rs:106-183 | for good, what was redeemed of an account and what is available never exceed together what the schedule with the arguments of its creation gives by then |
| LockupEffects.ClaimEffect | lockup/program/src/claim.rs:94-139 | a claim mints the deposit's worth of the account's own mint, if it was not claimed before, and changes nothing else |
| LockupEffects.RedeemEffect | lockup/program/src/redeem.rs:106-183 | a redemption takes its amount off balance, mint supply and vault, if and only if vested, unlocked and held amounts cover it |
| LockupEffects.WhitelistWithdrawEffect | lockup/program/src/whitelist_withdraw.rs:114-209 | when it succeeds, and that the whole approved amount becomes whitelist-owned |
| LockupEffects.WhitelistDepositEffect | lockup/program/src/whitelist_deposit.rs:108-180 | when it succeeds, and that exactly the vault's gain is no longer whitelist-owned |
| Lockup.VestingAccount.CreateVesting | lockup/program/src/create_vesting.rs:126-215 | the specified checks, the empty receipt mint included, account and deposit |
| Lockup.VestingAccount.ClaimReceipts | lockup/program/src/claim.rs:94-139 | mints the deposit's worth of receipts, once |
| Lockup.VestingAccount.RedeemVested | lockup/program/src/redeem.rs:106-183 | deduct, burn from the given receipt account and transfer the same amount |
| Lockup.VestingAccount.SendToWhitelist | lockup/program/src/whitelist_withdraw.rs:114-209 | the whole approved amount counts as whitelist-owned, however little the relayed call took |
| Lockup.VestingAccount.ReturnFromWhitelist | lockup/program/src/whitelist_deposit.rs:108-180 | the vault's gain is no longer whitelist-owned; a call without gain, or with more than is owned, stops |

## Left out

- Processor.ProcessConsumeEvents: the binary search in the list of passed accounts is a map lookup; in an unsorted list the search may miss an account, which stops the loop early as if it had not been passed.
- Processor.ProcessNewOrder: requires nonzero price and quantity (the source's types) and a next sequence number below 2^64; the source's counter would wrap.
- Processor.ProcessSettleFunds: its preconditions are what Guarantees.SettlementCovered gives in every reachable state.
- Guarantees.Solvency: vaults change through these instructions only; tokens sent straight to a vault of the exchange are outside the model and would make it hold more.
- Recovery.EverythingReturns: needs sequence numbers for the cancels and room for four events; a consumption limit in it may exceed 16 bits, and Recovery.ConsumeSplits then splits the call. For states whose pending events do not all pass, Blocked says what bids of the owner restore this and when none do; whether such a bid is accepted (slots, queue room, vault range) is `Exchange.Accept`.
- Wire.RequestRoundTrip: a NewOrder with quantity zero has no stored form, as in the source, where the quantity is a nonzero word.
- Lockup.ReachableSafe: backing is an inequality, because the allowance is read after it was revoked and the full amount is counted as whitelist-owned; tokens that reach the vault by other ways than these instructions, and receipts that holders burn themselves, are outside the model.
- Lockup.RedemptionHonoured: the balance of the burned receipt account is a parameter; who holds receipts after they were passed on is not modelled.
- Vesting.VestedBounded: that the moved window divides evenly, as a comment in the source suggests, is not true in general and not stated.
- Account parsing and validation, ownership, signers, rent, market initialization and disabling: accounts are numbered and already typed; lot sizes are nonzero and each slab has more than 200 nodes, as `Engine.Config` says.
- Fee tiers from (M)SRM balances: the tier of an order is a parameter.
- The byte layout of nodes, queues and accounts: slabs hold typed nodes, queues hold decoded requests and events, bitmaps are sets of slot numbers. XOR and leading-zero counts on 128-bit keys are expressed by prefixes and bits of numbers.
- The matching loops of new_ask and new_bid: every path through their bodies leaves the loop in the first round, so a step has no loop.
- A bid with limit price zero (a market bid inside new_bid): new orders always have a nonzero price.
- The still-locked amount that an ask's self-trade reports is in lots and not in native units; the model does the same, and consumption only compares it with zero.
- Client order id assertions of debug builds, logging and error line numbers.
- The lockup program's initialize, set_authority, migrate and the whitelist's byte-offset index: membership in the whitelist is a parameter; migrate ends the backing invariant.
- Registry programs, crank, node, command line and client crates.
