# Golos chain model

A Dafny model of the consensus state machine of Golos, a delegated-proof-of-stake chain node, and proofs about it. The
hardfork regime is fixed: every hardfork up to 0.20 has passed (the delegation, auction-window and curation rules of 0.19
included). Quantities are unbounded integers except where the width matters; there the wrap-around is written out (64-bit
curation weights, 128-bit virtual time, 32-bit authority weights).

The components, each with its own modules:

* **Proxied witness voting** (`ProxyForest`, `WitnessTally`, `VestingRoutes`, `ProxyMoves`, `WitnessVoting`). Accounts form a
  forest of proxies with cached levels. One local rule per account is kept by every operation; two global theorems say what
  it means.
* **Ledger and order book** (`Market`, `LedgerState`, `LedgerSteps`, `LedgerPayments`, `Trades`, `SharePrice`, `Requests`,
  `QuietSteps`, `Inflation`, `Interest`, `Undoing`, `Ledger`). Every operation is composed of small steps, each of which says by
  how much it moves the gap between a recorded supply and what is held; complete operations close the gaps. `LedgerPayments`
  adds who receives what, `Trades` at what price, `SharePrice` what vesting shares are worth, `Requests` the counters of savings
  withdrawals, `Interest` what a balance earns, and `Undoing` which operations take back which.
* **Rewards** (`ApproxSqrt`, `Curation`, `CurationPayout`, `CashoutSteps`, `Grants`, `CashoutGrants`, `Cashout`,
  `TreeSums`, `CommentForest`, `Discussions`, `Payouts`, `LedgerRuns`). Curation weights, the division of a reward, its way through the ledger to each account (`Grants`), and the comment forest whose
  cached sums decide what a post may claim; `LedgerRuns` puts ledger and rewards together over whole runs.
* **Forks** (`ForkDatabase`, `ForkSwitch`). The fork index and the all-or-nothing switch, for any deterministic way of applying
  blocks.
* **Authorities** (`Authorities`). The recursive weighted-threshold check between its two bounds.
* **Block log** (`BlockLogFormat`, `BlockLog`, `LogExamples`). Bytes that refine a list of blocks.
* **Witness scheduling and irreversibility** (`Rounds`, `Scheduler`, `Irreversibility`). `Rounds` says which witnesses
  come next and what is fair about it; `Scheduler` does it in place.
* **Delegation** (`DelegationBooks`, `Delegating`, `VoteRates`).

`Common`, `Arith` and `MapSums` hold shared names, a few facts about rounding, and sums over finite maps.

Where the code departs from what its documentation says, the model follows the code. A block that is alone at its number is
returned as a main-branch block even when the main branch does not reach it (`ForkDatabase.LoneBlockAboveHead`). A resting order
above price::max is never found by an order that crosses it (`Market.AboveMaxIsMissed`), which no order is while the supplies
stay below the maximum. An index with a wrong interior but the right last entry is not rebuilt although the comment in
`block_log.cpp` suggests a head check is enough (`LogExamples.WrongIndexStays`); a stale index is rebuilt from the start rather
than from its head. The memo of approved accounts makes the depth limit of authority checks depend on what was checked before
(`Authorities.MemoAcceptsMore`). A lap of virtual time is run at votes plus one while progress is counted at votes, unlike
the description in `witness_objects.hpp` (`Rounds.TouchingDelays`). Inflation stops narrowing
at block 355,000,000, not at 357,408,000 as the comment in `process_funds` says (`Inflation.InflationNarrows`). The loop check of
`account_witness_proxy` keeps the address of a copy that is gone in the next
turn of the loop; it is modelled as the walk up the proxies it is meant to be.

`dafny verify dfyconfig.toml` checks the whole project.

## Model

| member | source | states |
|---|---|---|
| `ProxyForest.LevelIsStakeAtDistance` | libraries/chain/database.cpp:2008-2036 | In any state that meets the one-hop rule kept by the walk, level i of an account is the sum of the stake of exactly the accounts whose proxy chain reaches it in i hops |
| `ProxyForest.TallyIsTotalStake` | libraries/chain/include/golos/chain/account_object.hpp:115-126 | Whole weights of the accounts that vote for themselves plus the last level of all others add up to all vesting shares, also when chains are longer than the depth cap |
| `WitnessTally.BackingWithinTotal` | libraries/chain/database.cpp:2066-2076 | The stake behind one witness, own and proxied, never exceeds all vesting shares |
| `WitnessTally.OwingMovesUp` | libraries/chain/database.cpp:2008-2036 | Adding a level vector at the proxy of an account moves the whole outstanding difference from the account to its proxy, shifted by one level |
| `WitnessTally.OwingExpires` | libraries/chain/database.cpp:2008-2012 | At the depth cap nothing is outstanding any more, so the walk may stop there |
| `WitnessTally.ChainIsStraight` | libraries/chain/database.cpp:2008-2055 | A walk up an acyclic chain never meets the same account twice, so no level is updated twice |
| `ProxyMoves.NeverOverfull` | libraries/chain/database.cpp:2075-2075 | While sums agree no witness can hold more than the total, so the vote assertion cannot fire at an operation boundary |
| `ProxyMoves.DetachOwes` | libraries/chain/database.cpp:3026-3053 | Starting to withdraw an account is the same as owing the negation of all its levels with its edge already cut |
| `ProxyMoves.AttachReady` | libraries/chain/steem_evaluator.cpp:1313-1326 | With its records gone and its proxy changed, an account owes exactly its levels at its new place, and the forest is still acyclic |
| `ProxyMoves.VoteAgrees` | libraries/chain/steem_evaluator.cpp:1333-1405 | One more or one less vote record changes the backing of exactly that witness, by exactly the weight of the voter |
| `ProxyMoves.VoteEntitled` | libraries/chain/steem_evaluator.cpp:1333-1405 | A ballot of an account that may vote leaves every declined account without proxy and records, and nobody above the limit of votes |
| `ProxyMoves.MovedEntitled` | libraries/chain/steem_evaluator.cpp:1276-1331 | So does a change of proxy |
| `ProxyMoves.RevisitMeansLoop` | libraries/chain/steem_evaluator.cpp:1302-1311 | A name met twice on the way up, or the account itself, means the new proxy would close a loop |
| `ProxyMoves.ClearingAgrees` | libraries/chain/database.cpp:2115-2168 | Dropping the stake of an account without a walk, as the null account burn does, keeps all sums if and only if the account had no stake or neither a proxy nor a vote |
| `ProxyMoves.AllStakeBehindOneWitness` | libraries/chain/database.cpp:2066-2076 | A concrete state that meets the whole invariant, in which one witness holds everything and a routed withdrawal would be refused, so neither strict inequality nor unconditional acceptance can be claimed |
| `ProxyMoves.StrictlyBelowTotal` | libraries/chain/database.cpp:2066-2076 | A witness stays strictly below the total if and only if some stake is tallied to an account that does not vote for it |
| `VestingRoutes.DepositsWithin` | libraries/chain/database.cpp:2206-2300 | Routed parts of a withdrawal, each rounded down, never add up to more than the withdrawal when the percentages add up to at most 100% |
| `VestingRoutes.StepWithinTarget` | libraries/chain/database.cpp:2224-2238 | The step of one week stays within the target if and only if a full rate is left, or the shares held or the remainder of the target by the rate do not exceed what is left |
| `VestingRoutes.WithdrawalWithinTarget` | libraries/chain/database.cpp:2206-2343 | However many shares are held from week to week, all steps of a withdrawal together never take more than its target as long as no route brings shares back to its own account |
| `VestingRoutes.CoveredReachesTarget` | libraries/chain/steem_evaluator.cpp:1156-1217 | If the target was held at the start and nothing else takes shares away, every week takes the whole rate until exactly the target is reached, with any routes |
| `WitnessVoting.Voting.AdjustWitnessVotes` | libraries/chain/database.cpp:2057-2064 | Every witness the account has a record for is changed once by the amount and no other; it fails exactly when one would exceed all vesting shares |
| `WitnessVoting.Voting.AdjustProxied` | libraries/chain/database.cpp:2008-2036 | Started from a state that owes a level vector, the recursive walk ends with all levels in agreement, and all witness sums too unless one is genuinely above the total |
| `WitnessVoting.Voting.AdjustProxiedStake` | libraries/chain/database.cpp:2038-2055 | The walk with one amount ends in agreement, and says exactly whose witnesses receive the amount and when they cannot |
| `WitnessVoting.Voting.Vote` | libraries/chain/steem_evaluator.cpp:1333-1405 | Accepted exactly when the rules allow it, in particular only for an account that has not declined and has no proxy; only this record appears or disappears, the witness gains or loses the full weight of the voter, and all sums stay exact |
| `WitnessVoting.Voting.ChainCheck` | libraries/chain/steem_evaluator.cpp:1302-1311 | The walk accepts exactly the proxies whose chain ends within the depth cap without coming back |
| `WitnessVoting.Voting.SetProxy` | libraries/chain/steem_evaluator.cpp:1276-1331 | Withdrawing all contributions, changing the proxy and adding them again keeps every level, tally and witness sum exact, clears the records of the voter, leaves everything else but cached levels alone, and is accepted exactly for chains within the depth cap by accounts that have not declined |
| `WitnessVoting.Voting.DeclineVoting` | libraries/chain/database.cpp:3026-3053 | A declining account has no proxy and no records afterwards, the right to vote is gone, nothing else but cached levels changes, and all sums stay exact |
| `WitnessVoting.Voting.AddVests` | libraries/chain/database.cpp:1423-1456 | New shares reach the levels of every account up the chain and its witnesses in one walk |
| `WitnessVoting.Voting.CreditRoutes` | libraries/chain/database.cpp:2245-2270 | Crediting routed shares before the source is debited succeeds exactly when no witness would exceed the total meanwhile |
| `WitnessVoting.Voting.PowerDown` | libraries/chain/database.cpp:2206-2343 | Goes through exactly when the credits made before the debit fit below the total; then all sums agree again with the reduced total |
| `WitnessVoting.Voting.ClearVests` | libraries/chain/database.cpp:2115-2168 | Burning the shares of the null account keeps the sums, given that it has neither proxy nor votes |
| `WitnessVoting.Voting.CreateAccount` | libraries/chain/steem_evaluator.cpp:173-200 | A new account joins without disturbing any sum |
| `WitnessVoting.ValidMeans` | libraries/chain/database.cpp:2008-2106 | The invariant spelled out: no proxy loops, each level is the stake at exactly that distance, nothing is tallied twice or lost, no witness above the total, and an account that declined supports nobody |
| `WitnessVoting.DeclinedSupportNobody` | libraries/chain/database.cpp:3026-3053 | Whoever has declined has no proxy and no vote record, in every state the invariant allows |
| `WitnessVoting.Run` | libraries/chain/steem_evaluator.cpp:1276-1405 | The invariant and its meaning hold after any sequence of blocks of votes, proxy changes, declines, vestings, withdrawals and burns, and an account that has declined at any point has neither proxy nor vote ever again |
| `WitnessVoting.PerformBlock` | libraries/chain/database.cpp:2206-2343 | A withdrawal that does not fit gives up its whole block, and nothing of it remains |
| `Market.MatchIsFair` | libraries/chain/database.cpp:4219-4275 | Under floor rounding neither side pays more than it has for sale, both receive something, one side is used up, and each gets at least the rounded-down worth at its own price |
| `Market.AtRestingPrice` | libraries/chain/database.cpp:4219-4275 | A trade is at the price of the resting order, rounded down once, whichever of the two orders is used up |
| `Market.CrossingIsAgreement` | libraries/protocol/asset.cpp:106-156 | Two opposite orders cross if and only if there is an exchange that meets the limit price of both |
| `Market.RestIsSoundOrDust` | libraries/chain/database.cpp:4315-4345 | What a partial fill leaves is either a sound order again or would receive nothing and is closed |
| `Market.SoundIsBelowMax` | libraries/protocol/asset.cpp:184-187 | An order that the maximum supply could back is never above price::max, so the scan range does not miss it |
| `Market.CrossingIsSymmetric` | libraries/protocol/asset.cpp:106-156 | Whether two opposite orders cross does not depend on which of them is compared with the other |
| `Market.SettledBookUncrossed` | libraries/chain/database.cpp:4197-4217 | Once the newest order is gone or finds nothing, no order in the book crosses an older one, except one above price::max |
| `Market.UncrossedBelowMax` | libraries/protocol/asset.cpp:184-187 | If the maximum supply could back every order, no two orders cross at all |
| `Market.AboveMaxIsMissed` | libraries/chain/database.cpp:4197-4217 | A concrete pair of crossing orders that never meet because the resting one is above price::max |
| `Market.AheadTransitive` | libraries/protocol/asset.cpp:120-147 | Price-then-age is a total preorder by cross multiplication, so the best resting order is well defined |
| `LedgerState.CashOutWithinFund` | libraries/chain/database.cpp:2206-2343 | Cashing out shares at the current share price never takes more than the vesting fund and leaves the remaining shares backed |
| `LedgerSteps.Adjusted` | libraries/chain/database.cpp:4388-4436 | A balance change with SBD interest paid on the way opens gaps between supply and holdings by exactly the amount moved, the interest being matched by new supply |
| `LedgerSteps.AdjustedSavings` | libraries/chain/database.cpp:4439-4483 | The same for savings balances and their separate interest clock |
| `Interest.ClockHoldsArea` | libraries/chain/database.cpp:4401-4413 | However often a dollar balance is changed meanwhile, its clock holds the dollars times seconds since interest was last paid |
| `Interest.InterestOnArea` | libraries/chain/database.cpp:4401-4433 | Interest is the yearly rate on exactly those, rounded down once, and is paid if and only if it is on, the time is later than the last change, there is something to pay on and more than the compounding interval has gone by |
| `Interest.SavingsInterestOnArea` | libraries/chain/database.cpp:4439-4475 | The same for savings, where the dollar-seconds are first rounded down to whole dollar-years |
| `Interest.YearlyRate` | libraries/chain/database.cpp:4401-4433 | A balance left alone for a year earns the yearly rate of itself |
| `LedgerSteps.VestingCreated` | libraries/chain/database.cpp:1423-1456 | Tokens that enter the vesting fund and the shares issued for them balance |
| `SharePrice.IssueAtPrice` | libraries/chain/database.cpp:1423-1456 | A thousand shares a token at the start, afterwards tokens times all shares over the whole fund, rounded down |
| `SharePrice.WorthAtPrice` | libraries/chain/database.cpp:2217-2223 | Shares are cashed out for shares times the fund over all shares, rounded down |
| `SharePrice.VestingPays` | libraries/chain/database.cpp:1423-1456 | Only the receiver changes, by exactly the shares issued, and total shares and fund rise by exactly these and the tokens |
| `SharePrice.VestingDilutesNobody` | libraries/chain/database.cpp:1423-1456 | After a deposit the shares of every holder are worth at least what they were |
| `SharePrice.DrawKeepsPrice` | libraries/chain/database.cpp:2206-2343 | Cashing out leaves the remaining shares worth no less |
| `SharePrice.NothingWonInAndOut` | libraries/chain/database.cpp:1423-1456 | Shares bought and cashed out again at once give back no more than was paid |
| `SharePrice.PriceNeverFalls` | libraries/chain/database.cpp:1423-1456 | Between any two moments of a run throughout which there are shares, the price has not fallen and the same shares are worth no less |
| `SharePrice.PriceStartsAnew` | libraries/chain/database.cpp:1423-1456 | A concrete pool whose last share is cashed out and whose next shares are cheaper, so that exception is needed |
| `LedgerSteps.OrderFilledKeeps` | libraries/chain/database.cpp:4315-4345 | Filling an order, with its refund of dust, takes out of the book exactly what it pays and credits exactly what it receives |
| `LedgerSteps.MatchedKeeps` | libraries/chain/database.cpp:4219-4275 | A match conserves both assets, touches only its two orders and closes at least one of them |
| `LedgerSteps.SbdCreatedConserves` | libraries/chain/database.cpp:1385-1417 | However a reward is split between dollars and tokens, exactly its amount of pending supply is used up |
| `LedgerSteps.BalanceWithinSupply` | libraries/chain/database.cpp:4485-4514 | No account can hold more than the recorded supply |
| `LedgerSteps.NothingCrossesBelowMax` | libraries/chain/database.cpp:4197-4217 | While no supply exceeds the maximum, no two orders of the ledger cross |
| `Ledger.Ledger.constructor` | libraries/chain/database.cpp:3235-3395 | The genesis state, in which one account has the whole supply, meets the invariant |
| `Ledger.Ledger.CreateAccount` | libraries/chain/steem_evaluator.cpp:173-232 | A new account gets the fee as its first shares; exactly when it is allowed, with all supplies exact and nobody diluted |
| `Ledger.Ledger.Transfer` | libraries/chain/steem_evaluator.cpp:1126-1142 | A transfer succeeds exactly with sufficient balance and known accounts, and keeps all three supplies exact |
| `Ledger.Ledger.TransferToVesting` | libraries/chain/steem_evaluator.cpp:1144-1154 | Liquid tokens become shares with all supplies exact, and no share is worth less than before |
| `Ledger.Ledger.TransferToSavings` | libraries/chain/steem_evaluator.cpp:2353-2361 | Tokens move to savings with all supplies exact |
| `Ledger.Ledger.TransferFromSavings` | libraries/chain/steem_evaluator.cpp:2363-2390 | A withdrawal request reserves the amount; refused exactly when over the limit, over the balance or with a used id; the request counter stays exact |
| `Ledger.Ledger.CancelFromSavings` | libraries/chain/steem_evaluator.cpp:2392-2401 | A cancelled request returns its whole amount to savings |
| `Ledger.Ledger.ProcessSavingsWithdraws` | libraries/chain/database.cpp:2724-2742 | The loop pays every due request and leaves exactly the others: each account receives exactly the tokens and dollars that its due requests add up to, and nothing but interest already due beyond that |
| `Ledger.Ledger.EscrowTransfer` | libraries/chain/steem_evaluator.cpp:938-976 | Amounts and fee leave the sender and sit in the escrow; every refusal condition is stated |
| `Ledger.Ledger.EscrowApprove` | libraries/chain/steem_evaluator.cpp:978-1028 | A ratified escrow has paid its fee, a rejected one refunds everything, and the supplies stay exact |
| `Ledger.Ledger.EscrowDispute` | libraries/chain/steem_evaluator.cpp:1030-1055 | Only a ratified, unexpired, undisputed escrow can be disputed, which marks it without moving tokens |
| `Ledger.Ledger.EscrowRelease` | libraries/chain/steem_evaluator.cpp:1057-1124 | Who may release what to whom: only to one of the parties, by the agent if disputed, otherwise by a party, and before the expiration only to the other one; emptying a ratified escrow loses nothing |
| `Ledger.Ledger.ExpireEscrows` | libraries/chain/database.cpp:3007-3024 | Exactly the unratified escrows past their deadline are removed, and each sender gets back exactly the sum of the amounts and fees of theirs, besides interest already due |
| `Undoing.WhoMayRelease` | libraries/protocol/include/golos/protocol/steem_operations.hpp:381-390 | The documented permission scheme is exactly what the evaluator allows, for every ratified escrow |
| `Undoing.DisputeLeavesItToAgent` | libraries/chain/steem_evaluator.cpp:1084-1094 | After a dispute nobody but the agent can release |
| `Undoing.RatifiedIs` | libraries/chain/steem_evaluator.cpp:996-1027 | An approval counts for the party that gives it, and the fee goes to the agent, and leaves the escrow, exactly when both have approved |
| `Undoing.EitherApprovesFirst` | libraries/chain/steem_evaluator.cpp:978-1028 | Receiver and agent may approve in either order with the same result |
| `Undoing.RefusalUndoesEscrow` | libraries/chain/steem_evaluator.cpp:938-1015 | An escrow refused before ratification leaves the state as it was but for interest due to its sender |
| `Undoing.CancelUndoesRequest` | libraries/chain/steem_evaluator.cpp:2363-2401 | A savings withdrawal that is cancelled leaves savings, counter and records as they were but for interest due |
| `Undoing.ReturnedIs` | libraries/chain/steem_evaluator.cpp:2392-2401 | Cancelling pays the savings of the account that asked and nobody else |
| `Undoing.CancelUndoesOrder` | libraries/chain/steem_evaluator.cpp:2072-2132 | An order cancelled unfilled leaves everything but the next order number as it was, and interest due to its seller |
| `Requests.RequestCounted` | libraries/chain/steem_evaluator.cpp:2363-2390 | Asking for a withdrawal keeps every counter equal to the number of pending requests of its account, at most 100 |
| `Requests.CancelCounted` | libraries/chain/steem_evaluator.cpp:2392-2401 | So does cancelling |
| `Requests.PaidCounted` | libraries/chain/database.cpp:2724-2742 | So does paying out |
| `Ledger.Ledger.ConvertRequest` | libraries/chain/steem_evaluator.cpp:2044-2070 | SBD moves into a conversion request with the SBD supply exact |
| `Ledger.Ledger.ProcessConversions` | libraries/chain/database.cpp:2874-2912 | All due requests are converted, each owner receives exactly the worth of theirs, and the supplies corrected once at the end leave no gap |
| `Ledger.Ledger.BestMatch` | libraries/chain/database.cpp:4197-4217 | The head of the scanned range is the best-priced, oldest crossing order, and there is none only if nothing crosses below price::max |
| `Ledger.Ledger.ApplyOrder` | libraries/chain/database.cpp:4197-4217 | The matching loop is a sequence of matches, each with the best order then left, and ends with an uncrossed, conserved book in which no other order has grown |
| `Trades.TakerGetsPrice` | libraries/chain/database.cpp:4197-4275 | Over all its matches together a new order gets at least its own price for what it pays, rounded down only once |
| `Trades.MakerGetsPrice` | libraries/chain/database.cpp:4219-4275 | Every resting order that is met gets at least its own price, rounded down |
| `Trades.RestingPriceDecides` | libraries/chain/database.cpp:4197-4275 | In the whole matching loop every trade is at the price of the resting order it meets, rounded down once |
| `Trades.BestFirst` | libraries/chain/database.cpp:4197-4217 | Of two resting orders that are met, the better-priced or older one is met first |
| `Ledger.Ledger.CreateOrder` | libraries/chain/steem_evaluator.cpp:2072-2128 | Order creation keeps the book uncrossed and both supplies exact, for any supplies a 64-bit amount can hold; a fill-or-kill order that is not filled changes nothing |
| `Ledger.Ledger.CancelOrder` | libraries/chain/steem_evaluator.cpp:2130-2132 | What is still for sale goes back to its owner |
| `Ledger.Ledger.ExpireOrders` | libraries/chain/database.cpp:4364-4372 | Exactly the expired orders leave the book, and each seller gets back exactly what theirs still had for sale, besides interest already due |
| `Ledger.Ledger.PowerDown` | libraries/chain/database.cpp:2206-2343 | A routed withdrawal takes what is due, pays every target its part in shares, or in tokens at the price the routes before it leave, total shares fall by exactly what was cashed out, and no remaining share is worth less |
| `Ledger.Ledger.ProcessFunds` | libraries/chain/database.cpp:2634-2722 | Inflation enters the two funds together with the same amount of supply, and the producer gets exactly the shares that the rest buys; no share is worth less than before |
| `Inflation.InflationNarrows` | libraries/chain/database.cpp:2641-2656 | The yearly rate is 15.15% less 0.01% for every 250000 blocks, and 0.95% from block 355000000 on |
| `Inflation.InflationNeverRises` | libraries/chain/database.cpp:2641-2656 | A later block never has a higher rate |
| `Inflation.InflationDivided` | libraries/chain/database.cpp:2658-2667 | The tokens of a block are the yearly rate of the virtual supply over the blocks of a year, 66.67% and 26.67% of them go to content and to the vesting fund, each rounded down |
| `Inflation.PaidByWeight` | libraries/chain/database.cpp:2666-2680 | The producers of any blocks are paid in proportion to their weights, less at most one rounding each |
| `Inflation.RoundPaysTheRest` | libraries/chain/database.cpp:2666-2680 | A round of 21 producers whose weights add up to the normalization factor gets what 21 blocks leave after content and vesting, less at most one rounding each |
| `Ledger.Ledger.ClearNull` | libraries/chain/database.cpp:2115-2168 | Everything the null account holds, and nothing else, is burnt together with the supply that recorded it; only interest due on dollars it held stays, as new supply |
| `LedgerPayments.AdjustedPays` | libraries/chain/database.cpp:4388-4436 | A balance change reaches that account only; any SBD beyond it is interest that was due, is new supply and is due no longer |
| `LedgerPayments.WithdrawalsSettled` | libraries/chain/database.cpp:2724-2742 | Once no due request is left, everyone has received exactly what theirs were for |
| `LedgerPayments.ConversionsSettled` | libraries/chain/database.cpp:2874-2912 | Once no due request is left, everyone has received exactly the worth of theirs |
| `LedgerPayments.EscrowsSettled` | libraries/chain/database.cpp:3007-3024 | Once no lapsed escrow is left, every sender has been refunded exactly theirs |
| `LedgerPayments.OrdersSettled` | libraries/chain/database.cpp:4347-4372 | Once no expired order is left, every seller has back exactly what was for sale |
| `LedgerPayments.ReleasePays` | libraries/chain/steem_evaluator.cpp:1057-1124 | A release changes only the receiver, by exactly the released amounts |
| `LedgerPayments.FeePays` | libraries/chain/steem_evaluator.cpp:1018-1024 | Ratifying an escrow pays its fee to the agent and nobody else |
| `LedgerPayments.FillPays` | libraries/chain/database.cpp:4315-4345 | Filling an order changes only its seller, by what it receives and any refunded dust |
| `LedgerPayments.OneMoreCashed` | libraries/chain/database.cpp:2272-2299 | Cash routes are paid one after another, each at the price the routes before it leave |
| `LedgerRuns.Run` | libraries/chain/database.cpp:2590-2623 | After any sequence of account creations, transfers, vestings, savings, escrows, conversions, orders, withdrawals, inflation, burns, votes, comments and cashouts the three supplies equal the holdings, the book is uncrossed, entirely so while no supply exceeds the maximum, request counters and reward sums are exact, and between any two states of the run the price of a vesting share has not fallen unless all shares were gone in between |
| `LedgerRuns.RunFromGenesis` | libraries/chain/database.cpp:3235-3395 | The same for every run from the genesis state |
| `ApproxSqrt.FindMsbIsMsb` | libraries/chain/curation_info.cpp:127-134 | Looking at the two 64-bit words separately finds the top bit of the 128-bit value |
| `ApproxSqrt.ApproxBounds` | libraries/chain/curation_info.cpp:136-155 | For x > 0 the result r satisfies 8r² ≤ 9x and x < (r+1)² |
| `ApproxSqrt.ApproxMonotone` | libraries/chain/curation_info.cpp:136-155 | The shift-and-mask square root never falls, on its whole domain |
| `ApproxSqrt.ApproxFits` | libraries/chain/curation_info.cpp:136-155 | The root of a 128-bit value fits in 64 bits |
| `Curation.CurveRises` | libraries/chain/curation_info.cpp:97-125 | Both reward curves never fall, so the 64-bit differences between neighbouring votes do not wrap |
| `Curation.CurveFits` | libraries/chain/curation_info.cpp:97-125 | Both curves stay below 2^64 for any 63-bit shares |
| `Curation.BoundedCurve` | libraries/chain/curation_info.cpp:97-125 | The bounded curve is the share of the support in the support plus twice the content constant, rounded down; it passes half its height exactly above that and never reaches the whole |
| `Curation.KeptIsProRata` | libraries/chain/curation_info.cpp:31-61 | A vote inside the window keeps its rise in proportion to its time in it, rounded down, and all of it without a window |
| `Curation.ArchivingKeeps` | libraries/chain/database.cpp:2575-2587 | Marking the votes of an archived post does not alter which of them count as changed |
| `Curation.WeightsTelescope` | libraries/chain/curation_info.cpp:17-61 | Auction, early and late weights together with what changed votes forfeited are exactly the curve value of the accumulated shares |
| `Curation.TotalFits` | libraries/chain/curation_info.cpp:17-61 | The total weight is at most the curve value of the final shares and fits in 64 bits |
| `Curation.NothingLost` | libraries/chain/curation_info.cpp:17-61 | When nobody changed a vote the total weight is exactly the curve value |
| `Curation.Weigher.Weigh` | libraries/chain/curation_info.cpp:31-61 | One vote in wrapping 64-bit arithmetic gives the exact weight and keeps exact running totals; it fails only when the checked share sum overflows |
| `Curation.ListCarries` | libraries/chain/curation_info.cpp:171-184 | The listed weights are exactly the early and the late weight |
| `Curation.SortOrders` | libraries/chain/curation_info.cpp:186-191 | The vote list is a permutation, heaviest first |
| `Curation.InfoConsistent` | libraries/chain/curation_info.cpp:158-192 | Total = auction + early + late, and the sorted list carries exactly the early and late part, for any votes |
| `Curation.Collect` | libraries/chain/curation_info.cpp:158-192 | The single pass computes exactly that, so the after-window weight found by two 64-bit subtractions is exact |
| `CurationPayout.ClaimsWithin` | libraries/chain/database.cpp:2412-2435 | All rounded claims together, with the redistributed auction share, never exceed the curation reward |
| `CurationPayout.ClaimIsShare` | libraries/chain/database.cpp:2410-2446 | A claim is the reward in proportion to the weight of the vote, rounded down, and for late votes the auction reward in proportion to the late weight besides |
| `CurationPayout.PaymentsWithin` | libraries/chain/database.cpp:2420-2446 | What is paid going down the list leaves at least the claim of the vote that was set aside |
| `CurationPayout.DivideConserves` | libraries/chain/database.cpp:2410-2474 | Curators, reward fund and author together get exactly the curation reward, for every vote list, destination and setting |
| `CurationPayout.ClaimFollowsWeight` | libraries/chain/database.cpp:2420-2435 | On the same side of the auction window a heavier vote never claims less |
| `CashoutSteps.Reward` | libraries/chain/database.cpp:2938-2970 | The claim never exceeds the reward fund, is nothing below the minimum payout and at most the accepted maximum |
| `CashoutSteps.RewardIsShare` | libraries/chain/database.cpp:2938-2970 | It is the share of the fund in proportion to the weighted reward shares, rounded down twice, or the accepted maximum if that is less, and nothing if the share is below the minimum |
| `CashoutSteps.PartsArePercentages` | libraries/chain/database.cpp:2474-2535 | Curation, beneficiaries and dollars are the percentages set on the post, each rounded down |
| `CashoutSteps.CutsAtMost` | libraries/chain/database.cpp:2345-2384 | Delegators with rates of at most 100% together never get more than the claim |
| `Cashout.PayDelegators` | libraries/chain/database.cpp:2345-2384 | The loop grants every delegator exactly its rounded percentage of the claim, at the price the grants before it leave, skipping bad rates and zero parts; nobody else changes |
| `Cashout.PayCurators` | libraries/chain/database.cpp:2410-2474 | The loop grants every paid vote its claim, the voter's part being what its delegators leave, and sends the rest to fund or author as divided above; nobody else changes |
| `CashoutSteps.RewardPaidConserves` | libraries/chain/database.cpp:2474-2535 | Whatever the votes, delegators, beneficiaries and settings, the payments use up exactly the reward taken from the fund, and only the returned part goes back to it |
| `Cashout.PayPost` | libraries/chain/database.cpp:2474-2535 | A payout leaves all supplies exact and every account with exactly what the post grants it: delegators, curators and beneficiaries their shares, the author the rest in shares, tokens and dollars, everyone else nothing |
| `Cashout.PayCurator` | libraries/chain/database.cpp:2385-2408 | Of one claim every delegator gets its cut and the voter the rest |
| `CashoutGrants.CutIsPercentage` | libraries/chain/database.cpp:2345-2384 | A cut is the recorded percentage of the claim, rounded down |
| `CashoutGrants.CuratorTokens` | libraries/chain/database.cpp:2385-2408 | The tokens granted for a claim are exactly the claim, and the voter is granted exactly what the cuts leave |
| `CashoutGrants.CuratorGetsPaid` | libraries/chain/database.cpp:2385-2408 | Every account has exactly the shares that the grants for one claim bring it |
| `CashoutGrants.CuratorsGetPaid` | libraries/chain/database.cpp:2410-2474 | The same for all claims of a post |
| `CashoutGrants.SbdCreatedPays` | libraries/chain/database.cpp:1385-1417 | The dollar part of a reward reaches its account as dollars at the feed price for the printed part and as tokens for the rest, and nobody else changes |
| `CashoutGrants.PostTokens` | libraries/chain/database.cpp:2474-2535 | What a post grants, pays out liquid and returns to the fund is together exactly its reward |
| `CashoutGrants.RewardPaysPost` | libraries/chain/database.cpp:2474-2535 | A paid post leaves every account with exactly what it is granted and the fund less exactly the reward and plus what nobody may claim |
| `CashoutGrants.OthersUnchanged` | libraries/chain/database.cpp:2474-2535 | An account that is neither author, voter, delegator nor beneficiary of the post is unchanged |
| `Grants.GrantsKeepPrice` | libraries/chain/database.cpp:1423-1456 | Any number of grants raise the fund by exactly their tokens and dilute nobody |
| `TreeSums.DebtMovesUp` | libraries/chain/database.cpp:2174-2188 | Correcting one node moves the outstanding difference to its parent, or to the total at a root |
| `TreeSums.CacheIsSubtreeSum` | libraries/chain/database.cpp:2174-2188 | The local rule at every node means that each cache is the sum over the whole subtree |
| `TreeSums.TopIsTotal` | libraries/chain/database.cpp:2174-2188 | ... and that the top is the sum over all nodes |
| `CommentForest.SharesAreSubtreeSums` | libraries/chain/database.cpp:2174-2188 | children_rshares2 is the sum of the values in the subtree, and total_reward_shares2 the sum over all comments |
| `CommentForest.ChildrenAreSubtreeSize` | libraries/chain/steem_evaluator.cpp:907-917 | children is the number of comments below, at every depth |
| `CommentForest.ParentCovers` | libraries/chain/database.cpp:2174-2188 | None of the 128-bit subtractions on the way up can underflow |
| `CommentForest.ValueWithinTotal` | libraries/chain/database.cpp:2938-2970 | A comment's value is at most the total, so a claim never divides by zero |
| `Discussions.Forum.AdjustShares` | libraries/chain/database.cpp:2174-2188 | The recursion ends with all caches and the total in agreement and changes nothing else |
| `Discussions.Forum.Vote` | libraries/chain/steem_evaluator.cpp:1564-1670 | A vote changes net_rshares of one comment and keeps every cache exact |
| `Discussions.Forum.Revote` | libraries/chain/steem_evaluator.cpp:1695-1777 | So does a changed vote |
| `Discussions.Forum.CloseRewards` | libraries/chain/database.cpp:2537-2562 | A cashed-out comment leaves the sums before its positive net_rshares is cleared, with every cache exact |
| `Discussions.Forum.Create` | libraries/chain/steem_evaluator.cpp:800-917 | A reply is counted at every ancestor; accepted exactly within the depth limits |
| `Discussions.Forum.Delete` | libraries/chain/steem_evaluator.cpp:435-484 | Only comments without replies go, a positive one is silently kept outside block production, and every ancestor count follows without underflow |
| `Payouts.CashOut` | libraries/chain/database.cpp:2474-2588 | One payout pays the post its part of the fund, to exactly the accounts it grants, or nothing for a comment without positive value; ledger and reward sums stay exact and no share is worth less |
| `Payouts.ProcessCashouts` | libraries/chain/database.cpp:2590-2623 | The loop ends with exactly the due comments paid out, one after another, each once, from what those before it left of the fund and in proportion to what they left of the reward shares |
| `ForkDatabase.HighestCommonAncestor` | libraries/chain/fork_database.cpp:168-210 | Two branches that end in blocks with the same parent, and nowhere earlier, have that parent as highest common ancestor, unless they end in the same block, which happens exactly when one start is an ancestor of the other |
| `ForkDatabase.ForkDb.Pop` | libraries/chain/fork_database.cpp:16-21 | The head moves to its parent exactly when the parent is still indexed |
| `ForkDatabase.ForkDb.Push` | libraries/chain/fork_database.cpp:47-71 | Exactly the recent, linkable blocks are taken; only a higher one becomes head |
| `ForkDatabase.ForkDb.SetMaxSize` | libraries/chain/fork_database.cpp:92-124 | Exactly the blocks too far below the head are dropped |
| `ForkDatabase.ForkDb.FetchBranchFrom` | libraries/chain/fork_database.cpp:168-210 | Terminates and succeeds exactly when the two blocks have a linked common ancestor below both; the result is two parent chains that fork as above |
| `ForkDatabase.ForkDb.WalkMainBranch` | libraries/chain/fork_database.cpp:212-222 | Gives the head's ancestor at that number if it is still linked, also from a head that was removed from the index |
| `ForkDatabase.ForkDb.FetchOnMainBranch` | libraries/chain/fork_database.cpp:224-233 | Gives the main branch's block if and only if it is not the case that a single off-branch block has that number; a removed head is given only when two others have its number |
| `ForkDatabase.LoneBlockAboveHead` | libraries/chain/fork_database.cpp:224-233 | A concrete index in which that exception occurs |
| `ForkSwitch.HistoryReplays` | libraries/chain/database.cpp:982-1060 | The state is always what replaying the applied blocks on any undo state gives |
| `ForkSwitch.HistoryUnique` | libraries/chain/database.cpp:1030-1042 | The same blocks on the same state give the same states and undo history |
| `ForkSwitch.Restored` | libraries/chain/database.cpp:1030-1042 | Re-applying the old branch cannot fail and gives back the very same history |
| `ForkSwitch.Node.PopBlock` | libraries/chain/database.cpp:1266-1282 | Undoes the last block and moves the fork head to its parent, or does nothing |
| `ForkSwitch.Node.PopOldBranch` | libraries/chain/database.cpp:996-1000 | Pops exactly the old branch whenever the undo history is long enough; the fork links always suffice |
| `ForkSwitch.Node.SwitchBack` | libraries/chain/database.cpp:1017-1043 | After a bad block: old state, old undo history, bad suffix gone from the index, unless the fork links end too early |
| `ForkSwitch.Node.SwitchTo` | libraries/chain/database.cpp:992-1046 | All or nothing: the replay of the new branch on the fork point, or the original state, unless undo history or fork links known before the switch are too short |
| `ForkSwitch.DeepAsBefore` | libraries/chain/database.cpp:1017-1043 | Removing the failed blocks cuts none of the fork links that going back needs |
| `ForkSwitch.Node.PushBlock` | libraries/chain/database.cpp:982-1060 | Every outcome of pushing a block, with the exact chain state and fork index it leaves |
| `Authorities.DerivableMonotone` | libraries/protocol/sign_state.cpp:28-59 | More keys, approvals, depth or accounts with authority never make an authority fail |
| `Authorities.Cut` | libraries/protocol/sign_state.cpp:28-59 | Approvals that are themselves derivable can be left out of a derivation |
| `Authorities.GrownTwice` | libraries/protocol/sign_state.cpp:39-50 | What is remembered on the way, in whatever order, is derivable from what was known before by accounts within reach |
| `Authorities.SignState.SignedBy` | libraries/protocol/sign_state.cpp:6-17 | A key counts exactly when provided or available, and is marked when it does |
| `Authorities.SignState.CheckAuthority` | libraries/protocol/sign_state.cpp:28-59 | Whatever is derivable within the levels left is accepted; whatever is accepted, and whatever is remembered on the way, is derivable from the marked keys and the approvals before by accounts within the levels left alone, despite the memo, early returns and cyclic accounts |
| `Authorities.SignState.CheckAccountName` | libraries/protocol/sign_state.cpp:19-26 | The same for an account name |
| `Authorities.SignState.RemoveUnused` | libraries/protocol/sign_state.cpp:61-79 | Everything accepted is still derivable after unused signatures are removed |
| `Authorities.MemoAcceptsMore` | libraries/protocol/sign_state.cpp:39-50 | A concrete chain of accounts whose start is refused, then a later account accepted, and then the start accepted, so the two bounds cannot meet |
| `BlockLogFormat.WordRoundTrip` | libraries/chain/block_log.cpp:45-69 | Every 64-bit position is read back as written |
| `BlockLog.ReadsBack` | libraries/chain/block_log.cpp:81-103 | Every block of the log is read back from its position, followed by the position of the next |
| `BlockLog.StaleIsNoticed` | libraries/chain/block_log.cpp:186-192 | An index that stops early always differs from the log in its last word |
| `BlockLog.BlockLog.Append` | libraries/chain/block_log.cpp:210-234 | Appends exactly the block with the next number to both files |
| `BlockLog.BlockLog.GetBlockPos` | libraries/chain/block_log.cpp:71-79 | The index entry of a block is its position, nothing for other numbers |
| `BlockLog.BlockLog.ReadByNum` | libraries/chain/block_log.cpp:285-299 | Number n gives the n-th appended block, every other number nothing, and corruption is never reported |
| `BlockLog.BlockLog.ConstructIndex` | libraries/chain/block_log.cpp:130-147 | The bytes of the log alone give back the very index that appending maintained, without a write beyond the file |
| `BlockLog.BlockLog.Open` | libraries/chain/block_log.cpp:149-208 | After opening, log and index agree if and only if the index was not wrong with the right last entry; missing and stale-prefix indices are always repaired |
| `LogExamples.WrongWithRightEnd` | libraries/chain/block_log.cpp:186-192 | A concrete index with a wrong first and the right last entry |
| `LogExamples.WrongIndexStays` | libraries/chain/block_log.cpp:149-208 | Opening the log with that index succeeds and leaves the wrong index in place |
| `LogExamples.PackingOk` | libraries/chain/block_log.cpp:81-103 | A concrete packing of blocks meets everything asked of one |
| `Rounds.ChoiceIsFirst` | libraries/chain/database.cpp:1543-1619 | Reading an index until the places are taken chooses different eligible witnesses, and whoever eligible is not chosen comes later and only when every place is taken |
| `Rounds.TopIsBest` | libraries/chain/database.cpp:1538-1554 | Nobody with a key and more votes than an elected witness is left out, and nobody with a key at all unless 19 are elected |
| `Rounds.RoundSize` | libraries/chain/database.cpp:1534-1619 | The elected, the miner and those next in virtual time are different witnesses with keys, 21 of them or else everyone who has a key |
| `Rounds.NextInTime` | libraries/chain/database.cpp:1590-1613 | Whoever is picked by virtual time is scheduled no later than anyone with a key who is left out |
| `Rounds.RaceOnTime` | libraries/chain/database.cpp:1590-1640 | After the round nobody is scheduled behind the new virtual time, which is not before the old one unless it overflowed and started over |
| `Rounds.WrapOnce` | libraries/chain/database.cpp:2069-2071 | The position computed in wrapping 128-bit steps is the exact one wrapped once |
| `Rounds.RemainingTakes` | libraries/chain/database.cpp:2066-2097 | The time to the end of the lap is the distance left over votes plus one, rounded down |
| `Rounds.FasterIsSooner` | libraries/chain/database.cpp:2066-2097 | Further ahead or with more votes nobody arrives later |
| `Rounds.NewLapTakes` | libraries/chain/database.cpp:1620-1640 | A new lap takes its whole length over votes plus one, rounded down |
| `Rounds.TouchingDelays` | libraries/chain/include/golos/chain/witness_objects.hpp:86-99 | Bringing a witness up to date without changing its votes makes it arrive as if its way were longer by the elapsed time, never earlier, because the lap is run at votes plus one and progress is counted at votes |
| `Scheduler.Scheduler.UpdateWitness` | libraries/chain/chain_properties_evaluators.cpp:15-41 | A changed key leaves the race alone; a new witness joins at the far end of virtual time |
| `Scheduler.Scheduler.AdjustVote` | libraries/chain/database.cpp:2066-2097 | The position has moved on at the old speed; the arrival is the rest of the lap over the new votes plus one, rounded down, from now, or the far end exactly when that is beyond 128 bits; nothing else changes |
| `Scheduler.Scheduler.SelectVoted` | libraries/chain/database.cpp:1538-1554 | Exactly the first 19 witnesses with keys by votes are elected and marked |
| `Scheduler.Scheduler.SelectMiners` | libraries/chain/database.cpp:1558-1586 | Exactly the first queued miner who has a key and is not elected is chosen, and exactly those looked at leave the queue |
| `Scheduler.Scheduler.SelectTimeshare` | libraries/chain/database.cpp:1590-1613 | Exactly the next ones in virtual time fill the round, and time moves to the last one passed |
| `Scheduler.Scheduler.StartLaps` | libraries/chain/database.cpp:1620-1636 | Everybody passed starts a lap at the new time; an overflow is noticed if and only if one of them would wrap |
| `Scheduler.Scheduler.ResetTime` | libraries/chain/database.cpp:4618-4633 | Virtual time starts over for everyone |
| `Scheduler.Scheduler.Shuffle` | libraries/chain/database.cpp:1738-1754 | In-place exchange with a position chosen by the key, as a function of the round and the keys |
| `Scheduler.ShuffleKeeps` | libraries/chain/database.cpp:1738-1754 | Any keys give a permutation of the round |
| `Scheduler.EveryOrderPossible` | libraries/chain/database.cpp:1738-1754 | Every order of the round comes out for some keys |
| `Scheduler.Scheduler.UpdateSchedule` | libraries/chain/database.cpp:1534-1763 | The round is refused exactly when fewer than 21 witnesses have a key and some witness has none; otherwise it is the planned round, shuffled, nobody is behind the clock, and the clock goes back only through the reset |
| `Irreversibility.NthIsQuorum` | libraries/chain/database.cpp:4132-4147 | The nth element is the highest number confirmed by all but the allowed laggards, in both directions |
| `Irreversibility.OffsetIsThreshold` | libraries/chain/database.cpp:4132-4147 | All but the allowed laggards are exactly enough to be three quarters of the scheduled witnesses |
| `Irreversibility.QuorumsOverlap` | libraries/chain/database.cpp:4132-4147 | Two quorums of one schedule, whatever branches they confirm, have at least half of the witnesses in common |
| `Irreversibility.Irreversible.UpdateLast` | libraries/chain/database.cpp:4107-4167 | Never decreases; an advance in the voting era is to a number that three quarters of the scheduled witnesses confirm, the highest one up to the fixed limit unless stopped at the transit block |
| `Irreversibility.Irreversible.ApplyBlock` | libraries/chain/database.cpp:4094-4105 | The same for a whole applied block |
| `Irreversibility.Irreversible.ApplyBlocks` | libraries/chain/database.cpp:4107-4167 | Along any run, under any schedules and transit votes, the number never goes back, advances only to what a quorum of the schedule then in force confirms, and never jumps over a pending transit block, which is fixed at most once |
| `Irreversibility.Irreversible.EnableTransit` | libraries/chain/database.cpp:1488-1520 | The transit block is fixed once, at the head, when at least 16 of the scheduled witnesses are elected ones that vote for it |
| `Irreversibility.Irreversible.FollowLog` | libraries/chain/database.cpp:4171-4192 | A log that is not ahead ends exactly at the irreversible block, filled with the main branch's blocks wherever it has them, unless it lacks one or its head was removed |
| `LogExamples.FirstIsLogged` | libraries/chain/database.cpp:4107-4192 | A concrete chain of 22 blocks whose first block becomes irreversible and is logged |
| `DelegationBooks.EffectiveTotal` | libraries/chain/include/golos/chain/account_object.hpp:128-131 | All effective shares together are all vesting shares less those on their way back: delegating never creates voting stake |
| `Delegating.Lending.Delegate` | libraries/chain/steem_evaluator.cpp:2453-2543 | Create, increase, decrease and removal, plain or with interest, keep every counter equal to the records behind it; the record has the shares asked for and keeps its first interest, and nobody lends more than they own or than their voting power allows; exactly when each is allowed |
| `Delegating.Lending.Reject` | libraries/chain/steem_evaluator.cpp:2593-2617 | A rejected delegation returns to its lender later and keeps the counters exact |
| `Delegating.Lending.ClearExpired` | libraries/chain/database.cpp:4374-4386 | Exactly the overdue returns leave the lenders' counters |
| `Delegating.Lending.CreateAccount` | libraries/chain/steem_evaluator.cpp:271-338 | An account created with a delegation starts with matching counters; exactly when fee and delegation suffice |
| `Delegating.EitherSuffices` | libraries/chain/steem_evaluator.cpp:276-296 | A full creation fee suffices without a delegation, and a full delegation with the minimum fee |
| `Delegating.Lending.StartWithdrawal` | libraries/chain/steem_evaluator.cpp:1156-1217 | Exactly what is not lent may be withdrawn, so lent shares stay owned |
| `Delegating.Lending.ChangeVests` | libraries/chain/database.cpp:2206-2343 | Paying out a running withdrawal never touches shares that are lent |
| `Delegating.Lending.RewardLender` | libraries/chain/database.cpp:2361-2373 | A reward paid into a delegation raises shares, both counters and the record together, and only the shares when the delegation is gone |
| `VoteRates.CollectRates` | libraries/chain/steem_evaluator.cpp:1522-1543 | The rates a vote records for the voter's lenders add up to at most 80%, so a payout never shares more than there is |
| `VoteRates.RateIsShare` | libraries/chain/steem_evaluator.cpp:1528-1540 | A lender's rate is its part of the voter's effective shares times the interest agreed on, rounded down |
| `VoteRates.AllReceived` | libraries/chain/steem_evaluator.cpp:1526-1542 | The delegations the loop goes through are all that the voter has received |

## Left out

- Hardfork transitions, retallies and the rules of earlier hardforks: one regime is modelled.
- Wallet, API, network, plugins, snapshots, shared-memory management and notifications: no consensus state.
- Signatures, hashing, proof of work and the inside of serialisation: blocks have ids, packing and unpacking are assumed to be inverses.
- `virtual_supply` is not tied to the other supplies, because interest adds a separately rounded amount.
- The `actual_rewards` and similar statistics of payouts: the claims are about tokens moved.
- Median chain properties, feeds, voting power, bandwidth and account recovery: they enter as parameters or not at all.
- Checked 64-bit overflow of token amounts, which aborts the operation in the source, is modelled only for the curation share sum.
- The order in which equally due records (savings, conversions, escrows, expirations, cashouts) are processed is left open; the claims hold for every order.
- Curation.Collect: the linear curve, which reads the current and possibly negative vote, is not modelled.
- Cashout.PayPost: the product of a claim and a rate is not limited to 64 bits; the rates of a vote are required to add up to at most 100%, which `VoteRates.CollectRates` proves of every vote.
- Cashout.PayDelegators: the shares added to the delegation are in `Delegating.Lending.RewardLender`.
- WitnessVoting.Voting.PowerDown: a withdrawal whose routed credits do not fit under the total meanwhile is undone, and `WitnessVoting.PerformBlock` undoes the rest of its block, as the source gives up the whole block.
- WitnessVoting.Voting.SetProxy: the source checks the chain after the first walk and relies on the undo session; the model checks first.
- Ledger.Ledger.CreateOrder: supplies are required to fit in a signed 64-bit amount, as the source's amounts do.
- ForkDatabase.ForkDb.FetchBranchFrom: a parent counts as linked while it is in the index; a removed block kept alive only by another pointer is not.
- ForkSwitch.Node.PushBlock: the effect of applying a block on the fork database (dropping old blocks) and transactions of popped blocks are not modelled; exhausted undo history is an outcome of its own.
- Scheduler.Scheduler.UpdateSchedule: majority version, hardfork votes, pay weights and median properties computed in the same function.
- Irreversibility.Irreversible.FollowLog: the commit of undo history below the irreversible block.
- BlockLog.BlockLog.Open: only logs that are well formed themselves.
- Delegating.Lending.Delegate: a reduction of a delegation that does not exist, which a minimum update of zero would let through, reads through a null pointer in the source; the model refuses it.
- Delegating.Lending.StartWithdrawal: the checks of the creation fee and of an unchanged rate enter as one parameter.
- Discussions.Forum.Vote: voting power, bandwidth and the refusals that do not touch the reward sums, and votes on archived comments.
- Discussions.Forum.Revote: the same, and the limit on the number of changes.
- Discussions.Forum.Create: edits of existing comments and bandwidth limits.
