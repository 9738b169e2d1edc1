# Golos chain core: a verified model

This project models the consensus core of the Golos blockchain node as it behaves with all hardforks
applied, and proves what that core keeps true. Each part of the core is one module. Operations that update
objects are classes with `modifies` clauses, proved against specification functions; what the operations
promise together is proved about those functions. An evaluator that throws is a method that returns
`false` (or an outcome) with the state as it was.

| module | what it models |
|---|---|
| `ProxyVotes` | witness-vote proxying: counters of proxied stake by distance over a changing proxy graph |
| `SignState`, `SignExact` | the recursive authority check with its cache of approved accounts; when the cache makes no difference |
| `ForkDatabase`, `ForkSwitch` | the tree of unconfirmed blocks; pushing a block, switching forks, recovering from a bad branch |
| `Prices`, `Market` | price comparison; limit orders, matching, fees, market balances and pair depth |
| `WitnessSchedule` | the virtual-time witness scheduler in 128-bit arithmetic, and the shuffle |
| `Curation`, `Cashout`, `RewardShares` | vote weights and the approximate square root; paying a comment out; the discussion tree and its reward totals |
| `Vesting` | share price, deposits, power-down with routes |
| `Subscriptions` | paid subscriptions with prepaid tokens |
| `TransactionDedup` | the index of recent transactions |
| `BlockLog` | the block log and its index as bytes |
| `Common`, `Arith`, `Sums` | shared types, division and multiplication facts, and finite sums over sets |

Block contents, the effect of applying a block, the serializer and a few environment questions (whether a
voter has enough shares to curate, the order of entries with equal keys in an index, the random draws of the
shuffle, token-to-dollar conversion) are parameters, so every theorem holds for all of them.

## Findings

Some statements one would expect of the code are false of it. The model keeps the code as it is, shows a case
or a run in which the statement fails, and proves exactly when it holds.

- A new limit order looks only at resting orders priced up to 10^15 : 1, while an asset can have a larger
  supply. A resting order above that is skipped and the book can stay crossed
  (`Market.OverCapOrderIsSkipped`). It is crossed only by such orders (`Market.NeverCrossed`). Placing an order
  leaves it crossing a resting one if and only if its trades do not fill it and it crosses an order above the
  cap (`Market.CrossedExactlyBySkipping`); both can be seen from the book and the order.
- The authority check grants more than its depth limit says when an account was approved earlier at another
  depth (`SignState.AnswersDependOnOrder`); it never grants what no depth would grant
  (`SignState.EveryAnswerIsSandwiched`). The answers to a request are the definition at the limit, whatever was
  asked before, if and only if no greater depth would grant it (`SignExact.AnswersAreExactIff`). A caller can
  see that from the authorities: it is enough that every chain of accounts ends within the limit
  (`SignExact.ExactOnShortChains`).
- Recovering from a bad branch pops blocks through the fork database as well. When the fork database does not
  hold enough ancestors of the old head, recovery stops half way: `ForkSwitch.RecoveryGetsStuck` is a run, and
  `ForkSwitch.ChainDatabase.SwitchFork` says exactly when, and at which block it stands then.
- An applied block can leave the fork database: it is pushed again while the fork database's head stands
  directly on the current head, as a block that failed there does (`ForkSwitch.AppliedBlockIsDropped` is a run).
  The fork database holds all applied blocks after a push if and only if it was not such a push, which can be
  checked before the call (`ForkSwitch.ChainDatabase.PushBlock`).
- When the auction window's reward goes to curators, the loop over the votes stops at a vote whose claim is
  nothing although a later vote has one (`Cashout.SkippedVote` is a run). It skips somebody exactly under the
  condition of `Cashout.SkippedExactlyBehindDust`.
- Prepaid main tokens become tip tokens when an author changes the kind of a subscription and keeps the symbol
  (`Subscriptions.PrepaidChangesKind`), and only then (`Subscriptions.ShiftCancels`).
- A subscriber whose rescheduled time has passed as well does not always get its next turn in the same block
  (`Subscriptions.OverdueWaits` is a run). Somebody is still due at the end if and only if one of its turns left
  it behind the iterator at a time that has come as well (`Subscriptions.StillDueExactlyWhenLeft`). Whoever is
  due when a block starts has a turn in it (`Subscriptions.EveryoneDueHasATurn`), and nobody is left due if
  nobody was more than one payment behind (`Subscriptions.NobodyLeftDue`).
- A power-down route to account number 0 is stored but never followed (`Vesting.RouteToFirstAccount` is a run).
  Every route is followed if and only if none leads to that account (`Vesting.FollowedAll`).
- When the log file was extended for a block and its position is not yet written, opening takes the first block
  for the head, however much of the block was copied (`BlockLog.BlankTailHidesBlocks`). It finds the true head if
  and only if the position was written or there is one block only (`BlockLog.TrueHeadIff`). After the block
  itself was written, opening repairs the index (`BlockLog.StoppedIndexIsRestored`).

## Model

| member | source | states |
|---|---|---|
| ProxyVotes.EveryReachableLedgerIsExact | libraries/chain/database.cpp:2639-2692 | After any sequence of account creations, stake changes, proxy changes and declined voting rights there is no proxy cycle, every counter d of an account is the stake exactly d+1 links below it, and the tally is the total stake |
| ProxyVotes.EmptyLedgerInv | libraries/chain/include/golos/chain/account_object.hpp:137-141 | The ledger without accounts, from which every run starts, satisfies the invariant |
| ProxyVotes.TallyIsTotalStake | libraries/chain/database.cpp:6339-6346 | The vote weights of self-voters plus the last counter of proxied accounts add up to all vesting shares: nothing is lost or counted twice, also on chains longer than the depth limit |
| ProxyVotes.StepKeepsInv | libraries/chain/steem_evaluator.cpp:1621-1675 | Every operation, accepted or refused, keeps acyclicity and exact counters |
| ProxyVotes.StepIsDecided | libraries/chain/steem_evaluator.cpp:1621-1675 | An accepted operation leads to exactly the ledger whose stakes, proxies and voting rights have changed as they should, at that account alone, and whose counters are exact |
| ProxyVotes.LedgerIsDecided | libraries/chain/database.cpp:2639-2692 | Stakes, proxies and voting rights leave only one ledger with exact counters |
| ProxyVotes.StepHasEffect | libraries/chain/steem_evaluator.cpp:1658-1672 | Who stakes how much, votes through whom and may vote after each operation: a changed proxy is the one named, and nobody else is touched |
| ProxyVotes.ChainStaysShort | libraries/chain/steem_evaluator.cpp:1640-1656 | After an accepted change the account's chain of proxies ends within the depth to which votes are forwarded |
| ProxyVotes.DetachKeepsInv | libraries/chain/steem_evaluator.cpp:1631-1637 | Withdrawing what an account carries from its old chain and clearing its proxy leaves all counters exact, and what it carries unchanged |
| ProxyVotes.AttachKeepsInv | libraries/chain/steem_evaluator.cpp:1639-1669 | Linking to an allowed proxy and adding what the account carries leaves all counters exact and closes no cycle |
| ProxyVotes.CutWeight | libraries/chain/database.cpp:2639-2670 | Cutting a link takes from each account above exactly the stake found below the cut, shifted by the distance |
| ProxyVotes.CarriedIsWeight | libraries/chain/steem_evaluator.cpp:1632-1636 | The list an account publishes up the chain is the stake at each distance below it |
| ProxyVotes.LinkAcyclic | libraries/chain/steem_evaluator.cpp:1640-1656 | A link to an account whose chain avoids the linker closes no cycle |
| ProxyVotes.StakeKeepsInv | libraries/chain/database.cpp:2672-2692 | A change of one account's stake published by the single-delta walk leaves all counters exact |
| ProxyVotes.DeclineKeepsInv | libraries/chain/database.cpp:4053-4080 | Declining voting rights removes what the account carries and keeps all counters exact |
| ProxyVotes.DeclinedForGood | libraries/chain/database.cpp:4053-4080 | An account that has declined its voting rights votes itself in every later ledger |
| ProxyVotes.WitnessesSeeTheChange | libraries/chain/database.cpp:2659-2669 | The votes forwarded to the witnesses of an account m links up are the change of its own vote weight |
| ProxyVotes.ForwardedVotes | libraries/chain/database.cpp:2659-2669 | The same for the end of any chain within the depth limit |
| ProxyVotes.AddVotes | libraries/chain/database.cpp:2651-2656 | The counters of an account on the way: each delta lands at its distance and none elsewhere |
| ProxyVotes.TotalDelta | libraries/chain/database.cpp:2660-2664 | The total forwarded is the sum of the deltas still in reach |
| ProxyVotes.VoteLedger.AdjustProxiedVotes | libraries/chain/database.cpp:2639-2670 | The recursive walk changes the ledger exactly as the closed form along the chain, and reports the self-voter reached and its share |
| ProxyVotes.VoteLedger.AdjustStakeVotes | libraries/chain/database.cpp:2672-2692 | The same for the single-delta walk |
| ProxyVotes.VoteLedger.CheckProxyChain | libraries/chain/steem_evaluator.cpp:1640-1656 | The loop check accepts a proxy exactly when its chain is short enough and does not come back to the account |
| ProxyVotes.VoteLedger.SetProxy | libraries/chain/steem_evaluator.cpp:1621-1675 | Sets the proxy as the step function says and to the account named, keeping every stake, voting right and other proxy; a refused change restores the ledger |
| ProxyVotes.VoteLedger.DeclineVotingRights | libraries/chain/database.cpp:4053-4080 | One declined-rights request as the step function says |
| SignState.EveryAnswerIsSandwiched | libraries/protocol/sign_state.cpp:19-59 | In any series of requests on any authority graph, cyclic ones included, each answer is yes when the pure definition holds within the depth limit, and yes only when it holds at some finite depth with signatures marked used |
| SignState.CheckSound | libraries/protocol/sign_state.cpp:28-59 | A positive answer is earned at some finite depth, whatever depths cached approvals came from, and the cache stays justified |
| SignState.CheckComplete | libraries/protocol/sign_state.cpp:28-59 | Whatever the definition grants within the remaining depth, the check grants |
| SignState.AnswerSandwich | libraries/protocol/sign_state.cpp:19-59 | Both halves for one request, by account or by authority |
| SignState.SatisfiedMonotone | libraries/protocol/sign_state.cpp:28-59 | More signatures, more grants and more depth never take an approval away |
| SignState.CheckUses | libraries/protocol/sign_state.cpp:28-59 | A check marks no signature used but those in the key list of its authority or of one it reaches within the remaining depth |
| SignState.UsesNoMoreKeys | libraries/protocol/sign_state.cpp:30-37 | When the first keys of an authority meet its threshold, no signature but theirs is marked |
| SignState.ServeUses | libraries/protocol/sign_state.cpp:6-17 | In a whole series of requests every signature newly used concerns one of them |
| SignState.IrrelevantIsUnused | libraries/protocol/sign_state.cpp:61-79 | So a signature that concerns none of the requests is among the unused ones that are removed |
| SignState.AnswersDependOnOrder | libraries/protocol/sign_state.cpp:42-55 | A concrete authority refused on its own and granted after another request has cached an account |
| SignExact.ShortChainsAreEnough | libraries/protocol/sign_state.cpp:42-55 | Where every chain of accounts ends within the limit, no depth grants more than the limit |
| SignExact.ExactOnShortChains | libraries/protocol/sign_state.cpp:28-59 | There every answer in every series is exactly the definition at the limit |
| SignExact.GrantedAfterPreparation | libraries/protocol/sign_state.cpp:42-55 | Whatever some depth would grant is granted after a series of requests that have its accounts approved from the bottom up |
| SignExact.AnswersAreExactIff | libraries/protocol/sign_state.cpp:28-59 | For a limit of at least one, the answers to a request are the definition at the limit in every series if and only if no depth grants more |
| SignState.SignChecker.IsSignedBy | libraries/protocol/sign_state.cpp:6-17 | Whether the key is provided or available, and exactly that key is marked used if so |
| SignState.SignChecker.CheckAuthority | libraries/protocol/sign_state.cpp:28-59 | The loop and its recursion compute the check function on the old cache and leave its new cache; no signature is marked that does not concern the authority |
| SignState.SignChecker.CheckAccount | libraries/protocol/sign_state.cpp:19-26 | The same for an account, which is answered from the cache if it is there |
| SignState.SignChecker.RemoveUnusedSignatures | libraries/protocol/sign_state.cpp:61-79 | Keeps exactly the signatures some check has used and reports whether any went |
| ForkDatabase.ForkDatabase.FetchBranchFrom | libraries/chain/fork_database.cpp:168-210 | Returns the two branches down to the height where their previous ids first agree, and fails exactly when there is no such height or an argument is missing |
| ForkDatabase.BranchIsContiguous | libraries/chain/fork_database.cpp:168-210 | A returned branch starts at its argument and each element is the parent of the one before it |
| ForkDatabase.BranchesDisjoint | libraries/chain/fork_database.cpp:168-210 | The two branches share no block exactly when neither argument is an ancestor of the other |
| ForkDatabase.SameAtMeeting | libraries/chain/fork_database.cpp:195-207 | They end in one block exactly when one argument is an ancestor of the other |
| ForkDatabase.CommonAncestorIsBelow | libraries/chain/fork_database.cpp:195-207 | Otherwise every common ancestor stands below both branches |
| ForkDatabase.SharedPreviousIsMostRecent | libraries/chain/fork_database.cpp:195-207 | And the shared previous id is the most recent common ancestor: it is an ancestor of both arguments, and no common ancestor stands above it |
| ForkDatabase.OffTheOtherBranch | libraries/chain/fork_database.cpp:168-210 | A block of one branch is not on the other argument's chain |
| ForkDatabase.ForkDatabase.PushBlock | libraries/chain/fork_database.cpp:33-71 | Accepts exactly blocks that link and are not too old; a higher block becomes the head |
| ForkDatabase.ForkDatabase.StartBlock | libraries/chain/fork_database.cpp:23-27 | The block becomes the head and is indexed unlinked |
| ForkDatabase.ForkDatabase.PopBlock | libraries/chain/fork_database.cpp:16-21 | The head steps back to its parent, or throws when there is none |
| ForkDatabase.ForkDatabase.SetMaxSize | libraries/chain/fork_database.cpp:92-124 | Drops exactly the blocks more than the size below the head |
| ForkDatabase.ForkDatabase.WalkMainBranchToNum | libraries/chain/fork_database.cpp:212-222 | The ancestor of the head with that number |
| ForkDatabase.ForkDatabase.FetchBlockOnMainBranchByNumber | libraries/chain/fork_database.cpp:224-233 | The same whenever the main branch reaches the number; otherwise the block that is alone at its number, and nothing exactly when there is no such block |
| ForkSwitch.ChainDatabase.PushBlock | libraries/chain/database.cpp:1351-1429 | Every outcome of pushing a block, decided by what is known before: refused exactly when the block does not link or is too old; stored, extending, failing, without a common block, or a switch with all that SwitchFork states; and exactly when the applied blocks stay in the fork database |
| ForkSwitch.ChainDatabase.SwitchFork | libraries/chain/database.cpp:1362-1409 | On success the history is the common part followed by applying the new branch in order; on failure it is exactly the old history and the failing suffix is gone from the fork database; and exactly when recovery gets stuck, and where |
| ForkSwitch.ChainDatabase.SwitchTo | libraries/chain/database.cpp:1360-1362 | Without a common block nothing changes, which is so exactly when the branches never meet; otherwise the switch along the two branches |
| ForkSwitch.ChainDatabase.TryBranch | libraries/chain/database.cpp:1364-1383 | Pops to the fork point and applies the new branch up to its first failing block |
| ForkSwitch.ChainDatabase.Recover | libraries/chain/database.cpp:1384-1406 | From a half applied bad branch back to the exact old history, or, under a stated condition, stuck after as many pops as the fork database allows |
| ForkSwitch.ChainDatabase.PopTo | libraries/chain/database.cpp:1364-1368 | Popping until the head is the fork point restores that prefix of the history, and succeeds exactly when both undo stack and fork database reach it; otherwise the history is cut by what the fork database holds below its head |
| ForkSwitch.ChainDatabase.PopBlock | libraries/chain/database.cpp:1631-1647 | One pop of chain state and fork database together |
| ForkSwitch.ChainDatabase.ApplyAll | libraries/chain/database.cpp:1370-1383 | Applying blocks in turn extends the history by the trace up to the first failure |
| ForkSwitch.ChainDatabase.ApplyBlock | libraries/chain/database.cpp:1375-1382 | A block that fails leaves no trace; one that succeeds pushes one undo session |
| ForkSwitch.ChainDatabase.Extend | libraries/chain/database.cpp:1416-1427 | A block on the head is applied, or dropped from the fork database with the state as it was |
| ForkSwitch.AppliedCannotExtend | libraries/chain/database.cpp:1416-1425 | A block already applied never applies again on the head, so pushing it there ends in its removal |
| ForkSwitch.AppliedBlockIsDropped | libraries/chain/database.cpp:1416-1425 | A run from an empty chain after which an applied block is no longer in the fork database |
| ForkSwitch.HistoryIsReplay | libraries/chain/database.cpp:1370-1379 | Replaying the applied blocks from the start of the history gives its end, state by state |
| ForkSwitch.HistoryTail | libraries/chain/database.cpp:1398-1405 | The branch fetched from the old head is exactly the tail of the applied blocks, so reapplying it restores them |
| ForkSwitch.FailedBranch | libraries/chain/database.cpp:1385-1389 | Removing the failing suffix of a bad branch takes no block of the old chain out of the fork database |
| ForkSwitch.RecoveryIsReady | libraries/chain/database.cpp:1384-1406 | After a failed branch everything recovery relies on is in place |
| ForkSwitch.RecoveryGetsStuck | libraries/chain/database.cpp:1384-1396 | A run from an empty chain that ends in recovery stuck on the first block of the bad branch |
| Prices.LessTransitive | libraries/protocol/asset.cpp:148-180 | Price comparison by cross products is a strict weak order |
| Prices.RangeIsCrossingBelowCap | libraries/chain/database.cpp:5479-5485 | The range of prices a new order looks at holds exactly the crossing prices up to the cap |
| Prices.CrossesSymmetric | libraries/chain/database.cpp:5484-5486 | Whether two opposite prices cross does not depend on which of them is the new one |
| Market.EveryTradeIsFair | libraries/chain/database.cpp:5501-5532 | Both amounts of a trade are at least one and within what is offered, one side is exhausted, each side gets at least its limit price rounded down, and one named side without rounding loss |
| Market.TradedAtRestingPrice | libraries/chain/database.cpp:5512-5532 | Trades happen at the resting order's price: one amount is all that side sells, the other is that at this price rounded down |
| Market.NeverCrossed | libraries/chain/database.cpp:5479-5499 | In every reachable book two orders cross only if the older one offers more than the largest price cap allows |
| Market.CrossedExactlyBySkipping | libraries/chain/database.cpp:5479-5499 | A placed order is left crossing a resting one if and only if its run of trades does not fill it and some crossing order is above the cap; a book not crossed before is then crossed on the same condition |
| Market.OverCapNeedsMore | libraries/protocol/asset.cpp:212-215 | An order asking at least one unit is above the cap only if it offers more than 10^15 units |
| Market.OverCapOrderIsSkipped | libraries/chain/database.cpp:5479-5485 | A run of accepted orders that ends in a crossed book |
| Market.TradeKeeps | libraries/chain/database.cpp:5501-5590 | A trade removes at least one order, leaves every other order alone, and keeps market balances and pair depth exact up to the order being matched |
| Market.TradeConserves | libraries/chain/database.cpp:5551-5590 | A trade with its fees conserves every asset |
| Market.TradeWealth | libraries/chain/database.cpp:5501-5590 | A trade is worth to every account exactly what it bought less the fee, what it sold, and the fees it is due |
| Market.RunWealth | libraries/chain/database.cpp:5479-5499 | So is a whole run of trades, summed along its log |
| Market.PlacedWealth | libraries/chain/steem_evaluator.cpp:2625-2681 | Placing an order is worth to every account what its trades are |
| Market.FillKeeps | libraries/chain/database.cpp:5631-5665 | A full or partial fill moves market balance and depth by exactly what the book loses |
| Market.FillWealth | libraries/chain/database.cpp:5636-5639 | A fill pays the order's own seller in the asset asked for and costs it what was sold; nobody else gains or loses |
| Market.CancelKeeps | libraries/chain/database.cpp:5668-5675 | Cancelling keeps orders, balances, depth and crossing as they should be |
| Market.CancelWealth | libraries/chain/database.cpp:5668-5675 | What a cancelled order still offers goes back to its own seller: balance plus orders of every account stay the same |
| Market.OpenAgree | libraries/chain/steem_evaluator.cpp:2653-2681 | Opening an order before its depth is counted leaves the depth wrong by exactly that order |
| Market.CountedExact | libraries/chain/steem_evaluator.cpp:2653-2681 | Counting what was opened after matching makes the depth exact again, though it was negative in between |
| Market.MinimumIsAsk | libraries/chain/steem_evaluator.cpp:2596-2622 | An order given by two amounts asks for exactly its minimum |
| Market.FeeOf | libraries/chain/database.cpp:5551-5565 | The fee is between nothing and what was received |
| Market.FeeIsPercentage | libraries/chain/database.cpp:5551-5565 | A fee is its percentage of the receipt, rounded down but at least one |
| Market.OrderMarket.CreateOrder | libraries/chain/steem_evaluator.cpp:2625-2681 | Accepted exactly when it is acceptable and, for fill-or-kill, the run of its trades would fill it; then the book is the one its whole run of trades leaves, with the order counted, and exactly when the order is left crossing another is stated; refused, the book is as it was; every invariant and every supply is kept |
| Market.OrderMarket.ApplyOrder | libraries/chain/database.cpp:5479-5499 | The book is the old one after a trade with each order of the log in turn, which are candidates in price and time order; it ends with the order gone or no candidate left, and each step but a last one that fills the new order removes a resting order; supply conserved |
| Market.MatchingIsDeterministic | libraries/chain/database.cpp:5479-5499 | Price and time order leave one run only: the orders taken and the book after it are determined by the book before |
| Market.FillIsDecided | libraries/chain/steem_evaluator.cpp:2671-2675 | So whether a fill-or-kill order is filled is determined before it is placed |
| Market.OrderMarket.Match | libraries/chain/database.cpp:5501-5590 | The trade as specified, with the two result bits |
| Market.OrderMarket.FillOrder | libraries/chain/database.cpp:5631-5665 | Full fill, partial fill, and cancelling of an order too small to ask for anything; the seller is paid and nobody else |
| Market.OrderMarket.Cancel | libraries/chain/steem_evaluator.cpp:2684-2686 | Cancels the owner's order and refunds it; a missing order is an error |
| Market.OrderMarket.ClearExpiredOrders | libraries/chain/database.cpp:5689-5697 | Cancels exactly the expired orders; every account keeps its balance plus what its orders offer, so each refund reaches its seller |
| Market.OrderMarket.UpdatePairDepth | libraries/chain/database.cpp:1006-1025 | Adds to one pair's depth and leaves the others |
| WitnessSchedule.NeverPastTheLap | libraries/chain/database.cpp:2703-2712 | A witness on track has not passed the end of its lap, so its position never wraps |
| WitnessSchedule.RescheduledExactly | libraries/chain/database.cpp:2716-2733 | The scheduled time computed with wrap detection is the unbounded one, capped at the largest 128-bit value |
| WitnessSchedule.AdjustedOnTrack | libraries/chain/database.cpp:2703-2734 | A change of votes advances the position exactly, reschedules exactly and keeps the witness at or after current time |
| WitnessSchedule.OverflowIsCaught | libraries/chain/database.cpp:2182-2188 | A wrapped sum is smaller than its operand exactly when the true sum does not fit |
| WitnessSchedule.AdvancedInv | libraries/chain/database.cpp:2180-2194 | Starting laps for everyone looked at keeps every witness at or after the new time |
| WitnessSchedule.ResetInv | libraries/chain/database.cpp:5987-6002 | So does the full reset |
| WitnessSchedule.ResetForgets | libraries/chain/database.cpp:2180-2198 | The reset undoes laps started before the overflow was found |
| WitnessSchedule.LapsStart | libraries/chain/database.cpp:5987-6002 | Both the advance and the reset keep owners, votes and keys, and whoever starts a lap is due the lap over its votes later, rounded down |
| WitnessSchedule.NewTimeFacts | libraries/chain/database.cpp:2150-2159 | The new virtual time is not before the old one and has not passed anybody who was not looked at |
| WitnessSchedule.RoundSize | libraries/chain/database.cpp:2089-2173 | A round has as many members as there are witnesses with a signing key, up to 21 |
| WitnessSchedule.ShuffleIsPermutation | libraries/chain/database.cpp:2296-2312 | For any draws the shuffle permutes the scheduled part and leaves the rest |
| WitnessSchedule.PermutationKeepsNoDuplicates | libraries/chain/database.cpp:2296-2312 | So a round without duplicates is published without duplicates |
| WitnessSchedule.ShuffledIsPublished | libraries/chain/database.cpp:2279-2312 | The published table is the round's owners, each once, then blanks |
| WitnessSchedule.Scheduler.UpdateWitnessSchedule | libraries/chain/database.cpp:2089-2318 | Throws exactly when a witness without a key leaves the round short; otherwise publishes a duplicate-free permutation of the round, looks at the first witnesses in virtual time up to the one that fills the round, or at all of them, moves time to the last of them and starts new laps for exactly them, or resets everyone exactly when a lap would not fit |
| WitnessSchedule.Scheduler.AdjustWitnessVote | libraries/chain/database.cpp:2703-2734 | Changes one witness's votes, position and time, or throws when votes would exceed the total stake |
| WitnessSchedule.Scheduler.SelectVoted | libraries/chain/database.cpp:2093-2111 | The most voted witnesses with a key, at most 19, none left out that is ahead of one chosen |
| WitnessSchedule.Scheduler.SelectByTime | libraries/chain/database.cpp:2148-2173 | Completes the round with the keyed witnesses next in virtual time; the witnesses looked at are the first in that order, end with the last member of a full round or are all, and include every member not voted in; the new time is that of the last one looked at |
| WitnessSchedule.Scheduler.StartLaps | libraries/chain/database.cpp:2178-2194 | Starts laps in turn and stops exactly at the first that overflows |
| WitnessSchedule.Scheduler.AdvanceTime | libraries/chain/database.cpp:2178-2198 | Advances exactly those looked at, or resets everyone, and keeps the invariant |
| WitnessSchedule.Scheduler.Shuffle | libraries/chain/database.cpp:2296-2312 | The in-place loop computes the shuffle function |
| WitnessSchedule.Scheduler.CreateWitness | libraries/chain/include/golos/chain/witness_objects.hpp:104-106 | A new witness starts with no votes at the latest possible time |
| Curation.FindMsbBounds | libraries/chain/curation_info.cpp:129-136 | The highest bit of any 128-bit value |
| Curation.ApproxSqrtIsNewtonStep | libraries/chain/curation_info.cpp:138-157 | The bit manipulation is one step of Newton's iteration from the nearest power of two |
| Curation.ApproxSqrtBounds | libraries/chain/curation_info.cpp:138-157 | For every 128-bit x the result r is at least the root rounded down, 8r² ≤ 9x, and it fits 64 bits |
| Curation.ApproxSqrtMonotone | libraries/chain/curation_info.cpp:138-157 | It is monotone on all 128-bit values |
| Curation.WeightMonotone | libraries/chain/curation_info.cpp:95-127 | Both curves grow with the shares and stay below 2^64 |
| Curation.BoundedIsShare | libraries/chain/curation_info.cpp:99-118 | The bounded curve is its formula rounded down |
| Curation.PartsAddUp | libraries/chain/curation_info.cpp:17-63 | The weights left to the window, inside it, after it and dropped for changed votes are non-negative and add up to the curve at the total shares |
| Curation.PartsOfVote | libraries/chain/curation_info.cpp:31-63 | The same for one vote: the window takes a part of its weight and never more |
| Curation.DiscountIsPart | libraries/chain/curation_info.cpp:43-47 | A vote within the window keeps the part of its weight that its time is of the window, rounded down |
| Curation.OnlyUnchangedVotesWeigh | libraries/chain/curation_info.cpp:37-60 | A vote that was changed is paid nothing, unless it is only marked for removal |
| Curation.AuctionTime | libraries/chain/steem_evaluator.cpp:2088-2099 | A vote's recorded time never exceeds the window |
| Curation.WeightHelper.CalculateWeight | libraries/chain/curation_info.cpp:31-63 | In 64-bit arithmetic that never wraps: the running totals after each vote are the sums above, and the weight returned is the vote's |
| Curation.WeightHelper.CalculateCurve | libraries/chain/curation_info.cpp:99-127 | The difference on the curve, which never underflows |
| Curation.WeightHelper.LeaveToWindow | libraries/chain/curation_info.cpp:43-54 | The discount of an early vote goes to the window and nowhere else |
| Curation.EntriesWeight | libraries/chain/curation_info.cpp:178-191 | The listed weights sum to those inside and after the window; at full auction time to exactly those after it |
| Curation.SortedListFacts | libraries/chain/curation_info.cpp:193-198 | The sorted list is in order, a permutation, and has the same sums |
| Curation.CommentCurationInfo | libraries/chain/curation_info.cpp:160-198 | The whole computation: the total is at most the curve at the total shares, and the weight after the window is exactly that of unchanged votes at full auction time |
| Cashout.DelegatorsWithinClaim | libraries/chain/database.cpp:3046-3085 | Rates of at most 100% never take more than the claim, also when a product wraps |
| Cashout.DelegatorClaimIsRate | libraries/chain/database.cpp:3050-3057 | A delegator gets its rate of the claim, rounded down, and nothing for a rate above 100% |
| Cashout.ClaimIsPaidInFull | libraries/chain/database.cpp:3087-3109 | A curator and its delegators together get the claim exactly |
| Cashout.VoterGetsTheRest | libraries/chain/database.cpp:3091-3103 | The voter gets what the delegators leave of the claim, or nobody gets anything |
| Cashout.ClaimIsShare | libraries/chain/database.cpp:3133-3141 | A claim is the vote's share of the budget and, at full auction time, of the window's reward, each rounded down |
| Cashout.TermsAreFigures | libraries/chain/database.cpp:3122-3127 | The window's reward is the budget's share by the window's weight, rounded down |
| Cashout.FirstIsHeaviest | libraries/chain/database.cpp:3141-3146 | The vote that waits for the remainder is the heaviest at full auction time |
| Cashout.ClaimsWithinBudget | libraries/chain/database.cpp:3122-3154 | All claims together never exceed the budget, under every destination of the window's reward |
| Cashout.NobodySkipped | libraries/chain/database.cpp:3148-3153 | Unless that reward goes to curators, stopping at the first empty claim skips nobody with a claim |
| Cashout.SkippedExactlyBehindDust | libraries/chain/database.cpp:3130-3154 | If it does, a claim is skipped exactly when a vote from inside the window without a claim of its own stands before a vote with a share in that reward |
| Cashout.SkippedVote | libraries/chain/database.cpp:3130-3154 | A run from two votes through the curation weights: nobody is paid although the second vote has a claim |
| Cashout.StepsAreConserved | libraries/chain/database.cpp:3130-3166 | Every token handed out in the loop is paid to somebody or goes back to the fund |
| Cashout.BeneficiariesWithinTokens | libraries/chain/database.cpp:3230-3244 | Beneficiary weights of at most 100% never take more than the author's tokens |
| Cashout.AuthorSideIsPaidInFull | libraries/chain/database.cpp:3230-3256 | Beneficiaries, author and worker pool get the author's tokens exactly, and none of them a negative amount |
| Cashout.AuthorPaymentsSplit | libraries/chain/database.cpp:3230-3256 | Every beneficiary gets its percentage of the tokens; of the rest the worker pool gets half the dollar percentage and the author everything else, at least half |
| Cashout.RewardFund.PayDelegators | libraries/chain/database.cpp:3046-3085 | The loop makes exactly the specified payments and returns their sum |
| Cashout.RewardFund.PayCurator | libraries/chain/database.cpp:3087-3109 | Pays the claim, or puts it back for a voter without enough shares |
| Cashout.RewardFund.PayVotes | libraries/chain/database.cpp:3130-3161 | Which votes are paid what and in which order, the heaviest full-time vote last with the remainder |
| Cashout.RewardFund.PayCurators | libraries/chain/database.cpp:3116-3187 | The budget is conserved among payments, fund and what is returned to the author's side, with the returned amount stated |
| Cashout.RewardFund.PayAuthor | libraries/chain/database.cpp:3230-3256 | The loop over beneficiaries and the split pay the author's side: who gets which part is stated of the payments added |
| Cashout.RewardFund.PayComment | libraries/chain/database.cpp:3202-3273 | What was claimed from the fund is paid out or back in it; the whole log of payments is stated; an author with negative reputation gets nothing |
| RewardShares.RevaluedKeeps | libraries/chain/database.cpp:2850-2867 | Passing a change of shares up the discussion keeps every subtree total and the grand total equal to plain sums |
| RewardShares.RevaluedRecords | libraries/chain/steem_evaluator.cpp:2004-2222 | Only the voted comment's own shares change; no comment changes its place or its settings |
| RewardShares.CreatedKeeps | libraries/chain/steem_evaluator.cpp:1043-1172 | A new comment, counted by everyone above it, keeps all totals and descendant counts exact |
| RewardShares.DeletedKeeps | libraries/chain/steem_evaluator.cpp:511-575 | So does deleting a comment without replies and without positive shares |
| RewardShares.NoneBelow | libraries/chain/steem_evaluator.cpp:530-532 | A comment whose counter is zero has no replies, so deleting it never orphans one |
| RewardShares.OwnSharesAreCounted | libraries/chain/database.cpp:2850-2867 | A comment's shares are part of every total above it, so no unsigned subtraction goes below zero |
| RewardShares.ClaimIsCovered | libraries/chain/database.cpp:3965-3996 | A claim never divides by zero and never exceeds the fund |
| RewardShares.RawPayoutIsShare | libraries/chain/database.cpp:3970-3980 | A comment claims its weighted shares' part of the fund, both rounded down |
| RewardShares.PayoutIsAllOrLimit | libraries/chain/database.cpp:3982-3990 | All of it, or the limit if that is less, and nothing below the least payout |
| RewardShares.Discussion.AdjustRshares2 | libraries/chain/database.cpp:2850-2867 | The recursion adds the difference at every level up to the post and to the grand total |
| RewardShares.Discussion.AddToChildren | libraries/chain/steem_evaluator.cpp:1160-1173 | The loop over the parents changes every count above a comment and no other |
| RewardShares.Discussion.CreateComment | libraries/chain/steem_evaluator.cpp:1030-1172 | Refused exactly for a known comment or a missing or too deep parent; otherwise one comment more and all invariants |
| RewardShares.Discussion.Vote | libraries/chain/steem_evaluator.cpp:2004-2222 | A first or changed vote moves the net shares by the difference and keeps all totals exact |
| RewardShares.Discussion.DeleteComment | libraries/chain/steem_evaluator.cpp:511-575 | Refused exactly for a comment with descendants (or, when producing, positive shares) |
| RewardShares.Discussion.CashoutComment | libraries/chain/database.cpp:3189-3286 | Exactly when it throws; otherwise the amount claimed, exactly which payments it makes, and the removal of the shares: all tokens are conserved and all totals stay exact; a throw changes nothing |
| RewardShares.Discussion.ClaimAndPay | libraries/chain/database.cpp:3965-3996 | The claimed amount leaves the fund, which stays non-negative, and is paid in full; exactly when it throws |
| Vesting.DepositKeepsPrice | libraries/chain/database.cpp:1824-1857 | A deposit never makes a share cheaper and keeps every share backed |
| Vesting.WithdrawalKeepsPrice | libraries/chain/database.cpp:2967-2982 | Nor does a withdrawal; the last share takes the whole fund and any other leaves some |
| Vesting.PricesAreFair | libraries/chain/database.cpp:1824-1848 | A deposit is given, and a withdrawal paid, its worth at the pool's price with less than one unit rounded off |
| Vesting.CreatedKeeps | libraries/chain/database.cpp:1824-1857 | A deposit keeps the sum of account shares equal to the total and adds exactly its tokens |
| Vesting.PaymentIsDue | libraries/chain/database.cpp:2906-2926 | The payment the code computes is the rate, or all that is outstanding if less than a rate would be left |
| Vesting.PaymentsAddUp | libraries/chain/database.cpp:2906-2926 | A schedule pays exactly what was asked in floor(amount / rate) payments, all of one rate but the last |
| Vesting.PowerDownFollowsSchedule | libraries/chain/database.cpp:3002-3020 | An uninterrupted power-down, whatever shares the account gains meanwhile, makes exactly the payments of the schedule |
| Vesting.TurnPaysOnce | libraries/chain/database.cpp:2906-3020 | One turn of the withdrawal loop is one payment of such a run, whatever the account gained before it and gains from its routes |
| Vesting.FourPayments | libraries/chain/steem_evaluator.cpp:1526-1560 | From sixteen shares on that is four payments |
| Vesting.StaysOnSchedule | libraries/chain/database.cpp:3002-3020 | What is outstanding never exceeds the account's shares, also when routes gave it shares back |
| Vesting.VestingLedger.CreateAccount | libraries/chain/include/golos/chain/account_object.hpp:62-116 | A new account has nothing and changes no total |
| Vesting.RoutedWithinPayment | libraries/chain/database.cpp:2933-2996 | Routes of at most 100% never take more than the payment, so the guard against a negative remainder is never needed |
| Vesting.PartIsPercentage | libraries/chain/database.cpp:2937-2942 | A route takes its percentage of the payment, rounded down |
| Vesting.ProcessedKeeps | libraries/chain/database.cpp:2906-3034 | A withdrawal with all its routes keeps shares equal to the total, conserves liquid tokens plus fund, and never makes a share cheaper |
| Vesting.ProcessedAt | libraries/chain/database.cpp:2933-3020 | What a turn gives each account: the parts of the routes leading to it, as shares or as tokens at the price of the moment, and to the account itself its payment and its own part |
| Vesting.VestingLedger.CreateVesting | libraries/chain/database.cpp:1824-1857 | A deposit as specified, at the price before it: the account and the pool get the shares the deposit is worth, less than one share rounded off |
| Vesting.VestingLedger.TransferToVesting | libraries/chain/steem_evaluator.cpp:1483-1493 | A deposit from a balance conserves tokens; refused exactly when the balance is too low |
| Vesting.VestingLedger.WithdrawVesting | libraries/chain/steem_evaluator.cpp:1495-1562 | Starts, changes or stops a power-down, and exactly when it is refused |
| Vesting.VestingLedger.SetRoute | libraries/chain/steem_evaluator.cpp:1564-1617 | Sets, changes or removes a route in order, and exactly when it is refused |
| Vesting.VestingLedger.ProcessWithdrawal | libraries/chain/database.cpp:2906-3034 | One account's turn as specified, with both passes over the routes; for the account it is one payment of its schedule |
| Vesting.VestingLedger.PassVests | libraries/chain/database.cpp:2933-2958 | The first pass moves shares to the automatic routes |
| Vesting.VestingLedger.PassTokens | libraries/chain/database.cpp:2960-2990 | The second pass converts at the price of each moment |
| Vesting.PlacedFacts | libraries/chain/steem_evaluator.cpp:1572-1602 | A route replaces one to the same account and no other, and the order is kept |
| Vesting.FollowedAll | libraries/chain/database.cpp:2933-2936 | Every stored route is followed if and only if none leads to account 0 |
| Vesting.RouteToFirstAccount | libraries/chain/database.cpp:2933-2936 | A run in which a route of everything to account 0 is accepted and its payment stays with the account that powers down |
| Subscriptions.PutKeeps | libraries/chain/paid_subscription_evaluators.cpp:151-249 | A subscriber added or changed with its counters moved keeps counters equal to counts and every subscriber consistent |
| Subscriptions.RenewedOk | libraries/chain/paid_subscription_evaluators.cpp:193-249 | A renewal keeps prepaid tokens of the cost's symbol, and none where they could not be spent |
| Subscriptions.RenewedTokens | libraries/chain/paid_subscription_evaluators.cpp:193-249 | A renewal conserves each kind of token but for the stated shift |
| Subscriptions.PaidAt | libraries/chain/paid_subscription_evaluators.cpp:151-219 | What a transfer takes from the payer's purse, gives the author's, and gives back of an old prepayment |
| Subscriptions.TransferRecord | libraries/chain/paid_subscription_evaluators.cpp:161-246 | The subscriber's record after a transfer, on the subscription's terms |
| Subscriptions.TransferNeverOverdraws | libraries/chain/paid_subscription_evaluators.cpp:133-141 | An accepted transfer overdraws no purse |
| Subscriptions.ShiftCancels | libraries/chain/paid_subscription_evaluators.cpp:217-246 | The shift is zero for the symbol as a whole, and for a kind exactly unless the kind changed under prepaid tokens of the same symbol |
| Subscriptions.PrepaidChangesKind | libraries/chain/paid_subscription_evaluators.cpp:119-250 | A run in which five main tokens become tip tokens |
| Subscriptions.ChargedTokens | libraries/chain/database_paid_subscription_objects.cpp:108-147 | A regular payment conserves every kind of token, with what is left of the prepaid on the last one |
| Subscriptions.ChargedAt | libraries/chain/database_paid_subscription_objects.cpp:108-137 | A regular payment costs the subscriber's purse what the prepaid tokens lack and gives the author's the cost, and the rest of the prepaid with the last one |
| Subscriptions.ChargedRecord | libraries/chain/database_paid_subscription_objects.cpp:141-145 | It leaves one execution fewer and the next payment one interval later |
| Subscriptions.TurnPaysExactly | libraries/chain/database_paid_subscription_objects.cpp:91-131 | A turn pays exactly when something is left to execute and the purse has what the prepaid tokens lack; otherwise the subscriber ends |
| Subscriptions.TurnNeverOverdraws | libraries/chain/database_paid_subscription_objects.cpp:108-131 | A turn overdraws no purse |
| Subscriptions.ChargedOk | libraries/chain/database_paid_subscription_objects.cpp:91-147 | After it prepaid is zero when nothing is left to execute, and fewer turns remain |
| Subscriptions.FewerTurns | libraries/chain/database_paid_subscription_objects.cpp:80-149 | Every turn lowers a non-negative total, so processing ends |
| Subscriptions.UpdateKeeps | libraries/chain/paid_subscription_evaluators.cpp:34-91 | An update that makes subscribers inactive keeps counters and subscribers consistent |
| Subscriptions.MemberIn | libraries/chain/paid_subscription_evaluators.cpp:264-277 | A subscriber is counted, so no counter goes below zero |
| Subscriptions.SubscriptionLedger.Create | libraries/chain/paid_subscription_evaluators.cpp:8-32 | A new subscription without subscribers; refused exactly for a known one |
| Subscriptions.SubscriptionLedger.Update | libraries/chain/paid_subscription_evaluators.cpp:34-91 | The new terms, everyone inactive where prepayment is not allowed, and exactly when it is refused |
| Subscriptions.SubscriptionLedger.RepriceAll | libraries/chain/paid_subscription_evaluators.cpp:61-80 | The loop changes every subscriber and counts exactly the active ones |
| Subscriptions.SubscriptionLedger.Delete | libraries/chain/paid_subscription_evaluators.cpp:93-117 | Every subscriber gone, each purse refunded exactly its prepaid tokens, everything else as it was |
| Subscriptions.SubscriptionLedger.Transfer | libraries/chain/paid_subscription_evaluators.cpp:119-250 | Accepted exactly as stated; the new subscriber record, purses, counters and the token balance of every kind |
| Subscriptions.SubscriptionLedger.Cancel | libraries/chain/paid_subscription_evaluators.cpp:252-278 | The subscriber leaves and gets its prepaid tokens back |
| Subscriptions.SubscriptionLedger.ProcessOne | libraries/chain/database_paid_subscription_objects.cpp:88-147 | The records, counters and purses after one turn: a due subscriber pays, or ends exactly when nothing is left to execute or it cannot pay |
| Subscriptions.SubscriptionLedger.ProcessAll | libraries/chain/database_paid_subscription_objects.cpp:80-149 | The result is that of the turns along the index as it moves under the iterator, each at a due entry and none due after the last; it ends within a stated number of turns and conserves every kind of token |
| Subscriptions.VisitedKeepsIndex | libraries/chain/database_paid_subscription_objects.cpp:88-147 | A turn leaves the index complete and in order, wherever the changed entry goes |
| Subscriptions.EveryoneDueHasATurn | libraries/chain/database_paid_subscription_objects.cpp:88-147 | Whoever is due when the loop starts has a turn, and whoever is still due when it ends has had one |
| Subscriptions.StillDueExactlyWhenLeft | libraries/chain/database_paid_subscription_objects.cpp:88-147 | Somebody is still due after the loop if and only if some round left it behind the iterator at a time that has come as well |
| Subscriptions.NobodyLeftDue | libraries/chain/database_paid_subscription_objects.cpp:139-147 | If no due subscriber is more than one payment behind, nobody is due after the loop |
| Subscriptions.OverdueWaits | libraries/chain/database_paid_subscription_objects.cpp:139-147 | A run in which a subscriber is still due after the loop |
| TransactionDedup.NoTransactionTwice | libraries/chain/database.cpp:5084-5136 | On every chain from genesis no transaction is applied twice |
| TransactionDedup.ReplayIsRefused | libraries/chain/database.cpp:4688-4723 | A transaction ever applied is refused for ever after, in the index or not |
| TransactionDedup.NextRemembers | libraries/chain/database.cpp:5678-5687 | A block forgets only what has expired, so the promise carries over |
| TransactionDedup.TransactionIndex.ApplyTransaction | libraries/chain/database.cpp:5084-5136 | The duplicate and time checks and the new entry; block 1 has no time check |
| TransactionDedup.TransactionIndex.ClearExpired | libraries/chain/database.cpp:5678-5687 | Removes exactly the entries that have expired at the head |
| TransactionDedup.TransactionIndex.ApplyBlock | libraries/chain/database.cpp:4864-4887 | Accepts a block exactly when it is later than the head, repeats nothing and every transaction is in time and applies |
| BlockLog.ReadsBlock | libraries/chain/block_log.cpp:81-103 | At a block's position reading finds that block and the next position |
| BlockLog.ReadsBlockIn | libraries/chain/block_log.cpp:81-103 | The same in any file that reads as a list of blocks, torn bytes behind them or not |
| BlockLog.BlockLog.Append | libraries/chain/block_log.cpp:210-234 | The log stands for one block more, or refuses a block that is not the next |
| BlockLog.BlockLog.WriteBlock | libraries/chain/block_log.cpp:219-226 | The log file after the block write and before the index write |
| BlockLog.BlockLog.ReadBlockByNum | libraries/chain/block_log.cpp:285-298 | The n-th block appended, for every n, and nothing beyond |
| BlockLog.BlockLog.GetBlockPos | libraries/chain/block_log.cpp:71-79 | The position of block n, or none |
| BlockLog.BlockLog.ConstructIndex | libraries/chain/block_log.cpp:130-147 | Scanning the log writes exactly the index that appending would have, within the buffer |
| BlockLog.BlockLog.Open | libraries/chain/block_log.cpp:149-208 | With any log file that reads as a list of blocks and any index file beside it: head restored, index rebuilt unless its last entry is right, a stray index discarded |
| BlockLog.StoppedIndexIsRestored | libraries/chain/block_log.cpp:178-196 | After a stop between the block write and the index write, or with a blank entry, opening restores agreement |
| BlockLog.BlankTailHidesBlocks | libraries/chain/block_log.cpp:105-110 | After a stop before the position was written, however much of the block was copied, the file reads as a log of the first block alone |
| BlockLog.HeadReadIs | libraries/chain/block_log.cpp:105-110 | The head read from a file that reads as a list of blocks is the last of them |
| BlockLog.TrueHeadIff | libraries/chain/block_log.cpp:219-223 | The true head is found exactly when the position was written or there is one block only |
| BlockLog.MarkReads | libraries/chain/block_log.cpp:44-55 | A 64-bit position reads back from its eight bytes |

## Left out

- Networking, plugins, APIs, logging, virtual operations as notifications, shared-memory sizing: no deep property.
- Hashing, signatures and key recovery: a key either signed or did not, block and transaction ids are values, and equal ids mean equal contents.
- Undo sessions: popping restores the state before the block; committing or pruning during a fork switch is not modelled.
- Blocks found only in the block log: popping a block asks the fork database alone for it.
- Fork database items held by shared pointers: an item is known exactly while it is in the index.
- Rules of earlier hardforks, one-off migrations, exceptions for single block numbers, skip flags, and the miners of the schedule.
- Witness votes as the sum of vote records: since votes are divided among witnesses they are only approximately that; the model proves what is forwarded to an account's witnesses.
- The proxy check follows the chain as intended; the code keeps a reference to a loop variable there.
- Overflow of 64-bit token arithmetic, which throws in the code, except where it could wrap silently (scheduler, curation weights, delegators' parts).
- Overflow of the 32-bit weight sum in the authority check.
- The linear curation curve: on changed votes its weights need not add up.
- The curator statistics total, which the code overwrites for the heaviest vote.
- The delegation ledger and the expiry of delegations; a delegator's reward is a payment of tokens.
- Clearing the null account, freezing, and vesting shares taken away outside a power-down.
- The order in which due power-downs are visited: every order is covered, one turn at a time.
- Counters of sponsors per author, event reasons, and whitelists of market assets.
- NFT market, auctions, escrow, savings, proposals, worker requests, conversions and feeds.
- The text form of assets.
- Witness pay normalization, majority version and hardfork votes in the schedule update.
- A stop in the middle of the eight-byte store of a block's position: the store is one step. Blocks larger than the maximum size and logs of 2^64 bytes.
- SignExact.AnswersAreExactIff: a depth limit of 0, under which no request ever has an account approved; the chain's limit is 2.
