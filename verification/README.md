# Verified model of the dfinance node

A Dafny model of the parts of the node whose results every validator must agree on, with
proofs of what they promise. `dafny verify dfyconfig.toml` checks everything.

**The batch auction** (`Dec`, `Division`, `Sorting`, `Orders`, `Aggregates`, `Curves`, `CrossPoint`,
`Clearance`, `Fills`, `Matcher`, `Clearings`, `ClearingPrices`, `Payouts`, `Settlement`, `Pool`,
`Conservation`). At the end of a block every market's bids and asks are sorted, aggregated, merged
into a supply/demand curve, cleared at a crossing point and filled pro rata. The reference is two
sums over the raw orders: supply(p), the total of asks priced at most p, and demand(p), the total
of bids priced at least p. The curve code refines these sums; the crossing point carries them
exactly, at a price that follows from them; both sides clear the same volume up to a stated
rounding bound; every balance grows by what its fills are worth; a book determines its clearing,
and the settlement of several markets does not depend on their order.

**The multisig protocol** (`Bytes`, `QueueKeys`, `Multisig`, `MultisigRuns`, `MultisigProgress`,
`MultisigStore`, `MultisigKeeper`). `Multisig` and `MultisigRuns` hold the protocol as a state machine
and prove what never happens over whole runs, `MultisigProgress` what must: accepted votes are
recorded and stay, and calls that have enough of them are executed. `MultisigStore` represents the
state in one store of byte keys, and the `Keeper` class works on that store: its methods are proved
to be steps of the state machine, so the theorems are about them.

**The application** (`Caches`, `Transactions`, `AppRuns`, `AppBlocks`, `BaseApp`). `Transactions` says
what running a transaction does on plain stores, `AppRuns` what whole runs do, `AppBlocks` what a
block commits, and the `BaseApp` class works on write caches nested in write caches and is proved to
take the same steps.

**Arithmetic and keys** (`Oracle`, `Quote`, `PathKey`). The oracle median as an order statistic,
the base-to-quote conversion with its exact rounding, and the storage path keys.

Amounts are natural numbers and decimals are integers scaled by 10^18. The decimal library is
fixed by definition in `Dec`: `Mul` rounds half to even, `Quo` truncates at 36 digits and then
rounds half to even. Gas meters are likewise fixed in `Transactions`: consuming panics past the
limit and on 64-bit overflow, and the gas is taken first.

## Where the code falls short of its comments

- The crossing search is documented to find the best crossing point. It does not always: when the
  balance jumps from demand-heavy to supply-heavy it takes the point after the jump even if the
  one before trades more. `CrossPoint.OptimalIff` says exactly when, `CrossPoint.LosingExample`
  shows a book.
- When the supply is a tiny fraction of the demand the ratio rounds to zero and inverting it
  panics at the end of the block: exactly when `Pool.EndBlocker` says, with
  `Clearance.RatioIsZero` as the arithmetic condition and `Clearings.VanishingExample` as a book.
- Beyond 10^18 - 2 units it is not guaranteed that bids and asks clear the same volume.
  `Clearance.ClearedEqualIff` is the exact test, `Clearance.ClearedUnequalNearLimit` fails it
  less than 2*10^9 units above 10^18.
- Where the balance never changes, the fallback picks a point by an unstable sort. Two points can
  tie, and then the comparison alone does not determine the price: `CrossPoint.CrossPointUnique`,
  `Clearings.ClearingUnique`, `Clearings.TiedExample`.
- A filled order is documented to be removed or reduced. An ask whose fill is worth less than one
  quote unit is skipped instead: it keeps its quantity and can match again, while the bids it was
  matched with are credited. `Payouts.SkippedIff` is the exact condition, `Conservation.BaseConservedIff`
  says that a balanced clearing conserves the base currency exactly when it has no such fill, and
  `Conservation.DustExample` shows a book.
- Queue keys cannot be parsed back at heights with a 0x3A byte, the first being 58
  (`QueueKeys.ParseUndoesQueueKey`, `QueueKeys.ParsePanicsExample`). Iteration is not affected.
- An error response does not mean that a transaction wrote nothing: the ante handler's writes
  stay when a message fails, and all writes stay when only the block gas meter trips
  (`Transactions.DeliverAtomic`, `Transactions.LandedYetRefused`).
- A crash of the virtual machine is meant to stop the node, but is swallowed when charging the
  block gas meter panics as well (`Transactions.CrashIff`, `Transactions.CrashSwallowed`).

## Model

| member | source | states |
|---|---|---|
| `Sorting.Sort` | x/oracle/internal/keeper/price.go:93-99 | for any comparison that ranks, the result is a permutation in which nothing comes before something it is greater than |
| `CrossPoint.SortByGap` | x/orderbook/internal/keeper/pq_curves.go:206-224 | the points permuted, by ascending difference of supply and demand |
| `Orders.Sort` | x/orderbook/internal/keeper/order_sorter.go:16-44 | the result is a permutation of the orders, in the price-then-id order of that side (bids: higher id first among equal prices; asks: lower id first) |
| `Orders.SortedUnique` | x/orderbook/internal/keeper/order_sorter.go:16-44 | two sorted permutations of orders with distinct ids are equal, so what the sort returns does not depend on the sorting algorithm |
| `Orders.VolumePermutation` | x/orderbook/internal/keeper/order_sorter.go:24-49 | supply and demand at a price, defined as sums over raw orders, do not depend on the order in which the orders are listed |
| `Aggregates.NewBidOrderAggregates` | x/orderbook/internal/keeper/order_aggs.go:46-75 | one entry per distinct bid price, strictly ascending, each with the total quantity of bids priced at or above it |
| `Aggregates.NewAskOrderAggregates` | x/orderbook/internal/keeper/order_aggs.go:80-109 | one entry per distinct ask price, strictly ascending, each with the total quantity of asks priced at or below it |
| `Aggregates.StepIsVolume` | x/orderbook/internal/keeper/order_aggs.go:46-109 | read as a step function, the aggregates give the exact supply or demand at every price, not only at listed ones |
| `Curves.Search` | x/orderbook/internal/keeper/pq_curves.go:292-294 | binary search: the least index whose price is at least the one sought |
| `Curves.SDCurves.AddAskOrders` | x/orderbook/internal/keeper/pq_curves.go:274-284 | the curve holds one point per ask aggregate, with its supply and zero demand |
| `Curves.SDCurves.AddBidOrders` | x/orderbook/internal/keeper/pq_curves.go:288-309 | merging by search and in-place insertion keeps the points strictly ascending, one per distinct price of either side, each with the supply and demand listed for exactly that price |
| `Curves.SDCurves.FixZeroSupplyDemand` | x/orderbook/internal/keeper/pq_curves.go:313-332 | one simultaneous pass in both directions gives every point the supply of the nearest filled point to its left and the demand of the nearest to its right; nothing else changes |
| `Curves.FilledIsCurve` | x/orderbook/internal/keeper/pq_curves.go:311-332 | after back-filling, supply and demand of every point are the step functions of the two aggregate lists |
| `Curves.CurveRefinesOrders` | x/orderbook/internal/keeper/pq_curves.go:61-95 | a curve of exact aggregates has exactly one point per distinct order price, with the supply and demand summed over the raw orders |
| `Curves.CurveUnique` | x/orderbook/internal/keeper/pq_curves.go:61-95 | a book has only one curve |
| `Curves.AggsSorted` | x/orderbook/internal/keeper/pq_curves.go:67-81 | decides whether no entry is out of order against its predecessor in both price and quantity; strictly ascending aggregates always pass |
| `Curves.NewSDCurves` | x/orderbook/internal/keeper/pq_curves.go:61-95 | which of the guards fails and when (empty side, unsorted, no crossing prices); otherwise the curve of the two aggregate lists |
| `CrossPoint.GetCrossPoint` | x/orderbook/internal/keeper/pq_curves.go:136-271 | the found point is the balanced first point, the first change of balance (at its corridor average), the point before it, or a point of least difference with both volumes, by the stated cases |
| `CrossPoint.CorridorIsShort` | x/orderbook/internal/keeper/pq_curves.go:161-173 | a corridor of equal points spans at most two adjacent points |
| `CrossPoint.CorridorVolumes` | x/orderbook/internal/keeper/pq_curves.go:161-173 | the averaged corridor price has the supply and demand of the corridor, summed over raw orders |
| `CrossPoint.CrossPointSound` | x/orderbook/internal/keeper/pq_curves.go:136-271 | on every crossing book the point found has a positive price and both volumes, and they are the supply and demand of the raw orders at that price |
| `CrossPoint.FallbackOnlyWithoutChange` | x/orderbook/internal/keeper/pq_curves.go:179-234 | the least-difference fallback decides only when the balance never changes sign |
| `CrossPoint.CrossPointUnique` | x/orderbook/internal/keeper/pq_curves.go:136-271 | the volumes of the crossing point are determined by the curve, and its price too unless the balance never changes and the end of least difference is a corridor of two points |
| `CrossPoint.TiedEndHasTwo` | x/orderbook/internal/keeper/pq_curves.go:202-234 | in that case both points are valid results of the fallback |
| `CrossPoint.OptimalIff` | x/orderbook/internal/keeper/pq_curves.go:144-234 | the point maximises min(supply, demand) over all prices if and only if the balance does not jump from demand-heavy to supply-heavy with demand left after the jump and more supply before it than demand after it |
| `CrossPoint.AtJump` | x/orderbook/internal/keeper/pq_curves.go:154-190 | where volume is lost, the price sits at the lowest point whose supply exceeds demand, or in its corridor |
| `CrossPoint.LosingExample` | x/orderbook/internal/keeper/pq_curves.go:179-190 | a book where five units could trade at price 10 and the search clears one unit at price 11 |
| `ClearingPrices.CrossPointPrice` | x/orderbook/internal/keeper/pq_curves.go:136-271 | which price is found, from the raw orders alone: where demand exceeds supply at low prices, the halved sum of the lowest and the highest order price with the volumes found, or the highest bid if supply only suffices once demand is gone; the lowest price if supply is never short and balances there; else an order price with the volumes found |
| `ClearingPrices.CorridorExample` | x/orderbook/internal/keeper/pq_curves.go:161-173 | ten units asked at 5, ten bid at 7 and five at 4 clear at 6 |
| `CrossPoint.GetClearanceState` | x/orderbook/internal/keeper/pq_curves.go:100-132 | which outcome occurs and when: empty curve, empty point, division by a ratio that rounds to zero, or the ratios and maxima of the crossing point |
| `Clearance.RatioIsZero` | x/orderbook/internal/keeper/pq_curves.go:126-127 | the ratio rounds to zero, so that inverting it panics, exactly when 2*supply*10^36 < (10^18 + 2)*demand |
| `Clearance.MaxBidNearSupply` | x/orderbook/internal/keeper/pq_curves.go:126-128 | the bid maximum is the supply up to half a unit plus the rounding of the ratio |
| `Clearance.MaxAskNearDemand` | x/orderbook/internal/keeper/pq_curves.go:126-129 | when supply exceeds demand the ask maximum is the demand up to half a unit plus two roundings |
| `Clearance.UncappedSide` | x/orderbook/internal/keeper/matcher.go:158-243 | the maximum of the side that is not pro-rated never cuts it short |
| `Clearance.ClearedGap` | x/orderbook/internal/keeper/pq_curves.go:122-129 | the two cleared volumes differ by at most 1 + (supply + demand)/10^18, and not at all up to 10^18 - 2 units |
| `Clearance.ClearedEqual` | x/orderbook/internal/keeper/pq_curves.go:122-129 | up to 10^18 - 2 units both sides clear exactly min(supply, demand) |
| `Clearance.ClearedEqualIff` | x/orderbook/internal/keeper/pq_curves.go:122-129 | at any size, both sides clear the same volume if and only if a remainder test on supply and demand holds: what the rounded ratio (and, with asks pro-rated, its rounded inverse) leaves over stays below half a unit, or is half a unit of an even volume |
| `Clearance.ClearedUnequalExample` | x/orderbook/internal/keeper/pq_curves.go:122-129 | one unit of supply against 1.5*10^18 of demand: asks clear 1, bids clear 2 |
| `Clearance.ClearedUnequalNearLimit` | x/orderbook/internal/keeper/pq_curves.go:122-129 | less than 2*10^9 units above 10^18 the bids clear one unit more than the asks |
| `Clearance.QuoIsNearest` | x/orderbook/internal/keeper/pq_curves.go:126-127 | a decimal quotient, truncated at 36 digits and then rounded, is decided by one remainder, which also gives its error exactly |
| `Clearance.RatioIsNearest` | x/orderbook/internal/keeper/pq_curves.go:122-126 | the ratio is that quotient of supply and demand themselves |
| `Fills.GetBidOrderFills` | x/orderbook/internal/keeper/matcher.go:158-199 | the loop from the end of the sorted bids computes the bid run and its total |
| `Fills.GetAskOrderFills` | x/orderbook/internal/keeper/matcher.go:202-243 | the loop over the sorted asks computes the ask run and its total |
| `Fills.RunIsPrefix` | x/orderbook/internal/keeper/matcher.go:164-196 | fills are a gap-free prefix of the queue; each is positive, at most the order, at the clearance price; only the last can get less than its rounded-up share |
| `Fills.FullRun` | x/orderbook/internal/keeper/matcher.go:166-171 | the side that is not pro-rated fills every eligible order in full, and no other |
| `Fills.ProRatedRun` | x/orderbook/internal/keeper/matcher.go:173-188 | the pro-rated side clears exactly its maximum whenever the rounded-up shares can reach it |
| `Fills.MatchedBids` | x/orderbook/internal/keeper/matcher.go:158-199 | the bid total is the cleared bid volume of the crossing point |
| `Fills.MatchedAsks` | x/orderbook/internal/keeper/matcher.go:202-243 | the ask total is the cleared ask volume of the crossing point |
| `Fills.SortedGivesPriority` | x/orderbook/internal/keeper/order_sorter.go:16-44 | walking the sorted bids backwards and the sorted asks forwards is best price first, then lower id first |
| `Matcher.Matcher.AddOrder` | x/orderbook/internal/keeper/matcher.go:40-75 | each refusal exactly when its guard holds, leaving both queues alone; otherwise the order is appended to its side |
| `Matcher.Matcher.Aggregate` | x/orderbook/internal/keeper/matcher.go:79-99 | both sides sorted, as permutations of what was added, with exact aggregates |
| `Matcher.Matcher.Match` | x/orderbook/internal/keeper/matcher.go:78-155 | no match exactly when no bid reaches an ask; never an internal error; otherwise matched at the crossing point of the curve of the raw orders, except that it panics exactly when the ratio rounds to zero |
| `Matcher.CrossingGuard` | x/orderbook/internal/keeper/pq_curves.go:83-86 | the guard on the outermost aggregates says whether some bid is priced at or above some ask |
| `Matcher.MatchTotals` | x/orderbook/internal/keeper/matcher.go:125-138 | each matched volume is what the clearance arithmetic assigns to that side |
| `Matcher.MatchBalance` | x/orderbook/internal/keeper/matcher.go:125-138 | the matched volumes differ by at most 1 + (supply + demand)/10^18, up to 10^18 - 2 units both are min(supply, demand), and at any size they are equal exactly when the remainder test on supply and demand holds |
| `Matcher.MatchFills` | x/orderbook/internal/keeper/matcher.go:158-243 | for both sides: prefix, priority, shares, and full fills on the side that is not pro-rated |
| `Pool.MatcherPool.AddOrder` | x/orderbook/internal/keeper/matcher_pool.go:20-29 | the pool holds exactly the orders added so far, split by market and side; an order is refused exactly when its matcher refuses it, and then leaves at most an empty matcher |
| `Pool.MatcherPool.Process` | x/orderbook/internal/keeper/matcher_pool.go:33-54 | one result for every market whose book crosses and none for others; it panics exactly when the ratio of some market rounds to zero |
| `Pool.EndBlocker` | x/orderbook/abci.go:12-40 | reads the keeper's own store; panics exactly when a stored order is unacceptable, the ratio of some market rounds to zero or a coin panics (without ties, all three as conditions on the stored orders), writing nothing in the first two cases; otherwise every stored order is unchanged, removed or reduced as its own fill says, orders stay under their ids, and the state is the same for every order of the results and, without ties, for every execution on these orders |
| `Clearings.ClearingBalances` | x/orderbook/internal/keeper/matcher.go:78-155 | every result, whatever the book: supply and demand of its raw orders at its price are positive, its two matched volumes balance within the rounding bound, and are equal exactly when the remainder test holds |
| `ClearingPrices.ClearingPrice` | x/orderbook/internal/keeper/matcher.go:78-155 | every clearing is at the price of that rule, with the supply and demand of its raw orders |
| `ClearingPrices.ClearingVolumes` | x/orderbook/internal/keeper/matcher.go:125-138 | a result records the sizes of both sides, the maxima of the clearance arithmetic and the cleared volumes, for the supply and demand of the raw orders at its price |
| `Clearings.ClearedDoesNotVanish` | x/orderbook/internal/keeper/pq_curves.go:122-129 | no book both clears and has a ratio that rounds to zero |
| `Clearings.VanishingExample` | x/orderbook/internal/keeper/pq_curves.go:122-129 | one unit asked against 2*10^18 + 5 bid at the same price is a book that panics |
| `Clearings.ClearingUnique` | x/orderbook/internal/keeper/matcher.go:78-155 | with distinct ids two clearings of one book have the same ratios, volumes and fills, and are equal unless the price is tied, where only the price differs |
| `Clearings.TiedExample` | x/orderbook/internal/keeper/pq_curves.go:202-234 | ten units asked at 5 and three bid at 7 may clear at 5 or at 7 |
| `Pool.MarketsApart` | x/orderbook/internal/keeper/matcher_pool.go:33-54 | results of two markets touch different orders and different history entries |
| `Pool.ResultsIndependent` | x/orderbook/internal/keeper/matcher_pool.go:33-54 | the results of one block are pairwise independent |
| `Pool.ClearingFillsOnce` | x/orderbook/internal/keeper/matcher.go:158-243 | no order is filled twice in one result |
| `Pool.ResultsAgree` | x/orderbook/internal/keeper/matcher_pool.go:33-54 | two executions on the same stored orders produce the same results, up to their order, when no price is tied |
| `Pool.ExecutionsAgree` | x/orderbook/abci.go:26-33 | and they leave the same balances, stored orders and history |
| `Pool.BlockFilledOnce` | x/orderbook/internal/keeper/matcher_pool.go:33-54 | no order is filled twice in a block |
| `Pool.RefusedIff` | x/orderbook/abci.go:26-33 | without ties the stored orders decide whether a coin panics |
| `Pool.BlockDetermined` | x/orderbook/abci.go:26-33 | the final state is determined by the results in any order and, without ties, by the stored orders |
| `Pool.BlockHistory` | x/orderbook/internal/types/history.go:118-131 | the item holds the price, the sizes of the book, what each side could clear and what it did, for the supply and demand of the raw orders at the price |
| `Pool.BookComplete` | x/orderbook/internal/keeper/matcher_pool.go:20-29 | every order is in the book of its market and side |
| `Pool.ReadOrders` | x/orders/internal/keeper/order.go:96-103 | every stored order once |
| `Pool.MatchAll` | x/orderbook/abci.go:16-27 | panics exactly on an unacceptable order or a ratio that rounds to zero; otherwise the results of all crossing markets |
| `Pool.SettleResults` | x/orderbook/abci.go:27-33 | panics exactly on a refused coin; otherwise all results are settled |
| `Conservation.BaseVolumes` | x/orders/internal/types/order_fill.go:24-46 | the base credited to bids is the matched bid volume; the base released by asks, with what is skipped, is the matched ask volume |
| `Conservation.ReleasesIsReduction` | x/orders/internal/keeper/funds.go:84-95 | what an ask releases is what its stored order loses |
| `Conservation.BaseConservedIff` | x/orders/internal/keeper/funds.go:51-96 | a balanced clearing conserves the base currency if and only if every ask it fills is worth at least one quote unit, and otherwise creates some |
| `Conservation.DustExample` | x/orders/internal/keeper/funds.go:54-60 | two orders that can be posted clear one base unit, which the bid is credited and the ask keeps |
| `Payouts.QuoteCoinIff` | x/orders/internal/types/order_fill.go:32-37 | a quote coin is made, with a positive amount, exactly when the amount is worth one unit by the exact rounding rule |
| `Payouts.QuoteCoinAmount` | x/orders/internal/types/order_fill.go:32-37 | a quote coin has exactly the amount price*quantity/10^baseDecimals rounded down, or one more by the stated rounding rule when the decimals exceed 18 in all, and is not made when that is zero |
| `Payouts.AskPaid` | x/orders/internal/types/order_fill.go:31-46 | an ask is paid that amount for its filled quantity at the clearance price, and skipped when it is zero |
| `Payouts.LockedIs` | x/orders/internal/types/order.go:100-122 | a posted bid locks that amount for its whole quantity at its own price, an ask its base quantity |
| `Payouts.SkippedIff` | x/orders/internal/types/order_fill.go:24-46 | a fill has no coin exactly when it is an ask's and worth less than one quote unit |
| `Payouts.BidPaid` | x/orders/internal/types/order_fill.go:24-72 | a bid always receives its whole filled quantity, and as a refund exactly what that quantity is worth at the difference between its price and the clearance price |
| `Settlement.OrdersKeeper.ExecuteOrderFills` | x/orders/internal/keeper/funds.go:51-96 | panics exactly when the bank refuses a coin or a conversion panics; otherwise the loop over fills leaves the ledger that folding the fills gives, a fill being skipped when its coin is not made |
| `Settlement.OrdersKeeper.ProcessResult` | x/orderbook/abci.go:27-33 | one result: its fills, with the panics of the bank, then its history item |
| `Settlement.FillsPay` | x/orders/internal/keeper/funds.go:54-82 | each balance grows by exactly the fill and refund coins that its owner's fills owe it |
| `Settlement.BlockPays` | x/orderbook/abci.go:26-33 | the same over all results of a block |
| `Settlement.BlockPaysOwed` | x/orderbook/abci.go:26-33 | in terms of quantities: over a block each balance grows by the base its bids bought, the worth of its filled asks and the refunds of its bids |
| `Settlement.PaidRemainder` | x/orders/internal/keeper/funds.go:84-95 | what is left of a paid order is nothing when it was filled whole, else the order with the unfilled quantity and the block time |
| `Settlement.HistoryOfResult` | x/orderbook/abci.go:27-33 | each result leaves its history item under its market and the block height |
| `Settlement.FillsReduce` | x/orders/internal/keeper/funds.go:84-95 | each filled order is removed when full and reduced otherwise, and kept if its fill is skipped |
| `Settlement.OthersKept` | x/orders/internal/keeper/funds.go:84-95 | orders without a fill are unchanged |
| `Settlement.BlockReduces` | x/orderbook/abci.go:26-33 | over all results of a block a filled order becomes what its own fill says |
| `Settlement.BlockKeepsOthers` | x/orderbook/abci.go:26-33 | and an order without a fill is unchanged |
| `Settlement.BlockSettlesOrders` | x/orderbook/abci.go:26-33 | so every stored order is unchanged, removed or reduced as its own fill, if any, says |
| `Settlement.FillsCommute` | x/orders/internal/keeper/funds.go:51-96 | fills of disjoint sets of orders can be settled in either order |
| `Settlement.ResultsCommute` | x/orderbook/abci.go:26-33 | two results of different markets can be settled in either order |
| `Settlement.Confluence` | x/orderbook/abci.go:26-33 | any two orderings of the same independent results leave the same balances, stored orders and history |
| `Quote.DecToUintIsFloor` | x/ccstorage/internal/types/currency.go:65-74 | converting a decimal to units is an exact floor division by the smallest unit |
| `Quote.ConversionIsQuotient` | x/markets/internal/types/market_ext.go:44-71 | for at most 18 decimals the whole conversion is one rounding and one floor division, refused exactly when the result is zero |
| `Quote.ExactConversion` | x/markets/internal/types/market_ext.go:44-71 | with at most 18 decimals in all, the result is the floor of price*quantity/10^baseDecimals, refused exactly when that is zero |
| `Quote.RoundedConversion` | x/markets/internal/types/market_ext.go:44-71 | with more, the result is that floor or one more, and one more exactly when the remainder is within half a rounding step of the next unit |
| `Quote.ConversionBound` | x/markets/internal/types/market_ext.go:44-71 | in plain arithmetic: fails only if floor(price*quantity/10^baseDecimals) is zero, otherwise returns that floor or one more, and exactly the floor when the decimals sum to at most 18 |
| `Quote.TooSmallIff` | x/markets/internal/types/market_ext.go:53-65 | exactly which amounts are refused as too small, for all decimals up to 18 |
| `Oracle.MedianPrices` | x/oracle/internal/keeper/price.go:71-121 | median ask and median bid of the posts as order statistics (the halved sum of the two middle ones for an even count), with the matching timestamp |
| `Oracle.MedianUnique` | x/oracle/internal/keeper/price.go:93-120 | the median is determined by the posts |
| `Oracle.MedianPermutation` | x/oracle/internal/keeper/price.go:93-120 | the median does not depend on the order of the posts |
| `Oracle.MedianRobust` | x/oracle/internal/keeper/price.go:93-120 | if fewer than half of the values lie outside [lo, hi], the median lies inside |
| `Oracle.MedianOrdered` | x/oracle/internal/keeper/price.go:93-120 | if every post bids at most what it asks, median bid <= median ask |
| `Oracle.SetPostReplaces` | x/oracle/internal/keeper/price.go:194-219 | each oracle counts once: its latest post is in, every other oracle's post is kept |
| `Oracle.PostsCommute` | x/oracle/internal/keeper/price.go:194-219 | posts of two oracles may come in either order |
| `Oracle.PostAllHolds` | x/oracle/internal/keeper/price.go:179-224 | after any sequence of posts the list holds exactly the latest post of each oracle |
| `Oracle.SequencesAgree` | x/oracle/internal/keeper/price.go:61-121 | two sequences in which each oracle's latest post is the same give the same posts and the same medians |
| `Oracle.Keeper.SetPrice` | x/oracle/internal/keeper/price.go:179-224 | accepted exactly when the timestamp is close enough; then exactly this oracle's post for this asset and block is replaced or added |
| `Oracle.Keeper.SetCurrentPrices` | x/oracle/internal/keeper/price.go:61-142 | every listed asset gets the medians of this block unless one is zero or both are unchanged; other assets keep their price |
| `PathKey.ParseUndoesBuild` | x/common_vm/common.go:42-101 | parsing undoes building exactly for 20-byte addresses and non-empty paths, delimiter bytes included |
| `PathKey.BuildUndoesParse` | x/common_vm/common.go:58-101 | every accepted key is the key of what it parses to |
| `PathKey.PathKeyLayout` | x/common_vm/common.go:42-51 | the key is "vm:", the address, ":" and the path |
| `Bytes.BelowPrefixEnd` | x/multisig/internal/keeper/queue.go:21-37 | below the end of a prefix range lie exactly the keys below the prefix and those that start with it |
| `Bytes.BigEndianOrder` | x/multisig/internal/types/keys.go:60-79 | byte order of equally long big-endian numbers is numeric order |
| `QueueKeys.RangeStartEnd` | x/multisig/internal/keeper/queue.go:21-27 | of all entries of the store, the range yields exactly the queued calls with start <= height <= end |
| `QueueKeys.RangeTill` | x/multisig/internal/keeper/queue.go:31-37 | of all entries of the store, the range yields exactly the queued calls with height <= end |
| `QueueKeys.QueueKeyOrder` | x/multisig/internal/types/keys.go:60-69 | byte order of queue keys is height order |
| `QueueKeys.QueueKeyInjective` | x/multisig/internal/types/keys.go:60-69 | a queue key determines height and id |
| `QueueKeys.ParseUndoesQueueKey` | x/multisig/internal/types/keys.go:60-101 | parsing a queue key returns its parts exactly when no byte of the height is 0x3A, and panics otherwise |
| `QueueKeys.ParsePanicsExample` | x/multisig/internal/types/keys.go:82-101 | 58 is the first such height |
| `MultisigStore.KeyOfInjective` | x/multisig/internal/types/keys.go:13-69 | no two entries of the store share a key, whatever their kinds and whatever bytes a unique id holds |
| `MultisigStore.Iterate` | x/multisig/internal/keeper/queue.go:21-37 | an iterator yields exactly the keys of its range, in byte order |
| `MultisigStore.IterationIsScan` | x/multisig/internal/keeper/queue.go:21-37 | iterating over byte keys lists exactly the queued calls of the height range, each once, in height order |
| `MultisigKeeper.Keeper.GetCall` | x/multisig/internal/keeper/call.go:72-80 | the stored call of an id, if any |
| `MultisigKeeper.Keeper.StoreCall` | x/multisig/internal/keeper/call.go:117-122 | one call changes, nothing else |
| `MultisigKeeper.Keeper.NextCallID` | x/multisig/internal/keeper/call.go:170-192 | zero first, then one above the last id |
| `MultisigKeeper.Keeper.SetLastCallID` | x/multisig/internal/keeper/call.go:195-199 | the last id changes, nothing else |
| `MultisigKeeper.Keeper.SetCallUniqueIDMatch` | x/multisig/internal/keeper/call.go:163-167 | one unique id is mapped, nothing else changes |
| `MultisigKeeper.Keeper.CreateCall` | x/multisig/internal/keeper/call.go:153-160 | the four writes to the byte-keyed store are the creation step of the protocol |
| `MultisigKeeper.Keeper.SubmitCall` | x/multisig/internal/keeper/call.go:13-51 | the new state, and from any state that keeps the invariant the status, are those of the submit step: a known unique id is a confirmation, otherwise every validity check, the route check and the dry run come first |
| `MultisigKeeper.Keeper.GetVotes` | x/multisig/internal/keeper/votes.go:59-87 | the votes of a known call, none for an unknown one |
| `MultisigKeeper.Keeper.HasVote` | x/multisig/internal/keeper/votes.go:36-56 | whether there are votes at all, and whether the address is among them |
| `MultisigKeeper.Keeper.SetVotes` | x/multisig/internal/keeper/votes.go:165-170 | one vote list changes, nothing else |
| `MultisigKeeper.Keeper.RemoveVotes` | x/multisig/internal/keeper/votes.go:173-178 | one vote list is removed, nothing else changes |
| `MultisigKeeper.Keeper.ConfirmCall` | x/multisig/internal/keeper/votes.go:12-119 | state and status of the confirm step: refused for unknown, approved or rejected calls and repeated votes |
| `MultisigKeeper.Keeper.RevokeConfirmation` | x/multisig/internal/keeper/votes.go:24-162 | state and status of the revoke step: the spliced vote list, and with the last vote the call leaves the queue |
| `MultisigKeeper.Keeper.AddCallToQueue` | x/multisig/internal/keeper/queue.go:40-44 | one queue entry is added, nothing else changes |
| `MultisigKeeper.Keeper.RemoveCallFromQueue` | x/multisig/internal/keeper/queue.go:11-18 | one queue entry is removed, nothing else changes |
| `MultisigKeeper.Keeper.QueueIteratorStartEnd` | x/multisig/internal/keeper/queue.go:21-27 | the ids read through byte keys are a scan of the heights from start to end |
| `MultisigKeeper.Keeper.QueueIteratorTill` | x/multisig/internal/keeper/queue.go:31-37 | the ids read through byte keys are a scan of the heights up to end |
| `MultisigKeeper.Keeper.HandleMsgSubmitCall` | x/multisig/handler.go:32-44 | a submit step of a run: refused unless the creator is a validator |
| `MultisigKeeper.Keeper.HandleMsgConfirmCall` | x/multisig/handler.go:47-59 | a confirm step of a run: refused unless the sender is a validator |
| `MultisigKeeper.Keeper.HandleMsgRevokeConfirm` | x/multisig/handler.go:62-70 | a revoke step of a run, open to any sender |
| `MultisigKeeper.Keeper.ExecuteCall` | x/multisig/abci.go:30-83 | one round of the execution loop; panics exactly on a missing call, or a missing handler for a confirmed call |
| `MultisigKeeper.Keeper.RejectCall` | x/multisig/abci.go:89-107 | one round of the rejection loop; panics exactly on a missing call |
| `MultisigKeeper.Keeper.ExecuteCalls` | x/multisig/abci.go:26-83 | from any state that keeps the invariant the loop cannot panic and executes the whole scan |
| `MultisigKeeper.Keeper.RejectCalls` | x/multisig/abci.go:85-108 | from any state that keeps the invariant the loop cannot panic and rejects the whole scan |
| `MultisigKeeper.Keeper.EndBlocker` | x/multisig/abci.go:15-115 | from any state that keeps the invariant it does not panic and is an end-of-block step of a run, with both scans read through byte keys |
| `Multisig.SubmitInv` | x/multisig/internal/keeper/call.go:13-51 | submitting keeps the invariant: dense ids in bijection with unique ids; approved means exactly one of executed and failed; rejected excludes all three; queued calls are open, routed, voted for and queued under their own height; every closed call has exactly one event |
| `Multisig.ConfirmInv` | x/multisig/internal/keeper/votes.go:90-119 | confirming keeps the invariant |
| `Multisig.RevokeInv` | x/multisig/internal/keeper/votes.go:122-162 | revoking keeps the invariant |
| `Multisig.CreateInv` | x/multisig/internal/keeper/call.go:153-177 | a fresh call can always be confirmed by its creator, and creation keeps the invariant |
| `Multisig.ExecuteInv` | x/multisig/abci.go:46-82 | executing a queued call in time keeps the invariant |
| `Multisig.RejectInv` | x/multisig/abci.go:95-107 | rejecting a queued overdue call keeps the invariant |
| `Multisig.EndBlockInv` | x/multisig/abci.go:15-115 | the end of a block keeps the invariant, and changes only the calls it walks |
| `Multisig.QueueAfterEndBlock` | x/multisig/abci.go:86-107 | a call still queued after the end of block b has b < height + interval, or b < 2*interval + 1 |
| `Multisig.EndBlockEffects` | x/multisig/abci.go:60-77 | the other modules change exactly by the announced executions, each run on what the ones before it left; failed handlers commit nothing |
| `MultisigRuns.RunInv` | x/multisig/abci.go:15-115 | every state of every run keeps the invariant |
| `MultisigRuns.FrozenForever` | x/multisig/abci.go:79-107 | once out of the queue a call stays out and its status never changes again |
| `MultisigRuns.VoterWasValidator` | x/multisig/handler.go:32-52 | every recorded vote was cast earlier in the run by an address that was a validator at that moment |
| `MultisigRuns.ClosedOnce` | x/multisig/abci.go:46-82 | no call is executed, failed or rejected twice in a run |
| `MultisigRuns.ExecutionSafe` | x/multisig/abci.go:30-83 | every committed effect is the call's own handler's, no later than interval blocks after submission, and backed by at least the threshold of distinct votes, each cast by a then validator |
| `MultisigRuns.OutOfQueueInTime` | x/multisig/abci.go:86-107 | with interval I, a call submitted at h is out of the queue once a block at or above max(h + I, 2I + 1) has ended |
| `MultisigRuns.NeverRejectedEarly` | x/multisig/abci.go:20-27 | no call is rejected before block h + I, nor when it is approved |
| `MultisigProgress.ConfirmEffect` | x/multisig/internal/keeper/votes.go:90-119 | an accepted confirmation appends one vote to one call and changes nothing else; each refusal exactly when its check fails, changing nothing |
| `MultisigProgress.RevokeEffect` | x/multisig/internal/keeper/votes.go:122-162 | an accepted revocation takes out that vote, keeps all others, and unqueues the call if it was the last; a refused one changes nothing |
| `MultisigProgress.SubmitNew` | x/multisig/internal/keeper/call.go:22-51 | a new call is accepted exactly when its message, ids, route and dry run are in order, and is then stored under the next id with its message and height, queued and confirmed by its creator |
| `MultisigProgress.SubmitKnown` | x/multisig/internal/keeper/call.go:16-23 | a submission under a known unique id records the vote of its sender, once, on that call while it is open |
| `MultisigProgress.VoteStays` | x/multisig/internal/keeper/votes.go:112-162 | over runs, a recorded vote stays until its voter revokes it |
| `MultisigProgress.AcceptedVoteRecorded` | x/multisig/handler.go:32-59 | every vote of a validator that was accepted and not revoked since by its voter is recorded |
| `MultisigProgress.RevokedIsGone` | x/multisig/handler.go:62-70 | a revocation on an open call takes that vote away, and no other |
| `MultisigProgress.RoundOutcome` | x/multisig/abci.go:36-82 | a round closes its call as executed or failed exactly when the number of votes, modulo 2^16, is at least the threshold of the state it sees |
| `MultisigProgress.EndBlockOutcome` | x/multisig/abci.go:15-115 | every queued call: approved in this block if it is at most interval blocks old and its votes reach the threshold when its turn comes; else rejected if the interval, and twice the interval since the first block, have passed; else left as it was |
| `MultisigProgress.ConfirmedIff` | x/multisig/abci.go:26-83 | over runs, with a threshold that is steady during the block, a queued call is approved by it if and only if it is young enough and its votes reach the threshold |
| `MultisigProgress.EventsDated` | x/multisig/abci.go:30-107 | only the end of a block closes calls, and each closing is dated with its height and interval |
| `Caches.ApplyOne` | app/baseapp.go:518-535 | a written key has its new value and a deleted one is gone when read through a cache |
| `Caches.ApplyMerge` | app/baseapp.go:652-666 | writing a cache into the one below changes nothing that is read through both |
| `Transactions.SucceedsForward` | app/baseapp.go:676-732 | if every message succeeds in turn, the whole does, and ends in the last store with all results in order |
| `Transactions.SucceedsBackward` | app/baseapp.go:676-732 | if the whole succeeds, every message was dispatched and succeeded, each on the store the previous one left |
| `Transactions.PanicsForward` | app/baseapp.go:676-732 | if a message panics after those before it succeeded, so does the whole, with the gas used until then |
| `Transactions.PanicsBackward` | app/baseapp.go:676-732 | if the whole panics, some message did after those before it succeeded |
| `Transactions.FailsForward` | app/baseapp.go:682-711 | the first message that is refused, after those before it succeeded, decides the error: verifier, denied list, missing route or handler, in that order |
| `Transactions.SuccessAnswer` | app/baseapp.go:594-668 | a success is answered with the results of all handlers in order and the gas of the last meter, and the block is charged for it up to the limit |
| `Transactions.RefusedAnswer` | app/baseapp.go:553-650 | what a transaction is answered, and the block charged, that finds the block gas spent, is malformed or fails in the ante handler |
| `Transactions.PanicAnswer` | app/baseapp.go:564-612 | a panic other than a crash is answered as out of gas or as recovered, by its kind, and so is the block meter's own |
| `Transactions.TripAnswer` | app/baseapp.go:597-612 | messages that all pass but trip the block meter are answered with its panic, and their writes stay |
| `Transactions.CheckEffect` | app/baseapp.go:619-690 | a check writes what the ante handler wrote if it passes, and succeeds if the first message is also verified |
| `Transactions.SimulateEffect` | app/baseapp.go:501-516 | a simulation succeeds exactly when all messages do, and writes nothing |
| `Transactions.DeliverAtomic` | app/baseapp.go:544-669 | the deliver store afterwards is unchanged, or has the ante handler's writes, or those and all messages'; message writes land exactly when every message succeeded |
| `Transactions.SuccessIff` | app/baseapp.go:602-669 | the response is a success exactly when all messages succeeded in turn and the gas they used did not trip the block gas meter |
| `Transactions.LandedYetRefused` | app/baseapp.go:597-612 | a transaction answered with an out-of-gas error whose write stays in the store |
| `Transactions.CrashIff` | app/baseapp.go:564-612 | the process dies exactly when the ante handler, or a message whose predecessors all succeeded, crashed the virtual machine and the gas used until then did not also trip the block gas meter |
| `Transactions.CrashSwallowed` | app/baseapp.go:564-612 | a handler that crashes the virtual machine after 10 gas with 5 left in the block is answered with an out-of-gas error |
| `AppRuns.LocalStep` | app/baseapp.go:493-516 | checking or simulating a transaction changes nothing but the check state, and simulating not even its store |
| `AppRuns.ConsensusStep` | app/abci.go:101-245 | no other step reads the check state |
| `AppRuns.NonInterference` | app/abci.go:163-219 | deleting every check and simulation from a run leaves all committed states and replies to delivered transactions unchanged |
| `AppRuns.ReplicasAgree` | app/abci.go:163-245 | two nodes that take the same blocks, amid any checks and simulations of their own, commit the same states and give the same replies |
| `AppRuns.CommitResets` | app/abci.go:228-245 | after every commit the check state shows the committed state and no deliver state is left |
| `AppBlocks.CommitStores` | app/abci.go:228-245 | a commit makes the deliver state just before it the committed state and the new check state, under the next version |
| `AppBlocks.EachCommit` | app/abci.go:228-245 | every commit of a run shows the deliver state that the steps before it had reached |
| `AppBlocks.BeginLands` | app/abci.go:101-142 | a block opens on what genesis left or else on the committed state, with the begin hook's writes and a fresh gas meter |
| `AppBlocks.EndLands` | app/abci.go:145-155 | the end hook's writes land in the deliver state |
| `AppBlocks.InitChainLands` | app/abci.go:19-65 | the consensus parameters land in the committed state, the genesis writes in the deliver state |
| `AppBlocks.DeliverLands` | app/abci.go:201-219 | a delivered transaction leaves the store before it, that with the ante handler's writes, or that with all writes, as far as it got; one that cannot be decoded changes nothing |
| `AppBlocks.BlockCommits` | app/abci.go:101-245 | a whole block, amid any checks and simulations, commits the state before it with the writes of the begin hook, of each delivered transaction in order, and of the end hook |
| `AppBlocks.CheckLands` | app/abci.go:163-194 | a check runs in its own mode on the check state, where the ante handler's writes land if it passes |
| `AppRuns.VersionsAdvance` | app/abci.go:228-245 | the i-th commit of a run has version i above the initial one |
| `AppRuns.BlockHeights` | app/baseapp.go:462-473 | every block of a run begins at exactly one above the last committed height |
| `AppRuns.NothingRunsOnceSpent` | app/baseapp.go:553-557 | once block gas is spent every further transaction of the block is refused and changes nothing |
| `BaseApp.ValidateBasicTxMsgs` | app/baseapp.go:476-489 | the first malformed message, or the absence of messages |
| `BaseApp.RunMsgsCached` | app/baseapp.go:676-732 | on a write cache, the loop over messages does what running them on plain stores does |
| `BaseApp.RunMessagesCached` | app/baseapp.go:655-668 | the message cache is written into the layer exactly when all messages succeeded in deliver mode |
| `BaseApp.RunBodyCached` | app/baseapp.go:614-669 | ante handler and messages on nested caches do what they do on plain stores |
| `BaseApp.BaseApp.SetCheckState` | app/baseapp.go:397-403 | the check state shows the committed store |
| `BaseApp.BaseApp.SetDeliverState` | app/baseapp.go:409-415 | the deliver state shows the committed store |
| `BaseApp.BaseApp.BlockGasMeter` | app/baseapp.go:444-460 | refused exactly below minus one; otherwise a meter that starts at zero and trips exactly when more than a positive maximum is consumed, so that zero and minus one mean no limit |
| `BaseApp.BaseApp.InitChain` | app/abci.go:19-65 | on caches, the initial step of a run |
| `BaseApp.BaseApp.BeginBlock` | app/abci.go:101-142 | on caches, the begin step of a run |
| `BaseApp.BaseApp.EndBlock` | app/abci.go:145-155 | on caches, the end step of a run |
| `BaseApp.BaseApp.Commit` | app/abci.go:228-268 | on caches, the commit step of a run, and exactly when the node is then told to halt |
| `BaseApp.BaseApp.RunDeliver` | app/baseapp.go:544-669 | on nested caches, with deferred charging and recovery, a transaction in deliver mode |
| `BaseApp.BaseApp.RunCheck` | app/baseapp.go:501-669 | on nested caches, a transaction in check, recheck or simulate mode |
| `BaseApp.BaseApp.DeliverTx` | app/abci.go:201-219 | on caches, the deliver step of a run |
| `BaseApp.BaseApp.CheckTx` | app/abci.go:163-194 | on caches, the check step of a run |
| `BaseApp.BaseApp.Simulate` | app/helpers.go:17-19 | on caches, the simulate step of a run |

## Left out

- Command line, REST, configuration, logging, events and queries: input and output only.
- The virtual machine, its data encodings, the amino codec, staking, distribution, governance and the other SDK modules: not modelled; stored values are typed.
- The 256-bit limits of the integer and decimal types: their overflow panics are not modelled.
- Sorting.Sort: `sort.Sort` and `sort.Slice` are replaced by an insertion sort; order lists with distinct ids have only one sorted form, and where equal keys can occur (least-difference fallback, oracle posts) the contracts hold for every sorted form.
- The two goroutines of a match: they touch disjoint fields and are run one after the other.
- Settlement.OrdersKeeper.ExecuteOrderFills: which coins the bank refuses is an arbitrary predicate of the coin, and the currencies of a market are looked up by its id instead of stored with the order.
- The quote currency: its conservation is not claimed; rounding makes locked, paid and refunded amounts differ by units.
- Pool.ReadOrders: yields the orders in any order, the store iterator in key order.
- Matcher.Matcher.AddOrder: a direction that is neither bid nor ask, refused by the source, cannot be expressed; likewise the errors of the fill and refund coins for it.
- MultisigKeeper.Keeper.EndBlocker: an iterator is a snapshot of the keys in its range; the source deletes the current key while iterating.
- Message handlers, the validator set and the confirmation threshold: arbitrary functions of the other modules' state, which do not touch the multisig store; a handler does not panic.
- Permission checks through the call stack, genesis import and export, zero-height preparation: not modelled.
- The multisig interval is a natural number, given anew at every block; heights are 63-bit.
- QueueKeys.ParseUndoesQueueKey: ids are digit strings; what else the id parser would accept is not modelled.
- Oracle.Keeper.SetCurrentPrices: the copies of the price in the virtual machine's storage, reversed prices included, are not modelled.
- The ante handler, message handlers and block hooks of the application: arbitrary functions from what they can read to a result, the writes left in their cache and the gas they used.
- AppRuns.NonInterference: for runs in which no step kills the process; a check can, by a crash of the virtual machine.
- BaseApp.BaseApp.InitChain: the comparison of genesis validators with those of the request is not modelled.
- Tracing, peer filters, store upgrades and version loading: not modelled.
- Currencies, supply counters, the balance report: single additions and subtractions.
