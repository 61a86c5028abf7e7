# Verified models of the trading, banking and care-schedule cores

Dafny models of eight stateful or textual cores of the repository, with proofs about every
input, every run or every interleaving. `dafny verify dfyconfig.toml` checks all of them.

| core | files |
|---|---|
| Candlestick builder of the mock broker | `BarGroups.dfy` (batch definition), `BarAggregator.dfy` (ring buffer, online update, read path) |
| Brokerage ledger of the mock broker | `BrokerBooks.dfy` (one account, both fill paths), `BrokerAccounts.dfy` (tally and identities), `BrokerLedger.dfy` (operations), `BrokerRuns.dfy` (whole runs), `BrokerValuation.dfy` (balances against holdings), `BrokerEffects.dfy` (the operations in numbers and strings), `BrokerStore.dfy` (the object), `MapSums.dfy` |
| ACH ledger and clearing engine of the mock bank | `Bank.dfy`, `Settlement.dfy` |
| Version-guarded care-schedule cache | `CareCache.dfy` |
| PDF writer and string escaper | `Pdf.dfy`, `PdfStrings.dfy` |
| API version negotiation | `Versioning.dfy` |
| Recurring-deposit claims | `Deposits.dfy` |
| Certificate and CA pool reloaders | `Reloader.dfy` |
| Shared by all | `Wrappers.dfy` |

How the models are built:

- An object that the code changes in place is a class (`BarAggregator`, `LedgerStore`,
  `SettlementEngine`, `Store`, `DepositService`). Each method is proved equal to a step of a
  specification on values, or to an independent definition, and the laws are lemmas about runs
  of those steps. A method that holds a lock for its whole body is one atomic step.
- What a step does is also stated without the step: in literal numbers, names and times, against
  the request, the state before and the state after (`Ticked`, `Opened`, `Ordered`, `LimitVisited`,
  `RepricedIn`, `Updated`, `ChargeDays`, `Expected` and the contracts of the methods).
- The cache protocol and the reloader interleave, so they are state machines with one action
  per cache call, backend call, file access or lock hand-over, for any number of processes.
- Loops over Go maps take the entries in an arbitrary order, and what is proved holds for
  every order.
- Money, prices, quantities and quality values are `real`; times are integers.

What the proofs show about the code, where it differs from a first expectation:

- **Bank holds.** `UpdateTransferStatus` ignores the old status when it settles. A step keeps
  every hold exact if and only if it does not push a debit that is no longer pending or posted
  into pending, posted or settled (`Banks.HoldsExactlyWhen`), and a whole run leaves every reserve
  as it was if and only if each of its steps does (`Banks.RunHoldsExactlyWhen`). Over any run at all
  a customer's available balance stays non-negative, and the current balance goes negative if and
  only if the debits pushed out of hold exceed its opening reserve plus what is available and held
  (`Banks.OverdrawnExactlyWhen`, with an instance in `Banks.LateSettlementOverdraws`).
- **Bank custody.** A step leaves custody explained by the settled transfers if and only if it
  touches no settled transfer again and settles none of custody's own (`Banks.CustodyExactlyWhen`).
  Over a run custody is off by exactly the sum of the unexplained updates, which may cancel
  (`Banks.RunCustodyMoves`).
- **Clearing tick.** The tick decides from a snapshot taken before its updates. However other
  operations fall in between, the tick is safe for the holds if and only if none of them
  finished a due debit of the snapshot before the tick's own update of it
  (`Settlement.DisturbedTickSafeExactlyWhen`); if one does, the hold is out of balance by
  exactly the amount (`Settlement.StaleSnapshotBreaksHold`).
- **Care-schedule cache.** Over any run at all the entry of a feline stays coherent at every point
  if and only if no fill stores under it a value that is not the backend's while no writer of it is
  in its window (`CareCache.RunExact`). Three conditions together rule such stores out: a bump
  never lowers the version, no delete falls between a re-check and its fill, and no version
  expires under a reader. Waiving any one of them alone allows a stale entry with no writer active
  (`SplitBumpBreaks`, `SplitFillBreaks`, `ExpiredVersionBreaks`). Making the two pairs atomic is
  still not enough by itself: the alias writes come after the re-checked fill, so runs over a set
  of requests keep a feline's entry coherent if and only if no request carries its id as alias or
  as a path parameter that resolves elsewhere (`CareCache.CoherentExactlyWhen`). A feline whose
  alias is its own id, as for an employee "emp-feline-garfield" named Garfield, is such a case
  (`CareCache.OwnAliasBreaks`).
- **PDF.** Recovering the content stream needs no bound on the document. All seven table
  entries lead to their objects if and only if the last offset is below 10^10.
- **Escaping.** A literal string comes back unchanged if and only if it has no carriage return.
- **Version negotiation.** Ranges of other media types never matter, also when no vendor range
  is present.
- **Recorded bars.** The bars the aggregator holds have open and close between low and high if and
  only if the opening price is not negative or the ring has dropped every seeded bar: a negative
  seed gets its high below its low.
- **Broker log.** Orders, cash, shares and cost bases add up over every run, whatever positions
  `SetPosition` writes. Only a market sale that clamps a negative cost basis to zero creates basis
  from nothing: an account is self-financing over a run if and only if none of its market sales
  was clamped (`BrokerRuns.SelfFinancing`), in particular if all positions set in it from outside
  were at average cost. Average costs of held positions need the latter.
- **Broker valuation.** At every point of every run an account's equity is its cash plus its
  positions plus exactly what openings and seedings of it have left unmatched since it was last
  revalued (`BrokerValuations.RunDrifts`), and it is valued if and only if that is zero. An
  opening matches when the market values it is given are those of the positions already there, a
  seeding when the position is worth what it replaces. Every other operation either revalues the
  account, whatever the state before, or does not touch it.
- **Deposits.** Inside its gap a claimed deposit is due again if and only if no claim of it since,
  the first one included, has moved its schedule (`Deposits.DueInsideGap`). A failed update is
  ignored, so a deposit can be claimed twice at any two times (`Deposits.ClaimedTwice`). The
  schedule column keeps microseconds, so the spacing holds in whole microseconds and a weekly
  deposit is due up to a microsecond before its seven days have passed (`Deposits.DueAgainFrom`).
- **Reloader.** Only equality of mod times is tested, so older ones are noticed like newer ones.
  Over every run with a given history of the files, every call returns what the file held at or
  after the call's start if and only if no mod time ever comes back with other contents than the
  file has held since that mod time was first used (`Reloaders.FreshExactlyWhen`); mod times that
  never repeat are enough. For every history where one does come back there is a run over it that
  returns the stale contents (`Reloaders.RepeatedModTimeGoesStale`).

## Model

| member | source | states |
|---|---|---|
| BarGroups.GroupSnoc | cmd/mock-broker/engine/bars.go:230-264 | On ascending keys, one loop iteration (extend the open bucket or start the next) is exactly what one more input does to the batch grouping |
| BarGroups.Coarsen | cmd/mock-broker/engine/bars.go:230-264 | Re-bucketing grouped bars equals grouping the raw inputs by the coarser key |
| BarGroups.AggregateCompose | cmd/mock-broker/engine/bars.go:211-264 | Aggregating to d and then to any multiple of d equals aggregating straight to the multiple |
| BarGroups.AggregateAligned | cmd/mock-broker/engine/bars.go:223-228 | On aligned, strictly ordered bars aggregation is the identity, so the one-minute shortcut loses nothing |
| BarGroups.AggregateConserves | cmd/mock-broker/engine/bars.go:230-264 | Each bucket appears exactly once and in order, none is invented or lost, total volume is conserved, prices stay between low and high |
| BarGroups.TruncTrunc | cmd/mock-broker/engine/bars.go:235-241 | Truncating to a fine bucket never moves a time, negative ones included, out of its coarse bucket |
| BarGroups.TruncIsBucket | cmd/mock-broker/engine/bars.go:235-241 | Every time lies in the d from its bucket's start, which is a multiple of d |
| BarGroups.TruncExactlyWhen | cmd/mock-broker/engine/bars.go:235-241 | A multiple k of d is the bucket of exactly the times from k up to k + d |
| BarGroups.AggregateBuckets | cmd/mock-broker/engine/bars.go:230-264 | Every aggregated bar starts on a multiple of d and summarises exactly the input bars of the d from there, and every input bar lies in one |
| BarGroups.Extremes | cmd/mock-broker/engine/bars.go:251-256 | The high and low of a group are bounds of its members and attained by one of them |
| BarGroups.SummaryMeans | cmd/mock-broker/engine/bars.go:242-258 | A summary opens with its first bar, closes with its last, spans their highs and lows, both attained, and sums their volume |
| Aggregators.BarAggregator.constructor | cmd/mock-broker/engine/bars.go:67-91 | A new builder holds up to sixty flat seeds a minute apart and the opening price in its whole minute, for 1440 bars if no positive capacity is given, and satisfies the refinement |
| Aggregators.BarAggregator.SeedHistoricalBars | cmd/mock-broker/engine/bars.go:93-118 | The ring then holds the last capacity of the sixty seeds, one per minute before now |
| Aggregators.BarAggregator.Flush | cmd/mock-broker/engine/bars.go:128-134 | Writing at the head and wrapping appends a bar and drops the oldest once full |
| Aggregators.BarAggregator.Update | cmd/mock-broker/engine/bars.go:121-170 | The tick's whole minute m (m x 60 s <= t < (m + 1) x 60 s) opens a new bar if it is after the forming one and otherwise joins it, late ticks included; ring and forming bar are again the last capacity + 1 bars of the seeds followed by the batch grouping of all ticks |
| Aggregators.BarAggregator.ReadWindow | cmd/mock-broker/engine/bars.go:188-209 | Reading from head minus count, modulo the capacity, yields the history oldest first, filtered by the window |
| Aggregators.Rebucket | cmd/mock-broker/engine/bars.go:230-264 | The one-pass loop computes the batch aggregation of the time-ordered input |
| Aggregators.BarAggregator.GetBars | cmd/mock-broker/engine/bars.go:184-270 | The newest `limit` bars of the timeframe over the held bars in the window (ends included): each starts on a multiple of 5 minutes, 1 hour or 1 day (1 minute for other names) and summarises exactly the held bars of that length; without a limit none is missing |
| Aggregators.BarAggregator.HeldOnWholeMinutes | cmd/mock-broker/engine/bars.go:121-170 | Every bar the builder holds is stamped on a whole minute |
| Aggregators.IntervalLasts | cmd/mock-broker/engine/bars.go:211-221 | The timeframe names' lengths in nanoseconds |
| Aggregators.TickedSuffix | cmd/mock-broker/engine/bars.go:121-170 | On any history, what one tick does to its newest n bars |
| Aggregators.RingPush | cmd/mock-broker/engine/bars.go:128-134 | The index arithmetic at every wrap-around is "append and keep the last capacity" |
| Aggregators.RecordTick | cmd/mock-broker/engine/bars.go:125-170 | In the batch history one more tick either extends the last bar or opens the next one |
| Aggregators.FullHistoryChronological | cmd/mock-broker/engine/bars.go:67-170 | The recorded history is strictly time-ordered and minute-aligned, whatever times the ticks carry |
| Aggregators.WindowChronological | cmd/mock-broker/engine/bars.go:188-209 | So is every window of it that the read path selects |
| Aggregators.SeedBarsFlat | cmd/mock-broker/engine/bars.go:93-118 | In exact arithmetic every seed opens and closes at the base price, and is sound if and only if that price is not negative |
| Aggregators.SeedBarsAre | cmd/mock-broker/engine/bars.go:93-118 | Seed i of sixty is stamped 60 - i minutes before, opens and closes at the price, with high 1.002 and low 0.998 times it and volume 50,000 |
| Aggregators.KeptSoundExactlyWhen | cmd/mock-broker/engine/bars.go:93-170 | The newest n bars of the history have open and close between low and high if and only if the opening price is not negative or the ticks alone fill them |
| Aggregators.BarAggregator.HistorySoundExactlyWhen | cmd/mock-broker/engine/bars.go:93-170 | The bars a builder holds are sound if and only if the opening price is not negative or more minutes than the capacity have been recorded |
| Aggregators.TimeframesCompose | cmd/mock-broker/engine/bars.go:211-264 | 5Min then 1Hour then 1Day equals 1Day directly, and likewise for the shorter chains |
| Aggregators.TimeframeOfTicks | cmd/mock-broker/engine/bars.go:121-264 | A timeframe's bars are the ticks themselves grouped by the larger bucket of their minute, with their total volume |
| BrokerBooks.RevalueValues | cmd/mock-broker/ledger/orders.go:210-225 | Revaluation establishes equity = cash + sum of qty x price and buying power = 2 x cash, and moves neither cash nor cost basis |
| BrokerBooks.AverageBetween | cmd/mock-broker/ledger/orders.go:143-150 | The new average price of a buy lies between any bounds of the old average and the fill price |
| BrokerBooks.NoClamp | cmd/mock-broker/ledger/orders.go:180-184 | For a position at average cost a covered sale leaves (qty - sold) x average, never negative: the clamp to zero is never taken |
| BrokerBooks.SellFrom | cmd/mock-broker/ledger/store.go:321-338 | A limit sale opens no position and changes no average entry price |
| BrokerBooks.MarketSell | cmd/mock-broker/ledger/orders.go:168-195 | Nor does a market sale, clamped or not |
| BrokerBooks.FillsAgree | cmd/mock-broker/ledger/store.go:289-338 | With replenishment off the limit fill and the market fill at one price happen together and leave the same order, cash and positions, before and after revaluation, but for the previous day's price of a new position |
| BrokerAccounts.BuyKeeps | cmd/mock-broker/ledger/orders.go:112-157 | A covered buy keeps the order, cash, share and basis logs of an account, and its average costs if they held |
| BrokerAccounts.SellKeeps | cmd/mock-broker/ledger/store.go:321-338 | So does a covered sale, with its dropped dust accounted for |
| BrokerAccounts.MarketSellKeeps | cmd/mock-broker/ledger/orders.go:159-196 | So does a market sale, with what its clamp adds to the basis accounted for |
| BrokerAccounts.MarketSellBasisExactlyWhen | cmd/mock-broker/ledger/orders.go:180-189 | A market sale keeps cash + basis explained without a clamp term if and only if it is not clamped: it leaves no more than dust, or no negative basis |
| BrokerAccounts.AddKeeps | cmd/mock-broker/ledger/orders.go:25-45 | So does a new order that has not filled |
| BrokerAccounts.CancelKeeps | cmd/mock-broker/ledger/store.go:202-229 | So does canceling an order that has not filled |
| BrokerAccounts.DepositKeeps | cmd/mock-broker/ledger/store.go:61-100 | So does cash from outside, counted as contributed |
| BrokerAccounts.RepriceKeeps | cmd/mock-broker/ledger/store.go:232-253 | So does any movement of prices and valuations |
| BrokerAccounts.SeedKeepsLog | cmd/mock-broker/ledger/store.go:126-134 | Setting any position from outside keeps the order, cash, share and basis logs |
| BrokerAccounts.SeedKeepsExactlyWhen | cmd/mock-broker/ledger/store.go:126-134 | It keeps all positions at average cost if and only if the position has positive quantity and price and basis = qty x average |
| BrokerAccounts.BuyEquity | cmd/mock-broker/ledger/orders.go:112-157 | A buy trades cash for value, but for marking the shares already held to the fill price |
| BrokerAccounts.SellEquity | cmd/mock-broker/ledger/orders.go:159-196 | A sale trades value for cash, but for the same re-marking and the value of dropped dust |
| BrokerAccounts.MarketFillEquity | cmd/mock-broker/ledger/orders.go:103-225 | After revaluation a market fill moves equity only by re-marking, by a top-up and by dropped dust |
| BrokerRuns.StepKeeps | cmd/mock-broker/ledger/store.go:54-345 | Every operation, any seeding included, keeps every account's identities, whatever the iteration order |
| BrokerRuns.RunKeeps | cmd/mock-broker/ledger/store.go:54-345 | So does every run from the empty store |
| BrokerRuns.LedgerIsItsLog | cmd/mock-broker/ledger/orders.go:103-196 | Over every run, with any positions set from outside, cash = what came from outside + what the filled orders moved, and is never negative; shares = seeded + bought - sold - dust of at most 0.00001 per closed position |
| BrokerRuns.AveragedExactlyWhen | cmd/mock-broker/ledger/store.go:126-134 | An account's tally is flagged as averaged if and only if every position set in it from outside was at average cost |
| BrokerRuns.BasisIsItsLog | cmd/mock-broker/ledger/orders.go:103-196 | Over every run, any seeds included, cash + total cost basis = contributions + realized gain - basis of dropped dust + clamped basis |
| BrokerRuns.ClampedExactlyWhen | cmd/mock-broker/ledger/orders.go:180-184 | Nothing has been clamped in an account if and only if none of its market sales left shares with a negative basis |
| BrokerRuns.SelfFinancing | cmd/mock-broker/ledger/orders.go:103-196 | Over every run cash + total cost basis = contributions + realized gain - basis of dropped dust if and only if none of the account's market sales was clamped |
| BrokerRuns.AveragedNeverClamps | cmd/mock-broker/ledger/orders.go:180-184 | None is in an account whose own seeds were all at average cost |
| BrokerRuns.HeldAtAverageCost | cmd/mock-broker/ledger/orders.go:127-189 | In such an account every held position has positive quantity and basis = qty x average, and the average lies between the lowest and highest buy since it opened |
| BrokerRuns.RunLists | cmd/mock-broker/ledger/orders.go:25-46 | In every run every order of the order map is in some account's list |
| BrokerRuns.OrdersInOrder | cmd/mock-broker/ledger/store.go:256-345 | Every order of a run is in exactly one account's list, and is filled in full within its limit or not at all |
| BrokerRuns.SweepOneTouches | cmd/mock-broker/ledger/store.go:256-345 | One visit of the matcher moves no other order, no finished order and no account but the owner's |
| BrokerRuns.FinishedIsFinal | cmd/mock-broker/ledger/store.go:202-345 | No operation changes any field of a filled or canceled order |
| BrokerRuns.ExecutesOnce | cmd/mock-broker/ledger/store.go:202-345 | In every run with fresh identifiers no order fills twice, and none fills after it is canceled |
| BrokerValuations.OpenValuesExactlyWhen | cmd/mock-broker/ledger/store.go:74-100 | Opening an account values it if and only if the market values given match its positions |
| BrokerValuations.SeedDrifts | cmd/mock-broker/ledger/store.go:126-134 | Setting a position leaves the balances and takes its worth, less the worth it replaces, out of the valuation |
| BrokerValuations.SeedValuedExactlyWhen | cmd/mock-broker/ledger/store.go:126-134 | A valued account stays valued if and only if the position is worth what it replaces |
| BrokerValuations.ReplenishValues | cmd/mock-broker/ledger/store.go:61-72 | A replenishment values its account, whatever the state before |
| BrokerValuations.SubmitValues | cmd/mock-broker/ledger/orders.go:10-46 | An order placed values its account, whatever the state before; a refused one moves no account, and no other account moves |
| BrokerValuations.FillLimitValues | cmd/mock-broker/ledger/store.go:286-343 | So does a limit fill; an order the account cannot cover moves nothing |
| BrokerValuations.SweepValues | cmd/mock-broker/ledger/store.go:256-345 | A check of the limit orders values every account it fills in and moves no other, in every visiting order |
| BrokerValuations.RepriceValues | cmd/mock-broker/ledger/store.go:232-253 | Repricing values every account, whatever the state before |
| BrokerValuations.StepValues | cmd/mock-broker/ledger/store.go:54-345 | Any operation that rederives an account's balances leaves it valued, whatever the state before |
| BrokerValuations.Untouched | cmd/mock-broker/ledger/store.go:54-345 | An account neither revalued nor opened nor seeded by an operation keeps its book |
| BrokerValuations.StepDrifts | cmd/mock-broker/ledger/store.go:54-345 | How any operation moves the gap between any account's equity and its holdings; buying power stays twice the cash |
| BrokerValuations.StepKeepsValuedExactlyWhen | cmd/mock-broker/ledger/store.go:54-345 | A valued account stays valued through an operation if and only if that brings in nothing unmatched |
| BrokerValuations.RunDrifts | cmd/mock-broker/ledger/store.go:54-345 | At every point of every run buying power = 2 x cash and equity = cash + positions + what openings and seedings have left outstanding |
| BrokerValuations.RunValuedExactlyWhen | cmd/mock-broker/ledger/store.go:54-345 | An account is valued at a point of a run if and only if nothing is outstanding for it |
| BrokerValuations.ValuedSinceRevalued | cmd/mock-broker/ledger/store.go:54-345 | It is valued from any revaluation on until the next opening or seeding of it |
| BrokerStores.Store.constructor | cmd/mock-broker/ledger/store.go:42-51 | A new store is empty, with replenishment off |
| BrokerStores.Store.SetAutoReplenish | cmd/mock-broker/ledger/store.go:54-58 | Changes the switch and nothing else |
| BrokerStores.Store.ReplenishCash | cmd/mock-broker/ledger/store.go:61-72 | Adds the amount to cash and revalues, or reports a missing account and changes nothing |
| BrokerStores.Store.CreateAccount | cmd/mock-broker/ledger/store.go:74-100 | Derives the balances from cash and market values, keeps positions that are there, generates a missing identifier |
| BrokerStores.Store.SetPosition | cmd/mock-broker/ledger/store.go:126-134 | Replaces one position of one account |
| BrokerStores.Store.MarkPositions | cmd/mock-broker/ledger/orders.go:211-219 | The loop, in any map order, marks every position once and sums their market values |
| BrokerStores.Store.RecalculateAccountValuation | cmd/mock-broker/ledger/orders.go:210-225 | The account's book becomes its revaluation, nothing else changes |
| BrokerStores.Store.CreateOrder | cmd/mock-broker/ledger/orders.go:10-46 | The recorded order is the request's symbol, quantity, limit price, side and type; a market "buy" adds exactly its quantity at the ask (else the bid) for quantity x price, a "sell" the reverse at the bid (else the ask), any other type moves no cash and no share; each error is returned exactly under its condition and changes nothing of the account or the orders |
| BrokerStores.Store.PlaceOrder | cmd/mock-broker/ledger/orders.go:14-45 | Checks, market execution, recording and revaluation are those of the specification step |
| BrokerEffects.OrderMeans | cmd/mock-broker/ledger/orders.go:10-46 | The specification step does exactly what `Ordered` states of the request, the quote and the account before and after |
| BrokerEffects.LimitMeans | cmd/mock-broker/ledger/store.go:256-345 | A visit of the matcher fills exactly an accepted limit order whose price is crossed and which the account covers, a buy at the ask and a sell at the bid, and moves nothing else |
| BrokerEffects.RevalueMeans | cmd/mock-broker/ledger/orders.go:210-225 | Revaluation marks every position at quantity x current price and derives all balances, and moves no cash, quantity, basis or price |
| BrokerEffects.RepriceMeans | cmd/mock-broker/ledger/store.go:232-253 | Repricing sets exactly the symbols with a positive price to it, with their change of the day, and marks the account |
| BrokerEffects.CancelMeans | cmd/mock-broker/ledger/store.go:202-229 | A cancellation succeeds exactly for an order that exists and is neither filled nor canceled, and changes its status and times only |
| BrokerEffects.OpenMeans | cmd/mock-broker/ledger/store.go:74-100 | The opened account's balances from the given cash and market values, positions already there kept |
| BrokerEffects.ReplenishMeans | cmd/mock-broker/ledger/store.go:61-72 | The amount is added to cash and the account valued, or the missing account reported |
| BrokerStores.Store.ExecuteMarketOrder | cmd/mock-broker/ledger/orders.go:94-101 | Fills by side, or fails and leaves the store as it was |
| BrokerStores.Store.ExecuteMarketBuy | cmd/mock-broker/ledger/orders.go:103-157 | The account's new book and the filled order are the specified ones, the top-up included |
| BrokerStores.Store.ExecuteMarketSell | cmd/mock-broker/ledger/orders.go:159-196 | The same for a sale, its clamp and dust rule included |
| BrokerStores.Store.CancelOrder | cmd/mock-broker/ledger/store.go:202-229 | Cancels exactly an order that exists and is neither filled nor canceled; otherwise the matching error and no change |
| BrokerStores.Store.UpdateAccountValuations | cmd/mock-broker/ledger/store.go:232-253 | Both loops, in any map order, reprice and revalue every account exactly once, each as `RepricedIn` states |
| BrokerStores.Store.CheckLimitOrders | cmd/mock-broker/ledger/store.go:256-345 | The loop is a sweep that visits every order exactly once, in some order |
| BrokerStores.Store.CheckLimitOrder | cmd/mock-broker/ledger/store.go:256-345 | One visit fills the order in the account whose list holds it, or changes nothing |
| BrokerStores.Store.FillLimitOrder | cmd/mock-broker/ledger/store.go:286-343 | The fill, if the account covers it: book, order record and revaluation |
| Banks.LedgerStore.constructor | cmd/mock-bank/ledger/store.go:34-44 | A store over the given accounts, without transfers |
| Banks.LedgerStore.CreateTransfer | cmd/mock-bank/ledger/store.go:152-211 | Each error exactly under its condition; a transfer is accepted exactly if it is no debit or the available balance covers it, recorded Pending as given, a debit lowering only that account's available balance by its amount; an uncovered debit is recorded Failed with R01 and moves no balance |
| Banks.LedgerStore.UpdateTransferStatus | cmd/mock-bank/ledger/store.go:257-308 | Each error exactly under its condition; otherwise the record takes the target status, its return code and settlement time by target, and every account's two balances move exactly by the settlement, the released hold or not at all |
| Banks.UpdateMeans | cmd/mock-bank/ledger/store.go:257-308 | The specification step does exactly that, account by account |
| Banks.LedgerStore.GetPendingTransfers | cmd/mock-bank/ledger/store.go:242-254 | Exactly the pending and posted transfers, each once, in any order |
| Banks.StepConserves | cmd/mock-bank/ledger/store.go:152-308 | No operation changes the sum of current balances |
| Banks.RunConserves | cmd/mock-bank/ledger/store.go:152-308 | Nor does any run of transfers and arbitrary status updates |
| Banks.HoldsExactlyWhen | cmd/mock-bank/ledger/store.go:257-308 | A step keeps current - available - held debits of every account if and only if it does not push a debit that is no longer held into pending, posted or settled |
| Banks.RunHolds | cmd/mock-bank/ledger/store.go:152-308 | Over every run of such steps the gap of an account is its opening gap plus its held debits |
| Banks.RunHoldsExactlyWhen | cmd/mock-bank/ledger/store.go:152-308 | A run with fresh identifiers leaves every account's gap explained by its held debits if and only if each of its steps keeps the holds: no later step repairs a break |
| Banks.NoOverdraft | cmd/mock-bank/ledger/store.go:152-308 | Over hold-keeping runs a customer account that opens without overdraft never shows a negative balance |
| Banks.RunReserve | cmd/mock-bank/ledger/store.go:257-308 | Over every run, any status updates included, an account's reserve falls by exactly the debits pushed out of hold |
| Banks.OverdrawnExactlyWhen | cmd/mock-bank/ledger/store.go:152-308 | Over every such run a customer's available balance never goes negative, and the current one does if and only if those debits exceed opening reserve + available + held |
| Banks.LateSettlementOverdraws | cmd/mock-bank/ledger/store.go:281-303 | Returning a debit and settling it twice takes a customer account of 5 to -5 |
| Banks.CustodyExactlyWhen | cmd/mock-bank/ledger/store.go:281-296 | A step keeps custody = opening + settled debits - settled credits if and only if it touches no settled transfer and settles none of custody's own |
| Banks.StepCustody | cmd/mock-bank/ledger/store.go:281-296 | A step moves custody, less what settled transfers explain, by exactly the amounts of a settled transfer touched again and of custody's own settled |
| Banks.RunCustody | cmd/mock-bank/ledger/store.go:152-308 | Over every run of steps that keep it, custody is explained by the settled transfers |
| Banks.RunCustodyMoves | cmd/mock-bank/ledger/store.go:152-308 | Over every run, any status updates included, custody is explained but for the sum of the unexplained updates |
| Settlement.SettlementEngine.constructor | cmd/mock-bank/engine/engine.go:24-36 | Both delays are twice the tick interval, which has a default |
| Settlement.SettlementEngine.SetDelays | cmd/mock-bank/engine/engine.go:39-42 | Replaces both delays |
| Settlement.SettlementEngine.VisitOne | cmd/mock-bank/engine/engine.go:81-103 | Issues the update the snapshot record is due for, or none |
| Settlement.SettlementEngine.TickOnce | cmd/mock-bank/engine/engine.go:76-104 | A tick visits every transfer in flight at its snapshot exactly once and decides from the snapshot, whatever other operations do to the store between its updates |
| Settlement.TickAlone | cmd/mock-bank/engine/engine.go:76-104 | With none between them it is the undisturbed tick |
| Settlement.SettlementEngine.SimulateSettlement | cmd/mock-bank/engine/engine.go:107-116 | A settlement update, without waiting for the delays |
| Settlement.SettlementEngine.SimulateReturn | cmd/mock-bank/engine/engine.go:119-131 | A return update, with the default code for an empty one |
| Settlement.TickTransfers | cmd/mock-bank/engine/engine.go:76-104 | Every visited transfer advances by what its snapshot record is due for, the others stay, in every visiting order |
| Settlement.NeverEarly | cmd/mock-bank/engine/engine.go:81-96 | At every point of a run nothing is posted before the post delay or settled before both delays |
| Settlement.OnlyForward | cmd/mock-bank/engine/engine.go:76-104 | Records only move forward, and failed, returned, cancelled or settled ones never change |
| Settlement.PassesThroughPosted | cmd/mock-bank/engine/engine.go:81-96 | Between pending and settled there is a point of the run where the transfer is posted |
| Settlement.SettlesOnce | cmd/mock-bank/engine/engine.go:76-104 | A transfer settles in at most one round of a run |
| Settlement.TwoTicksSettle | cmd/mock-bank/engine/engine.go:76-104 | Two successive ticks at or after the full delay settle whatever was in flight |
| Settlement.TwoTicksInRun | cmd/mock-bank/engine/engine.go:76-104 | So do any two ticks of a run at or after the full delay, with new transfers and ticks before, between and after them |
| Settlement.TickIsSafe | cmd/mock-bank/engine/engine.go:76-104 | A tick conserves money, keeps all holds exact and custody explained |
| Settlement.StaleSnapshotBreaksHold | cmd/mock-bank/engine/engine.go:76-104 | A return between the snapshot and the tick's update takes the hold out of balance by the amount |
| Settlement.DisturbedTickSafeExactlyWhen | cmd/mock-bank/engine/engine.go:76-104 | With other hold-keeping operations anywhere between a tick's snapshot and its updates, all holds are exact at the end if and only if none of those finished a due debit of the snapshot before the tick's update of it |
| CareCache.StepExact | internal/handler/care_schedule_handlers.go:28-232 | No step takes coherence from an entry but a fill of a value that is not the backend's outside every writer's window |
| CareCache.RunExact | internal/handler/care_schedule_handlers.go:28-232 | Over any run an entry coherent at first stays so at every point if and only if no fill of it is such |
| CareCache.StepKeepsInv | internal/handler/care_schedule_handlers.go:28-232 | Every disciplined step of any process keeps the protocol invariant of an entry whose id no request carries for another purpose |
| CareCache.DisciplinedRunCoherent | internal/handler/care_schedule_handlers.go:28-232 | Along every disciplined interleaving such an entry equals the backend whenever no writer of it is between its update and its delete |
| CareCache.AtomicStep | internal/handler/care_schedule_handlers.go:69-171 | In any run with both pairs atomic a re-check is always fresh when filled and a bump writes over the version it read |
| CareCache.AtomicRunCoherent | internal/handler/care_schedule_handlers.go:28-232 | With both pairs atomic and versions outliving readers, every interleaving of any number of readers and writers keeps such an entry coherent |
| CareCache.OwnAliasBreaks | internal/handler/care_schedule_handlers.go:69-81 | A reader whose alias is the feline's own id leaves a stale entry with both pairs atomic, nothing expiring and no writer active |
| CareCache.ForeignAliasBreaks | internal/handler/care_schedule_handlers.go:69-81 | A reader that carries another feline's id as alias or path parameter caches its own schedule as the other's |
| CareCache.CoherentExactlyWhen | internal/handler/care_schedule_handlers.go:14-232 | Atomic runs over a set of requests, with versions outliving readers, all keep an id's entry coherent at every point if and only if no request carries the id as alias or foreign path parameter |
| CareCache.ReadAloneCaches | internal/handler/care_schedule_handlers.go:28-94 | An uninterrupted read that misses caches the backend's schedule under the canonical id, the path parameter and the alias, and changes nothing else |
| CareCache.HitChangesNothing | internal/handler/care_schedule_handlers.go:37-50 | A hit changes nothing |
| CareCache.UpdateAloneDrops | internal/handler/care_schedule_handlers.go:136-171 | An uninterrupted update stores the new schedule, raises the version by one and drops the entries under the canonical id, the path parameter, the alias and the updated record's id, and no other |
| CareCache.FailuresChangeNothing | internal/handler/care_schedule_handlers.go:62-66 | A refused update and a failed fetch change neither backend, cache nor versions |
| CareCache.SplitFillBreaks | internal/handler/care_schedule_handlers.go:69-81 | If a whole update may run between re-check and fill, a stale entry stays with no writer active |
| CareCache.ExpiredVersionBreaks | internal/handler/care_schedule_handlers.go:52-55 | The same if a version may expire under a reader |
| CareCache.SplitBumpBreaks | internal/handler/care_schedule_handlers.go:155-171 | The same if a bump may lower the version |
| PdfFiles.BuildPdf | pkg/reporting/customer_statement_pdf.go:9-57 | The bytes appended are the specified document, and the reader gets the stream back from them |
| PdfFiles.WriteObjects | pkg/reporting/customer_statement_pdf.go:11-43 | The buffer holds header and seven objects, and the offsets array the start of each |
| PdfFiles.RoundTrip | pkg/reporting/customer_statement_pdf.go:9-57 | From startxref to the table to entry 4 to its Length, a reader recovers exactly the bytes of every stream |
| PdfFiles.TableComplete | pkg/reporting/customer_statement_pdf.go:45-56 | All seven entries lead from the end of the file to their objects if and only if the last offset is below 10^10 |
| PdfFiles.EntryPointsWhen | pkg/reporting/customer_statement_pdf.go:45-50 | Entry i does so if and only if its offset fits ten digits, given that the earlier ones do |
| PdfFiles.HeaderPlaced | pkg/reporting/customer_statement_pdf.go:15-43 | At the recorded offset of object i stand the bytes "i 0 obj" |
| PdfFiles.EntryReads | pkg/reporting/customer_statement_pdf.go:48-50 | A padded entry reads back its offset when it fits ten digits and is rejected otherwise |
| PdfFiles.ValueDecimal | pkg/reporting/customer_statement_pdf.go:29-31 | Reading a printed decimal number gives the number |
| PdfStrings.EscapeIsPerCharacter | pkg/reporting/pdf.go:11-16 | The three replace passes equal one escape per character |
| PdfStrings.EscapeLength | pkg/reporting/pdf.go:11-16 | The text grows by one for each parenthesis and backslash, and is unchanged without any |
| PdfStrings.EscapeScans | pkg/reporting/pdf.go:11-16 | For every text and every continuation the scanner stops at exactly the writer's closing parenthesis and reads the text with end-of-line markers normalised |
| PdfStrings.EscapeRoundTrip | pkg/reporting/pdf.go:11-16 | It reads the text itself if and only if that has no carriage return |
| Versioning.ParseVendorCandidates | pkg/versioning/versioning.go:106-134 | A header written from vendor ranges, with any spaces around commas and semicolons and an optional quality in either case, is read as exactly those versions "v" + digits, qualities (1 if none parses) and places; of any header the loop lists the vendor ranges in order, and the flag says whether there is one |
| Versioning.ParsesBack | pkg/versioning/versioning.go:106-134 | The same of the specification function, for every list of ranges |
| Versioning.TrimMeans | pkg/versioning/versioning.go:112 | Trimming takes off spaces at both ends, all of them, and nothing else |
| Versioning.NormalizeMeans | pkg/versioning/versioning.go:165-171 | Digits with or without a v of either case, among spaces, name the version "v" + digits |
| Versioning.CharactersMean | pkg/versioning/versioning.go:165-171 | Which ASCII characters are spaces, and how capitals are lowered |
| Versioning.DefaultsMean | pkg/versioning/versioning.go:40-52 | An empty configuration defaults to and supports exactly "v1" |
| Versioning.ReadQuality | pkg/versioning/versioning.go:118-127 | The loop over parameters keeps the last quality that parses, 1 by default |
| Versioning.LastQualityCounts | pkg/versioning/versioning.go:118-127 | Of several quality parameters, in either case and among spaces, the last that parses counts, and parameters of other names never do |
| Versioning.SelectVersionCandidate | pkg/versioning/versioning.go:139-161 | The scan of the sorted list, with its fallback to the head, is the specified selection |
| Versioning.NegotiateVersion | pkg/versioning/versioning.go:83-101 | An explicit header decides alone; otherwise the Accept header does, with the default for none |
| Versioning.StableSortSorts | pkg/versioning/versioning.go:141-147 | The sorted list is ordered by quality, then place, and is a permutation |
| Versioning.CandidatesInOrder | pkg/versioning/versioning.go:106-134 | Candidates carry strictly increasing places |
| Versioning.SelectIsBest | pkg/versioning/versioning.go:139-161 | Selection succeeds if and only if some candidate is supported with positive quality, and names the one of greatest quality, the earliest on ties; a rejection names the overall leader |
| Versioning.AcceptIsBest | pkg/versioning/versioning.go:83-161 | The same from the text of the Accept header |
| Versioning.OtherRangesDoNotMatter | pkg/versioning/versioning.go:83-161 | Inserting ranges of other media types at the front, the end or anywhere between changes no outcome |
| Deposits.MonthLater | cmd/core-invest-api/grpc_orders_deposits.go:201-206 | A calendar month later is later by exactly the current month's number of days, overflow into the next month included |
| Deposits.DaysLater | cmd/core-invest-api/grpc_orders_deposits.go:201-206 | Adding days to a date adds exactly as many times 24 hours |
| Deposits.MonthLengths | cmd/core-invest-api/grpc_orders_deposits.go:201 | The lengths of the twelve months, with the Gregorian leap rule |
| Deposits.InstantCounts | cmd/core-invest-api/grpc_orders_deposits.go:192 | Instants start at the zero time, and each calendar day is 24 hours after the one before, across months and years |
| Deposits.NextChargeIs | cmd/core-invest-api/grpc_orders_deposits.go:201-206 | The next charge is exactly 7 days on for weekly, 14 for biweekly and the current month's number of days for anything else |
| Deposits.ClaimedMeans | cmd/core-invest-api/grpc_orders_deposits.go:194-221 | A batch holds only deposits that are active or without status and whose charge is unset or has come, as many as it takes, none before one passed over |
| Deposits.NextChargeGap | cmd/core-invest-api/grpc_orders_deposits.go:201-206 | The next charge is 7 days on for weekly, 14 for biweekly and at least 28 otherwise |
| Deposits.DepositService.ClaimDue | cmd/core-invest-api/grpc_orders_deposits.go:187-223 | Claims the first batchSize due deposits of its listing, in listing order, returns each with the date 7 days, 14 days or a calendar month on, and moves the stored schedule of those whose update succeeded, whatever other calls do to the schedule meanwhile |
| Deposits.ClaimAlone | cmd/core-invest-api/grpc_orders_deposits.go:194-221 | With no other call about, the schedule afterwards is the listing with exactly the successful claims moved, wherever the loop stopped |
| Deposits.ScheduleMeans | cmd/core-invest-api/grpc_orders_deposits.go:194-221 | So each successfully claimed deposit is stored with exactly that date to the microsecond, and every other one as it was |
| Deposits.LastUpdateStays | cmd/core-invest-api/grpc_orders_deposits.go:207 | Among other calls a successful claim's date stays unless one of them updates the deposit after its turn |
| Deposits.DepositService.AdvanceSchedule | internal/repository/core_invest/streams_orders_pgx.go:270-279 | Sets the date of the one identifier, to the microsecond, or fails and changes nothing |
| Deposits.ClaimsAreSpaced | cmd/core-invest-api/grpc_orders_deposits.go:187-223 | Over any run at non-decreasing times two claims of one deposit are at least 7, 14 or 28 days apart in whole microseconds, if the first one's update succeeded |
| Deposits.DueInsideGap | cmd/core-invest-api/grpc_orders_deposits.go:194-221 | At any later point of a run and any time inside the gap after a claim, the deposit is due if and only if no claim of it so far, the first one included, has moved its schedule |
| Deposits.StoredGap | scripts/init.sql:440-450 | To the microsecond, too, the stored date is 7 or 14 days, or at least 28, after the claim |
| Deposits.DueAgainFrom | cmd/core-invest-api/grpc_orders_deposits.go:195-207 | A claimed deposit is due again at a time if and only if that is at or after the claim's microsecond 7 days, 14 days or the claim's month's number of days later |
| Deposits.DueAfterOneCall | cmd/core-invest-api/grpc_orders_deposits.go:195-207 | Right after its call a claimed deposit is due at a time inside the gap if and only if its update failed |
| Deposits.ClaimedTwice | cmd/core-invest-api/grpc_orders_deposits.go:207-218 | With failing updates any due deposit is claimed by two calls at any two times |
| Deposits.OnlyDatesChange | cmd/core-invest-api/grpc_orders_deposits.go:187-223 | A run changes nothing of a deposit but its date, and that only when a claim moves it |
| Deposits.DueAgain | cmd/core-invest-api/grpc_orders_deposits.go:194-221 | At the same instant exactly the unclaimed deposits and those whose update failed are still due |
| Deposits.ClaimDrains | cmd/core-invest-api/grpc_orders_deposits.go:194-221 | A claim takes the front of the due list and leaves exactly the rest |
| Deposits.CallsDrain | cmd/core-invest-api/grpc_orders_deposits.go:187-223 | Repeated calls at one instant claim consecutive, disjoint slices, and n calls drain the list if and only if n x batchSize reaches its length |
| Reloaders.StepKeepsInv | pkg/mtls/mtls.go:47-165 | Every step of every caller, and every rewrite whatever its mod time, keeps the protocol invariant |
| Reloaders.CacheNeverOlder | pkg/mtls/mtls.go:47-165 | In every run the cached contents of each file are never older than the recorded mod time's snapshot |
| Reloaders.ReturnsFresh | pkg/mtls/mtls.go:47-165 | A call returns for every file with unambiguous mod times contents at least as new as the file held when the call started; with no rewrite since, exactly the file's |
| Reloaders.FailuresLeaveCache | pkg/mtls/mtls.go:62-86 | Only a load that parses changes the cached value or the recorded mod times |
| Reloaders.LoadsExactlyWhen | pkg/mtls/mtls.go:65-81 | Under the write lock a call loads exactly if a mod time differs from the recorded one or nothing is cached; otherwise it returns the cached value and reads nothing |
| Reloaders.RepeatedModTimeGoesStale | pkg/mtls/mtls.go:47-165 | For every history of any number of files in which a mod time comes back, some run over it has a call that starts after that and returns what the file held in between |
| Reloaders.DistinctModsUnambiguous | pkg/mtls/mtls.go:50-54 | Mod times that never repeat, in any order, satisfy the condition |
| Reloaders.FreshExactlyWhen | pkg/mtls/mtls.go:47-165 | All runs over a history of the files are fresh at every point if and only if no mod time comes back with other contents than held since its first use (or a file is missing and no call returns) |

## Left out

Arithmetic and identifiers:

- Rounding of float64: money, prices, quantities and quality values are exact, and a division by zero gives 0 instead of an infinity or NaN.
- Overflow of 64-bit volumes and times.
- Order and transfer identifiers derived from the clock are assumed fresh.

Bars:

- Times of different locations: two equal instants in different time zones count as different buckets in the code, and the model has one time line, in nanoseconds since the zero time.
- The branches for a missing current bar: the constructor always sets one.
- GetLatestBar, GenerateHistoricalBars and the random price process: ticks are arbitrary inputs.

Broker:

- Account and order fields that no rule reads (account number, currency, status text, client order id, time in force) and trade-update broadcasting.
- The order record that the order map and an account's list share is one entry under one identifier; pointer identity itself is not modelled.
- Portfolio history, the list queries and the HTTP layer.

Bank:

- Transfer type, description, link tokens and webhooks; statuses are the six constants.
- Banks.LedgerStore.constructor: takes the seeded accounts as a parameter instead of listing the demo ones.
- Runs of ticks and openings take each tick as undisturbed; what other operations between a tick's updates do to the holds is stated for one tick (`DisturbedTickSafeExactlyWhen`).

Care-schedule cache:

- HTTP, JSON, ETags and authorisation; cached values are abstract, and a failing cache call is not modelled.
- A request carries whatever identifier and alias resolution returned for it, fixed for its whole life. The backend is keyed by the identifier passed to it, so two identifiers that the backend itself takes for one feline count as two.
- Coherence of entries under an alias: a read under an alias is not promised the backend's value.

PDF:

- Page layout and fonts: the content stream is an arbitrary byte string.
- The reader knows the writer's object syntax ("<< /Length " before the number) and parses no other dictionary.

Version negotiation:

- Case folding outside ASCII, and quality values that parse to NaN or infinity; the number parser is a parameter.
- Versioning.SelectVersionCandidate: the library's in-place stable sort is a stable insertion sort on a sequence, proved sorted and a permutation.
- The HTTP middleware around the negotiation.

Deposits:

- Runs of claims take each call as undisturbed; among other calls, what one call does is stated by itself (`ClaimDue`, `LastUpdateStays`).
- The database driver is taken to drop what a microsecond does not hold.
- Failing list queries and deposit fields that no rule reads.
- Time zones other than UTC, and the text form of the returned date, which drops fractions of a second.

Reloaders:

- Reloads are modelled as steps of a protocol instead of a class; the lock is the condition under which a step is enabled, and a rewrite replaces a file atomically.
- Parsing of certificates and the match of a certificate with its key: a load parses or does not.

Everything else (routers, gRPC plumbing, the saga, session and rate-limit packages, the simulation, the hardware model, the web front end) is glue or display code and would add only easy members.
