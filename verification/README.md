# An event-sourced exchange, modelled and proved

A trading simulator takes orders over REST, locks cash or shares for them, matches them in price-time
order, settles the trades, and writes every step to an append-only log from which it restarts. Four
representations of the same facts have to agree: what rests on the books, what the order repository says
remains, what the ledger has locked, and what the log would rebuild. This project models the code that
keeps them together and proves that they do agree, over every run, and where they do not, exactly when.

## How it is laid out

The model has two layers. The *values* say what the code computes; the theorems about whole runs are
about them. The *classes* do it the way the code does, in place, with the code's own loops and statement
order; every method is proved to carry out its value-level function.

| part | values and theorems | classes and loops |
|---|---|---|
| matching engine | `PriceTime`, `Matching` | `PriceSides`, `OrderBooks`, `Matchers`, `Depths` |
| ledger | `Ledger`, `LedgerLaws`, `CostBasis`, `Sums` | `AccountRecords`, `AccountServices` |
| orders | `Domain`, `Orders` | `OrderRecords`, `OmsServices` |
| the exchange, order against order | `Exchange`, `Drains`, `LogShape`, `Answers`, `FillReports` | `Apps` |
| agreement over runs | `Agreement`, `Settling`, `Runs`, `Midway`, `ExactLocks`, `Residues`, `Conservation`, `FairPrice`, `Shapes` | |
| restart from the log | `Projection`, `ReplayRuns`, `ReplayLaws`, `Rebuild`, `BookRebuild`, `Restarts`, `Unnamed`, `RestartBehaviour`, `Snapshots`, `SnapshotRestarts`, `SnapshotRuns` | `ColdStarts`, `App.ColdStart` |
| order against market | `MarketMode`, `MarketRuns`, `MarketFills`, `MarketLedger`, `MarketShapes`, `MarketReplay` | `MarketApps` |
| realised profit | `RealizedPnl`, `ShortSales`, `WinsAndLosses` | `RealizedPnl.ComputeRealizedPnl` |
| runs that break what is expected | `Counterexamples`, `Shapes` | |
| event log files | `EventLog` | `EventLog.EventWriter`, `EventLog.LoadAll` |

A run is a list of commands (cash in, cash out, shares in, place, cancel), each a REST call together with
the drain of the OMS queue it triggers. The methods of the classes ask for no more than the code does; where
the code raises, they return the exception. `WellFormed` is what the REST boundary guarantees: positive
amounts, fresh order ids. `SaneRun` restricts the prices: the boundary does not check them, and
`SaneIsSafe` shows that these shapes are exactly the ones that can be let in without an overdraft when orders meet
orders. When orders meet the market, `SafeIsSafe` shows that exactly these BUY shapes can be let in, and any SELL.
Amounts are exact reals, and an order has one timestamp.

## What is proved false of the code, and exactly when it holds

Each of these is expected of the code and does not hold of it. For each there is a lemma with a run on which it
fails, and a lemma that says exactly when it holds.

- *Restart gives back the live order book* (src/app.py:461-535): an order rejected for lack of funds comes
  back as a resting order (`RejectedComesBack`), because only cancellations are consulted, and a LIMIT order
  without a price is lost (`UnpricedIsLost`). The rebuilt books are the live ones if and only if there is no
  such order (`RebuiltBooksAreLive`). This can be seen from outside: the restarted exchange goes on like the one
  that never stopped, under every continuation, under exactly that condition (`RestartBehavesExactly`); only a
  rejected BUY of the symbol with the empty name goes unnoticed, since nobody ever holds shares to sell it
  (`NobodyEverHolds`). Otherwise there is a continuation on which it raises, because a rejected order is filled (`PhantomRaises`),
  or writes other events.
- *A snapshot may replace the log before it* (src/app.py:591-622): snapshots drop order locks, so an order open
  at the snapshot and canceled later keeps its cash or shares for good (`OpenOrderIsLost`). It may if and only
  if no open order had anything reserved when the snapshot was taken, that is, if at most BUY orders limited to
  0 were open (`SnapshotExactly`). The books come back if and only if, further, no order from before the snapshot is
  still open and none placed since was rejected with a price or rests without one (`SnapshotBooks`). If nothing was open
  and the books come back, the exchange goes on like the one that never stopped, except that it does not answer a
  cancellation of an order from before the snapshot (`SnapshotRunsOn`).
- *The lock of a filled order is used up* (src/account/account.py:515-531): not for a BUY order in the
  order-against-order mode. A share offered at 1 and bought with a limit of 2 leaves 1 locked for good
  (`SavingIsStranded`, `ResidueIsStranded`). What stays locked can be told before the order is placed, from its
  terms and the book it meets (`LockForetold`). Nothing stays locked if and only if the order's limit is the
  price it is matched at and its symbol has no offer below that price when it is placed (`ResidueOnMovingClock`;
  `ResidueExactly` where stamps may be equal). A filled MARKET BUY that carries a price above 999999999 always
  leaves at least the difference (`DearMarketBuyStrands`). In the order-against-market mode the excess is
  returned (`BuyIsReleaseThenPay`).
- *Realised profit balances the books* (src/account/trading_analysis.py:205-233): a share sold before it is
  bought is not booked (`SoldFirst`). For every trade list, at any prices, the books balance if and only if what was
  asked for the shares sold short comes to nothing (`ProfitExactly`), where short is by how much more was sold than
  bought, at its highest. So they balance if nothing is ever oversold (`NoOversellBalances`), and only then if every
  sale is at a positive price (`ProfitWhenPaid`); at positive and negative prices they can balance all the same
  (`ShortButBalanced`).
- *The log of the order-against-market mode can be replayed* (src/account/account_projection.py:117-121): a fill
  there writes a trade but no settlement (`FillIsNotReplayed`). Replay gives the live accounts if and only if no
  order was ever filled (`MarketReplayExactly`).
- *No negative cash or shares* (src/account/account.py:253-383): a BUY at a negative price, a MARKET BUY with an
  explicit price below 999999999, or an offer at a negative price can overdraw (`NegativeBuy`,
  `PricedMarketBuy`, `NegativeOffer`). Safe shapes are characterised by `SaneIsSafe`. When orders meet the market the
  same BUY orders overdraw (`NegativeBid`, `PricedMarketBid`), and no others (`SafeIsSafe`).

## Model

| member | source | states |
|---|---|---|
| PriceTime.UpperBoundUnique | src/matching_engine/price_time_priority.py:49-60 | the insertion point of an entry is determined by the order alone, so bisection and linear search agree |
| PriceTime.QueueUnique | src/matching_engine/price_time_priority.py:24-37 | a side in price-time-arrival order is determined by which entries it holds |
| PriceTime.InsortQueue | src/matching_engine/price_time_priority.py:49-60 | the newest arrival joins behind everything of equal price and time, and the side stays in order |
| PriceSides.PriceSide.BisectRight | src/matching_engine/price_time_priority.py:49-60 | bisection finds the point behind every entry that does not come strictly later |
| PriceSides.PriceSide.Insert | src/matching_engine/price_time_priority.py:49-60 | the side afterwards is the old one with the entry at its place, still sorted; BUY prices are negated for sorting |
| PriceSides.PriceSide.Remove | src/matching_engine/price_time_priority.py:62-66 | takes out the first entry with the id and nothing else, and returns it |
| PriceSides.PriceSide.ReduceTop | src/matching_engine/price_time_priority.py:68-80 | replaces the best entry by one with the reduced quantity and every other field the same |
| PriceSides.PriceSide.PopTop | src/matching_engine/price_time_priority.py:82-83 | removes and returns the best entry |
| OrderBooks.OrderBook.AddBuy | src/matching_engine/order_book.py:29-31 | a BUY entry joins the bids, the asks are untouched |
| OrderBooks.OrderBook.AddSell | src/matching_engine/order_book.py:33-35 | a SELL entry joins the asks, the bids are untouched |
| OrderBooks.OrderBook.Cancel | src/matching_engine/order_book.py:37-42 | removes from the BUY side, from the SELL side only if the id is not on the BUY side, and returns exactly the entry it took out |
| OrderBooks.OrderBook.IsCrossable | src/matching_engine/order_book.py:53-60 | true exactly when both sides have a best entry and the bid reaches the ask |
| Exchange.FindMeans | src/matching_engine/matcher.py:179-187 | an entry is found if and only if one with the id is there; otherwise removing changes nothing |
| Matching.MatchKeepsBook | src/matching_engine/matcher.py:191-239 | the crossing loop ends uncrossed (with Match), keeps both sides sorted with positive quantities, and takes from each side exactly the quantity traded |
| Matching.SubmitIsSweep | src/matching_engine/matcher.py:78-105 | submitting into an uncrossed book is a greedy sweep of the opposite queue: the incoming order is one side of every trade and rests with exactly what is left |
| Matching.SweepFills | src/matching_engine/matcher.py:191-239 | the sweep fills exactly the smaller of the order's quantity and the whole crossing quantity opposite |
| Matching.SweepFrontFirst | src/matching_engine/matcher.py:191-239 | the sweep consumes a prefix of the opposite queue, every entry but the last one completely; what remains is the rest of that last entry, if any, and then the rest of the queue |
| Matchers.Matcher.SubmitOrder | src/matching_engine/matcher.py:64-105 | the books, the ids seen, the trades and the remain events afterwards are those of the specification; an id seen before trades nothing and changes nothing |
| Matchers.Matcher.MatchBook | src/matching_engine/matcher.py:191-239 | the in-place loop over the two tops produces the trades and the book of the recursive specification |
| Matchers.Matcher.CancelOrder | src/matching_engine/matcher.py:107-111 | removes the order from the one book of its symbol and tells whether an entry with the id was there; ids seen and pending events stay |
| Matchers.Matcher.DrainRemainEvents | src/matching_engine/matcher.py:115-119 | hands over and empties the pending events, changes nothing else |
| Matchers.Matcher.Restore | src/matching_engine/matcher.py:123-143 | puts a resting order back without crossing and remembers its id |
| Matchers.Matcher.Locate | src/matching_engine/matcher.py:179-187 | finds the first entry with the id on the given side |
| Depths.Aggregate | src/matching_engine/matcher.py:157-169 | one level per quoted price, best first, with the sum of quantities and the number of orders resting at that price |
| Depths.DepthUnique | src/matching_engine/matcher.py:147-175 | that description determines the depth of a side completely |
| Depths.BookSnapshot | src/matching_engine/matcher.py:147-175 | both sides of a symbol's book are aggregated so; an unknown symbol has no levels |
| OrderRecords.OrderRecord.Transition | src/oms/order_state_machine.py:14-40 | moves along the table and refuses every other move without changing the order |
| Orders.NoWayBack | src/oms/order_state_machine.py:14-40 | a transition only leads forward, so that a filled, canceled or rejected order goes nowhere, and changes the status alone |
| OrderRecords.OrderRecord.Fill | src/oms/oms_service.py:164-170 | adds the fill and moves to FILLED when the quantity is reached, from ROUTED to PARTIALLY_FILLED otherwise; if the move is refused the fill has been added all the same |
| OrderRecords.OrderRepository.Add | src/oms/order_repository.py:17-18 | the order is recorded under its id, in order of arrival |
| OmsServices.OmsService.PlaceOrder | src/oms/oms_service.py:81-142 | records the order, locks its funds and queues either acceptance and routing or the rejection, for want of cash exactly if it is a BUY that has no price or costs more than is available, for want of shares exactly if it is a SELL of more than are available; ledger, repository, queue and counters are given exactly, and an event seen before changes nothing |
| OmsServices.OmsService.CancelOrder | src/oms/oms_service.py:144-156 | unknown id, not cancelable and cancelable are told apart; only the last releases the lock, marks the order and reports it |
| OmsServices.OmsService.OnTradeExecuted | src/oms/oms_service.py:158-180 | fills the BUY order, then the SELL order, and queues one fill event for each with the state it left the order in; an event seen before changes nothing, and what is left behind when either fill is refused is given exactly |
| OmsServices.OmsService.OnMarketFill | src/oms/oms_service.py:182-205 | fills and reports the one order of a fill against the market, counts it, and says what a refused fill leaves behind |
| OmsServices.OmsService.DrainEvents | src/oms/oms_service.py:212-216 | hands over and empties the queue |
| AccountRecords.AccountRecord.LockOrder | src/account/account.py:262-296 | locks the cost of a BUY or the shares of a SELL under the order's id, or refuses: a BUY for want of cash exactly if it has no price or costs more than is available, a SELL for want of shares exactly if it offers more than are available |
| AccountRecords.AccountRecord.ReleaseLock | src/account/account.py:304-316 | gives a lock back to where it came from; without a lock nothing happens |
| AccountRecords.AccountRecord.ReduceOrderLock | src/account/account.py:515-531 | reduces a lock and drops it only when both its cash and its quantity are used up |
| AccountRecords.AccountRecord.ReduceBasis | src/account/account.py:355-360 | the cost basis after shares have left, for any quantity, or a division by zero exactly where the code divides by zero, with the account as it was |
| AccountRecords.AccountRecord.SettleMarketBuy | src/account/account.py:407-426 | pays from the locked cash, receives the shares, returns the excess and drops the lock |
| AccountRecords.AccountRecord.SettleMarketSell | src/account/account.py:427-450 | releases the shares, reduces the basis, receives the cash and drops the lock, for any quantity, or raises exactly when the basis cannot be reduced, with only the shares released |
| AccountServices.AccountService.LockFunds | src/account/account.py:253-296 | exactly one account, created if need be, changes, as a lock attempt changes it |
| AccountServices.AccountService.UnlockFunds | src/account/account.py:298-316 | exactly one account changes, as releasing the order's lock changes it |
| AccountServices.AccountService.DepositTo | src/account/account.py:206-213 | the deposit is available cash of that account |
| AccountServices.AccountService.WithdrawFrom | src/account/account.py:215-224 | takes available cash or raises and takes nothing |
| AccountServices.AccountService.DeleteAccount | src/account/account.py:247-249 | the account is gone, every other one is as it was and in its place, and the caller is told whether there was one |
| AccountServices.AccountService.SettleTrade | src/account/account.py:320-383 | for any quantity: cash goes from the buyer's locked part to the seller, shares from the seller's locked part to the buyer, with both cost bases and both locks, every other account untouched; or a division by zero, exactly when what the seller has left is positive and the code's divisor, what is left plus the quantity, is 0, with cash and shares moved but neither the seller's basis nor the locks reduced |
| AccountServices.SettleRecords | src/account/account.py:335-383 | the interleaved statements amount to a BUY leg and a SELL leg, one after the other when buyer and seller are the same object, or raise exactly when the basis cannot be reduced, leaving behind what was done up to there |
| AccountServices.AccountService.SettleMarketTrade | src/account/account.py:387-453 | the one account of a fill against the market changes by that fill, or the division by zero is reported and only the shares have been released |
| Ledger.BalancedNonNegative | src/account/account.py:117-128 | a balanced account has no negative amount, available or locked, of cash or of any symbol |
| LedgerLaws.LockKeepsBalance | src/account/account.py:253-296 | locking keeps an account balanced: what is locked is the sum of its order locks |
| LedgerLaws.ReleaseKeepsBalance | src/account/account.py:298-316 | releasing keeps it balanced |
| LedgerLaws.BuyLegKeepsBalance | src/account/account.py:338-352 | the buyer's side of a settlement within its lock keeps it balanced |
| LedgerLaws.SellLegKeepsBalance | src/account/account.py:340-360 | the seller's side of a settlement within its lock keeps it balanced |
| LedgerLaws.SaleKeepsCostPerShare | src/account/account.py:354-360 | a sale leaves the cost per share of what is left as it was |
| CostBasis.SettlementCosts | src/account/account.py:335-360 | between two accounts: the seller's cost per share stays what it was, and the buyer's basis grows by exactly what it paid |
| CostBasis.SelfTradeCosts | src/account/account.py:335-360 | an account that trades with itself: as many shares as before, and their cost per share moves towards the price, strictly but without reaching it, and stays exactly if it was the price |
| Settling.FillAccepted | src/oms/order_state_machine.py:14-40 | the state machine accepts every fill up to what remains, and the order stays open exactly if something remains |
| Settling.SettleAgrees | src/account/account.py:320-383 | a settlement at a price within the buyer's limit keeps ledger and order repository in agreement |
| Settling.CrossAgrees | src/app.py:228-246 | one crossing with its settlement keeps book, repository and ledger in agreement |
| Settling.LoopAgrees | src/app.py:228-246 | so does the whole trade-by-trade loop, and it never raises |
| Runs.PlaceKeepsInv | src/api/rest.py:364-366 | a placement, accepted or rejected, keeps the agreement and leaves every book uncrossed |
| Runs.CancelKeepsInv | src/api/rest.py:382-383 | a cancellation, effective or refused, does too |
| Runs.RunsAgree | src/app.py:174-258 | every run is carried out without a refused state transition, and book, repository and ledger agree after each command |
| Runs.NoOverdraft | src/account/account.py:253-383 | in every reachable state nothing is negative, and what is locked is exactly the sum of the account's order locks |
| Runs.CostBasisSound | src/account/account.py:346-360 | in every reachable state no cost basis is negative and a flat position has none |
| Runs.LiveIffResting | src/app.py:206-246 | an order is open exactly when one entry with its id rests on its side of its book, with exactly what remains of it |
| Midway.PlacementMidway | src/app.py:228-246 | between any two trades of a placement: all accounts balanced, and every order has on the final book plus in the pending trades exactly what it still has to trade, which is nothing once it is filled, canceled or rejected |
| ExactLocks.LocksAreExact | src/account/account.py:515-531 | the lock of every accepted BUY order that was not canceled holds limit times quantity less everything the log says it paid |
| ExactLocks.ResidueIsStranded | src/account/account.py:515-531 | what a filled BUY order did not spend stays locked under any further command |
| Residues.LockForetold | src/account/account.py:515-531 | what the lock of an accepted BUY order holds later follows from its quantity filled and the book it was placed on: its limit for its quantity, less its matching price for what is filled, plus what the offers it met were cheaper |
| Residues.ResidueExactly | src/matching_engine/matcher.py:199-210 | the lock of a filled BUY order is never negative, and it is used up if and only if its limit is its matching price and every offer it met on arrival was at that price or stamped no earlier |
| Residues.ResidueOnMovingClock | src/matching_engine/matcher.py:199-210 | on a moving clock: it is used up if and only if its limit is its matching price and no offer was below that price when it was placed |
| Residues.DearMarketBuyStrands | src/app.py:210-216 | a filled MARKET BUY that carried more than 999999999 leaves at least the difference locked |
| Counterexamples.SavingIsStranded | src/account/account.py:515-531 | a share offered at 1 and bought by an order limited to 2: the order is filled and 1 stays locked |
| Shapes.SaneIsSafe | src/app.py:210-216 | an order shape (side, type, price) can be admitted without any run overdrawing an account if and only if it is sane |
| Shapes.NegativeBuy | src/account/account.py:262-296 | one BUY at a negative price overdraws its account by the negative amount it locks |
| Shapes.PricedMarketBuy | src/account/account.py:262-296 | a MARKET BUY with an explicit price from 0 up to 999999999 overdraws its account in a run of four commands |
| Shapes.NegativeOffer | src/account/account.py:320-383 | an offer at a negative price overdraws its seller |
| MarketShapes.SafeIsSafe | src/app.py:323-393 | order against market: a shape can be admitted without any run overdrawing an account if and only if it is a SELL or a sane BUY |
| MarketShapes.PricedMarketBid | src/account/account.py:407-426 | a MARKET BUY priced below the ask it is filled at overdraws its account |
| Conservation.RunsConserve | src/account/account.py:298-383 | after any run whatever, self-trades included, total cash and total shares are exactly what was brought in |
| FairPrice.EveryTradeFair | src/matching_engine/matcher.py:199-210 | every trade of every run is within both limits and at the price of the order created first, which is reported as the maker |
| FairPrice.MakerPriceExactly | src/matching_engine/matcher.py:199-210 | on a clock that does not go back every trade executes at the price of the order that arrived first, the resting one, except that on equal stamps it is the buyer's |
| FairPrice.MakerPrice | src/matching_engine/matcher.py:199-210 | on a moving clock every trade executes at the price of the order that arrived first, the resting one |
| FairPrice.FirstComeFirstServed | src/matching_engine/price_time_priority.py:51-60 | on a clock that does not go back orders of one price are queued in order of arrival |
| LogShape.StepLog | src/app.py:174-258 | a command appends exactly these events, in this order, and the log never changes otherwise |
| LogShape.RemainderIsTrue | src/matching_engine/matcher.py:93-105 | an accepted placement reports a remainder exactly if the order then rests, with exactly what remains of it |
| LogShape.StepKeepsTerms | src/oms/order.py:17-35 | account, symbol, side, type, quantity, price and time of an order never change |
| Answers.LockMeans | src/account/account.py:253-296 | a lock is granted exactly if the account has what the order needs; then exactly that has moved from available to locked, under the order's id; otherwise the reason is want of cash for a BUY and want of shares for a SELL, and everything reads as before |
| Answers.PlacementAnswered | src/oms/oms_service.py:81-142 | a placement is logged as accepted if and only if a BUY has a price and its price times quantity is available, or the quantity of a SELL is; otherwise the log grows by exactly the placement and its rejection with the reason, and accounts and books read as before |
| Answers.PlacementTold | src/app.py:206-258 | an accepted placement writes its header, then every trade followed by its settlement between the owners of its two orders at its price and quantity, then at most one remainder, then the two fills of every trade, in order |
| Answers.MarketPlacementAnswered | src/oms/oms_service.py:81-142 | the same in the order-against-market mode |
| Answers.FundsAnswered | src/api/rest.py:549-618 | cash is taken out if and only if it is available; amount, account and event are exactly those of the command, and nothing else changes |
| Answers.CancelAnswered | src/oms/oms_service.py:144-156 | in an agreeing state an order is canceled if and only if it is on a book; then exactly its entry is gone, exactly what its lock reserved is available again, and nothing else has moved |
| Answers.MarketCancelAnswered | src/oms/oms_service.py:144-156 | in the order-against-market mode an order is canceled if and only if it is open, and its whole lock is given back |
| FillReports.FillsAddUp | src/oms/oms_service.py:158-180 | every reported fill is positive, its cumulative quantity is the sum of the reports so far and within the order, it says FILLED exactly if that is all of it, and the reports on an order add up to what is filled of it |
| Drains.PlaceIsDrain | src/app.py:174-204 | the placing step is intake by the OMS followed by the event-by-event drain |
| Drains.CancelIsDrain | src/app.py:193-198 | the canceling step is cancellation in the OMS followed by the drain that takes it off the book |
| Apps.App.SettleOne | src/app.py:228-258 | one trade published, counted, settled and its settlement published, or the exception; then the log, orders and ledger are exactly as the refused fill or the division by zero leaves them |
| Apps.App.RouteToMe | src/app.py:206-297 | submits what remains at the effective price, settles every trade in order and publishes the remain events; an exception leaves the books matched and the trades before it settled |
| Apps.App.ProcessOmsEvents | src/app.py:174-204 | the drain loop, for any queue: handles each queued event, then publishes the fills that arrived behind it; an exception leaves the events before it handled and what the failing one did up to there |
| Apps.App.Place | src/api/rest.py:335-368 | the object does exactly the placing step, for any placement, or returns the exception that step raises, with the intake done and the drain stopped at that event; from an agreeing state and for a sane placement it never raises and keeps the agreement |
| Apps.App.Cancel | src/api/rest.py:371-393 | an unknown id is refused, and so is anybody who neither owns the order nor is an administrator, both with nothing changed; for the others the object does exactly the canceling step; if the transition is refused the lock has been released all the same; the answer is 200 exactly if the order was open, otherwise 400, as the handler catches its own 403 and 409 |
| Apps.App.CashIn | src/api/rest.py:549-580 | event first, then the deposit |
| Apps.App.CashOut | src/api/rest.py:582-618 | refused before anything is published if not covered, otherwise event first, then the withdrawal |
| Apps.App.SharesIn | tests/replay/test_replay_deterministic.py:67-75 | shares handed to an account with their event |
| Apps.App.ColdStart | src/app.py:540-690 | rebuilds accounts, repository, books and ids seen from the snapshot, if any, and the events since, once; a second call changes nothing; an event that cannot be replayed stops it with that exception, the accounts replayed up to there and everything else untouched |
| AccountRecords.AccountRecord.ToSnapshot | src/account/account.py:177-193 | writes cash and exactly the positions that hold something |
| AccountRecords.AccountRecord.FromSnapshot | src/app.py:595-614 | a new account takes over exactly what was written |
| ColdStarts.RestoreSnapshot | src/app.py:591-614 | the accounts of a snapshot are read in order into whatever accounts are there, a repeated id being read over the earlier one |
| ColdStarts.AccountProjection.Apply | src/account/account_projection.py:41-146 | each event, account deletions included, changes the accounts as the replay function says, or raises what it raises and leaves behind what was done up to there |
| ColdStarts.AccountProjection.Replay | src/account/account_projection.py:60-64 | the replay loop computes the replay of the whole log, whatever is in it, or the exception of the first event that raises, with the events before it applied |
| ColdStarts.AccountProjection.FindAccountForOrder | src/account/account_projection.py:123-127 | the first account, in order of creation, that holds a lock for the order |
| Projection.FirstOwner | src/account/account_projection.py:123-127 | no account created earlier holds a lock for the order |
| ColdStarts.RestoreRepository | src/app.py:628-673 | statuses and filled quantities are taken from the events as they are, unknown ids are skipped and counted |
| ColdStarts.ScanLog | src/app.py:485-501 | placements in order, cancellations, and traded quantity per id |
| ColdStarts.RebuildOrderBook | src/app.py:503-533 | puts back, without matching, what is neither canceled nor used up and has a price, into whatever books are there, and marks exactly those ids seen |
| ReplayRuns.ReplayIsLive | src/account/account_projection.py:41-146 | replaying the log of any run gives every account exactly its live cash, positions, cost basis and order locks, and never aborts |
| ReplayLaws.DeletedIsGone | src/account/account_projection.py:148-150 | once its deletion is replayed an account is gone from table and listing; every other account is as it was, in the order it was in |
| ReplayLaws.LaterEventsAlone | src/account/account_projection.py:41-146 | for any log that places no order twice and settles no negative quantity afterwards: what a deleted account is later is what the later events that concern it make of nothing, whatever happened before or to others, and so it is if the later events are replayed alone |
| ReplayLaws.ReplayFollowsLog | src/account/account_projection.py:41-146 | replaying any log from any accounts leaves every account with what its updates and settlements since its last deletion add up to, of cash and of every symbol |
| ReplayLaws.AccountsFollowLog | src/account/account.py:320-383 | in every run every account owns exactly what the log says came to it, at the price and for the quantity of each settlement |
| ReplayLaws.StopsWhen | src/account/account_projection.py:60-64 | a replay stops exactly if somewhere more cash is taken out than is available, or a settlement divides by zero |
| Snapshots.SnapshotSuffices | src/app.py:591-622 | from a snapshot taken with nothing reserved, replaying only what came later gives the live balances, positions and basis |
| Snapshots.SnapshotExactly | src/account/account.py:177-193 | a snapshot may replace the log before it, whatever follows, if and only if no open order had anything reserved, that is, if every open order is a BUY limited to 0 |
| Counterexamples.OpenOrderIsLost | src/account/account.py:177-193 | a BUY order open at the snapshot and canceled afterwards: the restored account does not get its cash back |
| Snapshots.SnapshotReadsBack | src/app.py:591-614 | reading back a snapshot of all accounts gives what it keeps of each |
| Snapshots.SnapshotKeeps | src/account/account.py:177-193 | a snapshot of any reachable state, read back, gives every account its cash and its positions, free and locked, with their cost, but no locks, and lists exactly the positions that hold something |
| SnapshotRestarts.OrdersBack | src/app.py:616-673 | the events since a snapshot rebuild exactly the orders placed since, as they are now |
| SnapshotRestarts.SnapshotBooks | src/app.py:503-533 | for any snapshot: the events since rebuild the live books if and only if no order from before is still open and none placed since was rejected with a price or rests without one |
| SnapshotRestarts.SnapshotRestart | src/app.py:591-690 | a cold start from a snapshot taken with nothing open gives the live accounts, the orders placed since, and the live books if and only if none of those orders was rejected with a price or rests without one |
| SnapshotRuns.SnapshotRunsOn | src/app.py:540-690 | after such a cold start, under any later commands, nothing is raised and exactly the events of the uninterrupted exchange are written, but for refusals to cancel orders from before the snapshot, which the restarted one does not know |
| Rebuild.RestoredOrdersAreLive | src/app.py:628-673 | every order, rejected ones included, gets back its live status and filled quantity, and no event is skipped |
| BookRebuild.LogTellsOrders | src/app.py:485-501 | the first pass finds every order's terms, whether it was canceled and exactly its filled quantity |
| BookRebuild.RebuiltBooksAreLive | src/app.py:503-533 | the rebuilt books are the live queues, entry by entry in order, if and only if no order with a price was rejected and no priceless LIMIT order rests |
| Restarts.RestartExactly | src/app.py:540-690 | the exchange rebuilt from a log is alike the one that wrote it (accounts, orders, books) under exactly that condition |
| Restarts.RestartedRunsOn | src/app.py:540-690 | whatever is commanded afterwards, the restarted exchange keeps the agreement and writes the same events as the uninterrupted one |
| RestartBehaviour.RestartBehavesExactly | src/app.py:461-535 | the restarted exchange takes every continuation without raising and writes the same events if and only if no order with a price was rejected, other than a BUY of the symbol with the empty name, and no priceless LIMIT order rests |
| RestartBehaviour.PhantomRaises | src/oms/order_state_machine.py:14-40 | once a rejected order is back on a book, an order that reaches it makes the exchange raise |
| Unnamed.NobodyEverHolds | src/account/account_projection.py:66-84 | no run gives anybody a share of the symbol with the empty name, as shares of it cannot come in |
| Counterexamples.RejectedComesBack | src/app.py:503-533 | after the one command of a BUY order nobody can pay for, the restarted exchange is not alike the live one |
| Counterexamples.UnpricedIsLost | src/app.py:503-533 | nor is it when a LIMIT SELL without a price rests |
| Restarts.LogsSettlePositive | src/app.py:248-258 | every settlement in a log moves a positive quantity |
| MarketRuns.BuyIsReleaseThenPay | src/account/account.py:407-426 | a BUY fill consumes exactly its lock: it is releasing the lock and paying the trade from the cash |
| MarketRuns.SellIsReleaseThenSell | src/account/account.py:427-450 | a SELL fill is releasing the lock and giving the shares for cash |
| MarketRuns.FillKeepsInv | src/app.py:323-393 | an open order that meets the quote is closed whole, any other is left alone, no transition is refused |
| MarketRuns.MarketRunsAgree | src/app.py:299-424 | every run: no exception, every open order holds exactly its whole lock and there is no other lock, and no open order meets the last quote unless quotes were fetched without a scan |
| MarketRuns.MarketNoOverdraft | src/account/account.py:387-453 | in every reachable state nothing is negative and what is locked is the sum over the open orders |
| MarketRuns.ScanFillsExactly | src/app.py:395-424 | a scan fills exactly the open orders of its symbol that meet the quote and changes no other; none that meets it is left |
| MarketMode.FillTells | src/app.py:323-393 | exactly an order that meets the quote by its terms, and of which something remains, is filled; the log tells its trade, with the order on both sides, for what remained, at the ask or the bid, and its fill |
| MarketFills.TickFills | src/app.py:395-424 | after a quote exactly the open orders of the symbol that meet it are filled, and their trades and fills are logged in order of arrival |
| MarketFills.MarketStepFills | src/app.py:323-393 | any step of any run: an order is filled if and only if it was open, the step quotes its symbol or places it, and it bids at least the ask or asks at most the bid; exactly these trades are logged, for the whole order, at exactly the ask or the bid; orders keep their terms and closed ones stay as they are |
| MarketFills.EveryMarketTradeFair | src/app.py:323-393 | every trade of every run fills one order whole, at no more than it bids or no less than it asks |
| FillReports.MarketFillsAddUp | src/oms/oms_service.py:182-205 | in this mode, too, every report of a fill is true and they add up to what is filled |
| MarketLedger.MarketAccountsFollowLog | src/account/account.py:387-453 | in every run of this mode every account owns what was brought in, less what the trades of its BUY orders cost, plus what those of its SELL orders brought |
| MarketReplay.MarketReplayExactly | src/account/account_projection.py:117-121 | replaying the log of any run of this mode gives every account its live cash, positions, basis and locks if and only if no order was ever filled |
| Counterexamples.FillIsNotReplayed | src/app.py:323-393 | one BUY order filled at its quote: the replayed accounts are not the live ones |
| MarketApps.MarketApp.TryToFill | src/app.py:323-393 | the fill as the specification has it, exactly if the order meets the quote by its terms, at the ask or the bid, or the exception of the OMS, with the trade logged and the refused fill counted |
| MarketApps.MarketApp.CheckRestingOrders | src/app.py:395-424 | the scan loop over all orders; without a quote nothing happens; an exception leaves the orders before it scanned |
| MarketApps.MarketApp.ProcessOmsEvents | src/app.py:174-204 | the drain loop in this mode, for any queue; an exception leaves the events before it handled |
| MarketApps.MarketApp.Place | src/api/rest.py:335-368 | the object does exactly the placing step of this mode, for any placement, or returns the exception that step raises, with the intake done and the drain stopped there; an admissible one never raises and keeps the invariant |
| MarketApps.MarketApp.Cancel | src/api/rest.py:371-393 | the same in this mode: nobody but the owner or an administrator gets through to the canceling step |
| MarketApps.MarketApp.OnMarketData | src/app.py:426-457 | a quote is remembered and scanned; afterwards no open order of the symbol meets it, or, from a state the invariant does not cover, the scan stops at the exception |
| RealizedPnl.ComputeRealizedPnl | src/account/trading_analysis.py:197-233 | the nested loop computes the recursive tally of profit, wins and losses, and ends; what the tally amounts to is told by the rows below |
| RealizedPnl.SaleBooks | src/account/trading_analysis.py:212-231 | a sale books its proceeds less the cost of exactly the quantity it took off the front of the queue, and leaves something unsold only if the queue is empty |
| RealizedPnl.ProfitIdentity | src/account/trading_analysis.py:205-233 | for every trade list: profit is proceeds (of covered sales) less purchases plus the cost of the stock left |
| RealizedPnl.NoOversellBalances | src/account/trading_analysis.py:205-233 | at any prices: if no symbol is ever oversold, profit is proceeds less purchases plus the cost of the stock left |
| ShortSales.ProfitExactly | src/account/trading_analysis.py:205-233 | for every trade list, at any prices: the books balance if and only if what was asked for the shares sold short comes to nothing, where the shares sold short are told by volumes alone, without a queue |
| RealizedPnl.ProfitWhenPaid | src/account/trading_analysis.py:205-233 | if every sale is at a positive price: the books balance if and only if nothing is ever oversold |
| RealizedPnl.CoveredWhen | src/account/trading_analysis.py:216-231 | every sale finds its shares in stock if and only if no symbol was ever sold beyond what was bought before |
| RealizedPnl.SoldFirst | src/account/trading_analysis.py:216-231 | a single sale of a share nobody bought: the books do not balance |
| RealizedPnl.StockIsFifo | src/account/trading_analysis.py:205-233 | what is left of a symbol is its purchases in order with exactly the quantity sold taken off the front |
| ShortSales.StockIsPurchasesLessSales | src/account/trading_analysis.py:205-233 | for every trade list, oversold or not: what is left of a symbol is its purchases in order with what was sold of it, as far as it was not sold short, taken off the front |
| ShortSales.ShortIsMost | src/account/trading_analysis.py:216-231 | the shares sold short are the most by which sales of the symbol ever exceeded purchases |
| RealizedPnl.DropShape | src/account/trading_analysis.py:227-231 | what is left is a suffix of the purchases with at most its first layer reduced |
| RealizedPnl.ProfitBySymbol | src/account/trading_analysis.py:205-233 | the interleaved result is the sum of the results symbol by symbol |
| WinsAndLosses.WinsAreMatches | src/account/trading_analysis.py:216-231 | for every trade list: wins are the pairs of a purchase and a later sale of some of the same shares, matched first in, first out by volumes alone, at a higher price; losses are those at a lower price |
| WinsAndLosses.MatchesAddUp | src/account/trading_analysis.py:222-225 | wins and losses together are all matches less those at the price of the purchase |
| WinsAndLosses.WinsBySymbol | src/account/trading_analysis.py:205-233 | wins and losses of interleaved trades are the sums of those symbol by symbol |
| EventLog.EventWriter.Push | src/storage/event_writer.py:53-61 | an event joins the buffer and no file is written |
| EventLog.EventWriter.Flush | src/storage/event_writer.py:97-119 | the buffer goes, in order, to the end of the file of the day, and is empty |
| EventLog.DirsAscend | src/storage/event_writer.py:121-127 | month directories sort as strings like their months, and differ for different months |
| EventLog.FilesAscend | src/storage/event_writer.py:121-127 | day files of a month sort as strings like their days |
| EventLog.NamesApart | src/storage/event_writer.py:121-127 | different months have different directories, different days different files |
| EventLog.LoadAll | src/storage/event_loader.py:26-41 | the loader's two sorted loops return the files' contents in ascending order of names |
| EventLog.RoundTrip | src/storage/event_writer.py:53-127 | under any interleaving of pushes and flushes on a clock that does not go back, what is loaded plus what is buffered is what was pushed, in order |
| EventLog.AllOnDisk | src/storage/event_loader.py:26-41 | after a final flush the loader returns exactly what was pushed |
| EventLog.FilesByDay | src/storage/event_writer.py:97-127 | the file of every day holds exactly what the flushes of that day found waiting, and there are no other files |

## Left out

- Decimal's 28-digit context rounding: amounts are exact reals.
- Two timestamps per order: creation time and event time are one value here; the code takes them from two clock readings.
- Trade history, cash transactions, per-user records, websocket broadcast, and the count of restored orders.
- The retry and dead-letter queue of publishing: a publish is a successful append to the log.
- Commands that delete an account or change the engine mode within a run; a deletion in a log is replayed (`AccountProjection.Apply`).
- Concurrency: a command and its drain are one step, as the single-threaded event loop runs them.
- Market data events and their history in the log of the order-against-market mode; a quote is a bid and an ask.
- The matcher in the order-against-market mode: no order is ever added to a book there, so cancelling on a book has no effect and is not modelled.
- Cash and share commands on the object of the order-against-market mode: they are the same as in `Apps`; `MarketRuns` has them at the level of values.
- Authentication, market data adapters, reports, leaderboards, predictions, display rounding.
- Apps.App.ColdStart: the JSON form of a snapshot, fallback values for missing keys and the summary counts are left out.
- MarketApps.MarketApp.ProcessOmsEvents: cancelling on a book, which is always empty in this mode, is left out.
- MarketApps.MarketApp.OnMarketData: the market data event and the history of quotes are left out.
- Residues.LockForetold: placements are stamped no earlier than those before them; `LocksAreExact` asks nothing of the clock.
- Residues.ResidueOnMovingClock: placements are stamped strictly later than those before them; `ResidueExactly` allows equal stamps.
- Snapshots.SnapshotExactly: what follows the snapshot is a suffix of the log, where the code compares timestamps.
- Restarts.RestartedRunsOn: accounts are compared by what can be read from them, so an account or a flat position that was never used may be missing.
- FairPrice.MakerPrice: needs strictly later timestamps; on equal ones the code takes the buyer's price, which `MakerPriceExactly` states.
- ReplayLaws.LaterEventsAlone: order ids are used once, as they are generated, and no later settlement has a negative quantity, as none is ever logged (`LogsSettlePositive`); otherwise another account's lock or basis could matter.
- Depths.Aggregate: levels are keyed by the price itself, where the code uses its text form, which differs for equal prices written differently.
- EventLog.RoundTrip: years have four digits, writes succeed, and an event is stored as itself, without its JSON form.
