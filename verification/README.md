# OpenUTS: position ledger, order splitting and its supporting protocols

OpenUTS wraps the CTP futures interface. This project models the parts of it that keep state over a
whole trading session, and proves what they guarantee over every run.

| file | what it models |
|---|---|
| `DataStruct.dfy` | enumerations and records shared by the ledger, the splitter and the order table |
| `Ledger.dfy` | what a position row and a trade do to the holdings, and to the two net views of them |
| `LotQueue.dfy` | the exchange's queue of lots behind the `total/today/pre` counters |
| `OrderTable.dfy` | the order records, the index of cancelable orders, and what cancelling sends |
| `TradingAccounts.dfy` | `CTPTradingAccount`: the callbacks as methods that update its fields |
| `OrderSplitter.dfy` | validation of explicit orders, the split of an `Auto` order, and its fills |
| `Liquidation.dfy` | the closing orders of all positions, placed while the exchange fills them |
| `UnifiedTradingSystem.dfy` | `UnifiedTradingSystem`: placing, splitting and clearing as methods |
| `RateThrottler.dfy` | the sliding-window throttler and its lazily cleaned list |
| `MarketData.dfy` | cumulative ticks turned into bars; subscribing in batches |
| `DataRecorder.dfy` | the recorder's queue, worker and destructor as interleaved steps |
| `QueryManager.dfy` | the `query`/`done` handshake as interleaved steps |
| `Login.dfy` | logging in: that handshake together with the callbacks of the trading front |

The classes follow the code statement by statement. Each method equates the new state with a
function of the old one (`Ledger.Step`, `OrderTable.StepTable`, `OrderSplitter.Process`,
`RateThrottlers.Step`, `MarketData.Store`), and the lemmas are about runs of those functions.
Threads are state machines: one action is one atomic step of one thread, and a run is any list of actions.

## Code and intent

`Rule` names one choice. `AsWritten` is `std::max`, which the code uses where a trade or an order is shared
out between today's and yesterday's quantity. `Intended` is `std::min`, which the exchange rules in the
comments beside it describe (src/ctptradingaccount.cpp:595 and 603, src/unifiedtradingsystem.cpp:482-486).
The class methods are as written. What holds of both is proved of both; what holds only of `Intended` is
proved of it, beside the exact condition under which the code as written does the same.

Where else the code and its comments, names or tests disagree, the model follows the code:

- A closing trade without a record is booked as an opening (src/ctptradingaccount.cpp:615-625).
- A record stays in the ledger when it is closed out, so the holdings are never empty again after a
  liquidation, as the holdings test expects.
- `CancelOrder` names the account's latest order reference, not the order's own (src/ctptradingaccount.cpp:804).
- A rejection flag on the first return of an order is not looked at (src/ctptradingaccount.cpp:655-664).
- A position query that is retried adds its rows again (src/ctptradingaccount.cpp:514-560).
- `CloseYesterday` becomes `Close` on DCE, CFE and CZC, `CloseToday` does not (src/unifiedtradingsystem.cpp:438-442).
- An `Auto` order against an opposite position never opens anything as written, but in one DCE case.
- The loop of `query` ranges over `iota(num_tries)`, which has no upper end (src/asyncquerymanager.cpp:16), so
  a query returns only once it has succeeded, and a refused login reaches none of the errors `LogInSync` documents.
- `query` reads its condition twice (src/asyncquerymanager.cpp:25), and `done` may write in between.
- The first bar of an instrument opens at zero and has a low of zero (src/ctpmarketdata.cpp:229-233).
- The recorder's destructor may wait for ever, or drop what was pushed last (src/datarecorder.cpp:7-42).
- A steady clock may read the same twice; then the throttler may release calls too early.
- `LogInASync` writes its status after its request has gone out, and asks for nothing once the account is logged
  in, so `LogInSync` may go on without the account reading as logged in, or wait for ever while it does.

## Model

| member | source | states |
|---|---|---|
| Ledger.NetConservationExact | src/ctptradingaccount.cpp:528-626 | for every starting account, run, ticker and either rule: change of net holding = signed rows loaded + change of net trades - what misbooked closes took; trades are only appended |
| Ledger.NetConservation | src/tradingaccount.cpp:12-26 | from an empty account, when each close meets a record, the two net views agree on every ticker up to the loaded yesterday positions |
| Ledger.ConservedIffMeetsIndex | src/ctptradingaccount.cpp:570-625 | one event keeps the two views in step on all tickers if and only if it opens, is empty, or closes an existing record |
| Ledger.OrphanCloseTurnsNetAround | src/ctptradingaccount.cpp:615-625 | a replayed sale of any number of yesterday's lots that comes before their position row leaves twice the position in the ledger, where the other order leaves none |
| Ledger.WrittenCloseMisplaces | src/ctptradingaccount.cpp:601-607 | plain closes of one and of three lots on CFE whose buckets, as written, are misplaced and negative |
| Ledger.BalanceKeptIff | src/ctptradingaccount.cpp:575-614 | total = today + pre survives an event if and only if its flag and exchange move a bucket along with the total |
| Ledger.BalancedThroughout | src/ctptradingaccount.cpp:528-626 | the ledger stays balanced over every run of such events, under either rule |
| Ledger.FittingRunStaysNonNegative | src/ctptradingaccount.cpp:573-625 | intended rule: over every run whose closes fit their bucket no quantity goes negative and every record stays balanced |
| Ledger.CloseAsWrittenIff | src/ctptradingaccount.cpp:592-612 | as written, a fitting plain close books what the exchange rule asks if and only if it takes exactly the bucket closed first, and stays non-negative if and only if it takes no more than that |
| Ledger.RecordsAreFiled | src/ctptradingaccount.cpp:528-626 | after every run from an empty account, under either rule, each record carries the contract, side and hedge flag it is kept under, and the exchange of the event that created it |
| Ledger.RowIsSkippedIff | src/ctptradingaccount.cpp:531-532 | a position row leaves the ledger as it is if and only if it has no yesterday position or its contract name begins with SP |
| Ledger.OrderIndependence | src/ctptradingaccount.cpp:123-123 | two orders of the same rows and replayed trades give the same records, totals and net holdings, and the same buckets unless a plain close shares its volume out |
| Ledger.BucketsDependOnOrder | src/ctptradingaccount.cpp:601-607 | on CFE, three lots loaded, one bought and one sold end, as written, with different buckets in two admissible orders; by the intended rule one loaded lot is enough |
| Ledger.MovesPastCloseIff | src/ctptradingaccount.cpp:573-614 | either rule: a plain close on DCE, CFE or CZC and any other event on the same existing record may change places if and only if the event leaves the bucket closed first alone or the close is shared out alike before and after it |
| Ledger.RowMovesPastCloseIff | src/ctptradingaccount.cpp:539-542 | a position row may come after such a close instead of before it if and only if the exchange is DCE, or (intended) yesterday's quantity covers the close without the row, or (as written) the close reaches all of it with the row |
| Ledger.OpenMovesPastCloseIff | src/ctptradingaccount.cpp:577-599 | the same for an opening trade, with today's quantity, which matters on DCE only |
| Ledger.ClosesChangePlacesIff | src/ctptradingaccount.cpp:592-612 | two plain closes of one record may always change places by the intended rule, and as written if and only if their volumes agree or each reaches all of the bucket closed first |
| Ledger.RetriedQueryCountsOnceIff | src/ctptradingaccount.cpp:514-560 | the last answer to a position query that is retried counts each row exactly once if and only if no earlier answer brought a row that counts, whatever the account held |
| Ledger.AnsweredTwiceDoubles | src/ctptradingaccount.cpp:539-542 | two complete answers double every quantity loaded |
| LotQueue.FillRefinesLots | src/ctptradingaccount.cpp:577-614 | intended rule: a fill takes from the counters what it takes from the lot queue (today's first on DCE, first opened first on CFE and CZC, named day for CloseToday and CloseYesterday) |
| LotQueue.LedgerCountsLots | src/ctptradingaccount.cpp:528-626 | intended rule: after every run of fitting events the counters of every record are the sums of its lot queue |
| LotQueue.CloseAsWrittenCountsLotsIff | src/ctptradingaccount.cpp:592-612 | as written, a plain close still counts the queue if and only if its volume is the whole bucket closed first |
| LotQueue.WrittenStepRefinesIff | src/ctptradingaccount.cpp:573-625 | as written, an event on the whole ledger keeps it counting its queues if and only if it takes whole, and then both rules book alike |
| LotQueue.WrittenLedgerCountsLots | src/ctptradingaccount.cpp:528-626 | as written, over every run whose plain closes take whole the ledger equals the intended one and counts its queues |
| TradingAccounts.CTPTradingAccount.OnRspQryInvestorPosition | src/ctptradingaccount.cpp:528-560 | the callback does one ledger step, or nothing without a row |
| TradingAccounts.CTPTradingAccount.OnRtnTrade | src/ctptradingaccount.cpp:563-626 | the callback, with the trade recorded before its direction is turned, does one ledger step |
| TradingAccounts.CTPTradingAccount.GetNetHoldings | src/tradingaccount.cpp:12-18 | returns exactly the tickers held, each with its signed total over sides and hedge flags, whatever the order of the walk |
| TradingAccounts.CTPTradingAccount.GetNetTrades | src/tradingaccount.cpp:20-26 | returns exactly the tickers traded, each with its signed traded volume |
| TradingAccounts.CTPTradingAccount.FilterCancelableOrders | src/ctptradingaccount.cpp:628-646 | the order is in the index afterwards if and only if its status is one of the four active ones; nothing else moves |
| TradingAccounts.CTPTradingAccount.OnRtnOrder | src/ctptradingaccount.cpp:648-675 | the callback does one step of the order table and keeps index and table in agreement |
| TradingAccounts.CTPTradingAccount.CancelOrder | src/ctptradingaccount.cpp:793-808 | refuses unknown orders; otherwise the request names the record but the latest reference |
| TradingAccounts.CTPTradingAccount.CancelAllPendingOrders | src/ctptradingaccount.cpp:809-811 | visits each active order once, sends one request for each and never meets the unknown-reference error |
| OrderTable.TableReflectsReturns | src/ctptradingaccount.cpp:628-675 | after every run of returns the table holds exactly the orders seen, under their last reported status, and the index exactly those whose last reported status is active |
| OrderTable.VolumesReflectReturns | src/ctptradingaccount.cpp:648-675 | after every run of returns an order shows the traded and remaining volume of its last report that was not a rejection, and the contract of its first, which cancelling it names |
| OrderTable.FirstRejectionIsOverlooked | src/ctptradingaccount.cpp:655-664 | a rejected first return leaves the order cancelable, a second copy of it does not |
| OrderTable.CancelAllReachesIff | src/ctptradingaccount.cpp:793-811 | cancelling everything reaches every active order if and only if all of them carry the latest reference |
| OrderTable.OlderOrderIsMissed | src/ctptradingaccount.cpp:793-811 | two queued orders: both cancel requests name the second and the first stays active |
| OrderSplitter.IntendedSplitIsSound | src/unifiedtradingsystem.cpp:472-528 | intended rule: sub-orders sum to the order, closes fit their buckets, as much is closed as is permitted and opening happens only beyond it |
| OrderSplitter.IntendedSplitMindsToday | src/unifiedtradingsystem.cpp:482-499 | intended rule: for a no-close-today ticker nothing of today's is closed, and on DCE nothing at all while there is any; elsewhere yesterday's is closed only after all of today's |
| OrderSplitter.AutoOrdersSent | src/unifiedtradingsystem.cpp:472-532 | either rule: an Auto order is sent if and only if volume, instrument and time in force allow it, as copies of the request that differ in contract, flag and volume only, at most one per flag, in the order CloseYesterday, CloseToday, Close, Open, under each the amount of the split |
| OrderSplitter.IntendedOrdersAreSound | src/unifiedtradingsystem.cpp:472-532 | intended rule: the orders that are sent add up to the request, name a day on SHF and INE only, fit their buckets, spare today's lots where they must and open only past what may be closed; any fills of them keep the closed record balanced and non-negative |
| OrderSplitter.IntendedOrdersMoveNet | src/unifiedtradingsystem.cpp:472-532 | intended rule: filling the orders that are sent completely moves the net holding by direction times the requested volume |
| OrderSplitter.WrittenOrdersSoundIff | src/unifiedtradingsystem.cpp:485-532 | as written, the orders that are sent are sound in that sense if and only if the condition on volume and holdings of WrittenSplitSoundIff holds |
| OrderSplitter.TodayIsClosedAsToday | src/unifiedtradingsystem.cpp:503-512 | five of today's lots on SHF and an Auto order for five: one CloseToday order for five, under either rule |
| OrderSplitter.WrittenSplitSoundIff | src/unifiedtradingsystem.cpp:485-527 | as written, the split sums to the order, fits its buckets and closes no more than is permitted if and only if a condition on volume and holdings holds, spelled out per exchange and for no-close-today tickers |
| OrderSplitter.WrittenSplitGoesWrong | src/unifiedtradingsystem.cpp:485-520 | an order for one lot on SHF that closes five, and a no-close-today order on CFE that closes two where one is permitted |
| OrderSplitter.WrittenSplitSums | src/unifiedtradingsystem.cpp:485-527 | as written, the sub-orders sum to the larger of the volume and the bucket closed first, and something is opened only in the DCE case that closes nothing |
| OrderSplitter.AutoFillsAreSafe | src/unifiedtradingsystem.cpp:472-529 | intended rule: fills of the sub-orders in any chunks, order and number keep the closed record balanced and non-negative and never touch today's quantity of a no-close-today ticker, on all five exchanges |
| OrderSplitter.AutoFillsAsWrittenSafeIff | src/unifiedtradingsystem.cpp:472-529 | as written in split and booking, every filling the exchange can make keeps the closed record non-negative if and only if the day is named, nothing is closed or held, or only one lot can be filled and the bucket closed first holds one |
| OrderSplitter.ChunksGoNegative | src/ctptradingaccount.cpp:601-607 | an order for two of three lots on CFE, filled one at a time, ends at minus one of yesterday's |
| OrderSplitter.AutoFillsAtExchangeFitIff | src/unifiedtradingsystem.cpp:472-529 | booked by the exchange's rule, no filling of what the code sends closes more than is held if and only if the volume is at most the bucket closed first (day named) or the position (elsewhere), or nothing is closed |
| OrderSplitter.AutoOrderMovesNetByOrder | src/unifiedtradingsystem.cpp:472-529 | intended rule: any complete filling moves the net holding by direction times volume, with or without an opposite position |
| OrderSplitter.FillsMoveNet | src/ctptradingaccount.cpp:563-626 | fills that close only what there is move the net of their ticker by the signed filled volume and no other ticker's, under either rule |
| OrderSplitter.WrittenAutoMovesNet | src/unifiedtradingsystem.cpp:485-527 | as written, a complete filling moves the net by the larger of volume and bucket, which is the order if and only if the bucket is no larger |
| OrderSplitter.CloseIsAdditive | src/ctptradingaccount.cpp:592-612 | intended rule: a plain close filled in two pieces books what one fill of the whole books |
| OrderSplitter.NoCloseTodayAsWrittenIff | src/unifiedtradingsystem.cpp:485-490 | booked by the exchange's rule, no filling the exchange can make of the orders the code sends for a no-close-today ticker closes a lot of today's, if and only if the exchange is SHF, INE or DCE, the volume is at most yesterday's quantity, or none of today's is held |
| OrderSplitter.TodayClosedUnseen | src/unifiedtradingsystem.cpp:485-490 | two of today's lots on CFE that the exchange closes while the ledger books them against yesterday's |
| OrderSplitter.LedgerSeesTodaySparedIff | src/ctptradingaccount.cpp:592-612 | booked as written, today's counter of such a ticker never falls under a filling the exchange can make, if and only if it is not on DCE with only yesterday's lots held |
| OrderSplitter.ExplicitCloseAcceptedIff | src/unifiedtradingsystem.cpp:333-471 | an explicit close passes if and only if volume, instrument, time in force and the named quantity allow it, and then as one order |
| OrderSplitter.ExplicitOpenAcceptedIff | src/unifiedtradingsystem.cpp:333-444 | an explicit opening order passes if and only if volume, instrument and time in force allow it, unchanged but for the contract |
| OrderSplitter.RefusalReasons | src/unifiedtradingsystem.cpp:337-530 | for every order, which error it gets, if and only if which fault comes first |
| OrderSplitter.LookedUpAlikeIff | src/unifiedtradingsystem.cpp:341-345 | two tickers lead to the same instrument if and only if they agree up to case |
| UnifiedTradingSystems.UnifiedTradingSystem.ProcessAdvancedOrder | src/unifiedtradingsystem.cpp:333-533 | the method returns exactly what the specification says, error by error, without changing anything |
| UnifiedTradingSystems.UnifiedTradingSystem.SplitAutoOrder | src/unifiedtradingsystem.cpp:480-528 | the reassigned order and running volume produce the sub-orders of the split, in that sequence |
| UnifiedTradingSystems.UnifiedTradingSystem.ReversePosition | src/unifiedtradingsystem.cpp:572-592 | the closing orders of one record, yesterday's first |
| UnifiedTradingSystems.UnifiedTradingSystem.ClearAllHodlings | src/unifiedtradingsystem.cpp:542-559 | refuses a limit price; otherwise sends the plan over some enumeration of the holdings up to the first refusal |
| UnifiedTradingSystems.PlanIsSentWhole | src/unifiedtradingsystem.cpp:333-471 | any exchange, either rule, nothing filled yet: the closing orders of filed, listed and balanced records are all accepted if and only if no quantity is negative, and then each is sent for its whole bucket |
| UnifiedTradingSystems.RunIsClearedIff | src/unifiedtradingsystem.cpp:542-559 | as written, after every run of events that keep the ledger balanced, on listed contracts: clearing is accepted, while nothing is filled, if and only if no quantity is negative |
| UnifiedTradingSystems.NegativeRecordStopsClearing | src/unifiedtradingsystem.cpp:337-339 | the first record with something to close has a negative count of yesterday's lots: the volume error ends the walk and nothing is sent for any record |
| Liquidation.PlanIsComplete | src/unifiedtradingsystem.cpp:548-592 | a plan holds one order per non-empty bucket of every record and no other |
| Liquidation.PlanOfRunIsComplete | src/unifiedtradingsystem.cpp:548-592 | the plan for the ledger of any run, under either rule, is complete, and each order closes one whole bucket of one record: its contract, exchange and hedge flag, the other side, the given time in force |
| Liquidation.LiquidationStaysOnTrack | src/unifiedtradingsystem.cpp:437-592 | any exchange, either rule, every interleaving of placements and partial fills: each record's total is what its orders have outstanding, buckets match order by order where each order takes its own, and today's covers its order outside DCE |
| Liquidation.LiquidationRefusedIff | src/unifiedtradingsystem.cpp:437-471 | any mix of exchanges, either rule: a run is refused if and only if, for some DCE record, a fill of the order for yesterday's lots came before the order for today's was placed |
| Liquidation.LiquidationNeverRefusedIff | src/unifiedtradingsystem.cpp:437-592 | known before placing: no run of the plan is refused, under either rule, if and only if no DCE record holds lots of both days |
| Liquidation.LiquidationFlattens | src/unifiedtradingsystem.cpp:542-592 | any exchange, either rule: once all is placed and filled every record has total 0 and is still in the ledger; it is flat on SHF and INE under either rule and on CFE and CZC under the intended one |
| Liquidation.RunThenLiquidate | src/unifiedtradingsystem.cpp:542-592 | intended rule, from an empty account: after any fitting run on listed contracts, liquidating with any interleaving of placements and fills ends with nothing held |
| Liquidation.RunFillsRecord | src/ctptradingaccount.cpp:563-626 | every record of a run equals its start after the fills the run brings to it, and these are what its orders no longer have outstanding |
| Liquidation.WrittenRunFlatIff | src/unifiedtradingsystem.cpp:542-592 | as written, after a complete run a record on any of the five exchanges has total 0, and is flat if and only if the day was named, nothing of yesterday's was held, or (CFE, CZC) the first fill of that order was all of it |
| Liquidation.WrittenLiquidationFlatIff | src/ctptradingaccount.cpp:573-614 | the same for every complete filling of the two orders of one record |
| Liquidation.EveryRunFlatAsWrittenIff | src/unifiedtradingsystem.cpp:542-592 | known before placing, over runs of a whole plan on any mix of exchanges: every complete run leaves the record flat, as written, if and only if the day is named, nothing of yesterday's is held, or it is one lot on CFE or CZC |
| Liquidation.AlwaysFlatAsWrittenIff | src/ctptradingaccount.cpp:573-614 | the same over all complete fillings of one record |
| Liquidation.PiecesLeaveTrace | src/ctptradingaccount.cpp:601-607 | two of yesterday's lots on CFE closed one at a time leave today 1 and yesterday -1 |
| Liquidation.DceSecondOrderRefusedIff | src/unifiedtradingsystem.cpp:437-471 | on DCE the second closing order passes if and only if nothing of the first has been filled, under either rule |
| RateThrottlers.RunKeepsInv | include/uts/ratethrottler.h:26-52 | over every possible run the list is a suffix of the release history, at most one too long and then with an expired front, and all it lacks has expired |
| RateThrottlers.NoBurst | include/uts/ratethrottler.h:26-52 | no window shorter than the duration holds more than `rate` releases, and the list never outgrows rate + 1 |
| RateThrottlers.NoRateNoRecord | include/uts/ratethrottler.h:26-27 | a rate of zero or less records nothing in any run |
| RateThrottlers.ListIsGreedy | include/uts/ratethrottler.h:26-52 | with exact sleeps the lazily cleaned list releases every call at the time the full history gives: the later of the call and the release `rate` places back plus the duration |
| RateThrottlers.StandingClockKeepsWindowIff | include/uts/ratethrottler.h:26-52 | over every run of exact calls on a clock that may stand still: the window bound holds, and every release is the greedy one, if and only if no call finds more than `rate` entries left with the front earlier than the one `rate` places from the end |
| RateThrottlers.StandingCallInWindowIff | include/uts/ratethrottler.h:26-52 | the same for one call, from any list that standing calls can leave |
| RateThrottlers.StandingClockBreaksWindow | include/uts/ratethrottler.h:46-52 | three concrete calls with rate 1 whose last two are released together |
| RateThrottlers.StandingClockReleasesThree | include/uts/ratethrottler.h:46-52 | five concrete calls with rate 2 whose last three are released together |
| RateThrottlers.RateThrottler.CleanList | include/uts/ratethrottler.h:46-52 | the loop drops exactly the leading entries older than the window |
| RateThrottlers.RateThrottler.Wait | include/uts/ratethrottler.h:26-40 | the method does one step of the specification, also on a clock that stands still, and keeps the full list invariant when the clock has moved on; it sleeps if and only if `rate` entries are left after cleaning, until the front of them plus the duration |
| MarketData.InstrumentsAreIndependent | src/ctpmarketdata.cpp:229-241 | whatever the interleaving, an instrument's bars are those of its own ticks alone |
| MarketData.Telescoping | src/ctpmarketdata.cpp:234-241 | volume and turnover of an instrument's bars add up to its latest cumulative figures |
| MarketData.LaterBarsAreWellFormed | src/ctpmarketdata.cpp:229-249 | from the second tick of a valid feed on, a bar opens at the previous last price, low <= open, last <= high, reaches a new extreme of the day, and is otherwise no wider than open and last |
| MarketData.BarShowsItsTick | src/ctpmarketdata.cpp:229-249 | for every instrument among any others, each bar's close and last are those of its own tick and its open is the last price of the tick before, with -1 for an unset close or open and zero for the first open |
| MarketData.FeedReaggregates | src/ctpmarketdata.cpp:231-249 | the highest of the highs is the feed's highest price; the first lowest price with the later lows gives the feed's lowest |
| MarketData.BarsReaggregate | src/ctpmarketdata.cpp:229-249 | the same for one instrument among any number of interleaved ones |
| MarketData.FirstBarHidesTheLow | src/ctpmarketdata.cpp:229-233 | the first bar opens at zero with low zero, so the lowest of all lows is never the day's lowest price |
| MarketData.CTPMarketData.CTPMarketData2MarketDepth | src/ctpmarketdata.cpp:214-267 | the bar is that of the remembered figures, which are replaced for this instrument only |
| MarketData.CTPMarketData.OnRtnDepthMarketData | src/ctpmarketdata.cpp:209-212 | the instrument's latest bar is replaced, no other |
| MarketData.BatchesPartition | src/ctpmarketdata.cpp:132-135 | the batches are the list in order, as many as its hundreds rounded up, none empty and all but the last full |
| MarketData.HundredPerRequest | src/ctpmarketdata.cpp:132-135 | the same in numbers: one request per hundred tickers or part of a hundred, one hundred in each but the last |
| MarketData.SelectedInOrder | src/ctpmarketdata.cpp:122-127 | the tickers to send are selected one by one, in the order of the list and with its repetitions |
| MarketData.CTPMarketData.Subscribe | src/ctpmarketdata.cpp:118-158 | sends the batches of exactly the tickers not yet subscribed, in order, up to the first that gives up by time, and adds exactly what the front acknowledges, in any order and number |
| MarketData.CTPMarketData.Unsubscribe | src/ctpmarketdata.cpp:166-207 | the same for the subscribed tickers of the list; what is acknowledged loses its subscription and its latest bar |
| MarketData.FullAnswersSubscribe | src/ctpmarketdata.cpp:118-207 | when every batch is acknowledged in full in time, all are sent, nothing fails, and the set gains, or loses, exactly the list |
| MarketData.BatchesMissNothing | src/ctpmarketdata.cpp:118-207 | acknowledging every batch that is sent adds, or removes, exactly the list |
| MarketData.UnsubscribeUndoesIff | src/ctpmarketdata.cpp:118-207 | the acknowledged batches of a subscription followed by those of an unsubscription of the same list leave the old set without the list, and the old set if and only if the list named nothing already subscribed |
| DataRecorders.RecorderIsFifo | src/datarecorder.cpp:14-42 | under every interleaving pushed = written ++ in flight ++ queued, the pop never meets an empty queue, and on exit everything up to the last emptiness check has been written |
| DataRecorders.WaitersWillWake | src/datarecorder.cpp:14-31 | in every reachable state a worker that waits with something queued has a notification to come |
| DataRecorders.EverythingCanBeWritten | src/datarecorder.cpp:14-42 | from every reachable state before destruction, worker steps and due notifications alone lead to a state in which everything pushed so far is written |
| DataRecorders.DestroyWakesWaiter | src/datarecorder.cpp:7-12 | a destructor that finds the worker waiting wakes it, and the worker writes everything and exits |
| DataRecorders.JoinReturnsIff | src/datarecorder.cpp:7-42 | once stopping is requested and no notification is left, the join returns if and only if the worker is not on its way into a wait with an empty queue, and nothing is lost if and only if the worker was past its test or there was nothing left |
| DataRecorders.PendingNotificationFrees | src/datarecorder.cpp:7-42 | with a notification still to come the join can always return |
| DataRecorders.DestructorMayHang | src/datarecorder.cpp:7-12 | a reachable state in which only a spurious wakeup ends the join |
| DataRecorders.LastItemMayBeLost | src/datarecorder.cpp:22-42 | a run in which an item is pushed and the worker exits without writing it |
| QueryManager.HandshakeIsSafe | src/asyncquerymanager.cpp:15-34 | under every interleaving of done, timeouts, lost and spurious wakeups, success is returned only after a done(true) since the latest attempt was marked, and a bounded loop makes no more attempts than given |
| QueryManager.PromptAnswerReturns | src/asyncquerymanager.cpp:22-34 | in every run, a waiting query that is told done(true) can return Success in the same attempt |
| QueryManager.WrittenLoopReturnsOnlyOnSuccess | src/asyncquerymanager.cpp:15-29 | as written, a query returns only after a done(true) in its latest attempt, and with another result only when a later done(false) came in between the two reads |
| QueryManager.WrittenLoopRetriesForEver | src/asyncquerymanager.cpp:16-16 | as written, for every n there is a run with n failed attempts that is about to try again |
| QueryManager.StaleSuccessIff | src/asyncquerymanager.cpp:15-29 | success without a done(true) is possible if and only if no attempt is allowed and an earlier success is left over |
| QueryManager.AttemptPassesIff | src/asyncquerymanager.cpp:24-34 | in every run, an attempt passes its test if and only if the last done since the mark reported success and came after any write of Timeout |
| QueryManager.AnswerMayBeLost | src/asyncquerymanager.cpp:24-34 | a run in which done(true) falls between the timeout and its write and the attempt counts as failed |
| Login.LoginIsSound | src/ctptradingaccount.cpp:76-226 | from every not-logged-in state, with any requests open and any callback running that does not already hold the success, under every interleaving: the initial queries and the status Done are reached only after a settlement confirmation succeeded since the call began, and a login too unless a settlement request was out before |
| Login.LoginSoundIff | src/ctptradingaccount.cpp:76-226 | all runs from a start are sound if and only if the running callback holds neither the status Done nor done(true) |
| Login.LoginOwnIff | src/ctptradingaccount.cpp:76-226 | all runs rest on a login of their own if and only if, besides, no settlement request was out or about to go |
| Login.WillingFrontLogsIn | src/ctptradingaccount.cpp:137-226 | while any attempt waits, a front that grants each request leads to the initial queries with the status Done within this attempt, from whichever request is open, or after a new connection |
| Login.FirstLoginSucceeds | src/ctptradingaccount.cpp:76-226 | so a first login succeeds in its first attempt |
| Login.ConnectionAsks | src/ctptradingaccount.cpp:137-157 | a new connection leaves an authentication request open, or calls done(false) if it does not go out; after logging out it does nothing |
| Login.AuthenticationAnswered | src/ctptradingaccount.cpp:159-182 | a granted authentication leaves a login request open; a refusal, or a request that does not go out, calls done(false) |
| Login.LoginAnswered | src/ctptradingaccount.cpp:183-214 | a granted login leaves a settlement request open; a refusal, or a request that does not go out, calls done(false) |
| Login.SettlementAnswered | src/ctptradingaccount.cpp:215-226 | a confirmed settlement sets the status Done and calls done(true), a refused one calls done(false) |
| Login.LogInASyncAsks | src/ctptradingaccount.cpp:115-135 | LogInASync asks for nothing when logged in, connects the first time and leaves a login request open after that |
| Login.LogInSyncFollowsResult | src/ctptradingaccount.cpp:82-100 | in every run, whatever the loop, LogInSync throws only after another result than Success and goes on only after another than Timeout |
| Login.RefusedLoginNeverReturns | src/ctptradingaccount.cpp:82-99 | as written, from any start, LogInSync neither returns nor throws in any run while no settlement confirmation has succeeded, if and only if no running callback was about to call done(true) |
| Login.DoneSurvivesIff | src/ctptradingaccount.cpp:115-226 | a status Done survives every run without a new connection if and only if no other status is still to be written and no login or authentication is open or about to be sent |
| Login.OrderlyLoginEndsLoggedIn | src/ctptradingaccount.cpp:76-226 | when LogInASync and the callbacks exclude each other, one request is out at a time and no new connection follows the settlement, the initial queries are reached only with the status Done |
| Login.LateStatusWriteHidesLogin | src/ctptradingaccount.cpp:159-169 | a run in which the status written after the request covers Done, so that LogInSync goes on while the account does not read as logged in |
| Login.LoggedInReturnsIff | src/ctptradingaccount.cpp:82-135 | as written, once logged in with nothing left to be answered, LogInSync can return without a new connection if and only if the attempt under way has its success |
| Login.LoggedInMayHang | src/ctptradingaccount.cpp:82-135 | a run to such a state without it: the account is logged in and LogInSync never returns |

## Left out

- The price section of `ProcessAdvancedOrder` (src/unifiedtradingsystem.cpp:362-425), the account lookup and the presence of market data: one-branch rewrites of prices that no quantity depends on.
- Calls into CTP, field filling, character encoding, logging and cache folders: server answers and send results are parameters or actions, and order requests are returned as values.
- Order synchronisation (`PlaceOrderSync`, `BatchOrderSync`): the interleaving of placements and fills in `Liquidation.dfy` takes its place.
- Database and CSV writers, configuration, JSON, the applications, observers and strategies.
- The capital polling thread, commission queries, logging out, `exit` and `std::terminate` paths.
- Machine integer overflow and floating-point rounding: quantities are integers, prices and turnover are reals.
- Data races below the level of one read or write: the recorder, the query and the login are state values moved by atomic actions, not shared objects; two queries on one manager and a logout during a login are not modelled.
- Pushing into the recorder after its destruction has begun, which its owner must not do.
- Codes that the translation tables do not know, and the end-of-answer flag of the position query, which only wakes the waiting query.
- Order of `std::map` walks: the walks are over any order, and the results do not depend on it.
- Price type and price of an order, price, time and identifiers of a trade, and the order book, settlement and limit prices of a tick: nothing here reads them.
- Positions that pending closing orders freeze: the code validates against current holdings only.
- MarketData.CTPMarketData.Subscribe: a batch is acknowledged while its own query runs; the retries inside that query are the subject of `QueryManager.dfy`, by which no batch gives up by time as written.
- MarketData.CTPMarketData.Unsubscribe: the same.
- Liquidation.LiquidationFlattens: flat on CFE and CZC for the intended rule only, because as written a close filled in pieces drives yesterday's quantity negative (Liquidation.WrittenRunFlatIff has the exact condition); on DCE only the total reaches zero.
- OrderSplitter.AutoFillsAreSafe: for the intended rule only; OrderSplitter.AutoFillsAsWrittenSafeIff says exactly when the code as written has it.
- OrderSplitter.ExplicitCloseAcceptedIff: without the refusals of the price section, the level offset and missing market data.
- UnifiedTradingSystems.UnifiedTradingSystem.ProcessAdvancedOrder: without the price section and its refusals.
- LotQueue.LedgerCountsLots: for the intended rule; plain closes outside DCE, CFE and CZC and force closes move the total alone and are excluded, as Ledger.BalanceKeptIff shows they must be.
- RateThrottlers.NoBurst: for a clock that moves on between a release and the next call; RateThrottlers.StandingClockKeepsWindowIff has the exact condition when it may stand still and sleeps are exact.
- UnifiedTradingSystems.UnifiedTradingSystem.ClearAllHodlings: the ledger does not change during the call; fills that arrive meanwhile are the subject of `Liquidation.dfy`.
- Login.LoginIsSound: for any loop that makes at least one attempt; a loop without attempts hands back what an earlier query left (QueryManager.StaleSuccessIff). Two threads logging in at once are not modelled.
- Login.OrderlyLoginEndsLoggedIn: one direction only; Login.DoneSurvivesIff has both for what comes after the status Done.
