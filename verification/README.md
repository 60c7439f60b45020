# Zapas: a verified model

Zapas keeps an append-only journal of stock movements with a cached balance per item, runs
purchase orders and stock counts on top of it, forecasts daily demand, and from balance,
deliveries and forecast derives what to order today. This project models those parts in
Dafny and proves what they keep, over every input, every run and, for the ledger and the
delivery queue, every interleaving. `dafny verify dfyconfig.toml` checks all of it.

## Layout

Each part has specification functions, the imperative form of the operations proved equal
to them, and laws about them.

| Part | Specification | Operations and loops | Laws |
|---|---|---|---|
| Quantities, delivery windows | `Quantity`, `DeliveryWindow` | `DeliveryWindow` | `Quantity`, `DeliveryWindow` |
| Reorder decision | `Reorder` | `Reorder` | `Reorder`, `DecisionLaws` |
| Ledger, counts, orders, cached statuses | `Journal`, `Shop`, `Catalog` | `Store` (class `Database`) | `LedgerLaws`, `ShopLaws`, `CountLaws`, `OrderLaws`, `ReceiptLaws`, `ReceivingLaws`, `DocumentLaws`, `DocumentAnswers`, `StatusLaws`, `LateWrites` |
| Concurrent ledger transactions | `Concurrent` | `Concurrent` | `Concurrent`, `AloneLaws` |
| Batch recalculation | `Batch` | `Batch`, `Store` | `Batch` |
| Forecast | `Forecasting` | `ForecastRun` | `ModelLaws`, `ForecastAnswers`, `ClippingLaws`, `ForecastLaws`, `WeeklyLaws`, `SmoothingLaws` |
| Series building | `Series` | `Series` | `Series` |
| Demo history, bulk load, reconciliation | `History`, `BulkLoad` | `History`, `BulkLoad` | `History`, `HistoryLaws`, `BulkLoad` |
| Delivery queue | `Outbox` | `Outbox` (class `Dispatcher`) | `OutboxLaws` |
| Journal paging and cursors | `Paging`, `Cursor` | `Paging` | `Paging`, `Cursor`, `Identifiers` |

## Conventions

- A quantity is an integer number of thousandths. Multiplication by a coefficient rounds
  halves away from zero; `CeilTo` divides first and rounds that quotient to sixteen digits,
  as the decimal library does.
- A day is an integer counted from a Monday; a moment is an integer number of nanoseconds
  of local wall-clock time in a zone with a fixed offset. `prevCount` being the zero day is
  modelled as "no count yet".
- Forecast arithmetic uses exact reals. The square root in the safety stock is whatever
  real number the library returned (`World.root`), and sigma inside the
  forecast is kept as its square, the variance.
- One tenant, one warehouse, a catalogue and a clock that stand still during a run. The
  catalogue of the demo generator has non-negative base demand; `BulkLoad.GenerateHistory`
  asks for that.
- Identifiers that the program draws, random draws, answers of message senders and the
  choice among equally old messages are parameters over which every statement is quantified.
- A failed operation returns its error and leaves the state as it was: the database
  transaction is rolled back. `Store` models the partial writes and the rollback.
- Stored rows keep two limits of their columns: a balance or a movement is below 10^11
  units, and the CHECK constraints of the journal hold (`Journal.RowAllowed`).

## Findings

Obvious claims that the code does not meet, each with a concrete input and the exact
condition under which it does:

- A line received as zero is skipped by the recalculation, so its cached status may keep
  counting a delivery that will not come (`ReceiptLaws.ZeroReceiptLeavesStaleStatus`,
  `ReceiptLaws.ReceiveFreshIff`).
- When both delivery dates coincide, an order placed on advice is not counted and the same
  advice is given again (`Reorder.AdviceRepeats`, `Reorder.AdviceSettles`).
- The last day of a spread count correction can be negative (`Series.NegativeLastDay`,
  `Series.LastDayNegativeIff`).
- Two workers can send one message twice (`OutboxLaws.SentTwice`), from a given moment
  exactly when two of the jobs in hand will call the sender for it
  (`OutboxLaws.TwiceIffTwoInHand`). While no worker claims a message another one still has
  in hand, sends stay bounded and final in every interleaving
  (`OutboxLaws.ExclusiveSendsBounded`, `OutboxLaws.ExclusiveClosedIsFinal`).
- The check of `UpdateLines` takes no lock, so an update can still change an order sent in
  between (`LateWrites.LinesChangeAfterSend`, `LateWrites.LateUpdate`). `SetCountLines` can
  change a posted count in the same way (`LateWrites.EntryChangesAfterPosting`,
  `LateWrites.LateEntry`).
- `CeilTo` loses a remainder that vanishes in sixteen digits
  (`Quantity.CeilToLosesRemainder`, `Quantity.CeilToExactIff`). This concerns the function
  only: it needs a step above 2*10^16 thousandths, and stored package sizes are below 10^14.

## Model

| member | source | states |
|---|---|---|
| Quantity.CeilToExactIff | internal/platform/qty/qty.go:161-167 | `CeilTo` gives the least multiple of the step not below the quantity if and only if the remainder survives rounding the quotient to sixteen digits |
| Quantity.CeilToLeastMultiple | internal/platform/qty/qty.go:161-167 | for non-negative quantities and every step up to 2*10^16 thousandths the result is that least multiple |
| Quantity.CeilToLosesRemainder | internal/platform/qty/qty.go:161-167 | the first larger step rounds one thousandth down to nothing |
| Quantity.CeilToMonotone | internal/platform/qty/qty.go:161-167 | a larger quantity never rounds up to a smaller one, for any step |
| DeliveryWindow.WeekdaySet | internal/replenishment/window.go:84-92 | the bit mask holds exactly the valid weekdays of the list |
| DeliveryWindow.DeliveryDate | internal/replenishment/window.go:64-81 | the loop returns the first allowed day not before order day plus lead time, so its fallback is never reached |
| DeliveryWindow.ComputeWindow | internal/replenishment/window.go:41-60 | the window is the pair of first deliveries of an order placed now and one day later, with the cutoff deciding which day "now" is |
| DeliveryWindow.WindowBounds | internal/replenishment/window.go:38-81 | today <= D1 <= D2 <= D1 + 7, and D1 = D2 exactly when the earliest day is no delivery day |
| DeliveryWindow.DeadlineAhead | internal/clock/timeofday.go:38-46 | the order deadline is strictly in the future |
| Reorder.FindPoint | internal/forecast/forecast.go:101-108 | the loop returns the forecast of a day, zero beyond the horizon |
| Reorder.SumIncomingBefore | internal/replenishment/reorder.go:254-262 | the loop adds exactly the deliveries strictly before a day |
| Reorder.ProjectStockout | internal/replenishment/reorder.go:267-294 | the nested loops return the first day of the horizon on which the balance projected from all arrivals and needs is negative |
| Reorder.ComputeDecision | internal/replenishment/reorder.go:128-188 | the loops over days produce the specified decision, manual branch included |
| Reorder.DecisionMeans | internal/replenishment/reorder.go:128-249 | when exactly each of the five statuses holds, with a forecast (nothing on hand; a day before D1 ends below zero; target missed and D1 before D2) and in the manual branch (minimum set and missed); the recommendation is positive exactly when the target is missed and is then the least order in whole packages that reaches target and minimum |
| Reorder.DecideByDayTotals | internal/replenishment/reorder.go:128-296 | a decision depends on deliveries only through what arrives on each day, so not on their order or splitting |
| Reorder.DecideMonotone | internal/replenishment/reorder.go:28-296 | with more on hand and more arriving on each day, the stockout is no earlier, the recommendation no larger and the status no worse, in the forecast and the manual branch |
| Reorder.ExtraStockHelps | internal/replenishment/reorder.go:128-296 | raising the balance or adding one delivery of any position in the list never worsens the decision |
| Reorder.AdviceWorks | internal/replenishment/reorder.go:128-296 | after ordering the recommended quantity for D1 the projected balance stays non-negative up to D2 |
| Reorder.AdviceSettles | internal/replenishment/reorder.go:137-205 | the next decision recommends nothing if and only if D1 < D2, and is then green; with D1 = D2 it repeats the same quantity |
| Reorder.AdviceRepeats | internal/replenishment/reorder.go:254-262 | a concrete item for which the same order is advised again after it was placed |
| Reorder.DroppedDelivery | internal/replenishment/reorder.go:254-296 | removing a delivery leaves the decision unchanged exactly when it was due at D2 or later and every projected day from its arrival to the first shortage has a balance that covers it |
| Reorder.StockoutStaysIff | internal/replenishment/reorder.go:267-294 | the stockout date does not need a delivery exactly when each projected day it reaches, up to the first shortage, is on the same side of zero without it; an overdue one is never projected |
| DecisionLaws.TargetIs | internal/replenishment/reorder.go:137-170 | the target is what today still needs, plus the forecast points from tomorrow up to but not including D2, plus the safety stock; without a forecast it is the manual minimum |
| DecisionLaws.LaterForecastDoesNotMatter | internal/replenishment/reorder.go:144-151 | changing the forecast of D2 or any later day leaves target, recommendation and safety stock as they are |
| DecisionLaws.SafetyIs | internal/replenishment/reorder.go:142 | the safety stock is the nearest thousandth to service factor times sigma times root, nothing when that is not positive; the factor is 1.28 for level 90, 2.33 for 99 and 1.65 otherwise |
| DecisionLaws.SafetyByLevel | internal/replenishment/reorder.go:47-56 | with sigma 1 and four days to D2 the three service levels keep 2.560, 3.300 and 4.660 units |
| DecisionLaws.OnOrderIs | internal/replenishment/reorder.go:254-262 | what counts as on order is all that arrives before D2, overdue deliveries included |
| DecisionLaws.StockoutIs | internal/replenishment/reorder.go:267-294 | the stockout date is the first forecast day on which stock plus all arrivals from today on, less what today still needs and the points of the days after, is negative |
| DecisionLaws.ExplanationAgrees | internal/replenishment/reorder.go:153-188 | the explanation shows the figures of the decision in both branches: position, need, shortfall, dates, factor |
| DecisionLaws.GravestFirst | internal/replenishment/reorder.go:24-44 | out of stock, critical, order today, no forecast, ok: a total order by gravity |
| Journal.InsertErrorIff | internal/stock/service.go:395-410 | a row is accepted exactly when it meets the constraints and shares no identifier, key or reversed movement with another row |
| Journal.RecordSound | internal/stock/service.go:124-246 | a recorded movement keeps balance = journal sum >= 0 for every item, and keys and reversals unique |
| Journal.ReverseSound | internal/stock/service.go:252-352 | so does a reversal |
| LedgerLaws.RecordEffect | internal/stock/service.go:124-246 | a recorded request adds one row, signed by its kind, and moves only the balance of its item by it |
| LedgerLaws.InsufficientIff | internal/stock/service.go:167-189 | the shortage error appears exactly when an available item would go below zero, and carries the balance and the quantity asked for |
| LedgerLaws.RepeatChangesNothing | internal/stock/service.go:124-160 | a second request under a used key succeeds and changes nothing, whatever else it says |
| LedgerLaws.ReverseUndoes | internal/stock/service.go:252-352 | reversing the movement just recorded restores every balance |
| LedgerLaws.ReversedOnce | internal/stock/service.go:252-352 | a movement is reversed at most once and a reversal never |
| LedgerLaws.ReverseSucceedsIff | internal/stock/service.go:252-352 | exactly when a reversal goes through: kind, author, no reversal yet, new identifier, enough stock |
| LedgerLaws.KeyKnownIff | internal/stock/service.go:124-141 | a request is answered from the journal exactly when its key is given and some row carries it |
| LedgerLaws.ValidIff | internal/stock/service.go:354-377 | a request is valid exactly when its quantity is not zero, a write-off gives one of the five reasons, and it lies at most five minutes ahead and seven days back |
| LedgerLaws.InvalidBecause | internal/stock/service.go:354-377 | which of the four errors an invalid request gets, the earlier test first |
| LedgerLaws.RecordedRow | internal/stock/service.go:191-226 | every field of the new row: sign by kind, moment given or now, author, reason, documents, key |
| LedgerLaws.ReversedRow | internal/stock/service.go:286-325 | every field of a reversal: opposite quantity of the same item, now, by who asked, the reason carried over, no key and no document |
| LedgerLaws.RecordSucceedsIff | internal/stock/service.go:124-246 | a new request goes through exactly when its item is in use, the balance stays from zero to below its limit, and the row meets the constraints under a new identifier |
| LedgerLaws.UnavailableBecause | internal/stock/service.go:143-165 | an unknown and an archived item are told apart, before anything else |
| LedgerLaws.ReverseRefusedBecause | internal/stock/service.go:252-352 | which error a refused reversal gets: another's or a reversal, already reversed, not enough stock |
| ShopLaws.RunSound | internal/stock/service.go:124-352 | every run of movements, reversals, counts and orders keeps the ledger sound |
| Concurrent.RunKeepsInv | internal/stock/service.go:124-246 | every interleaving of transactions at READ COMMITTED keeps a sound committed ledger, owned row locks and distinct uncommitted rows |
| Concurrent.CommitIsSerial | internal/platform/sqlc/stock.sql.go:16-30 | at its commit a transaction does what its job does when run alone on the committed ledger |
| Concurrent.Serializable | internal/stock/service.go:124-352 | the committed ledger is the one the committed jobs give when run one by one in commit order |
| Concurrent.NoDeadlock | internal/platform/sqlc/stock.sql.go:171-175 | while some Record or Reverse is unfinished, one of them can take its next step |
| Concurrent.ExactlyEnoughCommit | internal/stock/service.go:124-246 | of N write-offs of q from stock S, all ended without a crash, exactly min(N, S div q) committed |
| AloneLaws.AloneLikeSerial | internal/stock/service.go:124-352 | a Record or Reverse that arrives when all others have ended finishes within eight steps of its own as the job does alone: committed with the job's ledger, replayed with nothing changed when the key exists, or failed with the job's own error |
| AloneLaws.FailureExplained | internal/stock/service.go:277-284 | in every interleaving a failure without a crash is the one the job would get on the ledger of that moment, unless its key or a reversal of its movement was committed after it had looked and found none |
| Store.Database.Record | internal/stock/service.go:93-246 | key probe, checks, balance row, insert, balance change and recalculation end in exactly the state of one atomic recording; an error gives back the state before |
| Store.Database.Reverse | internal/stock/service.go:252-352 | looking up, checking and writing the opposite row end in exactly the state of one atomic reversal; an error gives back the state before |
| Store.Database.CreateCount | internal/stock/counts.go:74-133 | the count and then its lines are written one by one and end as the specified new count; an unknown item undoes the count and the lines already written |
| Store.Database.SetCountLines | internal/stock/counts.go:137-180 | entries are written one by one and end as the specified lines; a negative or unknown one undoes those already written |
| Store.Database.PostCount | internal/stock/counts.go:188-304 | the loop over lines, its adjustments and the final mark end in the specified state; changed lines or an error undo every adjustment already made |
| Store.Database.CreateOrder | internal/orders/service.go:58-134 | the order and then its lines are written one by one and end as the specified draft; an unknown item undoes order and lines |
| Store.Database.UpdateLines | internal/orders/service.go:154-209 | replacements and removals are written one by one and end as the specified lines; an unknown item undoes those already written |
| Store.Database.Send | internal/orders/service.go:213-272 | marking the order and recalculating each line end in the specified state; an error leaves the draft untouched |
| Store.Database.Cancel | internal/orders/service.go:276-315 | as for sending; a second cancel is accepted and changes nothing, a received order is refused |
| Store.Database.Receive | internal/orders/receive.go:32-130 | status change, line marks and one receipt per line end in the specified state; an error at any line undoes status, marks and receipts |
| Store.Database.RecalculateAll | internal/replenishment/batch.go:24-99 | the batch leaves the same statuses and alerts as recalculating the active items one by one |
| CountLaws.PostCountOutcome | internal/stock/counts.go:188-304 | an unforced call fails with exactly the lines whose balance moved; otherwise every counted line ends at its counted balance, other items keep theirs, and no later call can post the document |
| CountLaws.RunCounts | internal/stock/counts.go:137-304 | over every run counts have one line per item, no negative entry, and are frozen once posted |
| DocumentLaws.CountOpens | internal/stock/counts.go:74-133 | a new count has one uncounted line per item asked for, expecting the balance of that moment |
| DocumentLaws.CountingSets | internal/stock/counts.go:137-180 | entries replace what was counted, the last one standing, and never what was expected |
| DocumentLaws.CreateSetsLines | internal/orders/service.go:92-128 | a new order asks for each item in its last positive quantity |
| DocumentLaws.UpdateSetsLines | internal/orders/service.go:154-209 | an update sets an item to its last quantity, drops it if that is not positive and leaves the others |
| DocumentLaws.SendAddsTransit | internal/orders/service.go:213-272 | sending puts exactly the order's lines in transit for D1 of its supplier and touches nothing else but statuses |
| DocumentLaws.CancelRemovesTransit | internal/orders/service.go:276-315 | cancelling takes exactly what was in transit of the order out again |
| DocumentLaws.RefreshTwice | internal/replenishment/service.go:60-112 | recalculating twice equals recalculating once, alerts included |
| DocumentLaws.AlertIff | internal/replenishment/service.go:88-108 | an alert is raised exactly when the status becomes red and worse than the stored one |
| StatusLaws.StoredSituation | internal/replenishment/service.go:116-211 | what a recalculation stores as stock, deliveries before D2, model, window and deadline, read off orders, supplier and item; tomorrow twice without a supplier |
| StatusLaws.StoredRecommendation | internal/replenishment/service.go:185-186 | the stored recommendation is the least multiple of the item's package reaching its minimum order and what is missing, and zero when nothing is; without a forecast the target is the item's manual minimum |
| StatusLaws.StoredTarget | internal/replenishment/service.go:116-211 | the stored target: the stored forecast of today less usage, write-offs and count corrections of today, of the days up to D2, and a safety stock from the item's level, its sigma and the root of the days to D2 |
| StatusLaws.StoredStatus | internal/replenishment/service.go:60-112 | the stored stockout date is the first stored forecast day with a negative balance projected from journal, orders and forecast rows |
| StatusLaws.StoredColour | internal/replenishment/service.go:60-112 | which status is stored, by stock, stockout date, what is missing and window |
| StatusLaws.AlertSays | internal/replenishment/service.go:88-108 | an alert carries item, new and stored status, stock, stockout date and D1; other rows and all documents stay |
| DocumentAnswers.MovementAnswers | internal/stock/service.go:93-246 | a request is refused, answered by its key, or recorded with the documents it names in place and the item's status refreshed |
| DocumentAnswers.OpenAnswers | internal/stock/counts.go:74-133 | a count opens exactly under a new identifier over known items |
| DocumentAnswers.EntryAnswers | internal/stock/counts.go:137-180 | entries go through exactly on an open count, for known items and no negative quantity; each refusal is named |
| DocumentAnswers.PostingWrites | internal/stock/counts.go:188-304 | posting writes, in line order, one adjustment of exactly the difference per counted line that has one, naming the count and who posted it, and no other row |
| DocumentAnswers.CreateAnswers | internal/orders/service.go:58-134 | when an order is created and what it is: a draft at the end of the list with each item in its last positive quantity, none received |
| DocumentAnswers.UpdateAnswers | internal/orders/service.go:154-209 | when an update goes through, which error it gets otherwise, and what stays |
| DocumentAnswers.SendAnswers | internal/orders/service.go:213-272 | when an order can be sent, which error it gets otherwise, and the first delivery day of its supplier as its expected day |
| DocumentAnswers.CancelAnswers | internal/orders/service.go:276-315 | every known order but a received one can be cancelled; a second time changes nothing |
| OrderLaws.RunOrders | internal/orders/service.go:154-315 | over every run received and cancelled orders never change, a sent order keeps supplier, day and ordered lines, and orders stay well formed |
| OrderLaws.RunFresh | internal/replenishment/service.go:60-242 | over every run whose receipts skip no line and replay no key, each stored status equals a fresh decision |
| LateWrites.UnchangedIff | internal/orders/service.go:169-202 | writing a request leaves every ordered quantity as it was exactly when the last word of the request about each item it names is what the lines already say |
| LateWrites.LateUpdate | internal/orders/service.go:154-209 | an update checked before a send and written after it still goes through on the sent order, and its quantities stay as sent exactly when the request asks for the same |
| LateWrites.LinesChangeAfterSend | internal/orders/service.go:154-209 | a concrete draft whose update passes its check and doubles a line after the send |
| LateWrites.LateEntry | internal/stock/counts.go:137-180 | an entry checked before a posting and written after it still goes through on the posted count, and what was counted stays as posted exactly when the entry says the same |
| LateWrites.EntryChangesAfterPosting | internal/stock/counts.go:137-180 | a concrete count whose entry passes its check and changes it after the posting |
| ReceiptLaws.ReceiveAddsReceipts | internal/orders/receive.go:73-125 | a receipt adds exactly one movement per line received in a positive quantity, in line order |
| ReceiptLaws.ReceiveConserves | internal/orders/receive.go:32-130 | without overrides on-hand plus in-transit of every item is unchanged |
| ReceivingLaws.ReceiveOutcome | internal/orders/receive.go:85-118 | with q the quantity given for the item of a line, else the one ordered: the line notes q, the stock of the item rises by exactly q, and if q is positive one new row of the journal is its receipt of q under the order and the line's key; there are no other new rows |
| ReceivingLaws.ReceiveSparesOthers | internal/orders/receive.go:76-124 | items on no line keep their stock |
| ReceivingLaws.ReceiveAnswers | internal/orders/receive.go:32-130 | under unused keys a delivery goes through exactly when the order is sent, has lines and each can be taken in; every refusal is named |
| ReceivingLaws.NegativeRefused | internal/orders/receive.go:85-95 | a negative quantity is refused as such |
| ReceiptLaws.ReceiveFreshBut | internal/orders/receive.go:73-125 | although the order leaves transit before its lines are refreshed, only the skipped items can end stale |
| ReceiptLaws.SkippedFreshIff | internal/orders/receive.go:103-107 | the status of a skipped line stays fresh exactly when its delivery was due at D2 or later and the projected balances up to the first shortage cover it |
| ReceiptLaws.ReceiveFreshIff | internal/orders/receive.go:73-125 | a receipt keeps all statuses fresh exactly when that holds for every skipped line whose item has a status |
| ReceiptLaws.ZeroReceiptLeavesStaleStatus | internal/orders/receive.go:103-107 | a concrete receipt of zero after which a stored status is not a fresh decision |
| Batch.BuildInput | internal/replenishment/service.go:116-211 | forecast rows, grouped deliveries, consumption and window of one item are read and copied into an input whose decision is that of the specification |
| Batch.QueryIncoming | internal/platform/sqlc/orders.sql.go:211-219 | scanning the lines of sent orders gives one row per expected day with the sum ordered |
| Batch.QueryConsumed | internal/platform/sqlc/forecast.sql.go:746-753 | scanning the journal gives the consumption of an item on a day |
| Batch.LoadForecasts | internal/replenishment/batch.go:101-115 | grouping all forecast rows equals filtering them per item |
| Batch.LoadIncoming | internal/replenishment/batch.go:118-133 | the grouped deliveries of each item are its rows |
| Batch.LoadConsumed | internal/replenishment/batch.go:136-147 | the grouped sums equal the consumption of each item today, zero where there is no row |
| Batch.GroupsByDay | internal/replenishment/batch.go:118-133 | rows grouped by item and day arrive, day by day, like the order lines they were summed from |
| Batch.BatchTurn | internal/replenishment/batch.go:24-99 | one turn of the batch loop keeps it level with the per-item run, statuses and alerts |
| ForecastRun.ClipOutliers | internal/forecast/series.go:49-80 | the in-place loop cuts exactly the last eight weeks at Q3 + 3 IQR |
| ForecastRun.CleanSeries | internal/forecast/series.go:19-45 | filtering, sorting and clipping give the specified series |
| ForecastRun.FitM1 | internal/forecast/models.go:25-48 | per weekday the mean of its latest four values, with the overall mean as fallback |
| ForecastRun.SeasonalIndex | internal/forecast/models.go:105-143 | weekday index over the last eight weeks, floored at 0.05, one where there is nothing to divide |
| ForecastRun.FitM2 | internal/forecast/models.go:69-92 | the smoothing loop over deseasonalized values |
| ForecastRun.RunBacktest | internal/forecast/backtest.go:8-68 | the nested loops compare every origin of the last four weeks up to seven days ahead and sum exactly those comparisons |
| ForecastRun.ComputeForecast | internal/forecast/forecast.go:114-161 | the whole computation, model M0 for short histories included |
| ModelLaws.WeekdayMeanIs | internal/forecast/models.go:25-58 | on consecutive days the forecast of M1 for the j-th day ahead is the mean of the same weekday in the last four weeks, or in as many as the history has; with none, of all days |
| ModelLaws.FourWeekAverage | internal/forecast/models.go:25-48 | with four weeks or more: a quarter of the sum of the quantities 7, 14, 21 and 28 days before |
| ForecastAnswers.KeptDays | internal/forecast/series.go:18-45 | exactly the days with data, without stockout, before the date and not negative are kept, in the order of their days |
| ForecastAnswers.QuartileIs | internal/forecast/series.go:83-98 | a quartile lies between two neighbours of the sorted values in proportion to its position |
| ForecastAnswers.ClipIs | internal/forecast/series.go:49-80 | fewer than eight points and points before the last 56 stay; the others are cut at upper quartile plus three times the distance between the quartiles |
| ForecastAnswers.SeasonIs | internal/forecast/models.go:105-143 | the index of a weekday is its mean over the mean of the last 56 points, at least a twentieth |
| ForecastAnswers.SmoothingIs | internal/forecast/models.go:69-103 | M2 starts from the deseasonalized mean of the first week, weighs each value by its age and forecasts level times season, never below zero |
| ForecastAnswers.ComparisonsAre | internal/forecast/backtest.go:20-46 | the backtest compares exactly: trained on the first i points, 7 <= i and at most 28 from the end, one to seven days ahead, where there is a fact |
| ForecastAnswers.MetricsAre | internal/forecast/backtest.go:48-68 | WAPE times the sum of facts is the sum of absolute errors, bias that of signed ones; the cases without comparisons or consumption |
| ForecastAnswers.VarianceIs | internal/forecast/backtest.go:81-92 | sigma squared times one less than the number of errors is the sum of their squared distances from their mean |
| ForecastAnswers.SelectedIs | internal/forecast/forecast.go:128-148 | the first candidate with the least WAPE wins among M1 and, from 28 days on, smoothing by 0.1 to 0.5; its figures are returned |
| ForecastAnswers.ComputeAnswers | internal/forecast/forecast.go:114-176 | 14 days unless asked otherwise, from the date on, each the chosen model's forecast to the nearest thousandth; zero and M0 below seven days |
| ClippingLaws.ThresholdAboveUpper | internal/forecast/series.go:83-98 | the threshold is never below the sample Q3 interpolates towards |
| ClippingLaws.ClipIdempotent | internal/forecast/series.go:49-80 | clipping a clipped series changes nothing |
| ClippingLaws.ClipTouchesAQuarter | internal/forecast/series.go:49-80 | at most a quarter of the window is cut |
| ForecastLaws.OrderDoesNotMatter | internal/forecast/series.go:18-45 | the forecast is the same for any order of the observations, retained days being distinct |
| ForecastLaws.NoiseDoesNotMatter | internal/forecast/series.go:19-33 | an observation without data, in stockout, negative or not before the date changes nothing, wherever it is inserted |
| ForecastLaws.SelectionIsMinimal | internal/forecast/forecast.go:128-148 | the chosen model has the least WAPE of all candidates and every earlier candidate a strictly greater one |
| WeeklyLaws.RegularIsExact | internal/forecast/forecast.go:114-161 | on a gap-free history of eight or more days that depends only on the weekday, M1 is chosen with zero WAPE, bias and variance and forecasts the clipped weekday value on each day |
| SmoothingLaws.SmoothIsWeighted | internal/forecast/models.go:69-92 | the level is the sum of the deseasonalized values with weights alpha (1 - alpha)^age, the rest going to the start |
| SmoothingLaws.FlatForecast | internal/forecast/models.go:51-103 | on a flat history both models forecast that quantity for every day and every alpha |
| SmoothingLaws.BiasMeans | internal/forecast/backtest.go:36-66 | bias lies within WAPE, equals it when all forecasts were too high and is its opposite when all were too low |
| Series.Distribute | internal/forecast/pipeline/series.go:74-119 | the loops put on each day the movements' parts, corrections spread since the previous count |
| Series.BuildSeries | internal/forecast/pipeline/series.go:34-61 | grouping by item keeps order, and every item gets one observation per day of the window |
| Series.SeriesConserves | internal/forecast/pipeline/series.go:34-119 | the observations of an item add up to minus its movements, for any rounding of the share |
| Series.OrdinaryDay | internal/forecast/pipeline/series.go:88-104 | consumption, and a correction that found more, counts on its own day only |
| Series.CorrectionDays | internal/forecast/pipeline/series.go:88-116 | a correction that found less puts one share on each day since the day after the last count, or since the window began, the rest on its own day and nothing outside |
| Series.ObservationIs | internal/forecast/pipeline/series.go:45-60 | the i-th observation is that of the i-th day, marked by data and by the item's own stockouts |
| Series.SpreadIsEven | internal/forecast/pipeline/series.go:106-116 | with a nearest share, earlier days are within half a thousandth of the equal share and the last within (days - 1)/2 |
| Series.LastDayNegativeIff | internal/forecast/pipeline/series.go:110-116 | for any nearest share the last day is negative exactly when the share was rounded up and quotient plus remainder plus one is below the number of days; off a tie the rounding is forced, at a tie both are open |
| Series.EqualSpread | internal/forecast/pipeline/series.go:106-116 | with halves rounded up both bounds hold and the last day is negative exactly when at least half a thousandth per day was left over and did not go round |
| Series.TieEitherWay | internal/forecast/pipeline/series.go:106-116 | three thousandths over six days: a last day of minus two or of three, as the tie is rounded |
| Series.NegativeLastDay | internal/forecast/pipeline/series.go:110-116 | four thousandths over a week leave minus two for the last day |
| History.GenerateItemHistory | internal/sandbox/history.go:128-232 | the day loop gives the specified movements and balance for every sequence of draws |
| History.HistoryPossible | internal/sandbox/history.go:128-232 | whatever is drawn, movements are in time order, no prefix goes below zero and the total is the returned balance |
| History.OneAtATime | internal/sandbox/history.go:205-229 | an order is placed only on or after the due day of the one before |
| History.OrderArrives | internal/sandbox/history.go:158-178 | an order stays outstanding until the start of its due day, which is never skipped |
| History.OrderIsReceived | internal/sandbox/history.go:158-178 | an order due within the history is booked in that morning in the delivered quantity |
| History.FindLead | internal/sandbox/history.go:235-244 | the lead of a supplier is its days plus one, two for an unknown one, so at least one day, as the arrival of orders needs |
| History.HistoryWritable | internal/sandbox/history.go:128-232 | with a positive parcel every generated movement has a positive quantity, one of four kinds, and a reason if it is a write-off |
| HistoryLaws.DayRule | internal/sandbox/history.go:145-232 | a day is its arrival, its demand, its losses and its order, in this turn |
| HistoryLaws.ArrivalRule | internal/sandbox/history.go:157-176 | an order due is booked at nine, one in ten short by a twentieth to a fifth, and is outstanding no more |
| HistoryLaws.DemandRule | internal/sandbox/generator.go:132-168 | base, weekend factor, trend from 90 to 110 per cent, noise, double on a spike, never negative |
| HistoryLaws.UsageRule | internal/sandbox/history.go:178-194 | demand leaves at two in the afternoon as far as there is stock |
| HistoryLaws.LossRule | internal/sandbox/history.go:196-210 | one day in four loses one to three hundredths of its consumption, with a reason, if still there |
| HistoryLaws.OrderRule | internal/sandbox/history.go:212-229 | when an order is placed: not in the last three days, none outstanding, less than four days of base demand left, not forgotten |
| HistoryLaws.ParcelIs | internal/sandbox/history.go:132-138 | an order is a week of base demand in the least number of whole packages |
| BulkLoad.GenerateHistory | internal/sandbox/history.go:28-124 | the load succeeds exactly when the identifiers are new and movements and balances fit their columns; it then appends one batch of signed rows, raises each balance by its part and keeps the ledger sound |
| BulkLoad.Reconcile | internal/stock/query.go:150-187 | the report lists exactly the items whose balance, or zero, differs from the journal, each once; it is empty if and only if none does |
| BulkLoad.WrittenRow | internal/sandbox/history.go:79-124 | each written row: item and quantity of its movement, negative for usage and write-offs, the owner as author, no document and no key |
| Outbox.ComputeBackoff | internal/notify/notify.go:47-56 | the delay is five to the power of the earlier attempts, at most a day |
| Outbox.Dispatcher.Dispatch | internal/notify/outbox.go:60-153 | a pass claims the picked rows and delivers them one by one with the specified outcomes |
| OutboxLaws.SendsBounded | internal/notify/outbox.go:110-153 | over every run of passes no message is sent more than MaxAttempts times plus once per result that could not be written back |
| OutboxLaws.ClosedIsFinal | internal/notify/outbox.go:60-153 | a sent or failed row is neither changed nor sent again by a pass |
| OutboxLaws.DeliveryAnswers | internal/notify/outbox.go:110-153 | what one delivery does by channel, payload, answer and attempts: sent, given up at the fifth attempt or a permanent refusal, or due again after its delay |
| OutboxLaws.BackoffIs | internal/notify/notify.go:47-56 | the delays are 1, 5, 25, 125, 625 and then 1440 minutes |
| OutboxLaws.ClaimIs | internal/notify/outbox.go:60-83 | a claim counts one attempt on each picked row and touches nothing else |
| OutboxLaws.PassAnswers | internal/notify/outbox.go:60-99 | what a pass leaves of each picked row and calls, and that its tally counts exactly these outcomes |
| OutboxLaws.TallyAddsUp | internal/notify/outbox.go:49-99 | claimed = sent + retried + failed |
| OutboxLaws.PassUses | internal/notify/outbox.go:60-153 | the attempts left over all pending messages fall by at least the number claimed |
| OutboxLaws.QueueEmpties | internal/notify/outbox.go:60-153 | after as many passes as there are attempts left, or more, each late enough for every pending message and none losing a result, nothing is pending |
| OutboxLaws.BusyPassesBounded | internal/notify/outbox.go:60-153 | passes that claim something and the attempts left after them never exceed the attempts left before |
| OutboxLaws.DueIsClaimed | internal/platform/sqlc/notify.sql.go:15-25 | a pass claims something whenever anything is due |
| OutboxLaws.SendsWithinAttempts | internal/notify/outbox.go:66-83 | in every interleaving of any number of workers, sends plus jobs in hand never exceed the attempts counted |
| OutboxLaws.SentTwice | internal/notify/outbox.go:66-83 | two workers, one message, nothing lost, two sends |
| OutboxLaws.TwiceIffTwoInHand | internal/notify/outbox.go:85-95 | from any state accepted deliveries can send a message twice exactly when two jobs in hand will call the sender for it |
| OutboxLaws.FinishingSends | internal/notify/outbox.go:110-153 | over any deliveries, whatever their outcome, sends made plus jobs in hand that will send stay the same |
| OutboxLaws.ExclusiveSendsBounded | internal/notify/outbox.go:60-153 | in every interleaving in which no worker claims a message another has in hand, no message is sent more than MaxAttempts times plus once per lost result |
| OutboxLaws.ExclusiveClosedIsFinal | internal/notify/outbox.go:60-153 | in such an interleaving a message marked sent or failed is never changed or sent again |
| OutboxLaws.ApartNeverTwice | internal/notify/outbox.go:66-83 | such workers never have two jobs that send one message |
| Identifiers.TextRoundTrip | internal/stock/query.go:205-208 | reading the text of an identifier gives it back, so distinct identifiers have distinct texts |
| Cursor.Base64RoundTrip | internal/stock/query.go:205-217 | unpadded base64url (RFC 4648, section 5) decodes to the bytes encoded |
| Cursor.TimeRoundTrip | internal/stock/query.go:205-224 | an RFC 3339 timestamp with its zeros trimmed parses back, nanoseconds and leap days included |
| Cursor.CursorRoundTrip | internal/stock/query.go:205-231 | decoding a cursor gives the position it was made from |
| Paging.ListMovements | internal/stock/query.go:47-110 | a page is the topmost matching rows below the cursor, limited to 50 by default and 200 at most, with a next cursor exactly when more remain |
| Paging.CursorContinues | internal/stock/query.go:95-104 | a returned cursor leads to the rows strictly after the last one shown |
| Paging.PageIsTop | internal/platform/sqlc/stock.sql.go:633-654 | every matching row is on the page or strictly below its next cursor |
| Paging.PagingIsComplete | internal/stock/query.go:47-110 | while rows are added anywhere between pages, the pages together are strictly descending and, at the end, hold every matching row present at the start exactly once |
| Paging.FilterMeans | internal/platform/sqlc/stock.sql.go:633-654 | each filter keeps the rows it names, the period without its end; no filter keeps all |
| Paging.PageSizes | internal/stock/query.go:47-54 | 50 rows by default, 200 at most |
| Cursor.CursorForm | internal/stock/query.go:205-208 | a cursor is the encoded text of moment, bar and identifier |
| Cursor.BadCursors | internal/stock/query.go:210-231 | which cursors are refused and that the empty one starts at the top |

## Left out

- Concurrent.Serializable: covers Record and Reverse; PostCount and Receive, which lock several rows in their own orders, are modelled as atomic steps only, and freedom from deadlock is claimed only for the first two.
- OrderLaws.RunFresh: receipts with a skipped line or a composite key already in the journal are excluded; the first case is settled by ReceiptLaws.ReceiveFreshIff, the second leaves the line unrefreshed because the recording is answered from the journal.
- WeeklyLaws.RegularIsExact: over exact reals; floating-point rounding is not modelled.
- Series.LastDayNegativeIff: the share is taken to be a nearest thousandth; for quantities so large that the float 1/days shifts the product by more than the distance to a tie, only Series.SeriesConserves applies.
- LateWrites.LateUpdate: an interleaving of two whole transactions; three or more writers of one document are not interleaved.
- OutboxLaws.ExclusiveSendsBounded: messages enqueued during the run are rows present from the start that are not due yet.
- Cursor.CursorRoundTrip: timestamps are calendar fields of the years 0 to 9999 in UTC; other zone offsets, fractions after a comma and the other spellings of an identifier that the parser accepts are read as bad cursors here.
- Paging.ListMovements: the conversion between instants and calendar fields is a parameter that must be faithful on the stored rows.
- BulkLoad.GenerateHistory: balances are set in arbitrary order, so which error is reported first is open.
- Outbox.Dispatcher.Dispatch: an unconfigured channel and an unreadable payload are flags of the message; message texts, error texts and metrics are not modelled.
- DeliveryWindow.DeadlineAhead: fixed-offset zones only; daylight-saving shifts are not modelled.
- HTTP handlers, sessions, access rights, audit log, rate limits, row-level security and more than one tenant or warehouse.
- Creation of orders from suggestions, the default item list of a count, order texts, purchase units, comments, and timestamps other than those of movements.
- Overflow of the status columns and of forecast columns; only balances and movements have their column limits.
- Listing order of order lines in the interface; lines keep the order in which they were entered.
- Accuracy figures, parsing and printing of quantities, CSV import, catalogue editing, guide steps and the clean-up of demo tenants.
- The day on which a report window is shorter than empty (`to` before the day preceding `from`), where the original would panic while reserving memory.
