# swingdash: a verified model

This project models the accounting, cache and feed state machines of swingdash, a dashboard for
stocks on the NSE, and proves that each clever incremental form agrees with a simple specification over every run.

- **Broker import.** `Ledger` and `Reconciliation` describe what importing a broker's fills means: every
  share is tracked on its own, in a queue per stock and funding. `Broker` is the code as it runs - a deque of
  lots, exits updated in place - proved against that account. `BrokerConservation`, `BrokerMismatch`,
  `BrokerRefs` and `BrokerStability` prove what the account promises: nothing is lost, mismatches are
  reported exactly when they should be, refs identify rows, and open rows keep theirs. `BrokerByFills` and
  `PositionsByFills` work out every listed row and line from the fills and holdings alone, with no account, and
  prove that just those are listed. `ClosedRows` says exactly when closed rows survive later reconciliations, and
  `SyncStability` carries it to the store.
- **Sync.** `PositionTable` and `BrokerTrades` are the two SQL tables as maps. `DhanMerge` says what merging
  reconciled positions into the table may do; `DhanSync` and `DhanSyncService` do it; `DhanHistory` reads the
  missing days in windows and pages.
- **Feed.** `HubSpec` is the hub without reference counts. `MarketDataHub` is the class with its counts and
  routing tables. `FeedProtocol` interleaves its locked calls with a connected handler that copies under
  the lock and sends outside it. `HubRequests` is what consumers asked for, from the history of requests alone.
- **Rate limiter.** `RateLimiter`: sliding windows and a pause, over any interleaving of threads;
  `GrantsByEvents` says who is let through from the events alone.
- **Caches and metrics.** `Candles` (daily candle cache), `Ema`, `Mswing`, `BurstScore`, `Scanner` (live
  values against recomputing everything), `Calendar`, `RvolCurve` (typical volume by minute).
  `MomentumByCloses` and `ScreenByHistory` state the numbers on screen by the bars behind them.
- **Risk.** `RoundTripCharges`, `Sizing`, `Portfolio`, `RiskRun`, `RiskService`: the sized quantity is the
  largest that keeps every limit, and whole runs of sized trades stay within heat and capital.
  `SizingByNumbers` and `RiskByNumbers` say so in plain sums of money.

`Wrappers`, `Sums`, `Ordering`, `Dates` and `Bars` are shared vocabulary. `dafny verify dfyconfig.toml`
checks everything.

Money and clock readings are reals, days are ordinals, a NaN high or low is an absent one, SQL tables are maps,
Python exceptions are `Result` or `Option` values, and code run under a lock is one atomic step.

## Where a stated property is not quite true

The code was kept as it is; one member gives the case, another the exact condition.

- *Open quantity = expected + unmatched + history beyond the holding* fails for a stock that is no longer held
  but was sold from before the history: the shares it infers have no holding to back them
  (`BrokerMismatch.UnmatchedSaleWithoutDisagreement`, exactly when: `BrokerMismatch.FormulaHoldsIff`).
- *Closed rows are stable across syncs* fails in two ways, both through shares held from before the history.
  When such a holding is sold out, the next day its closed rows are gone and the sales unmatched
  (`ClosedRows.SoldOutHoldingLosesItsRow`). When such shares are seen only later - they were sold by the day of
  the first sync, and a new buy brings the holding back - they take over earlier sales, and the round trips
  closed before are gone (`ClosedRows.NewlyShownHoldingLosesARow`). The exact condition for one book is
  `ClosedRows.BookRowsKeptIff`, for a whole reconciliation `ClosedRows.ClosedPositionsKeptIff`, for two syncs of
  one store `SyncStability.SyncKeepsClosedIff`.
- *Everything between the history markers has been read* fails after a sync that starts later than the day
  after the last one read (`DhanHistory.LaterStartLeavesHole`, exactly when: `DhanHistory.CoverageKeptIff`).
- *`daily` is a direct read* fails after more than ten days without a session, when nothing is fetched
  (`Candles.MissedSession` is such a run; `Candles.QuietReadIff` and, from the calendar alone,
  `Candles.CalendarReadIff` and the last clause of `Candles.CandleService.Daily` are the exact condition).

## Model

| member | source | states |
|---|---|---|
| `Broker.Book.Open` | src/swingdash/domain/broker.py:197-205 | The inferred opening lot puts exactly the older shares, at the holding's average cost, on the share queue, and names the holding; without a holding or older shares the book stays empty |
| `Broker.Book.Append` | src/swingdash/domain/broker.py:211-219 | One lot more is as many equal shares more at the back of the queue |
| `Broker.Book.Buy` | src/swingdash/domain/broker.py:208-219 | A buy appends its shares, one by one, under the name of the holding it joins or starts |
| `Broker.Book.TakeFromFirstLot` | src/swingdash/domain/broker.py:262-273 | One turn of the loop takes equal shares off the front of the expanded deque and adds them to one exit; no lot is left at zero |
| `Broker.Book.ConsumeLot` | src/swingdash/domain/broker.py:261-273 | Seen from the reference account: the shares taken so far are the front of its queue, and the exits are its sold shares grouped by day and holding |
| `Broker.Book.Consume` | src/swingdash/domain/broker.py:257-273 | The loop stops only when the sale is filled or the deque is empty, with exactly the matched prefix of the queue moved to the exits |
| `Broker.Book.Sell` | src/swingdash/domain/broker.py:257-276 | FIFO refinement: a sale drops as many shares from the front of the queue as it can, and returns exactly what found none |
| `Broker.Book.Fill` | src/swingdash/domain/broker.py:207-226 | Either side of a fill does to the deque what the share-by-share account says, and an unmatched remainder is recorded once |
| `Broker.Book.ClosedPositions` | src/swingdash/domain/broker.py:279-301 | The rows are one per sell day and holding that sold shares, in key order, with that group's quantity, average cost, average proceeds, charges and earliest day |
| `Broker.Book.OpenPosition` | src/swingdash/domain/broker.py:304-323 | The open row is named by the first share left and totals every share left |
| `Broker.ExitsAppendRepeat` | src/swingdash/domain/broker.py:264-269 | Adding a lot's shares to one exit is the same as logging each share's sale and regrouping the whole log |
| `Broker.ExitsHaveSales` | src/swingdash/domain/broker.py:283-285 | Every exit holds at least one sale and has an opening day, so the skip in the row loop never drops one |
| `Broker.RebuildBook` | src/swingdash/domain/broker.py:195-226 | After all fills in order the book stands for the reference account, with one "sold more" line per sale that found too few shares |
| `Broker.ReconcileBook` | src/swingdash/domain/broker.py:188-249 | One book: rows and mismatch lines are those of its reference account |
| `Broker.Reconcile` | src/swingdash/domain/broker.py:153-250 | The whole of `reconcile`: positions and mismatches are those of the per-book reference accounts, books in key order |
| `BrokerConservation.FirstInFirstOut` | src/swingdash/domain/broker.py:207-226 | FIFO: the shares sold, in order of sale, followed by the shares left are exactly the shares acquired, in order |
| `BrokerConservation.QuantitiesBalance` | src/swingdash/domain/broker.py:197-226 | Opening plus bought shares are sold plus left; sales are matched plus unmatched |
| `BrokerConservation.MoneyBalances` | src/swingdash/domain/broker.py:264-269 | Cost in is cost out plus cost left; charges out plus left are buy charges plus the matched fraction of each sale's charges |
| `BrokerConservation.ClosedRowsHoldSales` | src/swingdash/domain/broker.py:279-301 | The closed rows together carry every sale: quantity, FIFO cost, proceeds and charges |
| `BrokerConservation.Conservation` | src/swingdash/domain/broker.py:197-250 | Conservation of one book, read off the rows it emits and the queue it leaves: shares, FIFO cost, charges, and proceeds - each sale's price for every share there was to sell, worked out from the fills alone |
| `BrokerByFills.ShortfallsReported` | src/swingdash/domain/broker.py:274-276 | The unmatched remainders are, sale by sale, what the shares held by then fell short of |
| `BrokerByFills.NameIsEpisode` | src/swingdash/domain/broker.py:202-219 | Which holding a share belongs to, from the fills alone: named at the start, and anew by the first buy after nothing was left |
| `BrokerByFills.SalesAgree` | src/swingdash/domain/broker.py:257-273 | What is sold on one day from one holding, from the fills alone: the proceeds and charges of its sales' matched shares, and which of the shares acquired, in order, they were |
| `PositionsByFills.ProductNames` | src/swingdash/domain/broker.py:28-33 | The product codes: delivery, margin and intraday, in any case; others belong to no book |
| `PositionsByFills.BookFillsExact` | src/swingdash/domain/broker.py:171-190 | A book has exactly the fills of its stock and funding, by time and then trade id |
| `PositionsByFills.HoldingExact` | src/swingdash/domain/broker.py:178-193 | A book's holding is the last one listing its stock with a positive quantity under its funding |
| `PositionsByFills.ClosedPositionsExact` | src/swingdash/domain/broker.py:153-301 | A row is listed as closed exactly when some book sold such shares that day: quantity, average cost and proceeds, charges, days, ref and note worked out from the fills and the holding alone |
| `PositionsByFills.OpenPositionsExact` | src/swingdash/domain/broker.py:153-323 | A row is listed as open exactly when a book has shares left: the last of those acquired, at their average cost and charges, under the holding they belong to |
| `PositionsByFills.LinesExact` | src/swingdash/domain/broker.py:227-245 | The lines of one book: a "sold more" line per sale that fell short, by how much, then one line when what is left is not what the broker shows |
| `PositionsByFills.MismatchesExact` | src/swingdash/domain/broker.py:227-250 | A line is reported exactly when some book has it |
| `BrokerMismatch.OpenQuantityExact` | src/swingdash/domain/broker.py:238-241 | Open quantity = expected + unmatched sales - older + the older shares a holding backs, for every book |
| `BrokerMismatch.FormulaHoldsIff` | src/swingdash/domain/broker.py:197-205 | The shorter formula (expected + unmatched + history beyond the holding) holds exactly when there is a holding or nothing older |
| `BrokerMismatch.DisagreementWithHolding` | src/swingdash/domain/broker.py:242-245 | With a holding the "trades leave / broker shows" line appears exactly when a sale was unmatched or history exceeds the holding |
| `BrokerMismatch.DisagreementWithoutHolding` | src/swingdash/domain/broker.py:242-245 | Without one it appears exactly when shares are left and unmatched sales do not cancel the net of the days before today |
| `BrokerMismatch.UnmatchedSaleWithoutDisagreement` | src/swingdash/domain/broker.py:242-245 | For any day, a book with an unmatched sale, shares left and no line: the two errors cancel |
| `BrokerRefs.EpisodeInvariant` | src/swingdash/domain/broker.py:202-219 | At every step the deque is empty exactly when no holding is named, and all its shares carry that one name |
| `BrokerRefs.ClosedRefInjective` | src/swingdash/domain/broker.py:288-288 | A closed ref determines stock, funding, holding and day, though trade ids may hold colons |
| `BrokerRefs.OpenRefInjective` | src/swingdash/domain/broker.py:312-312 | An open ref determines stock, funding and holding |
| `BrokerRefs.ClosedRefIsNotOpen` | src/swingdash/domain/broker.py:283-312 | No closed ref is an open ref |
| `BrokerRefs.PositionRefsDistinct` | src/swingdash/domain/broker.py:186-250 | All refs of a reconciliation are pairwise distinct, and there is at most one open row per stock and funding |
| `BrokerStability.BookFillsAppend` | src/swingdash/domain/broker.py:190-190 | Fills of strictly later days sort after all earlier ones |
| `BrokerStability.OlderUnchanged` | src/swingdash/domain/broker.py:198-201 | If the holding moves by the fills in between, the shares held from before the history stay the same number |
| `BrokerStability.OpeningUnchangedIff` | src/swingdash/domain/broker.py:201-205 | The inferred opening is the same on both days exactly when nothing was older, or the stock is held on both days or on neither |
| `BrokerStability.ExitKept` | src/swingdash/domain/broker.py:257-273 | Later fills add nothing to the exit of an earlier day |
| `BrokerStability.ClosedRowsSurvive` | src/swingdash/domain/broker.py:279-301 | With the opening unchanged, every closed row of a book is in the later reconciliation, unaltered |
| `BrokerStability.ClosedPositionsSurvive` | src/swingdash/domain/broker.py:153-250 | ... and so over the whole reconciliation |
| `BrokerStability.OpenPositionIsRow` | src/swingdash/domain/broker.py:304-323 | The open positions are exactly the open rows of the books with shares left, intraday ones apart |
| `BrokerStability.OpenRefKept` | src/swingdash/domain/broker.py:304-312 | An open position whose shares are never all sold in between is listed by the later reconciliation, under the same ref |
| `ClosedRows.AvoidsKept` | src/swingdash/domain/broker.py:208-219 | Only a fill of that trade id brings a new holding name into a book |
| `ClosedRows.SameFromHere` | src/swingdash/domain/broker.py:207-226 | Two books with the same shares left sell the same shares from then on |
| `ClosedRows.SoldOutBook` | src/swingdash/domain/broker.py:201-205 | Shares from before the history that the later reconciliation no longer sees: every closed row of the book recurs exactly when the earlier fills held no sale |
| `ClosedRows.NewlyShownBook` | src/swingdash/domain/broker.py:201-205 | Shares from before the history that only the later reconciliation sees: every closed row recurs exactly when nothing was sold after a buy, or the sales before the first buy used those shares up |
| `ClosedRows.BookRowsKeptIff` | src/swingdash/domain/broker.py:197-226 | One book: every closed row recurs unaltered exactly when nothing is older, the stock is held on both days or on neither, or one of the two conditions above holds |
| `ClosedRows.ClosedPositionIsRow` | src/swingdash/domain/broker.py:279-301 | The closed positions are exactly the closed rows of the books |
| `ClosedRows.ClosedPositionsKeptIff` | src/swingdash/domain/broker.py:153-250 | The whole reconciliation: no closed position is lost or altered later exactly when that holds in every book |
| `ClosedRows.SoldOutHoldingLosesItsRow` | src/swingdash/domain/broker.py:202-205 | For any day: a share from before the history, sold; its closed position is listed that day, and the day after is gone with the sale unmatched |
| `ClosedRows.NewlyShownHoldingLosesARow` | src/swingdash/domain/broker.py:202-205 | For any day: an old share seen again only after a new buy takes over an earlier sale, and the round trip closed before is gone |
| `Dates.IsoInjective` | src/swingdash/domain/broker.py:288-288 | Different days have different ISO texts |
| `PositionTable.PositionRepository.All` | src/swingdash/adapters/storage/repos/positions.py:23-33 | Every row once, open ones first by day, closed ones after by latest exit |
| `PositionTable.PositionRepository.Add` | src/swingdash/adapters/storage/repos/positions.py:43-79 | A manual row under a fresh id: open, without a ref, its stop also its initial one, its quantity and stop the plan when it was sized first; every other row as before |
| `PositionTable.PositionRepository.Update` | src/swingdash/adapters/storage/repos/positions.py:81-97 | Quantity, entry, stop, note and day change; every other column, the plan and an initial stop once set stay; so does every other row, and a missing id changes nothing |
| `PositionTable.PositionRepository.Close` | src/swingdash/adapters/storage/repos/positions.py:99-104 | The row gets that exit price and day and keeps every other column; every other row stays, and a missing id changes nothing |
| `PositionTable.PositionRepository.ByRef` | src/swingdash/adapters/storage/repos/positions.py:112-120 | Exactly the imported rows, each under its ref |
| `PositionTable.PositionRepository.SaveImported` | src/swingdash/adapters/storage/repos/positions.py:122-169 | The one row holding the ref, or the given row, or a new one gets the broker's columns; stop, plan and a written note stay; an id that is not there updates nothing, and a ref another row holds is refused |
| `PositionTable.PositionRepository.DeleteRefs` | src/swingdash/adapters/storage/repos/positions.py:171-179 | Exactly the rows with those refs go |
| `DhanMerge.MatchingPlan` | src/swingdash/services/dhan_sync.py:376-386 | Of the plans for the stock within five days of the buy, the closest, the first of equals; none exactly when there is none |
| `DhanMerge.StageStep` | src/swingdash/services/dhan_sync.py:291-313 | Saving one wanted position into an untouched row keeps everything already merged as it is |
| `DhanSync.SaveIntoStale` | src/swingdash/services/dhan_sync.py:294-307 | A stale open row of the same stock and funding takes the new ref and is no longer stale |
| `DhanSync.SaveIntoPlan` | src/swingdash/services/dhan_sync.py:302-310 | Otherwise the closest plan becomes the import and is no longer a plan |
| `DhanSync.SaveNew` | src/swingdash/services/dhan_sync.py:311-313 | Otherwise a new row, when neither exists |
| `DhanSync.MergePositions` | src/swingdash/services/dhan_sync.py:278-320 | The whole merge: stored refs are the wanted ones, each row placed by the rules above, untouched rows untouched |
| `DhanMerge.UserColumnsKept` | src/swingdash/services/dhan_sync.py:291-313 | Stop, initial stop, plan and a written note survive on every row that survives |
| `DhanMerge.OneRowEach` | src/swingdash/services/dhan_sync.py:311-320 | Each wanted position is on exactly one row, with the broker's figures and the user's note; a ref stays on its row, a new row has no stop and no plan |
| `DhanMerge.ManualRowsKept` | src/swingdash/services/dhan_sync.py:281-310 | A manual row is never lost, and changes only if it is an open, sized plan that became the import of a new buy of its stock at most five days away |
| `DhanMerge.RefMoves` | src/swingdash/services/dhan_sync.py:291-310 | A row changes its ref only for a new open position: as the plan for it, or as the import of its holding it supersedes |
| `DhanMerge.PlanFollows` | src/swingdash/services/dhan_sync.py:302-310 | A buy with a plan near it, and no older import of its holding, is on a plan at least as close, or that plan became another import |
| `DhanMerge.ImportedRowsKept` | src/swingdash/services/dhan_sync.py:289-320 | An imported row goes only when its ref is unwanted and no new position of its holding was left to take it over |
| `DhanMerge.StopFollows` | src/swingdash/services/dhan_sync.py:294-307 | A holding whose ref changed keeps its row: the one stale row takes the new ref, with stop and plan |
| `DhanMerge.MergedSettles` | src/swingdash/services/dhan_sync.py:278-320 | After a merge the table holds exactly the wanted positions, up to date |
| `DhanMerge.SettledUnchanged` | src/swingdash/services/dhan_sync.py:278-320 | Merging the same positions again changes no row |
| `DhanSync.WantedRefsDistinct` | src/swingdash/services/dhan_sync.py:278-279 | What is merged is the reconciled refs minus the hidden ones, all distinct |
| `DhanSyncService.DhanSyncService.Apply` | src/swingdash/services/dhan_sync.py:261-328 | The stored refs are exactly the reconciled ones minus the hidden ones; the table is merged and settled; a second call on the same inputs changes nothing |
| `DhanSyncService.DhanSyncService.ReadHistory` | src/swingdash/services/dhan_sync.py:239-247 | Every day between the new markers has all its fills stored whenever that held before and the start leaves no hole; a failed read moves no marker |
| `DhanSyncService.DhanSyncService.SaveToday` | src/swingdash/services/dhan_sync.py:250-250 | Re-reading today keys each fill by id |
| `DhanSyncService.DhanSyncService.Sync` | src/swingdash/services/dhan_sync.py:239-254 | A sync from its reads to its merge: no stored fill is lost, coverage is kept under a start that leaves no hole, the table is merged with what the stored fills and holdings say; a request that fails leaves the positions as they were |
| `SyncStability.SyncInputsExact` | src/swingdash/services/dhan_sync.py:261-276 | What is reconciled: exactly the stored fills of the start day or later that have an NSE name, in stored order, under that name |
| `SyncStability.OnlyFromStart` | src/swingdash/services/dhan_sync.py:266-268 | Two stores that agree from the start day on give the same positions and the same lines |
| `SyncStability.SaveExtends` | src/swingdash/adapters/storage/repos/broker_trades.py:35-53 | Saving fills already stored in full and new ones of later days leaves every earlier fill as it is and adds only later ones |
| `SyncStability.StoredFillsExtend` | src/swingdash/adapters/storage/repos/broker_trades.py:56-78 | The stored fills, in order, are then the earlier ones followed by the new ones |
| `SyncStability.SavedFillsFollow` | src/swingdash/services/dhan_sync.py:261-276 | So what a later sync reconciles are the earlier sync's fills followed by fills of later days |
| `SyncStability.SyncKeepsClosedIff` | src/swingdash/services/dhan_sync.py:239-278 | Two syncs of one store: the later keeps every closed position exactly when no book's opening shares matter, if the holdings move by the fills in between |
| `DhanHistory.GapsExact` | src/swingdash/services/dhan_sync.py:335-346 | The gaps hold exactly the days asked for that are not known yet, in order and disjoint |
| `DhanHistory.CoverageKeptIff` | src/swingdash/services/dhan_sync.py:239-247 | Every day between the markers is read after a sync exactly when the start asked for is no later than the day after the last one read |
| `DhanHistory.LaterStartLeavesHole` | src/swingdash/services/dhan_sync.py:243-247 | A concrete later start and a day it leaves unread for good |
| `DhanHistory.WindowsPartition` | src/swingdash/adapters/dhan/source.py:49-58 | The windows follow one another without gap or overlap from first to last day, 90 days each and at most 90 the last |
| `DhanHistory.WindowsCover` | src/swingdash/adapters/dhan/source.py:49-58 | A day is in some window exactly when it is in the range |
| `DhanHistory.ReadPages` | src/swingdash/adapters/dhan/source.py:51-57 | Pages are read in order up to the first empty one |
| `DhanHistory.PagesExact` | src/swingdash/adapters/dhan/source.py:51-57 | The pages read are the first ones up to an empty page, at most 500, each as fetched |
| `DhanHistory.HistoryOnPages` | src/swingdash/adapters/dhan/source.py:46-59 | A fill is in the history exactly when it is on a page read of some window |
| `DhanHistory.TradeHistory` | src/swingdash/adapters/dhan/source.py:46-59 | Window after window, page after page: the fills of the whole range in order, or nothing if a request fails |
| `DhanHistory.HistoryComplete` | src/swingdash/adapters/dhan/source.py:46-59 | A successful read brings every fill of every day in the range, if each is on some page before the first empty one of every range that holds its day |
| `BrokerTrades.SaveKeeps` | src/swingdash/adapters/storage/repos/broker_trades.py:35-53 | Saving stores each fill once under its id, forgets none and never lowers a fill's charges |
| `BrokerTrades.LastReadingStored` | src/swingdash/adapters/storage/repos/broker_trades.py:35-53 | A fill that is read is as last read: side, product, quantity, price and time, and the symbol and ISIN it came with |
| `BrokerTrades.SavedSeen` | src/swingdash/adapters/storage/repos/broker_trades.py:35-53 | Charges, symbol and ISIN are those of one of its readings or of the fill stored before |
| `BrokerTrades.NamesKept` | src/swingdash/adapters/storage/repos/broker_trades.py:42-44 | A symbol or an ISIN once known is not lost to a reading without one |
| `BrokerTrades.UnreadKept` | src/swingdash/adapters/storage/repos/broker_trades.py:35-53 | A fill that is not read stays as it is |
| `BrokerTrades.ResaveUnchanged` | src/swingdash/adapters/storage/repos/broker_trades.py:35-53 | Reading the same trade book again changes nothing |
| `BrokerTrades.BrokerTradeRepository.Save` | src/swingdash/adapters/storage/repos/broker_trades.py:16-54 | The upsert loop stores what saving the fills one by one would |
| `BrokerTrades.BrokerTradeRepository.All` | src/swingdash/adapters/storage/repos/broker_trades.py:56-78 | Every stored fill once, by time, then id |
| `MarketDataHub.AddedCounts` | src/swingdash/services/market_data_hub.py:153-160 | Retaining a new subscriber's keys gives the true holder counts; the capacity check's key set is the one that results |
| `MarketDataHub.UpdatedCounts` | src/swingdash/services/market_data_hub.py:112-114 | Retaining the gained and releasing the lost keys gives the true holder counts; the capacity check predicts the key set exactly |
| `MarketDataHub.ClosedCounts` | src/swingdash/services/market_data_hub.py:130-130 | Releasing a leaving subscriber's keys gives the true holder counts |
| `MarketDataHub.MarketDataHub.Retain` | src/swingdash/services/market_data_hub.py:153-160 | One holder more of each key; returns exactly the keys that had none |
| `MarketDataHub.MarketDataHub.Release` | src/swingdash/services/market_data_hub.py:162-171 | One holder fewer of each key, no zero entries; returns exactly the keys left without one, a key never held included |
| `MarketDataHub.AddRoutes` | src/swingdash/services/market_data_hub.py:186-188 | A subscriber's callback goes last in the route of each of its keys and of no other |
| `MarketDataHub.MarketDataHub.RebuildRoutes` | src/swingdash/services/market_data_hub.py:184-195 | Each key's route lists exactly the callbacks of its subscribers, in subscription order |
| `MarketDataHub.MarketDataHub.Subscribe` | src/swingdash/services/market_data_hub.py:81-104 | The hub becomes, and the feed is told, what the subscriber list says; rejected with nothing changed exactly when there would be more than 2000 keys |
| `MarketDataHub.MarketDataHub.Update` | src/swingdash/services/market_data_hub.py:104-123 | An accepted update of a live consumer leaves it with exactly the keys asked for and its old callbacks, and every other consumer as before; the feed is told the keys that appeared and vanished; a rejection changes nothing |
| `MarketDataHub.MarketDataHub.CloseSubscriber` | src/swingdash/services/market_data_hub.py:125-135 | The subscriber goes, with exactly the keys only it held |
| `MarketDataHub.MarketDataHub.CopyForResend` | src/swingdash/services/market_data_hub.py:221-222 | Under the lock: the feed and every key somebody holds |
| `MarketDataHub.MarketDataHub.Resend` | src/swingdash/services/market_data_hub.py:223-224 | Outside it: sends what was copied |
| `MarketDataHub.MarketDataHub.Shutdown` | src/swingdash/services/market_data_hub.py:137-145 | Every subscriber, count and route is dropped and the feed is stopped |
| `MarketDataHub.Subscription.Update` | src/swingdash/services/market_data_hub.py:52-54 | The same through the handle; does nothing after close |
| `MarketDataHub.Subscription.Close` | src/swingdash/services/market_data_hub.py:56-59 | Closes once; again does nothing |
| `HubSpec.HoldersPositive` | src/swingdash/services/market_data_hub.py:184-189 | A key is in the set exactly when somebody holds it, and has as many callbacks as holders |
| `MarketDataHub.RoutesReach` | src/swingdash/services/market_data_hub.py:184-189 | A callback is on the route of a key exactly when some consumer of that callback holds the key |
| `HubRequests.HoldsWhatIsAsked` | src/swingdash/services/market_data_hub.py:81-145 | Over every run: each consumer holds exactly the keys it last asked for and was granted - none after close or shutdown - and nobody else holds any; the keys held are the union of those asked for |
| `FeedProtocol.ChangesApplied` | src/swingdash/services/market_data_hub.py:119-123 | Telling an open socket the changed keys moves what it has by the same difference |
| `FeedProtocol.StepKeeps` | src/swingdash/services/market_data_hub.py:81-145 | Every step of any thread keeps: what the open feed has, or is still about to be sent, includes every key somebody holds |
| `FeedProtocol.FeedCoversWanted` | src/swingdash/services/market_data_hub.py:216-224 | Over every interleaving: once the connected handler has sent, and until the socket drops, no wanted key is missing upstream |
| `FeedProtocol.CapacityHolds` | src/swingdash/services/market_data_hub.py:173-182 | Over every run the keys held never exceed 2000 |
| `RateLimiter.WaitIsExact` | src/swingdash/adapters/upstox/client.py:105-106 | A full window is free again exactly when its wait is over; one with room is free at once |
| `RateLimiter.AttemptExact` | src/swingdash/adapters/upstox/client.py:97-111 | A call is granted exactly when every window and the pause allow it; otherwise no moment before the wait is legal and every later one is |
| `RateLimiter.RunValid` | src/swingdash/adapters/upstox/client.py:92-111 | Over every interleaving each deque is the recent end of the grants, within its limit, and what it forgot is too old to matter |
| `RateLimiter.RateSafety` | src/swingdash/adapters/upstox/client.py:92-111 | Rate safety over the whole history: grant i + limit comes at least `seconds` after grant i, for every window |
| `RateLimiter.PausesRespected` | src/swingdash/adapters/upstox/client.py:92-101 | No grant comes before the end of any earlier pause |
| `GrantsByEvents.GrantsExact` | src/swingdash/adapters/upstox/client.py:92-111 | Over every interleaving the grants are those the events call for: granted exactly when every earlier pause is over and each window had fewer grants than its limit in its last seconds |
| `GrantsByEvents.RefusedForReason` | src/swingdash/adapters/upstox/client.py:92-111 | A call is refused exactly when an earlier pause has not ended or a window is full |
| `GrantsByEvents.PauseIff` | src/swingdash/adapters/upstox/client.py:92-95 | The running pause ends when the last of all pauses does |
| `RateLimiter.RateLimiter.PurgeAndWait` | src/swingdash/adapters/upstox/client.py:101-106 | Every window is purged, and the wait is the longest one asked for |
| `RateLimiter.RateLimiter.Attempt` | src/swingdash/adapters/upstox/client.py:99-110 | One turn under the lock: every window stamped, or none |
| `RateLimiter.RateLimiter.Acquire` | src/swingdash/adapters/upstox/client.py:97-111 | Without competitors the second attempt at the latest succeeds, and no earlier moment would have been legal |
| `Candles.CandleRepository.LatestDate` | src/swingdash/adapters/storage/repos/candles.py:13-22 | The newest stored day of the key, none exactly when it has no row |
| `Candles.CandleRepository.ReadRange` | src/swingdash/adapters/storage/repos/candles.py:24-42 | The stored candles of the days, oldest first |
| `Candles.CandleRepository.Upsert` | src/swingdash/adapters/storage/repos/candles.py:44-57 | One row per candle, taking the place of a row of the same day; every other row stays |
| `Candles.CandleService.LatestAvailableSession` | src/swingdash/services/candles.py:67-74 | The last session before today within ten days, none exactly when there is none |
| `Candles.CandleService.IsCurrent` | src/swingdash/services/candles.py:43-47 | Current exactly when the newest row is no older than the last session (or has no session to wait for) |
| `Candles.Grows` | src/swingdash/adapters/storage/repos/candles.py:44-57 | Storing what the source shows past the newest row extends the days held in full to the newest published one |
| `Candles.CandleService.Daily` | src/swingdash/services/candles.py:49-65 | Over every run with an advancing clock the answer is what the source gives for the window, from the key's first fill on, unless ten days held no session; for a stock that trades every session, exactly when it is not is read off the calendar |
| `Candles.CandleService.Cached` | src/swingdash/services/candles.py:36-41 | The cache alone answers with the part of the window it holds |
| `Candles.DirectReadIs` | src/swingdash/services/candles.py:49-65 | A direct read holds exactly the published candles of the days asked for, oldest first |
| `Candles.QuietReadIff` | src/swingdash/services/candles.py:43-60 | After ten days without a session nothing is fetched; the answer is then complete exactly when no older candle was published past the cached span |
| `Candles.CalendarReadIff` | src/swingdash/services/candles.py:43-60 | For a stock that trades every session, by the calendar alone: complete exactly when no session lies past the cached span and more than ten days back |
| `Candles.MissedSession` | src/swingdash/services/candles.py:49-65 | A run of two calls that misses the one session in between, beside the direct read that shows it |
| `Ema.ComputeEmaSeries` | src/swingdash/domain/metrics/ema.py:13-34 | Entry i is the average of the first i + 1 values, none before the seed; an error for a length below one |
| `Ema.ComputeEma` | src/swingdash/domain/metrics/ema.py:37-40 | The average of all the values, none before the seed |
| `Ema.SmoothWeights` | src/swingdash/domain/metrics/ema.py:25-31 | One step weighs the new value twice against length - 1 times the average so far |
| `Ema.EmaWithinRange` | src/swingdash/domain/metrics/ema.py:26-32 | The average never leaves the range of the values behind it |
| `Mswing.MomentumMeans` | src/swingdash/domain/metrics/mswing.py:52-53 | Growing the past close by the momentum of every bar in between gives the close; a zero past close gives none |
| `Mswing.Span` | src/swingdash/domain/metrics/mswing.py:44-49 | How far back: the length, or all there is when IPO-adjusted; nothing at the first bar or without enough history |
| `Mswing.LiveMomentumExact` | src/swingdash/domain/metrics/mswing.py:181-188 | The tail reaches as far back as a new bar looks: live momentum is momentum on the longer history |
| `Mswing.LiveEmaExact` | src/swingdash/domain/metrics/mswing.py:194-201 | The live average is the average of all scores with the new one, before, at and after the seed |
| `Mswing.LiveIsRecompute` | src/swingdash/domain/metrics/mswing.py:132-202 | A tick on the prepared context gives score, both momenta and average of the recomputed history, for all lengths, IPO-adjusted or not |
| `MomentumByCloses.MswingIs` | src/swingdash/domain/metrics/mswing.py:44-80 | By the closes: each momentum, compounded over its span, grows the past close into the last; the score is there exactly when both are and is their sum; the average is that of all the scores there are |
| `MomentumByCloses.LiveIs` | src/swingdash/domain/metrics/mswing.py:132-202 | A tick gives just those numbers with the live price as one more close |
| `MomentumByCloses.EmaIs` | src/swingdash/domain/metrics/ema.py:13-34 | The average starts as the mean of the first values and moves towards each further value by 2 parts in length + 1 |
| `BurstScore.CutoffIsBack` | src/swingdash/domain/metrics/burst_score.py:48-56 | The look-back day lies at least that many ordinary years before today (so today is always inside the window) |
| `BurstScore.Tally.Add` | src/swingdash/domain/metrics/burst_score.py:73-96 | One bar moves exactly the counts it should: a known empty range, a zero previous close or a low close skip it |
| `BurstScore.BinsMean` | src/swingdash/domain/metrics/burst_score.py:91-96 | Each count is the number of days in its bucket and its date that of the last of them |
| `BurstScore.TopMoveMeans` | src/swingdash/domain/metrics/burst_score.py:88-90 | The largest counted move, with the latest day that reached it |
| `BurstScore.RoundHalfEven` | src/swingdash/domain/metrics/burst_score.py:99-99 | The nearest integer, a tie to the even one |
| `BurstScore.PowerMeans` | src/swingdash/domain/metrics/burst_score.py:98-111 | In tenths of a point 2, 5 and 20 per day of each bucket, rounded to whole points with ties to even; the colour thresholds |
| `BurstScore.ComputeBurstScore` | src/swingdash/domain/metrics/burst_score.py:126-152 | The scan over neighbouring bars of the window |
| `BurstScore.ExtendBurstScore` | src/swingdash/domain/metrics/burst_score.py:114-123 | A day added through a tally of the earlier counts gives the counts with that day, and their score |
| `BurstScore.ExtendIsRecompute` | src/swingdash/domain/metrics/burst_score.py:114-123 | One more day inside the window extends the score to what a rescan gives; one before it leaves the score |
| `ScreenByHistory.BurstIs` | src/swingdash/domain/metrics/burst_score.py:62-152 | By the bars: each count is the number of counted days that grew within its bucket - 5, 10 and 19 percent - the top move the largest growth with its latest day, the score their weighted sum |
| `ScreenByHistory.ChangeIs` | src/swingdash/domain/scanner.py:108-111 | The change grows the close before the last into the last |
| `Scanner.LiveIsRecompute` | src/swingdash/domain/scanner.py:54-112 | The numbers on screen are those recomputed from the whole history with today's price as its last bar, Burst Power once the session has closed; without today, those of the history |
| `ScreenByHistory.ScreenIs` | src/swingdash/domain/scanner.py:54-112 | What is on screen, by the bars of the history with today's price as its last: momentum over 20 and 50 bars and its average over 9, Burst Power over three years, and the change |
| `RoundTripCharges.RoundTripIsAffine` | src/swingdash/domain/risk/charges.py:85-103 | A round trip costs a fixed sum from the first share on, and the same again for every share |
| `RoundTripCharges.RoundTripMonotone` | src/swingdash/domain/risk/charges.py:85-103 | More shares never cost less, the jump at the first one included |
| `SizingByNumbers.RoundTripIs` | src/swingdash/domain/risk/charges.py:85-103 | A round trip costs the items on the broker's bill: brokerage twice, taxes and fees on the turnover, stamp duty on the purchase, the depository's fee, and tax on the fees |
| `SizingByNumbers.WorkedCharges` | src/swingdash/domain/risk/charges.py:53-62 | The published rates of each broker, by one worked example |
| `Sizing.MostLots` | src/swingdash/domain/risk/sizing.py:150-159 | Bisection ends on lots whose risk fits; when risk grows with the quantity they are exactly all that fit - over all whole numbers of lots, not only the range searched |
| `Sizing.LotsWithin` | src/swingdash/domain/risk/sizing.py:146-147 | Whole lots of capital are exactly the lots that fit the budget |
| `Sizing.RiskCurveGrows` | src/swingdash/domain/risk/sizing.py:110-114 | The risk with charges starts at zero, never falls and is never below the risk without |
| `Sizing.AllowedQuantities` | src/swingdash/domain/risk/sizing.py:116-129 | One entry for each limit there is, a quantity that keeps it and - for a risk that grows - exactly the most |
| `Sizing.Tightest` | src/swingdash/domain/risk/sizing.py:131-132 | The smallest allowed quantity and the first limit in declared order that allows no more |
| `Sizing.SizePosition` | src/swingdash/domain/risk/sizing.py:98-143 | The first input error, or a sizing: under a schedule without rebates the quantity is the largest whole number of lots that keeps every limit at once; under any, each limit's own quantity keeps it, the smallest is taken and `limited_by` is the first that binds |
| `SizingByNumbers.SizedIs` | src/swingdash/domain/risk/sizing.py:98-143 | In sums of money: of the whole lots, exactly those up to the sized quantity lose at the stop - charges included - at most the percentage or sum risked per trade and the heat left, and tie up at most the allocation and the free capital |
| `SizingByNumbers.LimitIs` | src/swingdash/domain/risk/sizing.py:116-129 | The quantity each limit allows, in the same sums |
| `SizingByNumbers.BindingIs` | src/swingdash/domain/risk/sizing.py:131-132 | The quantity is the smallest allowed; of equals risk binds before heat, allocation and free capital |
| `SizingByNumbers.CapitalUsedIs` | src/swingdash/domain/risk/sizing.py:133-143 | The capital used is the own part of the price for every share |
| `SizingByNumbers.LossAtStopIs` | src/swingdash/domain/risk/sizing.py:110-112 | Loss at the stop and charges together are what the stop costs |
| `Portfolio.RiskNonNegative` | src/swingdash/domain/risk/discipline.py:75-89 | No position offsets another's risk, and it is assumed exactly when its own stop is not usable |
| `Portfolio.BelowPrice` | src/swingdash/domain/risk/discipline.py:38-43 | An assumed stop lies between zero and the price |
| `RiskByNumbers.AssumedStopIs` | src/swingdash/domain/risk/discipline.py:38-43 | An assumed stop lies the given true ranges below the price, without one the given percentage; never below zero |
| `RiskByNumbers.RiskIs` | src/swingdash/domain/risk/discipline.py:75-89 | The loss from the entry to a usable stop, none when it is above; else from the price - or the entry - to the assumed stop |
| `RiskByNumbers.GainIs` | src/swingdash/domain/risk/portfolio.py:53-72 | A closed position gained the way from its entry to its exit for every share |
| `Portfolio.AddBreaches` | src/swingdash/domain/risk/portfolio.py:153-154 | Each breach found counts once more, no zero entries |
| `Portfolio.Summarise` | src/swingdash/domain/risk/portfolio.py:130-166 | Every figure is the sum over the positions, open or closed; breaches are counted exactly |
| `RiskByNumbers.SummaryIs` | src/swingdash/domain/risk/portfolio.py:130-166 | The figures of a summary as plain sums over its positions |
| `RiskByNumbers.LeftIs` | src/swingdash/domain/risk/portfolio.py:106-121 | Free capital and heat left, against the limit as a percentage of the capital |
| `RiskRun.ListSum` | src/swingdash/domain/risk/portfolio.py:145-163 | The totals do not depend on the order of the positions |
| `RiskRun.HeatIsStopHeat` | src/swingdash/domain/risk/discipline.py:83-86 | At prices not below the stops, heat is exactly what the stops can lose |
| `RiskRun.SizedWithin` | src/swingdash/domain/risk/sizing.py:116-131 | A sized trade loses no more at its stop than the heat left and ties up no more than the free capital |
| `RiskRun.StepKeepsSafe` | src/swingdash/services/risk.py:206-382 | A trade at the sized quantity, an exit and a raised stop each keep heat and capital within their limits |
| `RiskRun.RunIsDisciplined` | src/swingdash/domain/risk/discipline.py:54-72 | Over every run of trades entered on their plan, no open position is flagged at a price not below its stop |
| `RiskRun.TradesStay` | src/swingdash/services/risk.py:286-382 | Over every run no trade is lost: its plan, size, entry and initial stop stay on record and its stop never falls |
| `RiskRun.RunIsSafe` | src/swingdash/services/risk.py:206-382 | Whole runs from an empty portfolio keep total heat within capital times the limit and capital used within capital, at any prices not below the stops |
| `RiskByNumbers.RunKeepsLimits` | src/swingdash/services/risk.py:206-382 | Over every run, in plain sums: what the open positions can lose down to their stops is at most the limit's percentage of the capital, and what they cost at most the capital |
| `RiskService.RiskService.Positions` | src/swingdash/services/risk.py:247-250 | The cached list is never out of date |
| `RiskService.RiskService.Summary` | src/swingdash/services/risk.py:252-280 | Heat and capital used are those of the table, on the given quotes |
| `RiskService.RiskService.Size` | src/swingdash/services/risk.py:206-235 | Sizing on the free capital and heat left right now |
| `RiskByNumbers.SpecIs` | src/swingdash/services/risk.py:206-235 | A trade is sized on the capital the open positions do not use and the heat they leave, each measured on its own price and true range |
| `RiskService.RiskService.OpenPosition` | src/swingdash/services/risk.py:286-323 | A new row with the columns given and nothing else changed, or the first thing wrong and no change |
| `RiskService.RiskService.UpdatePosition` | src/swingdash/services/risk.py:325-360 | The row with the columns given, its plan and initial stop kept, or the first thing wrong and no change; a raised stop alone is a step of a run |
| `RiskService.RiskService.ClosePosition` | src/swingdash/services/risk.py:362-382 | The row with that exit and nothing else changed, or the first thing wrong and no change; a step of a run |
| `RiskService.RiskService.Trade` | src/swingdash/services/risk.py:206-323 | Sizing a trade and entering it is a step of a run on its plan, and keeps the portfolio safe |
| `Calendar.MinuteOfExact` | src/swingdash/domain/calendar.py:51-63 | None exactly before the open; otherwise the minute the moment falls in, the last one from its start on |
| `Calendar.MinuteOfMonotone` | src/swingdash/domain/calendar.py:51-63 | Time never moves the index back |
| `Calendar.ActiveSession` | src/swingdash/domain/calendar.py:78-98 | The most recent session of the last ten days that has opened; none exactly when none has |
| `RvolCurve.CumulativeCurve` | src/swingdash/domain/rvol/curve.py:71-91 | Entry m is the volume of the day's bars up to minute m; none exactly without a session or volume; an IndexError exactly when the curve has no entry, or the session closes at least that many minutes before it opens and has a bar from its open on |
| `RvolCurve.ThroughIsBy` | src/swingdash/domain/rvol/curve.py:71-91 | By timestamps: up to minute m before the last, the volume of the bars from the open until that minute ends; from the last minute on, all of it from the open |
| `RvolCurve.GroupByDate` | src/swingdash/domain/rvol/curve.py:44-47 | Each date with bars, with exactly its bars in order |
| `RvolCurve.BaselineFromBars` | src/swingdash/domain/rvol/curve.py:31-68 | The curve averages, minute by minute, those of the last dates with bars that had volume in their own session; none exactly when there is none; an IndexError exactly when one of those dates fails |
| `RvolCurve.RecentAre` | src/swingdash/domain/rvol/curve.py:44-60 | The dates looked at are the latest ones with bars, as many as asked for |
| `RvolCurve.BaselineIs` | src/swingdash/domain/rvol/curve.py:31-68 | By timestamps: every entry times the days used is the volume those days had by that minute |
| `RvolCurve.CurveRises` | src/swingdash/domain/rvol/curve.py:63-63 | The typical volume never falls during the session |
| `RvolCurve.CurveEndsAtTotal` | src/swingdash/domain/rvol/curve.py:64-68 | When no used day is longer than the curve, the last entry times the days used is their whole volume from the open |
| `RvolCurve.RatiosConverge` | src/swingdash/domain/rvol/calc.py:28-44 | Each ratio times its reference is the volume so far; from the last minute on intraday and day RVOL are both defined and equal |

## Left out

- ISINs of positions, event messages and the wording of mismatches: lines are datatypes carrying their numbers.
- Fills without an NSE symbol are dropped as in the code, but the "can't match" lines they add are not modelled.
- `reconcile`'s optional `trade_date` argument: a fill's trading day is its date, the default.
- Fills have a positive quantity, which the parser enforces; product codes are upper-cased over ASCII only.
- BrokerRefs.PositionRefsDistinct: assumes symbols without a colon, as NSE symbols are; trade ids are arbitrary.
- BrokerRefs.EpisodeInvariant: assumes non-empty trade ids; an empty one would name a holding after a later trade.
- PositionsByFills.ClosedPositionsExact: assumes non-empty trade ids, as do the other results of that module.
- The account, token renewal, progress phases and timestamps of a sync; only its reads, markers and merge remain.
- Sources of positions other than manual and Dhan, and the order of the dictionary of existing rows.
- The lookup of symbols and instrument keys is a function parameter; so are clocks, quotes, histories and pages.
- Tick delivery and broken callbacks of the hub: the routing table is proved, the calls along it are not.
- FeedProtocol.FeedCoversWanted: a call on an open socket is taken to arrive; a `stop` sent after the lock is a later drop.
- Real threads and sleeping: locked sections are atomic steps, the clock is monotone in the order the lock is taken.
- `daily_bulk`, which runs `daily` for many symbols on a thread pool.
- Candles.CandleService.Daily: completed candles are taken never to change and to fall on session days.
- `compute_mswing`, `classify_mswing` and the scanner's table rows: a comparison of two scores.
- Floating-point rounding throughout, and the rounding of the stop to the paisa.
- `resolve_stop`: the stop arrives as a price; trade warnings, price bands and liquidity are not modelled.
- `delete_position`, `watch`, subscriptions and quote refresh of the risk service.
- R multiples, give-back and DP estimates of a position: single expressions.
- Sizing.SizePosition: the largest quantity is promised for schedules without a negative rate, as every published one
  is; a rebate can make the risk fall as the quantity grows, and bisection need not find the largest then. The own
  share of a funding is positive: the code divides by it.
- ClosedRows.ClosedPositionsKeptIff: trade ids are distinct (they are the store's keys), none is the name given to
  shares from before the history, and each holding moves by the fills in between at an unchanged average cost.
- SyncStability.SyncKeepsClosedIff: fills read again by the later sync bring nothing the store lacks; charges or a
  symbol that arrive later do alter the rows they belong to.
- `latest_publish_cutoff`, which repeats the loop of `active_session` with a fixed time of day.
- Scanner.LiveIsRecompute: today's year is at least 4, where the look-back day exists; Python raises otherwise.
- SQLite itself, migrations, settings storage, HTTP, parsing, the terminal UI and the command line.
