# graphcache-go: a verified model

graphcache-go keeps an in-memory index of a decentralised exchange. It pages rows out of a subgraph,
folds them into indexed state, and answers queries from that state. This project models the state
machines underneath in Dafny and proves what they keep. Every object the Go code updates in place is
a class here, or a loop over the same variables; each is proved against functions on values, and the
properties are lemmas about those functions. Floating-point numbers are exact reals, times and blocks
are integers, hashes are injective ids, and each region under a lock is one atomic step
(several are one where "Left out" says so).

| file | what it models |
|---|---|
| `Refresher.dfy` | the liquidity refresher as a concurrent protocol: requests, workers, panics |
| `Sync.dfy` | paged, de-duplicated synchronisation of one table, and the combined loop over five |
| `TradingHistory.dfy` | a pool's events folded into per-second states, and reading them back |
| `Candles.dfy`, `HourlyCandles.dfy`, `CoarseCandles.dfy` | the candle builder, the combination of hourly candles, and why regrouping is building coarse candles directly |
| `PoolCandles.dfy`, `CandlePaths.dfy` | the two query paths and the cache of hourly candles, what each path answers and when they answer alike |
| `CachedHours.dfy`, `CandleEvents.dfy` | when the cached hours are still those of the pool, and what the candles of an answer say about raw events |
| `LiquidityCurves.dfy` | the sparse curve of tick deltas against the ledger of open orders |
| `PivotTimes.dfy`, `KnockoutMatching.dfy`, `KnockoutSagas.dfy` | knockout orders: pivot times, matching mints with crosses in either order, and the liquidity a cross moves, with ingestion and worker interleaved |
| `RecencyIndex.dfy`, `UpdateLog.dfy` | sorted transaction indexes, and the update log read as most recent distinct |
| `PoolPositions.dfy`, `PositionPaging.dfy` | paging through that log, and what the pages reach and pass over |
| `LiquidityMath.dfy` | tokens to liquidity and back |
| `Basics.dfy` | options and a few functions on sequences |

`dafny verify dfyconfig.toml` checks the project.

## What the proofs turned up

Some stronger statements one would like to make are false of the code. In each case the model does
what the code does, and the theorem named says exactly when the statement holds.

- A refresh request made after a query for the same position has returned, but before its worker has
  deleted the entry, is absorbed by that query: none is sure to follow
  (`Refresher.CompletionGuaranteedExactly`). A query that was under way when the request was made
  counts as completing later.
- `SyncTableToSubgraph` misses rows of a block that fills a whole page when more rows follow, and
  only then (`Sync.SyncTableExactlyOnce`). The combined loop does not miss any; it does not end
  (`Sync.ExitsExactlyUnlessStuck`, `Sync.ExitsExactlyWhenFeasible`), nor does it if the server grows
  meanwhile (`Sync.StuckForGoodNeverExits`).
- A decode error in one table lets the other tables ingest their rows without moving their cursors; a
  table that has a full page of rows from its cursor on is then stuck, and the startup loop never
  ends (`Sync.DecodeErrorStallsExactly`).
- `CombineHourlyCandles` shows only the first hour of the nth group
  (`CoarseCandles.LastGroupIsItsFirstHour`, `CoarseCandles.NthGroupIsWholeExactly`).
- The two candle paths leave out what comes before the first liquid hour and before the first liquid
  candle. Their answers differ when these do not begin together, unless nothing happened between; a
  pool that lost its liquidity before the window is listed by the one and not by the other
  (`CandlePaths.FastIsDirectExactly`, `CandlePaths.HourlyListsWhatDirectDrops`).
- To the answer for a window that ends in the future the hourly path adds the candle of the last
  period but one. If an hour of the last period is over already, that candle comes after the one of
  the last period, and usually for a second time (`CandlePaths.TimesRiseExactly`,
  `CandlePaths.LatestRepeatsPeriod`).
- Events that come in late change hours that are cached already, unless they leave the pool's figures
  at the end of each and stay within its prices (`CachedHours.CacheStaysExactly`).
- A candle before which nothing happened opens in the first snapshot, so that its volume lacks that
  snapshot's volume (`CandleEvents.CandleVolume`). A candle that ends exactly at the end of the
  window is not returned (`Candles.CandleBuilder.Close`).
- `model/liquidityCurve_test.go:22` expects an ambient mint to leave no bumps. The code makes two;
  their deltas cancel exactly when both ticks are the same (`LiquidityCurves.AmbientIsRightExactly`).
- A cross puts knockout liquidity back at a single tick, which is right exactly when all orders it
  closes reach there (`LiquidityCurves.CrossIsRightExactly`, and over whole runs
  `LiquidityCurves.CurveMatchesLedgerExactly`).
- A pivot that is crossed twice overwrites what was knocked out the first time
  (`KnockoutSagas.CrossConservesExactly`), and a claim of a pivot that was never crossed makes the
  listing end the process once its query has an answer (`KnockoutSagas.ClaimListableExactly`, an input
  is `KnockoutSagas.UncrossedClaimEndsListing`; over whole runs
  `KnockoutSagas.ListableThroughoutExactly`).
- A change that arrives late can move the time of a position's first mint forward
  (`UpdateLog.FirstMintMovesExactly`).
- The comparators never compare ask ticks, so the order of transactions that differ only there depends
  on which came first (`RecencyIndex.RowsKeepInsertionOrderExactly`). A window query with a limit of 0
  returns one row (`RecencyIndex.TxIndex.LookupLastNAtTime`).
- Paging through positions can pass some over: the next page begins more than a second before the
  last position of the one before (`PositionPaging.BoundaryExactly`,
  `PositionPaging.MostRecentExactly`, `PositionPaging.MostRecentByDefaultExactly`; an input is
  `PositionPaging.PagingPassesOver`).

## Model

| member | source | states |
|---|---|---|
| `Refresher.StepKeepsInv` | controller/refresher.go:78-170 | every atomic step of requests and workers keeps each pending hash live: an urgent copy, a held handle, or (if the entry is not marked urgent) a slow copy exists that no check will skip |
| `Refresher.NothingPendingAtQuiescence` | controller/refresher.go:78-170 | over every run, any number of workers and any interleaving, panics included: the invariant holds, and when queues are empty and workers look for work `pending` is empty |
| `Refresher.AcceptedRequestIsCleared` | controller/refresher.go:78-94 | a request that passes the filter has its entry deleted by a worker by the time the refresher is quiescent, also when it was not queued again |
| `Refresher.UrgentUntilCleared` | controller/refresher.go:16-21 | from an accepted urgent request on, over every run and also when a slow copy was queued before: until its entry is deleted it stays marked urgent, and an urgent copy is queued or in the hands of a worker that will not skip it |
| `Refresher.ClearNeedsReturn` | controller/refresher.go:163-168 | an entry is only deleted after a query for its hash has returned |
| `Refresher.CompletionGuaranteedExactly` | controller/refresher.go:145-170 | a pending hash is sure to have a query complete later if and only if no worker sits between the return of a query for it and the deletion of its entry; otherwise a run that completes none is constructed |
| `Refresher.RequestGuaranteedExactly` | controller/refresher.go:78-94 | the same seen from the request: exactly those made while no worker is in that window are sure of a later completed query |
| `Refresher.DrainWithoutCompleting` | controller/refresher.go:125-170 | from any state in which a hash is not pending some run reaches quiescence without completing a query for it |
| `Refresher.RunIsBounded` | controller/refresher.go:125-170 | however workers, requests and panics interleave, a run is no longer than the work at its start, 6 for each request, 5 for each panic and 1 for each pause: without new ones the workers come to rest |
| `Refresher.AtRestExactly` | controller/refresher.go:144-154 | no worker can go on if and only if the refresher is quiescent and every worker waits |
| `Refresher.EveryRunDrains` | controller/refresher.go:125-170 | every run, not only one that is constructed, that goes on while a worker can ends quiescent with nothing pending |
| `Refresher.LiquidityRefresher.SetPause` | controller/refresher.go:201-204 | pausing is one step and keeps the invariant |
| `Refresher.LiquidityRefresher.RequestRefresh` | controller/refresher.go:78-94 | a request is dropped when the refresher is paused or its handle is skippable and was refreshed a moment ago; any other leaves its hash pending: an urgent one marked urgent and, if it was not so before, its handle last in the urgent queue, a new one that is not urgent last in the slow queue; an entry that is urgent already is left alone |
| `Refresher.LiquidityRefresher.PopNext` | controller/refresher.go:144-154 | a worker takes from the urgent queue first, from either when it waits, and only a poll or a pop happens |
| `Refresher.LiquidityRefresher.CheckPending` | controller/refresher.go:155-163 | a handle is skipped exactly when nothing waits for its hash, or it came off the slow queue and the entry is marked urgent by now |
| `Refresher.LiquidityRefresher.RunQuery` | controller/refresher.go:165-166 | a query returns or panics; nothing else changes |
| `Refresher.LiquidityRefresher.ClearPending` | controller/refresher.go:166-169 | the entry goes whatever it says by now, and the invariant holds |
| `Refresher.LiquidityRefresher.Recover` | controller/refresher.go:128-137 | a panic requeues its handle as urgent, and the invariant holds |
| `Sync.SyncTableExactlyOnce` | loader/syncChannel.go:90-139 | a sync of a range nothing of which was seen hands over a prefix of the range, each row once and in server order; if no query fails it is the whole range if and only if no block fills a page that has a successor |
| `Sync.SyncHandsOver` | loader/syncChannel.go:90-139 | the same read off the server row by row: what is consumed anew is a stretch of its rows of blocks startBlock to endBlock, both included, no id twice; every such row is consumed, if no query fails, if and only if no thousand rows of one block are followed by another row of the range |
| `Sync.SyncTablePrefix` | loader/syncChannel.go:90-139 | a sync taken up at any point of the range extends the consumed prefix |
| `Sync.PageExtendsPrefix` | loader/syncChannel.go:113-128 | ingesting a page that starts inside the consumed prefix extends the prefix to its end and counts the fresh rows |
| `Sync.PageProgress` | loader/syncChannel.go:113-130 | a page with a fresh row leaves strictly fewer rows of the server unobserved: the termination measure of the loop |
| `Sync.SyncChannel.IngestEntry` | loader/syncChannel.go:141-152 | a row goes to the consumer once; a known row changes nothing and reports block -1 |
| `Sync.SyncChannel.SyncTableToSubgraph` | loader/syncChannel.go:90-139 | terminates on every server; hands over, each once and in the server's order, rows of the blocks asked for, both ends included, from the first on and without leaving one out; all of them, if no query fails, exactly when no block fills a page of a thousand that a row of the range follows |
| `Sync.SyncChannel.IngestEntriesOf` | loader/syncChannelCombined.go:77-119 | one table's part of a combined response, with its cursor, `hasMore` and the decode error |
| `Sync.GrowthKeepsInv` | controller/syncCombined.go:77-141 | rows appended at the end of the server keep a table's prefix invariant |
| `Sync.TableStep` | loader/syncChannelCombined.go:77-119 | what one answer does to a table in progress: the prefix grows to the end of the page, the cursor follows it, `hasMore` is false only when the page was short and known |
| `Sync.RoundKeepsSynced` | controller/syncCombined.go:88-138 | a round keeps all five tables' invariants, also when parts cannot be decoded, and a round that exits leaves every table complete |
| `Sync.ExitIsComplete` | controller/syncCombined.go:77-141 | over any rounds with failed queries, decode errors and a server that grows between queries: if the startup loop exits, every row of every table at or above its first cursor, as of the last query, has been consumed exactly once and in order |
| `Sync.ExitHandsOver` | controller/syncCombined.go:62-141 | on exit each of the five channels has consumed every row of its server as of the last query from its first block to block 999999999, in order, no id twice, and nothing else |
| `Sync.FreshTableIsSynced` | controller/syncCombined.go:39-53 | a new channel with any start block satisfies the invariant the loop needs |
| `Sync.ExitsExactlyUnlessStuck` | controller/syncCombined.go:77-141 | liveness, exactly, from any state a loop can be in, decode errors before included: on a server that stands still no run of rounds exits if some table is stuck (empty and not allowed to be, a block that fills a page ahead of its cursor, or a whole known page from its cursor on), even if later parts cannot be decoded; and if none is, every run of decodable rounds with more answers than rows left exits, however many queries fail in between |
| `Sync.MovingStep` | controller/syncCombined.go:77-141 | a round in which no table is stuck exits or consumes a row, and leaves no table stuck |
| `Sync.TightIsStuckExactly` | controller/syncCombined.go:134-141 | a table whose cursor is at its last consumed row is stuck if and only if it is empty and may not be, or a block at or ahead of the cursor fills a page |
| `Sync.ExitsExactlyWhenFeasible` | controller/syncCombined.go:77-141 | so before any decode error the loop exits if and only if no table is empty (unless empty tables are allowed) and no block ahead of a cursor fills a page |
| `Sync.ErrorRoundSticksExactly` | controller/syncCombined.go:88-104 | a round whose cursors do not move makes a table stuck if and only if it was stuck, or its own part was decoded and a page or more of rows lies at or above its cursor |
| `Sync.StuckNeverExits` | controller/syncCombined.go:77-141 | on a server that stands still, one table that is stuck keeps the loop running for ever, whatever queries fail |
| `Sync.GrowthKeepsStuck` | controller/syncCombined.go:77-141 | further rows of the server do not mend a block that fills a page ahead of the cursor, nor a whole known page from it on |
| `Sync.StuckForGoodNeverExits` | controller/syncCombined.go:77-141 | so a table stuck for one of these reasons keeps the loop running for ever on a server that grows, over any failed queries and decode errors |
| `Sync.DecodeErrorStallsExactly` | controller/syncCombined.go:98-104 | exactly when a decode error, in whichever tables and at whatever point, keeps the loop from ever ending: when it makes some table stuck; otherwise the loop still ends, within as many answers as there are rows left, and one, however many queries fail |
| `Sync.CombinedSubgraphSyncer.Ingest` | controller/syncCombined.go:88-132 | one response through all five channels equals the specified round, cursors included |
| `Sync.CombinedSubgraphSyncer.SyncLoopStartup` | controller/syncCombined.go:77-141 | the loop over the rounds equals the specified loop, on the same channels and cursors |
| `TradingHistory.StatesUpTo` | model/tradingHistory.go:32-37 | the snapshots and the counter up to a time are those of the history of the events up to that time |
| `TradingHistory.StatesOrdered` | model/tradingHistory.go:32-37 | for ordered positive event times the states rise strictly, and the last is the fold of all events |
| `TradingHistory.StateAt` | cache/transactors.go:201-221 | the last state not later than t is the fold of the events up to t, and their number is the number of distinct event times |
| `TradingHistory.CountIsTimes` | model/tradingHistory.go:32-37 | there is one state per distinct event time |
| `TradingHistory.PoolTradingHistory.NextEvent` | model/tradingHistory.go:32-37 | the object's counter and snapshots stay the fold and the snapshots of all events so far, and the counter moves as one event does |
| `TradingHistory.PoolTradingHistory.AccumulateEvent` | model/tradingHistory.go:65-136 | what one event does, field by field: fee rate in millionths; volumes, flows and the fee on the side a swap was not given in; a swap of a thousand or more of both tokens sets the price at which its base flow pays for its quote flow and the fee; liquidity at the market of that size sets a price of its own |
| `TradingHistory.AccumulateDoes` | model/tradingHistory.go:65-136 | the same of the step on values, from any statistics and for any event |
| `TradingHistory.PriceIsFolded` | model/tradingHistory.go:101-120 | over every run the swap price is the one the last swap of a thousand or more of both tokens paid, at the fee rate it met with, and no other price is |
| `TradingHistory.FeeIsFolded` | model/tradingHistory.go:77-80 | the fee rate is that of the last fee change, in millionths, or 0 |
| `TradingHistory.UpToIs` | cache/transactors.go:201-221 | the events up to a time are the first ones of an ordered run, all that are not later |
| `TradingHistory.PoolTradingHistory.RetrievePoolAccumBefore` | cache/transactors.go:201-221 | returns the fold of the first events, all that are not later than t and no other, and the number of their distinct times (a history without events counts 1) |
| `TradingHistory.PoolTradingHistory.RetrievePoolAccumSeries` | cache/transactors.go:223-272 | returns exactly the states with start <= time < end, ascending, and the last state before start; without one the first state, unless it comes after end or is the only one |
| `Candles.CandleBuilder.Increment` | model/candle.go:86-107 | the builder's series and running candle stay the candles of the intervals over all states it was fed |
| `Candles.CandleBuilder.Close` | model/candle.go:64-69 | returns the candles that end before endTime, from the first liquid one on; one that ends exactly there stays open |
| `Candles.KeptFromFirstLiquid` | model/candle.go:71-79 | what a builder leaves out comes first and holds less than 100000 of either token; what it returns begins with a candle that holds as much of one of them, and goes on to the end |
| `Candles.CandleBuilder.CloseCandle` | model/candle.go:71-84 | closing keeps the series the closed intervals from the first liquid one on, and opens the next in the last state |
| `Candles.CandleGrows` | model/candle.go:91-106 | a state inside an interval changes exactly the candle's close, extremes, volumes, liquidity and closing fee |
| `Candles.ClosedStable` | model/candle.go:86-107 | later states do not change closed candles |
| `HourlyCandles.CombineHourlyCandles` | model/candle.go:111-156 | the loop, with its skipping, its break and its group index, combines what the specification combines, and never indexes outside its list on gapless hours |
| `HourlyCandles.CombineStops` | model/candle.go:116-121 | breaking off loses nothing: after the end of the window or n groups no hour is combined |
| `HourlyCandles.CombineTimes` | model/candle.go:111-156 | combined candles are one a period, on period boundaries in the window, n at the most |
| `HourlyCandles.CombineCovers` | model/candle.go:111-156 | in a window of n periods every cached hour of the window is in the period of one of them |
| `CoarseCandles.AbsorbHour` | model/candle.go:132-152 | the candle of an interval that absorbs the candle of the next one is the candle of both |
| `CoarseCandles.CombinedIsCoarse` | model/candle.go:111-156 | combined hourly candles are the candles of the stretch from startTime (or the first hour) to endTime, the last hour or the first hour of the nth group, cut at the group boundaries - for any first hour, aligned to a group or not |
| `CoarseCandles.CoarseAt` | model/candle.go:123-152 | each of those candles covers its group, cut to the stretch |
| `CoarseCandles.RegroupingIsDirect` | model/candle.go:43-156 | k whole groups, k below n (or n, when a group is an hour), are exactly the candles a builder of the coarse period closes: open, close, high, low, volumes, liquidity, fees, time |
| `CoarseCandles.LastGroupIsItsFirstHour` | model/candle.go:119-121 | the nth group, when there is one, shows its first hour only |
| `CoarseCandles.NthGroupIsWholeExactly` | model/candle.go:119-121 | n whole groups asked for come out right if and only if what comes after the first hour of the nth leaves its candle as it was: no other close, volume, liquidity, fee, and no new extreme - for every period, n and history |
| `CoarseCandles.NthGroupDiffers` | model/candle.go:119-121 | so, whatever n and however long the period, they do not when the pool has another price in the second hour of the nth group |
| `CoarseCandles.KeptCombinedIsCoarse` | model/candle.go:64-156 | the same of the hours a builder returns, from the first liquid one on: dropping d hours is starting d hours later |
| `PoolCandles.DirectCandles` | views/aggPool.go:114-132 | the direct path returns the intervals of the pool's states that end before endTime, from the first liquid one on |
| `PoolCandles.AllButTheLast` | model/candle.go:64-69 | of a window of n periods n - 1 candles end before the window does |
| `PoolCandles.HoursEndedIs` | views/aggPool.go:148-163 | the hours rebuilt are those that have ended by now, the one that ends now included |
| `PoolCandles.ClosedWithin` | views/aggPool.go:114-132 | candles built from a window of a history are those of the history |
| `PoolCandles.BuildHourlyCandles` | views/aggPool.go:140-163 | the refresh builds all hours that have ended by now, without gaps |
| `PoolCandles.FastHourlyCandles` | views/aggPool.go:135-198 | a fresh cache is kept; when there is none or it is stale it is rebuilt from all events, as many hours as lie between the first state's hour and now, so that a cache is always the kept hours of the pool after its first events; the answer combines it and replaces or appends the latest candle of a window that ends in the future, and is nothing for a pool without snapshots |
| `PoolCandles.CacheOutlivesEvents` | views/aggPool.go:136-166 | further events leave a cache the kept hours of the pool after its first events |
| `PoolCandles.CacheStaysRight` | views/aggPool.go:136-166 | a cache built from the first events of a pool is the cache of all its events, so long as none that came later is dated before the end of the cached hours |
| `PoolCandles.LatestCandle` | views/aggPool.go:171-188 | the candle of a window that ends in the future is the period before its last one |
| `PoolCandles.WindowIsAligned` | views/aggPool.go:99-110 | the queried window starts on a period boundary and is n periods long, unless it starts before time 0 |
| `PoolCandles.WindowLies` | views/aggPool.go:99-110 | and it ends at the last period boundary not after now, n periods after it begins; or begins at the last one not after the given time |
| `PoolCandles.KeptTimes` | views/aggPool.go:114-132 | a direct answer lists one candle a period up to the last period but one |
| `PoolCandles.QueryPoolCandles` | views/aggPool.go:90-133 | the window of the last n periods up to now, or of n from the given time; periods of whole hours are answered from the cache as above, with the same effect on it, all others with the direct candles of the window and the cache untouched; an unknown pool has none. Times: directly, one candle a period up to the last but one; out of hours, one a period and a candle for every cached hour of the window, with maybe the last period's but one at the end |
| `CandlePaths.HourlyIsCoarse` | views/aggPool.go:135-167 | what the hourly path returns are the coarse candles of the stretch from the first kept hour, or the start of the window, to the last hour taken |
| `CandlePaths.DirectIsCoarse` | views/aggPool.go:114-132 | what the direct path returns are the coarse candles from the first liquid one to the start of the window's last period, opening state included; of a pool that came later, nothing |
| `CandlePaths.StretchesAgreeExactly` | model/candle.go:64-84 | a stretch shows the candles of whole groups if and only if it begins in the first and ends in the last of them and what it leaves out there changes nothing: no trade, no other price, fee or liquidity, no lower low or higher high |
| `CandlePaths.AnswerIs` | views/aggPool.go:135-198 | what the hourly path answers, for every window, past or future, and any cached hours: the groups before the last, the last as far as it is taken, and the added candle of the last period but one, which replaces the one the hours show only when they do not reach the last period |
| `CandlePaths.FastIsDirectExactly` | views/aggPool.go:90-198 | for every window, cached hours and time of asking: the answer of the hourly path is the direct one, up to a candle of the last period, if and only if the candle added is not after one of the last period (nor before the window) and the stretch of hours before it shows what the direct path shows |
| `CandlePaths.TimesRiseExactly` | views/aggPool.go:169-198 | the candles of an answer are in the order of their times if and only if not both an hour of the last period is taken and the latest candle is added |
| `CandlePaths.LatestRepeatsPeriod` | views/aggPool.go:190-195 | the inputs: a pool liquid since before the window, and a window that ends in the future with an hour of its last period cached; the answer goes from the last period but one to the last and back |
| `CandlePaths.HourlyListsWhatDirectDrops` | views/aggPool.go:135-198 | a pool that was liquid before the window and in none of its candles: the hourly path answers n candles, the direct path none |
| `CachedHours.HoursStayExactly` | model/candle.go:64-107 | of two histories that part at a state, the first m hours are the same if and only if every hour that ends after it ends with its figures and has no price outside the candle that was cached |
| `CachedHours.CacheStaysExactly` | views/aggPool.go:136-166 | exactly which later events, late ones included, leave the cached hours of a pool as they are: those after which every hour not over when the cache was built still ends with the figures the pool had, and none of which brings a price beyond its hour's |
| `CachedHours.CachedAnswer` | views/aggPool.go:136-198 | a query out of a cache that holds so is answered as out of the hours of the pool as it is |
| `CandleEvents.DirectCandlesTell` | views/aggPool.go:114-132 | end to end: every candle the direct path returns for a window before which something happened has the volumes the swaps in its period moved, opens and closes with the price the last large swap before its start and its end paid and with the last fee set by then, holds what went in less what came out, and its low and high are the extremes of its opening price and the prices after each event time in it |
| `CandleEvents.DirectListsExactly` | views/aggPool.go:114-132 | which periods it lists: of all but the last, exactly those by the end of which the pool has held 100000 of a token at the end of some period of the window |
| `CandleEvents.HourlyCandlesTell` | views/aggPool.go:135-167 | the same of every candle the hourly path combines, over its period cut to the hours kept and taken |
| `CandleEvents.CandleValues` | model/candle.go:64-107 | of an interval before which something happened: prices, fees and liquidity are those of the folds before its start and its end |
| `CandleEvents.CandleVolume` | model/tradingHistory.go:101-119 | the volume of the candle at T is the sum of absolute flows of the swaps with T <= time < T+period if and only if some event precedes it, or its opening state had no volume, or nothing happened by its end |
| `CandleEvents.CandleExtremes` | model/candle.go:91-97 | low and high are the extremes of the opening price and the price after each event time of the interval: bounds, and attained |
| `CandleEvents.FoldSums` | model/tradingHistory.go:65-136 | volumes and liquidity of the fold are sums over the raw events |
| `LiquidityCurves.CrossIsRightExactly` | model/liquidityCurve.go:70-124 | a cross keeps curve and ledger of open orders in agreement if and only if the orders it closes reach, net, to no other tick than the one the latest of them reached to |
| `LiquidityCurves.UserLiqIsRight` | model/liquidityCurve.go:49-68 | a mint or burn of a range or knockout order keeps them in agreement at every tick |
| `LiquidityCurves.AmbientIsRightExactly` | model/liquidityCurve.go:31-42 | an ambient mint or burn creates bumps at both its ticks, and leaves the deltas right if and only if the ticks are the same or its liquidity is zero |
| `LiquidityCurves.CurveMatchesLedgerExactly` | model/liquidityCurve.go:31-132 | over every time-ordered run: never out of order, ambient liquidity is the sum of its changes, and curve and ledger agree after every event and at every tick (deltas and knockout sums) if and only if the orders each cross closes reach, net, to no tick but that of the latest of them, and ambient liquidity comes without a range |
| `LiquidityCurves.CurveMatchesLedger` | model/liquidityCurve.go:31-132 | so they do in every run in which the open knockout orders of a side and tick, not counting those burned again, share a width |
| `LiquidityCurves.SumCovers` | model/liquidityCurve.go:87-90 | the deltas up to a tick add up to the liquidity of the open orders that cover it |
| `LiquidityCurves.UserLiqAdds` | model/liquidityCurve.go:49-68 | a mint adds its liquidity at the bid tick and takes it at the ask tick, a burn the other way round, and knockout liquidity and width are filed at the bid tick of a bid and at the ask tick of an ask |
| `LiquidityCurves.LedgerGoes` | model/liquidityCurve.go:31-85 | what an event does to the ledger: a mint opens an order of its liquidity between its ticks, a burn one of as much less than none, a cross closes the knockout orders of its side and tick and no others; ambient liquidity goes up by mints and down by burns |
| `LiquidityCurves.KOCrossMoves` | model/liquidityCurve.go:70-124 | a cross takes the knockout liquidity of its tick off the curve and puts as much back at the joined tick |
| `LiquidityCurves.LiquidityBump.KnockoutBid` | model/liquidityCurve.go:102-112 | the bump after the knockout, and the liquidity and joined tick it reports |
| `LiquidityCurves.LiquidityBump.KnockoutAsk` | model/liquidityCurve.go:114-124 | the same for asks |
| `LiquidityCurves.LiquidityCurve.UpdateUserLiq` | model/liquidityCurve.go:49-68 | the two bumps, which may be one, are updated in place as specified, or the process ends |
| `LiquidityCurves.LiquidityCurve.UpdateKOCross` | model/liquidityCurve.go:70-85 | as specified, in place, including a joined tick that had no bump |
| `LiquidityCurves.LiquidityCurve.UpdateLiqChange` | model/liquidityCurve.go:31-47 | the object after a change is the specified curve; it fails exactly when a bump has seen a later time |
| `PivotTimes.ZeroExactlyWithoutMint` | controller/controller.go:132-157 | a stored pivot time is 0 if and only if nothing was minted since the last cross, and otherwise the time of the first such mint |
| `PivotTimes.MintsShareTheirPivot` | controller/controller.go:143-153 | all mints of a tick and side between two crosses carry the same pivot, not later than their own time |
| `PivotTimes.FirstMintCarriesItsTime` | controller/controller.go:139-147 | the first mint after a cross carries its own time |
| `PivotTimes.PivotIsOpeningMint` | controller/controller.go:132-157 | a change carries the time of the mint at its place - the same bid tick for bids, the same ask tick for asks - that no cross has followed and every earlier mint is crossed before, or 0 if there is none |
| `PivotTimes.KnockoutPivotTimes.ApplyToKnockout` | controller/controller.go:132-153 | the map keeps giving every location's pivot time, and a change that is no cross learns its own |
| `PivotTimes.KnockoutPivotTimes.RetrievePivotTime` | cache/transactors.go:475-482 | what is read is the time of the first mint at the location since its last cross, and 0 exactly if there is none |
| `KnockoutMatching.EveryMatchIsEmitted` | model/knockout.go:97-183 | under any interleaving of filing, sending and processing: once the queue is empty every user with a mint between a cross's pivot and time is a candidate of that cross |
| `KnockoutMatching.PairIsFound` | controller/workers.go:59-87 | at any time such a user is a candidate already, or the message of the mint or of the cross is still queued |
| `KnockoutMatching.OnlyMatchesAreEmitted` | model/knockout.go:155-189 | every candidate has a filed mint of the pivot of a recorded cross, or with its pivot or its own time between the pivot and the time of that cross |
| `KnockoutMatching.ScrapePivotsCandsOnCross` | model/knockout.go:168-183 | a cross names a user, once and in whatever order the map is visited, if and only if one of the user's mints has its pivot, or its pivot or its own time between the pivot and the time of the cross |
| `KnockoutMatching.ScrapePivotsCandsOnMint` | model/knockout.go:155-166 | a mint names the pivots of exactly the recorded crosses with pivot <= its time <= time of the cross |
| `KnockoutSagas.CrossMovesActive` | controller/workers.go:75-87 | a cross moves the whole active liquidity of every user with a mint in its reach (of its pivot, or with pivot or time between the pivot and the time of the cross) to its pivot, leaves it zero, and changes nothing else of anyone |
| `KnockoutSagas.CrossConservesExactly` | controller/workers.go:75-87 | a cross conserves total order liquidity if and only if no candidate had anything knocked out at that pivot before |
| `KnockoutSagas.CrossTotal` | controller/workers.go:75-87 | what a second cross of a pivot loses is what it overwrites |
| `KnockoutSagas.AlwaysListable` | views/limits.go:127-167 | over any interleaving of ingestion, worker and query answers, with updates queued in between, in which mints come first and claims name recorded crosses: no liquidity is negative, and the fatal branch of the listing is never taken for any user |
| `KnockoutSagas.ListableThroughoutExactly` | views/limits.go:127-167 | for every run, whatever comes first in it: nobody's listing ever ends the process if and only if every query answer is nothing, or comes after a mint of its user or a cross of its pivot, and nothing is burned into before a mint - read off the events filed before |
| `KnockoutSagas.StepListableExactly` | views/limits.go:127-167 | the same of one step of either thread or the refresher |
| `KnockoutSagas.ClaimListableExactly` | views/limits.go:142-149 | once the worker has processed a claim of any pivot by a user that could be listed, the answer to its query can be listed if and only if it is nothing or the claimed pivot was crossed |
| `KnockoutSagas.UncrossedClaimEndsListing` | views/limits.go:142-149 | the inputs: a mint, and a claim of a pivot nothing has crossed; any answer but nothing makes the user's listing end the process |
| `KnockoutSagas.StepKeepsInv` | controller/controller.go:155-189 | each step of either thread keeps liquidity non-negative, every non-empty knocked-out entry crossed, every query asked for answerable, and everything queued filed |
| `KnockoutSagas.UnrollSubplot` | views/limits.go:127-167 | an order is listed if and only if it is what rests, under the pivot of the latest mint, or a non-empty claim with the time of the first recorded cross of its pivot; or the process ends, exactly when that is impossible |
| `KnockoutSagas.FoundIsFirst` | model/knockout.go:68-75 | what is found for a pivot is the time of its first recorded cross, and nothing else |
| `KnockoutSagas.GetCross` | model/knockout.go:68-75 | the first recorded cross of a pivot, if there is one |
| `KnockoutSagas.KnockoutSaga.EstimateLiq` | controller/controller.go:163-189 | the estimate from flows: clamped at zero, emptied by a burn that leaves less than a tenth, and a recovery empties order and claim |
| `KnockoutSagas.EstimateMeans` | controller/controller.go:163-189 | a mint adds the whole part of what its flows amount to, a burn takes it off, down to nothing, and all there is if that leaves less than a tenth of it; a recovery leaves nothing, a claim what there is |
| `KnockoutSagas.KnockoutSaga.UpdateLiqChange` | model/knockout.go:97-126 | the latest time moves up and the first down to that of the change; a mint names the pivots of the crosses that span it, a burn none, a claim or recovery its own |
| `KnockoutSagas.KnockoutSaga.ApplyToKnockout` | controller/controller.go:149-189 | a position change is filed and sent to the worker, and then its liquidity is estimated: two steps, between which the worker may come |
| `KnockoutSagas.KnockoutSaga.IngestKnockout` | controller/controller.go:224-239 | a cross is recorded and sent to the worker, and nothing is moved yet |
| `KnockoutSagas.KnockoutSaga.ProcessUpdate` | controller/workers.go:25-32 | the worker takes the oldest update: of a position its times move on and its queries are asked for, of a cross it is recorded again, every user with a mint in its reach and no other becomes a candidate, and its liquidity is moved |
| `KnockoutSagas.KnockoutSaga.AnswerAlive` | controller/handles.go:84-97 | an answer sets what the user has resting and nothing else |
| `KnockoutSagas.KnockoutSaga.AnswerPost` | controller/handles.go:99-105 | an answer that says the pivot is knocked out sets what the user can claim there and nothing else |
| `RecencyIndex.StrictWeakOrder` | cache/transactors.go:340-401 | both comparators are strict weak orders, under which two transactions are on a par exactly when time, call index, types, tokens (for users) and bid tick agree |
| `RecencyIndex.LessComparesKeys` | cache/transactors.go:340-401 | what the comparators compare; the ask tick takes no part |
| `RecencyIndex.IndexIsSorted` | cache/rwMap.go:213-230 | every run of inserts in any order leaves an ascending permutation of what was inserted |
| `RecencyIndex.KeysIgnoreInsertionOrder` | cache/rwMap.go:213-230 | the sequence of sort keys does not depend on the order of insertion |
| `RecencyIndex.LaterComerFirst` | cache/rwMap.go:218-222 | within a key, an index holds the later comer first, over every run of inserts |
| `RecencyIndex.RowsKeepInsertionOrderExactly` | cache/rwMap.go:213-230 | two runs of inserts of the same transactions in any orders end in the same index if and only if the transactions of each key came in the same order in both |
| `RecencyIndex.TxIndex.InsertSorted` | cache/rwMap.go:213-230 | the scan from the end puts the row where the specification does and shifts the rest |
| `RecencyIndex.TxIndex.LookupLastN` | cache/rwMap.go:94-107 | the last n rows of a user or pool, newest first |
| `Basics.LookupLastN` | cache/rwMap.go:94-107 | the slice and its reversal are the last n rows of any list, newest first |
| `RecencyIndex.TxIndex.LookupLastNAtTime` | cache/rwMap.go:109-131 | equals the last max(n, 1) of a full scan of the window, reversed: the early exit loses nothing, and n = 0 yields one row; newest first, in the window, and nothing newer left out |
| `UpdateLog.TrackerTimes` | model/position.go:20-36 | in a time-ordered run a tracker's times are those of its position's first and last change |
| `UpdateLog.TrackerTxs` | model/position.go:20-36 | and its transactions those of the first change, if that is a mint, and of the last mint later than all before it, its type that of the last change |
| `UpdateLog.FirstMintMovesExactly` | model/position.go:20-27 | a late change leaves the time of the first mint the earliest if and only if it is not strictly between first mint and latest update |
| `UpdateLog.PositionTracker.UpdatePosition` | model/position.go:20-33 | the fields after a change are the specified tracker |
| `UpdateLog.RecentIsNewestFirst` | cache/transactors.go:437-450 | after any time-ordered run the last occurrences in the append-only log are in the order of the current update times |
| `UpdateLog.ReadsMostRecent` | cache/rwMap.go:133-163 | the de-duplicating scan returns distinct positions of the log in the window, newest first; whatever is left out is not newer than anything returned, and nothing is left out unless n were found |
| `UpdateLog.CollectIsFirst` | cache/rwMap.go:144-160 | when positions come newest first, stopping at the first one before the window collects exactly the first m of all in the window |
| `UpdateLog.LookupLastNTimeNonUnique` | cache/rwMap.go:133-163 | result and marks of the scan, for any log, times and set of seen positions |
| `PoolPositions.PagesAreSound` | views/positions.go:78-110 | across all pages and both kinds of retrieval: at most n positions, none twice, all to be shown, and in the time window if one was given, with a lower bound or without |
| `PoolPositions.QueryPoolPositions` | views/positions.go:49-113 | the query returns those positions, at most n, in the window and with liquidity if empty ones are left out: the most recently updated first, and of those of one time the last minted, then the largest |
| `PositionPaging.PageSizeIs` | views/positions.go:61-70 | a page holds twice as many positions as are asked for when empty ones are left out or more than 200 are asked for, otherwise 20 times as many, or 50 times for fewer than 10 |
| `PositionPaging.ShownAre` | views/positions.go:87-94 | what is to be shown is tracked, and has liquidity if empty positions are left out |
| `PositionPaging.BoundaryExactly` | views/positions.go:85-109 | where two pages meet, the next page's window is what is left of the window if and only if nothing is left, or the next position is more than a second older than the last of the page - for any seen set, window and page size |
| `PositionPaging.PagesRead` | views/positions.go:78-110 | from any point on, a query with a window returns the first n to be shown of just the positions its pages hold |
| `PositionPaging.ReadsAllExactly` | views/positions.go:78-109 | up to k positions a page, the pages hold exactly the newest positions of the window if and only if there is such a gap at every boundary |
| `PositionPaging.GapsSuffice` | views/positions.go:78-110 | with such gaps the query returns the n most recent to be shown of as many positions as five pages have room for |
| `PositionPaging.MostRecentExactly` | views/positions.go:61-110 | when positions come newest first, as after any time-ordered run: a query with a window returns exactly the n most recent positions of the window that are to be shown, if and only if none to be shown is passed over where a page that was not enough meets the next, nor any left after five pages |
| `PositionPaging.MostRecentByDefaultExactly` | views/positions.go:78-110 | the same of the query without a window, whose first page is the end of the log and may hold a position more than once |
| `PositionPaging.CompleteWithEmpty` | views/positions.go:61-70 | a page holds more than n positions, so a query with a window that does not leave out empty positions always returns the n most recent of it |
| `PositionPaging.FirstPageIsEnough` | views/positions.go:97-106 | nothing is lost when the window holds less than a page, or enough of its first page are to be shown |
| `PoolPositions.CollectResults` | views/positions.go:71-110 | the loop over at most five pages equals the specified paging, seen set and page bound included |
| `PositionPaging.PassedOverIsLost` | views/positions.go:78-109 | a position behind the first page of a query without a window, updated at the time of the page's last or a second before, is in no answer, for any log, number asked for and pages |
| `PositionPaging.PagingPassesOver` | views/positions.go:107-109 | the inputs, for any number asked for: a page of updates of empty positions, before them one of a position that is not, at the time of the first of them or a second before; it alone is to be shown, and the answer is empty |
| `LiquidityMath.SolverFindsBalance` | model/liquidityMath.go:63-82 | for flows of one nonzero sign the solver's root price lies strictly inside the range, both flows amount to the same liquidity there, and there is no other such price |
| `LiquidityMath.LiquidityRoundTrip` | model/liquidityMath.go:26-110 | the tokens of a position at any price below, inside or above its range give its liquidity back |
| `LiquidityMath.TokensAreReserves` | model/liquidityMath.go:84-110 | with the tokens that take the price out of the range, what a position holds are reserves whose product is the square of its liquidity and whose ratio is the clamped price |
| `LiquidityMath.OutIsMinusIn` | model/liquidityMath.go:26-39 | flows out of a range, one-sided ones included, amount to the negative of the liquidity of the same flows into it |
| `LiquidityMath.BalanceIsRoot` | model/liquidityMath.go:63-82 | the quadratic is zero exactly where both flows amount to the same liquidity |
| `LiquidityMath.RootInRange` | model/liquidityMath.go:84-99 | the root of the clamped price lies in the range, at its ends when the price is outside |
| `LiquidityMath.AmbientRoundTrip` | model/liquidityMath.go:10-12 | ambient liquidity is recovered from its two token amounts |

## Left out

- HTTP server, parameter parsing, JSON, table conversion, SQL readers: input and output with little state.
- RPC, ABI packing, multicalls: query answers are arbitrary (in `KnockoutSagas`, arbitrary non-negative quantities; an answer that a pivot is not knocked out changes nothing and is no step).
- `NormalSubgraphSyncer.syncStep`: it waits for six channels and starts five (`controller/sync.go:165-175`), so what follows the wait is never reached.
- Sleeps, rate limits, wall-clock windows and logging; whether an event is recent is a free choice, and follow-up refreshes are further requests.
- Channel capacity: queues never fill. A worker that panics outside a query (in hashing, say) is not modelled.
- Floating-point rounding, integer truncation of token amounts, hash collisions.
- APR and the weighted average time, which do not add up to an average (`model/liquidityHistory.go:48-58`), and the fee sums of a pool beyond their accumulation.
- `BumpRefreshHandle`, which overwrites deltas from chain, and the rewriting of cached hourly candles under a read lock.
- The continuous sync after startup, which runs the same rounds without exiting, and the metadata block a response reports.
- `saveChunks` of the startup cacher: disk files, and a partition without further state.
- TradingHistory.PriceFromLiqFlow: the price of a tick-skewed event is a given value of the event; `LiquidityMath.SolverFindsBalance` is about how it is found.
- LiquidityCurves.Update: the liquidity of an event is a given value; `LiquidityMath` is about how it comes from flows. Cross events are taken with the tick they name.
- LiquidityMath.DeriveLiquidityFromConcFlow: a division by zero is `None` where the original yields an infinity, and flows of opposite signs, whose root need not be real, have no theorem.
- KnockoutSagas.KnockoutSaga.EstimateLiq: its reads and writes of a liquidity are one step, as are those `KnockoutSagas.KnockoutSaga.MoveToPivot` makes for one candidate of a cross; the original locks each by itself. Subplots are values in the saga's map, so sharing of a subplot between the cache's maps is not captured.
- HourlyCandles.CombineHourlyCandles: candles are required to follow each other hour by hour, as the builder makes them; over a gap the original would index outside its list.
- Candles.CandleBuilder.Increment: states are required not to precede the running candle, as a sorted series never does.
- PoolPositions.QueryPoolPositions: the library sort is any permutation that is sorted.
- PoolPositions.PagesAreSound: without a lower time bound a page bound of 0 would mean no window at all, so no position may be dated 1; `PositionPaging.MostRecentExactly` and `PositionPaging.MostRecentByDefaultExactly` are likewise about logs of later dates.
- CandlePaths.AnswerIs: windows are n periods long and start after time 0. One that would start before it is rounded to fewer periods (`PoolCandles.WindowIsAligned`), and time 0 marks a combined candle that has seen no hour; `CandlePaths.FastIsDirectExactly` and `CandlePaths.TimesRiseExactly` are about the same windows.
- KnockoutMatching.ScrapePivotsCandsOnCross: the order in which a Go map is visited is a parameter, any order.
