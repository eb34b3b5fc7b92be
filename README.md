# infoshell in Dafny

A Dafny model of the sequential logic inside infoshell, an Electron desktop widget. The widget collects prices and search trends, stores them in a local SQLite database and shows them in a main window and a small widget window. A Cloudflare worker serves downloads, inquiries and banners, and an administration page manages them. The model covers these parts:

- **Collection.** `runCollectors`, the catch-up test `shouldCollect`, `collectOnStartup`, the map of scheduled tasks, and `collectAllManual` (src/services/scheduler.js). Also the `collectAll` loop (src/services/collector/index.js). Each collector call is given by its outcome: success with records, failure with a message, or a thrown error. `Date.now()` is a parameter.
- **Storage.** The SQLite tables as fields of a `Store.Database` class whose methods are the mutating queries of src/database/queries.js. The read queries are functions of the tables, in `Queries`. Settings hold `JSON.stringify` text, and `Json` proves the round trip.
- **Collectors.** Crypto, gold and silver, exchange, oil, economic indicators and trends. Each page or API answer is given by what its selectors or patterns matched, already parsed. The model covers what the code does after that: precedence rules, fallbacks, unit conversions, cross rates, keyword clean-up, ranking and de-duplication, and the insert-then-push loops.
- **Worker.** Request dispatch and the admin gate, `verifyAdmin`, the inquiry and banner validation, and the `updateBanner` SET-clause builder (`WorkerApi`). The `rate_limits` state machine, the download log, inquiry storage and the blocked-address list live in the `RateLimit.WorkerStore` class.
- **Renderer pages.** The calculators, the calendar, schedule and todo panel, the main window's price board and inquiry form, the widget window, and the shared helpers of src/renderer/js/utils.js and src/utils/format.js: memoize, the element cache, escaping, name lookups, `timeAgo` and `formatChange`. `formatDate` is `Dates.IsoDate`, the same text as `formatDateKey`.
- **Administration page.** IP masking, the label tables, `capitalize`, the download-count prompt, the seven-day chart and the banner editor.

Shared modules give JavaScript semantics to what the code relies on:
- `Text`: white space, `trim`, UTF-16 lengths, `split`, and the code-point order of SQLite TEXT.
- `JsNumber`: NaN, truthiness, `Math.round`, `toFixed(2)` and `parseFloat`.
- `Dates`: `new Date(y, m, d)` with its overflow and its reading of years 0..99 as 1900 + y, the setters' arithmetic, and `getDay()`.
- `OrderedMap`: a `Map` that keeps insertion order.
- `Sorting`: the stable `Array.prototype.sort` and SQL `ORDER BY`.
- `Html`: escaping.

Behaviours of the code worth knowing:
- `getLatestPrices` takes the row with the largest id per symbol, not the latest `collected_at`. `getPrice` does use the latest `collected_at`, and `Queries` models both as written.
- A collector that finds nothing still reports success. The oil and trend collectors return `success: true` with no records, and the economic collector returns its records without storing them.
- `collectAllManual` runs every category except trends.
- Google trend ranks are positions among all feed items. Items with an empty title are skipped, so ranks can have gaps.
- The troy-ounce-to-don factor is exactly 31.1035 / 3.75, not the rounded 8.294.
- `collectAll` records an error only for a collector that throws. A `success: false` result adds nothing.

## Model

| member | source | states |
|---|---|---|
| CollectorIndex.ThrownErrorsEmpty | src/services/collector/index.js:34-45 | the error list is empty exactly when no collector threw; a `success: false` result adds nothing |
| CollectorIndex.ThrownErrorsMember | src/services/collector/index.js:41-44 | an entry `{name, error}` is present exactly when the collector with that name threw with that message |
| CollectorIndex.CollectAll | src/services/collector/index.js:15-49 | the six collectors run in the order gold, silver, exchange, oil, crypto, economic; `success` is always true, `data` is the in-order concatenation of the successful results' data, `errors` lists the throwers by name |
| Scheduler.LastCollectKey | src/services/scheduler.js:24-31 | a `last_collect_` key exists exactly for the six known categories |
| Scheduler.LastCollectKeyInjective | src/services/scheduler.js:24-31 | two categories with the same key are the same category |
| Scheduler.ErrorsOfCount | src/services/scheduler.js:58-71 | exactly one error per collector that returned `success: false` or threw |
| Scheduler.StatusSpec | src/services/scheduler.js:83-93 | the last message is always `collect:status` with count = number of items gathered and the errors; the status is `complete` exactly when every collector succeeded; a `price:update` comes first exactly when data was gathered |
| Scheduler.RunCollectors | src/services/scheduler.js:52-97 | every outcome is taken in order and none aborts the run; the result is the gathered data, the messages are those of `StatusSpec`, the category's time is stored (nothing when the database is closed); RunCollectors itself writes only that setting, since the collectors' own inserts are modelled by each collector's method |
| Scheduler.StampOther | src/services/scheduler.js:74-81 | storing one category's time leaves every other setting as it was |
| Scheduler.CatchUp | src/services/scheduler.js:105-120 | after a nonzero time t is stored the category is due exactly when now − t ≥ interval; a lookup that throws (closed database) makes it due |
| Scheduler.FirstRunCollects | src/services/scheduler.js:105-120 | a category never collected (missing setting, read as null) is due |
| Scheduler.DuePrefixMembers | src/services/scheduler.js:137-165 | a category is run exactly when it is one of the start-up categories and its check says it is due |
| Scheduler.CollectOnStartup | src/services/scheduler.js:125-168 | the categories run are, in the order exchange, metals, crypto, oil, trends, economic, exactly those due according to the lookups made before the first run; the broadcasts are the run messages of each category run, in that order; the settings are the start settings with each run category stamped in turn; the pass itself writes only the settings, since the collectors' own inserts are modelled by each collector's method |
| Scheduler.StampedPrefixSpec | src/services/scheduler.js:125-168 | after the pass, a category's last collection time is `now` exactly when the database is open and that category was due; every other category keeps its stored time |
| Scheduler.CollectAllManual | src/services/scheduler.js:235-257 | the result is the concatenation of the crypto, metals, exchange, oil and economic data in that order; the broadcasts are the five runs' messages in the same order; the settings are the start settings with the five categories stamped in turn; the pass itself writes only the settings, since the collectors' own inserts are modelled by each collector's method |
| Scheduler.ManualStampedSpec | src/services/scheduler.js:235-257 | after the manual pass each of its five categories has `now` as its last collection time when the database is open and keeps its stored time when closed; the trend category's time is never touched |
| Scheduler.StampAt | src/services/scheduler.js:74-80 | storing a category's time sets exactly its own key, and only with the database open |
| Scheduler.GatheredAll | src/services/scheduler.js:240-253 | gathering the five runs one after another gives the same items as gathering them together |
| Scheduler.CronTask.Stop | src/services/scheduler.js:225 | a stopped job is no longer running |
| Scheduler.TaskRegistry.Register | src/services/scheduler.js:175-202 | `tasks.set` puts a fresh running job with the category's cron expression under its name, replacing an earlier one in place |
| Scheduler.TaskRegistry.Start | src/services/scheduler.js:173-218 | whatever the map held, each of the six categories then holds a new running job with its own cron expression; jobs under other names are kept; starting on an empty map leaves exactly the six jobs in the order crypto, metals, exchange, oil, trends, economic |
| Scheduler.TaskRegistry.StopAll | src/services/scheduler.js:223-230 | every registered job is stopped and the map is left empty |
| Scheduler.CronTask.constructor | src/services/scheduler.js:175 | `cron.schedule` gives a running job with its expression and category |
| Scheduler.TaskRegistry.constructor | src/services/scheduler.js:21 | the registry starts with no jobs |
| Records.PriceItems | src/services/collector/crypto.js:57 | each price record becomes one `data` element, in order and nothing else |
| Records.PriceItemsSnoc | src/services/scheduler.js:58-71 | one more record appends exactly its element at the end |
| Records.TrendItems | src/services/collector/trends.js:149 | each trend keyword becomes one `data` element, in order |
| Records.GatheredAppend | src/services/scheduler.js:58-71 | gathering over two runs of collectors is the concatenation of the two gatherings (`allData.push(...result.data)` keeps order) |
| Records.GatheredMember | src/services/scheduler.js:60-62 | an item is gathered exactly when some successful result carries it in its `data` |
| Store.TrendRowsOf | src/database/queries.js:151-165 | the rows inserted for `n` items are `n` rows numbered consecutively after the counter, each carrying its item's source, keyword and rank |
| Store.Database.constructor | src/database/index.js:10-11 | no handle yet, every table empty |
| Store.Database.Init | src/database/index.js:17-130 | Init opens the database handle and leaves every table and every id counter exactly as it was, as `CREATE TABLE IF NOT EXISTS` does. |
| Store.Database.Close | src/database/index.js:148-154 | drops the handle; the tables and counters stay |
| Store.Database.InsertPrice | src/database/queries.js:16-31 | with a handle, appends exactly one row numbered after the counter (a zero change stored as NULL, a missing unit as `KRW`) and returns its id; without one, returns nothing and changes nothing; the other tables never change |
| Store.Database.UpsertDailySummary | src/database/queries.js:119-141 | with a handle, the summaries become `Queries.UpsertSummary` of the old ones; the other tables never change |
| Store.Database.InsertTrends | src/database/queries.js:151-165 | with a handle, the trends table gains exactly `TrendRowsOf(items)` after the old rows and the counter grows by the number of items; without one, nothing changes |
| Store.Database.SetSetting | src/database/queries.js:224-234 | with a handle, the settings become `Queries.SetSetting` of the old ones; nothing else changes |
| Store.Database.AddSchedule | src/database/queries.js:327-331 | with a handle, appends one schedule numbered after the counter and returns its id; without one, nothing changes |
| Store.Database.DeleteSchedule | src/database/queries.js:360-364 | with a handle, the schedules become `Queries.DeleteSchedule` of the old ones |
| Store.Database.AddTodo | src/database/queries.js:374-378 | with a handle, appends one open todo (`done` 0) numbered after the counter and returns its id |
| Store.Database.ToggleTodo | src/database/queries.js:394-398 | with a handle, the todos become `Queries.ToggleTodo` of the old ones |
| Store.Database.DeleteTodo | src/database/queries.js:404-408 | with a handle, the todos become `Queries.DeleteTodo` of the old ones |
| Store.AppendKeepsOrder | src/database/index.js:85-91 | a row numbered after the AUTOINCREMENT counter keeps the ids increasing in insertion order |
| Queries.TimeLePreorder | src/database/queries.js:43 | `ORDER BY collected_at` compares by a total preorder |
| Queries.RowsOfMember | src/database/queries.js:42 | `WHERE symbol = ?` keeps exactly the rows of that symbol |
| Queries.GetPriceSpec | src/database/queries.js:38-47 | no row exactly when the symbol has none; otherwise a row of that symbol that no row of the symbol is newer than |
| Queries.CatSymLePreorder | src/database/queries.js:62 | `ORDER BY p.category, p.symbol` is a total preorder |
| Queries.Symbols | src/database/queries.js:58-60 | `GROUP BY symbol` yields each symbol present exactly once and no other |
| Queries.MaxIdRow | src/database/queries.js:56-61 | the row joined on `MAX(id)` is a row of that symbol whose id no row of the symbol exceeds |
| Queries.MaxIdRows | src/database/queries.js:56-61 | one joined row per listed symbol, in the same order |
| Queries.LatestMembers | src/database/queries.js:53-65 | the rows returned are exactly the per-symbol maximal-id rows, reordered |
| Queries.LatestDistinct | src/database/queries.js:53-65 | no symbol is returned twice |
| Queries.LatestCovers | src/database/queries.js:53-65 | every symbol present in the table is returned |
| Queries.LatestMaximal | src/database/queries.js:53-65 | each returned row is in the table and has the largest id of its symbol |
| Queries.LatestPricesSpec | src/database/queries.js:53-65 | sorted by category then symbol, one row per symbol present, the maximal-id one, and every symbol covered |
| Queries.SqlLimit | src/database/queries.js:89 | `LIMIT n` keeps the first `n` rows, all of them when `n` is negative or at least the row count |
| Queries.ReverseTakeReverse | src/database/queries.js:92-94 | the reversed first `k` rows of a reversed list are the last `k` rows of the list |
| Queries.NewestIsSuffix | src/database/queries.js:88-94 | `ORDER BY … DESC LIMIT n` followed by `.reverse()` is the last min(n, count) rows in ascending order |
| Queries.SuffixNewest | src/database/queries.js:88-89 | in a sorted list, a row before the kept suffix is no later than a kept row |
| Queries.NewestReversedSpec | src/database/queries.js:88-94 | the result is ascending, has min(n, count) rows, is a sub-multiset of the input, and no dropped row is newer than a kept one |
| Queries.DateLePreorder | src/database/queries.js:88 | `ORDER BY date` on `YYYY-MM-DD` texts is a total preorder |
| Queries.DailyPoints | src/database/queries.js:79-85 | each summary becomes the point (date, open, high, low, close, avg), in order |
| Queries.HourlyPoints | src/database/queries.js:99-102 | each price row becomes the point (time, close = avg = price), in order |
| Queries.PriceHistoryDaily | src/database/queries.js:91-95 | with summaries for the symbol and a nonzero `days`, the history has min(days, summaries) points with dates ascending |
| Queries.DailyOrder | src/database/queries.js:94 | ascending summaries give ascending daily points |
| Queries.PriceHistoryHourly | src/database/queries.js:97-108 | otherwise the history has min(days * 24, rows) hourly points, oldest first |
| Queries.NewestNone | src/database/queries.js:93 | a zero limit or no summaries gives nothing, so the hourly fallback is taken |
| Queries.NewestRows | src/database/queries.js:98-108 | the newest `n` price rows as points: count and order |
| Queries.HistoryFallsBack | src/database/queries.js:93-108 | an empty summary result falls back to the newest `days * 24` price rows |
| Queries.HourlyOrder | src/database/queries.js:105 | rows ascending by time give ascending hourly points |
| Queries.UpsertAllSummary | src/database/queries.js:119-141 | upserting inputs for one symbol and date into a table without that row leaves: the first open, the highest high, the lowest low, the last close, the mean of the averages, and their count |
| Queries.UpsertStep | src/database/queries.js:124-129 | one `ON CONFLICT … DO UPDATE` extends the running high, low, close, average and count by one input |
| Queries.UpsertKeepsLowBelowHigh | src/database/queries.js:119-141 | an upsert whose input has low <= high keeps low <= high in every row: `MIN` of the lows never passes `MAX` of the highs |
| Queries.UpsertAllLowBelowHigh | src/database/queries.js:119-141 | the same for any run of such upserts |
| Queries.UpsertOthers | src/database/queries.js:120-123 | an upsert changes only the row with its own (symbol, date) |
| Queries.IndexOfPair | src/database/queries.js:178-181 | the position of the group of a (source, keyword) pair, or -1 exactly when there is none |
| Queries.WitnessedExtend | src/database/queries.js:178-181 | a group witnessed by some rows stays witnessed when more rows arrive |
| Queries.GroupStepNew | src/database/queries.js:178-181 | a row with a new pair opens a new group with its rank |
| Queries.GroupStepMerge | src/database/queries.js:178 | a row with a known pair lowers its group's rank to the minimum (`MIN(rank)`) |
| Queries.GroupStep | src/database/queries.js:178-181 | folding one more row into a correct grouping of the earlier rows gives a correct grouping of all of them |
| Queries.MergeCovered | src/database/queries.js:178-181 | after a merge every row is still covered by a group whose rank is at most its own |
| Queries.MergeWitnessed | src/database/queries.js:178-181 | after a merge every group's rank is still the rank of one of its rows |
| Queries.GroupMinRankSpec | src/database/queries.js:178-181 | `GROUP BY source, keyword` with `MIN(rank)`: each pair once, with the least rank among its rows |
| Queries.SourceRankLePreorder | src/database/queries.js:182 | `ORDER BY source, rank` is a total preorder |
| Queries.PermutedGroups | src/database/queries.js:182 | reordering the groups keeps them a grouping of the same rows |
| Queries.GetTrendsSpec | src/database/queries.js:172-195 | each pair of the rows within the last hour (and of the source, when one is given) appears exactly once with its least rank, ordered by source then rank (`all`) or by rank; a single-source query returns only that source |
| Queries.FilterHolds | src/database/queries.js:180 | every row kept by the `WHERE` filter satisfies it |
| Queries.TrendsGrouped | src/database/queries.js:172-195 | the result is a grouping of the selected rows |
| Queries.TrendsOrder | src/database/queries.js:182-192 | the result is in the order the query names |
| Queries.TrendsOfSource | src/database/queries.js:187-194 | with a named source every group is of that source |
| Queries.SetSetting | src/database/queries.js:224-234 | the key afterwards holds the JSON text of the value |
| Queries.SettingRoundTrip | src/database/queries.js:206-234 | `getSetting` after `setSetting` gives back the value; other keys read as before |
| Queries.SettingLastWriteWins | src/database/queries.js:228-230 | of two writes to one key the later one replaces the earlier |
| Queries.PricesOf | src/database/queries.js:246-248 | the price column of the rows, in order |
| Queries.MaxOf | src/database/queries.js:246 | `MAX(price)` is one of the prices and no price exceeds it |
| Queries.MinOf | src/database/queries.js:247 | `MIN(price)` is one of the prices and no price is below it |
| Queries.SumBetween | src/database/queries.js:248 | the sum lies between count times the minimum and count times the maximum |
| Queries.MeanBetween | src/database/queries.js:246-248 | `AVG(price)` lies between `MIN(price)` and `MAX(price)` |
| Queries.TodayStatsSpec | src/database/queries.js:241-262 | `null` exactly when no row of the symbol falls on today's Korean date; otherwise the count of such rows, high and low the rounded extreme prices, the low being the rounded price of some row of today and at most every row's rounded price, and low <= avg <= high |
| Queries.RoundedLow | src/database/queries.js:256-260 | the rounded minimum is the rounded price of some row and at most every row's rounded price |
| Queries.RoundedStats | src/database/queries.js:256-260 | `Math.round` keeps min <= avg <= max, and the rounded high is the rounded price of some row |
| Queries.WeekStatsSpec | src/database/queries.js:267-316 | `null` exactly when no row of the symbol is at most seven days old; otherwise the count of such rows, a high and a low that are the week's largest and smallest rounded prices (each attained by a row, and low <= high), and a change equal to the two-decimal rounding of the percentage from the week's oldest row to the symbol's latest row, with that difference's sign, and 0 for a non-positive oldest price |
| Queries.WeekChange | src/database/queries.js:304-313 | the rounded change is the two-decimal percentage difference for a positive oldest price, 0 otherwise, and has the difference's sign |
| Queries.WeekExtremes | src/database/queries.js:272-313 | the rounded weekly high and low are prices of rows of the week, bound every other rounded price, and low <= high |
| Queries.OldestFirst | src/database/queries.js:287-294 | `ORDER BY collected_at ASC LIMIT 1` picks a row no later than any other |
| Queries.ChangeSign | src/database/queries.js:306-315 | the rounded change is 0 for a non-positive oldest price and otherwise has the sign of the difference |
| Queries.SchedulesByDateSpec | src/database/queries.js:337-341 | the entries of that date, each once, ordered by creation time |
| Queries.Dedupe | src/database/queries.js:350 | `SELECT DISTINCT`: the same values, each once |
| Queries.DatesOf | src/database/queries.js:353 | `.map(r => r.date)`: the date column, in order |
| Queries.ScheduleDatesSpec | src/database/queries.js:347-354 | a date is listed exactly when some entry has it and it starts with the month text, and no date twice |
| Queries.GetTodosSpec | src/database/queries.js:383-387 | every todo once, newest first |
| Queries.ToggleTodo | src/database/queries.js:394-398 | the table keeps its length; the effect on each row is `ToggleTodoSpec` |
| Queries.ToggleTodoSpec | src/database/queries.js:394-398 | only `done` changes, only on rows with the id, to 1 or 0 |
| Queries.DeleteSpec | src/database/queries.js:360-408 | a delete removes exactly the rows with that id and keeps the others; with no such row nothing changes |
| Collecting.ChangeValue | src/database/queries.js:26-27 | a parsed change keeps its value; NaN feeds the record as 0 (both are stored as NULL) |
| Collecting.PriceRowsOf | src/database/queries.js:16-31 | one row per inserted record |
| Collecting.PriceRowsOfSpec | src/database/queries.js:16-31 | row `i` holds record `i` under the id `last + 1 + i` |
| Collecting.PriceRowsStep | src/services/collector/crypto.js:53 | one more insert adds exactly the next row |
| Collecting.PriceRowsSnoc | src/services/collector/exchange.js:128-129 | inserting one more record appends its row numbered after the others |
| Collecting.Somes | src/services/collector/crypto.js:39-55 | what a loop that skips missing entries pushes is no longer than its input |
| Collecting.SomesStep | src/services/collector/crypto.js:41 | one more entry adds its value when present and nothing otherwise |
| Collecting.SomesSpec | src/services/collector/oil.js:119-122 | every present value is kept, and the result is empty exactly when no value is present |
| Collecting.SomesPrefix | src/services/collector/crypto.js:39-55 | a value pushed early keeps the final data non-empty |
| Collecting.LastSomeStep | src/services/collector/oil.js:44-46 | a later match overwrites the earlier one; a later miss keeps it |
| Collecting.LastSomeSpec | src/services/collector/oil.js:39-53 | the value kept is the last match, and there is none exactly when no table matched |
| Collecting.InsertEach | src/services/collector/crypto.js:39-57 | with the database open every record is inserted in order, numbered after the counter, and returned as `data`; closed, the first insert throws and `success: false` carries 'Database not initialized', with nothing stored; only the price table changes |
| Crypto.CoinChange | src/services/collector/crypto.js:48 | `Math.round(change * 100) / 100` is within half a hundredth of the change; a NaN change feeds the record as 0 |
| Crypto.CoinRecord | src/services/collector/crypto.js:44-51 | category `crypto`, the coin's symbol, the KRW price, the rounded change, unit `KRW` |
| Crypto.CoinResults | src/services/collector/crypto.js:12-15 | for each coin of `COINS` in order, its record exactly when the response has its id |
| Crypto.CoinRecords | src/services/collector/crypto.js:39-55 | the loop pushes the present coins' records in `COINS` order, skipping the missing ones |
| Crypto.CoinRecordsSpec | src/services/collector/crypto.js:39-55 | one record per coin present, bitcoin's before ethereum's |
| Crypto.CollectCrypto | src/services/collector/crypto.js:21-62 | a failed request returns its message and stores nothing; otherwise the present coins are inserted and returned in order, or the closed database fails the call |
| Oil.ConfigOf | src/services/collector/oil.js:78-79 | a configuration exists exactly for `gasoline` and `diesel` |
| Oil.PriceMatches | src/services/collector/oil.js:43 | the `Current price` figure of each table, in order |
| Oil.ChangeMatches | src/services/collector/oil.js:49 | the `One month ago` figure of each table, in order |
| Oil.ScanTables | src/services/collector/oil.js:35-53 | the price is the last table match, the change the last change match or 0 |
| Oil.OilPricePrecedence | src/services/collector/oil.js:34-70 | a truthy table price wins over the title; otherwise a price is found exactly when the title's figure is truthy; a found price is never 0; with no change match the change is 0 |
| Oil.LastTableWins | src/services/collector/oil.js:39-53 | the last table with a truthy price match decides the price whatever came before |
| Oil.OilRecord | src/services/collector/oil.js:92-99 | category `oil`, the configured symbol, the price, the change, unit `KRW` |
| Oil.FetchOilPriceSpec | src/services/collector/oil.js:77-104 | a record exactly for a configured type whose page loaded and yields a price, carrying that price and the type's symbol; a failed request gives `null` |
| Oil.OilResults | src/services/collector/oil.js:113-117 | the `fetchOilPrice` result of each configured type, in order |
| Oil.FetchOilPrices | src/services/collector/oil.js:115-122 | the loop keeps each non-null result in order |
| Oil.CollectOil | src/services/collector/oil.js:110-135 | gasoline then diesel; each price found is inserted and returned, a missing one skipped, so the call succeeds even with none; a closed database fails it at the first insert |
| Exchange.SingleChangeRatePrecedence | src/services/collector/exchange.js:34-72 | a parenthesised percentage wins whatever else the page holds; otherwise a bare percentage of magnitude below 20, or 0; a failed request gives 0 |
| Exchange.ChangeTableSpec | src/services/collector/exchange.js:83-87 | after visiting the first `n` currencies each has its own page's rate and no other key is set |
| Exchange.CurrenciesDistinct | src/services/collector/exchange.js:13-20 | the six `INVESTING_URLS` keys are distinct |
| Exchange.FetchInvestingChangeRates | src/services/collector/exchange.js:78-95 | every one of the six currencies is set, to its own page's rate, and nothing else |
| Exchange.CurrencyRecord | src/services/collector/exchange.js:119-199 | category `exchange`, the currency's code, unit `KRW`, its change (0 when missing), and a price within half a hundredth of the units quoted times KRW per unit |
| Exchange.ExchangeRecords | src/services/collector/exchange.js:117-199 | six records in the order USD, EUR, JPY, CNY, RUB, VND |
| Exchange.CrossRates | src/services/collector/exchange.js:123-199 | the dollar at the API's KRW rate, yen and dong quoted per 100 units, and nonnegative prices from a nonnegative KRW rate |
| Exchange.CollectExchange | src/services/collector/exchange.js:101-208 | a failed rate request returns its message and stores nothing; otherwise the six records are inserted and returned in order, or the closed database fails the call |
| Gold.ExchangeRateChain | src/services/collector/gold.js:23-59 | the stored USD price when truthy, else a scraped rate above 100, else 1450; never 0, and above 100 whenever the database is closed |
| Gold.MetaFirst | src/services/collector/gold.js:66-85 | a truthy meta price wins and `#p`/`#pch` are then ignored; a `down` description negates the change |
| Gold.PageFallback | src/services/collector/gold.js:87-105 | without a truthy meta price a result exists exactly when `#p` parses truthy; its change is `#pch` when that parses, else the meta-derived change |
| Gold.ExtractedSign | src/services/collector/gold.js:78-107 | a found price is never 0, and a `down` description makes a positive parsed change negative |
| Gold.PricePerDon | src/services/collector/gold.js:129-132 | the KRW price per don is within half a won of `usd * rate * 3.75 / 31.1035` |
| Gold.PricePerDonMono | src/services/collector/gold.js:131-132 | at a positive rate a dearer ounce is never a cheaper don |
| Gold.MetalRecord | src/services/collector/gold.js:135-142 | `gold`/`XAU` or `silver`/`XAG`, unit `KRW`, the per-don price, the extracted change |
| Gold.CollectMetal | src/services/collector/gold.js:114-192 | a failed request or a page without a price gives `success: false` and stores nothing; otherwise the rate is looked up before the insert and the one inserted record is returned |
| Economic.IndicatorRecord | src/services/collector/economic.js:47-55 | every indicator record has category `economic`, unit `%`, change 0, and its symbol and value |
| Economic.LastBaseRateSpec | src/services/collector/economic.js:30-36 | the value kept is that of the last row naming both `한국` and `기준금리`, and there is none exactly when no row does |
| Economic.ScanRateRows | src/services/collector/economic.js:30-36 | the `.each` loop keeps the last matching row's value |
| Economic.FetchKoreaInterestRate | src/services/collector/economic.js:13-63 | the rate of the page, or null on a failed request or a missing, 0 or NaN value |
| Economic.KoreaRatePrecedence | src/services/collector/economic.js:30-56 | a truthy table value beats `.tb_td1`; without one `.tb_td1` decides; 0 and NaN never come out |
| Economic.KeepRateChars | src/services/collector/economic.js:84 | `replace(/[^0-9.]/g, '')` keeps exactly the digits and points, in order |
| Economic.KeepRateCharsKeeps | src/services/collector/economic.js:84 | text of digits and points comes through unchanged |
| Economic.KeepRateCharsAppend | src/services/collector/economic.js:84 | the filter works piecewise over a concatenation |
| Economic.KeepRateCharsDrops | src/services/collector/economic.js:84 | text without digits or points vanishes |
| Economic.UsRatePositive | src/services/collector/economic.js:83-96 | with every sign character dropped, a US rate that comes out is positive |
| Economic.ParseDecimalPrefixNonNegative | src/services/collector/economic.js:84 | `parseFloat` of unsigned digits is never negative |
| Economic.UsRateWholeNumber | src/services/collector/economic.js:83-96 | a text such as `4` or `4%` gives exactly that rate |
| Economic.IndicatorsDistinct | src/services/collector/economic.js:172-218 | the four indicator symbols are distinct |
| Economic.IndicatorsClosedForm | src/services/collector/economic.js:166-218 | the results are the scraped rates, then the CPI constants, then the defaults of the rates that did not come out; the CPI fills never fire |
| Economic.PriceOfAt | src/services/collector/economic.js:172 | `results.find` returns the first record with the symbol |
| Economic.IndicatorsSpec | src/services/collector/economic.js:153-225 | four records with distinct indicator symbols, each `economic`/`%`/change 0; a scraped rate wins over its default (3.0, 4.5); CPI is 1.9 and 2.7 |
| Economic.ClosedFormSymbols | src/services/collector/economic.js:166-218 | the closed form has four distinct indicator records |
| Economic.ClosedFormPrices | src/services/collector/economic.js:166-218 | the closed form's prices are the scraped rates or their defaults, and the CPI constants |
| Economic.CollectEconomicIndicators | src/services/collector/economic.js:153-225 | always `success: true`, with the indicator records in order; nothing is stored |
| Trends.GoogleRanked | src/services/collector/trends.js:37-49 | at most one entry per feed item |
| Trends.GoogleRankedSpec | src/services/collector/trends.js:37-49 | each entry is the trimmed title at position rank - 1, ranks strictly increase (skipping empty titles), and every non-empty title has its entry |
| Trends.GoogleRankedEntryOf | src/services/collector/trends.js:38-47 | every entry is a trimmed non-empty title with its one-based position |
| Trends.RanksIncreaseSnoc | src/services/collector/trends.js:44 | appending a larger rank keeps ranks increasing |
| Trends.GoogleRankedIncreasing | src/services/collector/trends.js:37-49 | the ranks strictly increase |
| Trends.GoogleRankedComplete | src/services/collector/trends.js:41-48 | every non-empty title is kept, at rank `i + 1` |
| Trends.FetchGoogleTrends | src/services/collector/trends.js:22-57 | the `items.each` loop yields the ranked entries; a failed request gives `[]` |
| Trends.StripRank | src/services/collector/trends.js:79 | `replace(/^\d+\s*/, '')` never lengthens the text |
| Trends.DigitSuffix | src/services/collector/trends.js:80 | the trailing digit run is within the text |
| Trends.DigitSuffixSpec | src/services/collector/trends.js:80 | the run is all digits and maximal |
| Trends.StripChange | src/services/collector/trends.js:80 | `replace(/\s+\d+$/, '')` never lengthens the text |
| Trends.TrimKeeps | src/services/collector/trends.js:81 | a text without white space at its ends is its own trim |
| Trends.DigitSuffixDigits | src/services/collector/trends.js:80 | digits after a non-digit are exactly the trailing run |
| Trends.StripRankOf | src/services/collector/trends.js:79 | a leading rank and the space after it are stripped, and nothing more |
| Trends.StripChangeOf | src/services/collector/trends.js:80 | a trailing change and the space before it are stripped, and nothing more |
| Trends.ZumKeywordDecorated | src/services/collector/trends.js:76-81 | a link text `rank keyword change` yields exactly the keyword |
| Trends.ZumKeywordBetweenDigits | src/services/collector/trends.js:78-81 | any digit runs around a space-free-edged keyword are removed, leaving the keyword |
| Trends.ZumKeywords | src/services/collector/trends.js:75-81 | the keyword of each link, in order |
| Trends.ZumKeywordsStep | src/services/collector/trends.js:75-81 | one more link adds its keyword |
| Trends.KeepRanked | src/services/collector/trends.js:83-88 | kept keywords get ranks 1..n in order and are distinct |
| Trends.KeepFrom | src/services/collector/trends.js:83-88 | every kept keyword comes from a link |
| Trends.KeepComplete | src/services/collector/trends.js:83 | every keyword of 2 to 29 UTF-16 units is kept |
| Trends.ZumKeptSpec | src/services/collector/trends.js:75-89 | ranks 1..n in order, distinct keywords, each from some link, and every acceptable link keyword present |
| Trends.FetchZumTrends | src/services/collector/trends.js:63-97 | the kept list cut to its first 10; a failed request gives `[]` |
| Trends.Tagged | src/services/collector/trends.js:110-114 | each entry tagged with its source, keyword and rank, in order |
| Trends.PushTagged | src/services/collector/trends.js:109-115 | the loop appends exactly the tagged entries |
| Trends.GatherTrends | src/services/collector/trends.js:105-141 | Google KR, then Google US, then Zum, each in its own order |
| Trends.CollectTrends | src/services/collector/trends.js:103-154 | the list is stored only when non-empty and always returned; with the database closed a non-empty list fails with the store's error; only the trends table changes |
| WorkerApi.VerifyAdminSpec | cloudflare-api/src/index.js:192-209 | accepted exactly when the header is `Bearer ` followed by a token that decodes to `codepedia:` and anything |
| WorkerApi.GatedAdminPath | cloudflare-api/src/index.js:59-147 | every admin handler lies under one of the admin prefixes |
| WorkerApi.PublicNotAdmin | cloudflare-api/src/index.js:29-60 | no public route lies under an admin prefix |
| WorkerApi.AdminGate | cloudflare-api/src/index.js:21-70 | a preflight is answered for every path and only for `OPTIONS`; no admin handler runs without a valid token; on an admin path a request is refused with 401 exactly when the token is not valid, and only there |
| WorkerApi.PublicRoutesOpen | cloudflare-api/src/index.js:29-107 | the public routes, the active-banner list and the banner images are reached without a token |
| WorkerApi.EmailPatternSpec | cloudflare-api/src/index.js:387-388 | `/^[^\s@]+@[^\s@]+\.[^\s@]+$/` holds exactly for one `@` with a non-empty local part and a domain holding a `.` with text on both sides, no white space |
| WorkerApi.EmailPatternShape | cloudflare-api/src/index.js:387 | a text the pattern accepts has that shape |
| WorkerApi.EmailShapePattern | cloudflare-api/src/index.js:387 | a text of that shape is accepted by the pattern |
| WorkerApi.ValidateInquirySpec | cloudflare-api/src/index.js:374-428 | accepted exactly when type, address and length (10 to 2000 UTF-16 units) pass, keeping the fields with version `1.0.0` and address `unknown` by default; every refusal is a 400 naming the first failing check |
| WorkerApi.ValidateInquiryUpdateSpec | cloudflare-api/src/index.js:474-495 | only a non-empty unknown status is refused; an accepted update stores a known status (`answered` when none is given) and the reply |
| WorkerApi.ValidateBannerSpec | cloudflare-api/src/index.js:713-752 | created exactly for a name, a known position and at least one image; `fade` and 5000 ms by default; empty optional texts stored as NULL |
| WorkerApi.Present | cloudflare-api/src/index.js:778 | a field contributes at most one assignment |
| WorkerApi.PresentIn | cloudflare-api/src/index.js:778 | a field contributes `(column, value)` exactly when it is defined with that value |
| WorkerApi.AssignmentsSpec | cloudflare-api/src/index.js:778-786 | a column is assigned exactly when its field is defined, with that field's parameter (images stringified, `is_active` as 1 or 0) |
| WorkerApi.Clauses | cloudflare-api/src/index.js:775-786 | one clause per assignment |
| WorkerApi.Values | cloudflare-api/src/index.js:776-786 | one parameter per assignment |
| WorkerApi.PushStep | cloudflare-api/src/index.js:778 | one `if (x !== undefined)` adds a clause and its parameter exactly when the field is defined |
| WorkerApi.PushField | cloudflare-api/src/index.js:778-786 | the two lists stay the clauses and parameters of the assignments so far |
| WorkerApi.BuildBannerUpdate | cloudflare-api/src/index.js:775-790 | the SET clauses and bound parameters of the patch |
| WorkerApi.BannerUpdateAligned | cloudflare-api/src/index.js:775-792 | clause `k` names the column bound by parameter `k`; `updated_at` is set last; the time and the id are the last two parameters |
| WorkerApi.ClausesValuesAt | cloudflare-api/src/index.js:778-786 | clause `k` is `column = ?` and parameter `k` its value |
| WorkerApi.PlaceholdersAppend | cloudflare-api/src/index.js:792 | placeholders of a concatenation add up |
| WorkerApi.JoinPlaceholders | cloudflare-api/src/index.js:792 | `join(', ')` adds no placeholder |
| WorkerApi.ClausePlaceholders | cloudflare-api/src/index.js:792 | clauses of one placeholder each join to one per clause |
| WorkerApi.ClausePlaceholder | cloudflare-api/src/index.js:778 | `column = ?` holds one placeholder |
| WorkerApi.NoPlaceholders | cloudflare-api/src/index.js:792 | text without `?` holds none |
| WorkerApi.OnePlaceholder | cloudflare-api/src/index.js:792 | one `?` appended is one placeholder |
| WorkerApi.ColumnsPlain | cloudflare-api/src/index.js:778-788 | no column name holds a `?` |
| WorkerApi.SetClausePlaceholders | cloudflare-api/src/index.js:778-788 | every SET clause holds exactly one placeholder |
| WorkerApi.BannerUpdatePlaceholders | cloudflare-api/src/index.js:792 | the statement holds exactly as many `?` as bound parameters |
| WorkerApi.SqlFrame | cloudflare-api/src/index.js:792 | no placeholder before the SET list, one (the id's) after it |
| RateLimit.Stamp | cloudflare-api/src/index.js:226-227 | the written time reads back shifted by the offset and cut to the second |
| RateLimit.CheckNew | cloudflare-api/src/index.js:278-283 | a key seen first is inserted with count 1 and allowed |
| RateLimit.CheckWhileBlocked | cloudflare-api/src/index.js:235-240 | during a block the request is refused with its end and the row is left as it is |
| RateLimit.CheckTransitions | cloudflare-api/src/index.js:243-276 | in the window a full count starts a `BLOCK_DURATION` block and refuses, a lower count is incremented and allowed; after the window the count restarts at 1 and any block is cleared |
| RateLimit.CheckBounded | cloudflare-api/src/index.js:223-284 | counts stay at least 1 and an allowed count never exceeds the limit |
| RateLimit.BlockHolds | cloudflare-api/src/index.js:235-259 | after a block starts every request before its end is refused with the same end and changes nothing |
| RateLimit.ShiftedWindowStillOpen | cloudflare-api/src/index.js:226-247 | as written, a key that used its 10 downloads at time 0 is still refused an hour later |
| RateLimit.ShiftedSpans | cloudflare-api/src/index.js:226-253 | as written, a window lasts close to ten hours and a block 33 |
| RateLimit.UnshiftedWindowExact | cloudflare-api/src/index.js:243-274 | without the shift a request one window after the last update starts a new window, and a block ends within `BLOCK_DURATION` |
| RateLimit.StripKindOfKey | cloudflare-api/src/index.js:897 | removing `download:`/`inquiry:` gives back the address |
| RateLimit.BlockedListSpec | cloudflare-api/src/index.js:883-902 | an address is listed exactly when one of its rows has a block ending after the current second, with the prefix removed |
| RateLimit.UnblockSuffix | cloudflare-api/src/index.js:912-914 | as written, the key set is unchanged |
| RateLimit.UnblockSuffixReleasesOthers | cloudflare-api/src/index.js:912-914 | as written, unblocking `1.1.1.1` also releases `11.1.1.1` |
| RateLimit.UnblockExact | cloudflare-api/src/index.js:911 | the intended unblock keeps the key set |
| RateLimit.UnblockExactSpec | cloudflare-api/src/index.js:911-914 | exactly the `download:` and `inquiry:` rows of the address lose their block; counts and times stay |
| RateLimit.WorkerStore.constructor | cloudflare-api/src/index.js:212-218 | empty tables and the given download counter |
| RateLimit.WorkerStore.CheckRateLimit | cloudflare-api/src/index.js:223-284 | one read-modify-write of the key's row by `CheckStep`; nothing else changes |
| RateLimit.WorkerStore.TrackDownload | cloudflare-api/src/index.js:289-340 | a refusal logs nothing and answers 429 with the block end; otherwise the download is logged with texts cut to 500, the counter (if present) incremented, and the answer carries the total and `DOWNLOAD_MAX - count`, between 0 and 9 |
| RateLimit.WorkerStore.HandleInquiry | cloudflare-api/src/index.js:374-438 | a body failing validation gets its 400 and stores nothing; otherwise the inquiry is inserted under the next id, which is returned |
| RateLimit.WorkerStore.UnblockIP | cloudflare-api/src/index.js:907-919 | as written: every row whose key ends in the address loses its block, and nothing else changes |
| RateLimit.UnblockSuffixSpec | cloudflare-api/src/index.js:907-919 | as written, each key ending in the address is unblocked, both rows of the address among them, and every other row stays as it was |
| Calculator.PriceOr | src/renderer/js/calculator.js:64 | the stored price when it is truthy, otherwise the fallback |
| Calculator.Rate | src/renderer/js/calculator.js:62-70 | won per unit of the currency, never 0, and 1 for KRW |
| Calculator.DefaultRates | src/renderer/js/calculator.js:62-70 | with no collected prices the rates are 1445, 1700, 9.27, 206, 18 and 0.057 |
| Calculator.AmountOf | src/renderer/js/calculator.js:57 | an unparseable amount is 0, a number is itself |
| Calculator.ConvertSame | src/renderer/js/calculator.js:75-76 | converting at equal rates keeps the amount |
| Calculator.ConvertRoundTrip | src/renderer/js/calculator.js:75-76 | converting there and back restores the amount |
| Calculator.ConvertLinear | src/renderer/js/calculator.js:75-76 | the result is proportional to the amount; from won it is the amount over the target rate |
| Calculator.ConvertCompose | src/renderer/js/calculator.js:75-76 | converting through a third rate gives the direct result |
| Calculator.ExchangeSame | src/renderer/js/calculator.js:72-76 | converting to the same currency keeps the amount |
| Calculator.ExchangeRoundTrip | src/renderer/js/calculator.js:72-76 | converting back restores the amount |
| Calculator.ExchangeLinear | src/renderer/js/calculator.js:72-76 | proportional to the amount; from KRW the result times the target's rate is the amount |
| Calculator.ExchangeCompose | src/renderer/js/calculator.js:72-76 | converting through a third currency gives the direct result |
| Calculator.CurrencySymbol | src/renderer/js/calculator.js:92-103 | every currency has a one-character symbol |
| Calculator.ResultOf | src/renderer/js/calculator.js:78-79 | the target's symbol, the converted amount, and no decimals exactly for KRW |
| Calculator.RateOfSpec | src/renderer/js/calculator.js:81-86 | the rate line appears exactly when the currencies differ, with one unit of `from` converted |
| Calculator.ExchangeForm.constructor | src/renderer/js/calculator.js:16-28 | the inputs as given and empty displays |
| Calculator.ExchangeForm.Update | src/renderer/js/calculator.js:56-87 | both displays recomputed from the inputs, which stay |
| Calculator.ExchangeForm.Swap | src/renderer/js/calculator.js:34-39 | the selections trade places and the displays are recomputed |
| Calculator.PricePerDon | src/renderer/js/calculator.js:113-115 | the XAU price (789000 by default) for `gold`, the XAG price (13000) otherwise; never 0 |
| Calculator.GoldCalcUnits | src/renderer/js/calculator.js:138-141 | the figures are one weight in dons, grams and ounces, and its value at the price per don |
| Calculator.GoldViewUnits | src/renderer/js/calculator.js:138-141 | dons times 3.75 and ounces times 31.1035 are the grams; the total is dons times the price per don |
| Calculator.MulDivSwap | src/renderer/js/calculator.js:140-141 | the total by grams times price per gram equals dons times price per don |
| Calculator.GoldCalcEntered | src/renderer/js/calculator.js:108-141 | the entered unit's figure is the amount itself, a won amount is worth exactly that, and an unknown unit shows zeros |
| Calculator.GramsEntered | src/renderer/js/calculator.js:120-136 | the same for each unit of the `switch` in grams |
| Schedule.StartDay | src/renderer/js/schedule.js:99-101 | the column of the first of the month is a weekday 0..6 |
| Schedule.Trailing | src/renderer/js/schedule.js:146-152 | the trailing cells, under 7, complete the last week |
| Schedule.LeadingCells | src/renderer/js/schedule.js:110-113 | `startDay` cells holding the last days of the month before, in order |
| Schedule.MonthCells | src/renderer/js/schedule.js:117-143 | one cell per day of the month, in order, for the year `new Date` reads (1900 + y for y in 0..99) |
| Schedule.TrailingCells | src/renderer/js/schedule.js:146-152 | days 1.. of the next month filling the last week |
| Schedule.BuildGrid | src/renderer/js/schedule.js:98-152 | the leading days of the month before, every day of the month, then the trailing days of the next month, for the year `new Date` reads |
| Schedule.GridAssembled | src/renderer/js/schedule.js:107-152 | the three loops' cells concatenated form the grid |
| Schedule.ConcatIndex | src/renderer/js/schedule.js:107-152 | where each part of the grid sits |
| Schedule.GridColumns | src/renderer/js/schedule.js:99-152 | the grid is whole weeks, each day sits in its weekday's column, and the leading days end at the last day of the month before |
| Schedule.DayCellSpec | src/renderer/js/schedule.js:117-142 | `sunday` exactly in column 0, `saturday` exactly in column 6, `has-schedule` exactly for a date with entries, `today` and `selected` by date; the `data-date` key parses back to the date from year 100 on, and a negative year's key parses to the date of `Dates.DateKeyNegativeYear`, from January 1900 on |
| Schedule.ListTitleToday | src/renderer/js/schedule.js:174-180 | the title is `오늘의 일정` exactly when the selected date is today |
| Schedule.ShiftMonthAsWritten | src/renderer/js/schedule.js:32-40 | as written, the shifted date is a valid date |
| Schedule.ShiftMonthSkips | src/renderer/js/schedule.js:37-40 | as written, from 31 January the next button shows March |
| Schedule.ShiftMonth | src/renderer/js/schedule.js:32-40 | the intended step lands on the first of a month |
| Schedule.ShiftMonthNeighbours | src/renderer/js/schedule.js:32-40 | one step back or forward lands on the neighbouring month, across year ends |
| Schedule.ToggleRequestFlips | src/renderer/js/schedule.js:256-262 | a stored 1 asks for undone, anything else for done |
| Schedule.ScheduleView.constructor | src/renderer/js/schedule.js:5-8 | both dates today, no dates with entries, nothing drawn or requested |
| Schedule.ScheduleView.RenderCalendar | src/renderer/js/schedule.js:83-165 | the title, one `getScheduleDates` request for the month, the dates answered (none on failure), and the grid of the year `new Date` reads |
| Schedule.ScheduleView.Step | src/renderer/js/schedule.js:32-40 | as written: the shown date becomes `setMonth(getMonth() ± 1)` of itself, day kept and overflow carried; the selection stays |
| Schedule.ScheduleView.Click | src/renderer/js/schedule.js:157-164 | a click on day `k` selects that date of the shown month from year 100 on; for a negative year it selects the date its key parses to, from January 1900 on |
| Schedule.ScheduleView.AddScheduleEntry | src/renderer/js/schedule.js:216-226 | blank input does nothing; otherwise the trimmed text is requested under the selected date and the input cleared |
| Schedule.ScheduleView.AddTodoEntry | src/renderer/js/schedule.js:278-285 | blank input does nothing; otherwise the trimmed text is requested and the input cleared |
| Schedule.ScheduleView.Toggle | src/renderer/js/schedule.js:256-262 | a checkbox click requests the flipped state for that id |
| App.Collapse | src/renderer/js/app.js:761 | collapsing white space never lengthens the text |
| App.VisibleTrimStart | src/renderer/js/app.js:760 | trimming the start removes only white space |
| App.VisibleTrimEnd | src/renderer/js/app.js:760 | trimming the end removes only white space |
| App.CollapseCollapsed | src/renderer/js/app.js:761 | after the replace the only white space left is single plain spaces |
| App.CollapseVisible | src/renderer/js/app.js:761 | the replace keeps every visible character, in order |
| App.CollapseLast | src/renderer/js/app.js:760-761 | a text ending in a visible character still ends in one after the replace |
| Text.Utf16Prefix | src/renderer/js/app.js:762 | `slice(0, n)` gives a prefix of the text |
| Text.Utf16LengthCons | src/renderer/js/app.js:762 | a character adds its UTF-16 width to the length |
| Text.Utf16PrefixFits | src/renderer/js/app.js:762 | the sliced prefix fits in `n` UTF-16 units; the worker's `slice(0, 500)` of the user agent and referer is the same cut |
| Text.Utf16PrefixWhole | src/renderer/js/app.js:762 | a text that already fits is kept whole |
| App.SanitizeSpec | src/renderer/js/app.js:757-763 | the sanitized input fits 2000 units, has only single inner spaces and no leading space; uncut, it is the trimmed and collapsed input with the same visible characters |
| App.SanitizeEmpty | src/renderer/js/app.js:757-763 | the sanitized input is empty exactly when the input held only white space |
| App.Stamps | src/renderer/js/app.js:808 | only positive numbers survive the filter |
| App.HistoryOf | src/renderer/js/app.js:800-813 | the history read back holds only positive stamps; missing, non-array and unparseable items give none |
| App.StoreRoundTrip | src/renderer/js/app.js:800-824 | a saved history of positive stamps reads back unchanged |
| App.ValidateAccepts | src/renderer/js/app.js:927-961 | an inquiry passes exactly when the type is general, ads or bug, the email is valid, the content length is 10 to 2000 and neither field looks malicious |
| App.FitsNotTooLong | src/renderer/js/app.js:952-955 | content of at most 2000 UTF-16 units never fails the upper length check |
| App.SanitizedNeverTooLong | src/renderer/js/app.js:952-955 | content that went through the sanitizer never fails the upper length check |
| App.InquiryForm.constructor | src/renderer/js/app.js:870 | the form starts with no last submit and nothing posted |
| App.InquiryForm.GetInquiryHistory | src/renderer/js/app.js:800-813 | returns the stored history, and an unparseable item is removed |
| App.InquiryForm.RecentInquiryCount | src/renderer/js/app.js:829-840 | counts the stamps of the last hour and writes back only those, touching storage only when some were dropped |
| App.InquiryForm.HandleSubmit | src/renderer/js/app.js:905-1010 | ignored within 2 seconds of the last submit; refused at 3 inquiries an hour; rejected with the first failed check; otherwise posts the escaped fields and, on an ok answer, appends the new stamp |
| App.ThrottleBound | src/renderer/js/app.js:916-920 | after a submit that got through, at most 3 stamps fall in the hour |
| App.ProgressCountsOthers | src/renderer/js/app.js:299-320 | as written: once crypto, exchange and economic data are in, the bar says complete while metal and oil tags are still pending |
| App.CountIn | src/renderer/js/app.js:301 | the count of collected items is at most the number of items |
| App.CountInFull | src/renderer/js/app.js:307 | the count is full exactly when every item was collected |
| App.ProgressAsWrittenSpec | src/renderer/js/app.js:299-320 | as written, the count is the size of the whole collected set out of 12; it is never below the count of the twelve items, the tags are the same, and it is complete whenever the intended count is |
| App.CountInCard | src/renderer/js/app.js:301 | over a list without repeats, the count of collected items is the size of the collected part of its set |
| App.CountInBound | src/renderer/js/app.js:301 | over a list without repeats, the count of collected items is at most the size of the collected set |
| App.ItemSetMembers | src/renderer/js/app.js:47 | the set of a list holds exactly its items |
| App.DistinctNoRepeats | src/renderer/js/app.js:47 | a list whose positions hold distinct items has no repeats |
| App.AllSymbolsNoRepeats | src/renderer/js/app.js:47 | `ALL_SYMBOLS` names each item once |
| App.ProgressOfSpec | src/renderer/js/app.js:299-320 | out of 12 items, the bar is complete and at 100% exactly when all 12 arrived, and each tag is done exactly when its item arrived |
| App.CategoryIndex | src/renderer/js/app.js:386-389 | the index in the category order, or -1 |
| App.CategoryOrder | src/renderer/js/app.js:387-391 | the comparator on category indices is a total preorder |
| App.SortedMembers | src/renderer/js/app.js:387 | sorting keeps exactly the quotes it was given |
| App.RenderPricesMembers | src/renderer/js/app.js:375-431 | the cards are exactly the complete quotes; with none the loading card shows |
| App.RenderPricesOrder | src/renderer/js/app.js:386-400 | the cards follow the category order, and quotes of one category keep their arrival order |
| App.PriceDisplaySpec | src/renderer/js/app.js:346-369 | the won sign on every price but economic figures and unknown non-KRW prices; per don for metals, per litre for oil, percent for economic figures; two decimals for exchange, economic and unknown non-KRW prices, whole numbers otherwise |
| App.CardChange | src/renderer/js/app.js:412-426 | the change is the rate, then the amount, then 0, and the arrow points up exactly when the shown sign is + |
| App.PriceBoard.constructor | src/renderer/js/app.js:41-50 | the board starts with no prices, nothing collected and the loading card |
| App.PriceBoard.MergeAndRender | src/renderer/js/app.js:326-339 | each incoming quote replaces the one under its symbol, its symbol counts as collected, the progress is redrawn as written from the whole collected set, and the grid from all current quotes |
| App.MergeGet | src/renderer/js/app.js:328-331 | after a merge a symbol holds its last incoming quote, and other symbols keep theirs |
| Mini.MiniNamesFallBack | src/renderer/js/mini.js:281-292 | the short name is the table's entry, and the symbol itself exactly when the table lacks it |
| Mini.MiniPriceSpec | src/renderer/js/mini.js:299-318 | `$` with 2 decimals for USD prices; crypto of at least 10000 in rounded units of 10000 with `만`; `%` with 2 decimals for economic figures; 2 decimals also for JPY, 0 otherwise |
| Mini.MiniPriceMissing | src/renderer/js/mini.js:299-318 | a missing price prints as `-` between the branch's prefix and suffix |
| Mini.SymbolRank | src/renderer/js/mini.js:333-341 | the indicator rank is 0 to 3 for the four ranked indicators and 99 for the rest |
| Mini.MiniOrder | src/renderer/js/mini.js:336-343 | the comparator, category first and then rank, is a total preorder |
| Mini.RenderPricesSpec | src/renderer/js/mini.js:324-343 | the spinner shows exactly for no quotes; otherwise the rows are a sorted permutation of the quotes, stable among equals |
| Mini.RenderPricesKeys | src/renderer/js/mini.js:336-343 | categories never go backwards down the rows, and within a category the ranks never do |
| Mini.RowChange | src/renderer/js/mini.js:345-362 | economic rows have no change line; others show the rate, then the amount, then 0, with the arrow up exactly when the sign is + |
| Mini.RenderTrendsSpec | src/renderer/js/mini.js:373-406 | no trends, none for the tab, or the tab's first 15 trends numbered from 1, with a source label exactly on the `all` tab |
| Mini.TrendsOtherSources | src/renderer/js/mini.js:380-386 | on a source tab, trends of other sources do not change the rows |
| Mini.MiniRateAgrees | src/renderer/js/mini.js:261-266 | for KRW, USD, EUR and JPY the widget's rate and symbol are the main calculator's |
| Mini.MiniCalcAgrees | src/renderer/js/mini.js:256-274 | for the four widget currencies the widget shows what the main calculator shows |
| Mini.MiniCalcOf | src/renderer/js/mini.js:268-273 | the result is the amount times the source rate over the target rate, with 0 decimals for KRW and 2 otherwise |
| Mini.CodeIsKRW | src/renderer/js/mini.js:273 | the code is KRW exactly for the KRW currency |
| Mini.MiniCalcUnknown | src/renderer/js/mini.js:268-273 | a code outside the four has no rate, so the result is NaN and prints as `-` after `undefined` |
| Mini.PriceMap | src/renderer/js/mini.js:263-265 | the price table has an entry exactly for each filed symbol |
| Mini.PriceMapTruthy | src/renderer/js/mini.js:263-265 | a collected price replaces the default exactly when it is present and non-zero |
| Mini.Widget.constructor | src/renderer/js/mini.js:35-48 | the widget starts with no prices and no trends, on the `all` tab, showing the spinner |
| Mini.Widget.SetEach | src/renderer/js/mini.js:148-150 | each quote is filed under its symbol, in order, and nothing else changes |
| Mini.Widget.MergeAndRender | src/renderer/js/mini.js:61-67 | the quotes are merged and every current quote is listed |
| Mini.Widget.LoadPrices | src/renderer/js/mini.js:144-156 | a successful non-empty answer is merged but only the answer is listed; otherwise nothing changes |
| Mini.Widget.LoadTrends | src/renderer/js/mini.js:161-171 | a successful answer replaces the stored trends and redraws them |
| Mini.Widget.SelectTrendSource | src/renderer/js/mini.js:129-138 | the tab becomes current and the stored trends are redrawn |
| Mini.Widget.UpdateCalc | src/renderer/js/mini.js:256-274 | the result is the conversion at the current prices |
| Mini.MergeKeeps | src/renderer/js/mini.js:61-64 | a merge gives each incoming symbol its last incoming quote, leaves other symbols alone and keeps the filed symbols first, in order |
| RendererUtils.MemoHit | src/renderer/js/utils.js:112-113 | a cached key returns its stored value, leaves the cache alone and does not call the function |
| RendererUtils.MemoMiss | src/renderer/js/utils.js:114-121 | a miss appends the new result and, when the cache was full, drops the oldest entry, so at most 100 stay |
| RendererUtils.MemoTransparent | src/renderer/js/utils.js:109-123 | every call returns what the function gives, and the cache keeps distinct keys, at most 100 of them, each with the function's value |
| RendererUtils.Memo.constructor | src/renderer/js/utils.js:110 | a new memoized function starts with an empty cache |
| RendererUtils.Memo.Call | src/renderer/js/utils.js:111-122 | a call returns the function's value and updates the cache as one memoized call does |
| RendererUtils.DomLookupStable | src/renderer/js/utils.js:139-144 | the first lookup of a selector decides what every later lookup returns, and other selectors are untouched |
| RendererUtils.DomCache.constructor | src/renderer/js/utils.js:132 | the element cache starts empty |
| RendererUtils.DomCache.Query | src/renderer/js/utils.js:139-144 | a lookup returns and stores as one cached lookup does |
| RendererUtils.DomCache.Clear | src/renderer/js/utils.js:149-151 | clearing empties the cache |
| RendererUtils.FormatNumberGuard | src/renderer/js/utils.js:163-171 | the result is `-` exactly for a missing or NaN number, and the locale text otherwise |
| RendererUtils.NamesFallBack | src/renderer/js/utils.js:188-232 | both name lookups give the table's entry, and the key itself exactly when the table lacks it |
| Format.TimeAgoBuckets | src/utils/format.js:36-50 | under a minute (future instants included) is "just now", then whole minutes under an hour, whole hours under a day, whole days under a week, and the `YYYY-MM-DD` date after that |
| Format.FormatChangeSign | src/utils/format.js:57-60 | the text starts with `+` exactly for a change of at least 0 and with `-` exactly for a negative one, and holds the two-decimal figure before the `%` |
| Format.NamesFallBack | src/utils/format.js:67-107 | both name lookups give the table's entry, and the key itself exactly when the table lacks it |
| Admin.MaskIPDotted | public-site/mgmt-2374e01bef794134/admin.js:363-368 | a four-part address keeps its first two parts and hides the last two, so addresses differing only there mask alike |
| Admin.MaskFour | public-site/mgmt-2374e01bef794134/admin.js:365-367 | text that splits into four parts shows the first two and `***.***` |
| Admin.SplitFour | public-site/mgmt-2374e01bef794134/admin.js:365 | a dotted address of four dot-free parts splits into those parts |
| Admin.SplitOnce | public-site/mgmt-2374e01bef794134/admin.js:365 | text with one separator splits into its two sides |
| Admin.MaskIPOther | public-site/mgmt-2374e01bef794134/admin.js:363-370 | the dash is exactly for no address; other text without four parts shows its `substring(0, 10)`, at most ten UTF-16 units and all of a shorter text, and then `***` |
| Admin.LabelsFallBack | public-site/mgmt-2374e01bef794134/admin.js:633-702 | the type, status and position lookups give the table's label, and the key itself exactly when the table lacks it |
| Admin.CapitalizeSpec | public-site/mgmt-2374e01bef794134/admin.js:1010-1012 | only the first character can change, a lower-case letter becomes its capital, and capitalizing twice is capitalizing once |
| Admin.ParseIntNat | public-site/mgmt-2374e01bef794134/admin.js:423 | a written count parses back to itself |
| Admin.EditDownloadCountSpec | public-site/mgmt-2374e01bef794134/admin.js:419-433 | a cancelled prompt does nothing; an answer that is not a number or is negative is refused; otherwise the request carries the parsed count in plain digits |
| Admin.CountOnSpec | public-site/mgmt-2374e01bef794134/admin.js:959-960 | a day's count is the count of the first row for that date, and 0 without one |
| Admin.ChartDaysConsecutive | public-site/mgmt-2374e01bef794134/admin.js:950-952 | the seven chart days run oldest first, one day apart, ending today |
| Admin.ChartStep | public-site/mgmt-2374e01bef794134/admin.js:950-961 | one pass of the loop adds the next day's label and count |
| Admin.InitChart | public-site/mgmt-2374e01bef794134/admin.js:946-961 | seven labels and seven counts, the k-th for the day 6 - k days before today |
| Admin.NormalizeImagesSpec | public-site/mgmt-2374e01bef794134/admin.js:711-717 | one image per stored image, in order: a file name becomes that file with the banner's link, and image objects are kept as they are |
| Admin.FormDefaults | public-site/mgmt-2374e01bef794134/admin.js:722-728 | an empty form opens with position `content-top`, the fade transition and 5000 ms, a stored position wins, and the title says edit exactly for a banner |
| Admin.SpliceOneSpec | public-site/mgmt-2374e01bef794134/admin.js:785-788 | `splice(index, 1)` removes exactly the image at an existing index, counts a negative index from the end, and ignores an index past the end |
| Admin.WithUrlSpec | public-site/mgmt-2374e01bef794134/admin.js:776-780 | only the url of the image at an existing index changes; file names and order never do |
| Admin.UploadedImagesSpec | public-site/mgmt-2374e01bef794134/admin.js:797-827 | every added image is a successful upload of a file of at most 2 MB, with no link yet |
| Admin.BannerEditor.constructor | public-site/mgmt-2374e01bef794134/admin.js:739-745 | the editor starts with no banner open and no images |
| Admin.BannerEditor.Open | public-site/mgmt-2374e01bef794134/admin.js:707-734 | an id of 0 counts as none, the images are normalised and the form gets its defaults |
| Admin.BannerEditor.Close | public-site/mgmt-2374e01bef794134/admin.js:739-745 | closing resets the form and drops the banner and its images |
| Admin.BannerEditor.UpdateImageUrl | public-site/mgmt-2374e01bef794134/admin.js:776-780 | the image list becomes the one with that url set |
| Admin.BannerEditor.RemoveImage | public-site/mgmt-2374e01bef794134/admin.js:785-788 | the image list loses the image at that index |
| Admin.BannerEditor.UploadFiles | public-site/mgmt-2374e01bef794134/admin.js:797-827 | the accepted uploads are appended in order |
| Admin.BannerEditor.Save | public-site/mgmt-2374e01bef794134/admin.js:837-882 | the request is the one the form's fields give, and once its answer parsed as JSON the dialog closes, whatever the status, since `apiRequest` never checks `response.ok` |
| Admin.SaveForSpec | public-site/mgmt-2374e01bef794134/admin.js:837-874 | a banner is saved only with a non-blank name and at least one image, as an update exactly when a banner is open, with the trimmed name, every image and a non-zero interval |
| Html.Escape | src/renderer/js/app.js:749 | each character becomes at most six, so the text never shrinks and grows at most sixfold |
| Html.EscapeHtml | src/renderer/js/utils.js:16-26 | a missing or empty value gives the empty text |
| Html.UnescapeChar | src/renderer/js/utils.js:18-25 | each character's replacement reads back as that character, whatever follows |
| Html.EscapeRoundTrip | src/renderer/js/app.js:737-750 | the escaped text reads back as the original, with either table |
| Html.EscapeAppend | src/renderer/js/utils.js:25 | escaping distributes over concatenation |
| Html.EscapeSafe | src/renderer/js/app.js:749 | escaped text holds no replaced character except the `&` that opens an entity |
| Html.EscapePlainText | src/renderer/js/utils.js:25 | text without a replaced character is left unchanged |
| Dates.DaysInMonth | src/renderer/js/schedule.js:100 | a month has 28 to 31 days |
| Dates.PrevMonth | src/renderer/js/schedule.js:33 | the month before is a month of the calendar, in the year before for January |
| Dates.NextMonth | src/renderer/js/schedule.js:38 | the month after is a month of the calendar, in the year after for December |
| Dates.NormalizeDay | src/renderer/js/schedule.js:118 | a day outside the month lands on a real date of a neighbouring month |
| Dates.MakeDate | src/renderer/js/schedule.js:100 | the date arithmetic of `new Date` and the setters always gives a real date |
| Dates.FullYear | src/renderer/js/schedule.js:68 | `new Date` reads a year 0..99 as 1900 + y and keeps every other year; the year it uses is never in 0..99 |
| Dates.NewDate | src/renderer/js/schedule.js:68 | `new Date(y, m, d)` always gives a real date, in the year FullYear gives |
| Dates.NewDateValid | src/renderer/js/schedule.js:118 | a date already in range is left as it is by the arithmetic, and by `new Date` outside years 0..99; within them `new Date` moves it to 1900 + y |
| Dates.LastDayOfMonth | src/renderer/js/schedule.js:100 | day 0 of the next month is the last day of this one |
| Dates.LastDayOfPrevMonth | src/renderer/js/schedule.js:105 | day 0 of this month is the last day of the month before |
| Dates.Weekday | src/renderer/js/schedule.js:101 | `getDay()` is 0 for Sunday to 6 for Saturday |
| Dates.WeekdayInMonth | src/renderer/js/schedule.js:134-135 | within a month the weekday advances by one a day |
| Dates.IsoDateShape | src/renderer/js/schedule.js:56-61 | for a four-digit year the key is `YYYY-MM-DD`: ten characters, dashes at 4 and 7, and the year, month and day in digits |
| Dates.NumberOf | src/renderer/js/schedule.js:67 | `Number` of a run of digits is its value, and of the empty text 0 |
| Dates.DateKeyRoundTrip | src/renderer/js/schedule.js:56-69 | a key built from a date with a non-negative year parses to `new Date` of its parts: the date itself from year 100 on, the same day of 1900 + y for years 0..99 |
| Dates.DateKeyNegativeYear | src/renderer/js/schedule.js:56-69 | a negative year's key splits with an empty first part read as 0, that is 1900; the year's digits become the month counted on from January 1900 and the month's digits the day |
| Dates.NegativeKeyParts | src/renderer/js/schedule.js:56-67 | a negative year's key splits into an empty part, the year's digits, the month and the day |
| Dates.KeyAfterLeadingDash | src/renderer/js/schedule.js:66-69 | a negative year's key whose parts are known parses to the date of `Dates.DateKeyNegativeYear` |
| Dates.KeyPartsParse | src/renderer/js/schedule.js:66-69 | a key `-n-mo-…` with `mo` at most 28 parses to day `mo` of month `n - 1` counted from January 1900 |
| Dates.MakeDateInMonth | src/renderer/js/schedule.js:68 | a day of at most 28 never overflows: only the month carries into the year |
| Dates.SplitLeadingDash | src/renderer/js/schedule.js:67 | a key with a leading minus splits into an empty part and the three numbers |
| Dates.ParseParts | src/renderer/js/schedule.js:66-69 | a key whose first three parts are numbers parses to `new Date` of them, month less one |
| Dates.YearMonthPrefix | src/renderer/js/schedule.js:74-78 | the year-month text is the date key up to its second dash |
| Dates.SetMonth | src/renderer/js/schedule.js:33 | `setMonth` always gives a real date |
| Dates.DayNumberNextMonth | src/renderer/js/schedule.js:100 | the first of the next month is numbered right after the last day of this month |
| Dates.NormalizeDayNumber | src/renderer/js/schedule.js:118 | overflowing days count on from the first of the month |
| Dates.ShiftDayNumber | public-site/mgmt-2374e01bef794134/admin.js:952 | `setDate(getDate() + k)` moves the date by exactly k days |
| Text.NatToString | src/renderer/js/schedule.js:58 | `String(n)` is a non-empty run of digits, one digit exactly below 10 |
| Text.NatToStringRoundTrip | src/renderer/js/schedule.js:58 | the digits read back as the number |
| Text.NatToStringNoLeadingZero | src/renderer/js/schedule.js:58 | only the numeral of 0 starts with a zero |
| Text.Pad2 | src/renderer/js/schedule.js:58-59 | `padStart(2, '0')` gives at least two digits, exactly two below 100 |
| Text.Pad2Value | src/renderer/js/schedule.js:58-59 | the padded digits read back as the number |
| Text.TrimStart | src/renderer/js/app.js:760 | trimming the start never lengthens the text |
| Text.TrimEnd | src/renderer/js/app.js:760 | trimming the end never lengthens the text |
| Text.TrimStartSpec | src/renderer/js/app.js:760 | only leading white space is removed, all of it |
| Text.TrimEndSpec | src/renderer/js/app.js:760 | only trailing white space is removed, all of it |
| Text.TrimEdges | src/renderer/js/app.js:760 | the trimmed text is empty or starts and ends with a visible character |
| Text.Utf16Length | src/renderer/js/app.js:947 | `length` counts one or two UTF-16 units per character |
| Text.Utf16LengthAppend | src/renderer/js/app.js:947 | the length of a concatenation is the sum of the lengths |
| Text.Split | public-site/mgmt-2374e01bef794134/admin.js:365 | `split` always gives at least one part |
| Text.SplitParts | public-site/mgmt-2374e01bef794134/admin.js:365 | no part holds the separator, and joining the parts with it gives the text back |
| Text.LexLeTotal | src/database/queries.js:62 | the text order of `ORDER BY` compares every pair |
| Text.LexLeTrans | src/database/queries.js:62 | the text order is transitive |
| Text.LexLeAntisym | src/database/queries.js:62 | texts ordered both ways are equal |
| Text.NameOrSpec | src/renderer/js/utils.js:214 | the lookup gives the table's entry, and the key itself exactly when the table lacks it |
| Sorting.Filter | src/renderer/js/app.js:394-400 | `filter` keeps at most the elements it was given |
| Sorting.FilterMembers | src/renderer/js/app.js:394-400 | the filter keeps exactly the elements satisfying the predicate |
| Sorting.FilterAppend | src/renderer/js/app.js:394-400 | filtering distributes over concatenation |
| Sorting.FilterAll | src/renderer/js/app.js:394-400 | filtering by a predicate every element satisfies changes nothing |
| Sorting.FilterCommute | src/renderer/js/app.js:387-400 | two filters may be applied in either order |
| Sorting.FilterSameLength | src/renderer/js/app.js:394-400 | a filter that keeps as many elements as it was given keeps them all |
| Sorting.FilterNone | src/renderer/js/app.js:394-400 | a filter no element satisfies gives nothing |
| Sorting.FilterSorted | src/renderer/js/app.js:387-400 | filtering a sorted sequence leaves it sorted |
| Sorting.Insert | src/renderer/js/app.js:387 | inserting adds one element |
| Sorting.InsertMultiset | src/renderer/js/app.js:387 | inserting adds the element and nothing else |
| Sorting.InsertSorted | src/renderer/js/app.js:387 | inserting into a sorted sequence keeps it sorted |
| Sorting.InsertStable | src/renderer/js/app.js:387 | the inserted element goes after every element equivalent to it |
| Sorting.InsertLast | src/renderer/js/app.js:387 | an element not below any other goes at the end |
| Sorting.SortBy | src/renderer/js/app.js:387-391 | `sort` gives a permutation of its input |
| Sorting.SortBySorted | src/renderer/js/app.js:387-391 | with a total preorder the result is sorted |
| Sorting.SortByStable | src/renderer/js/app.js:387-391 | the elements of each equivalence class keep their relative order |
| Sorting.SortBySortedId | src/renderer/js/app.js:387-391 | sorting a sorted sequence changes nothing |
| Sorting.Reverse | src/database/queries.js:43 | reversing keeps the length |
| Sorting.Take | src/renderer/js/mini.js:386 | `slice(0, n)` is the prefix of length n, or all of a shorter sequence |
| Sorting.PermutationDistinct | src/database/queries.js:62 | a permutation of a sequence without repetitions has none either |
| Sorting.PermutationDistinctKeys | src/database/queries.js:62 | a permutation of a sequence with distinct keys has distinct keys |
| OrderedMap.Keys | src/renderer/js/utils.js:118 | `keys()` lists the keys in entry order |
| OrderedMap.Values | src/renderer/js/app.js:337 | `values()` lists the values in entry order |
| OrderedMap.Get | src/renderer/js/utils.js:113 | `get` finds a value exactly for a key that has an entry, and it is that entry's value |
| OrderedMap.PutGet | src/renderer/js/utils.js:115 | after `set(k, v)` the key reads v and every other key reads as before |
| OrderedMap.PutKeys | src/renderer/js/app.js:329 | setting a key keeps the order of the keys and appends a new key at the end |
| OrderedMap.PutNew | src/renderer/js/utils.js:115 | a new key becomes the last entry |
| OrderedMap.PutUnique | src/renderer/js/utils.js:115 | setting keeps the keys distinct |
| OrderedMap.RemoveGet | src/renderer/js/utils.js:119 | after `delete(k)` the key reads nothing and every other key reads as before |
| OrderedMap.RemoveAbsent | src/renderer/js/utils.js:119 | deleting an absent key changes nothing |
| OrderedMap.RemoveFirst | src/renderer/js/utils.js:118-119 | deleting the first key drops the earliest entry |
| OrderedMap.LastKeyed | src/renderer/js/app.js:328-329 | the last element filed under a key is one of the elements, with that key, and there is none exactly when no element has it |
| OrderedMap.PutAllGet | src/renderer/js/app.js:328-331 | after the loop each key holds the last element set under it, and a key no element has keeps its old value |
| OrderedMap.PutAllKeysPrefix | src/renderer/js/app.js:328-331 | the keys present before keep their places at the front |
| OrderedMap.PutAllUnique | src/renderer/js/app.js:328-331 | the loop keeps the keys distinct |
| Json.EscapeParse | src/database/queries.js:213-233 | an escaped string body parses back to the string and leaves the rest |
| Json.IntTextRoundTrip | src/database/queries.js:213-233 | a written integer parses back to itself |
| Json.ParseStringify | src/database/queries.js:206-234 | every stored setting value reads back as the value that was stored |
| Json.ParseStringifyInt | src/database/queries.js:213-233 | a stored integer reads back as itself |
| Json.ParseStringifyStr | src/database/queries.js:213-233 | a stored string reads back as itself |
| JsNumber.Round | src/database/queries.js:257-259 | `Math.round` is within one half of its argument |
| JsNumber.Round2Close | src/database/queries.js:313 | two-decimal rounding moves a value by at most 0.005 |
| JsNumber.RoundMono | src/renderer/js/app.js:302 | `Math.round` never reverses an order |
| JsNumber.Round2Sign | src/database/queries.js:313 | two-decimal rounding keeps the sign |
| JsNumber.RoundInt | src/renderer/js/app.js:302 | `Math.round` of an integer is itself |
| JsNumber.ToFixed2 | src/renderer/js/utils.js:180 | `toFixed(2)` has at least four characters |
| JsNumber.ToFixed2Sign | src/renderer/js/utils.js:180 | it starts with `-` exactly for a negative value, and with a digit otherwise |
| JsNumber.ParseDecimalPrefixNat | src/renderer/js/calculator.js:57 | `parseFloat` of a written whole number followed by a non-digit reads the number |

## Left out

- HTTP requests, HTML scraping and regular-expression matching in the collectors. Their results are inputs: the parsed numbers and texts the selectors found. `parseFloat` is modelled only for plain decimal text.
- Timing and concurrency: node-cron clock alignment and its Asia/Seoul timezone, `setTimeout` delays, the start-up delay, and `Promise.all` in the economic collector. Scheduled jobs are a registry of running tasks. Their firing is not modelled.
- SQLite and D1 execution and the schema DDL. Tables are sequences and maps with the semantics of the SQL statements. Ties in `ORDER BY` keep insertion order.
- Binary floating point. Numbers are exact rationals. `Math.round` is floor(x + 0.5), and `toLocaleString` is a function parameter.
- The regular-expression validators: the renderer's email pattern and `containsMaliciousPattern`. They are predicate parameters. The worker's simpler email pattern is modelled character by character.
- JavaScript `Date` beyond the calendar date. Times are integers of milliseconds or seconds, and dates are year, month and day. Invalid dates are not covered. A year is an unbounded integer; `new Date` reads a year 0..99 as 1900 + y (`Dates.FullYear`), so the date-key round trip holds from year 100 on and years below 100 come back as the dates proved in `Dates.DateKeyRoundTrip` and `Dates.DateKeyNegativeYear`.
- Admin.InitChart: the day key is the local calendar date. The source keys the day with `toISOString()`, which gives the UTC date, so the key and the label can differ by a day near midnight. The model does not capture that.
- Text.Utf16Prefix: the cut never splits a character outside the Basic Multilingual Plane, while `slice` and `substring` (the worker log and `Admin.MaskIP`) can leave half a surrogate pair.
- RateLimit.UnblockSuffix: the `LIKE` pattern is a suffix test. A `_` in the address, which `LIKE` reads as any one character, and ASCII case-insensitive matching are not modelled.
- Collecting.ChangeValue: a `change` that comes out NaN (a zero or missing previous price) is returned as 0 in the collector's data, while the source returns NaN there. The stored row is the same.
- RateLimit.BlockedListSpec: the blocked list is a set of rows, so the `ORDER BY` of the listing is not modelled.
- App.PriceBoard.MergeAndRender: quotes of the collect-status path only. A trend item arriving with `price:update` has no symbol, and the `undefined` it adds to the collected set is not modelled.
- App.InquiryForm.HandleSubmit: the `finally` block filters the history again at a later time; that second filter is not modelled.
- RateLimit.WorkerStore.HandleInquiry: a request body that `request.json()` cannot parse, and the 500 answer that follows, are not modelled.
- Json.Parse: `\u` escapes that form surrogate pairs are refused rather than combined.
- RendererUtils.MemoTransparent: the memoized function is modelled as a function of the `JSON.stringify` key. Distinct arguments with one key text, such as `undefined`, `null` and `NaN` (all `[null]`), share one cached result in the source; the model does not capture that collision. The same holds for `RendererUtils.Memo.Call`.
- Exchange.CollectExchange: the API's EUR, JPY, CNY, RUB and VND rates are taken as positive numbers. A missing or zero rate, which the source divides by without a guard and stores as a NaN or Infinity price, is not modelled.
- Scheduler.ElapsedSince: a text setting gives NaN, where JavaScript's subtraction would coerce it with `Number`. No write stores text under these keys.
- Store.Database.Init: the data directory and file path, the WAL journal mode, the table definitions and the indexes are not modelled; the contract covers the opened handle and the untouched tables and counters.
- Admin.SaveFor: the interval is read with the decimal `ParseInt`. `parseInt` without a radix would also read a `0x` prefix as hexadecimal, which a number input never holds.
- Admin.CapitalizeSpec: `toUpperCase` is modelled for ASCII letters only.
- Name lookups: `names[key] || key` is a map lookup. Keys inherited from `Object.prototype`, such as `constructor`, are not modelled.
- `localStorage`: the stored inquiry history is its parsed form (absent, unparseable, not an array, or a list of entries). The write is `JSON.stringify` of the stamps.
- The IPC calls of the renderer pages and the server's answers are inputs. The schedule panel's requests are appended to a log.
- Mini.MiniCalcAgrees: the agreement with the main calculator covers the four widget currencies only. Other codes give NaN, as `Mini.MiniCalcUnknown` states.
- Admin.BannerEditor.UpdateImageUrl: the image list holds values, so the aliasing between the editor's image objects and the loaded banner list is not modelled.
- Oil.CollectOil and Crypto.CollectCrypto: fetch results are inputs, so the records are computed first and then inserted in order. In the source each fetch and its insert interleave, but no fetch there reads the store.
- DOM rendering, toasts, modals and `confirm`. Views are the values a page would render. Also `safeSetText`, `isValidUrl`, `debounce`, `throttle`, `rafThrottle`, `getCurrentTime` and `createElement` of src/renderer/js/utils.js.
- The main window's `init`, `setupEventListeners`, `updateCharCount`, `loadStats`, `renderTrends` and `updateInquiryLimit`, which are DOM wiring and display text. Also the widget's `loadStats`, `loadSchedule`, `loadTodos` and `updateTime`, and the administration page's login, navigation, list loaders and inquiry editing, which are request and DOM code.
- src/utils/format.js `formatNumber` is `toLocaleString` alone (there is no null guard there), so it is the locale parameter.
- src/services/collector/silver.js is a `Math.random` stub that nothing calls. It is not part of this model.
- The worker's `RATE_LIMIT.INQUIRY` setting is never applied: `handleInquiry` does not call `checkRateLimit`, and the model follows that.
- R2 image storage and upload, and the `Date.now`/`btoa` token minting of the admin login. Images are names and URLs, and base64 decoding (`atob`) is a function parameter of `verifyAdmin`.
- Electron windows, tray, updater, preload and IPC wrappers, the chart page, the public site's script, build scripts, configuration and logging.

## Findings

| source | as written | input that shows it | evidently intended | confidence | as-written member | corrected member |
|---|---|---|---|---|---|---|
| cloudflare-api/src/index.js:226-253 | times are written as the text of now + 9 h and read back as UTC, so every stored time is 9 hours ahead of the clock it is compared with | a key that used its 10 downloads at time 0 is still refused one hour later; the window lasts about 10 hours and a block about 33 | a one-hour window and a 24-hour block | high, not executed | RateLimit.ShiftedWindowStillOpen | RateLimit.UnshiftedWindowExact |
| cloudflare-api/src/index.js:907-919 | `unblockIP` clears every key ending in the address (a `LIKE` pattern with a leading `%`) | unblocking 1.1.1.1 also releases the block of 11.1.1.1 | clear only the `download:` and `inquiry:` rows of that address | high, not executed | RateLimit.UnblockSuffixReleasesOthers | RateLimit.UnblockExactSpec |
| src/renderer/js/schedule.js:32-40 | the month buttons call `setMonth(getMonth() ± 1)` and keep the day of the month, which can overflow | from 31 January the next button shows March (3 March 2025) | show the neighbouring month | high, not executed | Schedule.ShiftMonthSkips | Schedule.ShiftMonthNeighbours |
| src/renderer/js/app.js:299-320 | the done count is the size of `collectedSymbols`, which also holds the economic indicators | with crypto, exchange and the four economic indicators in, the bar says 12/12 and complete while gold, silver and oil are pending | count only the twelve items of `ALL_SYMBOLS` | high, not executed | App.ProgressCountsOthers | App.ProgressOfSpec |
