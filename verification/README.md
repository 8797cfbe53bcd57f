# kakao-web: leaderboard aggregation and live feed, in Dafny

kakao-web stores chat messages from a KakaoTalk bot in a `logs` table and shows
them on two pages. This project models the logic of those two pages.

- **Dashboard** (`src/app/dashboard/page.tsx`). It requests every log in ascending
  `created_at` order. For the selected range (`day`, `week`, `month` or `year`)
  it keeps the logs no older than `now − lookback`. It groups them by sender,
  filing a missing or empty sender under `(알 수 없음)`. It then computes each
  sender's count and percentage and sorts the senders by count, highest first.
  It shows the top 10 as a bar chart, the top 8 as a pie chart, and a summary
  card with the total, the number of active senders and the rounded mean.
  The page recomputes the stats only while some logs are loaded.
- **Live feed** (`src/app/page.tsx`). It keeps one list of logs. A load replaces
  the list with the store's rows, newest first. Each realtime INSERT puts the
  new row at the front. There is no deduplication by `id` and no re-sorting.
  The page shows a fallback label for a row with no sender or no room.

Modules:

- `Logs` (logs.dfy): the row type and JavaScript truthiness of nullable text.
- `TimeWindow` (time_window.dfy): the lookback table, the cutoff and the filter.
- `SenderTally` (sender_tally.dfy): the sender key, and the loop that fills
  `userMap`. That loop is a method proved against the functions `Senders`
  (the keys in insertion order) and `Occurrences` (the count per key).
- `Ranking` (ranking.dfy): percentages, the stable descending sort, and the
  `slice` projections.
- `Dashboard` (dashboard.dfy): `RankedStats`, the specification of
  `calculateStats`. It also holds the lemmas about that function, the summary
  card figures, and the `DashboardPage` class. That class models the page's
  `logs`, `timeRange` and `userStats` state and the effect that recomputes stats.
- `LiveFeed` (live_feed.dfy): the list reducer (`Step`, `Replay`), the `Feed`
  class with its `logs` field, and the display fallbacks.

Modelling choices:

- Timestamps are integer milliseconds.
- The evaluation instant `now` is a parameter.
- Percentages are exact reals.
- `Math.round` of the non-negative mean is integer half-up rounding.
- The range selector is a string, as at run time, so the `default` branch of
  the switch can be reached.
- A JavaScript `Map` keeps its keys in insertion order. It is modelled as a
  sequence of keys plus a `map` of counts.
- `Array.prototype.sort` is stable. It is modelled as a stable insertion sort.

The code has no backward pagination or cursor, no dedup by `id`, no sorted
insertion of live rows, no unread counter and no reconnection handling. It
prepends every live row as it arrives, and count ties keep the order in which
the senders first appear among the logs inside the selected window.

Two behaviours of the dashboard follow from React's effect rules and are
stated in the contracts:

- A fetch that returns an empty list keeps the previous stats.
- Re-selecting the current range does not recompute, so the stats keep the
  instant at which they were last computed.

## Model

| member | source | states |
|---|---|---|
| TimeWindow.LookbackDays | src/app/dashboard/page.tsx:60-71 | The lookback is 1, 7, 30 or 365 days; no selector can produce any other window |
| TimeWindow.LookbackMs | src/app/dashboard/page.tsx:58-72 | The lookback is a positive whole number of days, at least one day |
| TimeWindow.LookbackTable | src/app/dashboard/page.tsx:58-72 | day, week, month and year are exactly 86 400 000, 604 800 000, 2 592 000 000 and 31 536 000 000 ms; any other selector gets the day lookback |
| TimeWindow.LookbackNested | src/app/dashboard/page.tsx:61-68 | The four windows are strictly nested: day < week < month < year |
| TimeWindow.Cutoff | src/app/dashboard/page.tsx:58-72 | The start date is `now` minus the lookback, so it is at least one day before `now` |
| TimeWindow.InWindow | src/app/dashboard/page.tsx:76 | A log is kept iff its `created_at` is at or after the cutoff; nothing is added |
| TimeWindow.InWindowAppend | src/app/dashboard/page.tsx:76 | The filter distributes over concatenation of snapshots |
| TimeWindow.InWindowBoundary | src/app/dashboard/page.tsx:76 | The filter is inclusive: a log exactly at the cutoff is kept |
| TimeWindow.InWindowWiden | src/app/dashboard/page.tsx:58-76 | Filtering with a narrower window equals filtering the wider window's result again, so a wider range keeps everything a narrower one keeps |
| SenderTally.SenderKey | src/app/dashboard/page.tsx:80 | A missing or empty sender is counted under `(알 수 없음)`; any other sender under its own name; the key is never empty |
| SenderTally.BuildUserMap | src/app/dashboard/page.tsx:78-82 | The loop leaves `userMap` with keys in first-insertion order, each key once, each count equal to the number of logs filed under it and at least 1 |
| SenderTally.OccurrencesSnoc | src/app/dashboard/page.tsx:81 | One more log adds one to its own sender's count and nothing to any other |
| SenderTally.SendersDistinct | src/app/dashboard/page.tsx:78-82 | Map keys are distinct |
| SenderTally.SendersExactly | src/app/dashboard/page.tsx:78-82 | A sender is a key iff some log is filed under it, iff its count is at least 1 |
| SenderTally.SendersSnoc | src/app/dashboard/page.tsx:80-81 | One more log adds its sender as a new last key iff that sender is not already a key; otherwise the keys stay as they were |
| SenderTally.SendersPrefix | src/app/dashboard/page.tsx:78-82 | Keys enter in order of first appearance: the keys of any prefix of the logs are a prefix of the keys |
| SenderTally.TallyConserves | src/app/dashboard/page.tsx:78-84 | Count conservation: the counts over all keys sum to the number of filtered logs |
| Ranking.Percentage | src/app/dashboard/page.tsx:89 | With total > 0 the percentage times the total is count × 100, and it lies in [0, 100] when count ≤ total; with total 0 it is 0 |
| Ranking.PercentageOfWhole | src/app/dashboard/page.tsx:89 | The total is 100 % of itself |
| Ranking.Entries | src/app/dashboard/page.tsx:85-90 | One stat per map key, in key order, with that key's count and its percentage of the total |
| Ranking.EntriesShares | src/app/dashboard/page.tsx:84-90 | The percentages of the entries sum to the percentage of the summed counts |
| Ranking.InsertByCount | src/app/dashboard/page.tsx:91 | Inserting a stat into the ranked list adds exactly that stat |
| Ranking.SortByCount | src/app/dashboard/page.tsx:91 | Sorting is a permutation of its input |
| Ranking.SortedByCount | src/app/dashboard/page.tsx:91 | The sorted list is non-increasing by count |
| Ranking.SortStable | src/app/dashboard/page.tsx:91 | The sort is stable: for every count, the stats with that count keep their input order |
| Ranking.SortKeepsUniqueSenders | src/app/dashboard/page.tsx:91 | Sorting keeps each sender at most once |
| Ranking.SortKeepsSums | src/app/dashboard/page.tsx:91 | Sorting keeps the sum of counts and the sum of percentages |
| Ranking.Top | src/app/dashboard/page.tsx:187 | `slice(0, k)` is the prefix of length min(k, n) of the list |
| Ranking.BarView | src/app/dashboard/page.tsx:163 | The bar chart shows the first min(10, n) entries of the ranking, in ranking order |
| Ranking.PieView | src/app/dashboard/page.tsx:187 | The pie chart shows the first min(8, n) entries, which are a prefix of what the bar chart shows |
| Ranking.TopDominates | src/app/dashboard/page.tsx:163-195 | On a ranked list, every one of the top k has a count at least as large as any entry left out; the pie's 8 entries are a prefix of the bar's 10 |
| Dashboard.Unsorted | src/app/dashboard/page.tsx:85-90 | One stat per distinct sender of the counted logs |
| Dashboard.RankedStats | src/app/dashboard/page.tsx:74-94 | The ranking has one entry per distinct sender of the logs in the window and is non-increasing by count |
| Dashboard.CalculateStats | src/app/dashboard/page.tsx:74-94 | The method (filter, in-place map loop, map, sort) returns exactly the stats of `RankedStats` |
| Dashboard.RankedEntries | src/app/dashboard/page.tsx:76-90 | A sender is ranked iff some log at or after the cutoff is filed under it; its entry carries its exact count (at least 1) and that count's percentage of the filtered total |
| Dashboard.RankedUnique | src/app/dashboard/page.tsx:78-91 | Each sender appears at most once in the ranking |
| Dashboard.RankedConserves | src/app/dashboard/page.tsx:78-85 | The ranked counts sum to the number of filtered logs |
| Dashboard.UnsortedShares | src/app/dashboard/page.tsx:84-90 | With any log counted, the unsorted stats are non-empty and their shares sum to 100 |
| Dashboard.RankedShares | src/app/dashboard/page.tsx:84-90 | A non-empty ranking's percentages sum to exactly 100; the ranking is empty iff no log is in the window (the no-data message at line 258) |
| Dashboard.RankedOrder | src/app/dashboard/page.tsx:85-91 | The ranking is non-increasing by count, and equal counts keep `userMap` insertion order, which is first appearance among the logs in the window (a sender whose first log is older than the cutoff ranks by its first in-window log) |
| Dashboard.CountedIff | src/app/dashboard/page.tsx:76 | One more log raises its sender's count by one iff its `created_at` is at or after the cutoff |
| Dashboard.StaleLogIgnored | src/app/dashboard/page.tsx:51-76 | A log older than the cutoff, anywhere in the snapshot, leaves the ranking unchanged: removing it gives the same ranking |
| Dashboard.WiderWindowCountsMore | src/app/dashboard/page.tsx:58-76 | A wider window never gives a sender a lower count |
| Dashboard.DayExample | src/app/dashboard/page.tsx:58-94 | Over a day, X at −25h, −2h, −1h and Y at −3h rank as X: 2 (200/3 %), then Y: 1 (100/3 %) |
| Dashboard.TieOrderIsWindowOrder | src/app/dashboard/page.tsx:76-91 | Over a day, X at −25h and −2h and Y at −3h rank as Y: 1 (50 %) before X: 1 (50 %): ties follow first appearance inside the window, not in the snapshot |
| Dashboard.RoundHalfUp | src/app/dashboard/page.tsx:280 | `Math.round(n / d)` is the integer m with m − ½ ≤ n/d < m + ½ |
| Dashboard.RoundHalfUpPositive | src/app/dashboard/page.tsx:280 | The rounded mean of a total at least the divisor is at least 1 |
| Dashboard.TotalChats | src/app/dashboard/page.tsx:270 | The total chat count is at least every single sender's count |
| Dashboard.ActiveUsers | src/app/dashboard/page.tsx:270-274 | When every ranked count is at least 1, the number of active users is at most the total chat count (SummaryCard fixes it as the number of distinct senders) |
| Dashboard.MeanChats | src/app/dashboard/page.tsx:279-282 | The mean shown for no senders is 0; otherwise it is total ÷ senders rounded half up: 2·n·m ≤ 2·total + n < 2·n·m + 2·n |
| Dashboard.CountsAtLeastOne | src/app/dashboard/page.tsx:270 | Counts of at least one sum to at least the number of entries |
| Dashboard.SummaryCard | src/app/dashboard/page.tsx:270-282 | The card's total is the number of filtered logs, its active users the number of distinct senders, and its mean is at least 1 when anyone is ranked |
| Dashboard.DashboardPage.constructor | src/app/dashboard/page.tsx:25-27 | The page starts with no logs, range `day` and no stats |
| Dashboard.DashboardPage.Recompute | src/app/dashboard/page.tsx:40-44 | The effect recomputes the stats from the logs and range iff some logs are loaded; otherwise the previous stats stay. After a recompute the no-data message shows iff no log lies in the window |
| Dashboard.DashboardPage.ShowsNoData | src/app/dashboard/page.tsx:258 | While the no-data message shows, the summary card reads 0 chats, 0 users and a mean of 0 |
| Dashboard.DashboardPage.FetchLogs | src/app/dashboard/page.tsx:46-56 | Returned data replaces the logs and, when it is non-empty, the stats; no data changes nothing |
| Dashboard.DashboardPage.SelectRange | src/app/dashboard/page.tsx:136 | Selecting a new range recomputes the stats if logs are loaded; re-selecting the current range recomputes nothing |
| LiveFeed.Step | src/app/page.tsx:20-36 | An INSERT puts the row at index 0 in front of the unchanged previous list; a load with no data changes nothing |
| LiveFeed.Replay | src/app/page.tsx:12-36 | The list's length is the number of rows inserted since the last successful load plus the number that load returned |
| LiveFeed.ReplayShape | src/app/page.tsx:15-36 | After any sequence of events, the list is the rows inserted since the last successful load, newest first, in front of exactly the rows that load returned |
| LiveFeed.LoadResult | src/app/page.tsx:15-20 | A load with data makes the list that data, whatever was inserted before; a load with no data leaves it unchanged |
| LiveFeed.CountIdPresent | src/app/page.tsx:33-36 | A row with a given `id` is present iff that `id` is counted at least once |
| LiveFeed.InsertNoDedup | src/app/page.tsx:33-36 | An insert puts the row at index 0, keeps the earlier rows in order and grows the list by one; a redelivered `id` then appears at least twice |
| LiveFeed.InsertDoesNotSort | src/app/page.tsx:36 | A row older than the current head is not re-sorted, so the newest-first order breaks |
| LiveFeed.InsertInOrder | src/app/page.tsx:19-36 | Rows that arrive in creation order keep a newest-first list newest first |
| LiveFeed.SenderLabel | src/app/page.tsx:66 | A truthy sender is shown as itself and a missing or empty one as `알수없음`; the label is never empty |
| LiveFeed.RoomLabel | src/app/page.tsx:69 | A truthy room is shown as itself and a missing or empty one as `개인톡`; the label is never empty |
| LiveFeed.SenderSentinelsDiffer | src/app/page.tsx:66 | A row without a sender reads `알수없음` on the feed, which differs from the dashboard key `(알 수 없음)`; a row with a sender reads the same on both |
| LiveFeed.EmptyMessageShown | src/app/page.tsx:15-36 | After any sequence of events the list is empty iff no row was inserted since the last successful load and that load returned no rows |
| LiveFeed.Feed.ShowsEmptyMessage | src/app/page.tsx:86-88 | The empty-state message shows iff no row was inserted since the last successful load and that load returned no rows |
| LiveFeed.Feed.constructor | src/app/page.tsx:12 | The list starts empty |
| LiveFeed.Feed.FetchLogs | src/app/page.tsx:15-21 | Returned data replaces the list; no data leaves it; the list stays equal to the replay of its events |
| LiveFeed.Feed.OnInsert | src/app/page.tsx:33-37 | The new row is prepended to the unchanged previous list; the list stays equal to the replay of its events |

## Left out

- Supabase: client construction, the `select`/`order` queries, and realtime channel setup and removal are not modelled. Query results are `Option<seq<Log>>` parameters, and INSERT notifications are events. The store's row cap (1,000 rows by default for a query without `range`/`limit`, which in ascending order are the oldest rows) is not modelled: `data` may be any list.
- Row ordering: the order the store returns rows in (ascending for the dashboard, newest first for the feed) is the store's promise. The model does not enforce it.
- `Date`: parsing of `created_at` is not modelled. A timestamp is an integer in milliseconds, so a log whose `created_at` cannot be parsed is not modelled.
- The clock: `new Date()` is the `now` parameter.
- Concurrency: interleaving of the fetch response with realtime callbacks is not modelled. Only sequential orders of events are.
- Display: `toFixed(1)` and `toLocaleString` formatting are left out. The percentage is an exact real.
- Page UI: the `loading` spinner, the `mounted` guard, theme switching, recharts rendering, colours, rank badges and `getTimeRangeLabel` are presentation only.
- src/app/api/log/route.ts: a pass-through insert of `{content: text}` with no logic. It is not part of this model, and neither are the two `layout.tsx` files or src/app/user/[username]/page.tsx.
- Dashboard.DashboardPage.SelectRange: the model does not capture React's batching of the state update with the re-render. The update and the effect happen in one step.
