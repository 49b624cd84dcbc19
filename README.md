# Analytics dashboard state manager, modelled in Dafny

The dashboard (`main.js`, class `AnalyticsDashboard`) tracks a few shortened
links with their click counters. This project models the part of it that holds
state and computes values, without the page around it:

- the link collection and `addNewLink`: the input check, the record it builds
  (hyphenated lower-case id, `cutt.ly/` URL, status active, zero counters, a
  seven-zero trend) and the append. There is no check for duplicate ids;
- the aggregates of `updateMetrics`: total clicks, today's clicks, the number
  of active links, and `formatNumber`, which shows them;
- the period switch of `updateChartData` and `changePeriod`;
- the "last updated" label of `updateUI`;
- the two card filters, `filterLinks` (search) and `filterByStatus`;
- the auto-refresh handle of `startAutoRefresh` and the refresh cycle of
  `refreshData`.

Modules: `Decimal` (integer to decimal string and back), `Text` (ASCII
lowercasing, whitespace, `includes`), `Links` (the record), `Metrics`, `Chart`,
`Filters`, `Registry` (the add operation), `Refresh` (the label and the
browser's interval table), `Dashboard` (the class), `Wrappers` (`Option`).

Pure code is written as functions with lemmas. The parts that assign fields
are methods of the class `Dashboard.AnalyticsDashboard`:
- `links` is appended to in place;
- `currentPeriod` is assigned;
- `refreshInterval` is cleared and replaced;
- `lastUpdateTime` is overwritten.

`Valid()` is the class invariant. It says every record has a seven-point
trend. It also says the interval table holds exactly the stored handle, or
nothing when no handle is stored.

Clocks and timers become parameters and explicit steps:
- the current time is an argument `nowMs`, in milliseconds;
- each `setTimeout` completion of `refreshData` is a counted pending step;
- that step runs as `CompleteRefresh`.

`addNewLink` has no duplicate-id check, and `refreshData` has no guard
against a refresh already pending. The model follows the code:
- `AddTwiceDuplicatesId` shows that two records can share an id;
- `DoubleRefreshCompletesTwice` shows that two refreshes started back to back
  both complete.

## Model

| member | source | states |
|---|---|---|
| Decimal.NatToDecimal | main.js:341 | the decimal string of a natural number is non-empty, all digits, and has no leading zero |
| Decimal.ParseNatOfDecimal | main.js:341 | reading the decimal string back gives the number (rendering is invertible) |
| Decimal.IntToDecimal | main.js:313 | the `${minutes}` interpolation: a negative count is "-" followed by the digits of its magnitude, any other is its digits |
| Decimal.ParseIntOfDecimal | main.js:313 | a minute count interpolated into the label, sign included, reads back as the same integer |
| Decimal.IntToDecimalInjective | main.js:313 | two different minute counts never render the same text |
| Text.IsSpace | main.js:371 | the characters `\s` matches: space, tab, line feed, vertical tab, form feed, carriage return |
| Text.LowerStr | main.js:393-396 | `toLowerCase` lowers every character and keeps the length |
| Text.Contains | main.js:396 | `includes` holds exactly when the term occurs at some index of the string |
| Text.ContainsInfix | main.js:396 | any part of an occurring term also occurs |
| Text.ContainsLower | main.js:393-396 | an occurrence survives lowercasing of both strings |
| Links.StatusNameInjective | main.js:408-416 | the three status names are distinct, so a name identifies one status |
| Metrics.SumConcat | main.js:322-323 | the reduce-sum of a concatenation is the sum of the parts' sums |
| Metrics.SumFromFirst | main.js:322-323 | the left-fold sum equals the first record's counter plus the sum of the rest |
| Metrics.SumBoundsEach | main.js:322-323 | no record's counter exceeds the total over all records |
| Metrics.SumZeroIff | main.js:322-323 | an aggregate is zero exactly when every record's counter is zero |
| Metrics.Sum | main.js:322-323 | the `reduce` from 0 that adds one counter of every record, left to right |
| Metrics.TotalClicks | main.js:322 | the sum of the `total` counters |
| Metrics.TodayClicks | main.js:323 | the sum of the `daily` counters |
| Metrics.ActiveLinks | main.js:324 | the filtered list holds only active links from the input, holds every active link, and is no longer than the input |
| Metrics.ActiveLinksMultiplicity | main.js:324 | the filter keeps every occurrence of an active record, as often as it occurs in the input, and no occurrence of any other record |
| Metrics.ActiveCount | main.js:324 | the active-link count never exceeds the number of links |
| Metrics.ActiveLinksAppend | main.js:324 | appending a link extends the active list by that link exactly when it is active |
| Metrics.ActiveCountAll | main.js:324 | every link is counted exactly when every link is active |
| Metrics.FormatNumber | main.js:337-342 | the result ends in `K` exactly when the number is at least 1000 |
| Metrics.FormatNumberSmall | main.js:341 | below 1000 the result is the number's decimal string and reads back as the number |
| Metrics.FormatNumberLarge | main.js:338-339 | from 1000 on the result is `<whole>.<digit>K`, whose tenths of a thousand are the ones nearest the number |
| Metrics.FormatNumberExamples | main.js:337-342 | 999 gives "999", 1000 gives "1.0K", 12345 gives "12.3K" |
| Metrics.MetricsOf | main.js:321-335 | the total and today cells show the formatted sums; the active cell shows the count in decimal |
| Chart.ChartData | main.js:240-253 | drawing fails exactly for the daily period with no links; otherwise they are seven labels |
| Chart.ChartDataSevenPoints | main.js:240-252 | with well-formed links every period draws seven labels and seven values |
| Chart.DailyIsPrimaryTrend | main.js:241-243 | the daily series is the first link's trend, with the weekday labels, whatever the other links hold |
| Chart.StaticPeriodsIgnoreLinks | main.js:245-252 | weekly and monthly draw the fixed series, the same for any two collections of links |
| Filters.SearchMatches | main.js:393-396 | a card matches when its lowercased name or URL includes the lowercased term |
| Filters.SearchVisibility | main.js:390-402 | a card is shown after a search exactly when the search test holds of it |
| Filters.EmptySearchShowsAll | main.js:396 | an empty term shows every card |
| Filters.SearchIgnoresTermCase | main.js:396 | lowercasing the term does not change which cards are shown |
| Filters.NarrowingSearchHides | main.js:396 | a card shown for a longer term is shown for each prefix of it |
| Filters.VerbatimNameIsFound | main.js:393-396 | a card whose name contains the term is shown |
| Filters.CardStatus | main.js:407-414 | the paused class gives paused; otherwise the inactive class gives inactive; otherwise active |
| Filters.StatusMatches | main.js:416 | a card matches when the filter is `all` or names the card's status |
| Filters.StatusVisibility | main.js:404-422 | a card is shown after a status filter exactly when the status test holds of it |
| Filters.StatusFilterSelects | main.js:416 | `all` shows every card; a status name shows exactly the cards with that status |
| Filters.UnknownStatusHidesAll | main.js:416 | a filter value that is neither `all` nor a status name hides every card |
| Registry.ValidInput | main.js:365 | input is accepted exactly when name, original URL and suffix are all non-empty |
| Registry.Slug | main.js:371 | the id is the suffix lowercased, then with each whitespace run replaced by a hyphen |
| Registry.NewLink | main.js:370-377 | the new record: slug id, the name, `cutt.ly/` before the suffix, active, zero clicks, a seven-zero trend |
| Registry.ReplaceSpaceRuns | main.js:371 | replacing whitespace runs leaves no whitespace and never lengthens the string |
| Registry.ReplaceSpaceRunsJoin | main.js:371 | splitting at a maximal whitespace run, the result is both sides' results joined by one hyphen |
| Registry.SlugShape | main.js:371 | the derived id has no whitespace and is no longer than the suffix |
| Registry.SlugOfWord | main.js:371 | a suffix without whitespace becomes its lowercased self |
| Registry.SlugJoin | main.js:371 | each maximal whitespace run in the suffix becomes exactly one hyphen in the id |
| Registry.SlugOfSpacedSuffix | main.js:371 | the suffix "Ab C" gives the id "ab-c" |
| Registry.NewLinkShape | main.js:370-377 | the new record: id without whitespace, given name, URL `cutt.ly/` followed by the suffix, active, all five counters 0, seven-zero trend |
| Registry.AddLink | main.js:365-379 | an empty field leaves the links unchanged; otherwise the links grow by one and the earlier records keep their places |
| Registry.AddLinkAppendsLast | main.js:379 | the new record is last, and every earlier record is unchanged |
| Registry.AddLinkWellFormed | main.js:376-379 | adding keeps every trend seven points long |
| Registry.AddLinkKeepsSums | main.js:375-379 | adding changes no click aggregate, total and today's included |
| Registry.AddLinkCountsActive | main.js:374-379 | a successful add counts one more active link; a rejected one counts none |
| Registry.AddTwiceDuplicatesId | main.js:370-379 | two accepted inputs whose suffixes give the same id append two records sharing that id |
| Registry.AddLinkScenario | main.js:360-379 | one seed with 500 clicks, then adding "Ab C", gives id "ab-c", one more active link, and the total still reads "500" |
| Refresh.Minutes | main.js:309 | the minute count is the one whose minute window contains the elapsed milliseconds (floor division) |
| Refresh.UpdateLabel | main.js:310-313 | zero minutes gives "Şimdi güncellendi", any other count gives the count followed by " dakika önce güncellendi" |
| Refresh.LastUpdateLabel | main.js:308-314 | the label for the minutes elapsed between the last update and now |
| Refresh.MinutesUnique | main.js:309 | no other integer brackets the elapsed time, so the floor is determined |
| Refresh.UpdateLabelJustNow | main.js:310-311 | the label is "Şimdi güncellendi" exactly when the minute count is 0 |
| Refresh.UpdateLabelAgo | main.js:312-313 | otherwise the label ends in " dakika önce güncellendi" and its head reads back as the minute count |
| Refresh.LastUpdateLabelJustNow | main.js:308-314 | "Şimdi güncellendi" is shown exactly while less than a minute has passed since the last update |
| Refresh.IntervalTable.constructor | main.js:6 | before any `setInterval` no interval is live, matching the `null` handle the dashboard starts with |
| Refresh.IntervalTable.SetInterval | main.js:299-301 | registers a live interval under a fresh positive handle |
| Refresh.IntervalTable.ClearInterval | main.js:295 | removes the handle from the live intervals |
| Dashboard.AnalyticsDashboard.constructor | main.js:3-8 | no links, daily period, no interval, last update now |
| Dashboard.AnalyticsDashboard.InitializeData | main.js:22-23 | the seed replaces the collection |
| Dashboard.AnalyticsDashboard.Init | main.js:13-18 | the seed is loaded; the timer starts, leaving exactly one live interval, unless the page has the chart element (main.js:151-152) and the seed is empty: then drawing the chart fails on `links[0]` (main.js:208) and no interval is started |
| Dashboard.AnalyticsDashboard.ChangePeriod | main.js:222-233 | stores the period and returns its series; the links are not modified |
| Dashboard.AnalyticsDashboard.RefreshData | main.js:265-277 | schedules one more completion, with no check for one already pending |
| Dashboard.AnalyticsDashboard.CompleteRefresh | main.js:277-279 | the last update time becomes the completion time |
| Dashboard.AnalyticsDashboard.StartAutoRefresh | main.js:292-302 | the stored interval is cleared; afterwards exactly one interval is live, and it is a new one |
| Dashboard.AnalyticsDashboard.OnRefreshInterval | main.js:299-301 | each tick of the live interval schedules one refresh |
| Dashboard.AnalyticsDashboard.AddNewLink | main.js:360-388 | the links become `AddLink` of the old links; a refresh is scheduled only on success; total and today's clicks are unchanged; active links grow by one on success |
| Dashboard.AnalyticsDashboard.UpdateUI | main.js:304-319 | the label is "Şimdi güncellendi" exactly within a minute of the last update, and otherwise the signed minute count followed by " dakika önce güncellendi"; the metric cells are those of the current links |
| Dashboard.StartTwiceLeavesOneTimer | main.js:292-302 | starting the auto-refresh twice leaves exactly one live interval |
| Dashboard.DoubleRefreshCompletesTwice | main.js:265-290 | two refreshes started back to back both complete; the later completion time wins |

## Left out

- All DOM work is left out: element lookups, `textContent` and `innerHTML` writes, class toggles, modals, the form reset, `alert` and `showSuccessMessage`. These are output sinks. `AddNewLink` returns `false` where the source alerts.
- The ECharts setup (`initPerformanceChart`), the `anime` hover effects, theme selection and `saveSettings` are left out: they are foreign-library or UI-only code. The one effect of the chart setup that the model keeps is its failure on an empty collection. `Init`'s `hasChart` says whether the page has the chart element.
- `updateChartData` returns early when no chart widget exists. This is left out: the model always returns the series.
- The real delays are left out: 500 ms in `initializeData`, 1000 ms in `refreshData`, the 60000 ms interval. A completion is an explicit step, and times are parameters.
- `init` is `async`, and the constructor calls it without waiting. `init` runs synchronously up to the `await` inside `initializeData`, and the seed assignment comes before that `await`, so in the source `this.links` already holds the seed when the constructor returns. The model's constructor leaves the links empty, and `Init` is a separate step after it. It loads the seed and then starts the timer, unless drawing the chart has failed first.
- The literal seed data is left out: three of its `clicks` objects are not valid JavaScript. `InitializeData` takes any seed whose trends have seven points.
- Period strings other than the three known ones are left out. The `switch` has no default for them, so `Period` has three constructors.
- Duplicate-id rejection and link removal are left out: neither exists in the code.
- Metrics.FormatNumber: rounds the tenths half up on the exact quotient. `toFixed(1)` rounds the double nearest `n/1000`, taking the larger candidate on an exact tie. The two agree except where `n mod 100 = 50` and that double lies just below the tie: there the source rounds down, so 1150 gives "1.1K" in the source and "1.2K" here. Where the double lies on the tie or above it (1050, 1250) the two agree. Very large `n` (exponent notation above 10^21 thousands, or beyond exact doubles) is not modelled either.
- Metrics.FormatNumberLarge: its "nearest tenth, ties upward" reading is the model's rounding, so it has the same gap at the ties whose double lies below the tie (1150 and the like).
- Text.Lower: only ASCII `A`-`Z` are lowercased. JavaScript's Unicode case mapping (`İ`, `Ş`, …) is not modelled.
- Text.IsSpace: only the six ASCII characters of `\s` count as whitespace. The Unicode space separators `\s` also matches are not modelled.
- JavaScript numbers are unbounded naturals here: no click counter or sum loses precision above 2^53.
- `filterByStatus` fails when a card has no status element. This is left out: cards are assumed to carry one. The card's title is taken to be the link name and its paragraph the short URL; the card markup is not part of this model.
- Each filter sets every card's visibility on its own, so the filter applied last decides. The model gives each filter's visibility separately.
- `changePeriod` looks up the period's button in the DOM; this is left out.
- Concurrency is left out: the browser runs callbacks one at a time. Interleavings of ticks and completions are sequences of method calls.
